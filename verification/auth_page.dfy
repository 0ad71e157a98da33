/** The demo login page: a chaos wait, a possible injected 401, the credential
    check against the demo accounts, a second wait and a possible scheduled
    session expiry; and logout. */
module AuthPage {
  import Chaos
  import opened Wrappers

  datatype DemoUser = DemoUser(email: string, password: string, name: string)

  /** What the page keeps of a signed-in user. */
  datatype User = User(email: string, name: string)

  const DemoUsers: seq<DemoUser> := [
    DemoUser("demo@example.com", "demo123", "Utilisateur Démo"),
    DemoUser("admin@example.com", "admin123", "Administrateur")]

  const InjectedUnauthorized: string := "401: Identifiants invalides"
  const BadCredentials: string := "Email ou mot de passe incorrect"

  /** Delay before a scheduled expiry signs the user out. */
  const ExpiryDelayMs: nat := 5000

  /** Index of the logout wait. */
  const LogoutIndex: int := 100

  /** `DEMO_USERS.find(u => u.email === email && u.password === password)`. */
  function FindUser(users: seq<DemoUser>, email: string, password: string): (r: Option<DemoUser>)
    ensures r.Some? ==> r.value in users && r.value.email == email && r.value.password == password
    ensures r.None? <==> forall u :: u in users ==> !(u.email == email && u.password == password)
  {
    if |users| == 0 then None
    else if users[0].email == email && users[0].password == password then Some(users[0])
    else FindUser(users[1..], email, password)
  }

  datatype Login =
    | LoginFailed(message: string, waits: seq<Chaos.Wait>)
    | LoggedIn(user: User, waits: seq<Chaos.Wait>, expires: bool)

  /** The index used by the second wait: `requestIndex++` inside the error
      check runs only when chaos is on, so the index is 2 with chaos and 1
      without. */
  function SecondWaitIndex(cfg: Chaos.ChaosConfig): int {
    if cfg.enabled then 2 else 1
  }

  /** `handleLogin`. */
  function HandleLogin(unit: Chaos.UnitMap, cfg: Chaos.ChaosConfig, email: string, password: string): (r: Login)
    ensures |r.waits| >= 1 && r.waits[0] == Chaos.SimulateNetworkDelay(unit, cfg.seed, cfg, 0)
    ensures r.LoggedIn? <==>
              && !(cfg.enabled && Chaos.ShouldTriggerError(unit, cfg.seed, cfg.errorRate, 1))
              && FindUser(DemoUsers, email, password).Some?
    ensures r.LoggedIn? ==>
              && r.user == User(email, FindUser(DemoUsers, email, password).value.name)
              && |r.waits| == 2
              && r.waits[1] == Chaos.SimulateNetworkDelay(unit, cfg.seed, cfg, SecondWaitIndex(cfg))
              && (r.expires <==> cfg.enabled && Chaos.ShouldTriggerError(unit, cfg.seed, cfg.errorRate * 0.5, 3))
    ensures r.LoginFailed? ==> |r.waits| == 1
    ensures r.LoginFailed? ==>
              r.message == if cfg.enabled && Chaos.ShouldTriggerError(unit, cfg.seed, cfg.errorRate, 1)
                           then InjectedUnauthorized else BadCredentials
  {
    var first := Chaos.SimulateNetworkDelay(unit, cfg.seed, cfg, 0);
    if cfg.enabled && Chaos.ShouldTriggerError(unit, cfg.seed, cfg.errorRate, 1) then
      LoginFailed(InjectedUnauthorized, [first])
    else
      match FindUser(DemoUsers, email, password)
      case None => LoginFailed(BadCredentials, [first])
      case Some(found) =>
        var second := Chaos.SimulateNetworkDelay(unit, cfg.seed, cfg, SecondWaitIndex(cfg));
        var expires := cfg.enabled && Chaos.ShouldTriggerError(unit, cfg.seed, cfg.errorRate * 0.5, 3);
        LoggedIn(User(found.email, found.name), [first, second], expires)
  }

  /** With chaos off the page is a plain credential check: it never waits,
      never injects a 401 and never schedules an expiry. */
  lemma LoginWithoutChaos(unit: Chaos.UnitMap, cfg: Chaos.ChaosConfig, email: string, password: string)
    requires !cfg.enabled
    ensures var r := HandleLogin(unit, cfg, email, password);
            && (r.LoggedIn? <==> exists u :: u in DemoUsers && u.email == email && u.password == password)
            && (forall k :: 0 <= k < |r.waits| ==> r.waits[k] == Chaos.NoWait)
            && (r.LoggedIn? ==> !r.expires)
            && (r.LoginFailed? ==> r.message == BadCredentials)
  {
  }

  /** Each demo account can sign in when no error is injected. */
  lemma DemoAccountsSignIn(unit: Chaos.UnitMap, cfg: Chaos.ChaosConfig, k: nat)
    requires k < |DemoUsers|
    requires !(cfg.enabled && Chaos.ShouldTriggerError(unit, cfg.seed, cfg.errorRate, 1))
    ensures var r := HandleLogin(unit, cfg, DemoUsers[k].email, DemoUsers[k].password);
            r.LoggedIn? && r.user == User(DemoUsers[k].email, DemoUsers[k].name)
  {
    assert DemoUsers[0].email != DemoUsers[1].email by {
      assert DemoUsers[0].email[0] != DemoUsers[1].email[0];
    }
  }

  /** Under the chaos policy, when draw 1 injects no 401 and the credentials
      match, the login succeeds, and a session expiry is scheduled exactly
      when the draw at index 3 falls below half the error rate. */
  lemma ExpiryAtHalfRate(unit: Chaos.UnitMap, cfg: Chaos.ChaosConfig, email: string, password: string)
    requires cfg.enabled && cfg.errorRate == Chaos.ChaosErrorRate
    requires Chaos.SeededRandom(unit, cfg.seed, 1) >= Chaos.ChaosErrorRate
    requires FindUser(DemoUsers, email, password).Some?
    ensures HandleLogin(unit, cfg, email, password).LoggedIn?
    ensures HandleLogin(unit, cfg, email, password).expires <==> Chaos.SeededRandom(unit, cfg.seed, 3) < 0.05
  {
  }

  /** The page's session: the signed-in user, if any. */
  datatype Session = Session(user: Option<User>)

  /** Applying a login outcome: success signs the user in, failure leaves the
      session as it was. */
  function ApplyLogin(s: Session, r: Login): (t: Session)
    ensures r.LoggedIn? ==> t.user == Some(r.user)
    ensures r.LoginFailed? ==> t == s
  {
    if r.LoggedIn? then Session(Some(r.user)) else s
  }

  /** The scheduled expiry and `handleLogout` both end the session; logout
      first waits at index 100. */
  function HandleLogout(unit: Chaos.UnitMap, cfg: Chaos.ChaosConfig, s: Session): (r: (Chaos.Wait, Session))
    ensures r.0 == Chaos.SimulateNetworkDelay(unit, cfg.seed, cfg, LogoutIndex)
    ensures r.1.user.None?
  {
    (Chaos.SimulateNetworkDelay(unit, cfg.seed, cfg, LogoutIndex), Session(None))
  }

  function Expire(s: Session): (t: Session)
    ensures t.user.None?
  {
    Session(None)
  }

  /** The session holds nobody, or one of the demo accounts as the page
      shows it (email and display name). */
  predicate DemoSession(s: Session) {
    s.user.None? || exists k :: 0 <= k < |DemoUsers| && s.user.value == User(DemoUsers[k].email, DemoUsers[k].name)
  }

  /** Logging in, logging out and the scheduled expiry never put anyone but
      a demo account into the session. */
  lemma {:induction false} SessionStaysDemo(unit: Chaos.UnitMap, cfg: Chaos.ChaosConfig, s: Session,
                                            email: string, password: string)
    requires DemoSession(s)
    ensures DemoSession(ApplyLogin(s, HandleLogin(unit, cfg, email, password)))
    ensures DemoSession(HandleLogout(unit, cfg, s).1)
    ensures DemoSession(Expire(s))
  {
    var r := HandleLogin(unit, cfg, email, password);
    if r.LoggedIn? {
      var u := FindUser(DemoUsers, email, password).value;
      var k :| 0 <= k < |DemoUsers| && DemoUsers[k] == u;
      assert ApplyLogin(s, r).user.value == User(DemoUsers[k].email, DemoUsers[k].name);
    }
  }

  /** The scheduled expiry leaves the session exactly as a logout would,
      only without logout's wait; with chaos off logout does not wait
      either. */
  lemma ExpiryMatchesLogout(unit: Chaos.UnitMap, cfg: Chaos.ChaosConfig, s: Session)
    ensures Expire(s) == HandleLogout(unit, cfg, s).1
    ensures !cfg.enabled ==> HandleLogout(unit, cfg, s).0 == Chaos.NoWait
  {
  }
}
