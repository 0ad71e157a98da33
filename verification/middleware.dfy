/** The edge middleware as a decision table: for each request it either
    redirects (to strip a token or chaos parameters), answers 404 on an
    internal route, or lets the request continue, possibly without its
    `x-chaos-seed` header and possibly refreshing the session cookie. */
module Middleware {
  import opened Wrappers
  import Text
  import QueryParams
  import opened Environment
  import TrainingAuth

  /** What the middleware reads from a request. */
  datatype Request = Request(
    pathname: string,
    query: QueryParams.Params,
    tokenHeader: Option<string>,     // x-training-token
    sessionCookie: Option<string>,   // training_session cookie value
    hasChaosSeedHeader: bool)        // an x-chaos-seed header is present

  /** The session cookie and its options. */
  datatype SessionCookie = SessionCookie(
    value: string,
    httpOnly: bool,
    sameSite: string,
    secure: bool,
    path: string,
    maxAgeSeconds: int)

  const SessionMaxAge: int := 60 * 60 * 8

  datatype Action =
    | Redirect(pathname: string, query: QueryParams.Params, cookie: Option<SessionCookie>)
    | NotFound
    | Continue(dropChaosSeedHeader: bool, cookie: Option<SessionCookie>)

  const InternalPrefix: string := "/admin/training/"

  /** Routes hidden behind a 404 from unauthorised callers. */
  predicate IsInternalRoute(pathname: string) {
    || pathname == "/__state"
    || pathname == "/api/reset"
    || pathname == "/api/training/whoami"
    || pathname == "/admin/training"
    || (|pathname| >= |InternalPrefix| && pathname[..|InternalPrefix|] == InternalPrefix)
  }

  /** `env.INTERNAL_TRAINING_TOKEN` used as a JavaScript condition. */
  predicate HasExpectedToken(env: Env) {
    env.trainingToken.Some? && env.trainingToken.value != ""
  }

  /** The cookie that turns a valid token into an HttpOnly session. */
  function NewSessionCookie(env: Env): (c: SessionCookie)
    requires HasExpectedToken(env)
    ensures c.value == env.trainingToken.value && c.maxAgeSeconds == 28800
    ensures c.httpOnly && c.sameSite == "lax" && c.path == "/"
    ensures c.secure <==> IsProduction(env)
  {
    SessionCookie(env.trainingToken.value, true, "lax", IsProduction(env), "/", SessionMaxAge)
  }

  function Auth(env: Env, req: Request): TrainingAuth.AuthResult {
    TrainingAuth.GetTrainingAuthFromNextRequest(env, req.tokenHeader, req.query, req.sessionCookie)
  }

  /** Whether the request named any parameter that switches on chaos or debugging. */
  predicate HasChaosParams(q: QueryParams.Params) {
    QueryParams.Has(q, "chaos") || QueryParams.Has(q, "seed") || QueryParams.Has(q, "debug")
  }

  function StripChaosParams(q: QueryParams.Params): (r: QueryParams.Params)
    ensures !HasChaosParams(r)
    ensures forall p :: p in r <==> p in q && p.name !in {"chaos", "seed", "debug"}
  {
    QueryParams.Delete(QueryParams.Delete(QueryParams.Delete(q, "chaos"), "seed"), "debug")
  }

  /** `middleware(request)`. */
  function Decide(env: Env, req: Request): (a: Action)
    // A token in the query is always stripped first, by a redirect to the same path.
    ensures Auth(env, req).hadTokenInQuery ==>
              && a.Redirect? && a.pathname == req.pathname
              && a.query == QueryParams.Delete(req.query, TrainingAuth.TokenParam)
              && (a.cookie.Some? <==> Auth(env, req).authorized)
              && (a.cookie.Some? ==> a.cookie.value == NewSessionCookie(env))
    // Internal routes do not exist for unauthorised callers.
    ensures !Auth(env, req).hadTokenInQuery && IsInternalRoute(req.pathname) && !Auth(env, req).authorized ==>
              a == NotFound
    // In production without authorisation, chaos parameters are stripped by redirect ...
    ensures && !Auth(env, req).hadTokenInQuery && !IsInternalRoute(req.pathname)
            && TrainingAuth.ShouldHideInternalsInProd(env, Auth(env, req).authorized)
            && HasChaosParams(req.query) ==>
              a == Redirect(req.pathname, StripChaosParams(req.query), None)
    // ... and otherwise the seed header is dropped.
    ensures && !Auth(env, req).hadTokenInQuery && !IsInternalRoute(req.pathname)
            && TrainingAuth.ShouldHideInternalsInProd(env, Auth(env, req).authorized)
            && !HasChaosParams(req.query) ==>
              a == Continue(req.hasChaosSeedHeader, None)
    // Remaining requests continue; the cookie is refreshed when it is stale.
    ensures && !Auth(env, req).hadTokenInQuery
            && !TrainingAuth.ShouldHideInternalsInProd(env, Auth(env, req).authorized)
            && !(IsInternalRoute(req.pathname) && !Auth(env, req).authorized) ==>
              && a.Continue? && !a.dropChaosSeedHeader
              && (a.cookie.Some? <==> Auth(env, req).authorized && req.sessionCookie != env.trainingToken)
              && (a.cookie.Some? ==> a.cookie.value == NewSessionCookie(env))
    // No redirect or response ever sets a cookie for an unauthorised caller.
    ensures (a.Redirect? || a.Continue?) && a.cookie.Some? ==> Auth(env, req).authorized
  {
    var auth := Auth(env, req);
    if auth.hadTokenInQuery then
      var cookie := if auth.authorized && HasExpectedToken(env) then Some(NewSessionCookie(env)) else None;
      Redirect(req.pathname, QueryParams.Delete(req.query, TrainingAuth.TokenParam), cookie)
    else if IsInternalRoute(req.pathname) && !auth.authorized then
      NotFound
    else if TrainingAuth.ShouldHideInternalsInProd(env, auth.authorized) && HasChaosParams(req.query) then
      Redirect(req.pathname, StripChaosParams(req.query), None)
    else if TrainingAuth.ShouldHideInternalsInProd(env, auth.authorized) && req.hasChaosSeedHeader then
      Continue(true, None)
    else
      var refresh := auth.authorized && HasExpectedToken(env) && req.sessionCookie != env.trainingToken;
      Continue(false, if refresh then Some(NewSessionCookie(env)) else None)
  }

  /** The three parameter names are the only ones a production redirect removes. */
  lemma StripKeepsOthers(q: QueryParams.Params, other: string)
    requires other !in {"chaos", "seed", "debug"}
    ensures QueryParams.Get(StripChaosParams(q), other) == QueryParams.Get(q, other)
  {
    QueryParams.GetDelete(q, "chaos", other);
    QueryParams.GetDelete(QueryParams.Delete(q, "chaos"), "seed", other);
    QueryParams.GetDelete(QueryParams.Delete(QueryParams.Delete(q, "chaos"), "seed"), "debug", other);
  }

  /** Whatever the request, a cookie the middleware sets is the session of
      an authorised caller: it holds exactly the expected token, is out of
      reach of the page's scripts, covers the whole site, is sent on
      top-level navigations only, lasts eight hours, and is secure exactly
      in production. */
  lemma SessionCookieHidden(env: Env, req: Request)
    ensures var a := Decide(env, req);
            (a.Redirect? || a.Continue?) && a.cookie.Some? ==>
              && Auth(env, req).authorized
              && Some(a.cookie.value.value) == TrainingAuth.ExpectedToken(env)
              && a.cookie.value.httpOnly && a.cookie.value.sameSite == "lax" && a.cookie.value.path == "/"
              && a.cookie.value.maxAgeSeconds == 8 * 3600
              && (a.cookie.value.secure <==> IsProduction(env))
  {
  }
}
