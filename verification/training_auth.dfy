/** Authorisation of internal training routes: a request is authorised when
    it carries the expected token in the `x-training-token` header, in the
    `training_token` query parameter or in the `training_session` cookie. */
module TrainingAuth {
  import opened Wrappers
  import Text
  import QueryParams
  import opened Environment

  const SessionCookieName: string := "training_session"
  const TokenParam: string := "training_token"

  datatype AuthResult = AuthResult(authorized: bool, hadTokenInQuery: bool)

  /** `getExpectedToken()`: the configured token, treating "" as unset. */
  function ExpectedToken(env: Env): (t: Option<string>)
    ensures t.Some? ==> t.value != "" && env.trainingToken == t
    ensures t.None? <==> (env.trainingToken.None? || env.trainingToken == Some(""))
  {
    if env.trainingToken.Some? && |env.trainingToken.value| > 0 then env.trainingToken else None
  }

  /** The comparison shared by both request flavours. */
  function AuthFromTokens(env: Env, headerToken: Option<string>, queryToken: Option<string>,
                          cookieToken: Option<string>): (r: AuthResult)
    ensures ExpectedToken(env).None? ==> r == AuthResult(false, false)
    ensures ExpectedToken(env).Some? ==>
              (r.authorized <==> Some(ExpectedToken(env).value) in {headerToken, queryToken, cookieToken})
    ensures ExpectedToken(env).Some? ==>
              (r.hadTokenInQuery <==> queryToken.Some? && queryToken.value != "")
    ensures r.authorized ==> ExpectedToken(env).Some?
  {
    var expected := ExpectedToken(env);
    if expected.None? then AuthResult(false, false)
    else
      var authorized := headerToken == expected || queryToken == expected || cookieToken == expected;
      AuthResult(authorized, queryToken.Some? && queryToken.value != "")
  }

  /** `getTrainingAuthFromNextRequest`: the cookie comes pre-parsed. */
  function GetTrainingAuthFromNextRequest(env: Env, headerToken: Option<string>, query: QueryParams.Params,
                                          cookieToken: Option<string>): (r: AuthResult)
    ensures r.authorized <==> ExpectedToken(env).Some?
                              && (headerToken == ExpectedToken(env)
                                  || QueryParams.Get(query, TokenParam) == ExpectedToken(env)
                                  || cookieToken == ExpectedToken(env))
    ensures r.hadTokenInQuery <==> ExpectedToken(env).Some? && QueryParams.Get(query, TokenParam).Some?
                                   && QueryParams.Get(query, TokenParam).value != ""
  {
    AuthFromTokens(env, headerToken, QueryParams.Get(query, TokenParam), cookieToken)
  }

  /** `getTrainingAuthFromRequest`: the cookie is read from the raw
      `Cookie:` header. */
  function GetTrainingAuthFromRequest(env: Env, headerToken: Option<string>, query: QueryParams.Params,
                                      cookieHeader: Option<string>): (r: AuthResult)
    ensures r.authorized <==> ExpectedToken(env).Some?
                              && (headerToken == ExpectedToken(env)
                                  || QueryParams.Get(query, TokenParam) == ExpectedToken(env)
                                  || GetCookieValue(cookieHeader, SessionCookieName) == ExpectedToken(env))
    ensures r == GetTrainingAuthFromNextRequest(env, headerToken, query,
                                                GetCookieValue(cookieHeader, SessionCookieName))
  {
    AuthFromTokens(env, headerToken, QueryParams.Get(query, TokenParam),
                   GetCookieValue(cookieHeader, SessionCookieName))
  }

  /** The key of one cookie pair: the trimmed text before its first '='. */
  function CookieKey(part: string): string {
    Text.Before(Text.Trim(part), '=')
  }

  /** The value of one cookie pair: everything after the first '=' of the
      trimmed text, "" when there is no '='. */
  function CookieVal(part: string): string {
    Text.After(Text.Trim(part), '=')
  }

  /** No part of the header has key `name`. */
  predicate NoneWithKey(parts: seq<string>, name: string) {
    forall k :: 0 <= k < |parts| ==> CookieKey(parts[k]) != name
  }

  /** Part `k` is the first of `parts` whose key is `name`. */
  predicate FirstWithKey(parts: seq<string>, name: string, k: int) {
    && 0 <= k < |parts|
    && CookieKey(parts[k]) == name
    && forall j :: 0 <= j < k ==> CookieKey(parts[j]) != name
  }

  /** The loop of `getCookieValue` over the ';'-separated parts:
      `const [k, ...rest] = part.trim().split('='); if (k === name) return rest.join('=')`. */
  function FindCookie(parts: seq<string>, name: string): (r: Option<string>)
    ensures r.None? <==> NoneWithKey(parts, name)
    ensures r.Some? ==> exists k :: FirstWithKey(parts, name, k) && r.value == CookieVal(parts[k])
  {
    if |parts| == 0 then None
    else
      var trimmed := Text.Trim(parts[0]);
      var pieces := Text.Split(trimmed, '=');
      assert pieces[0] == CookieKey(parts[0]);
      if pieces[0] == name then
        Text.RestJoin(trimmed, '=');
        assert FirstWithKey(parts, name, 0);
        Some(Text.Join(pieces[1..], '='))
      else
        var r := FindCookie(parts[1..], name);
        ShiftFirstWithKey(parts, name);
        r
  }

  lemma ShiftFirstWithKey(parts: seq<string>, name: string)
    requires |parts| > 0 && CookieKey(parts[0]) != name
    ensures forall k :: FirstWithKey(parts[1..], name, k) ==> FirstWithKey(parts, name, k + 1)
    ensures NoneWithKey(parts[1..], name) ==> NoneWithKey(parts, name)
  {
    forall k | FirstWithKey(parts[1..], name, k)
      ensures FirstWithKey(parts, name, k + 1)
    {
      forall j | 0 <= j < k + 1 ensures CookieKey(parts[j]) != name {
        if j > 0 {
          assert parts[j] == parts[1..][j - 1];
        }
      }
    }
    if NoneWithKey(parts[1..], name) {
      forall k | 0 <= k < |parts| ensures CookieKey(parts[k]) != name {
        if k > 0 {
          assert parts[k] == parts[1..][k - 1];
        }
      }
    }
  }

  /** `getCookieValue(cookieHeader, name)`. */
  function GetCookieValue(cookieHeader: Option<string>, name: string): (r: Option<string>)
    ensures r.None? <==> cookieHeader.None? || cookieHeader == Some("")
                         || NoneWithKey(Text.Split(cookieHeader.value, ';'), name)
    ensures r.Some? ==> exists k :: FirstWithKey(Text.Split(cookieHeader.value, ';'), name, k)
                                    && r.value == CookieVal(Text.Split(cookieHeader.value, ';')[k])
  {
    if cookieHeader.None? || cookieHeader.value == "" then None
    else
      var parts := Text.Split(cookieHeader.value, ';');
      FindCookie(parts, name)
  }

  /** A pair `name=value` is read back as `value`, '=' signs in the value
      included, provided the key carries no '=' and no surrounding blanks. */
  lemma CookiePairValue(name: string, value: string)
    requires name != "" && '=' !in name && !Text.IsSpace(name[0])
    requires value != "" && !Text.IsSpace(value[|value| - 1])
    ensures CookieKey(name + "=" + value) == name
    ensures CookieVal(name + "=" + value) == value
  {
    var s := name + "=" + value;
    assert Text.TrimStart(s) == s;
    assert Text.TrimEnd(s) == s;
    assert Text.Trim(s) == s;
    var i := Text.IndexOf(s, '=');
    assert s[|name|] == '=';
    assert i == |name| by {
      assert forall k :: 0 <= k < |name| ==> s[k] == name[k];
    }
    assert s[..i] == name;
    assert s[i + 1..] == value;
  }

  /** A header holding just the bare name, with no '=' at all, still finds
      the cookie: its value is the empty string, not null. */
  lemma BareNameIsEmptyValue(name: string)
    requires name != "" && '=' !in name && ';' !in name
    requires !Text.IsSpace(name[0]) && !Text.IsSpace(name[|name| - 1])
    ensures GetCookieValue(Some(name), name) == Some("")
  {
    assert Text.TrimStart(name) == name;
    assert Text.TrimEnd(name) == name;
    assert Text.Split(name, ';') == [name];
    assert CookieKey(name) == name;
    assert FirstWithKey([name], name, 0);
  }

  /** `shouldHideInternalsInProd(authorized)`. */
  predicate ShouldHideInternalsInProd(env: Env, authorized: bool) {
    IsProduction(env) && !authorized
  }
}
