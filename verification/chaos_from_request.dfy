/** Server-side derivation of a per-request chaos configuration: header names
    are lower-cased, unauthorised production requests lose their query
    parameters and their `x-chaos-seed` header, and the default-chaos switch
    adds `chaos=1` when the request did not choose. */
module ChaosFromRequest {
  import opened Wrappers
  import Text
  import QueryParams
  import opened Environment
  import TrainingAuth
  import Chaos

  const SeedHeader: string := "x-chaos-seed"

  /** The name/value pairs that `Headers.forEach` yields, in order. The
      platform already lower-cases the names and joins repeated headers
      into one value, so in practice no name occurs twice; the model accepts
      any list. */
  type RawHeaders = seq<(string, string)>

  /** `request.headers.forEach((v, k) => obj[k.toLowerCase()] = v)`. Each
      yielded name is lower-cased again and stored; should two pairs share a
      lower-cased name, the later one would win. */
  function LowerHeaders(hs: RawHeaders): (m: map<string, string>)
    ensures forall k :: k in m <==> exists i :: 0 <= i < |hs| && Text.Lower(hs[i].0) == k
    ensures forall i :: 0 <= i < |hs| && (forall j :: i < j < |hs| ==> Text.Lower(hs[j].0) != Text.Lower(hs[i].0)) ==>
                          m[Text.Lower(hs[i].0)] == hs[i].1
  {
    if |hs| == 0 then map[]
    else
      var init := hs[..|hs| - 1];
      var last := hs[|hs| - 1];
      var m := LowerHeaders(init)[Text.Lower(last.0) := last.1];
      assert forall i :: 0 <= i < |init| ==> init[i] == hs[i];
      m
  }

  /** `getChaosConfigFromRequest(request, authorized)`. */
  function GetChaosConfigFromRequest(unit: Chaos.UnitMap, env: Env, params: QueryParams.Params,
                                     headers: RawHeaders, authorized: bool): (c: Chaos.ChaosConfig)
    // Unauthorised in production: the request's own parameters and seed header are ignored.
    ensures TrainingAuth.ShouldHideInternalsInProd(env, authorized) && !DefaultChaosEnabled(env) ==>
                c == Chaos.Neutral(Chaos.DefaultSeed)
    ensures TrainingAuth.ShouldHideInternalsInProd(env, authorized) && DefaultChaosEnabled(env) ==>
                c.enabled && c.seed == Chaos.DefaultSeed
    // Otherwise an explicit `chaos` parameter, whatever its value, wins over the default.
    ensures !TrainingAuth.ShouldHideInternalsInProd(env, authorized) && QueryParams.Has(params, "chaos") ==>
                c == Chaos.InitChaosFromRequest(unit, params, LowerHeaders(headers))
    ensures !TrainingAuth.ShouldHideInternalsInProd(env, authorized) && !DefaultChaosEnabled(env) ==>
                c == Chaos.InitChaosFromRequest(unit, params, LowerHeaders(headers))
    // Without one, the default switch turns chaos on and keeps every other parameter.
    ensures !TrainingAuth.ShouldHideInternalsInProd(env, authorized) && !QueryParams.Has(params, "chaos")
              && DefaultChaosEnabled(env) ==>
                c == Chaos.InitChaosFromRequest(unit, params + [QueryParams.Pair("chaos", "1")], LowerHeaders(headers))
  {
    var headersObj := LowerHeaders(headers);
    var hidden := TrainingAuth.ShouldHideInternalsInProd(env, authorized);
    var searchParams := if hidden then [] else params;
    var visibleHeaders := if hidden then headersObj - {SeedHeader} else headersObj;
    if !QueryParams.Has(searchParams, "chaos") && DefaultChaosEnabled(env) then
      Chaos.InitChaosFromRequest(unit, QueryParams.Set(searchParams, "chaos", "1"), visibleHeaders)
    else
      Chaos.InitChaosFromRequest(unit, searchParams, visibleHeaders)
  }

  /** With default chaos on and no explicit `chaos`, the `seed` parameter
      still selects the seed. */
  lemma DefaultChaosKeepsSeed(unit: Chaos.UnitMap, env: Env, params: QueryParams.Params,
                              headers: RawHeaders, authorized: bool, seed: string)
    requires !TrainingAuth.ShouldHideInternalsInProd(env, authorized)
    requires DefaultChaosEnabled(env) && !QueryParams.Has(params, "chaos")
    requires seed != "" && QueryParams.Get(params, "seed") == Some(seed)
    ensures GetChaosConfigFromRequest(unit, env, params, headers, authorized).enabled
    ensures GetChaosConfigFromRequest(unit, env, params, headers, authorized).seed == seed
  {
    QueryParams.GetDelete(params + [QueryParams.Pair("chaos", "1")], "chaos", "seed");
    QueryParams.GetDelete(params, "chaos", "seed");
  }

  /** A seed header spelled in any letter case reaches the derivation as
      `x-chaos-seed`, and selects the seed when no `seed` parameter does. */
  lemma SeedHeaderAnyCase(unit: Chaos.UnitMap, env: Env, params: QueryParams.Params,
                          headers: RawHeaders, authorized: bool, i: int)
    requires !TrainingAuth.ShouldHideInternalsInProd(env, authorized)
    requires 0 <= i < |headers| && Text.Lower(headers[i].0) == SeedHeader && headers[i].1 != ""
    requires forall j :: i < j < |headers| ==> Text.Lower(headers[j].0) != SeedHeader
    requires QueryParams.Get(params, "seed").None?
    ensures GetChaosConfigFromRequest(unit, env, params, headers, authorized).seed == headers[i].1
  {
    QueryParams.GetDelete(params + [QueryParams.Pair("chaos", "1")], "chaos", "seed");
    QueryParams.GetDelete(params, "chaos", "seed");
  }
}
