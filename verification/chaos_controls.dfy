/** The chaos control panel: toggling chaos and changing the seed rewrite the
    query string and navigate to the home page with it. */
module ChaosControls {
  import Chaos
  import QueryParams
  import opened Wrappers

  /** The panel's own state: the seed field and the checkbox. */
  datatype Controls = Controls(seed: string, enabled: bool)

  /** `router.push('/?' + params)`. */
  datatype Navigation = Navigation(path: string, query: QueryParams.Params)

  /** The panel starts from the current configuration. */
  function InitialControls(state: Chaos.ChaosConfig): (c: Controls)
    ensures c.seed == state.seed && c.enabled == state.enabled
  {
    Controls(state.seed, state.enabled)
  }

  /** `updateChaos(enabled, newSeed)`: switching on sets `chaos=1` and, for a
      non-empty seed, `seed`; switching off deletes `chaos`. */
  function UpdateChaos(params: QueryParams.Params, enabled: bool, newSeed: string): (n: Navigation)
    ensures n.path == "/"
    ensures enabled ==> QueryParams.Get(n.query, "chaos") == Some("1")
    ensures enabled && newSeed != "" ==> QueryParams.Get(n.query, "seed") == Some(newSeed)
    ensures enabled && newSeed == "" ==> QueryParams.Get(n.query, "seed") == QueryParams.Get(params, "seed")
    ensures !enabled ==> !QueryParams.Has(n.query, "chaos")
    ensures !enabled ==> QueryParams.Get(n.query, "seed") == QueryParams.Get(params, "seed")
  {
    if enabled then
      var withChaos := QueryParams.Set(params, "chaos", "1");
      SetKeepsOthers(params, "chaos", "1", "seed");
      SetKeepsOthers(withChaos, "seed", newSeed, "chaos");
      Navigation("/", if newSeed != "" then QueryParams.Set(withChaos, "seed", newSeed) else withChaos)
    else
      QueryParams.GetDelete(params, "chaos", "seed");
      Navigation("/", QueryParams.Delete(params, "chaos"))
  }

  /** Setting one parameter leaves every other parameter's value alone. */
  lemma SetKeepsOthers(ps: QueryParams.Params, name: string, value: string, other: string)
    requires other != name
    ensures QueryParams.Get(QueryParams.Set(ps, name, value), other) == QueryParams.Get(ps, other)
  {
    var r := QueryParams.Set(ps, name, value);
    QueryParams.GetDelete(r, name, other);
    QueryParams.GetDelete(ps, name, other);
  }

  /** Every parameter other than `chaos` and `seed` survives the rewrite. */
  lemma UpdateKeepsOtherParams(params: QueryParams.Params, enabled: bool, newSeed: string, other: string)
    requires other != "chaos" && other != "seed"
    ensures QueryParams.Get(UpdateChaos(params, enabled, newSeed).query, other) == QueryParams.Get(params, other)
  {
    if enabled {
      SetKeepsOthers(params, "chaos", "1", other);
      SetKeepsOthers(QueryParams.Set(params, "chaos", "1"), "seed", newSeed, other);
    } else {
      QueryParams.GetDelete(params, "chaos", other);
    }
  }

  /** The navigation reaches the engine again: the request it produces turns
      chaos on or off as the panel asked, with the panel's seed. */
  lemma UpdateRoundTrip(unit: Chaos.UnitMap, params: QueryParams.Params, enabled: bool, newSeed: string,
                        headers: map<string, string>)
    requires newSeed != ""
    ensures var c := Chaos.InitChaosFromRequest(unit, UpdateChaos(params, enabled, newSeed).query, headers);
            && c.enabled == enabled
            && (enabled ==> c.seed == newSeed)
  {
  }

  /** `handleToggleChaos`: flips the checkbox and navigates with the seed
      field's value. */
  function HandleToggleChaos(c: Controls, params: QueryParams.Params): (r: (Controls, Navigation))
    ensures r.0.enabled != c.enabled && r.0.seed == c.seed
    ensures r.1 == UpdateChaos(params, r.0.enabled, c.seed)
  {
    (c.(enabled := !c.enabled), UpdateChaos(params, !c.enabled, c.seed))
  }

  /** After a toggle, the page the panel navigates to runs the engine as the
      panel now shows it: chaos on exactly when the box is ticked, and then
      with the panel's seed when that field is not empty. */
  lemma ToggleReachesEngine(unit: Chaos.UnitMap, c: Controls, params: QueryParams.Params,
                            headers: map<string, string>)
    ensures var (panel, nav) := HandleToggleChaos(c, params);
            var cfg := Chaos.InitChaosFromRequest(unit, nav.query, headers);
            && nav.path == "/"
            && cfg.enabled == panel.enabled
            && (panel.enabled && panel.seed != "" ==> cfg.seed == panel.seed)
  {
  }

  /** Toggling twice ends with the checkbox as it was and chaos deleted or set
      accordingly. */
  lemma ToggleTwice(c: Controls, params: QueryParams.Params)
    ensures HandleToggleChaos(HandleToggleChaos(c, params).0, params).0 == c
  {
  }

  /** `handleSeedChange`: the field always takes the new seed; the page only
      navigates while chaos is on. */
  function HandleSeedChange(c: Controls, params: QueryParams.Params, newSeed: string): (r: (Controls, Option<Navigation>))
    ensures r.0 == c.(seed := newSeed)
    ensures r.1.Some? <==> c.enabled
    ensures c.enabled ==> r.1.value == UpdateChaos(params, true, newSeed)
  {
    (c.(seed := newSeed), if c.enabled then Some(UpdateChaos(params, true, newSeed)) else None)
  }

  /** A non-empty seed typed while chaos is on reaches the engine at once; a
      seed typed while chaos is off waits in the field, and the next toggle
      carries it. */
  lemma SeedChangeReachesEngine(unit: Chaos.UnitMap, c: Controls, params: QueryParams.Params, newSeed: string,
                                headers: map<string, string>)
    requires newSeed != ""
    ensures var (panel, nav) := HandleSeedChange(c, params, newSeed);
            && (nav.Some? ==> var cfg := Chaos.InitChaosFromRequest(unit, nav.value.query, headers);
                              cfg.enabled && cfg.seed == newSeed)
            && (nav.None? ==> var cfg := Chaos.InitChaosFromRequest(unit, HandleToggleChaos(panel, params).1.query, headers);
                              cfg.enabled && cfg.seed == newSeed)
  {
  }
}
