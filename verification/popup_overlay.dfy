/** The popup trap: with chaos and the popup flag on, a seeded decision to
    show an offer after a seeded delay; a click on the backdrop or the close
    button hides it, and a click on the offer itself does nothing. */
module PopupOverlay {
  import Chaos
  import QueryParams
  import opened Wrappers

  /** `shouldShow`. */
  predicate ShouldShow(unit: Chaos.UnitMap, cfg: Chaos.ChaosConfig, seed: string, index: int) {
    cfg.enabled && cfg.popupOverlay && Chaos.SeededRandom(unit, seed, index) > 0.3
  }

  /** `seededRandom(seed, index + 1) * 2000 + 500` when the popup shows. */
  function ShowDelay(unit: Chaos.UnitMap, cfg: Chaos.ChaosConfig, seed: string, index: int): (r: Option<real>)
    ensures r.Some? <==> ShouldShow(unit, cfg, seed, index)
    ensures r.Some? ==> 500.0 <= r.value < 2500.0
    ensures r.Some? ==> r.value == 500.0 + Chaos.Scale(Chaos.SeededRandom(unit, seed, index + 1), 2000.0)
  {
    if ShouldShow(unit, cfg, seed, index) then
      var u := Chaos.SeededRandom(unit, seed, index + 1);
      Chaos.ScaleBounds(u, 2000.0);
      Some(Chaos.Scale(u, 2000.0) + 500.0)
    else None
  }

  /** The two draws of one popup, whether and when, use different keys. */
  lemma ShowAndDelayDrawsDiffer(seed: string, index: int)
    ensures Chaos.Key(seed, index) != Chaos.Key(seed, index + 1)
  {
    if Chaos.Key(seed, index) == Chaos.Key(seed, index + 1) {
      Chaos.KeyInjective(seed, index, index + 1);
    }
  }

  /** Whether the popup is visible. */
  datatype State = State(visible: bool)

  /** Where a click lands: the dimmed backdrop, the close button, or the
      offer's content, whose handler stops the click from reaching the
      backdrop. */
  datatype Target = Backdrop | Content | CloseButton

  function Click(s: State, target: Target): (r: State)
    ensures target == Content ==> r == s
    ensures target != Content ==> !r.visible
  {
    if target == Content then s else State(false)
  }

  /** The popup's state after a series of clicks. */
  function ClickAll(s: State, targets: seq<Target>): State
    decreases |targets|
  {
    if |targets| == 0 then s else ClickAll(Click(s, targets[0]), targets[1..])
  }

  /** Clicks never bring the popup back: after any series of clicks it is
      visible exactly when it was and every click landed on the content. */
  lemma {:induction false} ClicksOnlyHide(s: State, targets: seq<Target>)
    ensures ClickAll(s, targets).visible <==>
              s.visible && forall i :: 0 <= i < |targets| ==> targets[i] == Content
    decreases |targets|
  {
    if |targets| > 0 {
      ClicksOnlyHide(Click(s, targets[0]), targets[1..]);
      assert forall i :: 1 <= i < |targets| ==> targets[i] == targets[1..][i - 1];
    }
  }

  /** On the home page (index 1, the seed of the configuration) the 0.3
      threshold never decides anything: the configuration only sets
      `popupOverlay` when the same draw exceeds 0.5, so the popup shows
      exactly when chaos and the flag are on. */
  lemma HomePopupFollowsFlag(unit: Chaos.UnitMap, params: QueryParams.Params, headers: map<string, string>)
    ensures var cfg := Chaos.InitChaosFromRequest(unit, params, headers);
            ShouldShow(unit, cfg, cfg.seed, Chaos.PopupIndex) <==> cfg.enabled && cfg.popupOverlay
  {
  }
}
