/** The modal trap: a seeded fade-in delay, a Tab focus trap, Escape and
    overlay clicks that close it, and the body scroll lock while open. */
module Modal {
  import Chaos

  /** `seededRandomRange(seed, modalDelay, modalDelay + 200, index)` with
      chaos on, 0 otherwise. */
  function FadeInDelay(unit: Chaos.UnitMap, cfg: Chaos.ChaosConfig, seed: string, index: int): (ms: real)
    ensures !cfg.enabled ==> ms == 0.0
    ensures cfg.enabled ==> cfg.modalDelay <= ms < cfg.modalDelay + 200.0
    ensures cfg.enabled ==> ms == cfg.modalDelay + Chaos.Scale(Chaos.SeededRandom(unit, seed, index), 200.0)
  {
    if cfg.enabled then Chaos.SeededRandomRange(unit, seed, cfg.modalDelay, cfg.modalDelay + 200.0, index) else 0.0
  }

  /** Under a derived configuration the fade-in lies in [100, 700) ms. */
  lemma FadeInUnderPolicy(unit: Chaos.UnitMap, cfg: Chaos.ChaosConfig, seed: string, index: int)
    requires cfg.enabled && 100.0 <= cfg.modalDelay < 500.0
    ensures 100.0 <= FadeInDelay(unit, cfg, seed, index) < 700.0
  {
  }

  /** Where focus is among the modal's focusable elements (0-based), or
      outside them. */
  datatype Focus = At(position: nat) | Elsewhere

  /** Result of a key press: the browser's default, or the trap moving focus
      and preventing the default. */
  datatype TabOutcome = Default | MoveTo(position: nat)

  /** `handleTabKey` for a modal with `count` focusable elements. */
  function HandleTab(count: nat, focus: Focus, shift: bool): (r: TabOutcome)
    ensures count == 0 ==> r == Default
    ensures r.MoveTo? ==> r.position < count
    ensures r.MoveTo? <==> count > 0 && focus == At(if shift then 0 else count - 1)
    ensures r.MoveTo? ==> r.position == if shift then count - 1 else 0
  {
    if count == 0 then Default
    else if shift then (if focus == At(0) then MoveTo(count - 1) else Default)
    else (if focus == At(count - 1) then MoveTo(0) else Default)
  }

  /** Tab from the last element wraps to the first and Shift+Tab from there
      wraps back: focus never leaves the modal at its ends. */
  lemma FocusWraps(count: nat)
    requires count > 0
    ensures HandleTab(count, At(count - 1), false) == MoveTo(0)
    ensures HandleTab(count, At(0), true) == MoveTo(count - 1)
  {
  }

  /** Where focus is after a key press: on the modal's element at
      `position`, or outside the modal. */
  datatype Landing = Inside(position: nat) | Outside

  /** No element at a position in [lo, hi) can take focus. */
  predicate NoneFocusable(focusable: seq<bool>, lo: int, hi: int)
  {
    forall i :: lo <= i < hi && 0 <= i < |focusable| ==> !focusable[i]
  }

  /** Every element the selector matches can take focus. */
  predicate AllFocusable(focusable: seq<bool>)
  {
    forall i :: 0 <= i < |focusable| ==> focusable[i]
  }

  /** The browser's own Tab move from position `p` among the elements the
      selector matches, where `focusable[i]` says whether element `i` can
      take focus (a disabled button cannot): the next element in document
      order that can, or the previous one with Shift; out of the modal when
      there is none. Positions -1 and `|focusable|` stand before the first
      and after the last element. */
  function NextFocusable(focusable: seq<bool>, p: int, shift: bool): (r: Landing)
    requires -1 <= p <= |focusable|
    ensures !shift && r.Inside? ==> p < r.position < |focusable| && focusable[r.position]
                                    && NoneFocusable(focusable, p + 1, r.position)
    ensures !shift && r.Outside? ==> NoneFocusable(focusable, p + 1, |focusable|)
    ensures shift && r.Inside? ==> r.position < p && focusable[r.position]
                                   && NoneFocusable(focusable, r.position + 1, p)
    ensures shift && r.Outside? ==> NoneFocusable(focusable, 0, p)
    decreases if shift then p + 1 else |focusable| - p
  {
    var q := if shift then p - 1 else p + 1;
    if q < 0 || q >= |focusable| then Outside
    else if focusable[q] then Inside(q)
    else NextFocusable(focusable, q, shift)
  }

  /** `handleTabKey` in the browser, from the focused element `p`. At the
      last element (the first with Shift) of those the selector matches, the
      trap calls `focus()` on the first (last) and prevents the default;
      `focus()` on an element that cannot take focus does nothing, so focus
      stays put. Everywhere else the browser moves focus on, and it leaves
      the modal exactly when no element further on can take focus. */
  function TabFrom(focusable: seq<bool>, p: nat, shift: bool): (r: Landing)
    requires p < |focusable| && focusable[p]
    ensures r.Inside? ==> r.position < |focusable| && focusable[r.position]
    ensures r.Outside? <==> if shift then 0 < p && NoneFocusable(focusable, 0, p)
                            else p < |focusable| - 1 && NoneFocusable(focusable, p + 1, |focusable|)
    ensures !shift && p == |focusable| - 1 ==> r == if focusable[0] then Inside(0) else Inside(p)
    ensures shift && p == 0 ==> r == if focusable[|focusable| - 1] then Inside(|focusable| - 1) else Inside(p)
  {
    match HandleTab(|focusable|, At(p), shift)
    case MoveTo(q) => if focusable[q] then Inside(q) else Inside(p)
    case Default => NextFocusable(focusable, p, shift)
  }

  /** A trap that wraps over the elements that can take focus: Tab from the
      last such element goes to the first, Shift+Tab from the first to the
      last, and focus never leaves the modal. */
  function TrapFrom(focusable: seq<bool>, p: nat, shift: bool): (r: Landing)
    requires p < |focusable| && focusable[p]
    ensures r.Inside? && r.position < |focusable| && focusable[r.position]
  {
    var n := NextFocusable(focusable, p, shift);
    if n.Inside? then n
    else NextFocusable(focusable, if shift then |focusable| else -1, shift)
  }

  /** When every matched element can take focus, the trap as written and
      the wrapping trap agree, and Tab (Shift+Tab) moves to the next
      (previous) element round the cycle. */
  lemma AllFocusableAgree(focusable: seq<bool>, p: nat, shift: bool)
    requires AllFocusable(focusable) && p < |focusable|
    ensures TabFrom(focusable, p, shift) == TrapFrom(focusable, p, shift)
    ensures TabFrom(focusable, p, false) == Inside(if p == |focusable| - 1 then 0 else p + 1)
    ensures TabFrom(focusable, p, true) == Inside(if p == 0 then |focusable| - 1 else p - 1)
  {
  }

  /** With an element at the end that cannot take focus, Tab from the last
      element that can is not intercepted and focus leaves the modal; the
      wrapping trap keeps it inside. */
  lemma DisabledEndLeaks(focusable: seq<bool>, p: nat)
    requires p < |focusable| - 1 && focusable[p] && NoneFocusable(focusable, p + 1, |focusable|)
    ensures TabFrom(focusable, p, false) == Outside
    ensures TrapFrom(focusable, p, false).Inside?
  {
  }

  /** The checkout confirmation while an order is processing: the close
      button, "Annuler", and "Confirmer", disabled meanwhile. */
  const ProcessingCheckout: seq<bool> := [true, true, false]

  /** In that modal Tab from "Annuler" leaves the modal and Shift+Tab from
      the close button stays on it; the wrapping trap cycles between the two
      buttons that can take focus. */
  lemma CheckoutTabLeaks()
    ensures TabFrom(ProcessingCheckout, 1, false) == Outside
    ensures TabFrom(ProcessingCheckout, 0, true) == Inside(0)
    ensures TrapFrom(ProcessingCheckout, 1, false) == Inside(0)
    ensures TrapFrom(ProcessingCheckout, 0, true) == Inside(1)
  {
    assert NoneFocusable(ProcessingCheckout, 2, 3);
    assert !ProcessingCheckout[2];
  }

  /** Focus after `k` presses of Tab from element `p` under the wrapping
      trap. */
  function TabPresses(focusable: seq<bool>, p: nat, k: nat): (q: nat)
    requires p < |focusable| && focusable[p]
    ensures q < |focusable| && focusable[q]
  {
    if k == 0 then p else TrapFrom(focusable, TabPresses(focusable, p, k - 1), false).position
  }

  /** When every element can take focus, pressing Tab from the first one
      visits every element in order and comes back to the first after as
      many presses as there are elements. */
  lemma {:induction false} TabVisitsInOrder(focusable: seq<bool>, k: nat)
    requires AllFocusable(focusable) && 0 < |focusable| && k <= |focusable|
    ensures TabPresses(focusable, 0, k) == if k == |focusable| then 0 else k
  {
    if k > 0 {
      TabVisitsInOrder(focusable, k - 1);
      AllFocusableAgree(focusable, k - 1, false);
    }
  }

  /** Under the wrapping trap, Shift+Tab undoes Tab and Tab undoes
      Shift+Tab from every element that can take focus, at the ends too. */
  lemma ShiftTabUndoesTab(focusable: seq<bool>, p: nat)
    requires p < |focusable| && focusable[p]
    ensures TrapFrom(focusable, TrapFrom(focusable, p, false).position, true) == Inside(p)
    ensures TrapFrom(focusable, TrapFrom(focusable, p, true).position, false) == Inside(p)
  {
  }

  datatype Key = Escape | Tab | Other

  /** The `handleEscape` listener: Escape calls `onClose`. */
  function ClosesOnKey(key: Key): (r: bool)
    ensures r <==> key == Escape
  {
    key == Escape
  }

  datatype ClickTarget = Overlay | Content | CloseButton

  /** Clicks on the backdrop or the close button call `onClose`; clicks
      inside the content stop before reaching the backdrop. */
  function ClosesOnClick(target: ClickTarget): (r: bool)
    ensures r <==> target != Content
  {
    target != Content
  }

  /** An input event: a key press (with or without Shift) or a click. */
  datatype Event = Press(key: Key, shift: bool) | Click(target: ClickTarget)

  /** What the modal does with one event: whether it asks to be closed, and
      where the focus trap moves focus. */
  datatype Reaction = Reaction(close: bool, focus: TabOutcome)

  /** Both keydown listeners and the click handlers of an open modal with
      `count` focusable elements; a closed modal renders nothing and listens
      to nothing. */
  function React(isOpen: bool, count: nat, focus: Focus, e: Event): (r: Reaction)
    ensures !isOpen ==> r == Reaction(false, Default)
    ensures r.focus.MoveTo? ==> isOpen && e.Press? && e.key == Tab && r.focus.position < count
  {
    if !isOpen then Reaction(false, Default)
    else
      match e
      case Press(key, shift) => Reaction(ClosesOnKey(key), if key == Tab then HandleTab(count, focus, shift) else Default)
      case Click(target) => Reaction(ClosesOnClick(target), Default)
  }

  /** An open modal asks to close exactly on Escape or on a click outside
      its content; Tab never closes it, and the other keys neither close it
      nor move focus. */
  lemma OnlyEscapeOrOutsideCloses(count: nat, focus: Focus, e: Event)
    ensures React(true, count, focus, e).close <==>
              (e.Press? && e.key == Escape) || (e.Click? && e.target != Content)
    ensures e.Press? && e.key == Tab ==> !React(true, count, focus, e).close
    ensures e.Press? && e.key == Other ==> React(true, count, focus, e) == Reaction(false, Default)
  {
  }

  /** `document.body.style.overflow`: locked while the modal is open,
      restored by the effect's clean-up. */
  function BodyOverflow(isOpen: bool): (r: string)
    ensures r == "hidden" <==> isOpen
    ensures !isOpen ==> r == ""
  {
    if isOpen then "hidden" else ""
  }
}
