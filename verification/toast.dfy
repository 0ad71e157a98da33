/** The toast trap: with chaos on, a seeded decision to show one notification
    after a seeded delay, with a seeded type; toasts close one by one. */
module Toast {
  import Chaos
  import QueryParams
  import Seqs
  import Text
  import opened Wrappers

  datatype Kind = Success | Error | Info | Warning

  datatype Notice = Notice(id: string, message: string, kind: Kind)

  const ShowIndex: int := 10
  const DelayIndex: int := 11
  const KindIndex: int := 12
  const Message: string := "Notification système"

  /** `types[Math.floor(x)]` for x in [0, 4). */
  function KindAt(k: int): (kind: Kind)
    requires 0 <= k < 4
  {
    [Success, Error, Info, Warning][k]
  }

  /** `Math.floor(seededRandomRange(seed, 0, 4, 12))`. */
  function KindIndexOf(unit: Chaos.UnitMap, seed: string): (k: int)
    ensures 0 <= k < 4
    ensures k as real <= 4.0 * Chaos.SeededRandom(unit, seed, KindIndex) < k as real + 1.0
  {
    var x := Chaos.SeededRandomRange(unit, seed, 0.0, 4.0, KindIndex);
    assert x == 4.0 * Chaos.SeededRandom(unit, seed, KindIndex);
    x.Floor
  }

  /** The scheduled toast: when it appears and which type it has. */
  datatype Scheduled = Scheduled(delayMs: real, kind: Kind)

  /** The effect of `ToastContainer`: nothing with chaos off or when the draw
      at index 10 is at most 0.5; otherwise a toast after a delay in
      [toastDelay, toastDelay + 500). */
  function Schedule(unit: Chaos.UnitMap, cfg: Chaos.ChaosConfig, seed: string): (r: Option<Scheduled>)
    ensures r.Some? <==> cfg.enabled && Chaos.SeededRandom(unit, seed, ShowIndex) > 0.5
    ensures r.Some? ==> cfg.toastDelay <= r.value.delayMs < cfg.toastDelay + 500.0
    ensures r.Some? ==> r.value.delayMs == cfg.toastDelay + Chaos.Scale(Chaos.SeededRandom(unit, seed, DelayIndex), 500.0)
    ensures r.Some? ==> r.value.kind == KindAt(KindIndexOf(unit, seed))
  {
    if !cfg.enabled then None
    else
      var show := Chaos.SeededRandomRange(unit, seed, 0.0, 1.0, ShowIndex);
      assert show == Chaos.SeededRandom(unit, seed, ShowIndex);
      if show > 0.5 then
        Some(Scheduled(Chaos.SeededRandomRange(unit, seed, cfg.toastDelay, cfg.toastDelay + 500.0, DelayIndex),
                            KindAt(KindIndexOf(unit, seed))))
      else None
  }

  /** The timer firing: a toast with id `String(now)` is appended. */
  function Fire(toasts: seq<Notice>, s: Scheduled, now: nat): (r: seq<Notice>)
    ensures r == toasts + [Notice(Text.Decimal(now), Message, s.kind)]
  {
    toasts + [Notice(Text.Decimal(now), Message, s.kind)]
  }

  /** `removeToast(id)`: every toast with that id goes, the rest stay in order. */
  function RemoveToast(toasts: seq<Notice>, id: string): (r: seq<Notice>)
    ensures forall t :: t in r <==> t in toasts && t.id != id
    ensures Seqs.SubseqOf(r, toasts)
  {
    Seqs.FilterSubseq(toasts, (t: Notice) => t.id != id);
    Seqs.Filter(toasts, (t: Notice) => t.id != id)
  }

  /** Closing a toast that fired with a fresh id restores the list as it was
      before it fired. */
  lemma CloseUndoesFire(toasts: seq<Notice>, s: Scheduled, now: nat)
    requires forall i :: 0 <= i < |toasts| ==> toasts[i].id != Text.Decimal(now)
    ensures RemoveToast(Fire(toasts, s, now), Text.Decimal(now)) == toasts
  {
    var id := Text.Decimal(now);
    var keep := (t: Notice) => t.id != id;
    Seqs.FilterAppend(toasts, [Notice(id, Message, s.kind)], keep);
    Seqs.FilterAll(toasts, keep);
  }

  /** Under a configuration derived from a request, a scheduled toast
      appears between 200 ms and 1.3 s after the page mounts, and the
      decision, the delay and the type come from three different draws. */
  lemma ToastUnderPolicy(unit: Chaos.UnitMap, params: QueryParams.Params, headers: map<string, string>, seed: string)
    ensures var cfg := Chaos.InitChaosFromRequest(unit, params, headers);
            var r := Schedule(unit, cfg, seed);
            r.Some? ==> 200.0 <= r.value.delayMs < 1300.0
    ensures Chaos.Key(seed, ShowIndex) != Chaos.Key(seed, DelayIndex)
    ensures Chaos.Key(seed, DelayIndex) != Chaos.Key(seed, KindIndex)
    ensures Chaos.Key(seed, ShowIndex) != Chaos.Key(seed, KindIndex)
  {
    if Chaos.Key(seed, ShowIndex) == Chaos.Key(seed, DelayIndex) {
      Chaos.KeyInjective(seed, ShowIndex, DelayIndex);
    }
    if Chaos.Key(seed, DelayIndex) == Chaos.Key(seed, KindIndex) {
      Chaos.KeyInjective(seed, DelayIndex, KindIndex);
    }
    if Chaos.Key(seed, ShowIndex) == Chaos.Key(seed, KindIndex) {
      Chaos.KeyInjective(seed, ShowIndex, KindIndex);
    }
  }
}
