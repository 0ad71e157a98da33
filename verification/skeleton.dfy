/** The skeleton trap: content replaced by a placeholder until a seeded
    delay has passed. */
module Skeleton {
  import Chaos
  import Text
  import opened Wrappers

  /** When the content appears: at once with chaos off, otherwise after a
      delay in [skeletonDelay, skeletonDelay + 500). */
  function RevealDelay(unit: Chaos.UnitMap, cfg: Chaos.ChaosConfig, seed: string, index: int): (r: Option<real>)
    ensures r.None? <==> !cfg.enabled
    ensures r.Some? ==> cfg.skeletonDelay <= r.value < cfg.skeletonDelay + 500.0
    ensures r.Some? ==> r.value == cfg.skeletonDelay + Chaos.Scale(Chaos.SeededRandom(unit, seed, index), 500.0)
  {
    if !cfg.enabled then None
    else Some(Chaos.SeededRandomRange(unit, seed, cfg.skeletonDelay, cfg.skeletonDelay + 500.0, index))
  }

  /** The placeholder's test id. */
  function TestId(index: int): (id: string)
    ensures id == "skeleton-" + Text.Decimal(index)
  {
    "skeleton-" + Text.Decimal(index)
  }

  /** Placeholders of different indices have different test ids. */
  lemma TestIdInjective(i: int, j: int)
    requires TestId(i) == TestId(j)
    ensures i == j
  {
    assert TestId(i)[9..] == Text.Decimal(i);
    assert TestId(j)[9..] == Text.Decimal(j);
    Text.DecimalInjective(i, j);
  }

  /** A skeleton at index `i` and one at index `i` + 10 on the same seed wait
      on different draws. */
  lemma OffsetIndicesDiffer(seed: string, i: int)
    ensures Chaos.Key(seed, i) != Chaos.Key(seed, i + 10)
  {
    if Chaos.Key(seed, i) == Chaos.Key(seed, i + 10) {
      Chaos.KeyInjective(seed, i, i + 10);
    }
  }

  /** With chaos on, skeletons on one page reveal in the order of their
      draws: the one whose draw is smaller shows its content first, and
      equal draws reveal together. */
  lemma RevealOrderFollowsDraws(unit: Chaos.UnitMap, cfg: Chaos.ChaosConfig, seed: string, i: int, j: int)
    requires cfg.enabled
    ensures RevealDelay(unit, cfg, seed, i).value < RevealDelay(unit, cfg, seed, j).value
            <==> Chaos.SeededRandom(unit, seed, i) < Chaos.SeededRandom(unit, seed, j)
  {
    var u := Chaos.SeededRandom(unit, seed, i);
    var v := Chaos.SeededRandom(unit, seed, j);
    if u < v {
      Chaos.ScaleMonotone(u, v, 500.0);
    } else if v < u {
      Chaos.ScaleMonotone(v, u, 500.0);
    }
  }
}
