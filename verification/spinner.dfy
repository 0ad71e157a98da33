/** The spinner trap: a seeded rotation period and three sizes. */
module Spinner {
  import Chaos

  datatype Size = Small | Medium | Large

  function SizeClasses(size: Size): string {
    match size
    case Small => "w-4 h-4"
    case Medium => "w-8 h-8"
    case Large => "w-12 h-12"
  }

  /** The three sizes have distinct class lists. */
  lemma SizeClassesDistinct(a: Size, b: Size)
    requires a != b
    ensures SizeClasses(a) != SizeClasses(b)
  {
    assert SizeClasses(Small)[2] == '4' && SizeClasses(Medium)[2] == '8' && SizeClasses(Large)[2] == '1';
  }

  /** Rotation period in seconds: 1 with chaos off, otherwise in [0.5, 2). */
  function Duration(unit: Chaos.UnitMap, cfg: Chaos.ChaosConfig, seed: string, index: int): (s: real)
    ensures !cfg.enabled ==> s == 1.0
    ensures cfg.enabled ==> 0.5 <= s < 2.0
    ensures cfg.enabled ==> s == 0.5 + Chaos.Scale(Chaos.SeededRandom(unit, seed, index), 1.5)
  {
    if cfg.enabled then Chaos.SeededRandomRange(unit, seed, 0.5, 2.0, index) else 1.0
  }

  /** With chaos on, of two spinners the one with the smaller draw turns
      faster (its period is shorter), and equal draws spin alike. */
  lemma DurationFollowsDraw(unit: Chaos.UnitMap, cfg: Chaos.ChaosConfig, seed: string, i: int, j: int)
    requires cfg.enabled
    ensures Duration(unit, cfg, seed, i) < Duration(unit, cfg, seed, j)
            <==> Chaos.SeededRandom(unit, seed, i) < Chaos.SeededRandom(unit, seed, j)
  {
    var u := Chaos.SeededRandom(unit, seed, i);
    var v := Chaos.SeededRandom(unit, seed, j);
    if u < v {
      Chaos.ScaleMonotone(u, v, 1.5);
    } else if v < u {
      Chaos.ScaleMonotone(v, u, 1.5);
    }
  }
}
