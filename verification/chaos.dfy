/** The deterministic chaos engine: a seeded decision function over
    `(seed, index)`, the ranged and boolean decisions built on it, the network
    latency formula, the delay short-circuit, the derivation of a chaos
    configuration from request parameters, and the single shared slot that
    holds the current configuration. */
module Chaos {
  import opened Wrappers
  import Int32
  import Text
  import QueryParams

  /** The map from the folded 32-bit hash to [0, 1). The program uses
      `Math.abs(Math.sin(h)) % 1`; floating-point sine is not modelled, so the
      map is a parameter of every decision and only its range is known. */
  type UnitMap = f: int -> real | forall h :: 0.0 <= f(h) < 1.0
    witness (h: int) => 0.0

  // ------------------------------------------------------------ hashing

  /** The string `${seed}-${index}` that addresses one decision. */
  function Key(seed: string, index: int): string {
    seed + "-" + Text.Decimal(index)
  }

  /** One loop iteration: `hash = ((hash << 5) - hash) + char` followed by
      `hash = hash & hash`, which converts the sum back to a 32-bit value. */
  function HashStep(h: int, codeUnit: int): (r: int)
    requires Int32.InRange(h)
    ensures Int32.InRange(r)
    ensures r == Int32.Wrap(31 * h + codeUnit)
  {
    var sum := Int32.ShiftLeft5(h) - h + codeUnit;
    Int32.WrapCongruent(sum, 31 * h + codeUnit);
    Int32.Wrap(sum)
  }

  /** The hash of a sequence of code units, folded left to right from 0. */
  function HashUnits(us: seq<int>): (h: int)
    ensures Int32.InRange(h)
  {
    if |us| == 0 then 0 else HashStep(HashUnits(us[..|us| - 1]), us[|us| - 1])
  }

  function Hash(key: string): (h: int)
    ensures Int32.InRange(h)
  {
    HashUnits(Text.CodeUnits(key))
  }

  /** The loop of `seededRandom` as written: it walks the key's code units
      once and yields the same value as the left fold. */
  method ComputeHash(key: string) returns (h: int)
    ensures h == Hash(key)
    ensures Int32.InRange(h)
  {
    var us := Text.CodeUnits(key);
    h := 0;
    var i := 0;
    while i < |us|
      invariant 0 <= i <= |us|
      invariant h == HashUnits(us[..i])
    {
      assert us[..i + 1][..i] == us[..i];
      h := HashStep(h, us[i]);
      i := i + 1;
    }
    assert us[..i] == us;
  }

  /** Appending one character to the key performs exactly the loop steps of
      its code units on the running hash. */
  lemma {:induction false} HashUnitsAppend(us: seq<int>, c: int)
    ensures HashUnits(us + [c]) == HashStep(HashUnits(us), c)
  {
    assert (us + [c])[..|us|] == us;
  }

  // ---------------------------------------------------- decision engine

  /** `seededRandom(seed, index)`. */
  function SeededRandom(unit: UnitMap, seed: string, index: int): (r: real)
    ensures 0.0 <= r < 1.0
  {
    unit(Hash(Key(seed, index)))
  }

  /** `seededRandomRange(seed, min, max, index) = min + u * (max - min)`. */
  function SeededRandomRange(unit: UnitMap, seed: string, min: real, max: real, index: int): (r: real)
    ensures min < max ==> min <= r < max
    ensures min == max ==> r == min
    ensures max < min ==> max < r <= min
    ensures r == min + Scale(SeededRandom(unit, seed, index), max - min)
  {
    Affine(min, max, SeededRandom(unit, seed, index))
  }

  /** `u * d`, kept as a named term so the solver treats it as one value. */
  function Scale(u: real, d: real): real {
    u * d
  }

  /** A fraction in [0, 1) of a width lies between 0 and the width. */
  lemma ScaleBounds(u: real, d: real)
    requires 0.0 <= u < 1.0
    ensures d > 0.0 ==> 0.0 <= Scale(u, d) < d
    ensures d < 0.0 ==> d < Scale(u, d) <= 0.0
    ensures d == 0.0 ==> Scale(u, d) == 0.0
  {
    if d > 0.0 {
      assert u * d < 1.0 * d;
    } else if d < 0.0 {
      assert u * (-d) < 1.0 * (-d);
    }
  }

  /** A smaller fraction of a positive width is a smaller part of it. */
  lemma ScaleMonotone(u: real, v: real, d: real)
    requires u < v && d > 0.0
    ensures Scale(u, d) < Scale(v, d)
  {
    assert (v - u) * d > 0.0;
  }

  /** `min + u * (max - min)` for a fraction u in [0, 1). */
  function Affine(min: real, max: real, u: real): (r: real)
    requires 0.0 <= u < 1.0
    ensures min < max ==> min <= r < max
    ensures min == max ==> r == min
    ensures max < min ==> max < r <= min
  {
    ScaleBounds(u, max - min);
    min + Scale(u, max - min)
  }

  /** `shouldTriggerError`: a zero rate never fires; otherwise the draw is
      compared with the rate. */
  function ShouldTriggerError(unit: UnitMap, seed: string, errorRate: real, index: int): (r: bool)
    ensures errorRate <= 0.0 ==> !r
    ensures errorRate >= 1.0 ==> r
    ensures 0.0 < errorRate ==> (r <==> SeededRandom(unit, seed, index) < errorRate)
  {
    if errorRate == 0.0 then false else SeededRandom(unit, seed, index) < errorRate
  }

  datatype LatencyConfig = LatencyConfig(min: real, max: real, jitter: real)

  function Max0(x: real): real {
    if x < 0.0 then 0.0 else x
  }

  /** The index of the jitter draw for a latency computed at `index`. */
  function JitterIndex(index: int): int {
    index * 2
  }

  /** `calculateNetworkLatency`: a base draw in [min, max) plus a jitter draw
      in [-jitter, jitter), floored at zero. */
  function CalculateNetworkLatency(unit: UnitMap, seed: string, cfg: LatencyConfig, index: int): (r: real)
    ensures r >= 0.0
    ensures cfg.min <= cfg.max && cfg.jitter >= 0.0 ==>
              Max0(cfg.min - cfg.jitter) <= r <= Max0(cfg.max + cfg.jitter)
  {
    var base := SeededRandomRange(unit, seed, cfg.min, cfg.max, index);
    var jitter := SeededRandomRange(unit, seed, -cfg.jitter, cfg.jitter, JitterIndex(index));
    Max0(base + jitter)
  }

  /** Distinct indices address distinct keys under one seed. */
  lemma KeyInjective(seed: string, i: int, j: int)
    requires Key(seed, i) == Key(seed, j)
    ensures i == j
  {
    var p := seed + "-";
    assert Key(seed, i)[|p|..] == Text.Decimal(i);
    assert Key(seed, j)[|p|..] == Text.Decimal(j);
    Text.DecimalInjective(i, j);
  }

  /** For every index but 0 the jitter is drawn at a key different from the
      base draw's key. */
  lemma JitterKeyDistinct(seed: string, index: int)
    requires index != 0
    ensures Key(seed, JitterIndex(index)) != Key(seed, index)
  {
    if Key(seed, JitterIndex(index)) == Key(seed, index) {
      KeyInjective(seed, JitterIndex(index), index);
    }
  }

  /** At index 0 the base and the jitter come from the SAME draw u, so the
      latency is a single affine function of u rather than a sum of two
      draws. */
  lemma LatencyAtIndexZero(unit: UnitMap, seed: string, cfg: LatencyConfig)
    ensures var u := SeededRandom(unit, seed, 0);
            CalculateNetworkLatency(unit, seed, cfg, 0)
              == Max0(cfg.min - cfg.jitter + Scale(u, cfg.max - cfg.min + 2.0 * cfg.jitter))
  {
    var u := SeededRandom(unit, seed, 0);
    assert JitterIndex(0) == 0;
    assert Scale(u, cfg.max - cfg.min) + Scale(u, cfg.jitter - -cfg.jitter)
        == Scale(u, cfg.max - cfg.min + 2.0 * cfg.jitter);
  }

  // -------------------------------------------------------- configuration

  datatype ChaosConfig = ChaosConfig(
    seed: string,
    enabled: bool,
    networkLatency: LatencyConfig,
    errorRate: real,
    popupOverlay: bool,
    modalDelay: real,
    toastDelay: real,
    skeletonDelay: real)

  const DefaultSeed: string := "default"

  /** Policy constants used when chaos is on. */
  const ChaosLatency: LatencyConfig := LatencyConfig(100.0, 2000.0, 200.0)
  const ChaosErrorRate: real := 0.1

  /** Decision indices reserved by the configuration derivation. */
  const PopupIndex: int := 1
  const ModalIndex: int := 2
  const ToastIndex: int := 3
  const SkeletonIndex: int := 4

  /** The configuration with every perturbation switched off. */
  function Neutral(seed: string): (c: ChaosConfig)
    ensures c.seed == seed && !c.enabled && !c.popupOverlay
    ensures c.networkLatency == LatencyConfig(0.0, 0.0, 0.0) && c.errorRate == 0.0
    ensures c.modalDelay == 0.0 && c.toastDelay == 0.0 && c.skeletonDelay == 0.0
  {
    ChaosConfig(seed, false, LatencyConfig(0.0, 0.0, 0.0), 0.0, false, 0.0, 0.0, 0.0)
  }

  /** JavaScript's `a || b` on optional strings: an absent or empty value
      falls through. */
  predicate Truthy(v: Option<string>) {
    v.Some? && v.value != ""
  }

  /** `seedParam || chaosHeader || 'default'`. */
  function ResolveSeed(seedParam: Option<string>, seedHeader: Option<string>): (seed: string)
    ensures seed != ""
    ensures Truthy(seedParam) ==> seed == seedParam.value
    ensures !Truthy(seedParam) && Truthy(seedHeader) ==> seed == seedHeader.value
    ensures !Truthy(seedParam) && !Truthy(seedHeader) ==> seed == DefaultSeed
  {
    if Truthy(seedParam) then seedParam.value
    else if Truthy(seedHeader) then seedHeader.value
    else DefaultSeed
  }

  /** Value of `chaos` that switches chaos on. */
  predicate EnablesChaos(chaosParam: Option<string>) {
    chaosParam == Some("1") || chaosParam == Some("true")
  }

  /** `initChaosFromRequest(searchParams, headers)`; `headers` is the plain
      object variant, looked up by the exact key `x-chaos-seed`. */
  function InitChaosFromRequest(unit: UnitMap, params: QueryParams.Params, headers: map<string, string>): (c: ChaosConfig)
    ensures c.enabled <==> EnablesChaos(QueryParams.Get(params, "chaos"))
    ensures c.seed != ""
    ensures c.seed == ResolveSeed(QueryParams.Get(params, "seed"),
                                  if "x-chaos-seed" in headers then Some(headers["x-chaos-seed"]) else None)
    ensures !c.enabled ==> c == Neutral(c.seed)
    ensures c.enabled ==> c.networkLatency == ChaosLatency && c.errorRate == ChaosErrorRate
    ensures c.enabled ==> (c.popupOverlay <==> SeededRandom(unit, c.seed, PopupIndex) > 0.5)
    ensures c.enabled ==> 100.0 <= c.modalDelay < 500.0
    ensures c.enabled ==> 200.0 <= c.toastDelay < 800.0
    ensures c.enabled ==> 300.0 <= c.skeletonDelay < 1200.0
    ensures c.enabled ==> c.modalDelay == 100.0 + Scale(SeededRandom(unit, c.seed, ModalIndex), 400.0)
    ensures c.enabled ==> c.toastDelay == 200.0 + Scale(SeededRandom(unit, c.seed, ToastIndex), 600.0)
    ensures c.enabled ==> c.skeletonDelay == 300.0 + Scale(SeededRandom(unit, c.seed, SkeletonIndex), 900.0)
  {
    var chaosParam := QueryParams.Get(params, "chaos");
    var seedParam := QueryParams.Get(params, "seed");
    var chaosHeader := if "x-chaos-seed" in headers then Some(headers["x-chaos-seed"]) else None;
    var enabled := EnablesChaos(chaosParam);
    var seed := ResolveSeed(seedParam, chaosHeader);
    ChaosConfig(
      seed,
      enabled,
      if enabled then ChaosLatency else LatencyConfig(0.0, 0.0, 0.0),
      if enabled then ChaosErrorRate else 0.0,
      enabled && SeededRandom(unit, seed, PopupIndex) > 0.5,
      if enabled then SeededRandomRange(unit, seed, 100.0, 500.0, ModalIndex) else 0.0,
      if enabled then SeededRandomRange(unit, seed, 200.0, 800.0, ToastIndex) else 0.0,
      if enabled then SeededRandomRange(unit, seed, 300.0, 1200.0, SkeletonIndex) else 0.0)
  }

  /** The four draws of the derivation use four distinct keys. */
  lemma DerivationKeysDistinct(seed: string)
    ensures forall i, j ::
              (i in {PopupIndex, ModalIndex, ToastIndex, SkeletonIndex}
               && j in {PopupIndex, ModalIndex, ToastIndex, SkeletonIndex} && i != j)
              ==> Key(seed, i) != Key(seed, j)
  {
    forall i, j | i != j
      ensures Key(seed, i) != Key(seed, j)
    {
      if Key(seed, i) == Key(seed, j) {
        KeyInjective(seed, i, j);
      }
    }
  }

  /** A configuration satisfies the documented invariants of the model. */
  predicate WellFormed(c: ChaosConfig) {
    && c.seed != ""
    && 0.0 <= c.networkLatency.min <= c.networkLatency.max
    && c.networkLatency.jitter >= 0.0
    && 0.0 <= c.errorRate <= 1.0
    && c.modalDelay >= 0.0 && c.toastDelay >= 0.0 && c.skeletonDelay >= 0.0
    && (!c.enabled ==> c.errorRate == 0.0 && c.modalDelay == 0.0
                       && c.toastDelay == 0.0 && c.skeletonDelay == 0.0)
  }

  /** The neutral configuration never waits and never fails, whatever the
      seed or the decision index. */
  lemma NeutralIsInert(unit: UnitMap, seed: string, index: int)
    ensures SimulateNetworkDelay(unit, seed, Neutral(seed), index) == NoWait
    ensures !ShouldTriggerError(unit, seed, Neutral(seed).errorRate, index)
    ensures seed != "" ==> WellFormed(Neutral(seed))
  {
  }

  lemma DerivedConfigWellFormed(unit: UnitMap, params: QueryParams.Params, headers: map<string, string>)
    ensures WellFormed(InitChaosFromRequest(unit, params, headers))
  {
  }

  // ------------------------------------------------------ delay decision

  /** Outcome of `simulateNetworkDelay`: return at once, or wait `ms`. */
  datatype Wait = NoWait | WaitFor(ms: real)

  /** `simulateNetworkDelay(seed, config, index)`, without the timer itself. */
  function SimulateNetworkDelay(unit: UnitMap, seed: string, cfg: ChaosConfig, index: int): (w: Wait)
    ensures w.NoWait? <==> !cfg.enabled || cfg.networkLatency.max == 0.0
    ensures w.WaitFor? ==> w.ms >= 0.0
    ensures w.WaitFor? ==> w.ms == CalculateNetworkLatency(unit, seed, cfg.networkLatency, index)
  {
    if !cfg.enabled || cfg.networkLatency.max == 0.0 then NoWait
    else WaitFor(CalculateNetworkLatency(unit, seed, cfg.networkLatency, index))
  }

  /** Under the chaos policy every wait lies in [0, 2200]. */
  lemma ChaosWaitBounds(unit: UnitMap, seed: string, cfg: ChaosConfig, index: int)
    requires cfg.enabled && cfg.networkLatency == ChaosLatency
    ensures var w := SimulateNetworkDelay(unit, seed, cfg, index);
            w.WaitFor? && 0.0 <= w.ms <= 2200.0
  {
  }

  // --------------------------------------------------------- shared slot

  /** The process-wide slot holding the current configuration. */
  datatype ChaosSlot = ChaosSlot(current: ChaosConfig)

  /** The slot's value at start-up. */
  function InitialSlot(): (s: ChaosSlot)
    ensures s.current == Neutral(DefaultSeed)
  {
    ChaosSlot(Neutral(DefaultSeed))
  }

  /** `getChaosState()`. */
  function GetChaosState(s: ChaosSlot): ChaosConfig {
    s.current
  }

  /** `setChaosState(config)` replaces the slot wholesale. */
  function SetChaosState(s: ChaosSlot, config: ChaosConfig): (r: ChaosSlot)
    ensures GetChaosState(r) == config
  {
    ChaosSlot(config)
  }

  /** `resetChaosState()` returns the slot to its start-up value. */
  function ResetChaosState(s: ChaosSlot): (r: ChaosSlot)
    ensures r == InitialSlot()
    ensures GetChaosState(r) == Neutral(DefaultSeed)
  {
    ChaosSlot(Neutral(DefaultSeed))
  }

  lemma ResetIdempotent(s: ChaosSlot)
    ensures ResetChaosState(ResetChaosState(s)) == ResetChaosState(s)
  {
  }

  /** Whatever was stored, a set followed by a get returns what was set, and
      a reset forgets it. */
  lemma SlotLifecycle(s: ChaosSlot, a: ChaosConfig, b: ChaosConfig)
    ensures GetChaosState(SetChaosState(SetChaosState(s, a), b)) == b
    ensures ResetChaosState(SetChaosState(s, a)) == ResetChaosState(s)
  {
  }
}
