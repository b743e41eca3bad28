/**
 * The bootstrap market maker's planner: a seed, a reference price and an inventory position
 * become a two-sided ladder of bids, all in integer basis points (app/src/api/evm.rs).
 */
module Planner {
  import opened Numbers

  const PAR_PRICE_BPS: nat := 10_000

  const SPREAD_WIDEN_STEP_BPS: nat := 15_000
  const SPREAD_TIGHTEN_BPS: nat := 8_500
  const SPREAD_CAP_BPS: nat := 30_000
  const SIZE_REDUCED_BPS: nat := 7_500
  const SIZE_MIN_BPS: nat := 5_000
  const FLOW_ONE_SIDED: real := 0.7
  const INVENTORY_ONE_SIDED: real := 0.35
  const INVENTORY_TIGHTEN: real := 0.15
  const VOLATILITY_HIGH_BPS: nat := 500
  const VOLATILITY_EXTREME_BPS: nat := 1_000

  datatype Side = Yes | No
  {
    function Other(): Side { if this.Yes? then No else Yes }
  }

  datatype Strategy = LadderV1 | LadderAdaptiveV1

  /** The configuration fields the planner reads; `seed` is in micro-USDC. */
  datatype Config = Config(
    seed: nat, initialYes: nat, levels: nat, baseSpread: nat, step: nat,
    cadence: nat, expiry: nat, exposureCap: nat, skew: int, strategy: Strategy)

  /** The ranges a registered configuration is clamped to or checked against. */
  predicate ValidConfig(c: Config)
  {
    && 1 <= c.initialYes <= PAR_PRICE_BPS - 1
    && 1 <= c.levels <= 12
    && 25 <= c.baseSpread <= 1_000
    && 10 <= c.step <= 1_000
    && 30 <= c.cadence <= 3_600
    && c.cadence <= c.expiry <= 7_200
    && 500 <= c.exposureCap <= 9_000
    && c.seed <= 1_000_000_000_000
  }

  datatype Preset = Tight | Balanced | Wide

  /** The configuration with a preset's ladder in place of its own. */
  function WithPreset(c: Config, p: Preset): Config
  {
    match p
    case Tight => c.(levels := 4, baseSpread := 200, step := 100, cadence := 45, expiry := 120, exposureCap := 3_000,
                     strategy := LadderAdaptiveV1)
    case Balanced => c.(levels := 5, baseSpread := 400, step := 200, cadence := 60, expiry := 180, exposureCap := 3_500,
                        strategy := LadderAdaptiveV1)
    case Wide => c.(levels := 6, baseSpread := 600, step := 300, cadence := 90, expiry := 240, exposureCap := 4_000,
                    strategy := LadderAdaptiveV1)
  }

  /** What a registration can store: a hybrid market has at least 50 USDC in whole cents, another has no seed. */
  predicate Registrable(c: Config, hybrid: bool)
  {
    ValidConfig(c) && if hybrid then c.seed >= 50_000_000 && c.seed % 10_000 == 0 else c.seed == 0
  }

  datatype Position = Position(yesShares: nat, noShares: nat, claimed: bool)

  datatype Flow = Flow(yes: nat, no: nat)

  datatype Signals = Signals(
    organicRatio: real, flowRatio: real, inventoryRatio: real, capHit: bool, volatility: nat)

  /** A rung of the desired ladder. */
  datatype Agent = Agent(side: Side, level: nat, price: nat, size: nat, cadence: nat, expiry: nat)

  // ----- Skew, reference price and budgets -----

  function CapOf(c: Config): int { Max(c.exposureCap, 1) }

  /** The stored skew, limited to the exposure cap wherever it is read. */
  function SkewOf(c: Config): int { Clamp(c.skew, -CapOf(c), CapOf(c)) }

  function InventorySkew(c: Config, p: Position): int
  {
    if p.claimed then 0 else
    var notional := c.seed * CapOf(c) / PAR_PRICE_BPS;
    if notional <= 0 then 0 else
    Clamp(TruncDiv((p.yesShares - p.noShares) * CapOf(c), notional), -CapOf(c), CapOf(c))
  }

  function MaxShift(c: Config): nat { Max(SatMul(c.step, Max(c.levels, 1)), c.baseSpread) }

  function ReferenceYes(c: Config): nat
  {
    Clamp(c.initialYes - TruncDiv(SkewOf(c) * MaxShift(c), CapOf(c)), 1, PAR_PRICE_BPS - 1)
  }

  function ReferenceNo(c: Config): nat { SatSub(PAR_PRICE_BPS, ReferenceYes(c)) }

  /** The share of the half budget that moves from the crowded side to the other. */
  function Transfer(c: Config): int { TruncDiv(5_000 * Abs(SkewOf(c)), CapOf(c)) }

  lemma {:induction false} TransferRange(c: Config)
    ensures 0 <= Transfer(c) <= 5_000
    ensures Abs(SkewOf(c)) == CapOf(c) <==> Transfer(c) == 5_000
  {
    TruncDivSign(5_000 * Abs(SkewOf(c)), CapOf(c));
    TruncDivAtLeast(5_000 * Abs(SkewOf(c)), CapOf(c), 5_000);
    TruncDivAtLeast(5_000 * Abs(SkewOf(c)), CapOf(c), 5_001);
  }

  function SideBudgetBps(c: Config, side: Side): nat
  {
    TransferRange(c);
    if (SkewOf(c) >= 0) == side.Yes? then 5_000 - Transfer(c) else 5_000 + Transfer(c)
  }

  function SideBudget(c: Config, side: Side): nat
  {
    SatMul(c.seed, SideBudgetBps(c, side)) / PAR_PRICE_BPS
  }

  /** Splits a budget over the levels, the remainder one unit each to the first levels. */
  function BudgetLevels(total: nat, levels: nat): (r: seq<nat>)
    ensures |r| == levels
  {
    if levels == 0 then []
    else seq(levels, i requires 0 <= i < levels => total / levels + if i < total % levels then 1 else 0)
  }

  function ScaleBps(value: nat, multiplier: nat): nat
  {
    Min(Max((value * multiplier + 5_000) / 10_000, 1), U64_MAX)
  }

  function ScaleQuantity(value: nat, multiplier: nat): nat
  {
    Min(value * multiplier / 10_000, U64_MAX)
  }

  // ----- The ladder -----

  function LevelsOf(c: Config): nat { Max(c.levels, 1) }

  function SpreadExtra(c: Config): nat
  {
    TruncDivSign(SatMul(c.step, LevelsOf(c)) * Abs(SkewOf(c)), CapOf(c));
    TruncDiv(SatMul(c.step, LevelsOf(c)) * Abs(SkewOf(c)), CapOf(c))
  }

  /** Whether the position leans towards `side`, which then quotes wider. */
  predicate Crowded(c: Config, side: Side)
  {
    if side.Yes? then SkewOf(c) > 0 else SkewOf(c) < 0
  }

  function SpreadAt(c: Config, side: Side, level: nat): nat
  {
    var base := c.baseSpread + SatMul(level, c.step);
    if Crowded(c, side) then SatAdd(base, SpreadExtra(c)) else SatSub(base, SpreadExtra(c) / 2)
  }

  function ReferenceOf(c: Config, side: Side): nat
  {
    if side.Yes? then ReferenceYes(c) else ReferenceNo(c)
  }

  function RungPrice(c: Config, side: Side, level: nat, spreadMul: nat): nat
  {
    Clamp(SatSub(ReferenceOf(c, side), ScaleBps(SpreadAt(c, side, level), spreadMul)), 1, PAR_PRICE_BPS - 1)
  }

  function RungSize(c: Config, side: Side, level: nat, sizeMul: nat): nat
    requires level < LevelsOf(c)
  {
    ScaleQuantity(BudgetLevels(SideBudget(c, side), LevelsOf(c))[level], sizeMul)
  }

  function Rung(c: Config, side: Side, level: nat, spreadMul: nat, sizeMul: nat): Agent
    requires level < LevelsOf(c)
  {
    Agent(side, level, RungPrice(c, side, level, spreadMul), RungSize(c, side, level, sizeMul), c.cadence, c.expiry)
  }

  /** The first `n` levels of the ladder, YES before NO at each level. */
  function LadderUpTo(c: Config, n: nat, spreadMul: nat, sizeMul: nat): (r: seq<Agent>)
    requires n <= LevelsOf(c)
    ensures |r| == 2 * n
  {
    if n == 0 then []
    else LadderUpTo(c, n - 1, spreadMul, sizeMul)
         + [Rung(c, Yes, n - 1, spreadMul, sizeMul), Rung(c, No, n - 1, spreadMul, sizeMul)]
  }

  function Ladder(c: Config, spreadMul: nat, sizeMul: nat): seq<Agent>
  {
    LadderUpTo(c, LevelsOf(c), spreadMul, sizeMul)
  }

  /** The place in the ladder of the rung on `side` at `level`. */
  function RungIndex(side: Side, level: nat): nat { 2 * level + if side.Yes? then 0 else 1 }

  function SlotSide(k: nat): Side { if k % 2 == 0 then Yes else No }

  lemma {:induction false} LadderUpToRung(c: Config, n: nat, spreadMul: nat, sizeMul: nat, side: Side, level: nat)
    requires level < n <= LevelsOf(c)
    ensures LadderUpTo(c, n, spreadMul, sizeMul)[RungIndex(side, level)] == Rung(c, side, level, spreadMul, sizeMul)
  {
    if level < n - 1 {
      LadderUpToRung(c, n - 1, spreadMul, sizeMul, side, level);
    }
  }

  lemma {:induction false} LadderRung(c: Config, spreadMul: nat, sizeMul: nat, side: Side, level: nat)
    requires level < LevelsOf(c)
    ensures |Ladder(c, spreadMul, sizeMul)| == 2 * LevelsOf(c)
    ensures Ladder(c, spreadMul, sizeMul)[RungIndex(side, level)] == Rung(c, side, level, spreadMul, sizeMul)
  {
    LadderUpToRung(c, LevelsOf(c), spreadMul, sizeMul, side, level);
  }

  /** Every rung of the ladder sits at the index its side and level determine, so slots are unique. */
  lemma {:induction false} LadderSlots(c: Config, spreadMul: nat, sizeMul: nat)
    ensures |Ladder(c, spreadMul, sizeMul)| == 2 * LevelsOf(c)
    ensures forall k :: 0 <= k < 2 * LevelsOf(c) ==>
      var a := Ladder(c, spreadMul, sizeMul)[k];
      && a.level < LevelsOf(c) && RungIndex(a.side, a.level) == k
      && a == Rung(c, a.side, a.level, spreadMul, sizeMul)
    ensures forall i, j :: 0 <= i < j < 2 * LevelsOf(c) ==>
      var l := Ladder(c, spreadMul, sizeMul);
      (l[i].side, l[i].level) != (l[j].side, l[j].level)
  {
    var l := Ladder(c, spreadMul, sizeMul);
    forall k | 0 <= k < 2 * LevelsOf(c)
      ensures l[k].level < LevelsOf(c) && RungIndex(l[k].side, l[k].level) == k
      ensures l[k] == Rung(c, l[k].side, l[k].level, spreadMul, sizeMul)
    {
      LadderRung(c, spreadMul, sizeMul, SlotSide(k), k / 2);
    }
  }

  /** The planner's loop over levels builds exactly the specified ladder. */
  method LadderAgents(c: Config, spreadMul: nat, sizeMul: nat) returns (desired: seq<Agent>)
    ensures desired == Ladder(c, spreadMul, sizeMul)
  {
    hide BudgetLevels;
    hide ReferenceYes;
    hide ScaleBps;
    hide ScaleQuantity;
    hide SideBudgetBps;
    hide SkewOf;
    hide SpreadExtra;
    var levels := Max(c.levels, 1);
    var referenceYes := ReferenceYes(c);
    var referenceNo := SatSub(PAR_PRICE_BPS, referenceYes);
    var yesQuantities := BudgetLevels(SatMul(c.seed, SideBudgetBps(c, Yes)) / PAR_PRICE_BPS, levels);
    var noQuantities := BudgetLevels(SatMul(c.seed, SideBudgetBps(c, No)) / PAR_PRICE_BPS, levels);
    var skew := SkewOf(c);
    var spreadExtra := SpreadExtra(c);
    var tighten := spreadExtra / 2;
    desired := [];
    for level := 0 to levels
      invariant desired == LadderUpTo(c, level, spreadMul, sizeMul)
    {
      var baseSpread := c.baseSpread + SatMul(level, c.step);
      var yesSpread := if skew > 0 then SatAdd(baseSpread, spreadExtra) else SatSub(baseSpread, tighten);
      var noSpread := if skew < 0 then SatAdd(baseSpread, spreadExtra) else SatSub(baseSpread, tighten);
      desired := desired
        + [Agent(Yes, level, Clamp(SatSub(referenceYes, ScaleBps(yesSpread, spreadMul)), 1, PAR_PRICE_BPS - 1),
                 ScaleQuantity(yesQuantities[level], sizeMul), c.cadence, c.expiry)];
      desired := desired
        + [Agent(No, level, Clamp(SatSub(referenceNo, ScaleBps(noSpread, spreadMul)), 1, PAR_PRICE_BPS - 1),
                 ScaleQuantity(noQuantities[level], sizeMul), c.cadence, c.expiry)];
    }
  }

  // ----- Signals and adaptive multipliers -----

  function FlowRatio(f: Flow): real
  {
    var total := SatAdd(f.yes, f.no);
    if total == 0 then 0.5 else Max(f.yes, f.no) as real / total as real
  }

  function InventoryRatio(c: Config, p: Position): real
  {
    if c.seed == 0 then 0.0 else Max(p.yesShares, p.noShares) as real / c.seed as real
  }

  function Lowest(prices: seq<real>): (r: real)
    requires prices != []
    ensures r in prices && forall q :: q in prices ==> r <= q
  {
    if |prices| == 1 then prices[0]
    else
      var low := Lowest(prices[1..]);
      assert prices == [prices[0]] + prices[1..];
      if prices[0] < low then prices[0] else low
  }

  function Highest(prices: seq<real>): (r: real)
    requires prices != []
    ensures r in prices && forall q :: q in prices ==> r >= q
  {
    if |prices| == 1 then prices[0]
    else
      var high := Highest(prices[1..]);
      assert prices == [prices[0]] + prices[1..];
      if prices[0] > high then prices[0] else high
  }

  /** The volatility of recent fills; `estimate` takes the ratio of the highest to the lowest price to basis points. */
  function Volatility(prices: seq<real>, estimate: real -> nat): nat
  {
    if |prices| < 2 || Lowest(prices) <= 0.0 then 0 else estimate(Highest(prices) / Lowest(prices))
  }

  function SignalsWithVolatility(
    c: Config, p: Position, organicRatio: real, f: Flow, prices: seq<real>, estimate: real -> nat): Signals
  {
    var ratio := InventoryRatio(c, p);
    Signals(
      organicRatio, FlowRatio(f), ratio, ratio >= c.exposureCap as real / 10_000.0, Volatility(prices, estimate))
  }

  /** The planner's signals on every path that plans a ladder: those paths pass no fill prices. */
  function PlannerSignals(c: Config, p: Position, organicRatio: real, f: Flow): Signals
  {
    SignalsWithVolatility(c, p, organicRatio, f, [], _ => 0)
  }

  function Widen(multiplier: nat, hit: bool): nat
  {
    if hit then ScaleBps(multiplier, SPREAD_WIDEN_STEP_BPS) else multiplier
  }

  function AdaptiveSpread(s: Signals): nat
  {
    var organicShort := s.organicRatio < 1.0;
    var flowHit := s.flowRatio > FLOW_ONE_SIDED;
    var inventoryHit := s.inventoryRatio > INVENTORY_ONE_SIDED;
    var volHigh := s.volatility >= VOLATILITY_HIGH_BPS;
    if !organicShort && !flowHit && !volHigh && s.organicRatio >= 1.0 && s.inventoryRatio < INVENTORY_TIGHTEN
    then SPREAD_TIGHTEN_BPS
    else
      var widened := Widen(Widen(Widen(10_000, organicShort), flowHit), inventoryHit);
      var m := if s.volatility >= VOLATILITY_EXTREME_BPS then ScaleBps(widened, SPREAD_WIDEN_STEP_BPS)
               else if volHigh then ScaleBps(widened, SPREAD_WIDEN_STEP_BPS / 2)
               else widened;
      Min(m, SPREAD_CAP_BPS)
  }

  function AdaptiveSize(s: Signals): nat
  {
    var flowHit := s.flowRatio > FLOW_ONE_SIDED;
    var inventoryHit := s.inventoryRatio > INVENTORY_ONE_SIDED;
    if flowHit && inventoryHit then SIZE_MIN_BPS
    else if flowHit || inventoryHit then SIZE_REDUCED_BPS
    else 10_000
  }

  function DesiredAgents(c: Config, s: Signals): seq<Agent>
  {
    match c.strategy
    case LadderAdaptiveV1 => Ladder(c, AdaptiveSpread(s), AdaptiveSize(s))
    case LadderV1 => Ladder(c, 10_000, 10_000)
  }

  /** `s` is at least as adverse as `t` in every signal the spread reads. */
  predicate AtLeastAsAdverse(s: Signals, t: Signals)
  {
    s.organicRatio <= t.organicRatio && s.flowRatio >= t.flowRatio && s.inventoryRatio >= t.inventoryRatio
  }

  /** Without volatility, worse signals never narrow the quotes nor enlarge them. */
  lemma {:induction false} AdversityWidens(s: Signals, t: Signals)
    requires AtLeastAsAdverse(s, t) && s.volatility == t.volatility == 0
    ensures AdaptiveSpread(s) >= AdaptiveSpread(t)
    ensures AdaptiveSize(s) <= AdaptiveSize(t)
    ensures SPREAD_TIGHTEN_BPS <= AdaptiveSpread(t) <= SPREAD_CAP_BPS && SIZE_MIN_BPS <= AdaptiveSize(t) <= 10_000
  {
  }

  /** The spread multiplier before the volatility steps. */
  function Widened(s: Signals): nat
  {
    var flowed := Widen(Widen(10_000, s.organicRatio < 1.0), s.flowRatio > FLOW_ONE_SIDED);
    Widen(flowed, s.inventoryRatio > INVENTORY_ONE_SIDED)
  }

  lemma WidenedValues(s: Signals)
    ensures Widened(s) in {10_000, 15_000, 22_500, 33_750}
  {
  }

  /**
   * Volatility should never narrow the quotes, but the step for moderate volatility, commented as a half-step
   * widening, multiplies by 7500/10000. It narrows them in exactly that band, whatever the other signals.
   */
  lemma VolatilityNarrowsExactly(s: Signals)
    ensures AdaptiveSpread(s) < AdaptiveSpread(s.(volatility := 0))
       <==> VOLATILITY_HIGH_BPS <= s.volatility < VOLATILITY_EXTREME_BPS
  {
    var w := Widened(s);
    WidenedValues(s);
    if s.volatility >= VOLATILITY_EXTREME_BPS {
      assert AdaptiveSpread(s) == Min(ScaleBps(w, 15_000), SPREAD_CAP_BPS);
    } else if s.volatility >= VOLATILITY_HIGH_BPS {
      assert AdaptiveSpread(s) == Min(ScaleBps(w, 7_500), SPREAD_CAP_BPS);
    }
  }

  /** Fill prices would narrow the quotes exactly when two or more, all positive, put the estimate into that band. */
  lemma FillPricesNarrowExactly(
    c: Config, p: Position, organicRatio: real, f: Flow, prices: seq<real>, estimate: real -> nat)
    ensures
      var s := SignalsWithVolatility(c, p, organicRatio, f, prices, estimate);
      AdaptiveSpread(s) < AdaptiveSpread(SignalsWithVolatility(c, p, organicRatio, f, [], estimate))
      <==>
        && |prices| >= 2 && Lowest(prices) > 0.0
        && VOLATILITY_HIGH_BPS <= estimate(Highest(prices) / Lowest(prices)) < VOLATILITY_EXTREME_BPS
  {
    hide AdaptiveSpread;
    VolatilityNarrowsExactly(SignalsWithVolatility(c, p, organicRatio, f, prices, estimate));
  }

  /** None are passed where a ladder is planned, so whatever the estimator its spread is never narrowed. */
  lemma PlannedSpreadIsNotNarrowed(c: Config, p: Position, organicRatio: real, f: Flow, estimate: real -> nat)
    ensures
      var s := SignalsWithVolatility(c, p, organicRatio, f, [], estimate);
      && PlannerSignals(c, p, organicRatio, f) == s
      && AdaptiveSpread(s) >= AdaptiveSpread(s.(volatility := 0))
  {
    hide AdaptiveSpread;
    VolatilityNarrowsExactly(SignalsWithVolatility(c, p, organicRatio, f, [], estimate));
  }
}
