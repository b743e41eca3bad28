/** Relabelling symmetry, inventory response and price order of the planner's ladder. */
module PlannerProperties {
  import opened Numbers
  import opened Planner

  // ----- YES/NO relabelling -----

  /** The same market seen with its two outcomes renamed into each other. */
  function Relabel(c: Config): Config
    requires c.initialYes <= PAR_PRICE_BPS
  {
    c.(initialYes := PAR_PRICE_BPS - c.initialYes, skew := -c.skew)
  }

  function SwapShares(p: Position): Position { p.(yesShares := p.noShares, noShares := p.yesShares) }

  function SwapFlow(f: Flow): Flow { f.(yes := f.no, no := f.yes) }

  lemma {:induction false} RelabelSkew(c: Config, p: Position)
    requires c.initialYes <= PAR_PRICE_BPS
    ensures InventorySkew(Relabel(c), SwapShares(p)) == -InventorySkew(c, p)
  {
    var notional := c.seed * CapOf(c) / PAR_PRICE_BPS;
    if !p.claimed && notional > 0 {
      var net := (p.yesShares - p.noShares) * CapOf(c);
      assert (p.noShares - p.yesShares) * CapOf(c) == -net;
      TruncDivNegates(net, notional);
    }
  }

  lemma {:induction false} RelabelReference(c: Config)
    requires ValidConfig(c)
    ensures SkewOf(Relabel(c)) == -SkewOf(c)
    ensures forall side: Side :: ReferenceOf(Relabel(c), side) == ReferenceOf(c, side.Other())
  {
    var shift := SkewOf(c) * MaxShift(c);
    assert SkewOf(Relabel(c)) * MaxShift(c) == -shift;
    TruncDivNegates(shift, CapOf(c));
  }

  lemma {:induction false} RelabelRung(c: Config, side: Side, level: nat, spreadMul: nat, sizeMul: nat)
    requires ValidConfig(c) && level < LevelsOf(c)
    ensures Rung(Relabel(c), side, level, spreadMul, sizeMul)
         == Rung(c, side.Other(), level, spreadMul, sizeMul).(side := side)
  {
    RelabelReference(c);
    assert Abs(SkewOf(Relabel(c))) == Abs(SkewOf(c));
    assert SpreadAt(Relabel(c), side, level) == SpreadAt(c, side.Other(), level);
    RelabelBudget(c, side);
  }

  lemma RelabelBudget(c: Config, side: Side)
    requires ValidConfig(c)
    ensures SideBudget(Relabel(c), side) == SideBudget(c, side.Other())
  {
    RelabelReference(c);
    assert Abs(SkewOf(Relabel(c))) == Abs(SkewOf(c));
    assert SkewOf(c) == 0 ==> Transfer(c) == 0;
  }

  /**
   * Replacing the initial price by its complement and negating the skew exchanges the two sides of
   * the ladder rung by rung, in price, size and timing.
   */
  lemma {:induction false} RelabelLadder(c: Config, spreadMul: nat, sizeMul: nat, side: Side, level: nat)
    requires ValidConfig(c) && level < LevelsOf(c)
    ensures |Ladder(Relabel(c), spreadMul, sizeMul)| == |Ladder(c, spreadMul, sizeMul)| == 2 * LevelsOf(c)
    ensures Ladder(Relabel(c), spreadMul, sizeMul)[RungIndex(side, level)]
         == Ladder(c, spreadMul, sizeMul)[RungIndex(side.Other(), level)].(side := side)
  {
    LadderRung(Relabel(c), spreadMul, sizeMul, side, level);
    LadderRung(c, spreadMul, sizeMul, side.Other(), level);
    RelabelRung(c, side, level, spreadMul, sizeMul);
  }

  /** The configuration as the runner stores it after measuring the position. */
  function WithMeasuredSkew(c: Config, p: Position): Config { c.(skew := InventorySkew(c, p)) }

  // ----- Inventory response -----

  lemma {:induction false} ScaleMonotone(a: nat, b: nat, m: nat)
    requires a <= b
    ensures ScaleBps(a, m) <= ScaleBps(b, m)
    ensures ScaleQuantity(a, m) <= ScaleQuantity(b, m)
  {
    MulMonotone(a, b, m);
  }

  /** What a level receives grows with the budget being split. */
  lemma {:induction false} BudgetLevelMonotone(a: nat, b: nat, levels: nat, i: nat)
    requires a <= b && i < levels
    ensures BudgetLevels(a, levels)[i] <= BudgetLevels(b, levels)[i]
  {
    DivMonotone(a, b, levels);
    if a / levels == b / levels {
      assert a % levels <= b % levels;
    }
  }

  lemma {:induction false} ReferenceFalls(c: Config, s1: int, s2: int)
    requires ValidConfig(c) && s1 <= s2
    ensures ReferenceYes(c.(skew := s2)) <= ReferenceYes(c.(skew := s1))
  {
    var c1, c2 := c.(skew := s1), c.(skew := s2);
    MulMonotone(SkewOf(c1), SkewOf(c2), MaxShift(c));
    TruncDivMonotone(SkewOf(c1) * MaxShift(c), SkewOf(c2) * MaxShift(c), CapOf(c));
  }

  lemma {:induction false} SpreadExtraGrows(c: Config, s1: int, s2: int)
    requires Abs(SkewOf(c.(skew := s1))) <= Abs(SkewOf(c.(skew := s2)))
    ensures SpreadExtra(c.(skew := s1)) <= SpreadExtra(c.(skew := s2))
  {
    var reach := SatMul(c.step, LevelsOf(c));
    var a1, a2 := Abs(SkewOf(c.(skew := s1))), Abs(SkewOf(c.(skew := s2)));
    MulMonotone(a1, a2, reach);
    TruncDivMonotone(reach * a1, reach * a2, CapOf(c));
  }

  lemma {:induction false} YesSpreadGrows(c: Config, s1: int, s2: int, level: nat)
    requires ValidConfig(c) && s1 <= s2 && level < LevelsOf(c)
    ensures SpreadAt(c.(skew := s1), Yes, level) <= SpreadAt(c.(skew := s2), Yes, level)
  {
    var c1, c2 := c.(skew := s1), c.(skew := s2);
    assert level * c.step <= 12 * 1_000 by { MulMonotone(level, 12, c.step); }
    if SkewOf(c1) > 0 {
      SpreadExtraGrows(c, s1, s2);
    } else if SkewOf(c2) <= 0 {
      SpreadExtraGrows(c, s2, s1);
    }
  }

  lemma {:induction false} YesBudgetFalls(c: Config, s1: int, s2: int)
    requires ValidConfig(c) && s1 <= s2
    ensures SideBudget(c.(skew := s2), Yes) <= SideBudget(c.(skew := s1), Yes)
  {
    var c1, c2 := c.(skew := s1), c.(skew := s2);
    TransferRange(c1);
    TransferRange(c2);
    if SkewOf(c1) >= 0 {
      TruncDivMonotone(5_000 * Abs(SkewOf(c1)), 5_000 * Abs(SkewOf(c2)), CapOf(c));
    } else if SkewOf(c2) < 0 {
      TruncDivMonotone(5_000 * Abs(SkewOf(c2)), 5_000 * Abs(SkewOf(c1)), CapOf(c));
    }
    MulMonotone(SideBudgetBps(c2, Yes), SideBudgetBps(c1, Yes), c.seed);
  }

  lemma {:induction false} YesRungFalls(c: Config, s1: int, s2: int, level: nat, spreadMul: nat, sizeMul: nat)
    requires ValidConfig(c) && s1 <= s2 && level < LevelsOf(c)
    ensures RungPrice(c.(skew := s2), Yes, level, spreadMul) <= RungPrice(c.(skew := s1), Yes, level, spreadMul)
    ensures RungSize(c.(skew := s2), Yes, level, sizeMul) <= RungSize(c.(skew := s1), Yes, level, sizeMul)
  {
    var c1, c2 := c.(skew := s1), c.(skew := s2);
    ReferenceFalls(c, s1, s2);
    YesSpreadGrows(c, s1, s2, level);
    ScaleMonotone(SpreadAt(c1, Yes, level), SpreadAt(c2, Yes, level), spreadMul);
    YesBudgetFalls(c, s1, s2);
    BudgetLevelMonotone(SideBudget(c2, Yes), SideBudget(c1, Yes), LevelsOf(c), level);
    ScaleMonotone(BudgetLevels(SideBudget(c2, Yes), LevelsOf(c))[level],
                  BudgetLevels(SideBudget(c1, Yes), LevelsOf(c))[level], sizeMul);
  }

  /**
   * As the skew rises, no YES rung rises in price or size and no NO rung falls in either. The NO half
   * is the YES half seen through the relabelling.
   */
  lemma {:induction false} InventoryResponse(c: Config, s1: int, s2: int, level: nat, spreadMul: nat, sizeMul: nat)
    requires ValidConfig(c) && s1 <= s2 && level < LevelsOf(c)
    ensures
      var r1 := (side: Side) => Rung(c.(skew := s1), side, level, spreadMul, sizeMul);
      var r2 := (side: Side) => Rung(c.(skew := s2), side, level, spreadMul, sizeMul);
      && r2(Yes).price <= r1(Yes).price && r2(Yes).size <= r1(Yes).size
      && r2(No).price >= r1(No).price && r2(No).size >= r1(No).size
  {
    hide RungPrice;
    hide RungSize;
    YesRungFalls(c, s1, s2, level, spreadMul, sizeMul);
    var m := c.(initialYes := PAR_PRICE_BPS - c.initialYes);
    YesRungFalls(m, -s2, -s1, level, spreadMul, sizeMul);
    assert m.(skew := -s2) == Relabel(c.(skew := s2));
    assert m.(skew := -s1) == Relabel(c.(skew := s1));
    RelabelRung(c.(skew := s1), Yes, level, spreadMul, sizeMul);
    RelabelRung(c.(skew := s2), Yes, level, spreadMul, sizeMul);
  }

  /**
   * The measured skew sits at the cap exactly when the net YES holding has reached the cap notional;
   * a claimed position or a zero notional leaves it at 0.
   */
  lemma {:induction false} SkewAtCap(c: Config, p: Position)
    requires ValidConfig(c)
    ensures
      var notional := c.seed * CapOf(c) / PAR_PRICE_BPS;
      InventorySkew(c, p) == CapOf(c) <==> !p.claimed && notional > 0 && p.yesShares - p.noShares >= notional
  {
    hide TruncDiv;
    var notional := c.seed * CapOf(c) / PAR_PRICE_BPS;
    if !p.claimed && notional > 0 {
      ShareAtCap(p.yesShares - p.noShares, CapOf(c), notional);
    }
  }

  lemma ShareAtCap(net: int, cap: int, notional: int)
    requires cap > 0 && notional > 0
    ensures TruncDiv(net * cap, notional) >= cap <==> net >= notional
  {
    TruncDivAtLeast(net * cap, notional, cap);
    hide TruncDiv;
    if net < notional {
      MulMonotone(net, notional - 1, cap);
      assert (notional - 1) * cap == cap * notional - cap;
    } else {
      MulMonotone(notional, net, cap);
    }
  }

  /** At the cap the crowded side has no budget at all. */
  lemma {:induction false} CrowdedSideIsEmpty(c: Config, side: Side, level: nat, sizeMul: nat)
    requires level < LevelsOf(c)
    requires SkewOf(c) == if side.Yes? then CapOf(c) else -CapOf(c)
    ensures RungSize(c, side, level, sizeMul) == 0
  {
    TransferRange(c);
    assert SideBudget(c, side) == 0;
    DivUnique(0, LevelsOf(c), 0);
  }

  // ----- Price order -----

  /** Any YES bid and any NO bid together cost less than a full payout. */
  lemma NeverCrossed(c: Config, spreadMul: nat, i: nat, j: nat)
    ensures RungPrice(c, Yes, i, spreadMul) + RungPrice(c, No, j, spreadMul) <= PAR_PRICE_BPS - 1
    ensures 1 <= RungPrice(c, Yes, i, spreadMul) < PAR_PRICE_BPS
    ensures 1 <= RungPrice(c, No, j, spreadMul) < PAR_PRICE_BPS
  {
    assert ScaleBps(SpreadAt(c, Yes, i), spreadMul) >= 1;
    assert ScaleBps(SpreadAt(c, No, j), spreadMul) >= 1;
  }

  /** Within a side, deeper levels never quote a higher price. */
  lemma {:induction false} PricesFallWithLevel(c: Config, side: Side, spreadMul: nat, i: nat, j: nat)
    requires ValidConfig(c) && i <= j < LevelsOf(c)
    ensures RungPrice(c, side, j, spreadMul) <= RungPrice(c, side, i, spreadMul)
  {
    MulMonotone(i, j, c.step);
    assert j * c.step <= 12 * 1_000 by { MulMonotone(j, 12, c.step); }
    ScaleMonotone(SpreadAt(c, side, i), SpreadAt(c, side, j), spreadMul);
  }

  // ----- The ladder at its two extremes -----

  lemma FullScale(value: nat)
    requires 1 <= value <= U64_MAX
    ensures ScaleBps(value, 10_000) == value
  {
  }

  function Quoted(price: int): int { Clamp(price, 1, PAR_PRICE_BPS - 1) }

  lemma LevelReach(c: Config, level: nat)
    requires ValidConfig(c) && level <= LevelsOf(c)
    ensures 0 <= level * c.step == c.step * level <= 12_000
    ensures SatMul(level, c.step) == SatMul(c.step, level) == c.step * level
  {
    MulMonotone(0, level, c.step);
    MulMonotone(level, 12, c.step);
  }

  lemma ShiftOfShare(shift: nat, cap: int)
    requires cap > 0
    ensures TruncDiv(cap * shift, cap) == shift && TruncDiv(shift * cap, cap) == shift
  {
    var product := cap * shift;
    assert shift * cap == product;
    MulMonotone(0, shift, cap);
    DivUnique(product, cap, shift);
  }

  lemma NoShift(cap: int)
    requires cap > 0
    ensures TruncDiv(0, cap) == 0
  {
    DivUnique(0, cap, 0);
  }

  lemma NeutralQuotes(c: Config)
    requires ValidConfig(c) && SkewOf(c) == 0
    ensures ReferenceYes(c) == c.initialYes && SpreadExtra(c) == 0
  {
    hide SkewOf;
    hide TruncDiv;
    NoShift(CapOf(c));
    assert SkewOf(c) * MaxShift(c) == 0 && SatMul(c.step, LevelsOf(c)) * Abs(SkewOf(c)) == 0;
  }

  lemma NeutralBudget(c: Config, side: Side)
    requires ValidConfig(c) && SkewOf(c) == 0
    ensures SideBudget(c, side) == c.seed / 2
  {
    DivUnique(0, CapOf(c), 0);
    assert Transfer(c) == 0;
  }

  /** Without skew both sides quote around the initial price, stepping away from it evenly, on half the seed each. */
  lemma NeutralLadder(c: Config, level: nat)
    requires ValidConfig(c) && SkewOf(c) == 0 && level < LevelsOf(c)
    ensures
      var spread := c.baseSpread + level * c.step;
      && RungPrice(c, Yes, level, 10_000) == Quoted(c.initialYes - spread)
      && RungPrice(c, No, level, 10_000) == Quoted(PAR_PRICE_BPS - c.initialYes - spread)
      && SideBudget(c, Yes) == SideBudget(c, No) == c.seed / 2
  {
    NeutralQuotes(c);
    NeutralBudget(c, Yes);
    NeutralBudget(c, No);
    LevelReach(c, level);
    FullScale(c.baseSpread + level * c.step);
    hide SkewOf;
    hide SideBudget;
    hide ScaleBps;
    hide SpreadExtra;
    hide ReferenceYes;
  }

  lemma CapQuotes(c: Config)
    requires ValidConfig(c) && SkewOf(c) == CapOf(c)
    ensures
      var reach := c.step * c.levels;
      && SpreadExtra(c) == reach <= 12_000
      && ReferenceYes(c) == Quoted(c.initialYes - Max(reach, c.baseSpread))
  {
    hide SkewOf;
    hide TruncDiv;
    LevelReach(c, c.levels);
    ShiftOfShare(MaxShift(c), CapOf(c));
    ShiftOfShare(SatMul(c.step, LevelsOf(c)), CapOf(c));
  }

  lemma CapBudget(c: Config)
    requires ValidConfig(c) && SkewOf(c) == CapOf(c)
    ensures SideBudget(c, Yes) == 0 && SideBudget(c, No) == c.seed
  {
    hide Transfer;
    TransferRange(c);
  }

  /**
   * With the YES position at its cap the reference price has moved by a whole ladder's reach, YES quotes lie that
   * reach further away, NO quotes half of it closer, and the NO side holds the whole seed.
   */
  lemma LadderAtCap(c: Config, level: nat)
    requires ValidConfig(c) && SkewOf(c) == CapOf(c) && level < LevelsOf(c)
    ensures
      var reach := c.step * c.levels;
      var reference := Quoted(c.initialYes - Max(reach, c.baseSpread));
      var spread := c.baseSpread + level * c.step;
      && RungPrice(c, Yes, level, 10_000) == Quoted(reference - (spread + reach))
      && RungPrice(c, No, level, 10_000) == Quoted(PAR_PRICE_BPS - reference - Max(spread - reach / 2, 1))
      && SideBudget(c, Yes) == 0 && SideBudget(c, No) == c.seed
  {
    CapQuotes(c);
    CapBudget(c);
    LevelReach(c, level);
    CapRung(c, level, c.step * c.levels);
  }

  lemma CapRung(c: Config, level: nat, reach: nat)
    requires ValidConfig(c) && SkewOf(c) == CapOf(c) && level < LevelsOf(c)
    requires SpreadExtra(c) == reach <= 12_000 && SatMul(level, c.step) == level * c.step <= 12_000
    ensures
      var spread := c.baseSpread + level * c.step;
      && RungPrice(c, Yes, level, 10_000) == Quoted(ReferenceYes(c) - (spread + reach))
      && RungPrice(c, No, level, 10_000) == Quoted(PAR_PRICE_BPS - ReferenceYes(c) - Max(spread - reach / 2, 1))
  {
    hide SatMul;
    hide SpreadExtra;
    hide SkewOf;
    hide ScaleBps;
    var spread := c.baseSpread + level * c.step;
    FullScale(spread + reach);
    FullScale(Max(spread - reach / 2, 1));
    EmptyScale();
  }

  lemma EmptyScale()
    ensures ScaleBps(0, 10_000) == 1
  {
  }
}
