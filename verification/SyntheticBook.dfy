/** The synthetic book of the desired ladder: what it holds, and that it conserves the seed. */
module SyntheticBook {
  import opened Numbers
  import opened Sums
  import opened Planner
  import PlannerProperties
  import opened OrderBook

  /** The ladder as one side's quotes, in ladder order. */
  function SideQuotes(desired: seq<Agent>, side: Side): seq<Quote>
  {
    if desired == [] then []
    else SideQuotes(desired[..|desired| - 1], side)
         + if desired[|desired| - 1].side == side
           then [Quote(desired[|desired| - 1].price, desired[|desired| - 1].size)] else []
  }

  method SyntheticBookFromAgents(desired: seq<Agent>) returns (yesBids: LevelMap, noBids: LevelMap)
    ensures fresh(yesBids) && fresh(noBids) && yesBids != noBids
    ensures yesBids.levels == Build(SideQuotes(desired, Yes))
    ensures noBids.levels == Build(SideQuotes(desired, No))
  {
    yesBids := new LevelMap();
    noBids := new LevelMap();
    for i := 0 to |desired|
      invariant yesBids != noBids && fresh(yesBids) && fresh(noBids)
      invariant yesBids.levels == Build(SideQuotes(desired[..i], Yes))
      invariant noBids.levels == Build(SideQuotes(desired[..i], No))
    {
      assert desired[..i + 1][..i] == desired[..i];
      BuildAppend(SideQuotes(desired[..i], desired[i].side), Quote(desired[i].price, desired[i].size));
      assert SideQuotes(desired[..i], desired[i].side.Other()) + []
          == SideQuotes(desired[..i], desired[i].side.Other());
      if desired[i].side == Yes {
        yesBids.Insert(desired[i].price, desired[i].size);
      } else {
        noBids.Insert(desired[i].price, desired[i].size);
      }
    }
    assert desired[..|desired|] == desired;
  }

  // ----- Quantities -----

  function SizeOf(): Agent -> int { (a: Agent) => a.size }

  function QuantityOf(): Quote -> int { (q: Quote) => q.quantity }

  /** The quantity resting at prices below `bound`, within `window` of `mid`. */
  function DepthNear(m: Levels, mid: nat, window: nat, bound: nat): nat
  {
    if bound == 0 then 0
    else DepthNear(m, mid, window, bound - 1)
         + if Abs(bound - 1 - mid) <= window then LevelAt(m, bound - 1).quantity else 0
  }

  /** Everything on the price grid. */
  function TotalQuantity(m: Levels): nat { DepthNear(m, 0, PAR_PRICE_BPS, PAR_PRICE_BPS) }

  datatype Depth = Depth(organic: nat, bootstrap: nat)

  /** How the organic depth compares with the plain ladder's. */
  function DepthRatio(d: Depth): real { if d.bootstrap == 0 then 0.0 else d.organic as real / d.bootstrap as real }

  /** Depth near the reference price: what others quote, and what the plain ladder would. */
  function DepthSnapshot(c: Config, window: nat, organicYes: Levels, organicNo: Levels): Depth
  {
    var ladder := Ladder(c, 10_000, 10_000);
    var yesMid := ReferenceYes(c);
    var noMid := PAR_PRICE_BPS - yesMid;
    Depth(SatAdd(DepthNear(organicYes, yesMid, window, PAR_PRICE_BPS),
                 DepthNear(organicNo, noMid, window, PAR_PRICE_BPS)),
          SatAdd(DepthNear(Build(SideQuotes(ladder, Yes)), yesMid, window, PAR_PRICE_BPS),
                 DepthNear(Build(SideQuotes(ladder, No)), noMid, window, PAR_PRICE_BPS)))
  }

  lemma {:induction false} DepthNearUpdate(m: Levels, mid: nat, window: nat, bound: nat, price: nat, level: Level)
    ensures DepthNear(m[price := level], mid, window, bound)
         == DepthNear(m, mid, window, bound)
          + if price < bound && Abs(price - mid) <= window then level.quantity - LevelAt(m, price).quantity else 0
  {
    if bound > 0 {
      DepthNearUpdate(m, mid, window, bound - 1, price, level);
    }
  }

  lemma {:induction false} EmptyDepth(mid: nat, window: nat, bound: nat)
    ensures DepthNear(map[], mid, window, bound) == 0
  {
    if bound > 0 {
      EmptyDepth(mid, window, bound - 1);
    }
  }

  function QuantityNear(mid: nat, window: nat): Quote -> int
  {
    (q: Quote) => if Eligible(q) && Abs(q.price - mid) <= window then q.quantity else 0
  }

  lemma {:induction false} QuantityAtWithin(qs: seq<Quote>, price: nat)
    ensures SumBy(qs, QuantityAt(price)) <= SumBy(qs, QuantityOf())
  {
    if qs != [] {
      QuantityAtWithin(qs[1..], price);
    }
  }

  /** The depth of a built book is the total of the eligible quotes in the window, while the sum fits in 64 bits. */
  lemma {:induction false} DepthExact(qs: seq<Quote>, mid: nat, window: nat)
    requires SumBy(qs, QuantityOf()) <= U64_MAX
    ensures DepthNear(Build(qs), mid, window, PAR_PRICE_BPS) == SumBy(qs, QuantityNear(mid, window))
  {
    if qs == [] {
      EmptyDepth(mid, window, PAR_PRICE_BPS);
    } else {
      var front, q := qs[..|qs| - 1], qs[|qs| - 1];
      assert qs == front + [q];
      SumByAppend(front, q, QuantityOf());
      SumByAppend(front, q, QuantityNear(mid, window));
      DepthExact(front, mid, window);
      if Eligible(q) {
        BuildExact(front, q.price);
        QuantityAtWithin(front, q.price);
        DepthNearUpdate(Build(front), mid, window, PAR_PRICE_BPS, q.price, Build(qs)[q.price]);
      }
    }
  }

  /** Aggregating on-grid quotes loses nothing. */
  lemma BuildConserves(qs: seq<Quote>)
    requires forall q :: q in qs ==> Quotable(q.price)
    requires SumBy(qs, QuantityOf()) <= U64_MAX
    ensures TotalQuantity(Build(qs)) == SumBy(qs, QuantityOf())
  {
    DepthExact(qs, 0, PAR_PRICE_BPS);
    SumByCongruent(qs, QuantityNear(0, PAR_PRICE_BPS), qs, QuantityOf());
  }

  lemma SideQuotesAppend(desired: seq<Agent>, a: Agent, side: Side)
    ensures SumBy(SideQuotes(desired + [a], side), QuantityOf())
         == SumBy(SideQuotes(desired, side), QuantityOf()) + if a.side == side then a.size else 0
  {
    assert (desired + [a])[..|desired|] == desired;
    if a.side == side {
      SumByAppend(SideQuotes(desired, side), Quote(a.price, a.size), QuantityOf());
    } else {
      assert SideQuotes(desired, side) + [] == SideQuotes(desired, side);
    }
  }

  lemma {:induction false} SideQuotesSum(desired: seq<Agent>)
    ensures SumBy(SideQuotes(desired, Yes), QuantityOf()) + SumBy(SideQuotes(desired, No), QuantityOf())
         == SumBy(desired, SizeOf())
  {
    if desired != [] {
      var before, a := desired[..|desired| - 1], desired[|desired| - 1];
      assert desired == before + [a];
      SideQuotesSum(before);
      SumByAppend(before, a, SizeOf());
      SideQuotesAppend(before, a, Yes);
      SideQuotesAppend(before, a, No);
    }
  }

  lemma {:induction false} SideQuotesComeFrom(desired: seq<Agent>, side: Side, q: Quote)
    requires q in SideQuotes(desired, side)
    ensures exists a :: a in desired && a.side == side && q == Quote(a.price, a.size)
  {
    var n := |desired| - 1;
    if q in SideQuotes(desired[..n], side) {
      SideQuotesComeFrom(desired[..n], side, q);
      var a :| a in desired[..n] && a.side == side && q == Quote(a.price, a.size);
      assert a in desired;
    } else {
      assert desired[n] in desired;
    }
  }

  // ----- Budget conservation -----

  function Id(): nat -> int { (x: nat) => x }

  lemma {:induction false} BudgetPrefix(total: nat, levels: nat, n: nat)
    requires n <= levels && levels > 0
    ensures SumBy(BudgetLevels(total, levels)[..n], Id()) == n * (total / levels) + Min(n, total % levels)
  {
    if n > 0 {
      BudgetPrefix(total, levels, n - 1);
      var parts := BudgetLevels(total, levels);
      assert parts[..n] == parts[..n - 1] + [parts[n - 1]];
      SumByAppend(parts[..n - 1], parts[n - 1], Id());
      assert n * (total / levels) == (n - 1) * (total / levels) + total / levels;
    }
  }

  /** Splitting a side budget over the levels loses nothing. */
  lemma {:induction false} BudgetLevelsSum(total: nat, levels: nat)
    requires levels > 0
    ensures SumBy(BudgetLevels(total, levels), Id()) == total
  {
    hide SumBy;
    hide BudgetLevels;
    BudgetPrefix(total, levels, levels);
    assert BudgetLevels(total, levels)[..levels] == BudgetLevels(total, levels);
  }

  lemma {:induction false} SplitByBps(seed: nat, y: nat, n: nat)
    requires y + n == 10_000
    ensures seed - 1 <= seed * y / 10_000 + seed * n / 10_000 <= seed
    ensures seed % 10_000 == 0 ==> seed * y / 10_000 + seed * n / 10_000 == seed
  {
    assert seed * y + seed * n == seed * 10_000;
    if seed % 10_000 == 0 {
      var cents := seed / 10_000;
      assert seed * y == 10_000 * (cents * y) && seed * n == 10_000 * (cents * n);
      DivUnique(seed * y, 10_000, cents * y);
      DivUnique(seed * n, 10_000, cents * n);
    }
  }

  lemma {:induction false} SideBudgetExact(c: Config, side: Side)
    requires ValidConfig(c)
    ensures SideBudget(c, side) == c.seed * SideBudgetBps(c, side) / 10_000
  {
    TransferRange(c);
    MulMonotone(0, SideBudgetBps(c, side), c.seed);
    MulMonotone(SideBudgetBps(c, side), 10_000, c.seed);
  }

  /** The two side budgets add up to the seed or one unit less; exactly the seed for whole cents. */
  lemma {:induction false} SideBudgetsSum(c: Config)
    requires ValidConfig(c)
    ensures c.seed - 1 <= SideBudget(c, Yes) + SideBudget(c, No) <= c.seed
    ensures c.seed % 10_000 == 0 ==> SideBudget(c, Yes) + SideBudget(c, No) == c.seed
  {
    TransferRange(c);
    SideBudgetExact(c, Yes);
    SideBudgetExact(c, No);
    SplitByBps(c.seed, SideBudgetBps(c, Yes), SideBudgetBps(c, No));
  }

  /** The sizes of the first `n` rungs of one side. */
  function SideSizes(c: Config, side: Side, n: nat, sizeMul: nat): nat
    requires n <= LevelsOf(c)
  {
    if n == 0 then 0 else SideSizes(c, side, n - 1, sizeMul) + RungSize(c, side, n - 1, sizeMul)
  }

  lemma {:induction false} LadderSizes(c: Config, n: nat, spreadMul: nat, sizeMul: nat)
    requires n <= LevelsOf(c)
    ensures SumBy(LadderUpTo(c, n, spreadMul, sizeMul), SizeOf())
         == SideSizes(c, Yes, n, sizeMul) + SideSizes(c, No, n, sizeMul)
  {
    if n > 0 {
      LadderSizes(c, n - 1, spreadMul, sizeMul);
      var before := LadderUpTo(c, n - 1, spreadMul, sizeMul);
      var y, no := Rung(c, Yes, n - 1, spreadMul, sizeMul), Rung(c, No, n - 1, spreadMul, sizeMul);
      assert before + [y, no] == before + [y] + [no];
      SumByAppend(before, y, SizeOf());
      SumByAppend(before + [y], no, SizeOf());
    }
  }

  lemma {:induction false} PartFits(total: nat, levels: nat, i: nat)
    requires i < levels
    ensures BudgetLevels(total, levels)[i] <= total + 1
  {
    MulMonotone(1, levels, total / levels);
  }

  lemma {:induction false} ScaleStep(m: nat, planned: nat, part: nat, scaled: nat, slack: nat)
    requires m <= 10_000 && part <= U64_MAX
    requires 10_000 * scaled <= m * planned <= 10_000 * scaled + slack
    ensures 10_000 * (scaled + ScaleQuantity(part, m)) <= m * (planned + part)
    ensures m * (planned + part) <= 10_000 * (scaled + ScaleQuantity(part, m)) + slack + 9_999
  {
    assert m * (planned + part) == m * planned + part * m;
    MulMonotone(m, 10_000, part);
  }

  /** Scaling rounds each rung down by less than one unit. */
  lemma {:induction false} SideSizesBound(c: Config, side: Side, n: nat, sizeMul: nat)
    requires ValidConfig(c) && n <= LevelsOf(c) && sizeMul <= 10_000
    ensures SumBy(BudgetLevels(SideBudget(c, side), LevelsOf(c))[..n], Id()) >= 0
    ensures
      var planned := SumBy(BudgetLevels(SideBudget(c, side), LevelsOf(c))[..n], Id());
      var sizes := SideSizes(c, side, n, sizeMul);
      10_000 * sizes <= sizeMul * planned <= 10_000 * sizes + 9_999 * n
  {
    if n > 0 {
      SideSizesBound(c, side, n - 1, sizeMul);
      var parts := BudgetLevels(SideBudget(c, side), LevelsOf(c));
      assert parts[..n] == parts[..n - 1] + [parts[n - 1]];
      SumByAppend(parts[..n - 1], parts[n - 1], Id());
      SideBudgetsSum(c);
      PartFits(SideBudget(c, side), LevelsOf(c), n - 1);
      var sizes := SideSizes(c, side, n - 1, sizeMul);
      ScaleStep(sizeMul, SumBy(parts[..n - 1], Id()), parts[n - 1], sizes, 9_999 * (n - 1));
    }
  }

  lemma {:induction false} SideSizesOfBudget(c: Config, side: Side, sizeMul: nat)
    requires ValidConfig(c) && sizeMul <= 10_000
    ensures
      var sizes := SideSizes(c, side, LevelsOf(c), sizeMul);
      10_000 * sizes <= sizeMul * SideBudget(c, side) <= 10_000 * sizes + 9_999 * LevelsOf(c)
    ensures sizeMul == 10_000 ==> SideSizes(c, side, LevelsOf(c), sizeMul) == SideBudget(c, side)
  {
    var levels := LevelsOf(c);
    SideSizesBound(c, side, levels, sizeMul);
    BudgetLevelsSum(SideBudget(c, side), levels);
    assert BudgetLevels(SideBudget(c, side), levels)[..levels] == BudgetLevels(SideBudget(c, side), levels);
    if sizeMul == 10_000 {
      FullSideSizes(c, side, levels);
    }
  }

  lemma {:induction false} FullSideSizes(c: Config, side: Side, n: nat)
    requires ValidConfig(c) && n <= LevelsOf(c)
    ensures SideSizes(c, side, n, 10_000) == SumBy(BudgetLevels(SideBudget(c, side), LevelsOf(c))[..n], Id())
  {
    if n > 0 {
      FullSideSizes(c, side, n - 1);
      var parts := BudgetLevels(SideBudget(c, side), LevelsOf(c));
      assert parts[..n] == parts[..n - 1] + [parts[n - 1]];
      SumByAppend(parts[..n - 1], parts[n - 1], Id());
      SideBudgetsSum(c);
      PartFits(SideBudget(c, side), LevelsOf(c), n - 1);
    }
  }

  lemma {:induction false} CombineSides(m: nat, seed: nat, y: nat, n: nat, sizesY: nat, sizesN: nat, levels: nat)
    requires m <= 10_000 && levels > 0 && seed - 1 <= y + n <= seed
    requires 10_000 * sizesY <= m * y <= 10_000 * sizesY + 9_999 * levels
    requires 10_000 * sizesN <= m * n <= 10_000 * sizesN + 9_999 * levels
    ensures sizesY + sizesN <= seed
    ensures 10_000 * (sizesY + sizesN) <= seed * m < 10_000 * (sizesY + sizesN + 2 * levels + 1)
  {
    assert m * (y + n) == m * y + m * n;
    MulMonotone(seed - 1, y + n, m);
    MulMonotone(y + n, seed, m);
    MulMonotone(m, 10_000, seed);
    assert m * (seed - 1) == m * seed - m;
  }

  /**
   * Budget conservation of the ladder: its sizes never exceed the seed, fall short of the scaled seed by
   * less than one unit per rung and one more, and at full size miss the seed by at most one unit, by
   * nothing when the seed is a whole number of cents.
   */
  lemma {:induction false} LadderConservesSeed(c: Config, spreadMul: nat, sizeMul: nat)
    requires ValidConfig(c) && sizeMul <= 10_000
    ensures
      var total := SumBy(Ladder(c, spreadMul, sizeMul), SizeOf());
      && 0 <= total <= c.seed
      && 10_000 * total <= c.seed * sizeMul < 10_000 * (total + 2 * c.levels + 1)
      && (sizeMul == 10_000 ==> total >= c.seed - 1)
      && (sizeMul == 10_000 && c.seed % 10_000 == 0 ==> total == c.seed)
  {
    LadderSizes(c, LevelsOf(c), spreadMul, sizeMul);
    SideBudgetsSum(c);
    SideSizesOfBudget(c, Yes, sizeMul);
    SideSizesOfBudget(c, No, sizeMul);
    CombineSides(sizeMul, c.seed, SideBudget(c, Yes), SideBudget(c, No),
                 SideSizes(c, Yes, LevelsOf(c), sizeMul), SideSizes(c, No, LevelsOf(c), sizeMul), LevelsOf(c));
  }

  /** The synthetic book holds exactly what the ladder offers, on the price grid. */
  lemma {:induction false} SyntheticBookConserves(c: Config, spreadMul: nat, sizeMul: nat)
    requires ValidConfig(c) && sizeMul <= 10_000
    ensures
      var l := Ladder(c, spreadMul, sizeMul);
      TotalQuantity(Build(SideQuotes(l, Yes))) + TotalQuantity(Build(SideQuotes(l, No))) == SumBy(l, SizeOf())
  {
    var l := Ladder(c, spreadMul, sizeMul);
    LadderConservesSeed(c, spreadMul, sizeMul);
    SideQuotesSum(l);
    forall side: Side, q | q in SideQuotes(l, side)
      ensures Quotable(q.price)
    {
      var _ := LadderQuote(c, spreadMul, sizeMul, side, q);
    }
    SumByNonNegative(SideQuotes(l, Yes), QuantityOf());
    SumByNonNegative(SideQuotes(l, No), QuantityOf());
    BuildConserves(SideQuotes(l, Yes));
    BuildConserves(SideQuotes(l, No));
  }

  /** Each quote of a side is one of that side's rungs. */
  lemma {:induction false} LadderQuote(
    c: Config, spreadMul: nat, sizeMul: nat, side: Side, q: Quote)
    returns (level: nat)
    ensures q in SideQuotes(Ladder(c, spreadMul, sizeMul), side) ==>
      && level < LevelsOf(c) && Quotable(q.price)
      && q == Quote(RungPrice(c, side, level, spreadMul), RungSize(c, side, level, sizeMul))
  {
    level := 0;
    var l := Ladder(c, spreadMul, sizeMul);
    if q in SideQuotes(l, side) {
      SideQuotesComeFrom(l, side, q);
      var a :| a in l && a.side == side && q == Quote(a.price, a.size);
      LadderSlots(c, spreadMul, sizeMul);
      var k :| 0 <= k < |l| && l[k] == a;
      assert a == Rung(c, a.side, a.level, spreadMul, sizeMul);
      level := a.level;
      PlannerProperties.NeverCrossed(c, spreadMul, level, level);
    }
  }

  /** A built level comes from some quote at its price. */
  lemma {:induction false} LevelHasQuote(qs: seq<Quote>, price: nat) returns (q: Quote)
    requires price in Build(qs)
    ensures q in qs && q.price == price && Eligible(q)
  {
    var n := |qs| - 1;
    if Eligible(qs[n]) && qs[n].price == price {
      q := qs[n];
    } else {
      q := LevelHasQuote(qs[..n], price);
    }
  }

  /** Every bid of the view is strictly below every ask. */
  predicate NotCrossed(v: View)
  {
    forall i, j :: 0 <= i < |v.bids| && 0 <= j < |v.asks| ==> v.bids[i].price < v.asks[j].price
  }

  lemma {:induction false} DescendingComeFrom(m: Levels, bound: nat)
    ensures forall l :: l in Descending(m, bound) ==> l.price in m
  {
    if bound > 0 {
      DescendingComeFrom(m, bound - 1);
    }
  }

  lemma {:induction false} ComplementsComeFrom(ls: seq<BookLevel>)
    ensures forall x :: x in Complements(ls) ==> exists l :: l in ls && x == Complement(l)
  {
    if ls != [] {
      ComplementsComeFrom(ls[1..]);
      forall x | x in Complements(ls)
        ensures exists l :: l in ls && x == Complement(l)
      {
        if x in Complements(ls[1..]) {
          var l :| l in ls[1..] && x == Complement(l);
          assert l in ls;
        } else {
          assert ls[0] in ls;
        }
      }
    }
  }

  /** Level maps whose prices on opposite sides cost less than a payout together show views that are not crossed. */
  lemma UncrossedMaps(bids: Levels, opposing: Levels, depth: nat)
    requires forall p, q :: p in bids && q in opposing ==> p < PAR_PRICE_BPS - q
    ensures NotCrossed(View(BidSide(bids, depth), AskSide(opposing, depth)))
  {
    hide Descending;
    hide Complements;
    var v := View(BidSide(bids, depth), AskSide(opposing, depth));
    DescendingComeFrom(bids, U64_MAX + 1);
    DescendingComeFrom(opposing, U64_MAX + 1);
    ComplementsComeFrom(Descending(opposing, U64_MAX + 1));
    forall i, j | 0 <= i < |v.bids| && 0 <= j < |v.asks|
      ensures v.bids[i].price < v.asks[j].price
    {
      assert v.bids[i] in Descending(bids, U64_MAX + 1);
      assert v.asks[j] in Complements(Descending(opposing, U64_MAX + 1));
      var l :| l in Descending(opposing, U64_MAX + 1) && v.asks[j] == Complement(l);
      assert l.price in opposing;
    }
  }

  /** The synthetic book is never crossed, in either outcome's view, at any depth, whatever the configuration. */
  lemma {:induction false} SyntheticBookNeverCrossed(c: Config, spreadMul: nat, sizeMul: nat, outcome: Side, depth: nat)
    ensures
      var l := Ladder(c, spreadMul, sizeMul);
      NotCrossed(OutcomeView(Build(SideQuotes(l, Yes)), Build(SideQuotes(l, No)), outcome, depth))
  {
    hide Ladder;
    hide RungPrice;
    hide NotCrossed;
    hide Build;
    var l := Ladder(c, spreadMul, sizeMul);
    var yes, no := Build(SideQuotes(l, Yes)), Build(SideQuotes(l, No));
    forall p, q | p in yes && q in no
      ensures p < PAR_PRICE_BPS - q && q < PAR_PRICE_BPS - p
    {
      var y := LevelHasQuote(SideQuotes(l, Yes), p);
      var n := LevelHasQuote(SideQuotes(l, No), q);
      var i := LadderQuote(c, spreadMul, sizeMul, Yes, y);
      var j := LadderQuote(c, spreadMul, sizeMul, No, n);
      PlannerProperties.NeverCrossed(c, spreadMul, i, j);
    }
    UncrossedMaps(yes, no, depth);
    UncrossedMaps(no, yes, depth);
  }

  /** Once the net position reaches the cap notional the synthetic book stops bidding for the crowded side. */
  lemma {:induction false} CrowdedBookIsEmpty(c: Config, p: Position, spreadMul: nat, sizeMul: nat)
    requires ValidConfig(c) && !p.claimed
    requires 0 < c.seed * CapOf(c) / PAR_PRICE_BPS <= p.yesShares - p.noShares
    ensures Build(SideQuotes(Ladder(PlannerProperties.WithMeasuredSkew(c, p), spreadMul, sizeMul), Yes)) == map[]
  {
    PlannerProperties.SkewAtCap(c, p);
    var d := PlannerProperties.WithMeasuredSkew(c, p);
    var qs := SideQuotes(Ladder(d, spreadMul, sizeMul), Yes);
    if price :| price in Build(qs) {
      var q := LevelHasQuote(qs, price);
      var level := LadderQuote(d, spreadMul, sizeMul, Yes, q);
      PlannerProperties.CrowdedSideIsEmpty(d, Yes, level, sizeMul);
      assert false;
    }
  }

  // ----- Relabelling the books -----

  /** Two ladders with the sides exchanged rung by rung. */
  predicate Exchanged(l: seq<Agent>, m: seq<Agent>)
  {
    && |l| == |m| && |l| % 2 == 0
    && forall k :: 0 <= k < |l| / 2 ==>
         && l[2 * k].side == Yes && l[2 * k + 1].side == No && m[2 * k].side == Yes && m[2 * k + 1].side == No
         && l[2 * k] == m[2 * k + 1].(side := Yes) && l[2 * k + 1] == m[2 * k].(side := No)
  }

  lemma {:induction false} ExchangedQuotes(l: seq<Agent>, m: seq<Agent>)
    requires Exchanged(l, m)
    ensures SideQuotes(l, Yes) == SideQuotes(m, No) && SideQuotes(l, No) == SideQuotes(m, Yes)
  {
    if l != [] {
      var n := |l| - 2;
      assert 2 * (n / 2) == n;
      ExchangedQuotes(l[..n], m[..n]);
      LastPair(l);
      LastPair(m);
      assert l[n] == m[n + 1].(side := Yes) && l[n + 1] == m[n].(side := No);
    }
  }

  lemma SideQuotesStep(front: seq<Agent>, a: Agent, side: Side)
    ensures SideQuotes(front + [a], side)
         == if a.side == side then SideQuotes(front, side) + [Quote(a.price, a.size)] else SideQuotes(front, side)
  {
    assert (front + [a])[..|front|] == front;
  }

  lemma LastPair(l: seq<Agent>)
    requires |l| >= 2 && l[|l| - 2].side == Yes && l[|l| - 1].side == No
    ensures SideQuotes(l, Yes) == SideQuotes(l[..|l| - 2], Yes) + [Quote(l[|l| - 2].price, l[|l| - 2].size)]
    ensures SideQuotes(l, No) == SideQuotes(l[..|l| - 2], No) + [Quote(l[|l| - 1].price, l[|l| - 1].size)]
  {
    hide SideQuotes;
    var base, x, y := l[..|l| - 2], l[|l| - 2], l[|l| - 1];
    assert l == (base + [x]) + [y];
    forall side: Side
      ensures SideQuotes(l, side) == if side == Yes then SideQuotes(base, side) + [Quote(x.price, x.size)]
                                     else SideQuotes(base, side) + [Quote(y.price, y.size)]
    {
      SideQuotesStep(base, x, side);
      SideQuotesStep(base + [x], y, side);
    }
  }

  lemma RelabelExchanges(c: Config, spreadMul: nat, sizeMul: nat)
    requires ValidConfig(c)
    ensures Exchanged(Ladder(PlannerProperties.Relabel(c), spreadMul, sizeMul), Ladder(c, spreadMul, sizeMul))
  {
    hide Ladder;
    hide Rung;
    hide LevelsOf;
    var d := PlannerProperties.Relabel(c);
    var l, m := Ladder(d, spreadMul, sizeMul), Ladder(c, spreadMul, sizeMul);
    LadderPairs(d, spreadMul, sizeMul);
    LadderPairs(c, spreadMul, sizeMul);
    PlannerProperties.RelabelLadder(c, spreadMul, sizeMul, Yes, 0);
    forall k | 0 <= k < |l| / 2
      ensures l[2 * k] == m[2 * k + 1].(side := Yes) && l[2 * k + 1] == m[2 * k].(side := No)
    {
      PlannerProperties.RelabelLadder(c, spreadMul, sizeMul, Yes, k);
      PlannerProperties.RelabelLadder(c, spreadMul, sizeMul, No, k);
    }
  }

  lemma LadderPairs(c: Config, spreadMul: nat, sizeMul: nat)
    ensures
      var l := Ladder(c, spreadMul, sizeMul);
      && |l| == 2 * LevelsOf(c) && LevelsOf(c) >= 1
      && forall k :: 0 <= k < LevelsOf(c) ==> l[2 * k].side == Yes && l[2 * k + 1].side == No
  {
    hide Ladder;
    hide RungPrice;
    hide RungSize;
    LadderRung(c, spreadMul, sizeMul, Yes, 0);
    forall k | 0 <= k < LevelsOf(c)
      ensures Ladder(c, spreadMul, sizeMul)[2 * k].side == Yes && Ladder(c, spreadMul, sizeMul)[2 * k + 1].side == No
    {
      LadderRung(c, spreadMul, sizeMul, Yes, k);
      LadderRung(c, spreadMul, sizeMul, No, k);
    }
  }

  /** Renaming the outcomes, with the organic books exchanged, leaves both depths and so their ratio unchanged. */
  lemma RelabelDepth(c: Config, window: nat, organicYes: Levels, organicNo: Levels)
    requires ValidConfig(c)
    ensures DepthSnapshot(PlannerProperties.Relabel(c), window, organicNo, organicYes)
         == DepthSnapshot(c, window, organicYes, organicNo)
  {
    hide Ladder;
    hide DepthNear;
    hide Build;
    hide SideQuotes;
    hide ReferenceYes;
    RelabelExchanges(c, 10_000, 10_000);
    ExchangedQuotes(Ladder(PlannerProperties.Relabel(c), 10_000, 10_000), Ladder(c, 10_000, 10_000));
    PlannerProperties.RelabelReference(c);
    assert ReferenceOf(PlannerProperties.Relabel(c), Yes) == ReferenceOf(c, No);
    assert ReferenceOf(PlannerProperties.Relabel(c), No) == ReferenceOf(c, Yes);
  }
}
