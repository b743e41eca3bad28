/** Price level maps of the order book: aggregation, merging, views and depth (app/src/api/evm.rs). */
module OrderBook {
  import opened Numbers
  import opened Sums
  import opened Planner

  const SCAN_WINDOW: nat := 150

  datatype Level = Level(quantity: nat, orders: nat)

  /** A `BTreeMap<u64, LevelAggregate>`, keyed by price in basis points. */
  type Levels = map<nat, Level>

  datatype Quote = Quote(price: nat, quantity: nat)

  function LevelAt(m: Levels, price: nat): Level { if price in m then m[price] else Level(0, 0) }

  predicate Quotable(price: nat) { 1 <= price < PAR_PRICE_BPS }

  predicate Eligible(q: Quote) { q.quantity != 0 && Quotable(q.price) }

  function InsertLevel(m: Levels, q: Quote): Levels
  {
    if !Eligible(q) then m
    else m[q.price := Level(SatAdd(LevelAt(m, q.price).quantity, q.quantity), SatAdd(LevelAt(m, q.price).orders, 1))]
  }

  function MergeLevel(a: Level, b: Level): Level
  {
    Level(SatAdd(a.quantity, b.quantity), SatAdd(a.orders, b.orders))
  }

  function MergeLevels(a: Levels, b: Levels): Levels
  {
    map p | p in a.Keys + b.Keys :: if p in b then MergeLevel(LevelAt(a, p), b[p]) else a[p]
  }

  class LevelMap {
    var levels: Levels

    constructor ()
      ensures levels == map[]
    {
      levels := map[];
    }

    method Insert(price: nat, quantity: nat)
      modifies this
      ensures levels == InsertLevel(old(levels), Quote(price, quantity))
    {
      if quantity == 0 || !(1 <= price < PAR_PRICE_BPS) {
        return;
      }
      if price !in levels {
        levels := levels[price := Level(0, 0)];
      }
      levels := levels[price := levels[price].(quantity := SatAdd(levels[price].quantity, quantity))];
      levels := levels[price := levels[price].(orders := SatAdd(levels[price].orders, 1))];
    }

    method Merge(source: Levels)
      modifies this
      ensures levels == MergeLevels(old(levels), source)
    {
      var todo := source.Keys;
      ghost var before, merged := levels, map[];
      assert levels == MergeLevels(before, merged);
      while todo != {}
        invariant todo <= source.Keys && merged == source - todo
        invariant levels == MergeLevels(before, merged)
        decreases |todo|
      {
        var price :| price in todo;
        var entry := if price in levels then levels[price] else Level(0, 0);
        MergeOne(before, merged, price, source[price]);
        levels := levels[price := MergeLevel(entry, source[price])];
        merged := merged[price := source[price]];
        todo := todo - {price};
      }
      assert merged == source;
    }
  }

  lemma MergeOne(a: Levels, b: Levels, price: nat, level: Level)
    requires price !in b
    ensures MergeLevels(a, b[price := level])
         == MergeLevels(a, b)[price := MergeLevel(LevelAt(MergeLevels(a, b), price), level)]
  {
  }

  // ----- Aggregation -----

  /** The level map after inserting every quote of a scan, in order. */
  function Build(qs: seq<Quote>): Levels
  {
    if qs == [] then map[] else InsertLevel(Build(qs[..|qs| - 1]), qs[|qs| - 1])
  }

  function QuantityAt(price: nat): Quote -> int
  {
    (q: Quote) => if Eligible(q) && q.price == price then q.quantity else 0
  }

  function CountAt(price: nat): Quote -> int
  {
    (q: Quote) => if Eligible(q) && q.price == price then 1 else 0
  }

  /**
   * What a level holds: present exactly when some eligible quote is at its price, and then the
   * saturated exact totals of those quotes.
   */
  lemma {:induction false} BuildExact(qs: seq<Quote>, price: nat)
    ensures SumBy(qs, QuantityAt(price)) >= 0 && SumBy(qs, CountAt(price)) >= 0
    ensures price in Build(qs) <==> SumBy(qs, CountAt(price)) > 0
    ensures price in Build(qs) ==> Quotable(price)
    ensures LevelAt(Build(qs), price)
         == Level(Min(SumBy(qs, QuantityAt(price)), U64_MAX), Min(SumBy(qs, CountAt(price)), U64_MAX))
  {
    if qs != [] {
      var n := |qs| - 1;
      BuildExact(qs[..n], price);
      assert qs == qs[..n] + [qs[n]];
      SumByAppend(qs[..n], qs[n], QuantityAt(price));
      SumByAppend(qs[..n], qs[n], CountAt(price));
    }
  }

  lemma LevelsEqual(a: Levels, b: Levels)
    requires forall p: nat :: (p in a <==> p in b) && LevelAt(a, p) == LevelAt(b, p)
    ensures a == b
  {
    forall p | p in a
      ensures p in b && a[p] == b[p]
    {
      assert LevelAt(a, p) == a[p];
    }
    forall p | p in b
      ensures p in a
    {
      assert LevelAt(b, p) == b[p];
    }
  }

  /** The scan order does not matter. */
  lemma BuildPermuted(xs: seq<Quote>, ys: seq<Quote>)
    requires multiset(xs) == multiset(ys)
    ensures Build(xs) == Build(ys)
  {
    forall p: nat
      ensures (p in Build(xs) <==> p in Build(ys)) && LevelAt(Build(xs), p) == LevelAt(Build(ys), p)
    {
      BuildExact(xs, p);
      BuildExact(ys, p);
      SumByPermuted(xs, ys, QuantityAt(p));
      SumByPermuted(xs, ys, CountAt(p));
    }
    LevelsEqual(Build(xs), Build(ys));
  }

  /** Merging two built books is building from the concatenated orders. */
  lemma {:induction false} MergeIsConcat(xs: seq<Quote>, ys: seq<Quote>)
    ensures MergeLevels(Build(xs), Build(ys)) == Build(xs + ys)
  {
    var merged := MergeLevels(Build(xs), Build(ys));
    forall p: nat
      ensures (p in merged <==> p in Build(xs + ys)) && LevelAt(merged, p) == LevelAt(Build(xs + ys), p)
    {
      BuildExact(xs, p);
      BuildExact(ys, p);
      BuildExact(xs + ys, p);
      SumByConcat(xs, ys, QuantityAt(p));
      SumByConcat(xs, ys, CountAt(p));
    }
    LevelsEqual(merged, Build(xs + ys));
  }

  // ----- Scanning the on-chain order table -----

  datatype Order = Order(market: nat, side: Side, price: nat, remaining: nat, expiry: nat, canceled: bool)

  predicate OrderCounts(o: Order, market: nat, now: nat)
  {
    o.market == market && !o.canceled && o.remaining != 0 && o.expiry >= now && Quotable(o.price)
  }

  /** First id of the window, as the bootstrap collector computes it. */
  function CollectorStart(total: nat): nat { Max(SatSub(total, SatSub(SCAN_WINDOW, 1)), 1) }

  /** First id of the window, as the order book endpoint computes it. */
  function EndpointStart(total: nat): nat { if total > SCAN_WINDOW then total - SCAN_WINDOW + 1 else 1 }

  /** Both scanners visit the same ids: the last `SCAN_WINDOW` of them, or all. */
  lemma SameWindow(total: nat, id: nat)
    ensures CollectorStart(total) == EndpointStart(total)
    ensures CollectorStart(total) <= id <= total <==> 1 <= id <= total && total - id < SCAN_WINDOW
  {
  }

  /** The quote of one side that the order with this id contributes, if any. */
  function QuotesAt(table: map<nat, Order>, id: nat, market: nat, now: nat, side: Side): seq<Quote>
  {
    if id in table && OrderCounts(table[id], market, now) && table[id].side == side
    then [Quote(table[id].price, table[id].remaining)] else []
  }

  /** The quotes of one side a scan from `last` down to `first` meets, in that order. */
  function ScanQuotes(table: map<nat, Order>, first: nat, last: nat, market: nat, now: nat, side: Side): seq<Quote>
    decreases last
  {
    if last < first || last == 0 then []
    else QuotesAt(table, last, market, now, side) + ScanQuotes(table, first, last - 1, market, now, side)
  }

  /** Scanning one id further down adds its quote at the end. */
  lemma {:induction false} ScanExtend(
    table: map<nat, Order>, first: nat, last: nat, market: nat, now: nat, side: Side)
    requires 1 <= first <= last + 1 && 1 <= last
    ensures ScanQuotes(table, first - 1, last, market, now, side)
         == ScanQuotes(table, first, last, market, now, side)
            + if first == 1 then [] else QuotesAt(table, first - 1, market, now, side)
    decreases last
  {
    hide QuotesAt;
    if first <= last && last > 1 {
      ScanExtend(table, first, last - 1, market, now, side);
    }
  }

  lemma BuildAppend(qs: seq<Quote>, q: Quote)
    ensures Build(qs + [q]) == InsertLevel(Build(qs), q)
  {
    assert (qs + [q])[..|qs|] == qs;
  }

  lemma BuildQuotesAt(qs: seq<Quote>, table: map<nat, Order>, id: nat, market: nat, now: nat, side: Side)
    ensures Build(qs + QuotesAt(table, id, market, now, side))
         == if id in table && OrderCounts(table[id], market, now) && table[id].side == side
            then InsertLevel(Build(qs), Quote(table[id].price, table[id].remaining)) else Build(qs)
  {
    hide InsertLevel;
    if QuotesAt(table, id, market, now, side) == [] {
      assert qs + [] == qs;
    } else {
      BuildAppend(qs, QuotesAt(table, id, market, now, side)[0]);
    }
  }

  lemma NothingScanned(table: map<nat, Order>, total: nat, market: nat, now: nat, side: Side)
    ensures Build(ScanQuotes(table, total + 1, total, market, now, side)) == map[]
  {
  }

  /** The collector's scan: newest order first, skipping what does not count. */
  method CollectLevels(table: map<nat, Order>, total: nat, market: nat, now: nat)
    returns (yes: LevelMap, no: LevelMap)
    ensures fresh(yes) && fresh(no) && yes != no
    ensures yes.levels == Build(ScanQuotes(table, CollectorStart(total), total, market, now, Yes))
    ensures no.levels == Build(ScanQuotes(table, CollectorStart(total), total, market, now, No))
  {
    hide InsertLevel;
    hide Build;
    hide ScanQuotes;
    hide QuotesAt;
    var start := CollectorStart(total);
    yes := new LevelMap();
    no := new LevelMap();
    var id := total;
    NothingScanned(table, total, market, now, Yes);
    NothingScanned(table, total, market, now, No);
    while id >= start
      invariant start - 1 <= id <= total && start >= 1 && yes != no && fresh(yes) && fresh(no)
      invariant yes.levels == Build(ScanQuotes(table, id + 1, total, market, now, Yes))
      invariant no.levels == Build(ScanQuotes(table, id + 1, total, market, now, No))
    {
      ScanExtend(table, id + 1, total, market, now, Yes);
      ScanExtend(table, id + 1, total, market, now, No);
      BuildQuotesAt(ScanQuotes(table, id + 1, total, market, now, Yes), table, id, market, now, Yes);
      BuildQuotesAt(ScanQuotes(table, id + 1, total, market, now, No), table, id, market, now, No);
      if id in table {
        var o := table[id];
        if !(o.market != market || o.canceled || o.remaining == 0 || o.expiry < now
             || !(1 <= o.price < PAR_PRICE_BPS)) {
          if o.side == Yes {
            yes.Insert(o.price, o.remaining);
          } else {
            no.Insert(o.price, o.remaining);
          }
        }
      }
      id := id - 1;
    }
  }

  // ----- Views -----

  datatype BookLevel = BookLevel(price: nat, level: Level)

  /** The levels priced below `bound`, best (highest) price first. */
  function Descending(m: Levels, bound: nat): seq<BookLevel>
  {
    if bound == 0 then []
    else (if bound - 1 in m then [BookLevel(bound - 1, m[bound - 1])] else []) + Descending(m, bound - 1)
  }

  function Take<T>(xs: seq<T>, depth: nat): seq<T> { xs[..Min(depth, |xs|)] }

  function BidSide(m: Levels, depth: nat): seq<BookLevel> { Take(Descending(m, U64_MAX + 1), depth) }

  function Complement(l: BookLevel): BookLevel { l.(price := SatSub(PAR_PRICE_BPS, l.price)) }

  /** Opposing bids become asks at the complementary price, skipping those off the price grid. */
  function Complements(ls: seq<BookLevel>): seq<BookLevel>
  {
    if ls == [] then []
    else (if Quotable(Complement(ls[0]).price) then [Complement(ls[0])] else []) + Complements(ls[1..])
  }

  function AskSide(opposing: Levels, depth: nat): seq<BookLevel>
  {
    Take(Complements(Descending(opposing, U64_MAX + 1)), depth)
  }

  datatype View = View(bids: seq<BookLevel>, asks: seq<BookLevel>)

  function OutcomeView(yes: Levels, no: Levels, outcome: Side, depth: nat): View
  {
    if outcome.Yes? then View(BidSide(yes, depth), AskSide(no, depth))
    else View(BidSide(no, depth), AskSide(yes, depth))
  }

  /** Bids and asks exchanged, every price complemented to par. */
  predicate MirrorViews(a: View, b: View)
  {
    && |a.bids| == |b.asks| && |a.asks| == |b.bids|
    && (forall i :: 0 <= i < |a.bids| ==> b.asks[i] == Complement(a.bids[i]) && a.bids[i] == Complement(b.asks[i]))
    && (forall i :: 0 <= i < |a.asks| ==> b.bids[i] == Complement(a.asks[i]) && a.asks[i] == Complement(b.bids[i]))
  }

  predicate OnGrid(m: Levels) { forall p :: p in m ==> Quotable(p) }

  lemma {:induction false} DescendingOnGrid(m: Levels, bound: nat)
    requires OnGrid(m)
    ensures forall i :: 0 <= i < |Descending(m, bound)| ==> Quotable(Descending(m, bound)[i].price)
    ensures |Complements(Descending(m, bound))| == |Descending(m, bound)|
    ensures forall i :: 0 <= i < |Descending(m, bound)| ==>
      Complements(Descending(m, bound))[i] == Complement(Descending(m, bound)[i])
  {
    if bound > 0 {
      DescendingOnGrid(m, bound - 1);
      if bound - 1 in m {
        assert Descending(m, bound)[1..] == Descending(m, bound - 1);
      } else {
        assert Descending(m, bound) == Descending(m, bound - 1);
      }
    }
  }

  /** The NO view is the YES view with the sides exchanged and the prices complemented. */
  lemma ViewsMirror(yes: Levels, no: Levels, depth: nat)
    requires OnGrid(yes) && OnGrid(no)
    ensures MirrorViews(OutcomeView(yes, no, Yes, depth), OutcomeView(yes, no, No, depth))
  {
    DescendingOnGrid(yes, U64_MAX + 1);
    DescendingOnGrid(no, U64_MAX + 1);
  }

  lemma {:induction false} ComplementsOffGrid(m: Levels, bound: nat)
    ensures |Complements(Descending(m, bound))| <= |Descending(m, bound)|
    ensures |Complements(Descending(m, bound))| == |Descending(m, bound)|
      ==> forall p :: p in m && p < bound ==> Quotable(p)
  {
    if bound > 0 {
      ComplementsOffGrid(m, bound - 1);
      if bound - 1 in m {
        assert Descending(m, bound)[1..] == Descending(m, bound - 1);
      } else {
        assert Descending(m, bound) == Descending(m, bound - 1);
      }
    }
  }

  ghost predicate MirrorAtEveryDepth(yes: Levels, no: Levels)
  {
    forall depth: nat :: MirrorViews(OutcomeView(yes, no, Yes, depth), OutcomeView(yes, no, No, depth))
  }

  /** A level off the price grid is shown as a bid but never as an ask, so the grid is exactly what is needed. */
  lemma ViewsMirrorIffOnGrid(yes: Levels, no: Levels)
    requires forall p :: p in yes || p in no ==> p <= U64_MAX
    ensures MirrorAtEveryDepth(yes, no) <==> OnGrid(yes) && OnGrid(no)
  {
    if OnGrid(yes) && OnGrid(no) {
      forall depth: nat
        ensures MirrorViews(OutcomeView(yes, no, Yes, depth), OutcomeView(yes, no, No, depth))
      {
        ViewsMirror(yes, no, depth);
      }
    } else {
      var depth := Max(|Descending(yes, U64_MAX + 1)|, |Descending(no, U64_MAX + 1)|);
      ComplementsOffGrid(yes, U64_MAX + 1);
      ComplementsOffGrid(no, U64_MAX + 1);
      assert !MirrorViews(OutcomeView(yes, no, Yes, depth), OutcomeView(yes, no, No, depth));
    }
  }

  /** Merging keeps exactly the levels of both maps, so a merged map is on the grid only if both are. */
  lemma MergedOnGridIff(a: Levels, b: Levels)
    ensures OnGrid(MergeLevels(a, b)) <==> OnGrid(a) && OnGrid(b)
  {
    forall p | p in a || p in b
      ensures p in MergeLevels(a, b)
    {
    }
  }

  /**
   * The endpoint's book is the organic levels, merged with the synthetic ones and then with the mirrored quotes of
   * external venues, whose prices it does not check itself. Its two views mirror each other at every depth if and
   * only if those quotes are on the grid.
   */
  lemma EndpointViewsMirrorIff(
    organicYes: seq<Quote>, organicNo: seq<Quote>, syntheticYes: seq<Quote>, syntheticNo: seq<Quote>,
    mirrorYes: Levels, mirrorNo: Levels)
    requires forall p :: p in mirrorYes || p in mirrorNo ==> p <= U64_MAX
    ensures
      var yes := MergeLevels(MergeLevels(Build(organicYes), Build(syntheticYes)), mirrorYes);
      var no := MergeLevels(MergeLevels(Build(organicNo), Build(syntheticNo)), mirrorNo);
      MirrorAtEveryDepth(yes, no) <==> OnGrid(mirrorYes) && OnGrid(mirrorNo)
  {
    var yes0 := MergeLevels(Build(organicYes), Build(syntheticYes));
    var no0 := MergeLevels(Build(organicNo), Build(syntheticNo));
    BuiltOnGrid(organicYes, syntheticYes);
    BuiltOnGrid(organicNo, syntheticNo);
    MergedOnGridIff(yes0, mirrorYes);
    MergedOnGridIff(no0, mirrorNo);
    ViewsMirrorIffOnGrid(MergeLevels(yes0, mirrorYes), MergeLevels(no0, mirrorNo));
  }

  /** The prices the mirroring service keeps. */
  predicate Mirrorable(m: Levels) { forall p :: p in m ==> 100 <= p < 9_900 }

  /** So with the quotes that service stores, the endpoint's views always mirror each other. */
  lemma EndpointViewsMirror(
    organicYes: seq<Quote>, organicNo: seq<Quote>, syntheticYes: seq<Quote>, syntheticNo: seq<Quote>,
    mirrorYes: Levels, mirrorNo: Levels)
    requires Mirrorable(mirrorYes) && Mirrorable(mirrorNo)
    ensures MirrorAtEveryDepth(MergeLevels(MergeLevels(Build(organicYes), Build(syntheticYes)), mirrorYes),
                               MergeLevels(MergeLevels(Build(organicNo), Build(syntheticNo)), mirrorNo))
  {
    hide MirrorAtEveryDepth;
    hide MergeLevels;
    hide Build;
    EndpointViewsMirrorIff(organicYes, organicNo, syntheticYes, syntheticNo, mirrorYes, mirrorNo);
  }

  /** Insertion and merging keep every level on the grid. */
  lemma BuiltOnGrid(xs: seq<Quote>, ys: seq<Quote>)
    ensures OnGrid(Build(xs)) && OnGrid(MergeLevels(Build(xs), Build(ys)))
  {
    MergeIsConcat(xs, ys);
    forall p: nat
      ensures p in Build(xs) ==> Quotable(p)
      ensures p in Build(xs + ys) ==> Quotable(p)
    {
      BuildExact(xs, p);
      BuildExact(xs + ys, p);
    }
  }
}
