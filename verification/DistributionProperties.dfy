/** Conservation of a distribution market's ledger over whole runs, and the payout loop's water-filling. */
module DistributionProperties {
  import opened Options
  import opened Sums
  import opened Distribution
  import opened DistributionPayout
  import DistributionScheduler

  // ----- Water-filling -----

  /** What the open ones among the first `n` positions are owed before the cap. */
  function GrossUpTo(ps: seq<Position>, payoutOf: Position -> Gross, n: nat): real
    requires n <= |ps|
  {
    if n == 0 then 0.0
    else GrossUpTo(ps, payoutOf, n - 1) + if ps[n - 1].status.Open? then Sanitize(payoutOf(ps[n - 1])) else 0.0
  }

  /** At every iteration the total paid is what is owed so far, capped by the pool. */
  lemma {:induction false} WaterFilling(ps: seq<Position>, payoutOf: Position -> Gross, feeBps: int, pool: real, n: nat)
    requires n <= |ps| && pool >= 0.0
    ensures GrossUpTo(ps, payoutOf, n) >= 0.0
    ensures ResolveUpTo(ps, payoutOf, feeBps, pool, n).paid == MinReal(pool, GrossUpTo(ps, payoutOf, n))
  {
    if n > 0 {
      WaterFilling(ps, payoutOf, feeBps, pool, n - 1);
    }
  }

  /**
   * Each position is paid in full while the pool lasts: its net payout is that of the part of its claim
   * between what was owed before it and the pool.
   */
  lemma PaidInOrder(ps: seq<Position>, payoutOf: Position -> Gross, feeBps: int, pool: real, i: nat, n: nat)
    requires i < n <= |ps| && pool >= 0.0
    ensures
      var settled := ResolveUpTo(ps, payoutOf, feeBps, pool, n).positions[i];
      var share := MinReal(pool, GrossUpTo(ps, payoutOf, i + 1)) - MinReal(pool, GrossUpTo(ps, payoutOf, i));
      settled == if ps[i].status.Open? then Settle(ps[i], share, feeBps) else ps[i]
  {
    if i == n - 1 {
      WaterFilling(ps, payoutOf, feeBps, pool, n - 1);
      WaterFilling(ps, payoutOf, feeBps, pool, n);
    } else {
      PaidInOrder(ps, payoutOf, feeBps, pool, i, n - 1);
    }
  }

  function PayoutOf(): Position -> int { (p: Position) => if p.payout.Some? then p.payout.value else 0 }

  function IsPaid(): Position -> int { (p: Position) => if p.payout.Some? then 1 else 0 }

  lemma NetWithinGross(gross: real, feeBps: int)
    requires gross >= 0.0 && 0 <= feeBps <= 1_000
    ensures 0 <= NetPayout(gross, feeBps) && NetPayout(gross, feeBps) as real < gross + 1.0
  {
    assert gross * (feeBps as real) >= 0.0;
    assert gross * (feeBps as real) <= gross * 1000.0;
  }

  /** Rounding up costs less than one unit per paid position. */
  lemma {:induction false} PayoutsWithinPool(
    ps: seq<Position>, payoutOf: Position -> Gross, feeBps: int, pool: real, n: nat)
    requires n <= |ps| && pool >= 0.0 && 0 <= feeBps <= 1_000
    requires forall p :: p in ps ==> p.payout.None?
    ensures
      var r := ResolveUpTo(ps, payoutOf, feeBps, pool, n);
      var sum, count := SumBy(r.positions, PayoutOf()), SumBy(r.positions, IsPaid());
      && sum >= 0 && count >= 0
      && (if count == 0 then sum == 0 && r.paid == 0.0 else sum as real < r.paid + count as real)
  {
    if n > 0 {
      PayoutsWithinPool(ps, payoutOf, feeBps, pool, n - 1);
      WaterFilling(ps, payoutOf, feeBps, pool, n - 1);
      var before := ResolveUpTo(ps, payoutOf, feeBps, pool, n - 1);
      var r := ResolveUpTo(ps, payoutOf, feeBps, pool, n);
      SumByAppend(before.positions, r.positions[n - 1], PayoutOf());
      SumByAppend(before.positions, r.positions[n - 1], IsPaid());
      assert ps[n - 1] in ps;
      if ps[n - 1].status.Open? {
        NetWithinGross(Capped(before.paid, Sanitize(payoutOf(ps[n - 1])), pool), feeBps);
      }
    }
  }

  // ----- The ledger invariant -----

  function Collateral(): Position -> int { (p: Position) => p.collateral }

  function Retained(): Position -> int { (p: Position) => if p.status.Closed? then 0 else p.collateral }

  function Is(kind: TradeKind, id: nat): Trade -> int
  {
    (t: Trade) => if t.kind == kind && t.position == id then 1 else 0
  }

  function CountTrades(ts: seq<Trade>, kind: TradeKind, id: nat): int { SumBy(ts, Is(kind, id)) }

  /** One open per position, a close exactly when it is closed, a claim exactly when it is claimed. */
  predicate LoggedOnce(ts: seq<Trade>, p: Position)
  {
    && CountTrades(ts, OpenTrade, p.id) == 1
    && CountTrades(ts, CloseTrade, p.id) == (if p.status.Closed? then 1 else 0)
    && CountTrades(ts, ClaimTrade, p.id) == (if p.status.Claimed? then 1 else 0)
  }

  /** The totals of the market row agree with its positions. */
  predicate Balanced(l: Ledger)
  {
    && l.totalCollateral == SumBy(l.positions, Retained())
    && l.totalVolume == SumBy(l.positions, Collateral())
    && forall i :: 0 <= i < |l.positions| ==> l.positions[i].collateral >= 1
  }

  /** Positions are numbered in order, and the trade log mentions no other position. */
  predicate Numbered(l: Ledger)
  {
    && (forall i :: 0 <= i < |l.positions| ==> l.positions[i].id == i + 1)
    && (forall t :: t in l.trades ==> 1 <= t.position <= |l.positions|)
  }

  predicate Logged(l: Ledger) { forall i :: 0 <= i < |l.positions| ==> LoggedOnce(l.trades, l.positions[i]) }

  /** Before resolution positions are open or closed; after it none is open, and exactly the unclosed are paid. */
  predicate Staged(l: Ledger)
  {
    forall i :: 0 <= i < |l.positions| ==>
      var p := l.positions[i];
      && (if l.status.Resolved? then !p.status.Open? else p.status.Open? || p.status.Closed?)
      && (p.payout.Some? <==> p.status.Settled? || p.status.Claimed?)
  }

  /** What a resolved market promises: non-negative payouts of less than the pool and one unit per position. */
  predicate Solvent(l: Ledger)
  {
    var promised, paid := SumBy(l.positions, PayoutOf()), SumBy(l.positions, IsPaid());
    0 <= promised && (paid == 0 ==> promised == 0) && (paid > 0 ==> promised < l.totalCollateral + paid)
  }

  predicate Inv(l: Ledger)
  {
    Balanced(l) && Numbered(l) && Logged(l) && Staged(l) && Solvent(l) && 0 <= l.feeBps <= 1_000
  }

  lemma FreshInv(tradingEnd: Option<int>, outcomeMin: real, outcomeMax: real, feeBps: int)
    requires 0 <= feeBps <= 1_000
    ensures Inv(Fresh(tradingEnd, outcomeMin, outcomeMax, feeBps))
  {
  }

  lemma {:induction false} MaxIdOfNumbered(ps: seq<Position>)
    requires forall i :: 0 <= i < |ps| ==> ps[i].id == i + 1
    ensures MaxId(ps) == |ps|
  {
    if ps != [] {
      MaxIdOfNumbered(ps[..|ps| - 1]);
    }
  }

  lemma {:induction false} NoTrades(ts: seq<Trade>, kind: TradeKind, id: nat)
    requires forall t :: t in ts ==> t.position != id
    ensures CountTrades(ts, kind, id) == 0
  {
    if ts != [] {
      assert ts[0] in ts;
      NoTrades(ts[1..], kind, id);
    }
  }

  lemma LogAppend(ts: seq<Trade>, t: Trade, kind: TradeKind, id: nat)
    ensures CountTrades(ts + [t], kind, id)
         == CountTrades(ts, kind, id) + if t.kind == kind && t.position == id then 1 else 0
  {
    SumByAppend(ts, t, Is(kind, id));
  }

  lemma SumByUpdate<T>(xs: seq<T>, i: nat, y: T, f: T -> int)
    requires i < |xs|
    ensures SumBy(xs[i := y], f) == SumBy(xs, f) - f(xs[i]) + f(y)
  {
    SumByRemoveAt(xs, i, f);
    SumByRemoveAt(xs[i := y], i, f);
    assert RemoveAt(xs[i := y], i) == RemoveAt(xs, i);
  }

  lemma OpenKeepsInv(l: Ledger, now: int, r: Request, q: Quote)
    requires Inv(l)
    ensures Inv(OpenPosition(l, now, r, q))
  {
    hide SumBy;
    hide LoggedOnce;
    hide CountTrades;
    hide MaxId;
    hide ScaledCost;
    var l' := OpenPosition(l, now, r, q);
    if OpenCheck(l, now, r).Done? {
      MaxIdOfNumbered(l.positions);
      var p := l'.positions[|l.positions|];
      SumByAppend(l.positions, p, Retained());
      SumByAppend(l.positions, p, Collateral());
      SumByAppend(l.positions, p, PayoutOf());
      SumByAppend(l.positions, p, IsPaid());
      forall kind
        ensures CountTrades(l.trades, kind, p.id) == 0
      {
        NoTrades(l.trades, kind, p.id);
      }
      forall i | 0 <= i < |l'.positions|
        ensures LoggedOnce(l'.trades, l'.positions[i])
      {
        LogAppendAll(l, l'.trades[|l.trades|], i, p);
      }
    }
  }

  lemma LogAppendAll(l: Ledger, t: Trade, i: nat, p: Position)
    requires i <= |l.positions| && Logged(l)
    requires i < |l.positions| ==> l.positions[i].id != t.position
    requires i == |l.positions| ==>
      p.id == t.position && t.kind.OpenTrade? && p.status.Open? && forall kind :: CountTrades(l.trades, kind, p.id) == 0
    ensures LoggedOnce(l.trades + [t], if i < |l.positions| then l.positions[i] else p)
  {
    var x := if i < |l.positions| then l.positions[i] else p;
    LogAppend(l.trades, t, OpenTrade, x.id);
    LogAppend(l.trades, t, CloseTrade, x.id);
    LogAppend(l.trades, t, ClaimTrade, x.id);
  }

  /** Giving one position a new status and logging the matching trade keeps the log exact. */
  lemma LogUpdate(l: Ledger, i: nat, p: Position, t: Trade)
    requires Numbered(l) && Logged(l) && i < |l.positions| && t.position == p.id == l.positions[i].id
    requires
      || (l.positions[i].status.Open? && p.status.Closed? && t.kind.CloseTrade?)
      || (l.positions[i].status.Settled? && p.status.Claimed? && t.kind.ClaimTrade?)
    ensures Numbered(l.(positions := l.positions[i := p], trades := l.trades + [t]))
    ensures Logged(l.(positions := l.positions[i := p], trades := l.trades + [t]))
  {
    var updated := l.positions[i := p];
    forall k | 0 <= k < |updated|
      ensures LoggedOnce(l.trades + [t], updated[k])
    {
      assert LoggedOnce(l.trades, l.positions[k]);
      var id := l.positions[k].id;
      LogAppend(l.trades, t, OpenTrade, id);
      LogAppend(l.trades, t, CloseTrade, id);
      LogAppend(l.trades, t, ClaimTrade, id);
    }
  }

  lemma CloseKeepsInv(l: Ledger, now: int, user: nat, id: nat)
    requires Inv(l)
    ensures Inv(ClosePosition(l, now, user, id))
  {
    if CloseCheck(l, now, user, id).Done? {
      var i := IndexOf(l.positions, id).value;
      var p := l.positions[i].(status := Closed);
      SumByUpdate(l.positions, i, p, Retained());
      SumByUpdate(l.positions, i, p, Collateral());
      SumByUpdate(l.positions, i, p, PayoutOf());
      SumByUpdate(l.positions, i, p, IsPaid());
      NothingPaid(l.positions);
      LogUpdate(l, i, p, Trade(CloseTrade, id, user, 0.0));
    }
  }

  lemma {:induction false} NothingPaid(ps: seq<Position>)
    ensures (forall i :: 0 <= i < |ps| ==> ps[i].payout.None?) ==> SumBy(ps, IsPaid()) == 0
  {
    if ps != [] {
      NothingPaid(ps[1..]);
    }
  }

  lemma ClaimKeepsInv(l: Ledger, user: nat, id: nat)
    requires Inv(l)
    ensures Inv(ClaimPayout(l, user, id))
  {
    if ClaimCheck(l, user, id).Done? {
      var i := IndexOf(l.positions, id).value;
      var p := l.positions[i].(status := Claimed);
      SumByUpdate(l.positions, i, p, Retained());
      SumByUpdate(l.positions, i, p, Collateral());
      SumByUpdate(l.positions, i, p, PayoutOf());
      SumByUpdate(l.positions, i, p, IsPaid());
      LogUpdate(l, i, p, Trade(ClaimTrade, id, user, p.payout.value as real));
    }
  }

  /** What settling leaves of each position. */
  lemma {:induction false} ResolveShape(ps: seq<Position>, payoutOf: Position -> Gross, feeBps: int, pool: real, n: nat)
    requires n <= |ps|
    ensures
      var r := ResolveUpTo(ps, payoutOf, feeBps, pool, n).positions;
      forall i :: 0 <= i < n ==>
        && r[i].id == ps[i].id && r[i].collateral == ps[i].collateral
        && (if ps[i].status.Open? then r[i].status.Settled? && r[i].payout.Some? else r[i] == ps[i])
  {
    if n > 0 {
      ResolveShape(ps, payoutOf, feeBps, pool, n - 1);
    }
  }

  lemma {:induction false} RetainedNonNegative(ps: seq<Position>)
    requires forall i :: 0 <= i < |ps| ==> ps[i].collateral >= 1
    ensures SumBy(ps, Retained()) >= 0
  {
    if ps != [] {
      RetainedNonNegative(ps[1..]);
    }
  }

  lemma ResolveKeepsInv(l: Ledger, value: real, payoutOf: Position -> Gross)
    requires Inv(l)
    ensures Inv(ResolveMarket(l, value, payoutOf))
  {
    if ResolveCheck(l, value).Done? {
      var l' := ResolveMarket(l, value, payoutOf);
      var n := |l.positions|;
      var pool := l.totalCollateral as real;
      RetainedNonNegative(l.positions);
      ResolveShape(l.positions, payoutOf, l.feeBps, pool, n);
      SumByCongruent(l'.positions, Retained(), l.positions, Retained());
      SumByCongruent(l'.positions, Collateral(), l.positions, Collateral());
      forall i | 0 <= i < n
        ensures LoggedOnce(l'.trades, l'.positions[i])
      {
        assert LoggedOnce(l.trades, l.positions[i]);
      }
      ResolveSolvent(l, value, payoutOf);
    }
  }

  lemma ResolveSolvent(l: Ledger, value: real, payoutOf: Position -> Gross)
    requires Inv(l) && ResolveCheck(l, value).Done?
    ensures Solvent(ResolveMarket(l, value, payoutOf))
  {
    var pool := l.totalCollateral as real;
    RetainedNonNegative(l.positions);
    forall p | p in l.positions
      ensures p.payout.None?
    {
      var i :| 0 <= i < |l.positions| && l.positions[i] == p;
    }
    WaterFilling(l.positions, payoutOf, l.feeBps, pool, |l.positions|);
    PayoutsWithinPool(l.positions, payoutOf, l.feeBps, pool, |l.positions|);
  }

  /**
   * The price feed resolves an active market exactly as a person would at the clamped value. Its loop has no guard,
   * and the formula needs none.
   */
  lemma FeedResolvesAsManual(l: Ledger, price: real, exp: real -> Density)
    requires Inv(l) && l.status.Active?
    ensures
      var value := DistributionScheduler.ClampReal(price, l.outcomeMin, l.outcomeMax);
      DistributionScheduler.AutoResolve(l, price, exp) == ResolveMarket(l, value, OwedAt(l, value, exp))
  {
    DistributionScheduler.ResolvedAlike(l, price, exp);
  }

  // ----- Runs -----

  datatype Event =
    | OpenEvent(now: int, request: Request, quote: Quote)
    | CloseEvent(now: int, user: nat, id: nat)
    | ResolveEvent(value: real, exp: real -> Density)
    | FeedEvent(price: real, exp: real -> Density)
    | ClaimEvent(user: nat, id: nat)

  function Step(l: Ledger, e: Event): Ledger
  {
    match e
    case OpenEvent(now, request, quote) => OpenPosition(l, now, request, quote)
    case CloseEvent(now, user, id) => ClosePosition(l, now, user, id)
    case ResolveEvent(value, exp) => ResolveMarket(l, value, OwedAt(l, value, exp))
    case FeedEvent(price, exp) => DistributionScheduler.AutoResolve(l, price, exp)
    case ClaimEvent(user, id) => ClaimPayout(l, user, id)
  }

  function Run(l: Ledger, events: seq<Event>, n: nat): Ledger
    requires n <= |events|
  {
    if n == 0 then l else Step(Run(l, events, n - 1), events[n - 1])
  }

  /** Conservation: every state of every run from a fresh market satisfies the ledger invariant. */
  lemma {:induction false} LedgerConservation(
    tradingEnd: Option<int>, outcomeMin: real, outcomeMax: real, feeBps: int, events: seq<Event>, n: nat)
    requires 0 <= feeBps <= 1_000 && n <= |events|
    ensures Inv(Run(Fresh(tradingEnd, outcomeMin, outcomeMax, feeBps), events, n))
  {
    hide Inv;
    var start := Fresh(tradingEnd, outcomeMin, outcomeMax, feeBps);
    if n == 0 {
      FreshInv(tradingEnd, outcomeMin, outcomeMax, feeBps);
    } else {
      LedgerConservation(tradingEnd, outcomeMin, outcomeMax, feeBps, events, n - 1);
      StepKeepsInv(Run(start, events, n - 1), events[n - 1]);
    }
  }

  lemma StepKeepsInv(l: Ledger, e: Event)
    requires Inv(l)
    ensures Inv(Step(l, e))
  {
    hide Inv;
    match e
    case OpenEvent(now, request, quote) => OpenKeepsInv(l, now, request, quote);
    case CloseEvent(now, user, id) => CloseKeepsInv(l, now, user, id);
    case ResolveEvent(value, exp) => ResolveKeepsInv(l, value, OwedAt(l, value, exp));
    case FeedEvent(price, exp) =>
      if l.status.Active? {
        FeedResolvesAsManual(l, price, exp);
        var value := DistributionScheduler.ClampReal(price, l.outcomeMin, l.outcomeMax);
        ResolveKeepsInv(l, value, OwedAt(l, value, exp));
      }
    case ClaimEvent(user, id) => ClaimKeepsInv(l, user, id);
  }

  /** Once resolved a market stays resolved, and its totals and identifiers no longer change. */
  lemma ResolutionIsFinal(l: Ledger, e: Event)
    requires Inv(l) && l.status.Resolved?
    ensures
      var l' := Step(l, e);
      && l'.status.Resolved? && l'.totalCollateral == l.totalCollateral && l'.totalVolume == l.totalVolume
      && |l'.positions| == |l.positions|
      && forall i :: 0 <= i < |l.positions| ==> l'.positions[i].payout == l.positions[i].payout
  {
  }
}
