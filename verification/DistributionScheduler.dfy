/**
 * The automatic resolution of a distribution market from its price feed. Its payout loop lacks the guard of the
 * manual one against unusable gross payouts, which the payout formula never yields
 * (app/src/services/distribution_scheduler.rs).
 */
module DistributionScheduler {
  import opened Options
  import opened Distribution
  import opened DistributionPayout

  // ----- The running total in floating point -----

  function Add(a: Gross, b: Gross): Gross
  {
    if a.NotANumber? || b.NotANumber? then NotANumber
    else if a.Finite? && b.Finite? then Finite(a.amount + b.amount)
    else if a.Finite? then b
    else if b.Finite? || a == b then a
    else NotANumber
  }

  predicate Exceeds(a: Gross, pool: real) { a.Infinity? || (a.Finite? && a.amount > pool) }

  /** What is left of the pool, and nothing once the total is infinite or no number. */
  function Remaining(paid: Gross, pool: real): real { if paid.Finite? then MaxReal(pool - paid.amount, 0.0) else 0.0 }

  function Fitted(paid: Gross, gross: Gross, pool: real): Gross
  {
    if Exceeds(Add(paid, gross), pool) then Finite(Remaining(paid, pool)) else gross
  }

  /** The total the loop keeps after these gross payouts. */
  function Total(gs: seq<Gross>, pool: real): Gross
  {
    if gs == [] then Finite(0.0)
    else
      var front, last := gs[..|gs| - 1], gs[|gs| - 1];
      Add(Total(front, pool), Fitted(Total(front, pool), last, pool))
  }

  function Positive(g: Gross): real { if g.Finite? then MaxReal(g.amount, 0.0) else 0.0 }

  /** What the positions receive together; a payout that is negative, infinite or no number comes to nothing. */
  function Received(gs: seq<Gross>, pool: real): real
  {
    if gs == [] then 0.0
    else
      var front, last := gs[..|gs| - 1], gs[|gs| - 1];
      Received(front, pool) + Positive(Fitted(Total(front, pool), last, pool))
  }

  lemma TotalAppend(gs: seq<Gross>, g: Gross, pool: real)
    ensures Total(gs + [g], pool) == Add(Total(gs, pool), Fitted(Total(gs, pool), g, pool))
    ensures Received(gs + [g], pool) == Received(gs, pool) + Positive(Fitted(Total(gs, pool), g, pool))
  {
    hide Add;
    hide Fitted;
    assert (gs + [g])[..|gs|] == gs;
  }

  // ----- The pool cap -----

  /** A gross payout the manual loop pays as it stands. */
  predicate Usable(g: Gross) { g.Finite? && g.amount >= 0.0 }

  predicate AllUsable(gs: seq<Gross>) { forall g :: g in gs ==> Usable(g) }

  predicate Payable(g: Gross) { Usable(g) || g.Infinity? }

  predicate AllPayable(gs: seq<Gross>) { forall g :: g in gs ==> Payable(g) }

  /** The total never passes the pool nor what was received, and lags behind the latter after an unpayable payout. */
  lemma {:induction false} TotalLags(gs: seq<Gross>, pool: real)
    requires pool >= 0.0
    ensures
      var total, received := Total(gs, pool), Received(gs, pool);
      && !total.Infinity? && 0.0 <= received
      && (total.Finite? ==> total.amount <= pool && total.amount <= received)
      && (AllPayable(gs) ==> total == Finite(received))
      && (total.Finite? && !AllPayable(gs) ==> total.amount < received)
  {
    if gs != [] {
      var front, last := gs[..|gs| - 1], gs[|gs| - 1];
      TotalLags(front, pool);
      assert gs == front + [last];
      assert AllPayable(gs) <==> AllPayable(front) && Payable(last);
    }
  }

  /** After an unpayable payout one further payout takes what was received above the pool. */
  lemma UnpayableBreaksCap(gs: seq<Gross>, pool: real) returns (g: Gross)
    requires pool >= 0.0 && !AllPayable(gs)
    ensures Usable(g) && Received(gs + [g], pool) > pool
  {
    TotalLags(gs, pool);
    var total := Total(gs, pool);
    g := Finite(if total.Finite? then pool - total.amount else pool + 1.0);
    TotalAppend(gs, g, pool);
  }

  /**
   * For any formula, what was received stays within the pool, whatever usable payouts follow, if and only if every
   * payout so far is non-negative or infinite. One that is negative or no number would let later ones pass the pool.
   */
  lemma CapKeptIff(gs: seq<Gross>, pool: real)
    requires pool >= 0.0
    ensures (forall rest :: AllUsable(rest) ==> Received(gs + rest, pool) <= pool) <==> AllPayable(gs)
  {
    hide Received;
    hide Total;
    if AllPayable(gs) {
      forall rest | AllUsable(rest)
        ensures Received(gs + rest, pool) <= pool
      {
        assert AllPayable(gs + rest);
        TotalLags(gs + rest, pool);
      }
    } else {
      var g := UnpayableBreaksCap(gs, pool);
      assert AllUsable([g]);
    }
  }

  // ----- The resolution -----

  /** What the open ones among the first `n` positions are owed. */
  function OpenGross(ps: seq<Position>, payoutOf: Position -> Gross, n: nat): seq<Gross>
    requires n <= |ps|
  {
    if n == 0 then []
    else OpenGross(ps, payoutOf, n - 1) + if ps[n - 1].status.Open? then [payoutOf(ps[n - 1])] else []
  }

  function PayoutFor(gross: Gross, feeBps: int): int { if gross.Finite? then NetPayout(gross.amount, feeBps) else 0 }

  function SettleFor(p: Position, gross: Gross, feeBps: int): Position
  {
    var payout := PayoutFor(gross, feeBps);
    p.(status := Settled, payout := Some(payout), pnl := Some(payout as real - p.collateral as real))
  }

  /** The payout loop over the first `n` positions. */
  function PaidUpTo(
    ps: seq<Position>, payoutOf: Position -> Gross, feeBps: int, pool: real, n: nat): (r: seq<Position>)
    requires n <= |ps|
    ensures |r| == n
  {
    if n == 0 then []
    else
      var p := ps[n - 1];
      var gross := Fitted(Total(OpenGross(ps, payoutOf, n - 1), pool), payoutOf(p), pool);
      PaidUpTo(ps, payoutOf, feeBps, pool, n - 1) + [if p.status.Open? then SettleFor(p, gross, feeBps) else p]
  }

  function ClampReal(x: real, low: real, high: real): real { if x < low then low else if x > high then high else x }

  /** The price feed's value resolves an active market; clamping it to an empty range stops the scheduler's turn. */
  function AutoResolve(l: Ledger, price: real, exp: real -> Density): Ledger
  {
    if !l.status.Active? || l.outcomeMin > l.outcomeMax then l
    else
      var value := ClampReal(price, l.outcomeMin, l.outcomeMax);
      var payoutOf := OwedAt(l, value, exp);
      l.(status := Resolved, resolvedValue := Some(value),
         positions := PaidUpTo(l.positions, payoutOf, l.feeBps, l.totalCollateral as real, |l.positions|))
  }

  method ResolveFromFeed(market: DistributionMarket, price: real, exp: real -> Density) returns (resolved: bool)
    modifies market
    ensures resolved <==> old(market.status).Active? && market.outcomeMin <= market.outcomeMax
    ensures market.State() == AutoResolve(old(market.State()), price, exp)
  {
    hide OwedAt;
    hide Total;
    hide SettleFor;
    hide Fitted;
    hide Add;
    hide ClampReal;
    hide PaidUpTo;
    hide OpenGross;
    if !market.status.Active? || market.outcomeMin > market.outcomeMax {
      return false;
    }
    var value := ClampReal(price, market.outcomeMin, market.outcomeMax);
    var payoutOf := OwedAt(market.State(), value, exp);
    market.status := Resolved;
    market.resolvedValue := Some(value);
    var pool := market.totalCollateral as real;
    var paid := Finite(0.0);
    ghost var before := market.positions;
    NothingPaid(before, payoutOf, market.feeBps, pool);
    for i := 0 to |market.positions|
      modifies market`positions
      invariant |market.positions| == |before|
      invariant market.positions == PaidUpTo(before, payoutOf, market.feeBps, pool, i) + before[i..]
      invariant paid == Total(OpenGross(before, payoutOf, i), pool)
    {
      var p := market.positions[i];
      PaidRow(before, payoutOf, market.feeBps, pool, i, market.positions, paid);
      if p.status.Open? {
        var gross := Fitted(paid, payoutOf(p), pool);
        paid := Add(paid, gross);
        market.positions := market.positions[i := SettleFor(p, gross, market.feeBps)];
      }
    }
    resolved := true;
  }

  lemma NothingPaid(ps: seq<Position>, payoutOf: Position -> Gross, feeBps: int, pool: real)
    ensures PaidUpTo(ps, payoutOf, feeBps, pool, 0) == [] && Total(OpenGross(ps, payoutOf, 0), pool) == Finite(0.0)
  {
  }

  lemma PaidStep(ps: seq<Position>, payoutOf: Position -> Gross, feeBps: int, pool: real, i: nat)
    requires i < |ps|
    ensures
      var p, paid := ps[i], Total(OpenGross(ps, payoutOf, i), pool);
      var gross := Fitted(paid, payoutOf(p), pool);
      && PaidUpTo(ps, payoutOf, feeBps, pool, i + 1)
         == PaidUpTo(ps, payoutOf, feeBps, pool, i) + [if p.status.Open? then SettleFor(p, gross, feeBps) else p]
      && Total(OpenGross(ps, payoutOf, i + 1), pool) == if p.status.Open? then Add(paid, gross) else paid
  {
    hide SettleFor;
    hide Add;
    hide Fitted;
    hide Total;
    var gs := OpenGross(ps, payoutOf, i);
    assert OpenGross(ps, payoutOf, i + 1) == if ps[i].status.Open? then gs + [payoutOf(ps[i])] else gs;
    TotalAppend(gs, payoutOf(ps[i]), pool);
  }

  /** One turn of the loop on the table whose first `i` rows are done. */
  lemma PaidRow(
    ps: seq<Position>, payoutOf: Position -> Gross, feeBps: int, pool: real, i: nat, rows: seq<Position>, paid: Gross)
    requires i < |ps| && rows == PaidUpTo(ps, payoutOf, feeBps, pool, i) + ps[i..]
    requires paid == Total(OpenGross(ps, payoutOf, i), pool)
    ensures |rows| == |ps| && rows[i] == ps[i]
    ensures
      var gross := Fitted(paid, payoutOf(ps[i]), pool);
      var next := PaidUpTo(ps, payoutOf, feeBps, pool, i + 1) + ps[i + 1..];
      && next == (if ps[i].status.Open? then rows[i := SettleFor(ps[i], gross, feeBps)] else rows)
      && Total(OpenGross(ps, payoutOf, i + 1), pool) == if ps[i].status.Open? then Add(paid, gross) else paid
  {
    hide SettleFor;
    hide Fitted;
    hide Add;
    hide Total;
    hide OpenGross;
    hide PaidUpTo;
    PaidStep(ps, payoutOf, feeBps, pool, i);
    var row := if ps[i].status.Open? then SettleFor(ps[i], Fitted(paid, payoutOf(ps[i]), pool), feeBps) else ps[i];
    ReplaceHead(PaidUpTo(ps, payoutOf, feeBps, pool, i), ps, i, row);
    assert !ps[i].status.Open? ==> rows[i := row] == rows;
  }

  lemma FittedUsable(p: Position, paid: real, gross: Gross, pool: real, feeBps: int)
    requires Usable(gross)
    ensures
      var fitted := Capped(paid, Sanitize(gross), pool);
      && Fitted(Finite(paid), gross, pool) == Finite(fitted)
      && SettleFor(p, Finite(fitted), feeBps) == Settle(p, fitted, feeBps)
  {
  }

  /** On usable payouts the loop is the guarded one. */
  lemma {:induction false} LoopsAgree(
    ps: seq<Position>, payoutOf: Position -> Gross, feeBps: int, pool: real, n: nat)
    requires n <= |ps|
    requires forall i :: 0 <= i < n && ps[i].status.Open? ==> Usable(payoutOf(ps[i]))
    ensures
      var guarded := ResolveUpTo(ps, payoutOf, feeBps, pool, n);
      && PaidUpTo(ps, payoutOf, feeBps, pool, n) == guarded.positions
      && Total(OpenGross(ps, payoutOf, n), pool) == Finite(guarded.paid)
  {
    hide PaidUpTo;
    hide ResolveUpTo;
    hide OpenGross;
    hide Total;
    hide SettleFor;
    hide Settle;
    hide Fitted;
    hide Capped;
    if n == 0 {
      NothingPaid(ps, payoutOf, feeBps, pool);
      NothingResolved(ps, payoutOf, feeBps, pool);
    } else {
      LoopsAgree(ps, payoutOf, feeBps, pool, n - 1);
      PaidStep(ps, payoutOf, feeBps, pool, n - 1);
      ResolveStep(ps, payoutOf, feeBps, pool, n - 1);
      if ps[n - 1].status.Open? {
        FittedUsable(ps[n - 1], ResolveUpTo(ps, payoutOf, feeBps, pool, n - 1).paid, payoutOf(ps[n - 1]), pool, feeBps);
      }
    }
  }

  /** The formula's payouts are usable, so an active market is resolved as by a person at the clamped value. */
  lemma ResolvedAlike(l: Ledger, price: real, exp: real -> Density)
    requires l.status.Active? && forall i :: 0 <= i < |l.positions| ==> l.positions[i].collateral >= 0
    ensures
      var value := ClampReal(price, l.outcomeMin, l.outcomeMax);
      AutoResolve(l, price, exp) == ResolveMarket(l, value, OwedAt(l, value, exp))
  {
    hide PaidUpTo;
    hide ResolveUpTo;
    hide GrossPayout;
    var value := ClampReal(price, l.outcomeMin, l.outcomeMax);
    var payoutOf := OwedAt(l, value, exp);
    forall i | 0 <= i < |l.positions|
      ensures Usable(payoutOf(l.positions[i]))
    {
      var p := l.positions[i];
      PayoutBounds(p.collateral as real, Curve(p.mu, p.sigma), Curve(l.mu, l.sigma), value, exp);
    }
    LoopsAgree(l.positions, payoutOf, l.feeBps, l.totalCollateral as real, |l.positions|);
  }
}
