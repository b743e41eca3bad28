/**
 * A distribution market's ledger: positions are opened, closed early, resolved and claimed, each handler
 * one atomic step (app/src/api/distribution.rs). Money is real where the service uses floating point.
 */
module Distribution {
  import opened Numbers
  import opened Options
  import opened DistributionPayout

  datatype MarketStatus = Active | Paused | Ended | Resolved | Cancelled

  datatype PositionStatus = Open | Closed | Settled | Claimed

  datatype Position = Position(
    id: nat, owner: nat, mu: real, sigma: real, size: int, collateral: int, costBasis: real,
    status: PositionStatus, payout: Option<int>, pnl: Option<real>)

  datatype TradeKind = OpenTrade | CloseTrade | ClaimTrade

  datatype Trade = Trade(kind: TradeKind, position: nat, owner: nat, cost: real)

  datatype Ledger = Ledger(
    status: MarketStatus, tradingEnd: Option<int>, outcomeMin: real, outcomeMax: real, feeBps: int,
    mu: real, sigma: real, resolvedValue: Option<real>, totalCollateral: int, totalVolume: int,
    positions: seq<Position>, trades: seq<Trade>)

  datatype Error =
    | MarketNotActive | TradingEnded | InvalidMu | InvalidSigma | SigmaTooSmall | SigmaTooLarge | InvalidSize
    | SizeTooLarge | NotFound | Forbidden | PositionNotActive | AlreadyResolved | MarketCancelled | ValueOutOfRange
    | NotResolved | PayoutMissing

  datatype Outcome = Done | Failed(error: Error)

  function Ceil(r: real): int { -((-r).Floor) }

  function MaxReal(a: real, b: real): real { if a >= b then a else b }

  function AbsReal(a: real): real { if a >= 0.0 then a else -a }

  /** The pricing service's answer for one unit of the requested position. */
  datatype Quote = Quote(cost: real, newMu: real, newSigma: real)

  datatype Request = Request(owner: nat, mu: real, sigma: real, size: int)

  function OpenCheck(l: Ledger, now: int, r: Request): Outcome
  {
    var range := l.outcomeMax - l.outcomeMin;
    if !l.status.Active? then Failed(MarketNotActive)
    else if l.tradingEnd.Some? && now >= l.tradingEnd.value then Failed(TradingEnded)
    else if r.mu < l.outcomeMin || r.mu > l.outcomeMax then Failed(InvalidMu)
    else if r.sigma <= 0.0 then Failed(InvalidSigma)
    else if r.sigma < range * 0.001 then Failed(SigmaTooSmall)
    else if r.sigma > range / 2.0 then Failed(SigmaTooLarge)
    else if r.size <= 0 then Failed(InvalidSize)
    else if r.size > 1_000_000_000 then Failed(SizeTooLarge)
    else Done
  }

  function ScaledCost(r: Request, q: Quote): real { q.cost * r.size as real }

  function CollateralFor(l: Ledger, r: Request, q: Quote): int
  {
    var cost := ScaledCost(r, q);
    Max(Ceil(cost + AbsReal(cost) * (l.feeBps as real / 10_000.0)), 1)
  }

  function MaxId(ps: seq<Position>): nat
  {
    if ps == [] then 0 else Max(MaxId(ps[..|ps| - 1]), ps[|ps| - 1].id)
  }

  function OpenPosition(l: Ledger, now: int, r: Request, q: Quote): Ledger
  {
    if OpenCheck(l, now, r).Failed? then l
    else
      var id := MaxId(l.positions) + 1;
      var collateral := CollateralFor(l, r, q);
      l.(positions := l.positions
           + [Position(id, r.owner, r.mu, r.sigma, r.size, collateral, ScaledCost(r, q), Open, None, None)],
         trades := l.trades + [Trade(OpenTrade, id, r.owner, ScaledCost(r, q))],
         mu := q.newMu, sigma := q.newSigma,
         totalCollateral := l.totalCollateral + collateral, totalVolume := l.totalVolume + collateral)
  }

  /** The place of the position with this identifier. */
  function IndexOf(ps: seq<Position>, id: nat): (r: Option<nat>)
    ensures r.Some? ==> r.value < |ps| && ps[r.value].id == id
  {
    if ps == [] then None
    else if ps[|ps| - 1].id == id then Some(|ps| - 1)
    else IndexOf(ps[..|ps| - 1], id)
  }

  function CloseCheck(l: Ledger, now: int, user: nat, id: nat): Outcome
  {
    var i := IndexOf(l.positions, id);
    if i.None? then Failed(NotFound)
    else if l.positions[i.value].owner != user then Failed(Forbidden)
    else if !l.positions[i.value].status.Open? then Failed(PositionNotActive)
    else if !l.status.Active? then Failed(MarketNotActive)
    else if l.tradingEnd.Some? && now >= l.tradingEnd.value then Failed(TradingEnded)
    else Done
  }

  function ClosePosition(l: Ledger, now: int, user: nat, id: nat): Ledger
  {
    if CloseCheck(l, now, user, id).Failed? then l
    else
      var i := IndexOf(l.positions, id).value;
      var p := l.positions[i];
      l.(positions := l.positions[i := p.(status := Closed)],
         trades := l.trades + [Trade(CloseTrade, id, user, 0.0)],
         totalCollateral := l.totalCollateral - p.collateral)
  }

  // ----- Resolution -----

  /** What the formula owes each position when the market is resolved at this value: its collateral is the size. */
  function OwedAt(l: Ledger, value: real, exp: real -> Density): Position -> Gross
  {
    (p: Position) =>
      GrossPayout(p.collateral as real, Curve(p.mu, p.sigma), Curve(l.mu, l.sigma), value, exp)
  }

  function Sanitize(g: Gross): real { if g.Finite? && g.amount >= 0.0 then g.amount else 0.0 }

  /** What is left of the pool for a payout of `gross` after `paid`. */
  function Capped(paid: real, gross: real, pool: real): real
  {
    if paid + gross > pool then MaxReal(pool - paid, 0.0) else gross
  }

  function NetPayout(gross: real, feeBps: int): int
  {
    Ceil(MaxReal(gross - gross * (feeBps as real) / 10_000.0, 0.0))
  }

  function Settle(p: Position, gross: real, feeBps: int): Position
  {
    var payout := NetPayout(gross, feeBps);
    p.(status := Settled, payout := Some(payout), pnl := Some(payout as real - p.collateral as real))
  }

  datatype Progress = Progress(positions: seq<Position>, paid: real)

  /** The payout loop over the first `n` positions. */
  function ResolveUpTo(ps: seq<Position>, payoutOf: Position -> Gross, feeBps: int, pool: real, n: nat): (r: Progress)
    requires n <= |ps|
    ensures |r.positions| == n
  {
    if n == 0 then Progress([], 0.0)
    else
      var before := ResolveUpTo(ps, payoutOf, feeBps, pool, n - 1);
      var p := ps[n - 1];
      if !p.status.Open? then Progress(before.positions + [p], before.paid)
      else
        var gross := Capped(before.paid, Sanitize(payoutOf(p)), pool);
        Progress(before.positions + [Settle(p, gross, feeBps)], before.paid + gross)
  }

  function ResolveCheck(l: Ledger, value: real): Outcome
  {
    if l.status.Resolved? then Failed(AlreadyResolved)
    else if l.status.Cancelled? then Failed(MarketCancelled)
    else if value < l.outcomeMin || value > l.outcomeMax then Failed(ValueOutOfRange)
    else Done
  }

  function ResolveMarket(l: Ledger, value: real, payoutOf: Position -> Gross): Ledger
  {
    if ResolveCheck(l, value).Failed? then l
    else
      l.(status := Resolved, resolvedValue := Some(value),
         positions := ResolveUpTo(l.positions, payoutOf, l.feeBps, l.totalCollateral as real, |l.positions|).positions)
  }

  // ----- Claims -----

  function ClaimCheck(l: Ledger, user: nat, id: nat): Outcome
  {
    var i := IndexOf(l.positions, id);
    if i.None? then Failed(NotFound)
    else if l.positions[i.value].owner != user then Failed(Forbidden)
    else if !l.positions[i.value].status.Settled? then Failed(NotResolved)
    else if l.positions[i.value].payout.None? then Failed(PayoutMissing)
    else Done
  }

  function ClaimPayout(l: Ledger, user: nat, id: nat): Ledger
  {
    if ClaimCheck(l, user, id).Failed? then l
    else
      var i := IndexOf(l.positions, id).value;
      var p := l.positions[i];
      l.(positions := l.positions[i := p.(status := Claimed)],
         trades := l.trades + [Trade(ClaimTrade, id, user, p.payout.value as real)])
  }

  // ----- The market row and its position and trade tables, updated in place -----

  class DistributionMarket {
    var status: MarketStatus
    const tradingEnd: Option<int>
    const outcomeMin: real
    const outcomeMax: real
    const feeBps: int
    var mu: real
    var sigma: real
    var resolvedValue: Option<real>
    var totalCollateral: int
    var totalVolume: int
    var positions: seq<Position>
    var trades: seq<Trade>

    function State(): Ledger
      reads this
    {
      Ledger(status, tradingEnd, outcomeMin, outcomeMax, feeBps, mu, sigma, resolvedValue,
             totalCollateral, totalVolume, positions, trades)
    }

    constructor (tradingEnd: Option<int>, outcomeMin: real, outcomeMax: real, feeBps: int)
      ensures State() == Fresh(tradingEnd, outcomeMin, outcomeMax, feeBps)
    {
      status, resolvedValue := Active, None;
      this.tradingEnd, this.outcomeMin, this.outcomeMax, this.feeBps := tradingEnd, outcomeMin, outcomeMax, feeBps;
      mu, sigma := (outcomeMin + outcomeMax) / 2.0, (outcomeMax - outcomeMin) / 6.0;
      totalCollateral, totalVolume, positions, trades := 0, 0, [], [];
    }

    method Open(now: int, r: Request, q: Quote) returns (outcome: Outcome)
      modifies this
      ensures outcome == OpenCheck(old(State()), now, r) && State() == OpenPosition(old(State()), now, r, q)
    {
      outcome := OpenCheck(State(), now, r);
      if outcome.Failed? {
        return;
      }
      var cost := ScaledCost(r, q);
      var collateral := CollateralFor(State(), r, q);
      var id := MaxId(positions) + 1;
      positions := positions
        + [Position(id, r.owner, r.mu, r.sigma, r.size, collateral, cost, PositionStatus.Open, None, None)];
      trades := trades + [Trade(OpenTrade, id, r.owner, cost)];
      mu, sigma := q.newMu, q.newSigma;
      totalCollateral := totalCollateral + collateral;
      totalVolume := totalVolume + collateral;
    }

    method Close(now: int, user: nat, id: nat) returns (outcome: Outcome)
      modifies this
      ensures outcome == CloseCheck(old(State()), now, user, id)
      ensures State() == ClosePosition(old(State()), now, user, id)
    {
      outcome := CloseCheck(State(), now, user, id);
      if outcome.Failed? {
        return;
      }
      var i := IndexOf(positions, id).value;
      var p := positions[i];
      positions := positions[i := p.(status := Closed)];
      totalCollateral := totalCollateral - p.collateral;
      trades := trades + [Trade(CloseTrade, id, user, 0.0)];
    }

    /** One turn of the payout loop: the gross payout that still fits the pool, and the settled row. */
    method PayRow(p: Position, owed: real, paid: real, pool: real) returns (gross: real, row: Position)
      ensures gross == Capped(paid, owed, pool) && row == Settle(p, gross, feeBps)
      ensures 0.0 <= owed && paid <= pool ==> 0.0 <= gross <= owed && paid + gross == MinReal(pool, paid + owed)
    {
      gross := owed;
      if paid + gross > pool {
        gross := MaxReal(pool - paid, 0.0);
      }
      var fee := gross * (feeBps as real) / 10_000.0;
      var net := MaxReal(gross - fee, 0.0);
      assert net == MaxReal(gross - gross * (feeBps as real) / 10_000.0, 0.0);
      var payout := Ceil(net);
      assert payout == NetPayout(gross, feeBps);
      row := p.(status := Settled, payout := Some(payout), pnl := Some(payout as real - p.collateral as real));
    }

    method Resolve(value: real, exp: real -> Density) returns (outcome: Outcome)
      modifies this
      ensures outcome == ResolveCheck(old(State()), value)
      ensures State() == ResolveMarket(old(State()), value, OwedAt(old(State()), value, exp))
    {
      hide OwedAt;
      hide Settle;
      hide Capped;
      hide Sanitize;
      hide ResolveUpTo;
      outcome := ResolveCheck(State(), value);
      if outcome.Failed? {
        return;
      }
      var payoutOf := OwedAt(State(), value, exp);
      status, resolvedValue := Resolved, Some(value);
      var pool := totalCollateral as real;
      var paid := 0.0;
      ghost var before := positions;
      NothingResolved(before, payoutOf, feeBps, pool);
      for i := 0 to |positions|
        invariant |positions| == |before|
        invariant positions == ResolveUpTo(before, payoutOf, feeBps, pool, i).positions + before[i..]
        invariant paid == ResolveUpTo(before, payoutOf, feeBps, pool, i).paid
        invariant State() == old(State()).(status := Resolved, resolvedValue := Some(value), positions := positions)
      {
        var p := positions[i];
        ResolveStep(before, payoutOf, feeBps, pool, i);
        ReplaceHead(ResolveUpTo(before, payoutOf, feeBps, pool, i).positions, before, i, p);
        if p.status.Open? {
          var gross, row := PayRow(p, Sanitize(payoutOf(p)), paid, pool);
          ReplaceHead(ResolveUpTo(before, payoutOf, feeBps, pool, i).positions, before, i, row);
          paid := paid + gross;
          positions := positions[i := row];
        }
      }
    }

    method Claim(user: nat, id: nat) returns (outcome: Outcome)
      modifies this
      ensures outcome == ClaimCheck(old(State()), user, id) && State() == ClaimPayout(old(State()), user, id)
    {
      outcome := ClaimCheck(State(), user, id);
      if outcome.Failed? {
        return;
      }
      var i := IndexOf(positions, id).value;
      var p := positions[i];
      positions := positions[i := p.(status := Claimed)];
      trades := trades + [Trade(ClaimTrade, id, user, p.payout.value as real)];
    }
  }

  lemma NothingResolved(ps: seq<Position>, payoutOf: Position -> Gross, feeBps: int, pool: real)
    ensures ResolveUpTo(ps, payoutOf, feeBps, pool, 0) == Progress([], 0.0)
  {
  }

  lemma ResolveStep(ps: seq<Position>, payoutOf: Position -> Gross, feeBps: int, pool: real, i: nat)
    requires i < |ps|
    ensures
      var before, after := ResolveUpTo(ps, payoutOf, feeBps, pool, i), ResolveUpTo(ps, payoutOf, feeBps, pool, i + 1);
      var gross := Capped(before.paid, Sanitize(payoutOf(ps[i])), pool);
      after == if ps[i].status.Open?
               then Progress(before.positions + [Settle(ps[i], gross, feeBps)], before.paid + gross)
               else Progress(before.positions + [ps[i]], before.paid)
  {
    hide Settle;
    hide Capped;
    hide Sanitize;
  }

  lemma ReplaceHead<T>(done: seq<T>, all: seq<T>, i: nat, y: T)
    requires |done| == i < |all|
    ensures (done + all[i..])[i := y] == (done + [y]) + all[i + 1..]
    ensures (done + all[i..])[i] == all[i]
  {
  }

  function Fresh(tradingEnd: Option<int>, outcomeMin: real, outcomeMax: real, feeBps: int): Ledger
  {
    Ledger(Active, tradingEnd, outcomeMin, outcomeMax, feeBps, (outcomeMin + outcomeMax) / 2.0,
           (outcomeMax - outcomeMin) / 6.0, None, 0, 0, [], [])
  }
}
