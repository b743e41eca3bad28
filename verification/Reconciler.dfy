/**
 * The bootstrap reconciler: a tick assesses a market, compares its desired ladder with the recorded
 * slots and prepares writes; a report folds the outcome of a write back into the records
 * (app/src/api/evm.rs). The two tables are the market row and its slot records.
 */
module Reconciler {
  import opened Numbers
  import opened Options
  import opened Planner
  import opened Lifecycle
  import Graduation
  import OrderBook
  import SyntheticBook

  // ----- State -----

  datatype PauseReason =
    ApprovalMissing | InsufficientFunds | InventoryCap | OperatorError | GraduationPending | AdminPaused

  /** The market row; `since` and `graduation` are the refresh's. */
  datatype Market = Market(
    creator: nat, config: Config, hybrid: bool, status: Status, pauseReason: Option<PauseReason>, failures: nat,
    since: Option<int>, graduation: Option<Reason>)

  datatype Record = Record(
    side: Side, level: nat, agentId: Option<nat>, desiredPrice: nat, desiredSize: nat,
    currentPrice: Option<nat>, currentSize: Option<nat>, active: bool)
  {
    predicate Live() { active && agentId.Some? }

    function Id(): nat
      requires Live()
    {
      agentId.value
    }

    function Price(): nat { currentPrice.GetOr(desiredPrice) }

    function Size(): nat { currentSize.GetOr(desiredSize) }
  }

  datatype State = State(market: Market, records: seq<Record>)

  /** What the refresh reads besides the books: the clock, the market, and terms that registration fixes. */
  datatype Clock = Clock(
    now: int, resolved: bool, closeTime: nat, volume: Option<real>, activatedAt: int, maxAge: nat,
    volumeMultiplier: real, depthMultiplier: real)

  /**
   * What a tick reads: the organic book, with the window its depth is measured in, and the chain. `executable` are
   * the agents out of cooldown.
   */
  datatype Observation = Observation(
    approved: bool, available: nat, position: Position, organicYes: OrderBook.Levels, organicNo: OrderBook.Levels,
    window: nat, flow: Flow, executable: set<nat>, clock: Clock)
  {
    /** Organic depth against the plain ladder's, both near the reference price of the stored configuration. */
    function OrganicRatio(c: Config): real
    {
      SyntheticBook.DepthRatio(SyntheticBook.DepthSnapshot(c, window, organicYes, organicNo))
    }
  }

  datatype Slot = Slot(side: Side, level: nat, agentId: Option<nat>, price: nat, size: nat, cadence: nat, expiry: nat)

  datatype LaunchInput = LaunchInput(side: Side, price: nat, size: nat, cadence: nat, expiry: nat)

  datatype UpdateInput = UpdateInput(agentId: nat, side: Side, price: nat, size: nat, cadence: nat, expiry: nat)

  datatype Action =
    | Launch(inputs: seq<LaunchInput>, slots: seq<Slot>)
    | Update(updates: seq<UpdateInput>, slots: seq<Slot>)
    | Deactivate(ids: seq<nat>, slots: seq<Slot>)
    | Execute(id: nat, slots: seq<Slot>)

  /** The table's unique key: one record per side and level. */
  predicate UniqueSlots(records: seq<Record>)
  {
    forall i, j :: 0 <= i < j < |records| ==> (records[i].side, records[i].level) != (records[j].side, records[j].level)
  }

  /** The record of a slot, as the key-indexed map of the records finds it. */
  function Find(records: seq<Record>, side: Side, level: nat): Option<Record>
  {
    if records == [] then None
    else
      var r := records[|records| - 1];
      if r.side == side && r.level == level then Some(r) else Find(records[..|records| - 1], side, level)
  }

  // ----- Tick -----

  function SignalsOf(c: Config, o: Observation): Signals
  {
    PlannerSignals(c, o.position, o.OrganicRatio(c), o.flow)
  }

  function Desired(c: Config, o: Observation): seq<Agent> { DesiredAgents(c, SignalsOf(c, o)) }

  /** What the tick works out from the observation and the stored configuration before it compares records. */
  datatype Inputs = Inputs(
    desired: seq<Agent>, skew: int, capHit: bool, approved: bool, available: nat, executable: set<nat>)

  function InputsOf(c: Config, o: Observation): Inputs
  {
    Inputs(Desired(c, o), InventorySkew(c, o.position), SignalsOf(c, o).capHit, o.approved, o.available, o.executable)
  }

  function ReadingOf(c: Config, o: Observation): Graduation.Reading
  {
    Graduation.Reading(
      o.clock.now, o.clock.resolved, o.clock.closeTime, o.clock.activatedAt, o.clock.maxAge, o.clock.volume,
      c.seed as real / 1_000_000.0, o.clock.volumeMultiplier, o.clock.depthMultiplier,
      c, o.window, o.organicYes, o.organicNo)
  }

  function RowOf(m: Market): Graduation.Row { Graduation.Row(m.hybrid, m.status, m.since, m.graduation) }

  /** The state after the refresh that opens a market's turn. */
  function Refreshed(s: State, o: Observation): State
  {
    var m, row := s.market, Graduation.Refresh(RowOf(s.market), ReadingOf(s.market.config, o));
    s.(market := m.(status := row.status, since := row.since, graduation := row.reason,
                    pauseReason := if row.status.Graduated? && !m.status.Graduated? then Some(GraduationPending)
                                   else m.pauseReason))
  }

  /** A refresh changes nothing else than these fields, and the status only to graduate an active market. */
  lemma {:induction false} RefreshedKeeps(s: State, o: Observation)
    ensures
      var r := Refreshed(s, o);
      && r.records == s.records
      && r.market == s.market.(status := r.market.status, since := r.market.since, graduation := r.market.graduation,
                               pauseReason := r.market.pauseReason)
      && (r.market.status == s.market.status || (s.market.status.Active? && r.market.status.Graduated?))
      && (!s.market.status.Active? ==> r == s)
      && (!r.market.status.Graduated? ==> r == s.(market := s.market.(since := r.market.since)))
  {
    hide SyntheticBook.DepthSnapshot;
    hide Graduation.Closed;
    hide Graduation.Aged;
    hide Graduation.Traded;
    hide Graduation.Qualifies;
    hide ReadingOf;
  }

  function Reserved(desired: seq<Agent>): nat
  {
    if desired == [] then 0 else SatAdd(Reserved(desired[..|desired| - 1]), desired[|desired| - 1].size)
  }

  predicate HasLive(records: seq<Record>) { exists i :: 0 <= i < |records| && records[i].Live() }

  function LiveRecords(records: seq<Record>): seq<Record>
  {
    if records == [] then []
    else LiveRecords(records[..|records| - 1])
         + if records[|records| - 1].Live() then [records[|records| - 1]] else []
  }

  datatype Assessment = Assessment(status: Status, reason: Option<PauseReason>)

  function Assess(m: Market, inputs: Inputs, live: bool): Assessment
  {
    if m.status.Disabled? then Assessment(Disabled, None)
    else if m.status.Graduated? then Assessment(Graduated, if live then Some(GraduationPending) else None)
    else if m.status.Paused? && m.pauseReason == Some(AdminPaused) then Assessment(Paused, Some(AdminPaused))
    else if inputs.capHit then Assessment(Paused, Some(InventoryCap))
    else if !inputs.approved then Assessment(if live then Paused else PendingAuthorization, Some(ApprovalMissing))
    else if inputs.available < Reserved(inputs.desired) then
      Assessment(if live then Paused else PendingFunding, Some(InsufficientFunds))
    else if m.failures >= 3 then Assessment(Error, Some(OperatorError))
    else Assessment(if live then Active else PendingLaunch, None)
  }

  /** The market row after the tick stored its assessment and the measured skew. */
  function Assessed(s: State, inputs: Inputs): Market
  {
    var a := Assess(s.market, inputs, HasLive(s.records));
    s.market.(config := s.market.config.(skew := inputs.skew), status := a.status, pauseReason := a.reason)
  }

  predicate IsMissing(records: seq<Record>, a: Agent)
  {
    var r := Find(records, a.side, a.level);
    !(r.Some? && r.value.Live())
  }

  function Missing(desired: seq<Agent>, records: seq<Record>): seq<Agent>
  {
    if desired == [] then []
    else Missing(desired[..|desired| - 1], records)
         + if IsMissing(records, desired[|desired| - 1]) then [desired[|desired| - 1]] else []
  }

  function LaunchInputOf(a: Agent): LaunchInput { LaunchInput(a.side, a.price, a.size, a.cadence, a.expiry) }

  function SlotOf(a: Agent, agentId: Option<nat>): Slot
  {
    Slot(a.side, a.level, agentId, a.price, a.size, a.cadence, a.expiry)
  }

  function SlotOfRecord(r: Record, c: Config): Slot
  {
    Slot(r.side, r.level, r.agentId, r.Price(), r.Size(), c.cadence, c.expiry)
  }

  /** A recorded agent that is inactive or off its desired price or size. */
  predicate NeedsUpdate(records: seq<Record>, a: Agent)
  {
    var r := Find(records, a.side, a.level);
    && r.Some? && r.value.agentId.Some?
    && (!r.value.active || r.value.Price() != a.price || r.value.Size() != a.size)
  }

  function Outdated(desired: seq<Agent>, records: seq<Record>): (r: seq<Agent>)
    ensures forall a :: a in r ==> NeedsUpdate(records, a)
  {
    if desired == [] then []
    else Outdated(desired[..|desired| - 1], records)
         + if NeedsUpdate(records, desired[|desired| - 1]) then [desired[|desired| - 1]] else []
  }

  function AgentIdOf(records: seq<Record>, a: Agent): nat
    requires NeedsUpdate(records, a)
  {
    Find(records, a.side, a.level).value.agentId.value
  }

  function LaunchAction(missing: seq<Agent>): Action
  {
    Launch(seq(|missing|, i requires 0 <= i < |missing| => LaunchInputOf(missing[i])),
           seq(|missing|, i requires 0 <= i < |missing| => SlotOf(missing[i], None)))
  }

  function UpdateInputOf(records: seq<Record>, a: Agent): UpdateInput
    requires NeedsUpdate(records, a)
  {
    UpdateInput(AgentIdOf(records, a), a.side, a.price, a.size, a.cadence, a.expiry)
  }

  function UpdateAction(outdated: seq<Agent>, records: seq<Record>): Action
    requires forall a :: a in outdated ==> NeedsUpdate(records, a)
  {
    Update(seq(|outdated|, i requires 0 <= i < |outdated| => UpdateInputOf(records, outdated[i])),
           seq(|outdated|, i requires 0 <= i < |outdated| =>
             SlotOf(outdated[i], Some(AgentIdOf(records, outdated[i])))))
  }

  function DeactivateAction(live: seq<Record>, c: Config): Action
    requires forall r :: r in live ==> r.Live()
  {
    Deactivate(seq(|live|, i requires 0 <= i < |live| => live[i].Id()),
               seq(|live|, i requires 0 <= i < |live| => SlotOfRecord(live[i], c)))
  }

  function ExecuteActions(records: seq<Record>, executable: set<nat>, c: Config): seq<Action>
  {
    if records == [] then []
    else
      var r := records[|records| - 1];
      ExecuteActions(records[..|records| - 1], executable, c)
      + if r.Live() && r.Id() in executable then [Execute(r.Id(), [SlotOfRecord(r, c)])] else []
  }

  lemma {:induction false} LiveRecordsExact(records: seq<Record>)
    ensures forall r :: r in LiveRecords(records) <==> r in records && r.Live()
    ensures LiveRecords(records) == [] <==> !HasLive(records)
  {
    if records != [] {
      var n := |records| - 1;
      LiveRecordsExact(records[..n]);
      assert records == records[..n] + [records[n]];
      if HasLive(records[..n]) {
        var i :| 0 <= i < n && records[..n][i].Live();
        assert records[i].Live();
      }
    }
  }

  /** The actions for a market whose row `m` was just assessed. */
  function MarketActions(m: Market, desired: seq<Agent>, records: seq<Record>, executable: set<nat>): seq<Action>
  {
    LiveRecordsExact(records);
    var live := LiveRecords(records);
    if (m.status.Paused? || m.status.Graduated? || m.status.Error?) && live != [] then
      [DeactivateAction(live, m.config)]
    else if !m.status.Active? && !m.status.PendingLaunch? then []
    else if Missing(desired, records) != [] then [LaunchAction(Missing(desired, records))]
    else if Outdated(desired, records) != [] then [UpdateAction(Outdated(desired, records), records)]
    else ExecuteActions(records, executable, m.config)
  }

  function TickActions(s: State, inputs: Inputs): seq<Action>
  {
    MarketActions(Assessed(s, inputs), inputs.desired, s.records, inputs.executable)
  }

  // ----- Report -----

  /** The row an upsert leaves, given the row it finds. */
  function UpsertRow(found: Option<Record>, slot: Slot, agentId: Option<nat>, active: bool): Record
  {
    Record(slot.side, slot.level, agentId.OrElse(if found.Some? then found.value.agentId else None),
           slot.price, slot.size, Some(slot.price), Some(slot.size), active)
  }

  function Upsert(records: seq<Record>, slot: Slot, agentId: Option<nat>, active: bool): seq<Record>
  {
    if records == [] then [UpsertRow(None, slot, agentId, active)]
    else
      var n := |records| - 1;
      if records[n].side == slot.side && records[n].level == slot.level
      then records[..n] + [UpsertRow(Some(records[n]), slot, agentId, active)]
      else Upsert(records[..n], slot, agentId, active) + [records[n]]
  }

  function UpsertAll(records: seq<Record>, slots: seq<Slot>, ids: seq<Option<nat>>, active: bool): seq<Record>
    requires |ids| == |slots|
  {
    if slots == [] then records
    else Upsert(UpsertAll(records, slots[..|slots| - 1], ids[..|slots| - 1], active),
                slots[|slots| - 1], ids[|slots| - 1], active)
  }

  datatype Kind = LaunchKind | UpdateKind | DeactivateKind | ExecuteKind

  function KindOf(a: Action): Kind
  {
    match a
    case Launch(_, _) => LaunchKind
    case Update(_, _) => UpdateKind
    case Deactivate(_, _) => DeactivateKind
    case Execute(_, _) => ExecuteKind
  }

  /** The ids a report stores: those the receipt announced for a launch, else the slots' own. */
  function ReportedIds(kind: Kind, slots: seq<Slot>, created: seq<nat>): seq<Option<nat>>
    requires kind.LaunchKind? ==> |created| == |slots|
  {
    seq(|slots|, i requires 0 <= i < |slots| => if kind.LaunchKind? then Some(created[i]) else slots[i].agentId)
  }

  function SuccessReport(s: State, kind: Kind, slots: seq<Slot>, created: seq<nat>): Result<State>
  {
    if kind.LaunchKind? && |created| != |slots| then Err
    else
      var records := UpsertAll(s.records, slots, ReportedIds(kind, slots, created), !kind.DeactivateKind?);
      var m := if kind.DeactivateKind?
               then s.market.(failures := 0,
                              pauseReason := if s.market.status.Graduated? then None else s.market.pauseReason)
               else s.market.(status := Active, pauseReason := None, failures := 0);
      Ok(State(m, records))
  }

  function FailureReport(s: State): State
  {
    var failures := s.market.failures + 1;
    if failures >= 3
    then s.(market := s.market.(status := Error, pauseReason := Some(OperatorError), failures := failures))
    else s.(market := s.market.(failures := failures))
  }

  function Report(s: State, success: bool, kind: Kind, slots: seq<Slot>, created: seq<nat>): Result<State>
  {
    if !success then Ok(FailureReport(s)) else SuccessReport(s, kind, slots, created)
  }

  // ----- The fleet -----

  /** One prepared write, with the index of its market. */
  datatype Emitted = Emitted(market: nat, action: Action)

  datatype Fleet = Fleet(markets: seq<State>, actions: seq<Emitted>)

  function Emit(i: nat, actions: seq<Action>, room: nat): (r: seq<Emitted>)
    ensures |r| == Min(|actions|, room)
  {
    seq(Min(|actions|, room), k requires 0 <= k < Min(|actions|, room) => Emitted(i, actions[k]))
  }

  predicate Skipped(m: Market, o: Option<Observation>) { !m.hybrid || m.status.Disabled? || o.None? }

  /** The tick over the first `n` markets, stopping once `limit` actions were emitted. */
  function FleetTick(markets: seq<State>, obs: seq<Option<Observation>>, limit: nat, n: nat): (r: Fleet)
    requires n <= |markets| == |obs|
    ensures |r.markets| == |markets|
  {
    if n == 0 then Fleet(markets, [])
    else
      var before := FleetTick(markets, obs, limit, n - 1);
      if |before.actions| >= limit || Skipped(markets[n - 1].market, obs[n - 1]) then before
      else
        var s := Refreshed(markets[n - 1], obs[n - 1].value);
        var inputs := InputsOf(markets[n - 1].market.config, obs[n - 1].value);
        Fleet(before.markets[n - 1 := s.(market := Assessed(s, inputs))],
              before.actions + Emit(n - 1, TickActions(s, inputs), limit - |before.actions|))
  }

  class Runner {
    var markets: seq<State>

    constructor (initial: seq<State>)
      ensures markets == initial
    {
      markets := initial;
    }

    /** The slots of `desired` that need an update, with their writes, in ladder order. */
    static method UpdateInputs(desired: seq<Agent>, records: seq<Record>)
      returns (updates: seq<UpdateInput>, slots: seq<Slot>)
      ensures Update(updates, slots) == UpdateAction(Outdated(desired, records), records)
    {
      updates, slots := [], [];
      for i := 0 to |desired|
        invariant |updates| == |slots| == |Outdated(desired[..i], records)|
        invariant forall k :: 0 <= k < |updates| ==>
          updates[k] == UpdateInputOf(records, Outdated(desired[..i], records)[k])
        invariant forall k :: 0 <= k < |slots| ==>
          var agent := Outdated(desired[..i], records)[k];
          slots[k] == SlotOf(agent, Some(AgentIdOf(records, agent)))
      {
        assert desired[..i + 1][..i] == desired[..i];
        var agent := desired[i];
        var record := Find(records, agent.side, agent.level);
        if record.Some? && record.value.agentId.Some? {
          var r := record.value;
          if !r.active || r.Price() != agent.price || r.Size() != agent.size {
            updates := updates
              + [UpdateInput(r.agentId.value, agent.side, agent.price, agent.size, agent.cadence, agent.expiry)];
            slots := slots + [SlotOf(agent, Some(r.agentId.value))];
          }
        }
      }
      assert desired[..|desired|] == desired;
    }

    /** Ready agents of one market, until the room for actions is used up. */
    static method ExecuteReady(i: nat, records: seq<Record>, executable: set<nat>, c: Config, room: nat)
      returns (emitted: seq<Emitted>)
      requires room > 0
      ensures emitted == Emit(i, ExecuteActions(records, executable, c), room)
    {
      emitted := [];
      for k := 0 to |records|
        invariant emitted == Emit(i, ExecuteActions(records[..k], executable, c), room)
        invariant |emitted| < room
      {
        assert records[..k + 1][..k] == records[..k];
        var r := records[k];
        if r.active && r.agentId.Some? && r.agentId.value in executable {
          emitted := emitted + [Emitted(i, Execute(r.agentId.value, [SlotOfRecord(r, c)]))];
          if |emitted| >= room {
            EmitPrefix(i, records, k + 1, executable, c, room);
            return;
          }
        }
      }
      assert records[..|records|] == records;
    }

    /** One market of the pass: its assessed row, and its actions while there is room for them. */
    static method TickMarket(i: nat, s: State, inputs: Inputs, room: nat) returns (m: Market, emitted: seq<Emitted>)
      requires room > 0
      ensures m == Assessed(s, inputs) && emitted == Emit(i, TickActions(s, inputs), room)
    {
      var c, desired := s.market.config, inputs.desired;
      var a := Assess(s.market, inputs, HasLive(s.records));
      m := s.market;
      if c.skew != inputs.skew || m.status != a.status || m.pauseReason != a.reason {
        m := m.(config := c.(skew := inputs.skew), status := a.status, pauseReason := a.reason);
      }
      emitted := [];
      LiveRecordsExact(s.records);
      var live := LiveRecords(s.records);
      if (m.status.Paused? || m.status.Graduated? || m.status.Error?) && live != [] {
        emitted := [Emitted(i, DeactivateAction(live, m.config))];
      } else if m.status.Active? || m.status.PendingLaunch? {
        var missing := Missing(desired, s.records);
        if missing != [] {
          emitted := [Emitted(i, LaunchAction(missing))];
        } else {
          var updates, slots := UpdateInputs(desired, s.records);
          if updates != [] {
            emitted := [Emitted(i, Update(updates, slots))];
          } else {
            emitted := ExecuteReady(i, s.records, inputs.executable, m.config, room);
          }
        }
      }
    }

    /** One pass over all markets. */
    method Tick(obs: seq<Option<Observation>>, limit: nat) returns (actions: seq<Emitted>)
      requires |obs| == |markets| && limit > 0
      modifies this
      ensures Fleet(markets, actions) == FleetTick(old(markets), obs, limit, |obs|)
    {
      hide TickActions;
      hide Assessed;
      hide InputsOf;
      hide Refreshed;
      actions := [];
      ghost var start := markets;
      for i := 0 to |obs|
        invariant |markets| == |start| == |obs| && |actions| < limit
        invariant Fleet(markets, actions) == FleetTick(start, obs, limit, i)
        invariant forall k :: i <= k < |markets| ==> markets[k] == start[k]
      {
        if markets[i].market.hybrid && !markets[i].market.status.Disabled? && obs[i].Some? {
          var s := Refreshed(markets[i], obs[i].value);
          var m, emitted := TickMarket(i, s, InputsOf(markets[i].market.config, obs[i].value), limit - |actions|);
          markets := markets[i := s.(market := m)];
          actions := actions + emitted;
          if |actions| >= limit {
            FleetTickStops(start, obs, limit, i + 1, |obs|);
            return;
          }
        }
      }
    }

    /** A successful write's slots are stored one by one; a failed write only counts. */
    method ReportOutcome(i: nat, success: bool, kind: Kind, slots: seq<Slot>, created: seq<nat>) returns (ok: bool)
      requires i < |markets|
      modifies this
      ensures
        var r := Report(old(markets)[i], success, kind, slots, created);
        ok == r.Ok? && markets == if ok then old(markets)[i := r.value] else old(markets)
    {
      var s := markets[i];
      if !success {
        var failures := s.market.failures + 1;
        var m := s.market.(failures := failures);
        if failures >= 3 {
          m := m.(status := Error, pauseReason := Some(OperatorError));
        }
        markets := markets[i := s.(market := m)];
        return true;
      }
      if kind.LaunchKind? && |created| != |slots| {
        return false;
      }
      var records := s.records;
      ghost var ids := ReportedIds(kind, slots, created);
      for k := 0 to |slots|
        invariant records == UpsertAll(s.records, slots[..k], ids[..k], !kind.DeactivateKind?)
      {
        assert slots[..k + 1][..k] == slots[..k] && ids[..k + 1][..k] == ids[..k];
        var id := if kind.LaunchKind? then Some(created[k]) else slots[k].agentId;
        records := Upsert(records, slots[k], id, !kind.DeactivateKind?);
      }
      assert slots[..|slots|] == slots && ids[..|slots|] == ids;
      var m := s.market.(failures := 0);
      if kind.DeactivateKind? {
        if m.status.Graduated? {
          m := m.(pauseReason := None);
        }
      } else {
        m := m.(status := Active, pauseReason := None);
      }
      markets := markets[i := State(m, records)];
      ok := true;
    }
  }

  lemma {:induction false} EmitPrefix(i: nat, records: seq<Record>, k: nat, executable: set<nat>, c: Config, room: nat)
    requires k <= |records| && |ExecuteActions(records[..k], executable, c)| >= room
    ensures Emit(i, ExecuteActions(records, executable, c), room)
         == Emit(i, ExecuteActions(records[..k], executable, c), room)
  {
    if k < |records| {
      var n := |records| - 1;
      assert records[..n][..k] == records[..k];
      EmitPrefix(i, records[..n], k, executable, c, room);
    } else {
      assert records[..k] == records;
    }
  }

  lemma {:induction false} FleetTickStops(
    markets: seq<State>, obs: seq<Option<Observation>>, limit: nat, i: nat, n: nat)
    requires i <= n <= |markets| == |obs| && |FleetTick(markets, obs, limit, i).actions| >= limit
    ensures FleetTick(markets, obs, limit, n) == FleetTick(markets, obs, limit, i)
  {
    hide TickActions;
    hide Assessed;
    hide InputsOf;
    hide Refreshed;
    if i < n {
      FleetTickStops(markets, obs, limit, i, n - 1);
    }
  }
}
