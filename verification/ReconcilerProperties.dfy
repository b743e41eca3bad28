/** Convergence, shutdown and funding safety of the bootstrap reconciler, over whole runs. */
module ReconcilerProperties {
  import opened Numbers
  import opened Options
  import opened Sums
  import opened Planner
  import opened Lifecycle
  import Graduation
  import SyntheticBook
  import opened Reconciler

  // ----- Records -----

  lemma {:induction false} FindUpsert(
    records: seq<Record>, slot: Slot, id: Option<nat>, active: bool, side: Side, level: nat)
    ensures Find(Upsert(records, slot, id, active), side, level)
         == if slot.side == side && slot.level == level
            then Some(UpsertRow(Find(records, side, level), slot, id, active)) else Find(records, side, level)
  {
    if records != [] {
      var n := |records| - 1;
      FindUpsert(records[..n], slot, id, active, side, level);
      if records[n].side == slot.side && records[n].level == slot.level {
        assert Upsert(records, slot, id, active)[..n] == records[..n];
      } else {
        var before := Upsert(records[..n], slot, id, active);
        assert (before + [records[n]])[..|before|] == before;
      }
    } else {
      assert [UpsertRow(None, slot, id, active)][..0] == [];
    }
  }

  /** A record is found under its own key. */
  lemma {:induction false} FindUnique(records: seq<Record>, i: nat)
    requires UniqueSlots(records) && i < |records|
    ensures Find(records, records[i].side, records[i].level) == Some(records[i])
  {
    if i < |records| - 1 {
      FindUnique(records[..|records| - 1], i);
    }
  }

  lemma {:induction false} FoundIsRecorded(records: seq<Record>, side: Side, level: nat) returns (i: nat)
    requires Find(records, side, level).Some?
    ensures i < |records| && records[i] == Find(records, side, level).value
    ensures records[i].side == side && records[i].level == level
  {
    var n := |records| - 1;
    if records[n].side == side && records[n].level == level {
      i := n;
    } else {
      i := FoundIsRecorded(records[..n], side, level);
    }
  }

  lemma {:induction false} UpsertKeepsUnique(records: seq<Record>, slot: Slot, id: Option<nat>, active: bool)
    requires UniqueSlots(records)
    ensures UniqueSlots(Upsert(records, slot, id, active))
    ensures forall r :: r in Upsert(records, slot, id, active) ==>
      || (r.side == slot.side && r.level == slot.level)
      || (exists q :: q in records && q.side == r.side && q.level == r.level)
  {
    if records != [] {
      UpsertKeepsUnique(records[..|records| - 1], slot, id, active);
    }
  }

  lemma {:induction false} UpsertAllKeepsUnique(
    records: seq<Record>, slots: seq<Slot>, ids: seq<Option<nat>>, active: bool)
    requires UniqueSlots(records) && |ids| == |slots|
    ensures UniqueSlots(UpsertAll(records, slots, ids, active))
  {
    if slots != [] {
      var n := |slots| - 1;
      UpsertAllKeepsUnique(records, slots[..n], ids[..n], active);
      UpsertKeepsUnique(UpsertAll(records, slots[..n], ids[..n], active), slots[n], ids[n], active);
    }
  }

  predicate DistinctSlots(slots: seq<Slot>)
  {
    forall i, j :: 0 <= i < j < |slots| ==> (slots[i].side, slots[i].level) != (slots[j].side, slots[j].level)
  }

  lemma {:induction false} FindOther(
    records: seq<Record>, slots: seq<Slot>, ids: seq<Option<nat>>, active: bool, side: Side, level: nat)
    requires |ids| == |slots|
    requires forall i :: 0 <= i < |slots| ==> (slots[i].side, slots[i].level) != (side, level)
    ensures Find(UpsertAll(records, slots, ids, active), side, level) == Find(records, side, level)
  {
    if slots != [] {
      var n := |slots| - 1;
      FindOther(records, slots[..n], ids[..n], active, side, level);
      FindUpsert(UpsertAll(records, slots[..n], ids[..n], active), slots[n], ids[n], active, side, level);
    }
  }

  lemma {:induction false} FindUpserted(
    records: seq<Record>, slots: seq<Slot>, ids: seq<Option<nat>>, active: bool, i: nat)
    requires |ids| == |slots| && DistinctSlots(slots) && i < |slots|
    ensures Find(UpsertAll(records, slots, ids, active), slots[i].side, slots[i].level)
         == Some(UpsertRow(Find(records, slots[i].side, slots[i].level), slots[i], ids[i], active))
  {
    var n := |slots| - 1;
    var before := UpsertAll(records, slots[..n], ids[..n], active);
    FindUpsert(before, slots[n], ids[n], active, slots[i].side, slots[i].level);
    if i < n {
      FindUpserted(records, slots[..n], ids[..n], active, i);
    } else {
      FindOther(records, slots[..n], ids[..n], active, slots[n].side, slots[n].level);
    }
  }

  // ----- Desired slots -----

  predicate DistinctAgents(desired: seq<Agent>)
  {
    forall i, j :: 0 <= i < j < |desired| ==> (desired[i].side, desired[i].level) != (desired[j].side, desired[j].level)
  }

  lemma {:induction false} DesiredDistinct(c: Config, o: Observation)
    ensures DistinctAgents(Desired(c, o))
  {
    var s := SignalsOf(c, o);
    LadderSlots(c, AdaptiveSpread(s), AdaptiveSize(s));
    LadderSlots(c, 10_000, 10_000);
  }

  /** The slot is live at the desired price and size. */
  predicate AtTarget(records: seq<Record>, a: Agent)
  {
    var r := Find(records, a.side, a.level);
    r.Some? && r.value.Live() && r.value.Price() == a.price && r.value.Size() == a.size
  }

  predicate Converged(records: seq<Record>, desired: seq<Agent>)
  {
    forall i :: 0 <= i < |desired| ==> AtTarget(records, desired[i])
  }

  /** Adding an agent with a new slot to agents drawn from distinct ones keeps the slots distinct. */
  lemma DistinctAppend(desired: seq<Agent>, part: seq<Agent>)
    requires desired != [] && DistinctAgents(desired) && DistinctAgents(part)
    requires forall a :: a in part ==> a in desired[..|desired| - 1]
    ensures DistinctAgents(part + [desired[|desired| - 1]])
  {
    var n := |desired| - 1;
    forall i | 0 <= i < |part|
      ensures (part[i].side, part[i].level) != (desired[n].side, desired[n].level)
    {
      assert part[i] in part;
      var k :| 0 <= k < n && desired[..n][k] == part[i];
      assert desired[k] == part[i];
    }
  }

  lemma {:induction false} MissingExact(desired: seq<Agent>, records: seq<Record>)
    requires DistinctAgents(desired)
    ensures forall a :: a in Missing(desired, records) <==> a in desired && IsMissing(records, a)
    ensures DistinctAgents(Missing(desired, records))
  {
    if desired != [] {
      var n := |desired| - 1;
      MissingExact(desired[..n], records);
      assert desired == desired[..n] + [desired[n]];
      DistinctAppend(desired, Missing(desired[..n], records));
    }
  }

  lemma {:induction false} OutdatedExact(desired: seq<Agent>, records: seq<Record>)
    requires DistinctAgents(desired)
    ensures forall a :: a in Outdated(desired, records) <==> a in desired && NeedsUpdate(records, a)
    ensures DistinctAgents(Outdated(desired, records))
  {
    if desired != [] {
      var n := |desired| - 1;
      OutdatedExact(desired[..n], records);
      assert desired == desired[..n] + [desired[n]];
      DistinctAppend(desired, Outdated(desired[..n], records));
    }
  }

  /** Nothing left to launch or update is the same as being converged. */
  lemma NothingLeft(desired: seq<Agent>, records: seq<Record>)
    requires DistinctAgents(desired)
    ensures Missing(desired, records) == [] && Outdated(desired, records) == [] <==> Converged(records, desired)
    ensures Missing(desired, records) == [] <==> forall a :: a in desired ==> !IsMissing(records, a)
  {
    MissingExact(desired, records);
    OutdatedExact(desired, records);
    if Missing(desired, records) != [] {
      var a := Missing(desired, records)[0];
      assert a in desired && IsMissing(records, a);
      var i :| 0 <= i < |desired| && desired[i] == a;
      assert !AtTarget(records, desired[i]);
    } else if Outdated(desired, records) != [] {
      var a := Outdated(desired, records)[0];
      assert a in desired && NeedsUpdate(records, a);
      var i :| 0 <= i < |desired| && desired[i] == a;
      assert !AtTarget(records, desired[i]);
    } else {
      forall i | 0 <= i < |desired|
        ensures AtTarget(records, desired[i])
      {
        assert desired[i] in desired && !IsMissing(records, desired[i]) && !NeedsUpdate(records, desired[i]);
      }
    }
  }

  predicate HasSlot(slots: seq<Slot>, side: Side, level: nat)
  {
    exists i :: 0 <= i < |slots| && (slots[i].side, slots[i].level) == (side, level)
  }

  lemma LaunchHasSlot(missing: seq<Agent>, a: Agent)
    requires a in missing
    ensures HasSlot(LaunchAction(missing).slots, a.side, a.level)
  {
    var i :| 0 <= i < |missing| && missing[i] == a;
    assert LaunchAction(missing).slots[i] == SlotOf(a, None);
  }

  lemma UpdateHasSlot(outdated: seq<Agent>, records: seq<Record>, a: Agent)
    requires a in outdated && forall b :: b in outdated ==> NeedsUpdate(records, b)
    ensures HasSlot(UpdateAction(outdated, records).slots, a.side, a.level)
  {
    var i :| 0 <= i < |outdated| && outdated[i] == a;
    assert UpdateAction(outdated, records).slots[i].side == a.side;
  }

  /** A successful launch of the missing slots leaves none missing. */
  lemma LaunchFillsSlots(desired: seq<Agent>, records: seq<Record>, created: seq<nat>)
    requires DistinctAgents(desired) && |created| == |Missing(desired, records)|
    ensures
      var slots := LaunchAction(Missing(desired, records)).slots;
      var records' := UpsertAll(records, slots, ReportedIds(LaunchKind, slots, created), true);
      Missing(desired, records') == []
  {
    var missing := Missing(desired, records);
    var slots := LaunchAction(missing).slots;
    var ids := ReportedIds(LaunchKind, slots, created);
    var records' := UpsertAll(records, slots, ids, true);
    MissingExact(desired, records);
    NothingLeft(desired, records');
    forall a | a in desired
      ensures !IsMissing(records', a)
    {
      if HasSlot(slots, a.side, a.level) {
        var i :| 0 <= i < |slots| && (slots[i].side, slots[i].level) == (a.side, a.level);
        FindUpserted(records, slots, ids, true, i);
      } else {
        FindOther(records, slots, ids, true, a.side, a.level);
        if a in missing {
          LaunchHasSlot(missing, a);
        }
      }
    }
  }

  /** With every slot live, a successful update of the outdated ones converges. */
  lemma UpdateConverges(desired: seq<Agent>, records: seq<Record>)
    requires DistinctAgents(desired) && Missing(desired, records) == []
    ensures
      var slots := UpdateAction(Outdated(desired, records), records).slots;
      Converged(UpsertAll(records, slots, ReportedIds(UpdateKind, slots, []), true), desired)
  {
    var outdated := Outdated(desired, records);
    var slots := UpdateAction(outdated, records).slots;
    var ids := ReportedIds(UpdateKind, slots, []);
    var records' := UpsertAll(records, slots, ids, true);
    OutdatedExact(desired, records);
    MissingExact(desired, records);
    forall k | 0 <= k < |desired|
      ensures AtTarget(records', desired[k])
    {
      var a := desired[k];
      assert a in desired && !IsMissing(records, a);
      if HasSlot(slots, a.side, a.level) {
        var i :| 0 <= i < |slots| && (slots[i].side, slots[i].level) == (a.side, a.level);
        FindUpserted(records, slots, ids, true, i);
        assert outdated[i] in outdated;
        SameSlotSameAgent(desired, outdated[i], a);
      } else {
        FindOther(records, slots, ids, true, a.side, a.level);
        if a in outdated {
          UpdateHasSlot(outdated, records, a);
        }
      }
    }
  }

  lemma SameSlotSameAgent(desired: seq<Agent>, a: Agent, b: Agent)
    requires DistinctAgents(desired) && a in desired && b in desired
    requires (a.side, a.level) == (b.side, b.level)
    ensures a == b
  {
  }

  // ----- Rounds -----

  /** Every action of a tick, reported successful in order. */
  function Settle(s: State, actions: seq<Action>, created: seq<nat>): Result<State>
  {
    if actions == [] then Ok(s)
    else
      var before :- Settle(s, actions[..|actions| - 1], created);
      var a := actions[|actions| - 1];
      SuccessReport(before, KindOf(a), a.slots, created)
  }

  function Round(s: State, inputs: Inputs, created: seq<nat>): Result<State>
  {
    Settle(s.(market := Assessed(s, inputs)), TickActions(s, inputs), created)
  }

  /** The row and the inputs allow quoting. */
  predicate Healthy(s: State, inputs: Inputs)
  {
    && !s.market.status.Disabled? && !s.market.status.Graduated?
    && !(s.market.status.Paused? && s.market.pauseReason == Some(AdminPaused))
    && !inputs.capHit && inputs.approved && inputs.available >= Reserved(inputs.desired)
    && s.market.failures < 3
  }

  /** 2: something to launch; 1: only something to update; 0: converged. */
  function Phase(s: State, inputs: Inputs): nat
  {
    if Missing(inputs.desired, s.records) != [] then 2 else if Outdated(inputs.desired, s.records) != [] then 1 else 0
  }

  /** A tick leaves a market quoting exactly when row and inputs allow it, live or waiting to be launched. */
  lemma QuotesIffHealthy(s: State, inputs: Inputs)
    ensures
      var status := Assessed(s, inputs).status;
      && (status.Active? || status.PendingLaunch? <==> Healthy(s, inputs))
      && (status.Active? <==> Healthy(s, inputs) && HasLive(s.records))
      && (forall a :: a in TickActions(s, inputs) && !a.Deactivate? ==> Healthy(s, inputs))
  {
    ExecuteActionsWell(s.records, inputs.executable, Assessed(s, inputs).config);
  }

  predicate ExecutesWell(a: Action, records: seq<Record>)
  {
    && a.Execute? && |a.slots| == 1
    && var s := a.slots[0];
       exists i :: 0 <= i < |records| && records[i].Live() && records[i].side == s.side && records[i].level == s.level
         && s.agentId == records[i].agentId && s.price == records[i].Price() && s.size == records[i].Size()
  }

  lemma {:induction false} ExecuteActionsWell(records: seq<Record>, executable: set<nat>, c: Config)
    ensures forall a :: a in ExecuteActions(records, executable, c) ==> ExecutesWell(a, records)
  {
    if records != [] {
      var n := |records| - 1;
      ExecuteActionsWell(records[..n], executable, c);
      forall a | a in ExecuteActions(records, executable, c)
        ensures ExecutesWell(a, records)
      {
        if a in ExecuteActions(records[..n], executable, c) {
          var s := a.slots[0];
          var i :|
            && 0 <= i < n && records[..n][i].Live()
            && records[..n][i].side == s.side && records[..n][i].level == s.level
            && s.agentId == records[..n][i].agentId
            && s.price == records[..n][i].Price() && s.size == records[..n][i].Size();
          assert records[i] == records[..n][i];
        } else {
          assert records[n].Live();
        }
      }
    }
  }

  /** Exactly the live agents out of cooldown are executed. */
  lemma {:induction false} ExecutesExactlyReady(records: seq<Record>, executable: set<nat>, c: Config, id: nat)
    ensures (exists a :: a in ExecuteActions(records, executable, c) && a.Execute? && a.id == id)
       <==> id in executable && exists i :: 0 <= i < |records| && records[i].Live() && records[i].Id() == id
  {
    if records != [] {
      var front, r := records[..|records| - 1], records[|records| - 1];
      ExecutesExactlyReady(front, executable, c, id);
      var before, after := ExecuteActions(front, executable, c), ExecuteActions(records, executable, c);
      if r.Live() && r.Id() == id && id in executable {
        assert Execute(id, [SlotOfRecord(r, c)]) in after;
      }
      if a :| a in before && a.Execute? && a.id == id {
        assert a in after;
      }
      if i :| 0 <= i < |front| && front[i].Live() && front[i].Id() == id {
        assert records[i] == front[i];
      }
    }
  }

  /** What a keeper of the market can see of a slot: whether it is active, for which agent, at what price and size. */
  predicate SameQuote(x: Option<Record>, y: Option<Record>)
  {
    x.Some? == y.Some? && (x.Some? ==>
      && x.value.active == y.value.active && x.value.agentId == y.value.agentId
      && x.value.Price() == y.value.Price() && x.value.Size() == y.value.Size())
  }

  lemma SameQuoteChain(x: Option<Record>, y: Option<Record>, z: Option<Record>)
    ensures SameQuote(x, x)
    ensures SameQuote(x, y) && SameQuote(y, z) ==> SameQuote(x, z)
  {
  }

  ghost predicate SameQuotes(a: seq<Record>, b: seq<Record>)
  {
    forall side: Side, level: nat :: SameQuote(Find(a, side, level), Find(b, side, level))
  }

  lemma SingleUpsert(records: seq<Record>, slot: Slot, id: Option<nat>, active: bool)
    ensures UpsertAll(records, [slot], [id], active) == Upsert(records, slot, id, active)
  {
    assert [slot][..0] == [] && [id][..0] == [];
  }

  lemma ExecuteReportKeeps(s: State, a: Action, records: seq<Record>)
    requires UniqueSlots(records) && ExecutesWell(a, records) && SameQuotes(records, s.records)
    ensures
      var r := SuccessReport(s, KindOf(a), a.slots, []);
      && r.Ok? && SameQuotes(records, r.value.records)
      && r.value.market == s.market.(status := Active, pauseReason := None, failures := 0)
  {
    var slot := a.slots[0];
    var i :| 0 <= i < |records| && records[i].Live() && records[i].side == slot.side && records[i].level == slot.level
      && slot.agentId == records[i].agentId && slot.price == records[i].Price() && slot.size == records[i].Size();
    FindUnique(records, i);
    var records' := SuccessReport(s, KindOf(a), a.slots, []).value.records;
    assert a.slots == [slot] && ReportedIds(ExecuteKind, a.slots, []) == [slot.agentId];
    SingleUpsert(s.records, slot, slot.agentId, true);
    forall side: Side, level: nat
      ensures SameQuote(Find(records, side, level), Find(records', side, level))
    {
      assert SameQuote(Find(records, side, level), Find(s.records, side, level));
      FindUpsert(s.records, slot, slot.agentId, true, side, level);
    }
  }

  lemma {:induction false} SettleExecutes(s: State, actions: seq<Action>, created: seq<nat>)
    requires UniqueSlots(s.records) && forall a :: a in actions ==> ExecutesWell(a, s.records)
    ensures
      var r := Settle(s, actions, created);
      && r.Ok? && SameQuotes(s.records, r.value.records) && UniqueSlots(r.value.records)
      && r.value.market == if actions == [] then s.market
                           else s.market.(status := Active, pauseReason := None, failures := 0)
  {
    if actions != [] {
      var n := |actions| - 1;
      SettleExecutes(s, actions[..n], created);
      var before := Settle(s, actions[..n], created).value;
      assert actions[n] in actions;
      ExecuteReportKeeps(before, actions[n], s.records);
      var ids := ReportedIds(ExecuteKind, actions[n].slots, []);
      assert ids == ReportedIds(ExecuteKind, actions[n].slots, created);
      UpsertAllKeepsUnique(before.records, actions[n].slots, ids, true);
    }
  }

  lemma SameQuotesSameWork(a: seq<Record>, b: seq<Record>, desired: seq<Agent>)
    requires SameQuotes(a, b) && Converged(a, desired)
    ensures Converged(b, desired)
  {
    forall i | 0 <= i < |desired|
      ensures AtTarget(b, desired[i])
    {
      assert AtTarget(a, desired[i]);
      assert SameQuote(Find(a, desired[i].side, desired[i].level), Find(b, desired[i].side, desired[i].level));
    }
  }

  lemma SingleSettle(s: State, a: Action, created: seq<nat>)
    ensures Settle(s, [a], created) == SuccessReport(s, KindOf(a), a.slots, created)
  {
    assert [a][..0] == [];
    assert Settle(s, [], created) == Ok(s);
  }

  /** What a round may emit in each phase. */
  predicate ActionsOfPhase(phase: nat, actions: seq<Action>)
  {
    if phase == 2 then |actions| == 1 && actions[0].Launch?
    else if phase == 1 then |actions| == 1 && actions[0].Update?
    else forall a :: a in actions ==> a.Execute?
  }

  /** The tick of a healthy market, by phase. */
  lemma {:induction false} HealthyActions(s: State, inputs: Inputs)
    requires Healthy(s, inputs)
    ensures
      var desired := inputs.desired;
      TickActions(s, inputs) ==
        if Phase(s, inputs) == 2 then [LaunchAction(Missing(desired, s.records))]
        else if Phase(s, inputs) == 1 then [UpdateAction(Outdated(desired, s.records), s.records)]
        else ExecuteActions(s.records, inputs.executable, Assessed(s, inputs).config)
  {
  }

  /** What neither ticks nor reports change. */
  predicate SameTerms(m: Market, n: Market)
  {
    n.creator == m.creator && n.hybrid == m.hybrid && n.since == m.since && n.graduation == m.graduation
  }

  /** Success reports other than a deactivation's keep a healthy market healthy. */
  lemma {:induction false} StaysHealthy(s: State, inputs: Inputs, records: seq<Record>)
    requires Healthy(s, inputs)
    ensures Healthy(State(Assessed(s, inputs), records), inputs)
    ensures Healthy(State(Assessed(s, inputs).(status := Active, pauseReason := None, failures := 0), records), inputs)
    ensures Assessed(s, inputs).config == s.market.config.(skew := inputs.skew)
    ensures SameTerms(s.market, Assessed(s, inputs))
  {
  }

  lemma {:induction false} LaunchRound(s: State, inputs: Inputs, created: seq<nat>)
    requires Healthy(s, inputs) && DistinctAgents(inputs.desired) && UniqueSlots(s.records) && Phase(s, inputs) == 2
    requires |created| == |Missing(inputs.desired, s.records)|
    ensures
      var r := Round(s, inputs, created);
      && r.Ok? && Healthy(r.value, inputs) && UniqueSlots(r.value.records)
      && r.value.market.config == s.market.config.(skew := inputs.skew) && Phase(r.value, inputs) <= 1
      && SameTerms(s.market, r.value.market)
  {
    HealthyActions(s, inputs);
    hide TickActions;
    hide Healthy;
    hide Assessed;
    var desired := inputs.desired;
    var a := LaunchAction(Missing(desired, s.records));
    SingleSettle(s.(market := Assessed(s, inputs)), a, created);
    LaunchFillsSlots(desired, s.records, created);
    var records' := UpsertAll(s.records, a.slots, ReportedIds(LaunchKind, a.slots, created), true);
    UpsertAllKeepsUnique(s.records, a.slots, ReportedIds(LaunchKind, a.slots, created), true);
    StaysHealthy(s, inputs, records');
  }

  lemma {:induction false} UpdateRound(s: State, inputs: Inputs, created: seq<nat>)
    requires Healthy(s, inputs) && DistinctAgents(inputs.desired) && UniqueSlots(s.records) && Phase(s, inputs) == 1
    ensures
      var r := Round(s, inputs, created);
      && r.Ok? && Healthy(r.value, inputs) && UniqueSlots(r.value.records)
      && r.value.market.config == s.market.config.(skew := inputs.skew) && Phase(r.value, inputs) == 0
      && SameTerms(s.market, r.value.market)
  {
    HealthyActions(s, inputs);
    hide TickActions;
    hide Healthy;
    hide Assessed;
    var desired := inputs.desired;
    var a := UpdateAction(Outdated(desired, s.records), s.records);
    var ids := ReportedIds(UpdateKind, a.slots, []);
    assert ReportedIds(UpdateKind, a.slots, created) == ids;
    var records' := UpsertAll(s.records, a.slots, ids, true);
    SingleSettle(s.(market := Assessed(s, inputs)), a, created);
    UpdateConverges(desired, s.records);
    UpsertAllKeepsUnique(s.records, a.slots, ids, true);
    NothingLeft(desired, records');
    StaysHealthy(s, inputs, records');
  }

  lemma {:induction false} ExecuteRound(s: State, inputs: Inputs, created: seq<nat>)
    requires Healthy(s, inputs) && DistinctAgents(inputs.desired) && UniqueSlots(s.records) && Phase(s, inputs) == 0
    ensures
      var r := Round(s, inputs, created);
      && r.Ok? && Healthy(r.value, inputs) && UniqueSlots(r.value.records) && SameQuotes(s.records, r.value.records)
      && r.value.market.config == s.market.config.(skew := inputs.skew) && Phase(r.value, inputs) == 0
      && SameTerms(s.market, r.value.market)
    ensures forall a :: a in TickActions(s, inputs) ==> a.Execute?
  {
    HealthyActions(s, inputs);
    hide TickActions;
    hide Healthy;
    hide Assessed;
    var desired := inputs.desired;
    ExecuteActionsWell(s.records, inputs.executable, Assessed(s, inputs).config);
    SettleExecutes(s.(market := Assessed(s, inputs)), TickActions(s, inputs), created);
    var records' := Round(s, inputs, created).value.records;
    NothingLeft(desired, s.records);
    SameQuotesSameWork(s.records, records', desired);
    NothingLeft(desired, records');
    StaysHealthy(s, inputs, records');
  }

  /**
   * One round under healthy, fixed inputs: it launches exactly in phase 2, updates exactly in phase 1 and
   * only executes once converged; its reports leave a healthy market in phase 0, or in phase 1 or 0 after
   * a launch, with the same desired ladder.
   */
  lemma {:induction false} RoundProgress(s: State, inputs: Inputs, created: seq<nat>)
    requires Healthy(s, inputs) && DistinctAgents(inputs.desired) && UniqueSlots(s.records)
    requires |created| == |Missing(inputs.desired, s.records)|
    ensures ActionsOfPhase(Phase(s, inputs), TickActions(s, inputs))
    ensures
      var r := Round(s, inputs, created);
      && r.Ok? && Healthy(r.value, inputs) && UniqueSlots(r.value.records)
      && r.value.market.config == s.market.config.(skew := inputs.skew)
      && SameTerms(s.market, r.value.market)
      && Phase(r.value, inputs) <= (if Phase(s, inputs) == 2 then 1 else 0)
  {
    HealthyActions(s, inputs);
    hide TickActions;
    hide Healthy;
    hide Round;
    if Phase(s, inputs) == 2 {
      LaunchRound(s, inputs, created);
    } else if Phase(s, inputs) == 1 {
      UpdateRound(s, inputs, created);
    } else {
      ExecuteRound(s, inputs, created);
    }
  }

  function Rounds(s: State, inputs: Inputs, created: seq<nat>, n: nat): Result<State>
    decreases n
  {
    hide Round;
    if n == 0 then Ok(s)
    else
      var next :- Round(s, inputs, created);
      Rounds(next, inputs, [], n - 1)
  }

  /**
   * Convergence: from any slot records, two rounds of successful reports under fixed healthy inputs put
   * every desired slot live at its desired price and size; every later round keeps it so and only executes.
   */
  lemma {:induction false} Convergence(s: State, inputs: Inputs, created: seq<nat>, n: nat)
    requires Healthy(s, inputs) && DistinctAgents(inputs.desired) && UniqueSlots(s.records) && n >= Phase(s, inputs)
    requires |created| == |Missing(inputs.desired, s.records)|
    ensures
      var r := Rounds(s, inputs, created, n);
      && r.Ok? && Healthy(r.value, inputs) && UniqueSlots(r.value.records)
      && Converged(r.value.records, inputs.desired)
      && (forall a :: a in TickActions(r.value, inputs) ==> a.Execute?)
      && (n > 0 ==> r.value.market.config == s.market.config.(skew := inputs.skew))
    decreases n
  {
    hide Healthy;
    hide Round;
    hide TickActions;
    NothingLeft(inputs.desired, s.records);
    if n == 0 {
      RoundProgress(s, inputs, created);
    } else {
      RoundProgress(s, inputs, created);
      Convergence(Round(s, inputs, created).value, inputs, [], n - 1);
    }
  }

  /**
   * Rounds of one observation, each of which refreshes the row the last one left and works out its inputs from it:
   * the organic depth ratio, the signals, the ladder and the measured skew.
   */
  function ObservedRounds(s: State, o: Observation, created: seq<nat>, n: nat): Result<State>
    decreases n
  {
    hide Round;
    hide InputsOf;
    if n == 0 then Ok(s)
    else
      var next :- Round(Refreshed(s, o), InputsOf(s.market.config, o), created);
      ObservedRounds(next, o, [], n - 1)
  }

  predicate SameSlotsAs(desired: seq<Agent>, other: seq<Agent>)
  {
    && |desired| == |other|
    && forall k :: 0 <= k < |desired| ==> desired[k].side == other[k].side && desired[k].level == other[k].level
  }

  /** Which slots are desired, and whether the cap is hit, does not depend on the stored skew. */
  lemma SlotsIgnoreSkew(c: Config, o: Observation, skew: int)
    ensures
      var before, after := InputsOf(c, o), InputsOf(c.(skew := skew), o);
      && after.(desired := before.desired) == before && SameSlotsAs(after.desired, before.desired)
      && DistinctAgents(before.desired) && DistinctAgents(after.desired)
  {
    hide Ladder;
    hide AdaptiveSpread;
    hide AdaptiveSize;
    hide FlowRatio;
    hide InventoryRatio;
    hide SyntheticBook.DepthSnapshot;
    hide DistinctAgents;
    hide SameSlotsAs;
    var c' := c.(skew := skew);
    var m, m' := SignalsOf(c, o), SignalsOf(c', o);
    assert InventoryRatio(c', o.position) == InventoryRatio(c, o.position) by {
      RatioIgnoresSkew(c, o.position, skew);
    }
    DesiredDistinct(c, o);
    DesiredDistinct(c', o);
    SameSlots(c, c', AdaptiveSpread(m), AdaptiveSize(m), AdaptiveSpread(m'), AdaptiveSize(m'));
    SameSlots(c, c', 10_000, 10_000, 10_000, 10_000);
  }

  lemma RatioIgnoresSkew(c: Config, p: Position, skew: int)
    ensures InventoryRatio(c.(skew := skew), p) == InventoryRatio(c, p)
  {
  }

  lemma SameSlots(c: Config, c': Config, spreadMul: nat, sizeMul: nat, spreadMul': nat, sizeMul': nat)
    requires c.levels == c'.levels
    ensures SameSlotsAs(Ladder(c', spreadMul', sizeMul'), Ladder(c, spreadMul, sizeMul))
  {
    hide Rung;
    LadderSlots(c, spreadMul, sizeMul);
    LadderSlots(c', spreadMul', sizeMul');
  }

  /** The refreshes of one observation never graduate the market: its depth cannot have qualified for long enough. */
  predicate Quiet(m: Market, o: Observation)
  {
    var r := ReadingOf(m.config, o);
    && !Graduation.Closed(r) && !Graduation.Aged(r) && !Graduation.Traded(r)
    && (m.since.Some? ==> r.now - m.since.value < Graduation.QUALIFY_NANOS)
  }

  /** Then a refresh leaves the row healthy, with at most a new qualifying instant, and stays quiet. */
  lemma QuietRefresh(s: State, o: Observation, inputs: Inputs)
    requires Quiet(s.market, o)
    ensures Refreshed(s, o) == s.(market := s.market.(since := Refreshed(s, o).market.since))
    ensures Quiet(Refreshed(s, o).market, o)
    ensures Healthy(Refreshed(s, o), inputs) <==> Healthy(s, inputs)
  {
    hide Graduation.Closed;
    hide Graduation.Aged;
    hide Graduation.Traded;
    hide Graduation.Qualifies;
    hide SyntheticBook.DepthSnapshot;
  }

  /** Whether the market is quiet does not depend on the stored skew. */
  lemma QuietIgnoresSkew(m: Market, o: Observation, next: Market)
    requires Quiet(m, o) && next.since == m.since && next.config == m.config.(skew := next.config.skew)
    ensures Quiet(next, o)
  {
  }

  /** What one round of an observation leaves, given the inputs it works out. */
  lemma ObservedRound(s: State, o: Observation, created: seq<nat>)
    requires UniqueSlots(s.records) && Quiet(s.market, o)
    requires Healthy(s, InputsOf(s.market.config, o))
    requires |created| == |Missing(InputsOf(s.market.config, o).desired, s.records)|
    ensures
      var inputs := InputsOf(s.market.config, o);
      var r := Round(Refreshed(s, o), inputs, created);
      && DistinctAgents(inputs.desired)
      && r.Ok? && Healthy(r.value, inputs) && UniqueSlots(r.value.records) && Quiet(r.value.market, o)
      && r.value.market.config == s.market.config.(skew := inputs.skew)
      && r.value.market.hybrid == s.market.hybrid
      && Phase(r.value, inputs) <= (if Phase(s, inputs) == 2 then 1 else 0)
  {
    InputsDistinct(s.market.config, o);
    hide InputsOf;
    hide Healthy;
    hide Round;
    hide TickActions;
    hide Refreshed;
    hide Quiet;
    var inputs := InputsOf(s.market.config, o);
    QuietRefresh(s, o, inputs);
    RoundProgress(Refreshed(s, o), inputs, created);
    QuietIgnoresSkew(Refreshed(s, o).market, o, Round(Refreshed(s, o), inputs, created).value.market);
  }

  lemma InputsDistinct(c: Config, o: Observation)
    ensures DistinctAgents(InputsOf(c, o).desired)
  {
    DesiredDistinct(c, o);
  }

  /** The antecedents of convergence for a row whose skew is settled. */
  predicate Settled(s: State, o: Observation, created: seq<nat>)
  {
    var inputs := InputsOf(s.market.config, o);
    && UniqueSlots(s.records) && Quiet(s.market, o) && inputs.skew == s.market.config.skew && Healthy(s, inputs)
    && |created| == |Missing(inputs.desired, s.records)|
  }

  /** Every round works out the same inputs again, and the rounds converge. */
  lemma {:induction false} SettledRounds(s: State, o: Observation, created: seq<nat>, n: nat)
    requires Settled(s, o, created) && n >= Phase(s, InputsOf(s.market.config, o))
    ensures
      var inputs := InputsOf(s.market.config, o);
      var r := ObservedRounds(s, o, created, n);
      && r.Ok? && r.value.market.config == s.market.config && Settled(r.value, o, [])
      && r.value.market.hybrid == s.market.hybrid
      && Converged(r.value.records, inputs.desired)
    decreases n
  {
    hide InputsOf;
    hide Healthy;
    hide Round;
    hide Quiet;
    hide Refreshed;
    var inputs := InputsOf(s.market.config, o);
    InputsDistinct(s.market.config, o);
    NothingLeft(inputs.desired, s.records);
    if n > 0 {
      ObservedRound(s, o, created);
      SettledRounds(Round(Refreshed(s, o), inputs, created).value, o, [], n - 1);
    }
  }

  /** After one round nothing is missing, so other targets for the same slots need only an update. */
  lemma OtherTargetsNeedUpdate(s: State, first: Inputs, settled: Inputs)
    requires DistinctAgents(first.desired) && DistinctAgents(settled.desired)
    requires Missing(first.desired, s.records) == [] && SameSlotsAs(settled.desired, first.desired)
    ensures Missing(settled.desired, s.records) == [] && Phase(s, settled) <= 1
  {
    NothingLeft(first.desired, s.records);
    NothingLeft(settled.desired, s.records);
    forall a | a in settled.desired
      ensures !IsMissing(s.records, a)
    {
      var k :| 0 <= k < |settled.desired| && settled.desired[k] == a;
      assert first.desired[k] in first.desired;
    }
  }

  /** What convergence asks of the row, the observation and the launch receipt. */
  predicate Ready(s: State, o: Observation, created: seq<nat>)
  {
    var first := InputsOf(s.market.config, o);
    var settled := InputsOf(s.market.config.(skew := first.skew), o);
    && UniqueSlots(s.records) && Quiet(s.market, o) && Healthy(s, first)
    && |created| == |Missing(first.desired, s.records)| && settled.available >= Reserved(settled.desired)
  }

  /** The first round leaves a settled row with nothing missing. */
  lemma FirstRoundSettles(s: State, o: Observation, created: seq<nat>)
    requires Ready(s, o, created)
    ensures
      var first := InputsOf(s.market.config, o);
      var settled := InputsOf(s.market.config.(skew := first.skew), o);
      var r := Round(Refreshed(s, o), first, created);
      && r.Ok? && r.value.market.config == s.market.config.(skew := first.skew)
      && Settled(r.value, o, []) && Phase(r.value, settled) <= 1 && r.value.market.hybrid == s.market.hybrid
  {
    var first := InputsOf(s.market.config, o);
    var settled := InputsOf(s.market.config.(skew := first.skew), o);
    SlotsIgnoreSkew(s.market.config, o, first.skew);
    ObservedRound(s, o, created);
    hide InputsOf;
    hide Quiet;
    hide Round;
    hide Refreshed;
    var s1 := Round(Refreshed(s, o), first, created).value;
    PhaseOneIsComplete(s1, first);
    OtherTargetsNeedUpdate(s1, first, settled);
  }

  lemma PhaseOneIsComplete(s: State, inputs: Inputs)
    requires Phase(s, inputs) <= 1
    ensures Missing(inputs.desired, s.records) == []
  {
  }

  /**
   * Convergence of the planner and the reconciler together. The first round settles whatever skew the row starts
   * with, and with it the reference price, the organic depth ratio and so perhaps the multipliers; from the second
   * on every slot of the ladder that the settled row asks for is live and at its target.
   */
  lemma ObservedConvergence(s: State, o: Observation, created: seq<nat>, n: nat)
    requires n >= 2
    ensures Ready(s, o, created) ==>
      var first := InputsOf(s.market.config, o);
      var settled := InputsOf(s.market.config.(skew := first.skew), o);
      var r := ObservedRounds(s, o, created, n);
      && r.Ok? && r.value.market.config == s.market.config.(skew := first.skew) && Settled(r.value, o, [])
      && r.value.market.hybrid == s.market.hybrid && Converged(r.value.records, settled.desired)
  {
    hide InputsOf;
    hide Round;
    hide Ready;
    hide Settled;
    hide Phase;
    hide Refreshed;
    if Ready(s, o, created) {
      var first := InputsOf(s.market.config, o);
      FirstRoundSettles(s, o, created);
      SettledRounds(Round(Refreshed(s, o), first, created).value, o, [], n - 1);
    }
  }

  // ----- What rounds leave alone -----

  predicate Wanted(desired: seq<Agent>, side: Side, level: nat)
  {
    exists k :: 0 <= k < |desired| && desired[k].side == side && desired[k].level == level
  }

  lemma UnwantedSlots(desired: seq<Agent>, records: seq<Record>, side: Side, level: nat)
    requires DistinctAgents(desired) && !Wanted(desired, side, level)
    ensures !HasSlot(LaunchAction(Missing(desired, records)).slots, side, level)
    ensures !HasSlot(UpdateAction(Outdated(desired, records), records).slots, side, level)
  {
    MissingExact(desired, records);
    OutdatedExact(desired, records);
    var missing, outdated := Missing(desired, records), Outdated(desired, records);
    forall i | 0 <= i < |missing|
      ensures (missing[i].side, missing[i].level) != (side, level)
    {
      assert missing[i] in missing;
    }
    forall i | 0 <= i < |outdated|
      ensures (outdated[i].side, outdated[i].level) != (side, level)
    {
      assert outdated[i] in outdated;
    }
  }

  /** A round of reports leaves the quote of a slot no one wants as it is. */
  lemma RoundKeepsUnwanted(s: State, inputs: Inputs, created: seq<nat>, side: Side, level: nat)
    requires Healthy(s, inputs) && DistinctAgents(inputs.desired) && UniqueSlots(s.records)
    requires |created| == |Missing(inputs.desired, s.records)| && !Wanted(inputs.desired, side, level)
    ensures
      var r := Round(s, inputs, created);
      r.Ok? && SameQuote(Find(s.records, side, level), Find(r.value.records, side, level))
  {
    hide Wanted;
    HealthyActions(s, inputs);
    hide TickActions;
    hide Healthy;
    hide Assessed;
    var desired := inputs.desired;
    UnwantedSlots(desired, s.records, side, level);
    if Phase(s, inputs) == 2 {
      var a := LaunchAction(Missing(desired, s.records));
      SingleSettle(s.(market := Assessed(s, inputs)), a, created);
      FindOther(s.records, a.slots, ReportedIds(LaunchKind, a.slots, created), true, side, level);
    } else if Phase(s, inputs) == 1 {
      var a := UpdateAction(Outdated(desired, s.records), s.records);
      SingleSettle(s.(market := Assessed(s, inputs)), a, created);
      FindOther(s.records, a.slots, ReportedIds(UpdateKind, a.slots, created), true, side, level);
    } else {
      hide Round;
      ExecuteRound(s, inputs, created);
    }
  }

  /** So does any number of rounds: a slot outside the ladder keeps its agent, price and size, and stays live. */
  lemma {:induction false} RoundsKeepUnwanted(
    s: State, inputs: Inputs, created: seq<nat>, n: nat, side: Side, level: nat)
    requires Healthy(s, inputs) && DistinctAgents(inputs.desired) && UniqueSlots(s.records)
    requires |created| == |Missing(inputs.desired, s.records)| && !Wanted(inputs.desired, side, level)
    ensures
      var r := Rounds(s, inputs, created, n);
      r.Ok? && SameQuote(Find(s.records, side, level), Find(r.value.records, side, level))
    decreases n
  {
    hide Healthy;
    hide Round;
    hide Wanted;
    hide TickActions;
    hide ActionsOfPhase;
    hide Phase;
    hide Find;
    hide SameQuote;
    if n == 0 {
      SameQuoteChain(Find(s.records, side, level), Find(s.records, side, level), Find(s.records, side, level));
    } else {
      RoundKeepsUnwanted(s, inputs, created, side, level);
      RoundProgress(s, inputs, created);
      var next := Round(s, inputs, created).value;
      PhaseOneIsComplete(next, inputs);
      RoundsKeepUnwanted(next, inputs, [], n - 1, side, level);
      var last := Rounds(next, inputs, [], n - 1).value;
      SameQuoteChain(Find(s.records, side, level), Find(next.records, side, level), Find(last.records, side, level));
    }
  }

  /** What is live at `top` and the levels above. */
  function Above(top: nat): Record -> int { (r: Record) => if r.Live() && r.level >= top then r.Size() else 0 }

  lemma {:induction false} UpsertBelow(records: seq<Record>, slot: Slot, id: Option<nat>, active: bool, top: nat)
    requires slot.level < top
    ensures SumBy(Upsert(records, slot, id, active), Above(top)) == SumBy(records, Above(top))
  {
    if records == [] {
      SumByAppend([], UpsertRow(None, slot, id, active), Above(top));
      assert [] + [UpsertRow(None, slot, id, active)] == [UpsertRow(None, slot, id, active)];
    } else {
      var front, last := records[..|records| - 1], records[|records| - 1];
      assert records == front + [last];
      SumByAppend(front, last, Above(top));
      if last.side == slot.side && last.level == slot.level {
        SumByAppend(front, UpsertRow(Some(last), slot, id, active), Above(top));
      } else {
        UpsertBelow(front, slot, id, active, top);
        SumByAppend(Upsert(front, slot, id, active), last, Above(top));
      }
    }
  }

  lemma {:induction false} UpsertAllBelow(
    records: seq<Record>, slots: seq<Slot>, ids: seq<Option<nat>>, active: bool, top: nat)
    requires |ids| == |slots| && forall i :: 0 <= i < |slots| ==> slots[i].level < top
    ensures SumBy(UpsertAll(records, slots, ids, active), Above(top)) == SumBy(records, Above(top))
  {
    hide Above;
    if slots != [] {
      var n := |slots| - 1;
      UpsertAllBelow(records, slots[..n], ids[..n], active, top);
      UpsertBelow(UpsertAll(records, slots[..n], ids[..n], active), slots[n], ids[n], active, top);
    }
  }

  /** Storing the quote a live slot already has changes no total. */
  lemma {:induction false} UpsertSame(records: seq<Record>, slot: Slot, top: nat)
    requires Find(records, slot.side, slot.level).Some?
    requires
      var r := Find(records, slot.side, slot.level).value;
      r.Live() && r.agentId == slot.agentId && r.Size() == slot.size
    ensures SumBy(Upsert(records, slot, slot.agentId, true), Above(top)) == SumBy(records, Above(top))
  {
    var front, last := records[..|records| - 1], records[|records| - 1];
    assert records == front + [last];
    SumByAppend(front, last, Above(top));
    if last.side == slot.side && last.level == slot.level {
      SumByAppend(front, UpsertRow(Some(last), slot, slot.agentId, true), Above(top));
    } else {
      UpsertSame(front, slot, top);
      SumByAppend(Upsert(front, slot, slot.agentId, true), last, Above(top));
    }
  }

  lemma ExecuteReportKeepsAbove(s: State, a: Action, records: seq<Record>, top: nat)
    requires UniqueSlots(records) && ExecutesWell(a, records) && SameQuotes(records, s.records)
    ensures
      var r := SuccessReport(s, KindOf(a), a.slots, []);
      r.Ok? && SumBy(r.value.records, Above(top)) == SumBy(s.records, Above(top))
  {
    var slot := a.slots[0];
    var i :| 0 <= i < |records| && records[i].Live() && records[i].side == slot.side && records[i].level == slot.level
      && slot.agentId == records[i].agentId && slot.price == records[i].Price() && slot.size == records[i].Size();
    FindUnique(records, i);
    assert SameQuote(Find(records, slot.side, slot.level), Find(s.records, slot.side, slot.level));
    assert a.slots == [slot] && ReportedIds(ExecuteKind, a.slots, []) == [slot.agentId];
    SingleUpsert(s.records, slot, slot.agentId, true);
    UpsertSame(s.records, slot, top);
  }

  lemma {:induction false} SettleKeepsAbove(s: State, actions: seq<Action>, created: seq<nat>, top: nat)
    requires UniqueSlots(s.records) && forall a :: a in actions ==> ExecutesWell(a, s.records)
    ensures
      var r := Settle(s, actions, created);
      r.Ok? && SumBy(r.value.records, Above(top)) == SumBy(s.records, Above(top))
  {
    hide Above;
    if actions != [] {
      var n := |actions| - 1;
      SettleKeepsAbove(s, actions[..n], created, top);
      SettleExecutes(s, actions[..n], created);
      var before := Settle(s, actions[..n], created).value;
      assert actions[n] in actions;
      ExecuteReportKeepsAbove(before, actions[n], s.records, top);
      assert ReportedIds(ExecuteKind, actions[n].slots, []) == ReportedIds(ExecuteKind, actions[n].slots, created);
    }
  }

  predicate AllBelow(desired: seq<Agent>, top: nat) { forall a :: a in desired ==> a.level < top }

  lemma SlotsBelow(desired: seq<Agent>, records: seq<Record>, top: nat)
    requires DistinctAgents(desired) && AllBelow(desired, top)
    ensures forall i :: 0 <= i < |Missing(desired, records)| ==>
      LaunchAction(Missing(desired, records)).slots[i].level < top
    ensures forall i :: 0 <= i < |Outdated(desired, records)| ==>
      UpdateAction(Outdated(desired, records), records).slots[i].level < top
  {
    MissingExact(desired, records);
    OutdatedExact(desired, records);
    var missing, outdated := Missing(desired, records), Outdated(desired, records);
    forall i | 0 <= i < |missing|
      ensures missing[i].level < top
    {
      assert missing[i] in missing;
    }
    forall i | 0 <= i < |outdated|
      ensures outdated[i].level < top
    {
      assert outdated[i] in outdated;
    }
  }

  /** A round leaves the total that is live above the ladder as it is. */
  lemma RoundKeepsAbove(s: State, inputs: Inputs, created: seq<nat>, top: nat)
    requires Healthy(s, inputs) && DistinctAgents(inputs.desired) && UniqueSlots(s.records)
    requires |created| == |Missing(inputs.desired, s.records)| && AllBelow(inputs.desired, top)
    ensures
      var r := Round(s, inputs, created);
      r.Ok? && SumBy(r.value.records, Above(top)) == SumBy(s.records, Above(top))
  {
    hide Above;
    hide AllBelow;
    HealthyActions(s, inputs);
    hide TickActions;
    hide Healthy;
    hide Assessed;
    var desired := inputs.desired;
    SlotsBelow(desired, s.records, top);
    if Phase(s, inputs) == 2 {
      var a := LaunchAction(Missing(desired, s.records));
      SingleSettle(s.(market := Assessed(s, inputs)), a, created);
      UpsertAllBelow(s.records, a.slots, ReportedIds(LaunchKind, a.slots, created), true, top);
    } else if Phase(s, inputs) == 1 {
      var a := UpdateAction(Outdated(desired, s.records), s.records);
      SingleSettle(s.(market := Assessed(s, inputs)), a, created);
      UpsertAllBelow(s.records, a.slots, ReportedIds(UpdateKind, a.slots, created), true, top);
    } else {
      ExecuteActionsWell(s.records, inputs.executable, Assessed(s, inputs).config);
      SettleKeepsAbove(s.(market := Assessed(s, inputs)), TickActions(s, inputs), created, top);
    }
  }

  lemma DesiredBelow(c: Config, o: Observation)
    ensures AllBelow(InputsOf(c, o).desired, LevelsOf(c))
  {
    hide SignalsOf;
    hide InventorySkew;
    hide AdaptiveSpread;
    hide AdaptiveSize;
    var s := SignalsOf(c, o);
    LadderBelow(c, AdaptiveSpread(s), AdaptiveSize(s));
    LadderBelow(c, 10_000, 10_000);
  }

  lemma LadderBelow(c: Config, spreadMul: nat, sizeMul: nat)
    ensures AllBelow(Ladder(c, spreadMul, sizeMul), LevelsOf(c))
  {
    hide Ladder;
    hide Rung;
    LadderSlots(c, spreadMul, sizeMul);
  }

  lemma ObservedRoundKeepsAbove(s: State, o: Observation, created: seq<nat>)
    requires UniqueSlots(s.records) && Quiet(s.market, o)
    requires Healthy(s, InputsOf(s.market.config, o))
    requires |created| == |Missing(InputsOf(s.market.config, o).desired, s.records)|
    ensures
      var top := LevelsOf(s.market.config);
      var r := Round(Refreshed(s, o), InputsOf(s.market.config, o), created);
      r.Ok? && SumBy(r.value.records, Above(top)) == SumBy(s.records, Above(top))
  {
    hide InputsOf;
    hide Healthy;
    hide Round;
    hide Refreshed;
    hide Quiet;
    hide Above;
    hide AllBelow;
    var inputs := InputsOf(s.market.config, o);
    InputsDistinct(s.market.config, o);
    DesiredBelow(s.market.config, o);
    QuietRefresh(s, o, inputs);
    RoundKeepsAbove(Refreshed(s, o), inputs, created, LevelsOf(s.market.config));
  }

  lemma {:induction false} SettledRoundsKeepAbove(s: State, o: Observation, created: seq<nat>, n: nat)
    requires Settled(s, o, created)
    ensures
      var top := LevelsOf(s.market.config);
      var r := ObservedRounds(s, o, created, n);
      r.Ok? && SumBy(r.value.records, Above(top)) == SumBy(s.records, Above(top))
    decreases n
  {
    hide InputsOf;
    hide Healthy;
    hide Round;
    hide Refreshed;
    hide Quiet;
    hide Above;
    if n > 0 {
      var inputs := InputsOf(s.market.config, o);
      ObservedRound(s, o, created);
      ObservedRoundKeepsAbove(s, o, created);
      PhaseOneIsComplete(Round(Refreshed(s, o), inputs, created).value, inputs);
      SettledRoundsKeepAbove(Round(Refreshed(s, o), inputs, created).value, o, [], n - 1);
    }
  }

  /** However long the rounds go on, what was live above the ladder when they started stays live there. */
  lemma {:induction false} ObservedRoundsKeepAbove(s: State, o: Observation, created: seq<nat>, n: nat)
    requires n >= 1
    ensures Ready(s, o, created) ==>
      var top := LevelsOf(s.market.config);
      var r := ObservedRounds(s, o, created, n);
      r.Ok? && SumBy(r.value.records, Above(top)) == SumBy(s.records, Above(top))
  {
    hide InputsOf;
    hide Round;
    hide Settled;
    hide Phase;
    hide Refreshed;
    hide Quiet;
    hide Healthy;
    hide Above;
    if Ready(s, o, created) {
      FirstRoundSettles(s, o, created);
      ObservedRoundKeepsAbove(s, o, created);
      SettledRoundsKeepAbove(Round(Refreshed(s, o), InputsOf(s.market.config, o), created).value, o, [], n - 1);
    }
  }

  // ----- Shutdown -----

  /**
   * A market assessed as paused, graduated or in error deactivates exactly its live agents, and nothing is
   * live once that write is reported successful.
   */
  lemma {:induction false} ShutdownIsComplete(s: State, inputs: Inputs)
    requires UniqueSlots(s.records) && HasLive(s.records)
    requires var st := Assessed(s, inputs).status; st.Paused? || st.Graduated? || st.Error?
    ensures |TickActions(s, inputs)| == 1 && TickActions(s, inputs)[0].Deactivate?
    ensures forall id :: id in TickActions(s, inputs)[0].ids <==>
      exists i :: 0 <= i < |s.records| && s.records[i].active && s.records[i].agentId == Some(id)
    ensures
      var r := Round(s, inputs, []);
      r.Ok? && !HasLive(r.value.records) && r.value.market.status == Assessed(s, inputs).status
  {
    hide Assessed;
    LiveRecordsExact(s.records);
    var live := LiveRecords(s.records);
    var s1 := s.(market := Assessed(s, inputs));
    var a := DeactivateAction(live, s1.market.config);
    DeactivatedIds(s.records, s1.market.config);
    SingleSettle(s1, a, []);
    var ids := ReportedIds(DeactivateKind, a.slots, []);
    var records' := UpsertAll(s.records, a.slots, ids, false);
    UpsertAllKeepsUnique(s.records, a.slots, ids, false);
    LiveSlotsDistinct(s.records, s1.market.config);
    if HasLive(records') {
      var k :| 0 <= k < |records'| && records'[k].Live();
      var side, level := records'[k].side, records'[k].level;
      FindUnique(records', k);
      if i :| 0 <= i < |a.slots| && (a.slots[i].side, a.slots[i].level) == (side, level) {
        FindUpserted(s.records, a.slots, ids, false, i);
        assert false;
      } else {
        FindOther(s.records, a.slots, ids, false, side, level);
        var i := FoundIsRecorded(s.records, side, level);
        LiveHasSlot(s.records, s1.market.config, i);
        assert false;
      }
    }
  }

  lemma LiveHasSlot(records: seq<Record>, c: Config, i: nat)
    requires forall r :: r in LiveRecords(records) ==> r.Live()
    requires i < |records| && records[i].Live()
    ensures
      var slots := DeactivateAction(LiveRecords(records), c).slots;
      exists j :: 0 <= j < |slots| && slots[j].side == records[i].side && slots[j].level == records[i].level
  {
    LiveRecordsExact(records);
    var live := LiveRecords(records);
    assert records[i] in live;
    var j :| 0 <= j < |live| && live[j] == records[i];
    assert DeactivateAction(live, c).slots[j] == SlotOfRecord(live[j], c);
  }

  lemma {:induction false} DeactivatedIds(records: seq<Record>, c: Config)
    requires forall r :: r in LiveRecords(records) ==> r.Live()
    ensures forall id :: id in DeactivateAction(LiveRecords(records), c).ids <==>
      exists i :: 0 <= i < |records| && records[i].active && records[i].agentId == Some(id)
  {
    LiveRecordsExact(records);
    var live := LiveRecords(records);
    var ids := DeactivateAction(live, c).ids;
    forall id | id in ids
      ensures exists i :: 0 <= i < |records| && records[i].active && records[i].agentId == Some(id)
    {
      var k :| 0 <= k < |ids| && ids[k] == id;
      assert live[k] in live;
      var i :| 0 <= i < |records| && records[i] == live[k];
    }
    forall i | 0 <= i < |records| && records[i].active && records[i].agentId.Some?
      ensures records[i].agentId.value in ids
    {
      assert records[i].Live() && records[i] in live;
      var k :| 0 <= k < |live| && live[k] == records[i];
      assert ids[k] == records[i].agentId.value;
    }
  }

  lemma {:induction false} LiveSlotsDistinct(records: seq<Record>, c: Config)
    requires UniqueSlots(records) && forall r :: r in LiveRecords(records) ==> r.Live()
    ensures DistinctSlots(DeactivateAction(LiveRecords(records), c).slots)
  {
    LiveUnique(records);
  }

  lemma {:induction false} LiveUnique(records: seq<Record>)
    requires UniqueSlots(records)
    ensures UniqueSlots(LiveRecords(records))
  {
    if records != [] {
      var before, last := records[..|records| - 1], records[|records| - 1];
      LiveUnique(before);
      LiveRecordsExact(before);
      forall i | 0 <= i < |LiveRecords(before)|
        ensures (LiveRecords(before)[i].side, LiveRecords(before)[i].level) != (last.side, last.level)
      {
        assert LiveRecords(before)[i] in before;
        var k :| 0 <= k < |before| && before[k] == LiveRecords(before)[i];
        assert records[k] == before[k];
      }
    }
  }

  // ----- Funding safety -----

  function WrittenSize(a: Action): int
  {
    match a
    case Launch(inputs, _) => SumBy(inputs, (i: LaunchInput) => i.size)
    case Update(updates, _) => SumBy(updates, (u: UpdateInput) => u.size)
    case _ => 0
  }

  /** What these rungs offer together. */
  function Offered(desired: seq<Agent>): int { SumBy(desired, SyntheticBook.SizeOf()) }

  lemma LaunchedSize(missing: seq<Agent>)
    ensures WrittenSize(LaunchAction(missing)) == Offered(missing)
  {
    SumByCongruent(missing, SyntheticBook.SizeOf(), LaunchAction(missing).inputs, (i: LaunchInput) => i.size);
  }

  lemma UpdatedSize(outdated: seq<Agent>, records: seq<Record>)
    requires forall a :: a in outdated ==> NeedsUpdate(records, a)
    ensures WrittenSize(UpdateAction(outdated, records)) == Offered(outdated)
  {
    var updates := UpdateAction(outdated, records).updates;
    SumByCongruent(outdated, SyntheticBook.SizeOf(), updates, (u: UpdateInput) => u.size);
  }

  lemma {:induction false} ReservedIsSum(desired: seq<Agent>)
    ensures Offered(desired) >= 0
    ensures Reserved(desired) == Min(Offered(desired), U64_MAX)
  {
    if desired != [] {
      var n := |desired| - 1;
      ReservedIsSum(desired[..n]);
      assert desired == desired[..n] + [desired[n]];
      SumByAppend(desired[..n], desired[n], SyntheticBook.SizeOf());
    }
  }

  lemma {:induction false} MissingWithinDesired(desired: seq<Agent>, records: seq<Record>)
    ensures Offered(Missing(desired, records)) <= Offered(desired)
  {
    if desired != [] {
      var before, last := desired[..|desired| - 1], desired[|desired| - 1];
      MissingWithinDesired(before, records);
      assert desired == before + [last];
      SumByAppend(before, last, SyntheticBook.SizeOf());
      SumByAppend(Missing(before, records), last, SyntheticBook.SizeOf());
      assert Missing(before, records) + [] == Missing(before, records);
    }
  }

  lemma {:induction false} OutdatedWithinDesired(desired: seq<Agent>, records: seq<Record>)
    ensures Offered(Outdated(desired, records)) <= Offered(desired)
  {
    if desired != [] {
      var before, last := desired[..|desired| - 1], desired[|desired| - 1];
      OutdatedWithinDesired(before, records);
      assert desired == before + [last];
      SumByAppend(before, last, SyntheticBook.SizeOf());
      SumByAppend(Outdated(before, records), last, SyntheticBook.SizeOf());
      assert Outdated(before, records) + [] == Outdated(before, records);
    }
  }

  lemma WrittenWithinDesired(desired: seq<Agent>, records: seq<Record>)
    ensures WrittenSize(LaunchAction(Missing(desired, records))) <= Offered(desired)
    ensures WrittenSize(UpdateAction(Outdated(desired, records), records)) <= Offered(desired)
  {
    MissingWithinDesired(desired, records);
    OutdatedWithinDesired(desired, records);
    LaunchedSize(Missing(desired, records));
    UpdatedSize(Outdated(desired, records), records);
  }

  /** The desired ladder of a registered market never offers more than the seed. */
  lemma {:induction false} DesiredWithinSeed(c: Config, o: Observation)
    requires ValidConfig(c)
    ensures 0 <= Offered(Desired(c, o)) <= c.seed
  {
    var s := SignalsOf(c, o);
    SyntheticBook.LadderConservesSeed(c, AdaptiveSpread(s), AdaptiveSize(s));
    SyntheticBook.LadderConservesSeed(c, 10_000, 10_000);
  }

  /** The conditions under which a write that commits funds may be prepared, and its size bounds. */
  predicate Funded(s: State, inputs: Inputs, a: Action)
  {
    a.Deactivate? ||
    (&& inputs.approved && !inputs.capHit && s.market.failures < 3
     && WrittenSize(a) <= inputs.available && WrittenSize(a) <= s.market.config.seed)
  }

  /** Every write a tick prepares is funded, for any ladder that offers no more than the seed. */
  lemma {:induction false} TickIsFunded(s: State, inputs: Inputs, a: Action)
    requires ValidConfig(s.market.config) && Offered(inputs.desired) <= s.market.config.seed
    requires a in TickActions(s, inputs)
    ensures Funded(s, inputs, a)
  {
    ReservedIsSum(inputs.desired);
    WrittenWithinDesired(inputs.desired, s.records);
    ExecuteActionsWell(s.records, inputs.executable, Assessed(s, inputs).config);
  }

  lemma FundedIgnoresRefresh(s: State, o: Observation, inputs: Inputs, a: Action)
    ensures Funded(Refreshed(s, o), inputs, a) <==> Funded(s, inputs, a)
    ensures Refreshed(s, o).market.config == s.market.config
  {
    RefreshedKeeps(s, o);
    hide Refreshed;
  }

  lemma {:induction false} TickAllFunded(s: State, o: Observation)
    requires ValidConfig(s.market.config)
    ensures AllFunded(s, o)
  {
    hide TickActions;
    hide Funded;
    hide SignalsOf;
    hide InventorySkew;
    DesiredWithinSeed(s.market.config, o);
    var inputs := InputsOf(s.market.config, o);
    forall a | a in TickActions(Refreshed(s, o), inputs)
      ensures Funded(s, inputs, a)
    {
      TickIsFunded(Refreshed(s, o), inputs, a);
      FundedIgnoresRefresh(s, o, inputs, a);
    }
  }

  /**
   * What can happen to a market: ticks, reads of the order book, which refresh the row as well but do not assess it,
   * reports and the administrators' interventions.
   */
  datatype Event =
    | TickEvent(o: Observation)
    | ReadEvent(o: Observation)
    | ReportEvent(success: bool, kind: Kind, slots: seq<Slot>, created: seq<nat>)
    | PauseEvent
    | ResumeEvent
    | GraduateEvent
    | SkewEvent(skew: int)
    | BackfillEvent(preset: Option<Preset>, strategy: Option<Strategy>)
    | RegisterEvent(creator: nat, hybrid: bool, config: Config)
  {
    predicate Refreshes() { TickEvent? || ReadEvent? }
  }

  /** A backfill puts a preset's ladder in place, and then perhaps another strategy. */
  function Backfilled(c: Config, preset: Option<Preset>, strategy: Option<Strategy>): Config
  {
    var d := if preset.Some? then WithPreset(c, preset.value) else c;
    if strategy.Some? then d.(strategy := strategy.value) else d
  }

  /** A registration overwrites the row, also one that exists, except for the instant its depth qualified. */
  function Registered(m: Market, creator: nat, hybrid: bool, c: Config): Market
  {
    Market(creator, c.(skew := 0), hybrid, if hybrid then PendingLaunch else Disabled, None, 0, m.since, None)
  }

  function LimitedSkew(c: Config, skew: int): int
  {
    var cap: int := c.exposureCap;
    Clamp(skew, -cap, cap)
  }

  function Step(s: State, e: Event): State
  {
    var m := s.market;
    match e
    case TickEvent(o) => s.(market := Assessed(Refreshed(s, o), InputsOf(m.config, o)))
    case ReadEvent(o) => Refreshed(s, o)
    case ReportEvent(success, kind, slots, created) => (match Report(s, success, kind, slots, created)
                                                         case Ok(next) => next
                                                         case Err => s)
    case PauseEvent => s.(market := m.(status := Paused, pauseReason := Some(AdminPaused)))
    case ResumeEvent => s.(market := m.(status := PendingLaunch, pauseReason := None, failures := 0))
    case GraduateEvent =>
      s.(market := m.(status := Graduated, pauseReason := Some(GraduationPending), graduation := Some(Manual)))
    case SkewEvent(skew) =>
      if m.hybrid then s.(market := m.(config := m.config.(skew := LimitedSkew(m.config, skew)))) else s
    case BackfillEvent(preset, strategy) =>
      if m.hybrid then s.(market := m.(config := Backfilled(m.config, preset, strategy))) else s
    case RegisterEvent(creator, hybrid, c) =>
      if Registrable(c, hybrid) then s.(market := Registered(m, creator, hybrid, c)) else s
  }

  predicate AllFunded(s: State, o: Observation)
  {
    var inputs := InputsOf(s.market.config, o);
    forall a :: a in TickActions(Refreshed(s, o), inputs) ==> Funded(s, inputs, a)
  }

  /** Every action of every tick of the run is funded. */
  predicate FundedRun(s: State, events: seq<Event>)
    decreases |events|
  {
    hide Step;
    hide AllFunded;
    events == []
    || ((events[0].TickEvent? ==> AllFunded(s, events[0].o)) && FundedRun(Step(s, events[0]), events[1..]))
  }

  lemma StepKeepsConfigValid(s: State, e: Event)
    requires ValidConfig(s.market.config)
    ensures ValidConfig(Step(s, e).market.config)
    ensures e.RegisterEvent? || Step(s, e).market.config.seed == s.market.config.seed
  {
    if e.Refreshes() {
      RefreshedKeeps(s, e.o);
      hide Refreshed;
    }
  }

  /** Funding safety: no run from a registered market ever prepares an unfunded write. */
  lemma {:induction false} FundingSafety(s: State, events: seq<Event>)
    requires ValidConfig(s.market.config)
    ensures FundedRun(s, events)
    decreases |events|
  {
    hide AllFunded;
    if events != [] {
      if events[0].TickEvent? {
        TickAllFunded(s, events[0].o);
      }
      StepKeepsConfigValid(s, events[0]);
      hide Step;
      FundingSafety(Step(s, events[0]), events[1..]);
    }
  }

  // ----- An administrator's pause -----

  predicate Held(s: State) { s.market.status.Paused? && s.market.pauseReason == Some(AdminPaused) }

  /**
   * Every event but a resume, a graduation, another registration, a success of another write than a withdrawal, and
   * a third failure.
   */
  predicate KeepsHold(s: State, e: Event)
  {
    match e
    case ReportEvent(success, kind, slots, created) =>
      if success then kind.DeactivateKind? || (kind.LaunchKind? && |created| != |slots|)
      else s.market.failures < 2
    case ResumeEvent => false
    case GraduateEvent => false
    case RegisterEvent(_, hybrid, c) => !Registrable(c, hybrid)
    case _ => true
  }

  /** Exactly which events lift an administrator's pause. */
  lemma HoldLiftedExactly(s: State, e: Event)
    requires Held(s)
    ensures Held(Step(s, e)) <==> KeepsHold(s, e)
  {
    if e.Refreshes() {
      RefreshedKeeps(s, e.o);
    }
    hide InputsOf;
    hide Refreshed;
    hide Registrable;
  }

  /** The state after the first `n` events of a run. */
  function After(s: State, events: seq<Event>, n: nat): State
    requires n <= |events|
  {
    if n == 0 then s else Step(After(s, events, n - 1), events[n - 1])
  }

  lemma HeldTickWithdraws(s: State, o: Observation)
    requires Held(s)
    ensures forall a :: a in TickActions(Refreshed(s, o), InputsOf(s.market.config, o)) ==> a.Deactivate?
  {
    RefreshedKeeps(s, o);
    hide Refreshed;
    hide InputsOf;
  }

  /** As long as none of those happens, a paused market stays paused and its ticks at most withdraw what is live. */
  lemma {:induction false} HeldRunOnlyWithdraws(s: State, events: seq<Event>, n: nat)
    requires Held(s) && n <= |events|
    requires forall k :: 0 <= k < n ==> KeepsHold(After(s, events, k), events[k])
    ensures Held(After(s, events, n))
    ensures n < |events| && events[n].TickEvent? ==>
      var now, o := After(s, events, n), events[n].o;
      forall a :: a in TickActions(Refreshed(now, o), InputsOf(now.market.config, o)) ==> a.Deactivate?
  {
    hide Step;
    hide KeepsHold;
    hide Held;
    hide TickActions;
    hide InputsOf;
    hide Refreshed;
    if n > 0 {
      HeldRunOnlyWithdraws(s, events, n - 1);
      HoldLiftedExactly(After(s, events, n - 1), events[n - 1]);
    }
    if n < |events| && events[n].TickEvent? {
      HeldTickWithdraws(After(s, events, n), events[n].o);
    }
  }

  /**
   * One way a pause is lost without anyone resuming: a third failed report turns the market to error, a successful
   * withdrawal clears the failures, and the next tick with healthy inputs quotes again.
   */
  lemma FailuresLiftHold(s: State, o: Observation, slots: seq<Slot>)
    requires Held(s) && s.market.failures == 2
    ensures
      var inputs := InputsOf(s.market.config, o);
      !inputs.capHit && inputs.approved && inputs.available >= Reserved(inputs.desired) ==>
        var failed := Step(s, ReportEvent(false, DeactivateKind, slots, []));
        var withdrawn := Step(failed, ReportEvent(true, DeactivateKind, slots, []));
        var status := Step(withdrawn, TickEvent(o)).market.status;
        failed.market.status.Error? && (status.Active? || status.PendingLaunch?)
  {
    hide InputsOf;
    hide Refreshed;
    RefreshedKeeps(Step(Step(s, ReportEvent(false, DeactivateKind, slots, [])),
                        ReportEvent(true, DeactivateKind, slots, [])), o);
    hide UpsertAll;
  }

  /** A pass over the fleet emits no more than its limit, and only what the single markets' ticks prepare. */
  lemma {:induction false} FleetEmitsTickActions(markets: seq<State>, obs: seq<Option<Observation>>, limit: nat, n: nat)
    requires n <= |markets| == |obs|
    ensures
      var f := FleetTick(markets, obs, limit, n);
      && |f.actions| <= limit
      && (forall k :: 0 <= k < |f.actions| ==>
            var e := f.actions[k];
            && e.market < n && obs[e.market].Some?
            && e.action in TickActions(Refreshed(markets[e.market], obs[e.market].value),
                                       InputsOf(markets[e.market].market.config, obs[e.market].value)))
      && (forall k :: n <= k < |markets| ==> f.markets[k] == markets[k])
  {
    hide TickActions;
    hide Assessed;
    hide InputsOf;
    hide Refreshed;
    if n > 0 {
      FleetEmitsTickActions(markets, obs, limit, n - 1);
    }
  }

  // ----- Graduation over these runs -----

  /** What an event is to the row the refresh keeps: the refresh of a tick or a read, then whatever else it writes. */
  function RefreshSteps(s: State, e: Event): seq<Graduation.Step>
  {
    var after := RowOf(Step(s, e).market);
    var other := Graduation.OtherStep(after.hybrid, after.status, after.reason);
    if e.Refreshes() then [Graduation.RefreshStep(ReadingOf(s.market.config, e.o)), other] else [other]
  }

  /** Every event moves the refresh's row by its steps. */
  lemma {:induction false} EventMovesRow(s: State, e: Event)
    ensures
      var steps := RefreshSteps(s, e);
      Graduation.RowAt(RowOf(s.market), steps, |steps|) == RowOf(Step(s, e).market)
  {
    hide InputsOf;
    hide Graduation.Refresh;
    hide Report;
    var steps := RefreshSteps(s, e);
    var row := RowOf(s.market);
    assert Graduation.RowAt(row, steps, 0) == row;
    if e.Refreshes() {
      Graduation.RefreshKeepsMode(row, ReadingOf(s.market.config, e.o));
      assert Graduation.RowAt(row, steps, 1) == Graduation.Refresh(row, ReadingOf(s.market.config, e.o));
      assert RowOf(Refreshed(s, e.o).market) == Graduation.Refresh(row, ReadingOf(s.market.config, e.o));
    } else if e.ReportEvent? {
      ReportKeepsSince(s, e.success, e.kind, e.slots, e.created);
    }
  }

  lemma ReportKeepsSince(s: State, success: bool, kind: Kind, slots: seq<Slot>, created: seq<nat>)
    ensures Report(s, success, kind, slots, created).Ok? ==>
      Report(s, success, kind, slots, created).value.market.since == s.market.since
  {
    hide UpsertAll;
  }

  /** All that the first `n` events of a run are to that row. */
  function RunSteps(s: State, events: seq<Event>, n: nat): seq<Graduation.Step>
    requires n <= |events|
  {
    if n == 0 then [] else RunSteps(s, events, n - 1) + RefreshSteps(After(s, events, n - 1), events[n - 1])
  }

  lemma {:induction false} RunMovesRow(s: State, events: seq<Event>, n: nat)
    requires n <= |events|
    ensures
      var steps := RunSteps(s, events, n);
      Graduation.RowAt(RowOf(s.market), steps, |steps|) == RowOf(After(s, events, n).market)
  {
    hide Step;
    hide RefreshSteps;
    hide Graduation.RowAt;
    hide RowOf;
    if n == 0 {
      NoSteps(RowOf(s.market));
    } else {
      RunMovesRow(s, events, n - 1);
      var now := After(s, events, n - 1);
      var steps, more := RunSteps(s, events, n - 1), RefreshSteps(now, events[n - 1]);
      EventMovesRow(now, events[n - 1]);
      Graduation.RowAtConcat(RowOf(s.market), steps, more, |more|);
    }
  }

  lemma NoSteps(row: Graduation.Row)
    ensures Graduation.RowAt(row, [], 0) == row
  {
  }

  /** The refresh of this tick or read graduates the market for its organic depth. */
  predicate GraduatesOrganically(s: State, o: Observation)
  {
    var after := Refreshed(s, o).market;
    s.market.status.Active? && after.status.Graduated? && after.graduation == Some(OrganicDepth)
  }

  /**
   * The dwell time in these runs: whatever ticks, reads, reports, interventions and registrations came before, a tick
   * or a read graduates the market for its organic depth exactly when it measures qualifying depth and an earlier one
   * of the run, at least 24 hours before, did too, with every measurement in between qualifying.
   */
  lemma {:induction false} RunDwells(s: State, events: seq<Event>, k: nat)
    requires s.market.since.None? && k < |events| && events[k].Refreshes()
    ensures
      var now, o := After(s, events, k), events[k].o;
      var steps := RunSteps(s, events, k);
      var marks := Graduation.Marks(RowOf(s.market), steps, |steps|);
      var last := Graduation.MarkOf(RowOf(now.market), Graduation.RefreshStep(ReadingOf(now.market.config, o)));
      Graduation.MonotoneClock(marks) ==>
        (GraduatesOrganically(now, o) <==>
          && last.Hit?
          && exists j: nat :: Graduation.Streak(marks, j) && last.time - marks[j].time >= Graduation.QUALIFY_NANOS)
  {
    hide Step;
    hide After;
    hide RunSteps;
    hide ReadingOf;
    hide RowOf;
    hide GraduatesOrganically;
    hide Graduation.Marks;
    hide Graduation.MarkOf;
    hide Graduation.MonotoneClock;
    hide Graduation.Streak;
    hide Graduation.RowAt;
    var now, o := After(s, events, k), events[k].o;
    var steps := RunSteps(s, events, k);
    var step := Graduation.RefreshStep(ReadingOf(now.market.config, o));
    RunMovesRow(s, events, k);
    var marks := Graduation.Marks(RowOf(s.market), steps, |steps|);
    if Graduation.MonotoneClock(marks) {
      SinceOfRow(s);
      Graduation.DwellTime(RowOf(s.market), steps, |steps|, step);
      GraduationIsOrganic(now, o);
    }
  }

  lemma SinceOfRow(s: State)
    ensures RowOf(s.market).since == s.market.since
  {
  }

  lemma GraduationIsOrganic(s: State, o: Observation)
    ensures
      GraduatesOrganically(s, o)
      <==> Graduation.GraduatesAt(RowOf(s.market), Graduation.RefreshStep(ReadingOf(s.market.config, o)))
  {
    hide Graduation.Refresh;
    hide ReadingOf;
  }
}
