/**
 * What one pass commits for a creator, whose markets are each compared with the same vault balance, and what is
 * live after convergence, counting records above the ladder.
 */
module FleetProperties {
  import opened Numbers
  import opened Options
  import opened Sums
  import opened Planner
  import opened Lifecycle
  import PlannerProperties
  import SyntheticBook
  import opened Reconciler
  import opened ReconcilerProperties

  // ----- What a pass writes for one creator -----

  function Written(): Action -> int { (a: Action) => WrittenSize(a) }

  /** What one action writes for `creator`. */
  function WrittenTo(markets: seq<State>, creator: nat): Emitted -> int
  {
    (e: Emitted) =>
      if e.market < |markets| && markets[e.market].market.creator == creator then WrittenSize(e.action) else 0
  }

  /** What one market's turn prepares to write. */
  function Committed(s: State, o: Option<Observation>): int
  {
    if Skipped(s.market, o) then 0
    else SumBy(TickActions(Refreshed(s, o.value), InputsOf(s.market.config, o.value)), Written())
  }

  /** The turns of the creator's markets among the first `n`, together. */
  function CommittedBy(markets: seq<State>, obs: seq<Option<Observation>>, creator: nat, n: nat): int
    requires n <= |markets| == |obs|
  {
    if n == 0 then 0
    else CommittedBy(markets, obs, creator, n - 1)
         + if markets[n - 1].market.creator == creator then Committed(markets[n - 1], obs[n - 1]) else 0
  }

  lemma WrittenNonNegative(a: Action)
    ensures WrittenSize(a) >= 0
  {
    match a
    case Launch(inputs, _) => SumByNonNegative(inputs, (i: LaunchInput) => i.size);
    case Update(updates, _) => SumByNonNegative(updates, (u: UpdateInput) => u.size);
    case _ =>
  }

  lemma AllWrittenNonNegative(actions: seq<Action>)
    ensures SumBy(actions, Written()) >= 0
  {
    forall a | a in actions
      ensures Written()(a) >= 0
    {
      WrittenNonNegative(a);
    }
    SumByNonNegative(actions, Written());
  }

  /** Cutting off a market's actions at the limit never adds to what is written. */
  lemma EmittedSum(markets: seq<State>, creator: nat, i: nat, actions: seq<Action>, room: nat)
    requires i < |markets|
    ensures
      var emitted := SumBy(Emit(i, actions, room), WrittenTo(markets, creator));
      if markets[i].market.creator != creator then emitted == 0
      else 0 <= emitted <= SumBy(actions, Written()) && (|actions| <= room ==> emitted == SumBy(actions, Written()))
  {
    hide WrittenSize;
    hide SumBy;
    var k := Min(|actions|, room);
    var kept := actions[..k];
    if markets[i].market.creator == creator {
      SumByCongruent(kept, Written(), Emit(i, actions, room), WrittenTo(markets, creator));
      assert actions == kept + actions[k..];
      SumByConcat(kept, actions[k..], Written());
      AllWrittenNonNegative(kept);
      AllWrittenNonNegative(actions[k..]);
      assert |actions| <= room ==> kept == actions;
    } else {
      SumByCongruent(Emit(i, actions, room), WrittenTo(markets, creator), kept, (a: Action) => 0);
      SumOfNothing(kept);
    }
  }

  lemma {:induction false} SumOfNothing<T>(xs: seq<T>)
    ensures SumBy(xs, (x: T) => 0) == 0
  {
    if xs != [] {
      SumOfNothing(xs[1..]);
    }
  }

  /**
   * What a pass writes for a creator is what the turns of the creator's markets prepare, unless the action limit
   * cuts it short. So, short of the limit, a pass overdraws a balance exactly when those turns together exceed it.
   */
  lemma {:induction false} PassWrites(
    markets: seq<State>, obs: seq<Option<Observation>>, limit: nat, n: nat, creator: nat)
    requires n <= |markets| == |obs|
    ensures
      var f := FleetTick(markets, obs, limit, n);
      var written := SumBy(f.actions, WrittenTo(markets, creator));
      && written <= CommittedBy(markets, obs, creator, n)
      && (|f.actions| < limit ==> written == CommittedBy(markets, obs, creator, n))
  {
    hide TickActions;
    hide Assessed;
    hide InputsOf;
    hide Refreshed;
    hide WrittenTo;
    hide Emit;
    if n > 0 {
      PassWrites(markets, obs, limit, n - 1, creator);
      var before := FleetTick(markets, obs, limit, n - 1);
      CommittedNonNegative(markets[n - 1], obs[n - 1]);
      if |before.actions| < limit && !Skipped(markets[n - 1].market, obs[n - 1]) {
        var o := obs[n - 1].value;
        var actions := TickActions(Refreshed(markets[n - 1], o), InputsOf(markets[n - 1].market.config, o));
        var room := limit - |before.actions|;
        EmittedSum(markets, creator, n - 1, actions, room);
        SumByConcat(before.actions, Emit(n - 1, actions, room), WrittenTo(markets, creator));
      }
    }
  }

  lemma CommittedNonNegative(s: State, o: Option<Observation>)
    ensures Committed(s, o) >= 0
  {
    hide TickActions;
    if !Skipped(s.market, o) {
      AllWrittenNonNegative(TickActions(Refreshed(s, o.value), InputsOf(s.market.config, o.value)));
    }
  }

  lemma {:induction false} ExecutionsWriteNothing(actions: seq<Action>)
    requires forall a :: a in actions ==> a.Execute?
    ensures SumBy(actions, Written()) == 0
  {
    if actions != [] {
      assert actions[0] in actions;
      ExecutionsWriteNothing(actions[1..]);
    }
  }

  lemma SingleWrite(a: Action)
    ensures SumBy([a], Written()) == WrittenSize(a)
  {
    assert [a][1..] == [];
  }

  /** One market's turn writes at most one launch or update: at most the balance it read, and at most its ladder. */
  lemma TurnIsFunded(s: State, inputs: Inputs)
    requires Offered(inputs.desired) <= U64_MAX
    ensures 0 <= SumBy(TickActions(s, inputs), Written()) <= inputs.available
    ensures SumBy(TickActions(s, inputs), Written()) <= Offered(inputs.desired)
  {
    hide WrittenSize;
    hide Reserved;
    var actions := TickActions(s, inputs);
    AllWrittenNonNegative(actions);
    ReservedIsSum(inputs.desired);
    WrittenWithinDesired(inputs.desired, s.records);
    ExecuteActionsWell(s.records, inputs.executable, Assessed(s, inputs).config);
    if forall a :: a in actions ==> a.Execute? {
      ExecutionsWriteNothing(actions);
    } else {
      SingleWrite(actions[0]);
      assert actions == [actions[0]];
      WithdrawalsWriteNothing(actions[0]);
    }
  }

  lemma WithdrawalsWriteNothing(a: Action)
    ensures a.Deactivate? ==> WrittenSize(a) == 0
  {
  }

  function CreatorMarkets(markets: seq<State>, creator: nat, n: nat): nat
    requires n <= |markets|
  {
    if n == 0 then 0
    else CreatorMarkets(markets, creator, n - 1) + if markets[n - 1].market.creator == creator then 1 else 0
  }

  function CreatorSeeds(markets: seq<State>, creator: nat, n: nat): nat
    requires n <= |markets|
  {
    if n == 0 then 0
    else CreatorSeeds(markets, creator, n - 1)
         + if markets[n - 1].market.creator == creator then markets[n - 1].market.config.seed else 0
  }

  predicate SharedBalance(markets: seq<State>, obs: seq<Option<Observation>>, creator: nat, balance: nat)
    requires |markets| == |obs|
  {
    forall k :: 0 <= k < |markets| && markets[k].market.creator == creator && obs[k].Some? ==>
      obs[k].value.available == balance
  }

  /**
   * The bound that holds for a creator whose markets all read the same vault balance: one pass prepares to write at
   * most that balance once per market, and at most the markets' seeds together.
   */
  lemma {:induction false} CreatorBound(
    markets: seq<State>, obs: seq<Option<Observation>>, limit: nat, n: nat, creator: nat, balance: nat)
    requires n <= |markets| == |obs| && SharedBalance(markets, obs, creator, balance)
    requires forall k :: 0 <= k < |markets| ==> ValidConfig(markets[k].market.config)
    ensures CommittedBy(markets, obs, creator, n) <= CreatorMarkets(markets, creator, n) * balance
    ensures CommittedBy(markets, obs, creator, n) <= CreatorSeeds(markets, creator, n)
    ensures SumBy(FleetTick(markets, obs, limit, n).actions, WrittenTo(markets, creator))
         <= CommittedBy(markets, obs, creator, n)
  {
    hide Committed;
    hide FleetTick;
    hide ValidConfig;
    PassWrites(markets, obs, limit, n, creator);
    if n > 0 {
      CreatorBound(markets, obs, limit, n - 1, creator, balance);
      CommittedIsFunded(markets[n - 1], obs[n - 1]);
      assert (CreatorMarkets(markets, creator, n - 1) + 1) * balance
          == CreatorMarkets(markets, creator, n - 1) * balance + balance;
    }
  }

  lemma CommittedIsFunded(s: State, o: Option<Observation>)
    requires ValidConfig(s.market.config)
    ensures Committed(s, o) <= s.market.config.seed
    ensures o.Some? ==> Committed(s, o) <= o.value.available
    ensures o.None? ==> Committed(s, o) == 0
  {
    hide TickActions;
    hide Desired;
    hide SignalsOf;
    hide InventorySkew;
    if !Skipped(s.market, o) {
      DesiredWithinSeed(s.market.config, o.value);
      TurnIsFunded(Refreshed(s, o.value), InputsOf(s.market.config, o.value));
    }
  }

  // ----- When the shared balance is overdrawn -----

  /**
   * What a market's turn has to write, from the row, the inputs and the records it starts with: what its missing
   * slots are to offer or, when none is missing, its outdated ones; nothing when it may not quote.
   */
  function ToWrite(s: State, inputs: Inputs): int
  {
    if !Healthy(s, inputs) then 0
    else if Missing(inputs.desired, s.records) != [] then Offered(Missing(inputs.desired, s.records))
    else Offered(Outdated(inputs.desired, s.records))
  }

  lemma {:induction false} WithdrawalsSum(actions: seq<Action>)
    requires forall a :: a in actions ==> a.Deactivate?
    ensures SumBy(actions, Written()) == 0
  {
    if actions != [] {
      assert actions[0] in actions;
      WithdrawalsSum(actions[1..]);
    }
  }

  /** A turn writes exactly that. */
  lemma TurnWrites(s: State, inputs: Inputs)
    ensures SumBy(TickActions(s, inputs), Written()) == ToWrite(s, inputs)
  {
    hide WrittenSize;
    hide Assessed;
    QuotesIffHealthy(s, inputs);
    if !Healthy(s, inputs) {
      hide TickActions;
      WithdrawalsSum(TickActions(s, inputs));
    } else {
      HealthyTurnWrites(s, inputs);
    }
  }

  lemma HealthyTurnWrites(s: State, inputs: Inputs)
    requires Healthy(s, inputs)
    ensures SumBy(TickActions(s, inputs), Written()) == ToWrite(s, inputs)
  {
    hide WrittenSize;
    HealthyActions(s, inputs);
    hide TickActions;
    hide Assessed;
    if Missing(inputs.desired, s.records) != [] {
      SingleWrite(LaunchAction(Missing(inputs.desired, s.records)));
      LaunchedSize(Missing(inputs.desired, s.records));
    } else if Outdated(inputs.desired, s.records) != [] {
      SingleWrite(UpdateAction(Outdated(inputs.desired, s.records), s.records));
      UpdatedSize(Outdated(inputs.desired, s.records), s.records);
    } else {
      ExecuteActionsWell(s.records, inputs.executable, Assessed(s, inputs).config);
      ExecutionsWriteNothing(TickActions(s, inputs));
    }
  }

  function TurnToWrite(s: State, o: Option<Observation>): int
  {
    if Skipped(s.market, o) then 0 else ToWrite(Refreshed(s, o.value), InputsOf(s.market.config, o.value))
  }

  /** What the turns of the creator's markets among the first `n` have to write, together. */
  function ToWriteBy(markets: seq<State>, obs: seq<Option<Observation>>, creator: nat, n: nat): int
    requires n <= |markets| == |obs|
  {
    if n == 0 then 0
    else ToWriteBy(markets, obs, creator, n - 1)
         + if markets[n - 1].market.creator == creator then TurnToWrite(markets[n - 1], obs[n - 1]) else 0
  }

  lemma {:induction false} CommittedIsToWrite(
    markets: seq<State>, obs: seq<Option<Observation>>, creator: nat, n: nat)
    requires n <= |markets| == |obs|
    ensures CommittedBy(markets, obs, creator, n) == ToWriteBy(markets, obs, creator, n)
  {
    hide TickActions;
    hide ToWrite;
    hide Refreshed;
    hide InputsOf;
    if n > 0 {
      CommittedIsToWrite(markets, obs, creator, n - 1);
      var s, o := markets[n - 1], obs[n - 1];
      if !Skipped(s.market, o) {
        TurnWrites(Refreshed(s, o.value), InputsOf(s.market.config, o.value));
      }
    }
  }

  /** How many actions the turns of the first `n` markets prepare, whatever the limit. */
  function Planned(markets: seq<State>, obs: seq<Option<Observation>>, n: nat): nat
    requires n <= |markets| == |obs|
  {
    if n == 0 then 0
    else
      var s, o := markets[n - 1], obs[n - 1];
      Planned(markets, obs, n - 1)
      + if Skipped(s.market, o) then 0
        else |TickActions(Refreshed(s, o.value), InputsOf(s.market.config, o.value))|
  }

  /** What the creator's markets among the first `n` have to write whose turns come before the limit is used up. */
  function DueBy(markets: seq<State>, obs: seq<Option<Observation>>, limit: nat, creator: nat, n: nat): int
    requires n <= |markets| == |obs|
  {
    if n == 0 then 0
    else
      DueBy(markets, obs, limit, creator, n - 1)
      + if markets[n - 1].market.creator == creator && Planned(markets, obs, n - 1) < limit
        then TurnToWrite(markets[n - 1], obs[n - 1]) else 0
  }

  lemma {:induction false} PassLength(markets: seq<State>, obs: seq<Option<Observation>>, limit: nat, n: nat)
    requires n <= |markets| == |obs|
    ensures |FleetTick(markets, obs, limit, n).actions| == Min(limit, Planned(markets, obs, n))
  {
    hide TickActions;
    hide Assessed;
    hide InputsOf;
    hide Refreshed;
    if n > 0 {
      PassLength(markets, obs, limit, n - 1);
    }
  }

  /** A turn that writes prepares a single action, so cutting it off anywhere after the first changes no total. */
  lemma {:induction false} FirstActionWrites(s: State, inputs: Inputs, k: nat)
    requires 1 <= k <= |TickActions(s, inputs)|
    ensures SumBy(TickActions(s, inputs)[..k], Written()) == SumBy(TickActions(s, inputs), Written())
  {
    hide WrittenSize;
    hide SumBy;
    var actions := TickActions(s, inputs);
    if k == |actions| {
      assert actions[..k] == actions;
    } else {
      TickActionsShape(s, inputs);
      ExecutionsWriteNothing(actions);
      ExecutionsWriteNothing(actions[..k]);
    }
  }

  lemma TickActionsShape(s: State, inputs: Inputs)
    ensures |TickActions(s, inputs)| <= 1 || forall a :: a in TickActions(s, inputs) ==> a.Execute?
  {
    ExecuteActionsWell(s.records, inputs.executable, Assessed(s, inputs).config);
  }

  lemma EmittedWrites(markets: seq<State>, creator: nat, i: nat, s: State, inputs: Inputs, room: nat)
    requires i < |markets| && room > 0
    ensures
      SumBy(Emit(i, TickActions(s, inputs), room), WrittenTo(markets, creator))
      == if markets[i].market.creator == creator then ToWrite(s, inputs) else 0
  {
    hide WrittenSize;
    hide TickActions;
    hide ToWrite;
    hide SumBy;
    var actions := TickActions(s, inputs);
    TurnWrites(s, inputs);
    if |actions| > room && markets[i].market.creator == creator {
      FirstActionWrites(s, inputs, room);
      SumByCongruent(actions[..room], Written(), Emit(i, actions, room), WrittenTo(markets, creator));
    } else {
      EmittedSum(markets, creator, i, actions, room);
    }
  }

  lemma PassStep(markets: seq<State>, obs: seq<Option<Observation>>, limit: nat, n: nat)
    requires n < |markets| == |obs|
    ensures
      var before, after := FleetTick(markets, obs, limit, n).actions, FleetTick(markets, obs, limit, n + 1).actions;
      after == if |before| >= limit || Skipped(markets[n].market, obs[n]) then before
               else before + Emit(n, TickActions(Refreshed(markets[n], obs[n].value),
                                                 InputsOf(markets[n].market.config, obs[n].value)), limit - |before|)
  {
    hide TickActions;
    hide Assessed;
    hide InputsOf;
    hide Refreshed;
  }

  /** What a pass writes for a creator, exactly and whatever the limit. */
  lemma {:induction false} PassWritesDue(
    markets: seq<State>, obs: seq<Option<Observation>>, limit: nat, n: nat, creator: nat)
    requires n <= |markets| == |obs|
    ensures SumBy(FleetTick(markets, obs, limit, n).actions, WrittenTo(markets, creator))
         == DueBy(markets, obs, limit, creator, n)
  {
    hide FleetTick;
    hide Planned;
    hide TickActions;
    hide InputsOf;
    hide Refreshed;
    hide WrittenTo;
    hide Emit;
    hide ToWrite;
    if n == 0 {
      NothingEmitted(markets, obs, limit);
    } else {
      PassWritesDue(markets, obs, limit, n - 1, creator);
      PassLength(markets, obs, limit, n - 1);
      PassStep(markets, obs, limit, n - 1);
      var before := FleetTick(markets, obs, limit, n - 1).actions;
      var m, o := markets[n - 1], obs[n - 1];
      if |before| < limit && !Skipped(m.market, o) {
        var s, inputs := Refreshed(m, o.value), InputsOf(m.market.config, o.value);
        EmittedWrites(markets, creator, n - 1, s, inputs, limit - |before|);
        SumByConcat(before, Emit(n - 1, TickActions(s, inputs), limit - |before|), WrittenTo(markets, creator));
      }
    }
  }

  lemma NothingEmitted(markets: seq<State>, obs: seq<Option<Observation>>, limit: nat)
    requires |markets| == |obs|
    ensures FleetTick(markets, obs, limit, 0).actions == []
  {
  }

  lemma {:induction false} DueWithinToWrite(
    markets: seq<State>, obs: seq<Option<Observation>>, limit: nat, creator: nat, n: nat)
    requires n <= |markets| == |obs|
    ensures 0 <= DueBy(markets, obs, limit, creator, n) <= ToWriteBy(markets, obs, creator, n)
    ensures Planned(markets, obs, n) < limit ==>
      DueBy(markets, obs, limit, creator, n) == ToWriteBy(markets, obs, creator, n)
  {
    hide TickActions;
    hide ToWrite;
    hide Refreshed;
    hide InputsOf;
    if n > 0 {
      DueWithinToWrite(markets, obs, limit, creator, n - 1);
      CommittedNonNegative(markets[n - 1], obs[n - 1]);
      var s, o := markets[n - 1], obs[n - 1];
      if !Skipped(s.market, o) {
        TurnWrites(Refreshed(s, o.value), InputsOf(s.market.config, o.value));
      }
    }
  }

  /**
   * Exactly when one pass overdraws the balance a creator's markets share, from what is known before it: if and only
   * if what is missing or outdated in those markets whose turns come before the action limit is used up adds up to
   * more than the balance, although each of them passed its own comparison. Those are all of them when the turns
   * together plan fewer actions than the limit.
   */
  lemma {:induction false} PassOverdrawsIff(
    markets: seq<State>, obs: seq<Option<Observation>>, limit: nat, n: nat, creator: nat, balance: nat)
    requires n <= |markets| == |obs|
    ensures
      var written := SumBy(FleetTick(markets, obs, limit, n).actions, WrittenTo(markets, creator));
      && (written > balance <==> DueBy(markets, obs, limit, creator, n) > balance)
      && (Planned(markets, obs, n) < limit ==> (written > balance <==> ToWriteBy(markets, obs, creator, n) > balance))
      && (ToWriteBy(markets, obs, creator, n) <= balance ==> written <= balance)
  {
    hide FleetTick;
    PassWritesDue(markets, obs, limit, n, creator);
    DueWithinToWrite(markets, obs, limit, creator, n);
  }

  // ----- An example, as it is registered -----

  /** A registration of 50 USDC at even odds with the widest preset. */
  function ExampleConfig(): Config
  {
    WithPreset(Config(50_000_000, 5_000, 1, 25, 10, 30, 30, 500, 0, LadderV1), Wide)
  }

  /** An empty book and position, a balance of just the seed, and a market that is open and young. */
  function ExampleObservation(): Observation
  {
    Observation(true, 50_000_000, Position(0, 0, false), map[], map[], 500, Flow(0, 0), {},
                Clock(0, false, 1, None, 0, 1, 1.0, 1.0))
  }

  function ExampleMarket(): State
  {
    State(Market(1, ExampleConfig(), true, PendingLaunch, None, 0, None, None), [])
  }

  lemma ExampleIsRegistered(m: Market)
    ensures Registrable(ExampleConfig(), true)
    ensures m.since.None? ==> Step(State(m, []), RegisterEvent(1, true, ExampleConfig())) == ExampleMarket()
  {
  }

  /** With nothing traded and held, both adaptive signals that cut sizes are quiet, whatever the ladder. */
  lemma ExampleSignals(c: Config)
    requires c.seed > 0 && c.exposureCap > 0
    ensures
      var m := SignalsOf(c, ExampleObservation());
      !m.capHit && AdaptiveSize(m) == 10_000
  {
    hide SyntheticBook.DepthSnapshot;
  }

  lemma ExampleOffersSeed(c: Config)
    requires ValidConfig(c) && c.seed > 0 && c.seed % 10_000 == 0
    ensures Offered(Desired(c, ExampleObservation())) == c.seed
    ensures Reserved(Desired(c, ExampleObservation())) <= c.seed
  {
    hide Ladder;
    hide Reserved;
    hide SignalsOf;
    hide AdaptiveSpread;
    hide AdaptiveSize;
    ExampleSignals(c);
    SyntheticBook.LadderConservesSeed(c, AdaptiveSpread(SignalsOf(c, ExampleObservation())), 10_000);
    SyntheticBook.LadderConservesSeed(c, 10_000, 10_000);
    ReservedIsSum(Desired(c, ExampleObservation()));
  }

  /** Any row like the example's, with a ladder of the same seed, may quote. */
  lemma ExampleHealthy(s: State)
    requires ValidConfig(s.market.config) && s.market.config.seed == 50_000_000 && s.market.failures < 3
    requires !s.market.status.Disabled? && !s.market.status.Graduated? && !s.market.status.Paused?
    ensures Healthy(s, InputsOf(s.market.config, ExampleObservation()))
  {
    hide SignalsOf;
    hide Desired;
    hide InventorySkew;
    hide Reserved;
    hide AdaptiveSize;
    ExampleSignals(s.market.config);
    ExampleOffersSeed(s.market.config);
  }

  lemma {:induction false} NothingRecorded(desired: seq<Agent>)
    ensures Missing(desired, []) == desired && Outdated(desired, []) == []
  {
    if desired != [] {
      NothingRecorded(desired[..|desired| - 1]);
    }
  }

  lemma ExampleTurn()
    ensures !Skipped(ExampleMarket().market, Some(ExampleObservation()))
    ensures TurnToWrite(ExampleMarket(), Some(ExampleObservation())) == 50_000_000
    ensures |TickActions(Refreshed(ExampleMarket(), ExampleObservation()),
                         InputsOf(ExampleConfig(), ExampleObservation()))| <= 1
  {
    hide Desired;
    hide SignalsOf;
    hide InventorySkew;
    hide Offered;
    hide Healthy;
    hide TickActions;
    hide Assessed;
    var s, o := ExampleMarket(), ExampleObservation();
    var inputs := InputsOf(s.market.config, o);
    RefreshedKeeps(s, o);
    hide Refreshed;
    ExampleHealthy(s);
    ExampleOffersSeed(ExampleConfig());
    NothingRecorded(inputs.desired);
    HealthyActions(s, inputs);
    assert ExecuteActions([], inputs.executable, Assessed(s, inputs).config) == [];
  }

  /** Two such markets of one creator, on a balance of 50 USDC that each alone may use up, write 100 in one pass. */
  lemma TwoFreshMarketsOverdraw()
    ensures Registrable(ExampleConfig(), true)
    ensures
      var s, o := ExampleMarket(), Some(ExampleObservation());
      SumBy(FleetTick([s, s], [o, o], 100, 2).actions, WrittenTo([s, s], 1)) == 2 * ExampleObservation().available
  {
    var s, o := ExampleMarket(), Some(ExampleObservation());
    ExampleIsRegistered(s.market);
    ExampleTurn();
    hide TurnToWrite;
    hide TickActions;
    hide Refreshed;
    hide InputsOf;
    hide Assessed;
    assert ToWriteBy([s, s], [o, o], 1, 2) == ToWriteBy([s, s], [o, o], 1, 1) + TurnToWrite(s, o);
    assert ToWriteBy([s, s], [o, o], 1, 1) == TurnToWrite(s, o);
    var f := FleetTick([s, s], [o, o], 100, 1);
    assert FleetTick([s, s], [o, o], 100, 0).actions == [];
    assert |f.actions| <= 1;
    assert |FleetTick([s, s], [o, o], 100, 2).actions| <= 2;
    PassWrites([s, s], [o, o], 100, 2, 1);
    CommittedIsToWrite([s, s], [o, o], 1, 2);
  }

  // ----- What is live after convergence -----

  function LiveSize(): Record -> int { (r: Record) => if r.Live() then r.Size() else 0 }

  predicate Slotted(desired: seq<Agent>, r: Record)
  {
    exists k :: 0 <= k < |desired| && desired[k].side == r.side && desired[k].level == r.level
  }

  function OnLadder(desired: seq<Agent>): Record -> int
  {
    (r: Record) => if r.Live() && Slotted(desired, r) then r.Size() else 0
  }

  function OffLadder(desired: seq<Agent>): Record -> int
  {
    (r: Record) => if r.Live() && !Slotted(desired, r) then r.Size() else 0
  }

  lemma {:induction false} LiveSplits(records: seq<Record>, desired: seq<Agent>)
    ensures SumBy(records, LiveSize()) == SumBy(records, OnLadder(desired)) + SumBy(records, OffLadder(desired))
  {
    hide Slotted;
    if records != [] {
      LiveSplits(records[1..], desired);
    }
  }

  lemma SlottedAppend(front: seq<Agent>, a: Agent, r: Record)
    ensures Slotted(front + [a], r) <==> Slotted(front, r) || (a.side == r.side && a.level == r.level)
  {
    if k :| 0 <= k < |front| && front[k].side == r.side && front[k].level == r.level {
      assert (front + [a])[k] == front[k];
    }
    assert (front + [a])[|front|] == a;
  }

  /** The live records in desired slots hold exactly what the ladder offers. */
  lemma {:induction false} OnLadderTotal(records: seq<Record>, desired: seq<Agent>)
    requires UniqueSlots(records) && DistinctAgents(desired) && Converged(records, desired)
    ensures SumBy(records, OnLadder(desired)) == Offered(desired)
  {
    if desired == [] {
      SumByCongruent(records, OnLadder([]), records, (r: Record) => 0);
      SumOfNothing(records);
    } else {
      var front, a := desired[..|desired| - 1], desired[|desired| - 1];
      assert desired == front + [a];
      assert AtTarget(records, a);
      var i := FoundIsRecorded(records, a.side, a.level);
      OnLadderTotal(records, front);
      SumByAppend(front, a, SyntheticBook.SizeOf());
      OneMoreSlot(records, front, a, i);
    }
  }

  lemma OneMoreSlot(records: seq<Record>, front: seq<Agent>, a: Agent, i: nat)
    requires UniqueSlots(records) && i < |records| && DistinctAgents(front + [a])
    requires records[i].Live() && records[i].Size() == a.size
    requires records[i].side == a.side && records[i].level == a.level
    ensures SumBy(records, OnLadder(front + [a])) == SumBy(records, OnLadder(front)) + a.size
  {
    hide Slotted;
    var after, before, rest := OnLadder(front + [a]), OnLadder(front), RemoveAt(records, i);
    SumByRemoveAt(records, i, after);
    SumByRemoveAt(records, i, before);
    forall k | 0 <= k < |rest|
      ensures after(rest[k]) == before(rest[k])
    {
      assert rest[k] == records[if k < i then k else k + 1];
      SlottedAppend(front, a, rest[k]);
    }
    SumByCongruent(rest, after, rest, before);
    SlottedAppend(front, a, records[i]);
    NotYetSlotted(front, a, records[i]);
  }

  lemma NotYetSlotted(front: seq<Agent>, a: Agent, r: Record)
    requires DistinctAgents(front + [a]) && r.side == a.side && r.level == a.level
    ensures !Slotted(front, r)
  {
    var all := front + [a];
    forall k | 0 <= k < |front|
      ensures (front[k].side, front[k].level) != (r.side, r.level)
    {
      assert all[k] == front[k] && all[|front|] == a;
    }
  }

  lemma DesiredSlots(c: Config, o: Observation, r: Record)
    ensures Slotted(Desired(c, o), r) <==> r.level < LevelsOf(c)
  {
    hide Ladder;
    hide Rung;
    hide SignalsOf;
    hide AdaptiveSpread;
    hide AdaptiveSize;
    var s := SignalsOf(c, o);
    LadderCovers(c, AdaptiveSpread(s), AdaptiveSize(s), r);
    LadderCovers(c, 10_000, 10_000, r);
  }

  lemma LadderCovers(c: Config, spreadMul: nat, sizeMul: nat, r: Record)
    ensures Slotted(Ladder(c, spreadMul, sizeMul), r) <==> r.level < LevelsOf(c)
  {
    hide Ladder;
    hide RungPrice;
    hide RungSize;
    var l := Ladder(c, spreadMul, sizeMul);
    if r.level < LevelsOf(c) {
      LadderRung(c, spreadMul, sizeMul, r.side, r.level);
      assert l[RungIndex(r.side, r.level)].side == r.side;
    }
    LadderSlots(c, spreadMul, sizeMul);
  }

  /**
   * Once converged, the live total is what the ladder offers plus what is live above its top level. So it stays within
   * the seed exactly when the latter fits in what the ladder leaves of the seed.
   */
  lemma {:induction false} LiveWithinSeedIff(c: Config, o: Observation, records: seq<Record>)
    requires ValidConfig(c) && UniqueSlots(records)
    ensures Converged(records, Desired(c, o)) ==>
      var live, above := SumBy(records, LiveSize()), SumBy(records, Above(LevelsOf(c)));
      var offered := Offered(Desired(c, o));
      && live == offered + above && (live <= c.seed <==> above <= c.seed - offered) && (above == 0 ==> live <= c.seed)
  {
    hide Desired;
    hide Slotted;
    hide LevelsOf;
    hide Offered;
    hide Converged;
    hide ValidConfig;
    var desired := Desired(c, o);
    if Converged(records, desired) {
      DesiredDistinct(c, o);
      OnLadderTotal(records, desired);
      LiveSplits(records, desired);
      forall k | 0 <= k < |records|
        ensures OffLadder(desired)(records[k]) == Above(LevelsOf(c))(records[k])
      {
        DesiredSlots(c, o, records[k]);
      }
      SumByCongruent(records, OffLadder(desired), records, Above(LevelsOf(c)));
      OfferedWithinSeed(c, o);
    }
  }

  lemma OfferedWithinSeed(c: Config, o: Observation)
    requires ValidConfig(c)
    ensures Offered(Desired(c, o)) <= c.seed
  {
    DesiredWithinSeed(c, o);
  }

  /**
   * Over a run: what is live above the ladder when its rounds start is still live when they have converged, and the
   * live total then stays within the seed exactly when that fits in what the ladder leaves of the seed.
   */
  lemma {:induction false} LiveAfterRoundsIff(s: State, o: Observation, created: seq<nat>, n: nat)
    requires ValidConfig(s.market.config) && n >= 2
    ensures Ready(s, o, created) ==>
      var c := s.market.config.(skew := InputsOf(s.market.config, o).skew);
      var r := ObservedRounds(s, o, created, n);
      && r.Ok?
      && var live, above := SumBy(r.value.records, LiveSize()), SumBy(s.records, Above(LevelsOf(c)));
         var offered := Offered(Desired(c, o));
         live == offered + above && (live <= c.seed <==> above <= c.seed - offered)
  {
    hide Ready;
    hide ObservedRounds;
    hide Desired;
    hide InventorySkew;
    hide SignalsOf;
    hide Offered;
    hide Above;
    hide LiveSize;
    hide Converged;
    if Ready(s, o, created) {
      var c := s.market.config.(skew := InputsOf(s.market.config, o).skew);
      ObservedConvergence(s, o, created, n);
      ObservedRoundsKeepAbove(s, o, created, n);
      var records := ObservedRounds(s, o, created, n).value.records;
      SettledIsUnique(ObservedRounds(s, o, created, n).value, o);
      LiveWithinSeedIff(c, o, records);
    }
  }

  lemma SettledIsUnique(s: State, o: Observation)
    requires Settled(s, o, [])
    ensures UniqueSlots(s.records)
  {
    hide InputsOf;
    hide Healthy;
    hide Quiet;
  }

  // ----- The example's ladder is shrunk -----

  function ExampleReceipt(): seq<nat> { seq(12, i => i + 1) }

  lemma ExampleQuiet(m: Market)
    requires m.since.None? || m.since.value == 0
    ensures Quiet(m, ExampleObservation())
  {
  }

  lemma ExampleSkew(c: Config)
    ensures InventorySkew(c, Position(0, 0, false)) == 0
  {
    var notional := c.seed * CapOf(c) / PAR_PRICE_BPS;
    if notional > 0 {
      assert (0 - 0) * CapOf(c) == 0;
      DivUnique(0, notional, 0);
    }
  }

  lemma DesiredCount(c: Config, o: Observation)
    ensures |Desired(c, o)| == 2 * LevelsOf(c)
  {
    hide SignalsOf;
    hide Rung;
    hide AdaptiveSpread;
    hide AdaptiveSize;
  }

  /** The registered example is ready for its launch. */
  lemma ExampleReady()
    ensures Ready(ExampleMarket(), ExampleObservation(), ExampleReceipt())
    ensures InputsOf(ExampleConfig(), ExampleObservation()).skew == 0
  {
    hide SignalsOf;
    hide Desired;
    hide InventorySkew;
    hide Healthy;
    hide Quiet;
    var s, o, c := ExampleMarket(), ExampleObservation(), ExampleConfig();
    ExampleSkew(c);
    ExampleHealthy(s);
    ExampleQuiet(s.market);
    ExampleOffersSeed(c);
    DesiredCount(c, o);
    NothingRecorded(Desired(c, o));
    assert c.(skew := 0) == c;
  }

  /** A ladder with fewer levels wants no slot that a converged taller ladder does not already quote. */
  lemma ShorterLadderIsLive(records: seq<Record>, c: Config, d: Config, o: Observation)
    requires Converged(records, Desired(c, o)) && LevelsOf(d) <= LevelsOf(c)
    ensures Missing(Desired(d, o), records) == []
  {
    hide Desired;
    hide LevelsOf;
    DesiredDistinct(d, o);
    NothingLeft(Desired(d, o), records);
    forall a | a in Desired(d, o)
      ensures !IsMissing(records, a)
    {
      var r := Record(a.side, a.level, None, 0, 0, None, None, false);
      DesiredSlots(d, o, r);
      DesiredSlots(c, o, r);
      assert Slotted(Desired(d, o), r);
      var k :| 0 <= k < |Desired(c, o)| && Desired(c, o)[k].side == a.side && Desired(c, o)[k].level == a.level;
      assert AtTarget(records, Desired(c, o)[k]);
    }
  }

  lemma SumByAtLeast<T>(xs: seq<T>, i: nat, f: T -> int)
    requires i < |xs| && forall x :: x in xs ==> f(x) >= 0
    ensures SumBy(xs, f) >= f(xs[i])
  {
    SumByRemoveAt(xs, i, f);
    SumByNonNegative(RemoveAt(xs, i), f);
  }

  /** A converged ladder has something live at its top level. */
  lemma TopIsLive(records: seq<Record>, c: Config, o: Observation, top: nat, a: Agent)
    requires Converged(records, Desired(c, o)) && a in Desired(c, o) && a.level >= top && a.size > 0
    ensures SumBy(records, Above(top)) > 0
  {
    hide Desired;
    hide SumBy;
    var k :| 0 <= k < |Desired(c, o)| && Desired(c, o)[k] == a;
    assert AtTarget(records, Desired(c, o)[k]);
    var i := FoundIsRecorded(records, a.side, a.level);
    SumByAtLeast(records, i, Above(top));
  }

  lemma ExampleTopSize()
    ensures RungSize(ExampleConfig(), Yes, 5, 10_000) == 4_166_666
  {
    hide SideBudget;
    PlannerProperties.NeutralBudget(ExampleConfig(), Yes);
  }

  lemma DesiredRung(c: Config, o: Observation, side: Side, level: nat)
    requires c.strategy.LadderAdaptiveV1? && level < LevelsOf(c) && AdaptiveSize(SignalsOf(c, o)) == 10_000
    ensures Rung(c, side, level, AdaptiveSpread(SignalsOf(c, o)), 10_000) in Desired(c, o)
  {
    hide SignalsOf;
    hide AdaptiveSpread;
    hide AdaptiveSize;
    hide Ladder;
    hide Rung;
    hide LevelsOf;
    LadderRung(c, AdaptiveSpread(SignalsOf(c, o)), 10_000, side, level);
  }

  lemma ExampleTop() returns (a: Agent)
    ensures a in Desired(ExampleConfig(), ExampleObservation()) && a.level == 5 && a.size > 0
  {
    hide SignalsOf;
    hide AdaptiveSpread;
    hide AdaptiveSize;
    hide Desired;
    hide RungPrice;
    hide RungSize;
    var c, o := ExampleConfig(), ExampleObservation();
    ExampleSignals(c);
    ExampleTopSize();
    DesiredRung(c, o, Yes, 5);
    a := Rung(c, Yes, 5, AdaptiveSpread(SignalsOf(c, o)), 10_000);
  }

  /**
   * So a shrunken ladder exceeds the seed in a run: the example is launched with its six levels, a backfill puts the
   * four levels of another preset in their place, and once the rounds have converged again, however many there were,
   * more than the seed is live.
   */
  lemma {:induction false} BackfillExceedsSeed(n: nat, m: nat)
    requires n >= 2 && m >= 2
    ensures
      var o := ExampleObservation();
      var launched := ObservedRounds(ExampleMarket(), o, ExampleReceipt(), n);
      && launched.Ok?
      && var backfilled := Step(launched.value, BackfillEvent(Some(Tight), None));
         var r := ObservedRounds(backfilled, o, [], m);
         && r.Ok? && Converged(r.value.records, Desired(backfilled.market.config, o))
         && SumBy(r.value.records, LiveSize()) > backfilled.market.config.seed == 50_000_000
  {
    hide ObservedRounds;
    hide InventorySkew;
    hide Desired;
    hide SignalsOf;
    hide Converged;
    hide Ready;
    hide Offered;
    hide Above;
    hide LiveSize;
    hide Settled;
    var o, c := ExampleObservation(), ExampleConfig();
    ExampleReady();
    ObservedConvergence(ExampleMarket(), o, ExampleReceipt(), n);
    var launched := ObservedRounds(ExampleMarket(), o, ExampleReceipt(), n).value;
    assert launched.market.config == c && launched.market.hybrid;
    var backfilled := Step(launched, BackfillEvent(Some(Tight), None));
    var d := WithPreset(c, Tight);
    assert backfilled == launched.(market := launched.market.(config := d));
    BackfilledIsReady(launched, backfilled);
    ExampleSkew(d);
    assert d.(skew := 0) == d;
    ObservedConvergence(backfilled, o, [], m);
    LiveAfterRoundsIff(backfilled, o, [], m);
    ExampleOffersSeed(d);
    var a := ExampleTop();
    TopIsLive(launched.records, c, o, 4, a);
  }

  lemma BackfilledIsReady(launched: State, backfilled: State)
    requires Settled(launched, ExampleObservation(), []) && launched.market.config == ExampleConfig()
    requires Converged(launched.records, Desired(ExampleConfig(), ExampleObservation()))
    requires backfilled == launched.(market := launched.market.(config := WithPreset(ExampleConfig(), Tight)))
    ensures Ready(backfilled, ExampleObservation(), [])
  {
    hide SignalsOf;
    hide Desired;
    hide InventorySkew;
    hide Reserved;
    hide Converged;
    hide SyntheticBook.DepthSnapshot;
    var o, d := ExampleObservation(), WithPreset(ExampleConfig(), Tight);
    ExampleSkew(d);
    assert d.(skew := 0) == d;
    ExampleSignals(d);
    ExampleOffersSeed(d);
    ShorterLadderIsLive(launched.records, ExampleConfig(), d, o);
  }
}
