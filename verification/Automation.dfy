/**
 * The rate limits on a decision cell's automation: a pass checks its gates against the event log and then fires
 * every matching attachment (app/src/api/decisions.rs). Times are in microseconds.
 */
module Automation {
  import opened Numbers
  import opened Options
  import opened Sums
  import opened Recommendation
  import Alerts
  import Decimal

  const SECOND: int := 1_000_000
  const DAY: int := 86_400 * SECOND

  datatype Policy = Policy(
    active: bool, requireConfidence: int, interval: int, maxPerDay: int, provider: Option<string>, maxNotional: real)

  datatype Trigger = OnRecommendationGain | OnConfidenceGain | OnThresholdCross

  /** What running an agent came to. */
  datatype Execution = Executed | NotExecuted(reason: Option<string>) | ExecutionFailed(error: string)

  datatype Agent = Agent(active: bool, provider: string, price: real, quantity: real, execution: Execution)
  {
    function Notional(): real
    {
      (if price > 0.0 then price else 0.0) * (if quantity > 0.0 then quantity else 0.0)
    }
  }

  datatype Lookup = Found(agent: Agent) | LookupFailed(error: string)

  /** An attached agent, what looking it up and running it answers, and when its event is recorded. */
  datatype Attachment = Attachment(
    active: bool, trigger: Trigger, node: string, agentId: string, lookup: Lookup, time: int)

  datatype Event =
    | Triggered(node: string, agentId: string, provider: string, notional: real, time: int)
    | Skipped(node: string, agentId: string, reason: Option<string>, time: int)

  /** One pass: the service's clock, the database's clock, what was recalculated and the cell's attachments. */
  datatype Pass = Pass(
    enabled: bool, now: int, dbNow: int, recommendation: Recommendation, changedNode: Option<string>,
    flags: Alerts.Flags, attachments: seq<Attachment>)

  // ----- The gates -----

  datatype Gate =
    | Open | Disabled | InsufficientSignal | ConfidenceTooLow | SteadyState | CooldownActive | DailyCapReached

  function LastTrigger(log: seq<Event>): Option<int>
  {
    if log == [] then None
    else
      var before, e := LastTrigger(log[..|log| - 1]), log[|log| - 1];
      if e.Skipped? then before else if before.None? then Some(e.time) else Some(Max(before.value, e.time))
  }

  function TriggersSince(log: seq<Event>, start: int): int
  {
    SumBy(log, (e: Event) => if e.Triggered? && e.time >= start then 1 else 0)
  }

  function DayOf(time: int): int { time / DAY }

  /** Midnight of the day of `time`. */
  function DayStart(time: int): int { DayOf(time) * DAY }

  function GateFor(policy: Policy, log: seq<Event>, p: Pass): Gate
  {
    if !p.enabled || !policy.active then Disabled
    else if p.recommendation.state == INSUFFICIENT then InsufficientSignal
    else if p.recommendation.confidence < policy.requireConfidence then ConfidenceTooLow
    else if !(p.flags.recommendationChanged || p.flags.thresholdCrossed || p.flags.confidenceGain) then SteadyState
    else if LastTrigger(log).Some? && policy.interval > 0 && p.now < LastTrigger(log).value + policy.interval * SECOND
      then CooldownActive
    else if policy.maxPerDay > 0 && TriggersSince(log, DayStart(p.dbNow)) >= policy.maxPerDay then DailyCapReached
    else Open
  }

  // ----- Firing the attachments -----

  predicate MatchesTrigger(a: Attachment, p: Pass)
  {
    && (match a.trigger
        case OnRecommendationGain => p.flags.recommendationChanged
        case OnConfidenceGain => p.flags.confidenceGain
        case OnThresholdCross => p.flags.thresholdCrossed)
    && p.changedNode == Some(a.node)
  }

  predicate Eligible(a: Attachment, p: Pass) { a.active && MatchesTrigger(a, p) }

  /** The event an eligible attachment leads to. */
  function EventOf(policy: Policy, a: Attachment): Event
  {
    match a.lookup
    case LookupFailed(reason) => Skipped(a.node, a.agentId, Some(reason), a.time)
    case Found(agent) =>
      if !agent.active then Skipped(a.node, a.agentId, Some("agent_inactive"), a.time)
      else if policy.provider.Some? && agent.provider != policy.provider.value then
        Skipped(a.node, a.agentId, Some("provider_not_allowed"), a.time)
      else if policy.maxNotional > 0.0 && agent.Notional() > policy.maxNotional then
        Skipped(a.node, a.agentId, Some("notional_too_large"), a.time)
      else
        match agent.execution
        case Executed => Triggered(a.node, a.agentId, agent.provider, agent.Notional(), a.time)
        case NotExecuted(reason) => Skipped(a.node, a.agentId, reason, a.time)
        case ExecutionFailed(reason) => Skipped(a.node, a.agentId, Some(reason), a.time)
  }

  /** The agent was found, is active and within the policy, and its order was executed. */
  predicate Runs(policy: Policy, a: Attachment)
  {
    && a.lookup.Found? && a.lookup.agent.active && a.lookup.agent.execution.Executed?
    && (policy.provider.Some? ==> a.lookup.agent.provider == policy.provider.value)
    && (policy.maxNotional > 0.0 ==> a.lookup.agent.Notional() <= policy.maxNotional)
  }

  function Fire(policy: Policy, p: Pass, attachments: seq<Attachment>): seq<Event>
  {
    if attachments == [] then []
    else
      var a := attachments[|attachments| - 1];
      Fire(policy, p, attachments[..|attachments| - 1]) + if Eligible(a, p) then [EventOf(policy, a)] else []
  }

  function PassEvents(policy: Policy, log: seq<Event>, p: Pass): seq<Event>
  {
    if GateFor(policy, log, p).Open? then Fire(policy, p, p.attachments) else []
  }

  function GateReason(g: Gate): Option<string>
  {
    match g
    case InsufficientSignal => Some("insufficient_signal")
    case ConfidenceTooLow => Some("confidence_too_low")
    case SteadyState => Some("steady_state")
    case CooldownActive => Some("cooldown_active")
    case DailyCapReached => Some("daily_cap_reached")
    case _ => None
  }

  function Count(counts: map<string, nat>, reason: Option<string>): map<string, nat>
  {
    if reason.None? then counts
    else counts[reason.value := (if reason.value in counts then counts[reason.value] else 0) + 1]
  }

  function SkipCounts(events: seq<Event>): map<string, nat>
  {
    if events == [] then map[]
    else
      var e := events[|events| - 1];
      var before := SkipCounts(events[..|events| - 1]);
      if e.Skipped? then Count(before, e.reason) else before
  }

  function TriggerCount(events: seq<Event>): int { SumBy(events, (e: Event) => if e.Triggered? then 1 else 0) }

  class EventLog {
    var log: seq<Event>

    constructor ()
      ensures log == []
    {
      log := [];
    }

    method RunPass(policy: Policy, p: Pass) returns (events: seq<Event>, executed: int, skipped: map<string, nat>)
      modifies this
      ensures events == PassEvents(policy, old(log), p) && log == old(log) + events
      ensures executed == TriggerCount(events)
      ensures skipped == if GateFor(policy, old(log), p).Open? then SkipCounts(events)
                         else Count(map[], GateReason(GateFor(policy, old(log), p)))
    {
      hide EventOf;
      hide Eligible;
      hide Fire;
      hide SkipCounts;
      hide TriggerCount;
      events, executed, skipped := [], 0, map[];
      NothingFired(policy, p);
      var gate := GateFor(policy, log, p);
      if !gate.Open? {
        skipped := Count(skipped, GateReason(gate));
        return;
      }
      for k := 0 to |p.attachments|
        invariant events == Fire(policy, p, p.attachments[..k]) && log == old(log) + events
        invariant executed == TriggerCount(events) && skipped == SkipCounts(events)
      {
        var a := p.attachments[k];
        FireStep(policy, p, k);
        if Eligible(a, p) {
          var e := Attempt(policy, a);
          CountsStep(events, e);
          if e.Triggered? {
            executed := executed + 1;
          } else {
            skipped := Count(skipped, e.reason);
          }
          events := events + [e];
          log := log + [e];
        }
      }
      assert p.attachments[..|p.attachments|] == p.attachments;
    }
  }

  lemma NothingFired(policy: Policy, p: Pass)
    ensures Fire(policy, p, p.attachments[..0]) == [] && TriggerCount([]) == 0 && SkipCounts([]) == map[]
  {
  }

  lemma FireStep(policy: Policy, p: Pass, k: nat)
    requires k < |p.attachments|
    ensures
      var a, front := p.attachments[k], p.attachments[..k];
      Fire(policy, p, p.attachments[..k + 1])
      == if Eligible(a, p) then Fire(policy, p, front) + [EventOf(policy, a)] else Fire(policy, p, front)
  {
    assert p.attachments[..k + 1][..k] == p.attachments[..k];
  }

  lemma CountsStep(events: seq<Event>, e: Event)
    ensures TriggerCount(events + [e]) == TriggerCount(events) + if e.Triggered? then 1 else 0
    ensures SkipCounts(events + [e]) == if e.Skipped? then Count(SkipCounts(events), e.reason) else SkipCounts(events)
  {
    SumByAppend(events, e, (x: Event) => if x.Triggered? then 1 else 0);
    assert (events + [e])[..|events|] == events;
  }

  /** Checks the agent against the policy and runs it. */
  method Attempt(policy: Policy, a: Attachment) returns (e: Event)
    ensures e == EventOf(policy, a)
    ensures e.Triggered? <==> Runs(policy, a)
  {
    if a.lookup.LookupFailed? {
      return Skipped(a.node, a.agentId, Some(a.lookup.error), a.time);
    }
    var agent := a.lookup.agent;
    if !agent.active {
      return Skipped(a.node, a.agentId, Some("agent_inactive"), a.time);
    }
    if policy.provider.Some? && agent.provider != policy.provider.value {
      return Skipped(a.node, a.agentId, Some("provider_not_allowed"), a.time);
    }
    var notional := agent.Notional();
    if policy.maxNotional > 0.0 && notional > policy.maxNotional {
      return Skipped(a.node, a.agentId, Some("notional_too_large"), a.time);
    }
    match agent.execution {
      case Executed => e := Triggered(a.node, a.agentId, agent.provider, notional, a.time);
      case NotExecuted(reason) => e := Skipped(a.node, a.agentId, reason, a.time);
      case ExecutionFailed(reason) => e := Skipped(a.node, a.agentId, Some(reason), a.time);
    }
  }

  // ----- Runs of passes under one policy -----

  function LogAt(policy: Policy, start: seq<Event>, passes: seq<Pass>, n: nat): seq<Event>
    requires n <= |passes|
  {
    if n == 0 then start
    else var log := LogAt(policy, start, passes, n - 1); log + PassEvents(policy, log, passes[n - 1])
  }

  /** The events the `i`-th pass of the run records. */
  function EventsAt(policy: Policy, start: seq<Event>, passes: seq<Pass>, i: nat): seq<Event>
    requires i < |passes|
  {
    PassEvents(policy, LogAt(policy, start, passes, i), passes[i])
  }

  /** The times of one pass, in the order they are read. */
  predicate InOrder(p: Pass)
  {
    && p.now <= p.dbNow
    && (forall k :: 0 <= k < |p.attachments| ==> p.dbNow <= p.attachments[k].time)
  }

  predicate Precedes(p: Pass, q: Pass)
  {
    p.dbNow <= q.now && forall k :: 0 <= k < |p.attachments| ==> p.attachments[k].time <= q.now
  }

  /** Passes follow one another and no clock they read runs backwards. */
  predicate Clocked(passes: seq<Pass>)
  {
    && (forall i :: 0 <= i < |passes| ==> InOrder(passes[i]))
    && (forall i, j :: 0 <= i < j < |passes| ==> Precedes(passes[i], passes[j]))
  }

  function TriggersOn(events: seq<Event>, day: int): int
  {
    SumBy(events, (e: Event) => if e.Triggered? && DayOf(e.time) == day then 1 else 0)
  }

  /** How often the first `n` passes of the run trigger on `day`. */
  function RunTriggersOn(policy: Policy, start: seq<Event>, passes: seq<Pass>, n: nat, day: int): int
    requires n <= |passes|
  {
    if n == 0 then 0
    else RunTriggersOn(policy, start, passes, n - 1, day) + TriggersOn(EventsAt(policy, start, passes, n - 1), day)
  }

  /** How many of the first `n` passes trigger on `day`. */
  function PassesTriggeringOn(policy: Policy, start: seq<Event>, passes: seq<Pass>, n: nat, day: int): nat
    requires n <= |passes|
  {
    if n == 0 then 0
    else
      PassesTriggeringOn(policy, start, passes, n - 1, day)
      + if TriggersOn(EventsAt(policy, start, passes, n - 1), day) > 0 then 1 else 0
  }

  function EligibleCount(attachments: seq<Attachment>, p: Pass): int
  {
    SumBy(attachments, (a: Attachment) => if Eligible(a, p) then 1 else 0)
  }

  // ----- What one pass records -----

  /** Each recorded event is that of an eligible attachment, which is where its time comes from. */
  lemma {:induction false} FiredBy(policy: Policy, p: Pass, attachments: seq<Attachment>, e: Event) returns (k: nat)
    requires e in Fire(policy, p, attachments)
    ensures k < |attachments| && Eligible(attachments[k], p) && e == EventOf(policy, attachments[k])
    ensures e.time == attachments[k].time
  {
    var last := |attachments| - 1;
    if Eligible(attachments[last], p) && e == EventOf(policy, attachments[last]) {
      k := last;
    } else {
      k := FiredBy(policy, p, attachments[..last], e);
    }
  }

  /** An agent is run only when every gate is open and the agent is within the policy. */
  lemma TriggeredObeysPolicy(policy: Policy, log: seq<Event>, p: Pass, e: Event)
    requires e in PassEvents(policy, log, p) && e.Triggered?
    ensures p.enabled && policy.active && p.recommendation.state != INSUFFICIENT
    ensures p.recommendation.confidence >= policy.requireConfidence
    ensures policy.provider.Some? ==> e.provider == policy.provider.value
    ensures policy.maxNotional > 0.0 ==> e.notional <= policy.maxNotional
    ensures p.changedNode == Some(e.node)
  {
    var k := FiredBy(policy, p, p.attachments, e);
  }

  lemma {:induction false} FiresAtMostEligible(policy: Policy, p: Pass, attachments: seq<Attachment>, day: int)
    ensures TriggersOn(Fire(policy, p, attachments), day) <= EligibleCount(attachments, p)
  {
    if attachments != [] {
      var front, a := attachments[..|attachments| - 1], attachments[|attachments| - 1];
      FiresAtMostEligible(policy, p, front, day);
      assert attachments == front + [a];
      SumByAppend(front, a, (x: Attachment) => if Eligible(x, p) then 1 else 0);
      if Eligible(a, p) {
        SumByAppend(Fire(policy, p, front), EventOf(policy, a),
                    (e: Event) => if e.Triggered? && DayOf(e.time) == day then 1 else 0);
      } else {
        assert Fire(policy, p, attachments) == Fire(policy, p, front);
      }
    }
  }

  function RunsCount(policy: Policy, p: Pass, attachments: seq<Attachment>): int
  {
    SumBy(attachments, (a: Attachment) => if Eligible(a, p) && Runs(policy, a) then 1 else 0)
  }

  lemma EventTriggersIffRuns(policy: Policy, a: Attachment)
    ensures EventOf(policy, a).Triggered? <==> Runs(policy, a)
  {
  }

  /**
   * A pass records one event per eligible attachment, and a trigger exactly for those whose agent is within the
   * policy and executed.
   */
  lemma {:induction false} EachEligibleIsRecorded(policy: Policy, p: Pass, attachments: seq<Attachment>)
    ensures |Fire(policy, p, attachments)| == EligibleCount(attachments, p)
    ensures TriggerCount(Fire(policy, p, attachments)) == RunsCount(policy, p, attachments)
  {
    if attachments != [] {
      var front, a := attachments[..|attachments| - 1], attachments[|attachments| - 1];
      EachEligibleIsRecorded(policy, p, front);
      EventTriggersIffRuns(policy, a);
      hide Eligible;
      hide Runs;
      hide EventOf;
      assert attachments == front + [a];
      SumByAppend(front, a, (x: Attachment) => if Eligible(x, p) then 1 else 0);
      SumByAppend(front, a, (x: Attachment) => if Eligible(x, p) && Runs(policy, x) then 1 else 0);
      if Eligible(a, p) {
        SumByAppend(Fire(policy, p, front), EventOf(policy, a), (e: Event) => if e.Triggered? then 1 else 0);
      } else {
        assert Fire(policy, p, attachments) == Fire(policy, p, front);
      }
    }
  }

  /** Every skip that names a reason is counted under it, and nothing else is. */
  function SkipsFor(events: seq<Event>, reason: string): int
  {
    SumBy(events, (e: Event) => if e.Skipped? && e.reason == Some(reason) then 1 else 0)
  }

  lemma {:induction false} SkipCountsAreExact(events: seq<Event>, reason: string)
    ensures SkipsFor(events, reason) == if reason in SkipCounts(events) then SkipCounts(events)[reason] else 0
  {
    if events != [] {
      var front, e := events[..|events| - 1], events[|events| - 1];
      SkipCountsAreExact(front, reason);
      assert events == front + [e];
      SumByAppend(front, e, (x: Event) => if x.Skipped? && x.reason == Some(reason) then 1 else 0);
    }
  }

  // ----- The minimum interval -----

  lemma {:induction false} LastTriggerIsLatest(log: seq<Event>, e: Event)
    requires e in log && e.Triggered?
    ensures LastTrigger(log).Some? && e.time <= LastTrigger(log).value
  {
    var last := |log| - 1;
    if e != log[last] {
      LastTriggerIsLatest(log[..last], e);
    }
  }

  lemma {:induction false} LogKeepsEvents(
    policy: Policy, start: seq<Event>, passes: seq<Pass>, i: nat, n: nat, e: Event)
    requires i < n <= |passes| && e in EventsAt(policy, start, passes, i)
    ensures e in LogAt(policy, start, passes, n)
  {
    hide PassEvents;
    if i + 1 < n {
      LogKeepsEvents(policy, start, passes, i, n - 1, e);
    }
  }

  lemma EventTime(policy: Policy, start: seq<Event>, passes: seq<Pass>, i: nat, e: Event) returns (k: nat)
    requires i < |passes| && e in EventsAt(policy, start, passes, i)
    ensures k < |passes[i].attachments| && e.time == passes[i].attachments[k].time
    ensures GateFor(policy, LogAt(policy, start, passes, i), passes[i]).Open?
  {
    hide GateFor;
    k := FiredBy(policy, passes[i], passes[i].attachments, e);
  }

  /** Whatever the log held before, triggers of different passes are at least the minimum interval apart. */
  lemma TriggersAreSpaced(
    policy: Policy, start: seq<Event>, passes: seq<Pass>, i: nat, j: nat, e: Event, f: Event)
    requires Clocked(passes) && i < j < |passes|
    requires e in EventsAt(policy, start, passes, i) && e.Triggered?
    requires f in EventsAt(policy, start, passes, j) && f.Triggered?
    ensures f.time >= e.time + Max(policy.interval, 0) * SECOND
  {
    var k := EventTime(policy, start, passes, i, e);
    var m := EventTime(policy, start, passes, j, f);
    assert Precedes(passes[i], passes[j]) && InOrder(passes[j]);
    LogKeepsEvents(policy, start, passes, i, j, e);
    LastTriggerIsLatest(LogAt(policy, start, passes, j), e);
  }

  // ----- The daily cap -----

  lemma {:induction false} TriggersOnIsTriggersSince(events: seq<Event>, day: int)
    ensures 0 <= TriggersOn(events, day) <= TriggersSince(events, day * DAY)
  {
    if events != [] {
      TriggersOnIsTriggersSince(events[1..], day);
      DayBounds(events[0].time);
    }
  }

  lemma DayBounds(time: int)
    ensures DayOf(time) * DAY <= time < (DayOf(time) + 1) * DAY
  {
  }

  lemma SameDay(t: int, u: int, v: int)
    requires t <= u <= v && DayOf(t) == DayOf(v)
    ensures DayOf(u) == DayOf(t)
  {
  }

  lemma {:induction false} LogCountsRun(policy: Policy, start: seq<Event>, passes: seq<Pass>, n: nat, day: int)
    requires n <= |passes|
    ensures
      0 <= RunTriggersOn(policy, start, passes, n, day) <= TriggersSince(LogAt(policy, start, passes, n), day * DAY)
  {
    hide PassEvents;
    if n == 0 {
      TriggersOnIsTriggersSince(start, day);
    } else {
      LogCountsRun(policy, start, passes, n - 1, day);
      var log, events := LogAt(policy, start, passes, n - 1), EventsAt(policy, start, passes, n - 1);
      TriggersOnIsTriggersSince(events, day);
      SumByConcat(log, events, (e: Event) => if e.Triggered? && e.time >= day * DAY then 1 else 0);
    }
  }

  lemma {:induction false} SomeTriggerOn(events: seq<Event>, day: int) returns (e: Event)
    requires TriggersOn(events, day) > 0
    ensures e in events && e.Triggered? && DayOf(e.time) == day
  {
    hide DayOf;
    if events[0].Triggered? && DayOf(events[0].time) == day {
      e := events[0];
    } else {
      e := SomeTriggerOn(events[1..], day);
    }
  }

  lemma {:induction false} SomeRunTriggerOn(policy: Policy, start: seq<Event>, passes: seq<Pass>, n: nat, day: int)
    returns (i: nat, e: Event)
    requires n <= |passes| && RunTriggersOn(policy, start, passes, n, day) > 0
    ensures i < n && e in EventsAt(policy, start, passes, i) && e.Triggered? && DayOf(e.time) == day
  {
    hide EventsAt;
    hide DayOf;
    hide TriggersOn;
    if TriggersOn(EventsAt(policy, start, passes, n - 1), day) > 0 {
      i := n - 1;
      e := SomeTriggerOn(EventsAt(policy, start, passes, i), day);
    } else {
      i, e := SomeRunTriggerOn(policy, start, passes, n - 1, day);
    }
  }

  /** When a pass triggers on a day, the passes before it triggered less than the cap on that day. */
  lemma BelowCapBefore(policy: Policy, start: seq<Event>, passes: seq<Pass>, n: nat, day: int)
    requires Clocked(passes) && policy.maxPerDay > 0 && n < |passes|
    requires TriggersOn(EventsAt(policy, start, passes, n), day) > 0
    ensures RunTriggersOn(policy, start, passes, n, day) < policy.maxPerDay
  {
    hide RunTriggersOn;
    hide TriggersOn;
    hide EventsAt;
    hide LogAt;
    hide TriggersSince;
    hide LastTrigger;
    hide DayOf;
    if RunTriggersOn(policy, start, passes, n, day) > 0 {
      var f := SomeTriggerOn(EventsAt(policy, start, passes, n), day);
      var i, e := SomeRunTriggerOn(policy, start, passes, n, day);
      var k := EventTime(policy, start, passes, i, e);
      var m := EventTime(policy, start, passes, n, f);
      assert Precedes(passes[i], passes[n]) && InOrder(passes[n]);
      SameDay(e.time, passes[n].dbNow, f.time);
      LogCountsRun(policy, start, passes, n, day);
    }
  }

  /**
   * The daily limits, in every run under one policy and whatever the log held before: at most `maxPerDay`
   * passes trigger on one day, and together they trigger at most one less than that plus as many attachments
   * as one pass can fire.
   */
  lemma {:induction false} DailyLimits(
    policy: Policy, start: seq<Event>, passes: seq<Pass>, n: nat, day: int, most: nat)
    requires Clocked(passes) && policy.maxPerDay > 0 && n <= |passes|
    requires forall i :: 0 <= i < n ==> EligibleCount(passes[i].attachments, passes[i]) <= most
    ensures PassesTriggeringOn(policy, start, passes, n, day) <= policy.maxPerDay
    ensures PassesTriggeringOn(policy, start, passes, n, day) <= RunTriggersOn(policy, start, passes, n, day)
    ensures RunTriggersOn(policy, start, passes, n, day) <= policy.maxPerDay - 1 + most
  {
    hide TriggersOn;
    hide EligibleCount;
    hide Clocked;
    hide GateFor;
    if n > 0 {
      DailyLimits(policy, start, passes, n - 1, day, most);
      var events := EventsAt(policy, start, passes, n - 1);
      TriggersOnIsTriggersSince(events, day);
      if TriggersOn(events, day) > 0 {
        BelowCapBefore(policy, start, passes, n - 1, day);
        NothingTriggers(day);
        FiresAtMostEligible(policy, passes[n - 1], passes[n - 1].attachments, day);
      }
    }
  }

  lemma NothingTriggers(day: int)
    ensures TriggersOn([], day) == 0
  {
  }

  /** So the setting is kept as a cap on triggers where one pass fires at most one attachment ... */
  lemma CapKeptBySingleFirings(policy: Policy, start: seq<Event>, passes: seq<Pass>, day: int)
    requires Clocked(passes) && policy.maxPerDay > 0
    requires forall i :: 0 <= i < |passes| ==> EligibleCount(passes[i].attachments, passes[i]) <= 1
    ensures RunTriggersOn(policy, start, passes, |passes|, day) <= policy.maxPerDay
  {
    DailyLimits(policy, start, passes, |passes|, day, 1);
  }

  /** No two attachments of a cell share both node and agent. */
  predicate Keyed(attachments: seq<Attachment>)
  {
    forall i, j :: 0 <= i < j < |attachments| ==>
      attachments[i].node != attachments[j].node || attachments[i].agentId != attachments[j].agentId
  }

  /** The changed node of a pass is the one its recommendation names. */
  predicate NamesChanged(p: Pass, nodes: seq<Node>)
  {
    match p.recommendation.changed
    case None => p.changedNode.None?
    case Some(k) => k < |nodes| && p.changedNode == Some(nodes[k].id)
  }

  function ReadyActions(): seq<Action> { [Action("x", "go", 0), Action("y", "stay", 1)] }

  /** Two nodes for "go", of which the second has only now got a probability. */
  function ReadyNodes(): seq<Node>
  {
    [Node("m", false, 5_000, 0, Some(10_000), Some(10_000), map["go" := Support]),
     Node("n", false, 5_000, 0, Some(10_000), None, map["go" := Support])]
  }

  /** The same nodes while the second has lost its market. */
  function LostNodes(): seq<Node>
  {
    [Node("m", false, 5_000, 0, Some(10_000), Some(10_000), map["go" := Support]),
     Node("n", false, 5_000, 0, None, Some(10_000), map["go" := Support])]
  }

  function ReadyRecommendation(): Recommendation { Recommend(false, ReadyActions(), ReadyNodes(), 0) }

  /** The cell as the recalculation of the lost nodes leaves it, which has too little signal to pass a gate. */
  function LostState(): Alerts.CellState
  {
    var r := Recommend(false, ReadyActions(), LostNodes(), 0);
    Alerts.CellState(r.state, r.confidence, r.lead, map["m" := Some(10_000), "n" := None], [], [])
  }

  /** What the recalculation that finds the second market again raises. */
  function ReadyFlags(): Alerts.Flags
  {
    Alerts.FlagsOf(LostState(), ReadyRecommendation(), map["m" := Some(10_000), "n" := Some(10_000)])
  }

  lemma PairSums(m: Node, n: Node, name: string)
    ensures LiveCount([m, n]) == (if m.Live() then 1 else 0) + (if n.Live() then 1 else 0)
    ensures ActiveWeight([m, n], 0) == ActivePart(m, 0) + ActivePart(n, 0)
    ensures RawScore(name, [m, n], 0) == Contribution(name, m, 0) + Contribution(name, n, 0)
  {
    hide ActivePart;
    hide Contribution;
    SumByPair(m, n, (x: Node) => if x.Live() then 1 else 0);
    SumByPair(m, n, (x: Node) => ActivePart(x, 0));
    SumByPair(m, n, (x: Node) => Contribution(name, x, 0));
  }

  lemma PairSorted(x: Scored, y: Scored)
    requires Before(x, y)
    ensures Sort([x, y]) == [x, y]
  {
    assert [x, y][1..] == [y] && [y][1..] == [];
  }

  lemma PairRecommended(nodes: seq<Node>, go: int, stay: int)
    requires go == Score(RawScore("go", nodes, 0), ActiveWeight(nodes, 0))
    requires stay == Score(RawScore("stay", nodes, 0), ActiveWeight(nodes, 0))
    requires go >= stay + LEAD_THRESHOLD
    ensures
      Recommend(false, ReadyActions(), nodes, 0).state
      == if LiveCount(nodes) < MIN_LIVE_NODES then INSUFFICIENT else "go"
  {
    hide Sort;
    hide Score;
    hide RawScore;
    hide ActiveWeight;
    hide LiveCount;
    hide LastChanged;
    hide Confidence;
    var actions := ReadyActions();
    var x, y := Scored(actions[0], go), Scored(actions[1], stay);
    assert ActionScores(actions, nodes, 0) == [x, y];
    PairSorted(x, y);
  }

  lemma ReadyParts(m: Node, n: Node)
    requires m == ReadyNodes()[0] && (n == ReadyNodes()[1] || n == LostNodes()[1])
    ensures m.Live() && ActivePart(m, 0) == 5_000
    ensures Contribution("go", m, 0) == 25_000_000 && Contribution("stay", m, 0) == 0 == Contribution("stay", n, 0)
    ensures n.Live() ==> ActivePart(n, 0) == 5_000 && Contribution("go", n, 0) == 25_000_000
    ensures !n.Live() ==> ActivePart(n, 0) == 0 && Contribution("go", n, 0) == 0
  {
  }

  lemma ReadyIsRecommended()
    ensures var r := ReadyRecommendation(); r.state == "go" && r.confidence == 10_000 && r.changed == Some(1)
  {
    hide LiveCount;
    hide ActiveWeight;
    hide RawScore;
    hide Contribution;
    hide ActivePart;
    hide ActionScores;
    hide Sort;
    var m, n := ReadyNodes()[0], ReadyNodes()[1];
    ReadyParts(m, n);
    PairSums(m, n, "go");
    PairSums(m, n, "stay");
    PairRecommended(ReadyNodes(), 10_000, 0);
    assert ReadyNodes()[..1] == [m] && [m][..0] == [];
  }

  lemma LostIsInsufficient()
    ensures LostState().recommendation == INSUFFICIENT && LostState().confidence == 2_500
  {
    hide LiveCount;
    hide ActiveWeight;
    hide RawScore;
    hide Contribution;
    hide ActivePart;
    hide ActionScores;
    hide LastChanged;
    hide Sort;
    var m, n := LostNodes()[0], LostNodes()[1];
    ReadyParts(m, n);
    PairSums(m, n, "go");
  }

  lemma ReadyFlagsRaised()
    ensures ReadyFlags().recommendationChanged && ReadyFlags().confidenceGain
  {
    hide Recommend;
    ReadyIsRecommended();
    LostIsInsufficient();
  }

  function ReadyAttachment(i: nat): Attachment
  {
    Attachment(
      true, OnConfidenceGain, "n", Decimal.ToString(i), Found(Agent(true, "limitless", 1.0, 1.0, Executed)), 0)
  }

  lemma ReadyAttachmentsKeyed(k: nat)
    ensures Keyed(seq(k, (i: nat) => ReadyAttachment(i)))
  {
    forall i: nat, j: nat | i < j < k
      ensures Decimal.ToString(i) != Decimal.ToString(j)
    {
      Decimal.ToStringValue(i);
      Decimal.ToStringValue(j);
    }
  }

  /** A pass at time 0 that fires `k` attachments. */
  function ReadyPass(k: nat): Pass
  {
    Pass(true, 0, 0, ReadyRecommendation(), Some("n"), ReadyFlags(), seq(k, (i: nat) => ReadyAttachment(i)))
  }

  function CappedPolicy(cap: int): Policy { Policy(true, 0, 0, cap, None, 0.0) }

  lemma ReadyAttachmentFires(cap: nat, k: nat, i: nat)
    ensures Eligible(ReadyAttachment(i), ReadyPass(k))
    ensures EventOf(CappedPolicy(cap), ReadyAttachment(i)) == Triggered("n", Decimal.ToString(i), "limitless", 1.0, 0)
  {
    hide ReadyRecommendation;
    hide ReadyFlags;
    ReadyFlagsRaised();
  }

  lemma TriggersAppend(events: seq<Event>, e: Event)
    ensures e.Triggered? && e.time == 0 ==>
      && TriggersOn(events + [e], 0) == TriggersOn(events, 0) + 1
      && TriggersSince(events + [e], 0) == TriggersSince(events, 0) + 1
  {
    hide SumBy;
    DayBounds(0);
    SumByAppend(events, e, (x: Event) => if x.Triggered? && DayOf(x.time) == 0 then 1 else 0);
    SumByAppend(events, e, (x: Event) => if x.Triggered? && x.time >= 0 then 1 else 0);
  }

  lemma EligibleAppend(front: seq<Attachment>, a: Attachment, p: Pass)
    ensures Eligible(a, p) ==> EligibleCount(front + [a], p) == EligibleCount(front, p) + 1
  {
    hide SumBy;
    hide Eligible;
    SumByAppend(front, a, (x: Attachment) => if Eligible(x, p) then 1 else 0);
  }

  lemma FireAppend(policy: Policy, p: Pass, front: seq<Attachment>, a: Attachment)
    ensures Eligible(a, p) ==> Fire(policy, p, front + [a]) == Fire(policy, p, front) + [EventOf(policy, a)]
  {
    hide Eligible;
    hide EventOf;
    assert (front + [a])[..|front|] == front;
  }

  lemma NothingReady(policy: Policy, p: Pass)
    ensures Fire(policy, p, []) == [] && EligibleCount([], p) == 0
    ensures TriggersOn([], 0) == 0 && TriggersSince([], 0) == 0
  {
  }

  lemma {:induction false} ReadyFire(policy: Policy, p: Pass, attachments: seq<Attachment>)
    requires forall a :: a in attachments ==>
      Eligible(a, p) && EventOf(policy, a).Triggered? && EventOf(policy, a).time == 0
    ensures
      var events := Fire(policy, p, attachments);
      && TriggersOn(events, 0) == |attachments| && TriggersSince(events, 0) == |attachments|
      && EligibleCount(attachments, p) == |attachments|
  {
    hide Eligible;
    hide EventOf;
    hide Fire;
    hide TriggersOn;
    hide TriggersSince;
    hide EligibleCount;
    if attachments == [] {
      NothingReady(policy, p);
    } else {
      var front, a := attachments[..|attachments| - 1], attachments[|attachments| - 1];
      assert attachments == front + [a];
      ReadyFire(policy, p, front);
      FireAppend(policy, p, front, a);
      TriggersAppend(Fire(policy, p, front), EventOf(policy, a));
      EligibleAppend(front, a, p);
    }
  }

  lemma ReadyPassFires(cap: nat, k: nat)
    ensures
      var p := ReadyPass(k);
      var events := Fire(CappedPolicy(cap), p, p.attachments);
      TriggersOn(events, 0) == k && TriggersSince(events, 0) == k && EligibleCount(p.attachments, p) == k
  {
    hide Eligible;
    hide EventOf;
    hide Fire;
    hide ReadyRecommendation;
    hide ReadyFlags;
    hide TriggersOn;
    hide TriggersSince;
    hide EligibleCount;
    var p := ReadyPass(k);
    forall a | a in p.attachments
      ensures Eligible(a, p) && EventOf(CappedPolicy(cap), a).Triggered? && EventOf(CappedPolicy(cap), a).time == 0
    {
      var i :| 0 <= i < k && p.attachments[i] == a;
      ReadyAttachmentFires(cap, k, i);
    }
    ReadyFire(CappedPolicy(cap), p, p.attachments);
  }

  lemma ReadyPassOpens(cap: nat, k: nat, log: seq<Event>)
    requires TriggersSince(log, 0) < cap
    ensures GateFor(CappedPolicy(cap), log, ReadyPass(k)).Open?
  {
    hide ReadyRecommendation;
    hide ReadyFlags;
    hide TriggersSince;
    ReadyIsRecommended();
    ReadyFlagsRaised();
  }

  function ReadyPasses(cap: nat, most: nat): seq<Pass>
    requires cap >= 1
  {
    seq(cap - 1, _ => ReadyPass(1)) + [ReadyPass(most)]
  }

  lemma ReadyStart(policy: Policy, passes: seq<Pass>)
    ensures TriggersSince(LogAt(policy, [], passes, 0), 0) == 0 && RunTriggersOn(policy, [], passes, 0, 0) == 0
  {
  }

  lemma {:induction false} ReadyRun(cap: nat, most: nat, n: nat)
    requires cap >= 1 && n < cap
    ensures TriggersSince(LogAt(CappedPolicy(cap), [], ReadyPasses(cap, most), n), 0) == n
    ensures RunTriggersOn(CappedPolicy(cap), [], ReadyPasses(cap, most), n, 0) == n
  {
    hide LogAt;
    hide EventsAt;
    hide TriggersOn;
    hide TriggersSince;
    hide CappedPolicy;
    hide ReadyPass;
    if n == 0 {
      ReadyStart(CappedPolicy(cap), ReadyPasses(cap, most));
    } else {
      ReadyRun(cap, most, n - 1);
      ReadyPassRecords(cap, most, n - 1, 1);
    }
  }

  lemma ReadyPassRecords(cap: nat, most: nat, n: nat, k: nat)
    requires cap >= 1 && n < cap && ReadyPasses(cap, most)[n] == ReadyPass(k)
    requires TriggersSince(LogAt(CappedPolicy(cap), [], ReadyPasses(cap, most), n), 0) == n
    ensures
      var policy, passes := CappedPolicy(cap), ReadyPasses(cap, most);
      && TriggersOn(EventsAt(policy, [], passes, n), 0) == k
      && TriggersSince(LogAt(policy, [], passes, n + 1), 0) == n + k
  {
    hide EventOf;
    hide GateFor;
    hide TriggersOn;
    hide TriggersSince;
    hide Fire;
    hide ReadyPass;
    hide SumBy;
    var policy, passes := CappedPolicy(cap), ReadyPasses(cap, most);
    var log := LogAt(policy, [], passes, n);
    ReadyPassOpens(cap, k, log);
    ReadyPassFires(cap, k);
    TriggersSinceConcat(log, EventsAt(policy, [], passes, n), 0);
  }

  lemma TriggersSinceConcat(a: seq<Event>, b: seq<Event>, start: int)
    ensures TriggersSince(a + b, start) == TriggersSince(a, start) + TriggersSince(b, start)
  {
    hide SumBy;
    SumByConcat(a, b, (e: Event) => if e.Triggered? && e.time >= start then 1 else 0);
  }

  lemma ReadyClocked(cap: nat, most: nat)
    requires cap >= 1
    ensures Clocked(ReadyPasses(cap, most))
  {
    hide ReadyRecommendation;
    hide ReadyFlags;
  }

  /** The pass has the recommendation, the changed node and the flags of a recalculation, and distinct keys. */
  predicate Recalculated(p: Pass)
  {
    && p.recommendation == ReadyRecommendation() && p.flags == ReadyFlags()
    && NamesChanged(p, ReadyNodes()) && Keyed(p.attachments)
  }

  lemma ReadyPassIsRecalculated(k: nat)
    ensures Recalculated(ReadyPass(k))
  {
    hide ReadyRecommendation;
    hide ReadyFlags;
    hide Keyed;
    ReadyIsRecommended();
    ReadyAttachmentsKeyed(k);
  }

  lemma ReadyPassesFit(cap: nat, most: nat, i: nat)
    requires i < cap
    ensures
      var p := ReadyPasses(cap, most)[i];
      EligibleCount(p.attachments, p) <= Max(most, 1) && Recalculated(p)
  {
    hide EligibleCount;
    hide Recalculated;
    hide ReadyPass;
    var k: nat := if i < cap - 1 then 1 else most;
    ReadyPassFires(cap, k);
    ReadyPassIsRecalculated(k);
  }

  /**
   * ... and the bound is reached: with passes that can fire two attachments or more, the setting is exceeded.
   * Every pass follows a recalculation that finds a market again that was lost in between.
   */
  lemma {:induction false} LimitIsReached(cap: nat, most: nat)
    requires cap >= 1
    ensures Clocked(ReadyPasses(cap, most))
    ensures forall i :: 0 <= i < cap ==>
      var p := ReadyPasses(cap, most)[i]; EligibleCount(p.attachments, p) <= Max(most, 1) && Recalculated(p)
    ensures RunTriggersOn(CappedPolicy(cap), [], ReadyPasses(cap, most), cap, 0) == cap - 1 + most
  {
    hide Clocked;
    hide EligibleCount;
    hide Recalculated;
    hide ReadyPass;
    hide EventsAt;
    hide TriggersOn;
    hide TriggersSince;
    hide LogAt;
    ReadyClocked(cap, most);
    var passes := ReadyPasses(cap, most);
    forall i | 0 <= i < cap
      ensures EligibleCount(passes[i].attachments, passes[i]) <= Max(most, 1) && Recalculated(passes[i])
    {
      ReadyPassesFit(cap, most, i);
    }
    ReadyRun(cap, most, cap - 1);
    ReadyPassRecords(cap, most, cap - 1, most);
  }
}
