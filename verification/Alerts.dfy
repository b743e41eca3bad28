/** What a recalculation of a decision cell persists, records and alerts on (app/src/api/decisions.rs). */
module Alerts {
  import opened Options
  import opened Recommendation

  /** What an alert watches; an alert of any other kind is stored under its own name but never fires. */
  datatype Kind =
    | OnChange
    | ConfidenceBelow(bps: int)
    | ActionLeadAbove(bps: int)
    | NodeCross(node: string, bps: int, below: bool)
    | Unknown(name: string)

  datatype Alert = Alert(kind: Kind, active: bool)

  datatype Event =
    | RecommendationChanged(previous: string, current: string)
    | ThresholdCrossed(kind: Kind)
    | ConfidenceDropped(bps: int, confidence: int)
    | OtherEvent

  datatype Flags = Flags(
    recommendationChanged: bool, thresholdCrossed: bool, confidenceDropped: bool, confidenceGain: bool)

  /** The cell's persisted fields, its nodes' last probabilities, its alerts and its event log. */
  datatype CellState = CellState(
    recommendation: string, confidence: int, lead: int, last: map<string, Option<int>>, alerts: seq<Alert>,
    events: seq<Event>)

  predicate Fresh(s: CellState)
  {
    s.recommendation == INSUFFICIENT && s.confidence == 0 && s.lead == 0 && s.events == []
  }

  type Resolved = map<string, Option<int>>

  function Current(resolved: Resolved, node: string): Option<int> { if node in resolved then resolved[node] else None }

  // ----- One recalculation -----

  predicate Crosses(k: Kind, s: CellState, r: Recommendation, resolved: Resolved)
  {
    match k
    case OnChange => s.recommendation != r.state
    case ConfidenceBelow(bps) => s.confidence >= bps && r.confidence < bps
    case ActionLeadAbove(bps) => s.lead < bps && r.lead >= bps
    case NodeCross(node, bps, below) =>
      && node in s.last && s.last[node].Some? && Current(resolved, node).Some?
      && (if below then s.last[node].value >= bps && Current(resolved, node).value < bps
          else s.last[node].value < bps && Current(resolved, node).value >= bps)
    case Unknown(_) => false
  }

  predicate Fires(a: Alert, s: CellState, r: Recommendation, resolved: Resolved)
  {
    a.active && Crosses(a.kind, s, r, resolved)
  }

  function EventFor(k: Kind, s: CellState, r: Recommendation): Event
  {
    match k
    case OnChange => RecommendationChanged(s.recommendation, r.state)
    case ConfidenceBelow(bps) => ConfidenceDropped(bps, r.confidence)
    case _ => ThresholdCrossed(k)
  }

  function AlertEvents(alerts: seq<Alert>, s: CellState, r: Recommendation, resolved: Resolved): seq<Event>
  {
    if alerts == [] then []
    else
      var a := alerts[|alerts| - 1];
      AlertEvents(alerts[..|alerts| - 1], s, r, resolved)
      + if Fires(a, s, r, resolved) then [EventFor(a.kind, s, r)] else []
  }

  function ChangeEvents(s: CellState, r: Recommendation): seq<Event>
  {
    if s.recommendation != r.state then [RecommendationChanged(s.recommendation, r.state)] else []
  }

  /** Every node of the cell that was resolved stores what it resolved to. */
  function Snapshots(last: map<string, Option<int>>, resolved: Resolved): map<string, Option<int>>
  {
    map node | node in last :: if node in resolved then resolved[node] else last[node]
  }

  function Recalculated(s: CellState, r: Recommendation, resolved: Resolved): CellState
  {
    s.(recommendation := r.state, confidence := r.confidence, lead := r.lead, last := Snapshots(s.last, resolved),
       events := s.events + ChangeEvents(s, r) + AlertEvents(s.alerts, s, r, resolved))
  }

  predicate SomeFires(alerts: seq<Alert>, s: CellState, r: Recommendation, resolved: Resolved, confidence: bool)
  {
    exists i :: 0 <= i < |alerts| && Fires(alerts[i], s, r, resolved)
             && if confidence then alerts[i].kind.ConfidenceBelow?
                else alerts[i].kind.ActionLeadAbove? || alerts[i].kind.NodeCross?
  }

  function FlagsOf(s: CellState, r: Recommendation, resolved: Resolved): Flags
  {
    Flags(s.recommendation != r.state,
          s.lead < LEAD_THRESHOLD <= r.lead || SomeFires(s.alerts, s, r, resolved, false),
          (0 < s.confidence && r.confidence < s.confidence) || SomeFires(s.alerts, s, r, resolved, true),
          r.confidence > s.confidence)
  }

  class Cell {
    var recommendation: string
    var confidence: int
    var lead: int
    var last: map<string, Option<int>>
    var alerts: seq<Alert>
    var events: seq<Event>

    ghost function State(): CellState
      reads this
    {
      CellState(recommendation, confidence, lead, last, alerts, events)
    }

    constructor (nodes: set<string>)
      ensures Fresh(State()) && alerts == [] && last.Keys == nodes
    {
      recommendation, confidence, lead := INSUFFICIENT, 0, 0;
      last, alerts, events := map node | node in nodes :: None, [], [];
    }

    /** Persists the new recommendation, then compares it with what the cell held when it was loaded. */
    method Recalculate(r: Recommendation, resolved: Resolved) returns (flags: Flags)
      modifies this
      ensures State() == Recalculated(old(State()), r, resolved)
      ensures flags == FlagsOf(old(State()), r, resolved)
    {
      hide Snapshots;
      hide SomeFires;
      hide AlertEvents;
      var graph := CellState(recommendation, confidence, lead, last, alerts, events);
      last := Snapshots(last, resolved);
      recommendation, confidence, lead := r.state, r.confidence, r.lead;
      if graph.recommendation != r.state {
        events := events + [RecommendationChanged(graph.recommendation, r.state)];
      }
      var fired, crossed, dropped := EvaluateAlerts(graph, r, resolved);
      events := events + fired;
      if graph.lead < LEAD_THRESHOLD && r.lead >= LEAD_THRESHOLD {
        crossed := true;
      }
      if graph.confidence > 0 && r.confidence < graph.confidence {
        dropped := true;
      }
      flags := Flags(graph.recommendation != r.state, crossed, dropped, r.confidence > graph.confidence);
    }

    /** Alerts are unique by kind: an alert of the same kind is replaced where it stands. */
    method Upsert(a: Alert)
      modifies this
      ensures State() == Upserted(old(State()), a)
    {
      var k := 0;
      while k < |alerts| && !SameKind(alerts[k].kind, a.kind)
        invariant 0 <= k <= |alerts|
        invariant forall i :: 0 <= i < k ==> !SameKind(alerts[i].kind, a.kind)
      {
        k := k + 1;
      }
      WithAlertAt(alerts, a, k);
      alerts := if k < |alerts| then alerts[k := a] else alerts + [a];
      events := events + [OtherEvent];
    }
  }

  method EvaluateAlert(a: Alert, graph: CellState, r: Recommendation, resolved: Resolved)
    returns (fired: bool, event: Event)
    ensures fired == Fires(a, graph, r, resolved)
    ensures fired ==> event == EventFor(a.kind, graph, r)
  {
    fired, event := false, ThresholdCrossed(a.kind);
    if !a.active {
      return;
    }
    match a.kind {
      case OnChange =>
        fired := graph.recommendation != r.state;
        event := RecommendationChanged(graph.recommendation, r.state);
      case ConfidenceBelow(bps) =>
        fired := graph.confidence >= bps && r.confidence < bps;
        if fired {
          event := ConfidenceDropped(bps, r.confidence);
        }
      case ActionLeadAbove(bps) =>
        fired := graph.lead < bps && r.lead >= bps;
      case NodeCross(node, bps, below) =>
        if node in graph.last {
          var previous, current := graph.last[node], Current(resolved, node);
          if previous.Some? && current.Some? {
            fired := if below then previous.value >= bps && current.value < bps
                     else previous.value < bps && current.value >= bps;
          }
        }
      case Unknown(_) =>
    }
  }

  method EvaluateAlerts(graph: CellState, r: Recommendation, resolved: Resolved)
    returns (events: seq<Event>, crossed: bool, dropped: bool)
    ensures events == AlertEvents(graph.alerts, graph, r, resolved)
    ensures crossed == SomeFires(graph.alerts, graph, r, resolved, false)
    ensures dropped == SomeFires(graph.alerts, graph, r, resolved, true)
  {
    hide Fires;
    hide EventFor;
    hide SomeFires;
    hide AlertEvents;
    events, crossed, dropped := [], false, false;
    NoAlerts(graph, r, resolved);
    for k := 0 to |graph.alerts|
      invariant events == AlertEvents(graph.alerts[..k], graph, r, resolved)
      invariant crossed == SomeFires(graph.alerts[..k], graph, r, resolved, false)
      invariant dropped == SomeFires(graph.alerts[..k], graph, r, resolved, true)
    {
      AlertStep(graph.alerts, k, graph, r, resolved);
      var a := graph.alerts[k];
      var fired, event := EvaluateAlert(a, graph, r, resolved);
      if fired {
        if a.kind.ConfidenceBelow? {
          dropped := true;
        } else if a.kind.ActionLeadAbove? || a.kind.NodeCross? {
          crossed := true;
        }
        events := events + [event];
      }
    }
    assert graph.alerts[..|graph.alerts|] == graph.alerts;
  }

  lemma NoAlerts(s: CellState, r: Recommendation, resolved: Resolved)
    ensures AlertEvents(s.alerts[..0], s, r, resolved) == []
    ensures forall confidence :: !SomeFires(s.alerts[..0], s, r, resolved, confidence)
  {
  }

  lemma {:induction false} WithAlertAt(alerts: seq<Alert>, a: Alert, k: nat)
    requires k <= |alerts| && forall i :: 0 <= i < k ==> !SameKind(alerts[i].kind, a.kind)
    requires k < |alerts| ==> SameKind(alerts[k].kind, a.kind)
    ensures WithAlert(alerts, a) == if k < |alerts| then alerts[k := a] else alerts + [a]
  {
    hide SameKind;
    if k > 0 {
      WithAlertAt(alerts[1..], a, k - 1);
    }
  }

  lemma AlertStep(alerts: seq<Alert>, k: nat, s: CellState, r: Recommendation, resolved: Resolved)
    requires k < |alerts|
    ensures AlertEvents(alerts[..k + 1], s, r, resolved)
         == AlertEvents(alerts[..k], s, r, resolved)
            + if Fires(alerts[k], s, r, resolved) then [EventFor(alerts[k].kind, s, r)] else []
    ensures forall confidence :: SomeFires(alerts[..k + 1], s, r, resolved, confidence) <==>
      || SomeFires(alerts[..k], s, r, resolved, confidence)
      || (Fires(alerts[k], s, r, resolved)
          && if confidence then alerts[k].kind.ConfidenceBelow?
             else alerts[k].kind.ActionLeadAbove? || alerts[k].kind.NodeCross?)
  {
    assert alerts[..k + 1][..k] == alerts[..k];
    hide Fires;
    forall confidence
      ensures SomeFires(alerts[..k + 1], s, r, resolved, confidence) <==>
        || SomeFires(alerts[..k], s, r, resolved, confidence)
        || (Fires(alerts[k], s, r, resolved)
            && if confidence then alerts[k].kind.ConfidenceBelow?
               else alerts[k].kind.ActionLeadAbove? || alerts[k].kind.NodeCross?)
    {
      assert forall i :: 0 <= i < k ==> alerts[..k][i] == alerts[..k + 1][i];
      assert alerts[..k + 1][k] == alerts[k];
    }
  }

  // ----- Runs -----

  predicate SameKind(a: Kind, b: Kind)
  {
    || (a.OnChange? && b.OnChange?) || (a.ConfidenceBelow? && b.ConfidenceBelow?)
    || (a.ActionLeadAbove? && b.ActionLeadAbove?) || (a.NodeCross? && b.NodeCross?) || (a.Unknown? && a == b)
  }

  function WithAlert(alerts: seq<Alert>, a: Alert): seq<Alert>
  {
    if alerts == [] then [a]
    else if SameKind(alerts[0].kind, a.kind) then [a] + alerts[1..]
    else [alerts[0]] + WithAlert(alerts[1..], a)
  }

  function Upserted(s: CellState, a: Alert): CellState
  {
    s.(alerts := WithAlert(s.alerts, a), events := s.events + [OtherEvent])
  }

  /** A node is added without a probability; other handlers only log events. */
  datatype Step =
    | Recalculation(r: Recommendation, resolved: Resolved)
    | AddNode(node: string)
    | UpsertAlert(alert: Alert)
    | LogEvent

  function Apply(s: CellState, step: Step): CellState
  {
    match step
    case Recalculation(r, resolved) => Recalculated(s, r, resolved)
    case AddNode(node) => s.(last := s.last[node := None], events := s.events + [OtherEvent])
    case UpsertAlert(a) => Upserted(s, a)
    case LogEvent => s.(events := s.events + [OtherEvent])
  }

  function StateAt(start: CellState, steps: seq<Step>, n: nat): CellState
    requires n <= |steps|
  {
    if n == 0 then start else Apply(StateAt(start, steps, n - 1), steps[n - 1])
  }

  // ----- Alerts re-arm -----

  /** Where the persisted value a threshold alert watches stands. */
  datatype Side = Armed | Tripped | Missing

  predicate Threshold(k: Kind) { k.ConfidenceBelow? || k.ActionLeadAbove? || k.NodeCross? }

  function SideOf(k: Kind, s: CellState): Side
    requires Threshold(k)
  {
    match k
    case ConfidenceBelow(bps) => if s.confidence < bps then Tripped else Armed
    case ActionLeadAbove(bps) => if s.lead >= bps then Tripped else Armed
    case NodeCross(node, bps, below) =>
      if node !in s.last || s.last[node].None? then Missing
      else if (below && s.last[node].value < bps) || (!below && s.last[node].value >= bps) then Tripped
      else Armed
  }

  /** Some active alert of kind `k`, threshold included, fires in step `i`. */
  predicate FiresAt(start: CellState, steps: seq<Step>, i: nat, k: Kind)
    requires i < |steps|
  {
    && steps[i].Recalculation?
    && Alert(k, true) in StateAt(start, steps, i).alerts
    && Crosses(k, StateAt(start, steps, i), steps[i].r, steps[i].resolved)
  }

  /** A threshold alert fires exactly when a recalculation takes the persisted value from armed to tripped. */
  lemma CrossesIsTripping(k: Kind, s: CellState, r: Recommendation, resolved: Resolved)
    requires Threshold(k)
    ensures k.NodeCross? ==> k.node in resolved || !Crosses(k, s, r, resolved)
    ensures !k.NodeCross? || k.node in resolved ==>
      (Crosses(k, s, r, resolved) <==> SideOf(k, s) == Armed && SideOf(k, Recalculated(s, r, resolved)) == Tripped)
  {
  }

  /** Only a recalculation arms an alert. */
  lemma OnlyRecalculationArms(k: Kind, s: CellState, step: Step)
    requires Threshold(k) && SideOf(k, s) != Armed && SideOf(k, Apply(s, step)) == Armed
    ensures step.Recalculation?
  {
  }

  lemma {:induction false} ArmedBetween(start: CellState, steps: seq<Step>, i: nat, j: nat, k: Kind) returns (m: nat)
    requires i < j < |steps| && Threshold(k)
    requires SideOf(k, StateAt(start, steps, i)) != Armed && SideOf(k, StateAt(start, steps, j)) == Armed
    ensures i <= m < j && steps[m].Recalculation? && SideOf(k, StateAt(start, steps, m)) != Armed
    ensures SideOf(k, StateAt(start, steps, m + 1)) == Armed
    decreases j - i
  {
    hide SideOf;
    if SideOf(k, StateAt(start, steps, i + 1)) == Armed {
      OnlyRecalculationArms(k, StateAt(start, steps, i), steps[i]);
      m := i;
    } else {
      m := ArmedBetween(start, steps, i + 1, j, k);
    }
  }

  /**
   * Between two firings of the same threshold alert, some recalculation in between persisted a value back on
   * the other side of the threshold.
   */
  lemma FiringsAreSeparated(start: CellState, steps: seq<Step>, i: nat, j: nat, k: Kind) returns (m: nat)
    requires i < j < |steps| && Threshold(k)
    requires FiresAt(start, steps, i, k) && FiresAt(start, steps, j, k)
    ensures i < m < j && steps[m].Recalculation?
    ensures SideOf(k, StateAt(start, steps, m)) != Armed && SideOf(k, StateAt(start, steps, m + 1)) == Armed
  {
    CrossesIsTripping(k, StateAt(start, steps, i), steps[i].r, steps[i].resolved);
    CrossesIsTripping(k, StateAt(start, steps, j), steps[j].r, steps[j].resolved);
    assert StateAt(start, steps, i + 1) == Recalculated(StateAt(start, steps, i), steps[i].r, steps[i].resolved);
    m := ArmedBetween(start, steps, i + 1, j, k);
  }

  /** From `i` up to `j` the alert is active, and recalculations resolve the node it watches, as every node is. */
  predicate Watched(start: CellState, steps: seq<Step>, i: nat, j: nat, k: Kind)
    requires j <= |steps|
  {
    forall m: nat :: i <= m < j ==>
      && Alert(k, true) in StateAt(start, steps, m).alerts
      && (k.NodeCross? && steps[m].Recalculation? ==> k.node in steps[m].resolved)
  }

  /** Only a recalculation moves a value across. */
  lemma OnlyRecalculationTrips(k: Kind, s: CellState, step: Step)
    requires Threshold(k) && SideOf(k, s) == Armed && SideOf(k, Apply(s, step)) == Tripped
    ensures step.Recalculation?
  {
  }

  /** A watched alert fires in a step exactly when the step takes the persisted value from armed to tripped. */
  lemma FiresIffTrips(start: CellState, steps: seq<Step>, m: nat, k: Kind)
    requires m < |steps| && Threshold(k) && Watched(start, steps, m, m + 1, k)
    ensures FiresAt(start, steps, m, k)
       <==> SideOf(k, StateAt(start, steps, m)) == Armed && SideOf(k, StateAt(start, steps, m + 1)) == Tripped
  {
    hide SideOf;
    hide Crosses;
    hide Recalculated;
    var s := StateAt(start, steps, m);
    assert StateAt(start, steps, m + 1) == Apply(s, steps[m]);
    if steps[m].Recalculation? {
      CrossesIsTripping(k, s, steps[m].r, steps[m].resolved);
    } else if SideOf(k, s) == Armed && SideOf(k, StateAt(start, steps, m + 1)) == Tripped {
      OnlyRecalculationTrips(k, s, steps[m]);
    }
  }

  /** Between `i` and `j` the persisted value only becomes tripped when it was missing, or tripped already. */
  predicate EntersTrippedUnseen(start: CellState, steps: seq<Step>, i: nat, j: nat, k: Kind)
    requires j <= |steps| && Threshold(k)
  {
    forall m: nat :: i <= m < j && SideOf(k, StateAt(start, steps, m + 1)) == Tripped ==>
      SideOf(k, StateAt(start, steps, m)) != Armed
  }

  predicate FiresBetween(start: CellState, steps: seq<Step>, i: nat, j: nat, k: Kind)
    requires j <= |steps|
  {
    exists m: nat :: i <= m < j && FiresAt(start, steps, m, k)
  }

  /**
   * The exact condition over a stretch of a run: a watched alert stays silent if and only if every entry into the
   * tripped side comes from a missing value, or from the tripped side itself.
   */
  lemma SilentIffEntersUnseen(start: CellState, steps: seq<Step>, i: nat, j: nat, k: Kind)
    requires i <= j <= |steps| && Threshold(k) && Watched(start, steps, i, j, k)
    ensures !FiresBetween(start, steps, i, j, k) <==> EntersTrippedUnseen(start, steps, i, j, k)
  {
    hide SideOf;
    hide FiresAt;
    hide StateAt;
    if FiresBetween(start, steps, i, j, k) {
      var m: nat :| i <= m < j && FiresAt(start, steps, m, k);
      WatchedStep(start, steps, i, j, k, m);
      FiresIffTrips(start, steps, m, k);
    } else {
      forall m: nat | i <= m < j && SideOf(k, StateAt(start, steps, m + 1)) == Tripped
        ensures SideOf(k, StateAt(start, steps, m)) != Armed
      {
        WatchedStep(start, steps, i, j, k, m);
        FiresIffTrips(start, steps, m, k);
      }
    }
  }

  lemma WatchedStep(start: CellState, steps: seq<Step>, i: nat, j: nat, k: Kind, m: nat)
    requires i <= m < j <= |steps| && Watched(start, steps, i, j, k)
    ensures Watched(start, steps, m, m + 1, k)
  {
  }

  /** From `i` up to `j` the watched value is never missing. */
  predicate Known(start: CellState, steps: seq<Step>, i: nat, j: nat, k: Kind)
    requires j <= |steps| && Threshold(k)
  {
    forall m: nat :: i <= m < j ==> SideOf(k, StateAt(start, steps, m)) != Missing
  }

  /** So a watched value that is never missing and moves from armed to tripped sets the alert off on the way. */
  lemma {:induction false} CrossingIsNotMissed(
    start: CellState, steps: seq<Step>, i: nat, j: nat, k: Kind)
    returns (m: nat)
    requires i < j <= |steps| && Threshold(k) && Watched(start, steps, i, j, k) && Known(start, steps, i, j, k)
    requires SideOf(k, StateAt(start, steps, i)) == Armed && SideOf(k, StateAt(start, steps, j)) == Tripped
    ensures i <= m < j && FiresAt(start, steps, m, k)
    decreases j - i
  {
    hide SideOf;
    hide FiresAt;
    hide StateAt;
    if SideOf(k, StateAt(start, steps, i + 1)) == Tripped {
      WatchedStep(start, steps, i, j, k, i);
      FiresIffTrips(start, steps, i, k);
      m := i;
    } else {
      m := CrossingIsNotMissed(start, steps, i + 1, j, k);
    }
  }

  /** Without a value in between, a node's crossing goes unnoticed: 40 % to no value to 60 % never fires at 50 %. */
  lemma CrossingThroughMissingIsLost(r: Recommendation)
    ensures
      var k := NodeCross("n", 5_000, false);
      var start := CellState(INSUFFICIENT, 0, 0, map["n" := Some(4_000)], [Alert(k, true)], []);
      var steps := [Recalculation(r, map["n" := None]), Recalculation(r, map["n" := Some(6_000)])];
      && SideOf(k, start) == Armed && SideOf(k, StateAt(start, steps, 2)) == Tripped
      && !FiresAt(start, steps, 0, k) && !FiresAt(start, steps, 1, k)
  {
    var k := NodeCross("n", 5_000, false);
    var start := CellState(INSUFFICIENT, 0, 0, map["n" := Some(4_000)], [Alert(k, true)], []);
    var steps := [Recalculation(r, map["n" := None]), Recalculation(r, map["n" := Some(6_000)])];
    var mid := StateAt(start, steps, 1);
    assert StateAt(start, steps, 0) == start && mid == Recalculated(start, r, map["n" := None]);
    assert mid.last["n"] == None;
    assert StateAt(start, steps, 2) == Recalculated(mid, r, map["n" := Some(6_000)]);
    assert StateAt(start, steps, 2).last["n"] == Some(6_000);
  }

  // ----- The history of recommendations -----

  function Changes(events: seq<Event>): seq<Event>
  {
    if events == [] then []
    else
      var e := events[|events| - 1];
      Changes(events[..|events| - 1]) + if e.RecommendationChanged? then [e] else []
  }

  /** Each change starts where the previous one ended, or repeats it; the last one ends at `now`. */
  predicate Linked(changes: seq<Event>, now: string)
  {
    && (forall i :: 0 <= i < |changes| ==>
          changes[i].RecommendationChanged? && changes[i].previous != changes[i].current)
    && (forall i :: 0 < i < |changes| ==> changes[i] == changes[i - 1] || changes[i].previous == changes[i - 1].current)
    && (changes == [] ==> now == INSUFFICIENT)
    && (changes != [] ==> changes[0].previous == INSUFFICIENT && changes[|changes| - 1].current == now)
  }

  lemma {:induction false} ChangesConcat(a: seq<Event>, b: seq<Event>)
    ensures Changes(a + b) == Changes(a) + Changes(b)
    decreases |b|
  {
    if b == [] {
      assert a + b == a;
    } else {
      assert (a + b)[..|a + b| - 1] == a + b[..|b| - 1];
      ChangesConcat(a, b[..|b| - 1]);
    }
  }

  lemma {:induction false} AlertChanges(alerts: seq<Alert>, s: CellState, r: Recommendation, resolved: Resolved)
    ensures forall e :: e in Changes(AlertEvents(alerts, s, r, resolved)) ==>
      s.recommendation != r.state && e == RecommendationChanged(s.recommendation, r.state)
  {
    if alerts != [] {
      var a := alerts[|alerts| - 1];
      AlertChanges(alerts[..|alerts| - 1], s, r, resolved);
      var fired := if Fires(a, s, r, resolved) then [EventFor(a.kind, s, r)] else [];
      ChangesConcat(AlertEvents(alerts[..|alerts| - 1], s, r, resolved), fired);
      assert Changes([]) == [];
      assert fired != [] ==> fired[..0] == [];
    }
  }

  lemma LinkedAppend(changes: seq<Event>, more: seq<Event>, was: string, now: string)
    requires Linked(changes, was)
    requires forall e :: e in more ==> was != now && e == RecommendationChanged(was, now)
    requires more == [] ==> was == now
    ensures Linked(changes + more, now)
  {
    forall i | 0 <= i < |more|
      ensures more[i] == RecommendationChanged(was, now)
    {
      assert more[i] in more;
    }
    var all := changes + more;
    forall i | 0 <= i < |all|
      ensures all[i].RecommendationChanged? && all[i].previous != all[i].current
    {
      if i >= |changes| {
        assert all[i] == more[i - |changes|] && more[i - |changes|] in more;
      }
    }
    forall i | 0 < i < |all|
      ensures all[i] == all[i - 1] || all[i].previous == all[i - 1].current
    {
      assert i < |changes| ==> all[i] == changes[i] && all[i - 1] == changes[i - 1];
    }
    assert all != [] && changes != [] ==> all[0] == changes[0];
    assert more == [] ==> all == changes;
  }

  lemma ChangeEventsAreChanges(s: CellState, r: Recommendation)
    ensures Changes(ChangeEvents(s, r)) == ChangeEvents(s, r)
    ensures ChangeEvents(s, r) == [] ==> s.recommendation == r.state
    ensures forall e :: e in ChangeEvents(s, r) ==>
      s.recommendation != r.state && e == RecommendationChanged(s.recommendation, r.state)
  {
    var change := ChangeEvents(s, r);
    assert change != [] ==> change[..0] == [];
  }

  lemma RecalculationKeepsHistory(s: CellState, r: Recommendation, resolved: Resolved)
    requires Linked(Changes(s.events), s.recommendation)
    ensures Linked(Changes(Recalculated(s, r, resolved).events), r.state)
  {
    hide Linked;
    hide Changes;
    hide ChangeEvents;
    hide AlertEvents;
    hide Snapshots;
    var change, fired := ChangeEvents(s, r), AlertEvents(s.alerts, s, r, resolved);
    ChangesConcat(s.events + change, fired);
    ChangesConcat(s.events, change);
    AlertChanges(s.alerts, s, r, resolved);
    ChangeEventsAreChanges(s, r);
    LinkedAppendTwice(Changes(s.events), change, Changes(fired), s.recommendation, r.state);
  }

  lemma LinkedAppendTwice(changes: seq<Event>, first: seq<Event>, second: seq<Event>, was: string, now: string)
    requires Linked(changes, was)
    requires forall e :: e in first || e in second ==> was != now && e == RecommendationChanged(was, now)
    requires first == [] ==> was == now
    ensures Linked(changes + first + second, now)
  {
    hide Linked;
    assert changes + first + second == changes + (first + second);
    LinkedAppend(changes, first + second, was, now);
  }

  lemma {:induction false} OtherStepsKeepHistory(s: CellState, step: Step)
    requires !step.Recalculation?
    ensures Changes(Apply(s, step).events) == Changes(s.events) && Apply(s, step).recommendation == s.recommendation
  {
    ChangesConcat(s.events, [OtherEvent]);
    assert [OtherEvent][..0] == [];
    assert Changes([OtherEvent]) == [];
  }

  /**
   * In every run of a new cell the recorded changes form one chain from insufficient signal to the current
   * recommendation; so the latest one always carries the cell's current recommendation.
   */
  lemma {:induction false} ChangesLeadToCurrent(start: CellState, steps: seq<Step>, n: nat)
    requires Fresh(start) && n <= |steps|
    ensures Linked(Changes(StateAt(start, steps, n).events), StateAt(start, steps, n).recommendation)
  {
    hide *;
    if n == 0 {
      NewCellHistory(start, steps);
    } else {
      ChangesLeadToCurrent(start, steps, n - 1);
      var s, step := StateAt(start, steps, n - 1), steps[n - 1];
      StateAfter(start, steps, n);
      if step.Recalculation? {
        RecalculationKeepsHistory(s, step.r, step.resolved);
        RecalculationIsStep(s, step);
      } else {
        OtherStepsKeepHistory(s, step);
      }
    }
  }

  lemma NewCellHistory(start: CellState, steps: seq<Step>)
    requires Fresh(start)
    ensures Linked(Changes(StateAt(start, steps, 0).events), StateAt(start, steps, 0).recommendation)
  {
  }

  lemma StateAfter(start: CellState, steps: seq<Step>, n: nat)
    requires 0 < n <= |steps|
    ensures StateAt(start, steps, n) == Apply(StateAt(start, steps, n - 1), steps[n - 1])
  {
  }

  lemma RecalculationIsStep(s: CellState, step: Step)
    requires step.Recalculation?
    ensures Apply(s, step) == Recalculated(s, step.r, step.resolved) && Apply(s, step).recommendation == step.r.state
  {
  }
}
