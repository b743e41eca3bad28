/**
 * How a decision cell turns its nodes' market probabilities into scores for its actions, a confidence and a
 * recommendation (app/src/api/decisions.rs). The service's floating point scores are kept exactly, as whole
 * numbers of 1/5000 of a weight unit.
 */
module Recommendation {
  import opened Numbers
  import opened Options
  import opened Sums
  import Decimal

  const NANOS_PER_HOUR: int := 3_600_000_000_000
  const LEAD_THRESHOLD: int := 750
  const MIN_LIVE_NODES: int := 2
  const INSUFFICIENT: string := "insufficient_signal"

  datatype Effect = Support | Oppose | Neutral

  datatype Action = Action(id: string, name: string, rank: int)

  /** A node with the probability its market resolved to this time and the one stored last time, in basis points. */
  datatype Node = Node(
    id: string, draft: bool, weight: int, updatedAt: int, probability: Option<int>, lastProbability: Option<int>,
    effects: map<string, Effect>)
  {
    predicate Live() { !draft && probability.Some? }

    /** A change is measured only for nodes that have, or had, a probability. */
    predicate Relevant() { !draft && (probability.Some? || lastProbability.Some?) }

    function EffectOn(name: string): Effect { if name in effects then effects[name] else Neutral }

    function Delta(): nat
    {
      if probability.Some? && lastProbability.Some? then Abs(probability.value - lastProbability.value)
      else if lastProbability.Some? then Abs(lastProbability.value)
      else if probability.Some? then Abs(probability.value)
      else 0
    }
  }

  /** What the service's own writes guarantee of a node. */
  predicate ValidNode(n: Node) { n.weight >= 0 && (n.probability.Some? ==> 0 <= n.probability.value <= 10_000) }

  predicate ValidNodes(nodes: seq<Node>) { forall n :: n in nodes ==> ValidNode(n) }

  // ----- Weights and scores -----

  function EffectiveWeight(weight: int, updatedAt: int, now: int): int
  {
    var ageHours := TruncDiv(now - updatedAt, NANOS_PER_HOUR);
    if ageHours > 24 then TruncDiv(weight, 4) else if ageHours > 6 then TruncDiv(weight, 2) else weight
  }

  function ActivePart(n: Node, now: int): int
  {
    if n.Live() then Max(EffectiveWeight(n.weight, n.updatedAt, now), 0) else 0
  }

  function Signal(n: Node, now: int): int
    requires n.Live()
  {
    (n.probability.value - 5_000) * EffectiveWeight(n.weight, n.updatedAt, now)
  }

  function Contribution(name: string, n: Node, now: int): int
  {
    if !n.Live() then 0
    else match n.EffectOn(name)
         case Support => Signal(n, now)
         case Oppose => -Signal(n, now)
         case Neutral => 0
  }

  function ActiveWeight(nodes: seq<Node>, now: int): int { SumBy(nodes, (n: Node) => ActivePart(n, now)) }

  function LiveCount(nodes: seq<Node>): int { SumBy(nodes, (n: Node) => if n.Live() then 1 else 0) }

  function RawScore(name: string, nodes: seq<Node>, now: int): int
  {
    SumBy(nodes, (n: Node) => Contribution(name, n, now))
  }

  /** `f64::round` of n / d: to the nearest integer, halves away from zero. */
  function RoundDiv(n: int, d: int): int
    requires d > 0
  {
    if n >= 0 then (2 * n + d) / (2 * d) else -((-2 * n + d) / (2 * d))
  }

  /** The score before the clamp, in basis points. */
  function Unclamped(raw: int, active: int): int { if active > 0 then RoundDiv(2 * raw, active) else 0 }

  function Score(raw: int, active: int): int { Clamp(Unclamped(raw, active), -10_000, 10_000) }

  function Confidence(active: int, live: int, total: nat): int
  {
    if total == 0 then 0 else Clamp(RoundDiv(active * live, total), 0, 10_000)
  }

  // ----- Ranking -----

  datatype Scored = Scored(action: Action, score: int)

  predicate Before(x: Scored, y: Scored) { x.score > y.score || (x.score == y.score && x.action.rank <= y.action.rank) }

  predicate Ranked(s: seq<Scored>) { forall i, j :: 0 <= i < j < |s| ==> Before(s[i], s[j]) }

  function InsertRanked(x: Scored, s: seq<Scored>): seq<Scored>
  {
    if s == [] || Before(x, s[0]) then [x] + s else [s[0]] + InsertRanked(x, s[1..])
  }

  lemma {:induction false} InsertIsPermutation(x: Scored, s: seq<Scored>)
    ensures multiset(InsertRanked(x, s)) == multiset(s) + multiset{x}
  {
    if s != [] && !Before(x, s[0]) {
      InsertIsPermutation(x, s[1..]);
      assert s == [s[0]] + s[1..];
    }
  }

  lemma {:induction false} BeforeInserted(y: Scored, x: Scored, s: seq<Scored>)
    requires Before(y, x) && forall i :: 0 <= i < |s| ==> Before(y, s[i])
    ensures forall i :: 0 <= i < |InsertRanked(x, s)| ==> Before(y, InsertRanked(x, s)[i])
  {
    if s != [] && !Before(x, s[0]) {
      BeforeInserted(y, x, s[1..]);
    }
  }

  lemma {:induction false} InsertIsRanked(x: Scored, s: seq<Scored>)
    requires Ranked(s)
    ensures Ranked(InsertRanked(x, s))
  {
    if s != [] && !Before(x, s[0]) {
      InsertIsRanked(x, s[1..]);
      BeforeInserted(s[0], x, s[1..]);
    }
  }

  /** The stable sort by score, best first, and then by rank. */
  function Sort(s: seq<Scored>): (r: seq<Scored>)
    ensures Ranked(r) && multiset(r) == multiset(s)
  {
    if s == [] then []
    else
      var rest := Sort(s[1..]);
      InsertIsRanked(s[0], rest);
      InsertIsPermutation(s[0], rest);
      assert s == [s[0]] + s[1..];
      InsertRanked(s[0], rest)
  }

  function ActionScores(actions: seq<Action>, nodes: seq<Node>, now: int): seq<Scored>
  {
    seq(|actions|, (i: nat) requires i < |actions| =>
      Scored(actions[i], Score(RawScore(actions[i].name, nodes, now), ActiveWeight(nodes, now))))
  }

  function TopLead(ranked: seq<Scored>): int { if |ranked| >= 2 then ranked[0].score - ranked[1].score else 0 }

  /** The last of the relevant nodes whose probability changed most. */
  function LastChanged(nodes: seq<Node>): (r: Option<nat>)
    ensures r.Some? ==> r.value < |nodes|
  {
    if nodes == [] then None
    else
      var k := |nodes| - 1;
      var before := LastChanged(nodes[..k]);
      if nodes[k].Relevant() && (before.None? || nodes[k].Delta() >= nodes[before.value].Delta()) then Some(k)
      else before
  }

  // ----- The recommendation -----

  function LowerAscii(s: string): string
  {
    seq(|s|, i requires 0 <= i < |s| => if 'A' <= s[i] <= 'Z' then s[i] - 'A' + 'a' else s[i])
  }

  /** The state that recommends the action with that name. */
  function StateFor(timing: bool, name: string): string
  {
    var text := LowerAscii(Decimal.Trim(name));
    if timing && text == "act now" then "act_now"
    else if timing && text == "wait" then "wait"
    else name
  }

  datatype Recommendation = Recommendation(
    state: string, confidence: int, liveNodes: int, totalNodes: nat, lead: nat, scores: seq<Scored>,
    changed: Option<nat>)

  function Recommend(timing: bool, actions: seq<Action>, nodes: seq<Node>, now: int): Recommendation
  {
    var live, ranked := LiveCount(nodes), Sort(ActionScores(actions, nodes, now));
    var state :=
      if live < MIN_LIVE_NODES || TopLead(ranked) < LEAD_THRESHOLD then INSUFFICIENT
      else StateFor(timing, ranked[0].action.name);
    Recommendation(state, Confidence(ActiveWeight(nodes, now), live, |nodes|), live, |nodes|,
                   Max(TopLead(ranked), 0), ranked, LastChanged(nodes))
  }

  /** One node's contribution is added to every action's running score. */
  method AddContributions(raw: seq<int>, actions: seq<Action>, n: Node, now: int) returns (r: seq<int>)
    requires |raw| == |actions| && n.Live()
    ensures |r| == |actions|
    ensures forall i :: 0 <= i < |actions| ==> r[i] == raw[i] + Contribution(actions[i].name, n, now)
  {
    r := raw;
    var signal := Signal(n, now);
    for index := 0 to |actions|
      invariant |r| == |actions|
      invariant forall i :: 0 <= i < index ==> r[i] == raw[i] + Contribution(actions[i].name, n, now)
      invariant forall i :: index <= i < |actions| ==> r[i] == raw[i]
    {
      var contribution :=
        match n.EffectOn(actions[index].name)
        case Support => signal
        case Oppose => -signal
        case Neutral => 0;
      r := r[index := r[index] + contribution];
    }
  }

  method BuildRecommendation(timing: bool, actions: seq<Action>, nodes: seq<Node>, now: int)
    returns (r: Recommendation)
    ensures r == Recommend(timing, actions, nodes, now)
  {
    var raw := seq(|actions|, _ => 0);
    var active, live := 0, 0;
    var changed: Option<nat> := None;
    var maxDelta: int := -1;
    for k := 0 to |nodes|
      invariant |raw| == |actions|
      invariant forall i :: 0 <= i < |actions| ==> raw[i] == RawScore(actions[i].name, nodes[..k], now)
      invariant active == ActiveWeight(nodes[..k], now) && live == LiveCount(nodes[..k])
      invariant changed == LastChanged(nodes[..k])
      invariant maxDelta == if changed.Some? then nodes[changed.value].Delta() else -1
    {
      var n := nodes[k];
      AppendSums(actions, nodes[..k], n, now);
      assert nodes[..k + 1] == nodes[..k] + [n] && nodes[..k + 1][..k] == nodes[..k];
      if !n.draft {
        if n.Live() {
          live := live + 1;
          active := active + Max(EffectiveWeight(n.weight, n.updatedAt, now), 0);
          raw := AddContributions(raw, actions, n, now);
        }
        if n.Delta() >= maxDelta && (n.probability.Some? || n.lastProbability.Some?) {
          maxDelta := n.Delta();
          changed := Some(k);
        }
      }
    }
    assert nodes[..|nodes|] == nodes;
    var scores := seq(|actions|, i requires 0 <= i < |actions| && |raw| == |actions| =>
      Scored(actions[i], Score(raw[i], active)));
    assert scores == ActionScores(actions, nodes, now);
    var ranked := Sort(scores);
    var lead := TopLead(ranked);
    var state :=
      if live < MIN_LIVE_NODES || lead < LEAD_THRESHOLD then INSUFFICIENT
      else StateFor(timing, ranked[0].action.name);
    r := Recommendation(state, Confidence(active, live, |nodes|), live, |nodes|, Max(lead, 0), ranked, changed);
  }

  lemma AppendSums(actions: seq<Action>, nodes: seq<Node>, n: Node, now: int)
    ensures ActiveWeight(nodes + [n], now) == ActiveWeight(nodes, now) + ActivePart(n, now)
    ensures LiveCount(nodes + [n]) == LiveCount(nodes) + if n.Live() then 1 else 0
    ensures forall i :: 0 <= i < |actions| ==>
      RawScore(actions[i].name, nodes + [n], now)
      == RawScore(actions[i].name, nodes, now) + Contribution(actions[i].name, n, now)
  {
    SumByAppend(nodes, n, (m: Node) => ActivePart(m, now));
    SumByAppend(nodes, n, (m: Node) => if m.Live() then 1 else 0);
    forall i | 0 <= i < |actions|
      ensures RawScore(actions[i].name, nodes + [n], now)
           == RawScore(actions[i].name, nodes, now) + Contribution(actions[i].name, n, now)
    {
      SumByAppend(nodes, n, (m: Node) => Contribution(actions[i].name, m, now));
    }
  }

  // ----- Properties -----

  /** A node keeps its full weight for seven hours, half of it until the twenty-fifth and then a quarter. */
  lemma StalenessSteps(weight: nat, updatedAt: int, now: int)
    ensures
      var age := now - updatedAt;
      EffectiveWeight(weight, updatedAt, now)
      == if age < 7 * NANOS_PER_HOUR then weight else if age < 25 * NANOS_PER_HOUR then weight / 2 else weight / 4
  {
  }

  /**
   * What is written to a node after it was added. Every recalculation of its cell, whichever request caused it,
   * stores what its market resolved to; an edit stores a weight, whether it is a draft and its effects. Both stamp
   * the node with the database's clock. A recalculation scores the node as it was loaded, before its own write, at
   * the service's clock `now`.
   */
  datatype Change =
    | Snapshot(now: int, written: int, probability: Option<int>)
    | Edit(written: int, weight: nat, draft: bool, effects: map<string, Effect>)

  function Changed(n: Node, c: Change): Node
  {
    match c
    case Snapshot(_, written, probability) =>
      n.(updatedAt := written, lastProbability := if n.draft then None else probability)
    case Edit(written, weight, draft, effects) =>
      n.(updatedAt := written, weight := weight, draft := draft, effects := effects)
  }

  /** The node as it is stored after the first `k` changes. */
  function NodeAt(start: Node, changes: seq<Change>, k: nat): Node
    requires k <= |changes|
  {
    if k == 0 then start else Changed(NodeAt(start, changes, k - 1), changes[k - 1])
  }

  /** The weight in force after the first `k` changes: that of the latest edit. */
  function WeightAt(start: Node, changes: seq<Change>, k: nat): int
    requires k <= |changes|
  {
    if k == 0 then start.weight
    else if changes[k - 1].Edit? then changes[k - 1].weight
    else WeightAt(start, changes, k - 1)
  }

  /** The node as the recalculation that is change `k` scores it. */
  function ScoredNode(start: Node, changes: seq<Change>, k: nat): Node
    requires k < |changes| && changes[k].Snapshot?
  {
    NodeAt(start, changes, k).(probability := changes[k].probability)
  }

  /** The time to the recalculation that is change `k` from the change before or from when the node was added. */
  function Idle(start: Node, changes: seq<Change>, k: nat): int
    requires k < |changes| && changes[k].Snapshot?
  {
    changes[k].now - if k == 0 then start.updatedAt else changes[k - 1].written
  }

  lemma {:induction false} NodeKeepsWeight(start: Node, changes: seq<Change>, k: nat)
    requires k <= |changes| && start.weight >= 0
    ensures NodeAt(start, changes, k).weight == WeightAt(start, changes, k) >= 0
  {
    if k > 0 {
      NodeKeepsWeight(start, changes, k - 1);
    }
  }

  /**
   * In every run a live node counts with less than its weight exactly when nothing wrote to it for seven hours. What
   * its market did in the meantime plays no part, and every recalculation restores the weight for the next.
   */
  lemma WeightReducedIffIdle(start: Node, changes: seq<Change>, k: nat)
    requires k < |changes| && changes[k].Snapshot? && start.weight >= 0
    requires ScoredNode(start, changes, k).Live()
    ensures
      var part, weight := ActivePart(ScoredNode(start, changes, k), changes[k].now), WeightAt(start, changes, k);
      && (part < weight <==> weight > 0 && Idle(start, changes, k) >= 7 * NANOS_PER_HOUR)
      && (weight >= 4 ==> part > 0)
  {
    NodeKeepsWeight(start, changes, k);
    StalenessSteps(WeightAt(start, changes, k), NodeAt(start, changes, k).updatedAt, changes[k].now);
  }

  /** The order in which the nodes are listed decides nothing but which of several equal changes is named. */
  lemma OrderIndependent(timing: bool, actions: seq<Action>, xs: seq<Node>, ys: seq<Node>, now: int)
    requires multiset(xs) == multiset(ys)
    ensures
      Recommend(timing, actions, xs, now).(changed := None) == Recommend(timing, actions, ys, now).(changed := None)
  {
    SumByPermuted(xs, ys, (n: Node) => ActivePart(n, now));
    SumByPermuted(xs, ys, (n: Node) => if n.Live() then 1 else 0);
    assert |multiset(xs)| == |multiset(ys)|;
    forall i | 0 <= i < |actions|
      ensures RawScore(actions[i].name, xs, now) == RawScore(actions[i].name, ys, now)
    {
      SumByPermuted(xs, ys, (n: Node) => Contribution(actions[i].name, n, now));
    }
    assert ActionScores(actions, xs, now) == ActionScores(actions, ys, now);
  }

  lemma {:induction false} ContributionBound(name: string, n: Node, now: int)
    requires ValidNode(n)
    ensures Abs(Contribution(name, n, now)) <= 5_000 * ActivePart(n, now)
  {
    if n.Live() {
      var w := EffectiveWeight(n.weight, n.updatedAt, now);
      assert w >= 0;
      MulMonotone(n.probability.value - 5_000, 5_000, w);
      MulMonotone(-5_000, n.probability.value - 5_000, w);
    }
  }

  lemma {:induction false} RawScoreBound(name: string, nodes: seq<Node>, now: int)
    requires ValidNodes(nodes)
    ensures Abs(RawScore(name, nodes, now)) <= 5_000 * ActiveWeight(nodes, now)
  {
    if nodes != [] {
      assert nodes[0] in nodes;
      ContributionBound(name, nodes[0], now);
      RawScoreBound(name, nodes[1..], now);
    }
  }

  lemma {:induction false} RoundDivBetween(n: int, d: int, k: int)
    requires d > 0 && Abs(n) <= k * d
    ensures -k <= RoundDiv(n, d) <= k
  {
    var q := (2 * Abs(n) + d) / (2 * d);
    assert 2 * d * q <= 2 * Abs(n) + d;
    assert 2 * d * q < 2 * d * (k + 1) by {
      assert 2 * d * (k + 1) == 2 * (k * d) + 2 * d;
    }
    MulCancels(2 * d, q, k + 1);
  }

  /** Every score lies within ten thousand basis points before it is clamped, so the clamp changes none. */
  lemma ScoreWithinRange(name: string, nodes: seq<Node>, now: int)
    requires ValidNodes(nodes)
    ensures -10_000 <= Unclamped(RawScore(name, nodes, now), ActiveWeight(nodes, now)) <= 10_000
  {
    RawScoreBound(name, nodes, now);
    var active := ActiveWeight(nodes, now);
    if active > 0 {
      RoundDivBetween(2 * RawScore(name, nodes, now), active, 10_000);
    }
  }

  /** Action `t` is ahead of every other action by the threshold. */
  predicate Leads(scores: seq<Scored>, t: nat)
  {
    t < |scores| && |scores| >= 2
    && forall u :: 0 <= u < |scores| && u != t ==> scores[t].score - scores[u].score >= LEAD_THRESHOLD
  }

  lemma RestPermuted(s: seq<Scored>, ranked: seq<Scored>, t: nat)
    requires multiset(s) == multiset(ranked) && t < |s| && ranked != [] && s[t] == ranked[0]
    ensures forall x :: x in RemoveAt(s, t) <==> x in ranked[1..]
  {
    MultisetRemoveAt(s, t);
    MultisetRemoveAt(ranked, 0);
    assert RemoveAt(ranked, 0) == ranked[1..];
    assert forall x :: x in RemoveAt(s, t) <==> x in multiset(RemoveAt(s, t));
    assert forall x :: x in ranked[1..] <==> x in multiset(ranked[1..]);
  }

  /** Being ahead of all the others is being first in the ranking by the threshold. */
  lemma LeaderIsFirst(s: seq<Scored>, t: nat, ranked: seq<Scored>)
    requires Leads(s, t) && Ranked(ranked) && multiset(s) == multiset(ranked)
    ensures ranked != [] && ranked[0] == s[t] && TopLead(ranked) >= LEAD_THRESHOLD
  {
    assert |multiset(s)| == |multiset(ranked)|;
    assert s[t] in multiset(ranked);
    var i :| 0 <= i < |ranked| && ranked[i] == s[t];
    assert ranked[0] in multiset(s);
    var u :| 0 <= u < |s| && s[u] == ranked[0];
    assert i > 0 ==> Before(ranked[0], ranked[i]);
    RestPermuted(s, ranked, t);
    SecondTrails(s, t, ranked[1..][0]);
  }

  lemma SecondTrails(s: seq<Scored>, t: nat, x: Scored)
    requires Leads(s, t) && x in RemoveAt(s, t)
    ensures s[t].score - x.score >= LEAD_THRESHOLD
  {
    var rest := RemoveAt(s, t);
    var v :| 0 <= v < |rest| && rest[v] == x;
    assert x == s[if v < t then v else v + 1];
  }

  lemma FirstIsLeader(s: seq<Scored>, ranked: seq<Scored>) returns (t: nat)
    requires Ranked(ranked) && multiset(s) == multiset(ranked) && TopLead(ranked) >= LEAD_THRESHOLD
    ensures Leads(s, t)
  {
    assert |multiset(s)| == |multiset(ranked)|;
    assert ranked[0] in multiset(s);
    t :| 0 <= t < |s| && s[t] == ranked[0];
    RestPermuted(s, ranked, t);
    forall u | 0 <= u < |s| && u != t
      ensures s[t].score - s[u].score >= LEAD_THRESHOLD
    {
      var rest := RemoveAt(s, t);
      assert s[u] == rest[if u < t then u else u - 1];
      assert s[u] in ranked[1..];
      var j :| 0 <= j < |ranked[1..]| && ranked[1..][j] == s[u];
      assert j > 0 ==> Before(ranked[1], ranked[j + 1]);
    }
  }

  /**
   * The recommendation is sound and complete: it names an action exactly when two nodes are live and that
   * action is ahead of every other one by the threshold, and otherwise reports insufficient signal.
   */
  lemma {:induction false} StateNamesTheLeader(timing: bool, actions: seq<Action>, nodes: seq<Node>, now: int)
    ensures
      var r, scores := Recommend(timing, actions, nodes, now), ActionScores(actions, nodes, now);
      && (r.liveNodes < MIN_LIVE_NODES || (forall t: nat :: !Leads(scores, t)) ==> r.state == INSUFFICIENT)
      && (forall t: nat :: r.liveNodes >= MIN_LIVE_NODES && Leads(scores, t) ==>
            r.state == StateFor(timing, actions[t].name))
      && (r.lead >= LEAD_THRESHOLD <==> exists t: nat :: Leads(scores, t))
  {
    var scores := ActionScores(actions, nodes, now);
    hide Sort;
    hide RawScore;
    if TopLead(Sort(scores)) >= LEAD_THRESHOLD {
      var t := FirstIsLeader(scores, Sort(scores));
    }
    forall t: nat | Leads(scores, t)
      ensures Sort(scores)[0] == scores[t] && TopLead(Sort(scores)) >= LEAD_THRESHOLD
    {
      LeaderIsFirst(scores, t, Sort(scores));
    }
  }

  /** The scores with a given score and rank, in order. */
  function Matching(s: seq<Scored>, score: int, rank: int): seq<Scored>
  {
    if s == [] then []
    else (if s[0].score == score && s[0].action.rank == rank then [s[0]] else []) + Matching(s[1..], score, rank)
  }

  lemma {:induction false} InsertKeepsOrder(x: Scored, s: seq<Scored>, score: int, rank: int)
    ensures Matching(InsertRanked(x, s), score, rank) == Matching([x] + s, score, rank)
  {
    assert ([x] + s)[1..] == s;
    if s != [] && !Before(x, s[0]) {
      InsertKeepsOrder(x, s[1..], score, rank);
      assert ([x] + s[1..])[1..] == s[1..];
      assert ([s[0]] + InsertRanked(x, s[1..]))[1..] == InsertRanked(x, s[1..]);
    } else {
      assert s == [] ==> InsertRanked(x, s) == [x] + s;
    }
  }

  /** Actions that tie on score and rank stay in their order. */
  lemma {:induction false} SortIsStable(s: seq<Scored>, score: int, rank: int)
    ensures Matching(Sort(s), score, rank) == Matching(s, score, rank)
  {
    if s != [] {
      SortIsStable(s[1..], score, rank);
      InsertKeepsOrder(s[0], Sort(s[1..]), score, rank);
      assert ([s[0]] + Sort(s[1..]))[1..] == Sort(s[1..]);
    }
  }

  /** The node named as changed is relevant, none changed more, and none listed later changed as much. */
  lemma {:induction false} LastChangedIsLargest(nodes: seq<Node>)
    ensures LastChanged(nodes).None? <==> forall i :: 0 <= i < |nodes| ==> !nodes[i].Relevant()
    ensures LastChanged(nodes).Some? ==>
      var k := LastChanged(nodes).value;
      && nodes[k].Relevant()
      && (forall i :: 0 <= i < |nodes| && nodes[i].Relevant() ==> nodes[i].Delta() <= nodes[k].Delta())
      && (forall i :: k < i < |nodes| && nodes[i].Relevant() ==> nodes[i].Delta() < nodes[k].Delta())
  {
    if nodes != [] {
      var last := |nodes| - 1;
      LastChangedIsLargest(nodes[..last]);
      assert forall i :: 0 <= i < last ==> nodes[..last][i] == nodes[i];
    }
  }

  lemma {:induction false} RoundDivMonotone(m: int, n: int, d: int)
    requires d > 0 && m <= n
    ensures RoundDiv(m, d) <= RoundDiv(n, d)
  {
    if m >= 0 {
      DivMonotone(2 * m + d, 2 * n + d, 2 * d);
    } else if n < 0 {
      DivMonotone(-2 * n + d, -2 * m + d, 2 * d);
    } else {
      DivNonNegative(2 * n + d, 2 * d);
      DivNonNegative(-2 * m + d, 2 * d);
    }
  }

  lemma DivNonNegative(x: nat, d: int)
    requires d > 0
    ensures x / d >= 0
  {
    DivMonotone(0, x, d);
  }

  /** Other things equal, a node's higher probability never lowers an action it supports nor raises one it opposes. */
  lemma ScoreFollowsProbability(name: string, nodes: seq<Node>, k: nat, p: int, now: int)
    requires ValidNodes(nodes) && k < |nodes| && nodes[k].Live() && nodes[k].probability.value <= p
    ensures
      var moved := nodes[k := nodes[k].(probability := Some(p))];
      var before := Score(RawScore(name, nodes, now), ActiveWeight(nodes, now));
      var after := Score(RawScore(name, moved, now), ActiveWeight(moved, now));
      match nodes[k].EffectOn(name)
      case Support => before <= after
      case Oppose => before >= after
      case Neutral => before == after
  {
    var n, m := nodes[k], nodes[k].(probability := Some(p));
    var moved := nodes[k := m];
    assert RemoveAt(moved, k) == RemoveAt(nodes, k);
    SumByRemoveAt(nodes, k, (x: Node) => ActivePart(x, now));
    SumByRemoveAt(moved, k, (x: Node) => ActivePart(x, now));
    SumByRemoveAt(nodes, k, (x: Node) => Contribution(name, x, now));
    SumByRemoveAt(moved, k, (x: Node) => Contribution(name, x, now));
    var active := ActiveWeight(nodes, now);
    assert ActiveWeight(moved, now) == active;
    var w := EffectiveWeight(n.weight, n.updatedAt, now);
    assert n in nodes;
    MulMonotone(n.probability.value - 5_000, p - 5_000, w);
    var x, y := RawScore(name, nodes, now), RawScore(name, moved, now);
    if active > 0 {
      if x <= y {
        RoundDivMonotone(2 * x, 2 * y, active);
      } else {
        RoundDivMonotone(2 * y, 2 * x, active);
      }
    }
  }
}
