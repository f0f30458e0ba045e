/** The weighted graph of what tends to follow what, and its relation to the detector. */
module WorkflowGraph {
  import opened Domain
  import opened Occurrences
  import opened Detector
  import DetectorTheorems

  datatype Edge = Edge(source: string, target: string, weight: nat)

  datatype Graph = Graph(nodes: seq<string>, edges: seq<Edge>)

  /** The edges that leave a node, in the order the graph lists them. */
  function EdgesFrom(edges: seq<Edge>, node: string): seq<Edge> {
    Select(edges, (a, b) => a == node)
  }

  function EdgesTo(edges: seq<Edge>, node: string): seq<Edge> {
    Select(edges, (a, b) => b == node)
  }

  function Select(edges: seq<Edge>, p: (string, string) -> bool): seq<Edge> {
    if edges == [] then []
    else
      var e := edges[|edges| - 1];
      Select(edges[..|edges| - 1], p) + (if p(e.source, e.target) then [e] else [])
  }

  /** How often b directly follows a. */
  function Transitions(keys: seq<string>, a: string, b: string): nat {
    if |keys| < 2 then 0
    else
      Transitions(keys[..|keys| - 1], a, b)
      + (if keys[|keys| - 2] == a && keys[|keys| - 1] == b then 1 else 0)
  }

  /** Distinct keys in order of first appearance. */
  function Distinct(keys: seq<string>): seq<string> {
    if keys == [] then []
    else
      var seen, k := Distinct(keys[..|keys| - 1]), keys[|keys| - 1];
      if k in seen then seen else seen + [k]
  }

  ghost predicate DistinctEdges(edges: seq<Edge>) {
    forall i, j :: 0 <= i < j < |edges| ==> edges[i].source != edges[j].source || edges[i].target != edges[j].target
  }

  ghost predicate HasEdge(edges: seq<Edge>, a: string, b: string) {
    exists e :: e in edges && e.source == a && e.target == b
  }

  /** One edge, with the right weight, for each transition that happened, and no other. */
  ghost predicate EdgesOf(keys: seq<string>, edges: seq<Edge>) {
    && DistinctEdges(edges)
    && (forall e :: e in edges ==> e.weight == Transitions(keys, e.source, e.target))
    && (forall a, b :: HasEdge(edges, a, b) <==> Transitions(keys, a, b) > 0)
  }

  ghost predicate IsGraphOf(g: Graph, keys: seq<string>) {
    g.nodes == Distinct(keys) && EdgesOf(keys, g.edges)
  }

  // --- the algorithm ---

  method BuildWorkflowGraph(events: History) returns (g: Graph)
    ensures IsGraphOf(g, Keys(events))
  {
    ghost var keys := Keys(events);
    var nodes: seq<string> := [];
    var seen: set<string> := {};
    var weights: map<(string, string), nat> := map[];
    for i := 0 to |events| - (if events == [] then 0 else 1)
      invariant nodes == NodesAfter(keys, i) && SameKeys(seen, nodes)
      invariant WeightsOf(keys, Visited(i), weights)
    {
      var source, target := ActionKey(events[i]), ActionKey(events[i + 1]);
      nodes, seen := AddIfNew(nodes, seen, source);
      nodes, seen := AddIfNew(nodes, seen, target);
      NodesStep(keys, i);
      WeightStep(keys, i, weights);
      weights := Bump(weights, (source, target));
    }
    NodesAtEnd(keys);
    FewKeys(keys, weights);
    if |events| == 1 {
      nodes := nodes + [ActionKey(events[0])];
    }
    var edges := ListEdges(keys, weights);
    g := Graph(nodes, edges);
  }

  function Bump(weights: map<(string, string), nat>, pair: (string, string)): map<(string, string), nat> {
    weights[pair := (if pair in weights then weights[pair] else 0) + 1]
  }

  /** How many events the first `i` pairs touch. */
  function Visited(i: nat): nat {
    if i == 0 then 0 else i + 1
  }

  ghost predicate SameKeys(seen: set<string>, nodes: seq<string>) {
    forall k :: k in seen <==> k in nodes
  }

  method AddIfNew(nodes: seq<string>, seen: set<string>, key: string) returns (nodes': seq<string>, seen': set<string>)
    requires SameKeys(seen, nodes)
    ensures nodes' == AddNew(nodes, key) && SameKeys(seen', nodes')
  {
    nodes', seen' := nodes, seen;
    if key !in seen {
      seen' := seen + {key};
      nodes' := nodes + [key];
    }
  }

  /** The node list once `i` pairs have been visited. */
  function NodesAfter(keys: seq<string>, i: nat): seq<string>
    requires i < |keys| || i == 0
  {
    if i == 0 then [] else Distinct(keys[..i + 1])
  }

  lemma NodesAtEnd(keys: seq<string>)
    ensures |keys| == 0 ==> Distinct(keys) == []
    ensures |keys| == 1 ==> Distinct(keys) == [keys[0]]
    ensures |keys| >= 2 ==> NodesAfter(keys, |keys| - 1) == Distinct(keys)
  {
    if |keys| == 1 {
      assert keys[..0] == [];
    } else if |keys| >= 2 {
      assert keys[..|keys|] == keys;
    }
  }

  function AddNew(nodes: seq<string>, k: string): seq<string> {
    if k in nodes then nodes else nodes + [k]
  }

  lemma NodesStep(keys: seq<string>, i: nat)
    requires i + 1 < |keys|
    ensures AddNew(AddNew(NodesAfter(keys, i), keys[i]), keys[i + 1]) == NodesAfter(keys, i + 1)
  {
    var two := keys[..i + 2];
    assert two[..i + 1] == keys[..i + 1];
    if i == 0 {
      assert keys[..1][..0] == [];
      assert Distinct(keys[..1]) == [keys[0]];
    } else {
      assert keys[..i + 1][i] == keys[i];
    }
  }

  /** The table after the first `n` events. */
  ghost predicate WeightsOf(keys: seq<string>, n: nat, weights: map<(string, string), nat>) {
    n <= |keys| && forall a, b ::
      && ((a, b) in weights <==> Transitions(keys[..n], a, b) > 0)
      && ((a, b) in weights ==> weights[(a, b)] == Transitions(keys[..n], a, b))
  }

  lemma FewKeys(keys: seq<string>, weights: map<(string, string), nat>)
    requires |keys| < 2 ==> WeightsOf(keys, 0, weights)
    requires |keys| >= 2 ==> WeightsOf(keys, |keys|, weights)
    ensures WeightsOf(keys, |keys|, weights)
  {
  }

  lemma WeightStep(keys: seq<string>, i: nat, weights: map<(string, string), nat>)
    requires i + 1 < |keys| && WeightsOf(keys, Visited(i), weights)
    ensures WeightsOf(keys, Visited(i + 1), Bump(weights, (keys[i], keys[i + 1])))
  {
    var weights' := Bump(weights, (keys[i], keys[i + 1]));
    assert keys[..i + 2][..i + 1] == keys[..i + 1];
    forall a, b
      ensures (a, b) in weights' <==> Transitions(keys[..i + 2], a, b) > 0
      ensures (a, b) in weights' ==> weights'[(a, b)] == Transitions(keys[..i + 2], a, b)
    {
      assert i == 0 ==> Transitions(keys[..1], a, b) == 0 == Transitions(keys[..0], a, b);
    }
  }

  method ListEdges(ghost keys: seq<string>, weights: map<(string, string), nat>) returns (edges: seq<Edge>)
    requires WeightsOf(keys, |keys|, weights)
    ensures EdgesOf(keys, edges)
  {
    assert keys[..|keys|] == keys;
    edges := [];
    var remaining := weights;
    while remaining.Keys != {}
      invariant remaining.Keys <= weights.Keys && forall p :: p in remaining ==> remaining[p] == weights[p]
      invariant DistinctEdges(edges)
      invariant forall e :: e in edges ==>
        (e.source, e.target) in weights && (e.source, e.target) !in remaining && e.weight == weights[(e.source, e.target)]
      invariant forall a, b :: (a, b) in weights && (a, b) !in remaining ==> HasEdge(edges, a, b)
      decreases |remaining.Keys|
    {
      var pair :| pair in remaining;
      var e := Edge(pair.0, pair.1, remaining[pair]);
      ghost var before := edges;
      edges := edges + [e];
      remaining := remaining - {pair};
      assert forall f :: f in before ==> f in edges;
      assert e in edges && e.source == pair.0 && e.target == pair.1;
      forall a, b | (a, b) in weights && (a, b) !in remaining ensures HasEdge(edges, a, b) {
        if (a, b) != pair {
          assert HasEdge(before, a, b);
        }
      }
    }
  }

  // --- nodes ---

  lemma {:induction false} NodesAreTheKeys(keys: seq<string>)
    ensures forall k :: k in Distinct(keys) <==> k in keys
    ensures forall i, j :: 0 <= i < j < |Distinct(keys)| ==> Distinct(keys)[i] != Distinct(keys)[j]
  {
    if keys != [] {
      var init, last := keys[..|keys| - 1], keys[|keys| - 1];
      NodesAreTheKeys(init);
      assert keys == init + [last];
      var seen := Distinct(init);
      assert forall i :: 0 <= i < |seen| ==> seen[i] in seen;
    }
  }

  lemma {:induction false} TransitionsHaveEnds(keys: seq<string>, a: string, b: string)
    requires Transitions(keys, a, b) > 0
    ensures a in keys && b in keys
  {
    if Transitions(keys[..|keys| - 1], a, b) > 0 {
      TransitionsHaveEnds(keys[..|keys| - 1], a, b);
    }
  }

  lemma EdgesJoinNodes(g: Graph, keys: seq<string>, e: Edge)
    requires IsGraphOf(g, keys) && e in g.edges
    ensures e.source in g.nodes && e.target in g.nodes && e.weight > 0
  {
    assert HasEdge(g.edges, e.source, e.target);
    TransitionsHaveEnds(keys, e.source, e.target);
    NodesAreTheKeys(keys);
  }

  // --- flow ---

  function TotalWeight(edges: seq<Edge>): nat {
    if edges == [] then 0 else TotalWeight(edges[..|edges| - 1]) + edges[|edges| - 1].weight
  }

  /** The weights these edges have on a shorter history. */
  function WeightOn(keys: seq<string>, edges: seq<Edge>): nat {
    if edges == [] then 0
    else
      var e := edges[|edges| - 1];
      WeightOn(keys, edges[..|edges| - 1]) + Transitions(keys, e.source, e.target)
  }

  /** Consecutive pairs of keys that satisfy p. */
  function CountPairs(keys: seq<string>, p: (string, string) -> bool): nat {
    if |keys| < 2 then 0
    else CountPairs(keys[..|keys| - 1], p) + (if p(keys[|keys| - 2], keys[|keys| - 1]) then 1 else 0)
  }

  lemma {:induction false} WeightOnOneMore(keys: seq<string>, edges: seq<Edge>)
    requires |keys| >= 2 && DistinctEdges(edges)
    ensures WeightOn(keys, edges) == WeightOn(keys[..|keys| - 1], edges)
      + (if HasEdge(edges, keys[|keys| - 2], keys[|keys| - 1]) then 1 else 0)
  {
    if edges != [] {
      var init, e := edges[..|edges| - 1], edges[|edges| - 1];
      WeightOnOneMore(keys, init);
      var a, b := keys[|keys| - 2], keys[|keys| - 1];
      assert edges == init + [e];
      HasEdgeOfMore(init, e, a, b);
      if e.source == a && e.target == b {
        assert !HasEdge(init, a, b);
      }
    }
  }

  lemma HasEdgeOfMore(edges: seq<Edge>, e: Edge, a: string, b: string)
    ensures HasEdge(edges + [e], a, b) <==> HasEdge(edges, a, b) || (e.source == a && e.target == b)
  {
    var more := edges + [e];
    assert e in more;
    assert forall f :: f in more <==> f in edges || f == e;
  }

  lemma {:induction false} WeightOnCountsPairs(keys: seq<string>, edges: seq<Edge>, p: (string, string) -> bool)
    requires DistinctEdges(edges)
    requires forall e :: e in edges ==> p(e.source, e.target)
    requires forall a, b :: Transitions(keys, a, b) > 0 && p(a, b) ==> HasEdge(edges, a, b)
    ensures WeightOn(keys, edges) == CountPairs(keys, p)
  {
    if |keys| < 2 {
      NoWeightOnFewKeys(keys, edges);
    } else {
      WeightOnOneMore(keys, edges);
      WeightOnCountsPairs(keys[..|keys| - 1], edges, p);
      var a, b := keys[|keys| - 2], keys[|keys| - 1];
      assert Transitions(keys, a, b) > 0;
    }
  }

  lemma {:induction false} NoWeightOnFewKeys(keys: seq<string>, edges: seq<Edge>)
    requires |keys| < 2
    ensures WeightOn(keys, edges) == 0
  {
    if edges != [] {
      NoWeightOnFewKeys(keys, edges[..|edges| - 1]);
    }
  }

  lemma {:induction false} SelectionOf(edges: seq<Edge>, p: (string, string) -> bool)
    ensures forall e :: e in Select(edges, p) <==> e in edges && p(e.source, e.target)
    ensures DistinctEdges(edges) ==> DistinctEdges(Select(edges, p))
  {
    if edges != [] {
      var init, e := edges[..|edges| - 1], edges[|edges| - 1];
      SelectionOf(init, p);
      assert edges == init + [e];
      if DistinctEdges(edges) {
        var s := Select(init, p);
        forall i | 0 <= i < |s| ensures s[i].source != e.source || s[i].target != e.target {
          assert s[i] in init;
        }
      }
    }
  }

  lemma {:induction false} TotalIsWeightOn(keys: seq<string>, edges: seq<Edge>)
    requires forall e :: e in edges ==> e.weight == Transitions(keys, e.source, e.target)
    ensures TotalWeight(edges) == WeightOn(keys, edges)
  {
    if edges != [] {
      var init, e := edges[..|edges| - 1], edges[|edges| - 1];
      assert edges == init + [e];
      TotalIsWeightOn(keys, init);
    }
  }

  lemma SelectedWeight(keys: seq<string>, edges: seq<Edge>, p: (string, string) -> bool)
    requires EdgesOf(keys, edges)
    ensures TotalWeight(Select(edges, p)) == CountPairs(keys, p)
  {
    var chosen := Select(edges, p);
    SelectionOf(edges, p);
    TotalIsWeightOn(keys, chosen);
    forall a, b | Transitions(keys, a, b) > 0 && p(a, b) ensures HasEdge(chosen, a, b) {
      var e :| e in edges && e.source == a && e.target == b;
      assert e in chosen;
    }
    WeightOnCountsPairs(keys, chosen, p);
  }

  lemma {:induction false} CountAll(keys: seq<string>, p: (string, string) -> bool)
    requires forall a, b :: p(a, b)
    ensures CountPairs(keys, p) == if keys == [] then 0 else |keys| - 1
  {
    if |keys| >= 2 {
      CountAll(keys[..|keys| - 1], p);
    }
  }

  function Hits(keys: seq<string>, k: string): nat {
    if keys == [] then 0 else Hits(keys[..|keys| - 1], k) + (if keys[|keys| - 1] == k then 1 else 0)
  }

  lemma {:induction false} HitsAreMultiplicity(keys: seq<string>, k: string)
    ensures Hits(keys, k) == multiset(keys)[k]
  {
    if keys != [] {
      HitsAreMultiplicity(keys[..|keys| - 1], k);
      assert keys == keys[..|keys| - 1] + [keys[|keys| - 1]];
    }
  }

  lemma {:induction false} CountBySource(keys: seq<string>, k: string)
    requires keys != []
    ensures CountPairs(keys, (a, b) => a == k) + (if keys[|keys| - 1] == k then 1 else 0) == Hits(keys, k)
  {
    if |keys| >= 2 {
      CountBySource(keys[..|keys| - 1], k);
    }
  }

  lemma {:induction false} CountByTarget(keys: seq<string>, k: string)
    requires keys != []
    ensures CountPairs(keys, (a, b) => b == k) + (if keys[0] == k then 1 else 0) == Hits(keys, k)
  {
    if |keys| >= 2 {
      CountByTarget(keys[..|keys| - 1], k);
    } else {
      assert Hits(keys[..0], k) == 0;
    }
  }

  lemma {:induction false} SelectAll(edges: seq<Edge>, p: (string, string) -> bool)
    requires forall a, b :: p(a, b)
    ensures Select(edges, p) == edges
  {
    if edges != [] {
      SelectAll(edges[..|edges| - 1], p);
      assert edges == edges[..|edges| - 1] + [edges[|edges| - 1]];
    }
  }

  /** Every consecutive pair of events is counted on exactly one edge. */
  lemma WeightIsConserved(g: Graph, keys: seq<string>)
    requires IsGraphOf(g, keys)
    ensures TotalWeight(g.edges) == if keys == [] then 0 else |keys| - 1
  {
    var p := (a: string, b: string) => true;
    SelectAll(g.edges, p);
    SelectedWeight(keys, g.edges, p);
    CountAll(keys, p);
  }

  /** What leaves a node minus what enters it: one at the first key, minus one at the last. */
  lemma FlowIsConserved(g: Graph, keys: seq<string>, k: string)
    requires IsGraphOf(g, keys) && keys != []
    ensures TotalWeight(EdgesFrom(g.edges, k)) + (if keys[|keys| - 1] == k then 1 else 0)
         == TotalWeight(EdgesTo(g.edges, k)) + (if keys[0] == k then 1 else 0)
    ensures TotalWeight(EdgesFrom(g.edges, k)) + (if keys[|keys| - 1] == k then 1 else 0) == multiset(keys)[k]
  {
    SelectedWeight(keys, g.edges, (a, b) => a == k);
    SelectedWeight(keys, g.edges, (a, b) => b == k);
    CountBySource(keys, k);
    CountByTarget(keys, k);
    HitsAreMultiplicity(keys, k);
  }

  // --- agreement with the detector ---

  lemma {:induction false} StartsAreTransitions(keys: seq<string>, a: string, b: string, bound: nat)
    requires bound + 1 <= |keys|
    ensures |StartsBelow(keys, [a, b], bound)| == Transitions(keys[..bound + 1], a, b)
  {
    if bound > 0 {
      StartsAreTransitions(keys, a, b, bound - 1);
      assert keys[..bound + 1][..bound] == keys[..bound];
      assert keys[bound - 1..bound + 1] == [keys[bound - 1], keys[bound]];
    }
  }

  lemma RawCountIsWeight(keys: seq<string>, a: string, b: string)
    ensures |Starts(keys, [a, b])| == Transitions(keys, a, b)
  {
    if |keys| >= 2 {
      StartsStopEarly(keys, [a, b], |keys| - 1);
      StartsAreTransitions(keys, a, b, |keys| - 1);
      assert keys[..|keys|] == keys;
    } else {
      SelectedBounds(keys, [a, b]);
      assert Starts(keys, [a, b]) == [];
    }
  }

  lemma PairAt(keys: seq<string>, a: string, b: string, i: nat)
    requires OccursAt(keys, [a, b], i)
    ensures keys[i] == a && keys[i + 1] == b
  {
    assert keys[i..i + 2][0] == a && keys[i..i + 2][1] == b;
  }

  lemma DifferentKeysCannotOverlap(keys: seq<string>, a: string, b: string)
    requires a != b
    ensures Selected(keys, [a, b]) == Starts(keys, [a, b])
  {
    var starts := Starts(keys, [a, b]);
    forall i, j | 0 <= i < j < |starts| ensures starts[i] + 2 <= starts[j] {
      assert starts[i] in starts && starts[j] in starts;
      PairAt(keys, a, b, starts[i]);
      PairAt(keys, a, b, starts[j]);
    }
    SpacedStartsAreAllKept(starts, 2, 0);
  }

  lemma CountAndWeight(keys: seq<string>, a: string, b: string)
    ensures a != b ==> |Selected(keys, [a, b])| == Transitions(keys, a, b)
    ensures |Selected(keys, [a, b])| <= Transitions(keys, a, b) <= 2 * |Selected(keys, [a, b])|
  {
    RawCountIsWeight(keys, a, b);
    SelectedBounds(keys, [a, b]);
    if a != b {
      DifferentKeysCannotOverlap(keys, a, b);
    }
  }

  /** The edge between two different keys and the two-step pattern tell the same story. */
  lemma GraphAgreesWithDetector(
    d: PatternDetector, events: History, ps: seq<DetectedPattern>, g: Graph, a: string, b: string)
    requires d.minWindow <= 2 <= d.maxWindow
    requires IsDetection(d, events, ps) && IsGraphOf(g, Keys(events))
    requires a != b
    ensures (exists p :: p in ps && p.signature == [a, b])
       <==> (exists e :: e in g.edges && e.source == a && e.target == b && d.minOccurrences <= e.weight)
    ensures forall p, e :: p in ps && p.signature == [a, b] && e in g.edges && e.source == a && e.target == b ==>
      p.occurrenceCount == e.weight
  {
    CountAndWeight(Keys(events), a, b);
    PairIsReported(d, events, ps, a, b);
    assert HasEdge(g.edges, a, b) <==> Transitions(Keys(events), a, b) > 0;
  }

  lemma PairIsReported(d: PatternDetector, events: History, ps: seq<DetectedPattern>, a: string, b: string)
    requires d.minWindow <= 2 <= d.maxWindow && IsDetection(d, events, ps)
    ensures (exists p :: p in ps && p.signature == [a, b])
       <==> 1 <= |Selected(Keys(events), [a, b])| && d.minOccurrences <= |Selected(Keys(events), [a, b])|
    ensures forall p :: p in ps && p.signature == [a, b] ==> p.occurrenceCount == |Selected(Keys(events), [a, b])|
  {
    var n := |Selected(Keys(events), [a, b])|;
    assert Reported(d, events, [a, b]) <==> 1 <= n && d.minOccurrences <= n;
    forall p | p in ps && p.signature == [a, b]
      ensures p.occurrenceCount == |Selected(Keys(events), [a, b])| && Reported(d, events, [a, b])
    {
      DetectorTheorems.PatternIsSummary(d, events, ps, p);
    }
  }

  /** Repeating one key: the graph counts overlapping pairs, at most twice the pattern's count. */
  lemma SelfLoopIsAtMostDouble(
    d: PatternDetector, events: History, ps: seq<DetectedPattern>, g: Graph, a: string, p: DetectedPattern, e: Edge)
    requires d.minWindow <= 2 <= d.maxWindow
    requires IsDetection(d, events, ps) && IsGraphOf(g, Keys(events))
    requires p in ps && p.signature == [a, a] && e in g.edges && e.source == a && e.target == a
    ensures p.occurrenceCount <= e.weight <= 2 * p.occurrenceCount
  {
    CountAndWeight(Keys(events), a, a);
    PairIsReported(d, events, ps, a, a);
  }
}
