/**
 The validator of generated state graphs, and the proof that every body of reducible shape whose
 matches have arms is normalised to a graph it accepts.
 */
module AsyncValidate {
  import opened Wrappers
  import opened AsyncSyntax
  import opened AsyncGraph
  import opened AsyncNative
  import opened AsyncMachine
  import opened AsyncEmit

  // ---------------------------------------------------------------------------------------------
  // The graph as published: identities and edges

  datatype Kind =
    | KComplete | KBasicBlock | KAwaitSuspend | KAfterAwait | KBranch | KBranchJoin | KMatchJoin | KMatchDispatch
    | KLoopInit | KLoopHeader | KLoopBackedge | KForeachInit | KForeachHeader | KForeachContinue

  /** A state identity: the kind and its ordinal among states of that kind. */
  datatype Id = Id(kind: Kind, ordinal: nat)

  /** `awaitIndex` is set on the edge from a suspension to its continuation. */
  datatype Edge = Edge(from: Id, to: Id, awaitIndex: Option<nat>)

  /** An await point and the identity of its continuation. */
  datatype Point = Point(index: nat, continuation: Id)

  function KindOf(n: Node): Kind {
    match n
    case Complete => KComplete
    case BasicBlock(_, _) => KBasicBlock
    case AwaitSuspend(_, _, _) => KAwaitSuspend
    case AfterAwait(_, _, _) => KAfterAwait
    case Branch(_, _, _, _) => KBranch
    case Join(ofMatch, _) => if ofMatch then KMatchJoin else KBranchJoin
    case MatchDispatch(_, _, _) => KMatchDispatch
    case LoopInit(_, _) => KLoopInit
    case LoopHeader(_, _, _, _, _) => KLoopHeader
    case LoopBackedge(_) => KLoopBackedge
    case ForeachInit(_, _, _) => KForeachInit
    case ForeachHeader(_, _, _, _) => KForeachHeader
    case ForeachContinue(_) => KForeachContinue
  }

  function Occurrences(nodes: Nodes, kind: Kind): nat {
    if nodes == [] then 0
    else Occurrences(nodes[..|nodes| - 1], kind) + (if KindOf(nodes[|nodes| - 1]) == kind then 1 else 0)
  }

  /** The identity `finalize` gives state `i`. */
  function IdAt(nodes: Nodes, i: nat): Id
    requires i < |nodes|
  {
    Id(KindOf(nodes[i]), Occurrences(nodes[..i], KindOf(nodes[i])))
  }

  lemma {:induction false} OccurrencesGrow(nodes: Nodes, i: nat, j: nat, kind: Kind)
    requires i <= j <= |nodes|
    ensures Occurrences(nodes[..i], kind) <= Occurrences(nodes[..j], kind)
    ensures i < j && KindOf(nodes[i]) == kind ==> Occurrences(nodes[..i], kind) < Occurrences(nodes[..j], kind)
    decreases j
  {
    if i < j {
      assert nodes[..j][..j - 1] == nodes[..j - 1];
      OccurrencesGrow(nodes, i, j - 1, kind);
    }
  }

  /** Identities are unique. */
  lemma IdsDiffer(nodes: Nodes, i: nat, j: nat)
    requires i < j < |nodes|
    ensures IdAt(nodes, i) != IdAt(nodes, j)
  {
    if KindOf(nodes[i]) == KindOf(nodes[j]) {
      OccurrencesGrow(nodes, i, j, KindOf(nodes[i]));
    }
  }

  function Ids(nodes: Nodes): (r: seq<Id>)
    ensures |r| == |nodes| && forall i :: 0 <= i < |r| ==> r[i] == IdAt(nodes, i)
  {
    seq(|nodes|, i requires 0 <= i < |nodes| => IdAt(nodes, i))
  }

  /** The await an edge of this node resumes. */
  function EdgeAwait(n: Node): Option<nat> {
    match n
    case AwaitSuspend(_, Await(id, _, _), _) => Some(id)
    case AwaitSuspend(_, _, _) => Some(0)
    case _ => None
  }

  ghost predicate TargetsFit(nodes: Nodes) {
    forall i, k :: 0 <= i < |nodes| && 0 <= k < |Targets(nodes[i])| ==> Targets(nodes[i])[k] < |nodes|
  }

  /** The edges `mir` adds for state `i`. */
  ghost function EdgesFrom(nodes: Nodes, i: nat): (r: seq<Edge>)
    requires i < |nodes| && TargetsFit(nodes)
    ensures |r| == |Targets(nodes[i])|
    ensures forall k :: 0 <= k < |r| ==>
              r[k] == Edge(IdAt(nodes, i), IdAt(nodes, Targets(nodes[i])[k]), EdgeAwait(nodes[i]))
  {
    var ts := Targets(nodes[i]);
    seq(|ts|, k requires 0 <= k < |ts| => Edge(IdAt(nodes, i), IdAt(nodes, ts[k]), EdgeAwait(nodes[i])))
  }

  /** All edges of the first `n` states. */
  ghost function Edges(nodes: Nodes, n: nat): seq<Edge>
    requires n <= |nodes| && TargetsFit(nodes)
  {
    if n == 0 then [] else Edges(nodes, n - 1) + EdgesFrom(nodes, n - 1)
  }

  // ---------------------------------------------------------------------------------------------
  // Acceptance

  function EdgesLeaving(edges: seq<Edge>, from: Id): nat {
    if edges == [] then 0
    else EdgesLeaving(edges[..|edges| - 1], from) + (if edges[|edges| - 1].from == from then 1 else 0)
  }

  function AwaitEdges(edges: seq<Edge>, index: nat): nat {
    if edges == [] then 0
    else AwaitEdges(edges[..|edges| - 1], index) + (if edges[|edges| - 1].awaitIndex == Some(index) then 1 else 0)
  }

  predicate DegreeFits(kind: Kind, degree: nat) {
    if kind == KComplete then degree == 0
    else if kind == KLoopHeader then degree == 2 || degree == 3
    else if kind == KBranch || kind == KForeachHeader then degree == 2
    else degree != 0
  }

  ghost predicate ClosedUnder(edges: seq<Edge>, s: set<Id>) {
    forall i :: 0 <= i < |edges| && edges[i].from in s ==> edges[i].to in s
  }

  ghost predicate EdgeFits(e: Edge, states: seq<Id>, points: seq<Point>) {
    && e.from in states && e.to in states
    && (e.awaitIndex.Some? ==> e.awaitIndex.value < |points| && e.from.kind == KAwaitSuspend
                               && e.to.kind == KAfterAwait)
  }

  /** One edge resumes the await, and its continuation is a state. */
  ghost predicate PointFits(p: Point, states: seq<Id>, edges: seq<Edge>) {
    p.continuation in states && p.continuation.kind == KAfterAwait && AwaitEdges(edges, p.index) == 1
  }

  /** What the validator demands of a published graph. */
  ghost predicate Accepts(states: seq<Id>, generated: seq<Id>, edges: seq<Edge>, points: seq<Point>) {
    && states != [] && generated == states
    && (forall i, j :: 0 <= i < j < |states| ==> states[i] != states[j])
    && (forall i :: 0 <= i < |edges| ==> EdgeFits(edges[i], states, points))
    && (forall s: set<Id>, i :: states[0] in s && ClosedUnder(edges, s) && 0 <= i < |states| ==> states[i] in s)
    && (forall i :: 0 <= i < |states| ==> DegreeFits(states[i].kind, EdgesLeaving(edges, states[i])))
    && (forall i :: 0 <= i < |points| ==> PointFits(points[i], states, edges))
  }

  method CountLeaving(edges: seq<Edge>, from: Id) returns (n: nat)
    ensures n == EdgesLeaving(edges, from)
  {
    n := 0;
    for i := 0 to |edges|
      invariant n == EdgesLeaving(edges[..i], from)
    {
      assert edges[..i + 1][..i] == edges[..i];
      if edges[i].from == from {
        n := n + 1;
      }
    }
    assert edges[..|edges|] == edges;
  }

  method CountAwaits(edges: seq<Edge>, index: nat) returns (n: nat)
    ensures n == AwaitEdges(edges, index)
  {
    n := 0;
    for i := 0 to |edges|
      invariant n == AwaitEdges(edges[..i], index)
    {
      assert edges[..i + 1][..i] == edges[..i];
      if edges[i].awaitIndex == Some(index) {
        n := n + 1;
      }
    }
    assert edges[..|edges|] == edges;
  }

  /** The `changed` loop: the least set of states closed under the edges that holds the entry. */
  method ReachableStates(states: seq<Id>, edges: seq<Edge>) returns (reached: set<Id>)
    requires states != []
    requires forall i :: 0 <= i < |edges| ==> edges[i].to in states
    ensures states[0] in reached && ClosedUnder(edges, reached)
    ensures forall s: set<Id>, x :: states[0] in s && ClosedUnder(edges, s) && x in reached ==> x in s
  {
    ghost var all := set x | x in states;
    reached := {states[0]};
    var changed := true;
    while changed
      invariant states[0] in reached && reached <= all
      invariant !changed ==> ClosedUnder(edges, reached)
      invariant forall s: set<Id>, x :: states[0] in s && ClosedUnder(edges, s) && x in reached ==> x in s
      decreases |all - reached|, changed
    {
      changed := false;
      ghost var before := reached;
      for k := 0 to |edges|
        invariant before <= reached <= all && states[0] in reached
        invariant changed <==> before != reached
        invariant forall j :: 0 <= j < k && edges[j].from in before && !changed ==> edges[j].to in reached
        invariant forall s: set<Id>, x :: states[0] in s && ClosedUnder(edges, s) && x in reached ==> x in s
      {
        if edges[k].from in reached && edges[k].to !in reached {
          assert edges[k].to in states;
          reached := reached + {edges[k].to};
          changed := true;
        }
      }
      if changed {
        Shrinks(all, before, reached);
      }
    }
  }

  lemma Shrinks(all: set<Id>, before: set<Id>, after: set<Id>)
    requires before < after <= all
    ensures |all - after| < |all - before|
  {
    assert all - after < all - before by {
      var x :| x in after && x !in before;
      assert x in all - before;
    }
    CardinalityDrops(all - after, all - before);
  }

  lemma {:induction false} CardinalityDrops(a: set<Id>, b: set<Id>)
    requires a < b
    ensures |a| < |b|
  {
    var x :| x in b && x !in a;
    if a != {} {
      var y :| y in a;
      CardinalityDrops(a - {y}, b - {y});
    }
  }

  datatype GraphError = GraphInvalid | StateInvalid | JoinInvalid | MatchInvalid

  /** The complaint about a state's number of outgoing edges. */
  function DegreeError(kind: Kind): GraphError {
    if kind == KComplete then GraphInvalid
    else if kind == KLoopHeader || kind == KBranch || kind == KForeachHeader then JoinInvalid
    else if kind == KMatchDispatch then MatchInvalid
    else StateInvalid
  }

  /** The first state whose number of outgoing edges does not fit its kind. */
  ghost predicate FirstMisfit(states: seq<Id>, edges: seq<Edge>, i: int) {
    && 0 <= i < |states| && !DegreeFits(states[i].kind, EdgesLeaving(edges, states[i]))
    && forall k :: 0 <= k < i ==> DegreeFits(states[k].kind, EdgesLeaving(edges, states[k]))
  }

  ghost predicate Named(states: seq<Id>, generated: seq<Id>) {
    generated == states && forall i, j :: 0 <= i < j < |states| ==> states[i] != states[j]
  }

  /** Edges join states, and every state is reachable from the entry. */
  ghost predicate Linked(states: seq<Id>, edges: seq<Edge>, points: seq<Point>) {
    && states != [] && (forall i :: 0 <= i < |edges| ==> EdgeFits(edges[i], states, points))
    && (forall s: set<Id>, i :: states[0] in s && ClosedUnder(edges, s) && 0 <= i < |states| ==> states[i] in s)
  }

  /** The error for the first demand that fails: counts, names, links, degrees, awaits. */
  ghost predicate Complaint(states: seq<Id>, generated: seq<Id>, edges: seq<Edge>, points: seq<Point>, e: GraphError) {
    if states == [] || |generated| != |states| then e == GraphInvalid
    else if !Named(states, generated) then e == StateInvalid
    else if !Linked(states, edges, points) then e == GraphInvalid
    else if exists i :: FirstMisfit(states, edges, i) then
      exists i :: FirstMisfit(states, edges, i) && e == DegreeError(states[i].kind)
    else e == GraphInvalid
  }

  /** States repeat no identity and are the generated ones, in order. */
  method CheckStates(states: seq<Id>, generated: seq<Id>) returns (ok: bool, seen: set<Id>)
    requires |generated| == |states|
    ensures ok <==> Named(states, generated)
    ensures ok ==> seen == set k | 0 <= k < |states| :: states[k]
  {
    seen := {};
    for i := 0 to |states|
      invariant seen == set k | 0 <= k < i :: states[k]
      invariant forall a, b :: 0 <= a < b < i ==> states[a] != states[b]
      invariant forall a :: 0 <= a < i ==> generated[a] == states[a]
    {
      if states[i] in seen {
        assert exists k :: 0 <= k < i && states[k] == states[i];
        return false, seen;
      }
      if generated[i] != states[i] {
        return false, seen;
      }
      seen := seen + {states[i]};
    }
    ok := true;
  }

  method CheckEdges(states: seq<Id>, edges: seq<Edge>, points: seq<Point>, seen: set<Id>) returns (ok: bool)
    requires seen == set k | 0 <= k < |states| :: states[k]
    ensures ok <==> forall k :: 0 <= k < |edges| ==> EdgeFits(edges[k], states, points)
  {
    for i := 0 to |edges|
      invariant forall k :: 0 <= k < i ==> EdgeFits(edges[k], states, points)
    {
      var e := edges[i];
      if e.from !in seen || e.to !in seen {
        return false;
      }
      if e.awaitIndex.Some?
        && (e.awaitIndex.value >= |points| || e.from.kind != KAwaitSuspend || e.to.kind != KAfterAwait) {
        return false;
      }
    }
    ok := true;
  }

  method CheckDegrees(states: seq<Id>, edges: seq<Edge>) returns (r: Option<GraphError>)
    ensures r == None <==> forall k :: 0 <= k < |states| ==> DegreeFits(states[k].kind, EdgesLeaving(edges, states[k]))
    ensures r.Some? ==> exists i :: FirstMisfit(states, edges, i) && r.value == DegreeError(states[i].kind)
  {
    hide DegreeFits, EdgesLeaving;
    for i := 0 to |states|
      invariant forall k :: 0 <= k < i ==> DegreeFits(states[k].kind, EdgesLeaving(edges, states[k]))
    {
      var degree := CountLeaving(edges, states[i]);
      if !DegreeFits(states[i].kind, degree) {
        assert FirstMisfit(states, edges, i);
        return Some(DegreeError(states[i].kind));
      }
    }
    r := None;
  }

  method CheckPoints(states: seq<Id>, edges: seq<Edge>, points: seq<Point>, seen: set<Id>) returns (ok: bool)
    requires seen == set k | 0 <= k < |states| :: states[k]
    ensures ok <==> forall k :: 0 <= k < |points| ==> PointFits(points[k], states, edges)
  {
    hide AwaitEdges;
    for i := 0 to |points|
      invariant forall k :: 0 <= k < i ==> PointFits(points[k], states, edges)
    {
      var count := CountAwaits(edges, points[i].index);
      if points[i].continuation !in seen || points[i].continuation.kind != KAfterAwait || count != 1 {
        return false;
      }
    }
    ok := true;
  }

  /** `evt1ValidateAsyncGraph`. */
  method ValidateGraph(states: seq<Id>, generated: seq<Id>, edges: seq<Edge>, points: seq<Point>)
    returns (r: Option<GraphError>)
    ensures r == None <==> Accepts(states, generated, edges, points)
    ensures r.Some? ==> Complaint(states, generated, edges, points, r.value)
  {
    hide EdgeFits, DegreeFits, EdgesLeaving, AwaitEdges, ClosedUnder;
    if |states| == 0 || |generated| != |states| {
      return Some(GraphInvalid);
    }
    var named, seen := CheckStates(states, generated);
    if !named {
      return Some(StateInvalid);
    }
    var linked := CheckEdges(states, edges, points, seen);
    if !linked {
      return Some(GraphInvalid);
    }
    EdgesEnd(states, edges, points);
    var reached := ReachableStates(states, edges);
    for i := 0 to |states|
      invariant forall k :: 0 <= k < i ==> states[k] in reached
    {
      if states[i] !in reached {
        return Some(GraphInvalid);
      }
    }
    var degrees := CheckDegrees(states, edges);
    if degrees.Some? {
      return degrees;
    }
    var paired := CheckPoints(states, edges, points, seen);
    r := if paired then None else Some(GraphInvalid);
  }

  lemma EdgesEnd(states: seq<Id>, edges: seq<Edge>, points: seq<Point>)
    requires forall k :: 0 <= k < |edges| ==> EdgeFits(edges[k], states, points)
    ensures forall i :: 0 <= i < |edges| ==> edges[i].to in states
  {
  }
}
