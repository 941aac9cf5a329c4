/** The graph published for a reducible body is accepted by the validator; acceptance is worth having. */
module AsyncAccepted {
  import opened Wrappers
  import opened AsyncSyntax
  import opened AsyncGraph
  import opened AsyncMachine
  import opened AsyncEmit
  import opened AsyncValidate
  import opened AsyncNormalize
  import opened AsyncPairs

  // ---------------------------------------------------------------------------------------------
  // The published graph

  /** The first continuation of await `i`, by the name it has when there is none. */
  function ContinuationOf(nodes: Nodes, from: nat, i: nat): Id
    requires from <= |nodes|
    decreases |nodes| - from
  {
    if from == |nodes| then Id(KAfterAwait, i)
    else if Marks(nodes[from], Resuming, i) then IdAt(nodes, from)
    else ContinuationOf(nodes, from + 1, i)
  }

  function Points(nodes: Nodes, awaits: nat): (r: seq<Point>)
    ensures |r| == awaits && forall i :: 0 <= i < awaits ==> r[i] == Point(i, ContinuationOf(nodes, 0, i))
  {
    seq(awaits, i requires 0 <= i < awaits => Point(i, ContinuationOf(nodes, 0, i)))
  }

  lemma {:induction false} ContinuationExists(nodes: Nodes, from: nat, at: nat, i: nat)
    requires from <= at < |nodes| && Marks(nodes[at], Resuming, i)
    ensures exists k :: from <= k <= at && Marks(nodes[k], Resuming, i)
                        && ContinuationOf(nodes, from, i) == IdAt(nodes, k)
    decreases at - from
  {
    if !Marks(nodes[from], Resuming, i) {
      ContinuationExists(nodes, from + 1, at, i);
    }
  }

  // ---------------------------------------------------------------------------------------------
  // Counting published edges

  lemma {:induction false} LeavingAdds(a: seq<Edge>, b: seq<Edge>, from: Id)
    ensures EdgesLeaving(a + b, from) == EdgesLeaving(a, from) + EdgesLeaving(b, from)
  {
    if b == [] {
      assert a + b == a;
    } else {
      assert (a + b)[..|a + b| - 1] == a + b[..|b| - 1];
      LeavingAdds(a, b[..|b| - 1], from);
    }
  }

  lemma {:induction false} AwaitsAdd(a: seq<Edge>, b: seq<Edge>, index: nat)
    ensures AwaitEdges(a + b, index) == AwaitEdges(a, index) + AwaitEdges(b, index)
  {
    if b == [] {
      assert a + b == a;
    } else {
      assert (a + b)[..|a + b| - 1] == a + b[..|b| - 1];
      AwaitsAdd(a, b[..|b| - 1], index);
    }
  }

  lemma {:induction false} LeavingUniform(edges: seq<Edge>, from: Id, leaves: bool)
    requires forall k :: 0 <= k < |edges| ==> (edges[k].from == from <==> leaves)
    ensures EdgesLeaving(edges, from) == (if leaves then |edges| else 0)
  {
    if edges != [] {
      LeavingUniform(edges[..|edges| - 1], from, leaves);
    }
  }

  lemma {:induction false} AwaitsUniform(edges: seq<Edge>, index: nat, resumes: bool)
    requires forall k :: 0 <= k < |edges| ==> (edges[k].awaitIndex == Some(index) <==> resumes)
    ensures AwaitEdges(edges, index) == (if resumes then |edges| else 0)
  {
    if edges != [] {
      AwaitsUniform(edges[..|edges| - 1], index, resumes);
    }
  }

  lemma {:induction false} DegreeIsTargets(nodes: Nodes, n: nat, i: nat)
    requires i < |nodes| && n <= |nodes| && TargetsFit(nodes)
    ensures EdgesLeaving(Edges(nodes, n), IdAt(nodes, i)) == (if i < n then |Targets(nodes[i])| else 0)
  {
    hide IdAt, TargetsFit, Targets, EdgesLeaving;
    if n == 0 {
      LeavingUniform(Edges(nodes, 0), IdAt(nodes, i), false);
    } else {
      DegreeIsTargets(nodes, n - 1, i);
      LeavingAdds(Edges(nodes, n - 1), EdgesFrom(nodes, n - 1), IdAt(nodes, i));
      if i < n - 1 {
        IdsDiffer(nodes, i, n - 1);
      } else if n - 1 < i {
        IdsDiffer(nodes, n - 1, i);
      }
      LeavingUniform(EdgesFrom(nodes, n - 1), IdAt(nodes, i), i == n - 1);
    }
  }

  lemma OwnAwaitEdges(nodes: Nodes, i: nat, index: nat)
    requires i < |nodes| && TargetsFit(nodes) && (nodes[i].AwaitSuspend? ==> nodes[i].await.Await?)
    ensures AwaitEdges(EdgesFrom(nodes, i), index) == if Marks(nodes[i], Suspending, index) then 1 else 0
  {
    hide IdAt, TargetsFit, AwaitEdges;
    AwaitsUniform(EdgesFrom(nodes, i), index, Marks(nodes[i], Suspending, index));
  }

  lemma {:induction false} AwaitEdgesAreSuspensions(nodes: Nodes, n: nat, index: nat)
    requires n <= |nodes| && TargetsFit(nodes)
    requires forall i :: 0 <= i < |nodes| && nodes[i].AwaitSuspend? ==> nodes[i].await.Await?
    ensures AwaitEdges(Edges(nodes, n), index) == CountHalf(nodes[..n], Suspending, index)
  {
    hide IdAt, TargetsFit, AwaitEdges, CountHalf, EdgesFrom, Marks;
    if n == 0 {
      AwaitsUniform(Edges(nodes, 0), index, false);
      NoneCounted(nodes[..0], Suspending, index);
    } else {
      AwaitEdgesAreSuspensions(nodes, n - 1, index);
      AwaitsAdd(Edges(nodes, n - 1), EdgesFrom(nodes, n - 1), index);
      OwnAwaitEdges(nodes, n - 1, index);
      assert nodes[..n] == nodes[..n - 1] + [nodes[n - 1]];
      CountPush(nodes[..n - 1], nodes[n - 1], Suspending, index);
    }
  }

  /** Every edge is one of those added for some state. */
  lemma {:induction false} EdgeOrigin(nodes: Nodes, n: nat, k: nat) returns (i: nat, j: nat)
    requires n <= |nodes| && TargetsFit(nodes) && k < |Edges(nodes, n)|
    ensures i < n && j < |Targets(nodes[i])| && Targets(nodes[i])[j] < |nodes|
    ensures Edges(nodes, n)[k] == Edge(IdAt(nodes, i), IdAt(nodes, Targets(nodes[i])[j]), EdgeAwait(nodes[i]))
  {
    hide IdAt, Targets, EdgeAwait;
    if k < |Edges(nodes, n - 1)| {
      i, j := EdgeOrigin(nodes, n - 1, k);
    } else {
      i, j := n - 1, k - |Edges(nodes, n - 1)|;
    }
  }

  lemma {:induction false} EdgeExists(nodes: Nodes, n: nat, i: nat, j: nat) returns (k: nat)
    requires i < n <= |nodes| && TargetsFit(nodes) && j < |Targets(nodes[i])|
    ensures k < |Edges(nodes, n)| && Targets(nodes[i])[j] < |nodes|
    ensures Edges(nodes, n)[k] == Edge(IdAt(nodes, i), IdAt(nodes, Targets(nodes[i])[j]), EdgeAwait(nodes[i]))
  {
    hide IdAt, Targets, EdgeAwait;
    if i < n - 1 {
      k := EdgeExists(nodes, n - 1, i, j);
    } else {
      k := |Edges(nodes, n - 1)| + j;
    }
  }

  // ---------------------------------------------------------------------------------------------
  // Emitted graphs

  /** Every state is reachable from state 0. */
  ghost predicate AllReached(nodes: Nodes) {
    forall s: set<nat>, n: nat :: Closed(nodes, s) && 0 in s && n < |nodes| ==> n in s
  }

  /** What the emitted states of a reducible body satisfy. */
  ghost predicate Sound(nodes: Nodes, awaits: nat) {
    && nodes != [] && TargetsFit(nodes) && AllReached(nodes)
    && (forall i :: 0 <= i < |nodes| && nodes[i].MatchDispatch? ==> nodes[i].cases != [])
    && (forall i :: 0 <= i < |nodes| && nodes[i].AwaitSuspend? ==>
          && nodes[i].await.Await? && nodes[i].await.id < awaits && nodes[i].next < |nodes|
          && nodes[nodes[i].next].AfterAwait? && nodes[nodes[i].next].index == nodes[i].await.id)
    && (forall half, id: nat :: CountHalf(nodes, half, id) == (if id < awaits then 1 else 0))
  }

  lemma DegreesFit(nodes: Nodes, awaits: nat, i: nat)
    requires Sound(nodes, awaits) && i < |nodes|
    ensures DegreeFits(KindOf(nodes[i]), |Targets(nodes[i])|)
  {
  }

  lemma EdgesFit(nodes: Nodes, awaits: nat, k: nat)
    requires Sound(nodes, awaits) && k < |Edges(nodes, |nodes|)|
    ensures EdgeFits(Edges(nodes, |nodes|)[k], Ids(nodes), Points(nodes, awaits))
  {
    hide AllReached, Occurrences, Edges;
    var i, j := EdgeOrigin(nodes, |nodes|, k);
    assert Ids(nodes)[i] == IdAt(nodes, i) && Ids(nodes)[Targets(nodes[i])[j]] == IdAt(nodes, Targets(nodes[i])[j]);
  }

  lemma IdStep(nodes: Nodes, s: set<Id>, n: nat, t: nat)
    requires TargetsFit(nodes) && ClosedUnder(Edges(nodes, |nodes|), s)
    requires n < |nodes| && IdAt(nodes, n) in s && t in Targets(nodes[n])
    ensures t < |nodes| && IdAt(nodes, t) in s
  {
    hide IdAt, Edges, Targets, TargetsFit;
    var j :| 0 <= j < |Targets(nodes[n])| && Targets(nodes[n])[j] == t;
    var k := EdgeExists(nodes, |nodes|, n, j);
  }

  lemma IdsReached(nodes: Nodes, s: set<Id>, i: nat)
    requires TargetsFit(nodes) && AllReached(nodes) && nodes != []
    requires IdAt(nodes, 0) in s && ClosedUnder(Edges(nodes, |nodes|), s) && i < |nodes|
    ensures IdAt(nodes, i) in s
  {
    hide IdAt, Edges, Targets, TargetsFit, ClosedUnder;
    var inside := set n: nat | n < |nodes| && IdAt(nodes, n) in s;
    forall n, t | n in inside && t in Targets(nodes[n]) && t < |nodes| ensures t in inside {
      IdStep(nodes, s, n, t);
    }
    assert Closed(nodes, inside);
    assert 0 in inside;
    assert i in inside;
  }

  lemma PointIsFit(nodes: Nodes, awaits: nat, i: nat)
    requires Sound(nodes, awaits) && i < awaits
    ensures var c := ContinuationOf(nodes, 0, i); c in Ids(nodes) && c.kind == KAfterAwait
    ensures AwaitEdges(Edges(nodes, |nodes|), i) == 1
  {
    hide AllReached, Occurrences, Edges;
    AwaitEdgesAreSuspensions(nodes, |nodes|, i);
    assert nodes[..|nodes|] == nodes;
    var at := CountedOnce(nodes, Resuming, i);
    ContinuationExists(nodes, 0, at, i);
    var k :| 0 <= k <= at && Marks(nodes[k], Resuming, i) && ContinuationOf(nodes, 0, i) == IdAt(nodes, k);
    assert Ids(nodes)[k] == IdAt(nodes, k);
  }

  lemma SoundIsAccepted(nodes: Nodes, awaits: nat)
    requires Sound(nodes, awaits)
    ensures Accepts(Ids(nodes), Ids(nodes), Edges(nodes, |nodes|), Points(nodes, awaits))
  {
    hide IdAt, EdgeFits, DegreeFits, ClosedUnder, Edges, AllReached;
    var states, edges, points := Ids(nodes), Edges(nodes, |nodes|), Points(nodes, awaits);
    forall i, j | 0 <= i < j < |states| ensures states[i] != states[j] {
      IdsDiffer(nodes, i, j);
    }
    forall k | 0 <= k < |edges| ensures EdgeFits(edges[k], states, points) {
      EdgesFit(nodes, awaits, k);
    }
    forall s: set<Id>, i | states[0] in s && ClosedUnder(edges, s) && 0 <= i < |states| ensures states[i] in s {
      IdsReached(nodes, s, i);
    }
    forall i | 0 <= i < |states| ensures DegreeFits(states[i].kind, EdgesLeaving(edges, states[i])) {
      DegreeIsTargets(nodes, |nodes|, i);
      DegreesFit(nodes, awaits, i);
      KindOfId(nodes, i);
    }
    forall i | 0 <= i < |points|
      ensures points[i].continuation in states && points[i].continuation.kind == KAfterAwait
              && AwaitEdges(edges, points[i].index) == 1
    {
      PointIsFit(nodes, awaits, i);
    }
  }

  lemma KindOfId(nodes: Nodes, i: nat)
    requires i < |nodes|
    ensures IdAt(nodes, i).kind == KindOf(nodes[i])
  {
  }

  // ---------------------------------------------------------------------------------------------
  // From created to emitted

  lemma EmittedTargets(n: Node, order: seq<nat>)
    ensures |Targets(EmitNode(n, order))| == |Targets(n)|
    ensures forall k :: 0 <= k < |Targets(n)| ==> Targets(EmitNode(n, order))[k] == Place(order, Targets(n)[k])
  {
    if n.MatchDispatch? {
      EmittedCases(n.cases, order);
    }
  }

  lemma {:induction false} EmittedCases(cases: seq<Case>, order: seq<nat>)
    ensures |EmitCases(cases, order)| == |cases|
    ensures forall k :: 0 <= k < |cases| ==> EmitCases(cases, order)[k].target == Place(order, cases[k].target)
  {
    if cases != [] {
      EmittedCases(cases[1..], order);
    }
  }

  /** A total visiting order without repetition. */
  ghost predicate Total(g: Nodes, entry: nat, order: seq<nat>) {
    && GoodOrder(g, order) && order != [] && order[0] == entry
    && (forall i :: 0 <= i < |order| ==> order[i] < |g|)
    && (forall i: nat :: i < |g| ==> i in order)
    && TargetsBelow(g, 0, |g|)
  }

  lemma OrderIsTotal(body: seq<Stmt>)
    requires ReducibleAll(body)
    ensures var b := Normalize(body); Total(b.nodes, b.entry, Order(b))
  {
    hide Normalize, Order;
    var b := Normalize(body);
    AllNodesAreNumbered(body);
    NormalizedTargets(body);
    OrderIsReachable(b);
    OrderInRange(b);
  }

  /** The node a state was emitted from. */
  lemma EmittedFrom(g: Nodes, entry: nat, order: seq<nat>, i: nat)
    requires Total(g, entry, order) && i < |order|
    ensures EmitNodes(g, order)[i] == EmitNode(g[order[i]], order) && Place(order, order[i]) == i
  {
    hide EmitNode;
    PlaceIsUnique(order, i);
  }

  lemma EmittedMarks(n: Node, order: seq<nat>, half: Half, id: nat)
    ensures Marks(EmitNode(n, order), half, id) == Marks(n, half, id)
  {
  }

  lemma EmittedCount(g: Nodes, entry: nat, order: seq<nat>, half: Half, id: nat)
    requires Total(g, entry, order) && CountHalf(g, half, id) <= 1
    ensures CountHalf(EmitNodes(g, order), half, id) == CountHalf(g, half, id)
  {
    hide EmitNode, Marks, CountHalf, TargetsBelow;
    var e := EmitNodes(g, order);
    forall i | 0 <= i < |e| ensures Marks(e[i], half, id) == Marks(g[order[i]], half, id) {
      EmittedMarks(g[order[i]], order, half, id);
    }
    if CountHalf(g, half, id) == 1 {
      var at := CountedOnce(g, half, id);
      PlaceFinds(order, at);
      OnlyIsOne(e, Place(order, at), half, id);
    } else {
      forall i | 0 <= i < |e| ensures !Marks(e[i], half, id) {
        if Marks(g[order[i]], half, id) {
          CountPositive(g, order[i], half, id);
        }
      }
      NoneCounted(e, half, id);
    }
  }

  lemma EmittedTargetsFit(g: Nodes, entry: nat, order: seq<nat>)
    requires Total(g, entry, order)
    ensures TargetsFit(EmitNodes(g, order))
  {
    hide EmitNode, Targets;
    var e := EmitNodes(g, order);
    forall i, k | 0 <= i < |e| && 0 <= k < |Targets(e[i])| ensures Targets(e[i])[k] < |e| {
      EmittedTargets(g[order[i]], order);
      PlaceFinds(order, Targets(g[order[i]])[k]);
    }
  }

  lemma EmittedReached(b: Built, s: set<nat>, n: nat)
    requires b.entry < |b.nodes| && Total(b.nodes, b.entry, Order(b)) && 0 in s && n < |Order(b)|
    requires Closed(EmitNodes(b.nodes, Order(b)), s)
    ensures n in s
  {
    hide EmitNode, Targets, Order;
    var g, order := b.nodes, Order(b);
    var e := EmitNodes(g, order);
    var inside := set m: nat | m < |g| && Place(order, m) in s;
    forall m, t | m in inside && t in Targets(g[m]) && t < |g| ensures t in inside {
      PlaceFinds(order, m);
      PlaceFinds(order, t);
      EmittedTargets(g[m], order);
      var k :| 0 <= k < |Targets(g[m])| && Targets(g[m])[k] == t;
      assert Targets(e[Place(order, m)])[k] == Place(order, t);
    }
    assert Closed(g, inside);
    OrderIsReachable(b);
    EmittedFrom(g, b.entry, order, 0);
    EmittedFrom(g, b.entry, order, n);
    assert order[n] in order;
  }

  lemma EmittedSuspension(g: Nodes, entry: nat, order: seq<nat>, i: nat)
    requires Total(g, entry, order) && Fits(g, 0) && i < |order| && EmitNodes(g, order)[i].AwaitSuspend?
    ensures var e := EmitNodes(g, order);
            && e[i].await.Await? && e[i].next < |e|
            && e[e[i].next].AfterAwait? && e[e[i].next].index == e[i].await.id
  {
    var m := order[i];
    assert NodeFits(g, 0, m);
    PlaceFinds(order, m - 1);
  }

  lemma EmittedIsSound(body: seq<Stmt>)
    requires ReducibleAll(body) && Numbered(body)
    ensures Sound(EmitUnit(Normalize(body), All).nodes, |AwaitsAll(body)|)
  {
    hide Normalize, Order, Closed, TargetsFit, Fits;
    var b, awaits := Normalize(body), |AwaitsAll(body)|;
    var g, order := b.nodes, Order(b);
    OrderIsTotal(body);
    NormalizedTargets(body);
    NormalizedFits(body);
    var e := EmitNodes(g, order);
    EmittedTargetsFit(g, b.entry, order);
    forall half, id: nat ensures CountHalf(e, half, id) == (if id < awaits then 1 else 0) {
      OnePairPerAwait(body, half, id);
      EmittedCount(g, b.entry, order, half, id);
    }
    forall s: set<nat>, n: nat | Closed(e, s) && 0 in s && n < |e| ensures n in s {
      EmittedReached(b, s, n);
    }
    forall i | 0 <= i < |e| && e[i].MatchDispatch? ensures e[i].cases != [] {
      DispatchKeepsArms(g, b.entry, order, i);
    }
    forall i | 0 <= i < |e| && e[i].AwaitSuspend?
      ensures && e[i].await.Await? && e[i].await.id < awaits && e[i].next < |e|
              && e[e[i].next].AfterAwait? && e[e[i].next].index == e[i].await.id
    {
      EmittedSuspension(g, b.entry, order, i);
      CountPositive(e, i, Suspending, e[i].await.id);
    }
  }

  lemma DispatchKeepsArms(g: Nodes, entry: nat, order: seq<nat>, i: nat)
    requires Total(g, entry, order) && Fits(g, 0) && i < |order| && EmitNodes(g, order)[i].MatchDispatch?
    ensures EmitNodes(g, order)[i].cases != []
  {
    assert NodeFits(g, 0, order[i]);
  }

  /** Every reducible body is normalised to a graph that the validator accepts. */
  lemma NormalizedGraphIsAccepted(body: seq<Stmt>)
    requires ReducibleAll(body) && Numbered(body)
    ensures var e := EmitUnit(Normalize(body), All).nodes;
            TargetsFit(e) && Accepts(Ids(e), Ids(e), Edges(e, |e|), Points(e, |AwaitsAll(body)|))
  {
    hide Normalize, EmitUnit, Accepts;
    EmittedIsSound(body);
    SoundIsAccepted(EmitUnit(Normalize(body), All).nodes, |AwaitsAll(body)|);
  }

  // ---------------------------------------------------------------------------------------------
  // What acceptance means

  /** A walk along edges, as the list of states it visits. */
  ghost predicate Walk(edges: seq<Edge>, path: seq<Id>) {
    && path != []
    && forall i :: 0 < i < |path| ==>
         exists k :: 0 <= k < |edges| && edges[k].from == path[i - 1] && edges[k].to == path[i]
  }

  ghost predicate WalkTo(edges: seq<Edge>, from: Id, to: Id) {
    exists path: seq<Id> :: Walk(edges, path) && path[0] == from && path[|path| - 1] == to
  }

  lemma WalkOn(edges: seq<Edge>, from: Id, k: nat)
    requires k < |edges| && WalkTo(edges, from, edges[k].from)
    ensures WalkTo(edges, from, edges[k].to)
  {
    var path: seq<Id> :| Walk(edges, path) && path[0] == from && path[|path| - 1] == edges[k].from;
    var longer := path + [edges[k].to];
    forall i | 0 < i < |longer|
      ensures exists k :: 0 <= k < |edges| && edges[k].from == longer[i - 1] && edges[k].to == longer[i]
    {
      if i < |path| {
        assert longer[i - 1] == path[i - 1] && longer[i] == path[i];
      }
    }
    assert Walk(edges, longer);
  }

  /** In an accepted graph a walk leads from the entry to every state, and only completion is terminal. */
  lemma AcceptanceMeans(states: seq<Id>, generated: seq<Id>, edges: seq<Edge>, points: seq<Point>, i: nat)
    requires Accepts(states, generated, edges, points) && i < |states|
    ensures WalkTo(edges, states[0], states[i])
    ensures (forall k :: 0 <= k < |edges| ==> edges[k].from != states[i]) <==> states[i].kind == KComplete
  {
    hide EdgeFits;
    var all := set x | x in states;
    var walked := set x | x in all && WalkTo(edges, states[0], x);
    assert Walk(edges, [states[0]]);
    forall k | 0 <= k < |edges| && edges[k].from in walked ensures edges[k].to in walked {
      WalkOn(edges, states[0], k);
      EndIsState(edges[k], states, points);
    }
    assert ClosedUnder(edges, walked);
    LeavingNone(edges, states[i]);
  }

  lemma EndIsState(e: Edge, states: seq<Id>, points: seq<Point>)
    requires EdgeFits(e, states, points)
    ensures e.to in states
  {
  }

  lemma {:induction false} LeavingNone(edges: seq<Edge>, from: Id)
    ensures EdgesLeaving(edges, from) == 0 <==> forall k :: 0 <= k < |edges| ==> edges[k].from != from
  {
    if edges != [] {
      LeavingNone(edges[..|edges| - 1], from);
    }
  }
}
