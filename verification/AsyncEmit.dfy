/**
 Numbering the states.  `finalize` visits the graph depth first from its entry; the emitted step
 function has one case per visited node, and the state number is the node's place in that order.
 */
module AsyncEmit {
  import opened Wrappers
  import opened AsyncSyntax
  import opened AsyncDirect
  import opened AsyncGraph
  import opened AsyncMachine
  import opened AsyncRuns

  /** The targets of a node, in the order `finalize` visits them. */
  function Targets(n: Node): seq<nat> {
    match n
    case Complete => []
    case Branch(_, _, t, f) => [t, f]
    case MatchDispatch(_, _, cases) => CaseTargets(cases)
    case LoopHeader(_, _, t, f, exhausted) => if exhausted.Some? then [t, f, exhausted.value] else [t, f]
    case ForeachHeader(_, _, body, exit) => [body, exit]
    case _ => [n.next]
  }

  function CaseTargets(cases: seq<Case>): (r: seq<nat>)
    ensures |r| == |cases| && forall i :: 0 <= i < |r| ==> r[i] == cases[i].target
  {
    if cases == [] then [] else [cases[0].target] + CaseTargets(cases[1..])
  }

  /** Nodes not yet visited, the measure of the search. */
  function Unvisited(g: Nodes, order: seq<nat>): set<nat> {
    set i: nat | i < |g| && i !in order
  }

  /** `visit`: appends what is newly reached from `n`. */
  function Visit(g: Nodes, n: nat, order: seq<nat>): (r: seq<nat>)
    ensures order <= r
    ensures n < |g| ==> n in r
    decreases Unvisited(g, order), 0, 0
  {
    if n >= |g| || n in order then order
    else
      assert n in Unvisited(g, order) && n !in Unvisited(g, order + [n]);
      VisitAll(g, Targets(g[n]), order + [n])
  }

  function VisitAll(g: Nodes, ns: seq<nat>, order: seq<nat>): (r: seq<nat>)
    ensures order <= r
    ensures forall n :: n in ns && n < |g| ==> n in r
    decreases Unvisited(g, order), 1, |ns|
  {
    if ns == [] then order
    else
      var first := Visit(g, ns[0], order);
      assert Unvisited(g, first) <= Unvisited(g, order);
      VisitAll(g, ns[1..], first)
  }

  /** The visiting order from the entry. */
  function Order(b: Built): seq<nat> {
    Visit(b.nodes, b.entry, [])
  }

  ghost predicate Distinct(order: seq<nat>) {
    forall i, j :: 0 <= i < j < |order| ==> order[i] != order[j]
  }

  /** Every node visited since `from` has all its targets in `order`. */
  ghost predicate ClosedSince(g: Nodes, from: seq<nat>, order: seq<nat>) {
    forall n :: n in order && n !in from && n < |g| ==> forall t :: t in Targets(g[n]) && t < |g| ==> t in order
  }

  lemma {:induction false} VisitFacts(g: Nodes, n: nat, order: seq<nat>)
    requires Distinct(order) && (forall i :: i in order ==> i < |g|)
    ensures var r := Visit(g, n, order);
            Distinct(r) && (forall i :: i in r ==> i < |g|) && ClosedSince(g, order, r)
    decreases Unvisited(g, order), 0, 0
  {
    if n < |g| && n !in order {
      assert n in Unvisited(g, order) && n !in Unvisited(g, order + [n]);
      VisitAllFacts(g, Targets(g[n]), order + [n]);
    }
  }

  lemma {:induction false} VisitAllFacts(g: Nodes, ns: seq<nat>, order: seq<nat>)
    requires Distinct(order) && (forall i :: i in order ==> i < |g|)
    ensures var r := VisitAll(g, ns, order);
            Distinct(r) && (forall i :: i in r ==> i < |g|) && ClosedSince(g, order, r)
    decreases Unvisited(g, order), 1, |ns|
  {
    if ns != [] {
      var first := Visit(g, ns[0], order);
      assert Unvisited(g, first) <= Unvisited(g, order);
      VisitFacts(g, ns[0], order);
      VisitAllFacts(g, ns[1..], first);
    }
  }

  /** A set of nodes that control cannot leave. */
  ghost predicate Closed(g: Nodes, s: set<nat>) {
    forall n :: n in s && n < |g| ==> forall t :: t in Targets(g[n]) && t < |g| ==> t in s
  }

  /** Only nodes reachable from where the search starts are visited. */
  lemma {:induction false} VisitStaysInside(g: Nodes, n: nat, order: seq<nat>, s: set<nat>)
    requires Closed(g, s) && (n < |g| ==> n in s) && (forall i :: i in order ==> i in s)
    ensures forall i :: i in Visit(g, n, order) ==> i in s
    decreases Unvisited(g, order), 0, 0
  {
    if n < |g| && n !in order {
      assert n in Unvisited(g, order) && n !in Unvisited(g, order + [n]);
      VisitAllStaysInside(g, Targets(g[n]), order + [n], s);
    }
  }

  lemma {:induction false} VisitAllStaysInside(g: Nodes, ns: seq<nat>, order: seq<nat>, s: set<nat>)
    requires Closed(g, s) && (forall i :: i in order ==> i in s) && (forall t :: t in ns && t < |g| ==> t in s)
    ensures forall i :: i in VisitAll(g, ns, order) ==> i in s
    decreases Unvisited(g, order), 1, |ns|
  {
    if ns != [] {
      var first := Visit(g, ns[0], order);
      assert Unvisited(g, first) <= Unvisited(g, order);
      VisitStaysInside(g, ns[0], order, s);
      VisitAllStaysInside(g, ns[1..], first, s);
    }
  }

  /** The visited nodes are exactly those reachable from the entry, each once, the entry first. */
  lemma OrderIsReachable(b: Built)
    requires b.entry < |b.nodes|
    ensures var order := Order(b);
            && Distinct(order) && order != [] && order[0] == b.entry
            && (forall n :: n in order ==> n < |b.nodes|)
            && (forall n, t :: n in order && t in Targets(b.nodes[n]) && t < |b.nodes| ==> t in order)
            && (forall s: set<nat>, n :: Closed(b.nodes, s) && b.entry in s && n in order ==> n in s)
  {
    VisitFacts(b.nodes, b.entry, []);
    forall s: set<nat>, n | Closed(b.nodes, s) && b.entry in s && n in Order(b) ensures n in s {
      VisitStaysInside(b.nodes, b.entry, [], s);
    }
    assert [b.entry] <= Order(b);
  }

  // ---------------------------------------------------------------------------------------------
  // Compiled targets are nodes

  ghost predicate TargetsBelow(g: Nodes, lo: nat, hi: nat) {
    forall i, t :: lo <= i < |g| && t in Targets(g[i]) ==> t < hi
  }

  lemma {:induction false} CompileTargets(b: seq<Stmt>, next: nat, nodes: Nodes)
    requires next < |nodes|
    ensures var r := Compile(b, next, nodes); r.entry < |r.nodes| && TargetsBelow(r.nodes, |nodes|, |r.nodes|)
    decreases b, 2
  {
    if b != [] {
      CompileFromTargets([], b, next, nodes);
    }
  }

  lemma {:induction false} CompileFromTargets(ordinary: seq<Stmt>, b: seq<Stmt>, next: nat, nodes: Nodes)
    requires next < |nodes|
    ensures var r := CompileFrom(ordinary, b, next, nodes);
            r.entry < |r.nodes| && TargetsBelow(r.nodes, |nodes|, |r.nodes|)
    decreases b, 1
  {
    hide Compile, CompileSplit;
    if b == [] {
    } else if !Splits(b[0]) {
      CompileFromTargets(ordinary + [b[0]], b[1..], next, nodes);
    } else {
      CompileTargets(b[1..], next, nodes);
      var after := Compile(b[1..], next, nodes);
      CompileSplitTargets(ordinary, b[0], after.entry, after.nodes);
    }
  }

  lemma {:induction false} CompileSplitTargets(ordinary: seq<Stmt>, st: Stmt, after: nat, nodes: Nodes)
    requires Splits(st) && after < |nodes|
    ensures var r := CompileSplit(ordinary, st, after, nodes);
            r.entry < |r.nodes| && TargetsBelow(r.nodes, |nodes|, |r.nodes|)
    decreases st, 3
  {
    hide Compile, CompileArms, Splits;
    var n := |nodes|;
    if st.If? {
      CompileTargets(st.thn, n, nodes + [Join(false, after)]);
      CompileTargets(st.els, n, Compile(st.thn, n, nodes + [Join(false, after)]).nodes);
    } else if st.Match? {
      CompileArmsTargets(st.arms, n, nodes + [Join(true, after), MatchDispatch(ordinary, st.subject, [])]);
    } else if st.While? {
      CompileWhileTargets(ordinary, st, after, nodes);
    } else if st.Foreach? {
      CompileTargets(st.body, n + 2, ForeachStart(ordinary, st, after, nodes));
    }
  }

  lemma {:induction false} CompileWhileTargets(ordinary: seq<Stmt>, st: Stmt, after: nat, nodes: Nodes)
    requires Splits(st) && after < |nodes| && st.While?
    ensures var r := CompileSplit(ordinary, st, after, nodes);
            r.entry < |r.nodes| && TargetsBelow(r.nodes, |nodes|, |r.nodes|)
    decreases st, 2
  {
    hide Compile, Splits;
    var n := |nodes|;
    var started := WhileStart(ordinary, st, after, nodes);
    if st.hasElse {
      CompileTargets(st.els, after, started);
    }
    var exhausted := CompileElse(st, after, started);
    CompileTargets(st.body, n + 2, exhausted.nodes);
    var inside := Compile(st.body, n + 2, exhausted.nodes);
    LoopTargets(ordinary, st, after, inside.entry, exhausted.entry, nodes);
    LoopBelow(n, started, exhausted.nodes, inside.nodes, WhileHeader(st, inside.entry, after, exhausted.entry));
  }

  lemma LoopBelow(n: nat, started: Nodes, exhausted: Nodes, inside: Nodes, header: Node)
    requires |started| == n + 3 && started <= exhausted <= inside
    requires Targets(started[n]) == [n + 1] && Targets(started[n + 2]) == [n + 1]
    requires TargetsBelow(exhausted, n + 3, |exhausted|) && TargetsBelow(inside, |exhausted|, |inside|)
    requires forall t :: t in Targets(header) ==> t < |inside|
    ensures TargetsBelow(inside[n + 1 := header], n, |inside|)
  {
    hide Targets;
    var g := inside[n + 1 := header];
    forall i, t | n <= i < |g| && t in Targets(g[i]) ensures t < |g| {
      if n + 3 <= i < |exhausted| {
        assert g[i] == exhausted[i];
      } else if i != n + 1 && i < n + 3 {
        assert g[i] == started[i];
      }
    }
  }

  /** The targets of the three nodes of a loop. */
  lemma LoopTargets(ordinary: seq<Stmt>, st: Stmt, after: nat, body: nat, exhausted: nat, nodes: Nodes)
    requires st.While?
    ensures var n, started := |nodes|, WhileStart(ordinary, st, after, nodes);
            && |started| == n + 3 && Targets(started[n]) == [n + 1] && Targets(started[n + 2]) == [n + 1]
    ensures forall t :: t in Targets(WhileHeader(st, body, after, exhausted)) ==>
                          t == body || t == after || (st.hasElse && t == exhausted)
  {
  }

  lemma {:induction false} CompileArmsTargets(arms: seq<Arm>, join: nat, nodes: Nodes)
    requires join < |nodes|
    ensures var (cases, built) := CompileArms(arms, join, nodes);
            TargetsBelow(built, |nodes|, |built|) && forall i :: 0 <= i < |cases| ==> cases[i].target < |built|
    decreases arms, 0
  {
    hide Compile;
    if arms != [] {
      CompileTargets(arms[0].body, join, nodes);
      CompileArmsTargets(arms[1..], join, Compile(arms[0].body, join, nodes).nodes);
    }
  }

  lemma NormalizedTargets(body: seq<Stmt>)
    ensures var b := Normalize(body); b.entry < |b.nodes| && TargetsBelow(b.nodes, 0, |b.nodes|)
  {
    hide Compile;
    CompileTargets(body, 0, [Complete]);
    assert [Complete] <= Normalize(body).nodes;
  }

  // ---------------------------------------------------------------------------------------------
  // Emitted graphs

  /** The state number of a node. */
  function Place(order: seq<nat>, n: nat): nat {
    if order == [] || order[0] == n then 0 else 1 + Place(order[1..], n)
  }

  lemma {:induction false} PlaceFinds(order: seq<nat>, n: nat)
    requires n in order
    ensures Place(order, n) < |order| && order[Place(order, n)] == n
  {
    if order[0] != n {
      PlaceFinds(order[1..], n);
    }
  }

  lemma PlaceIsUnique(order: seq<nat>, i: nat)
    requires Distinct(order) && i < |order|
    ensures Place(order, order[i]) == i
  {
    PlaceFinds(order, order[i]);
  }

  function EmitCases(cases: seq<Case>, order: seq<nat>): seq<Case> {
    if cases == [] then []
    else [Case(cases[0].tag, cases[0].binds, Place(order, cases[0].target))] + EmitCases(cases[1..], order)
  }

  /** A node with its targets replaced by state numbers. */
  function EmitNode(n: Node, order: seq<nat>): Node {
    match n
    case Complete => n
    case BasicBlock(b, next) => BasicBlock(b, Place(order, next))
    case AwaitSuspend(b, e, next) => AwaitSuspend(b, e, Place(order, next))
    case AfterAwait(i, st, next) => AfterAwait(i, st, Place(order, next))
    case Branch(b, c, t, f) => Branch(b, c, Place(order, t), Place(order, f))
    case Join(m, next) => Join(m, Place(order, next))
    case MatchDispatch(b, e, cases) => MatchDispatch(b, e, EmitCases(cases, order))
    case LoopInit(b, next) => LoopInit(b, Place(order, next))
    case LoopHeader(c, bound, t, f, x) =>
      LoopHeader(c, bound, Place(order, t), Place(order, f), if x.Some? then Some(Place(order, x.value)) else None)
    case LoopBackedge(next) => LoopBackedge(Place(order, next))
    case ForeachInit(b, src, next) => ForeachInit(b, src, Place(order, next))
    case ForeachHeader(item, src, body, exit) => ForeachHeader(item, src, Place(order, body), Place(order, exit))
    case ForeachContinue(next) => ForeachContinue(Place(order, next))
  }

  function EmitNodes(g: Nodes, order: seq<nat>): (r: Nodes)
    requires forall i :: 0 <= i < |order| ==> order[i] < |g|
    ensures |r| == |order| && forall i :: 0 <= i < |order| ==> r[i] == EmitNode(g[order[i]], order)
  {
    seq(|order|, i requires 0 <= i < |order| => EmitNode(g[order[i]], order))
  }

  lemma OrderInRange(b: Built)
    ensures forall i :: 0 <= i < |Order(b)| ==> Order(b)[i] < |b.nodes|
  {
    VisitFacts(b.nodes, b.entry, []);
    forall i | 0 <= i < |Order(b)| ensures Order(b)[i] < |b.nodes| {
      assert Order(b)[i] in Order(b);
    }
  }

  function EmitUnit(b: Built, keep: Keep): Unit {
    OrderInRange(b);
    Unit(0, EmitNodes(b.nodes, Order(b)), keep)
  }

  /** The emitted code, with every local in the frame. */
  function Emitted(p: Program): Code {
    map f | f in p.fns :: EmitUnit(Normalize(p.fns[f].body), All)
  }

  // ---------------------------------------------------------------------------------------------
  // The emitted machine runs in step with the created one

  /** Generated fields of visited nodes correspond under the numbering. */
  ghost predicate SlotsMatch(order: seq<nat>, a: Slots, b: Slots) {
    forall n {:trigger a[n]} {:trigger n in a} {:trigger Place(order, n)} :: n in order ==>
      (n in a <==> Place(order, n) in b) && (n in a ==> b[Place(order, n)] == a[n])
  }

  function OrderOf(p: Program, f: string): seq<nat>
    requires f in p.fns
  {
    Order(Normalize(p.fns[f].body))
  }

  ghost predicate FrameMatches(p: Program, a: Frame, b: Frame) {
    && a.fn in p.fns && b.fn == a.fn && b.locals == a.locals
    && a.node in OrderOf(p, a.fn) && b.node == Place(OrderOf(p, a.fn), a.node)
    && SlotsMatch(OrderOf(p, a.fn), a.slots, b.slots)
  }

  ghost predicate FramesMatch(p: Program, a: seq<Frame>, b: seq<Frame>) {
    |a| == |b| && forall i :: 0 <= i < |a| ==> FrameMatches(p, a[i], b[i])
  }

  ghost predicate MachinesMatch(p: Program, a: Machine, b: Machine) {
    match a
    case Running(frames, outcome) => b.Running? && b.outcome == outcome && FramesMatch(p, frames, b.frames)
    case _ => a == b
  }

  ghost predicate ActionsMatch(p: Program, a: Action, b: Action) {
    match a
    case Goto(f) => b.Goto? && FrameMatches(p, f, b.f)
    case Push(f, child) => b.Push? && FrameMatches(p, f, b.f) && FrameMatches(p, child, b.child)
    case Leave(f) => b.Leave? && FrameMatches(p, f, b.f)
    case _ => a == b
  }

  /** Facts about the order of one function: distinct, in range, closed under targets, entry first. */
  ghost predicate GoodOrder(g: Nodes, order: seq<nat>) {
    && Distinct(order) && (forall n :: n in order ==> n < |g|)
    && (forall n, t :: n in order && t in Targets(g[n]) ==> t in order)
  }

  lemma SetSlot(order: seq<nat>, a: Slots, b: Slots, n: nat, slot: Slot)
    requires Distinct(order) && SlotsMatch(order, a, b) && n in order
    ensures SlotsMatch(order, a[n := slot], b[Place(order, n) := slot])
  {
    forall m | m in order && m != n ensures Place(order, m) != Place(order, n) {
      PlaceFinds(order, m);
      PlaceFinds(order, n);
    }
  }

  lemma OrderIsGood(p: Program, f: string)
    requires f in p.fns
    ensures GoodOrder(Normalize(p.fns[f].body).nodes, OrderOf(p, f))
    ensures Normalize(p.fns[f].body).entry in OrderOf(p, f) && Place(OrderOf(p, f), Normalize(p.fns[f].body).entry) == 0
  {
    hide Normalize;
    var b := Normalize(p.fns[f].body);
    NormalizedTargets(p.fns[f].body);
    OrderIsReachable(b);
  }

  lemma EmittedAt(g: Nodes, order: seq<nat>, n: nat)
    requires GoodOrder(g, order) && n in order && (forall i :: 0 <= i < |order| ==> order[i] < |g|)
    ensures Place(order, n) < |order| && n < |g|
    ensures EmitNodes(g, order)[Place(order, n)] == EmitNode(g[n], order)
  {
    PlaceFinds(order, n);
  }

  lemma EmittedStatements(n: Node, order: seq<nat>)
    ensures Statements(EmitNode(n, order)) == Statements(n)
  {
  }

  lemma {:induction false} SelectMatches(p: Program, order: seq<nat>, cases: seq<Case>, tag: string,
                                         payload: seq<Value>, a: Frame, b: Frame)
    requires a.fn in p.fns && order == OrderOf(p, a.fn) && FrameMatches(p, a, b)
    requires forall i :: 0 <= i < |cases| ==> cases[i].target in order
    ensures ActionsMatch(p, Select(cases, tag, payload, a), Select(EmitCases(cases, order), tag, payload, b))
  {
    if cases != [] && cases[0].tag != tag {
      SelectMatches(p, order, cases[1..], tag, payload, a, b);
    }
  }

  lemma StartedMatches(p: Program, native: nat, f: string, args: seq<Value>)
    requires f in p.fns && |p.fns[f].params| == |args|
    ensures FrameMatches(p, Started(Env(p, Created(p), native), f, args), Started(Env(p, Emitted(p), native), f, args))
  {
    hide Normalize, EmitNodes;
    OrderIsGood(p, f);
  }

  lemma CountMatches(order: seq<nat>, a: Slots, b: Slots, n: nat)
    requires SlotsMatch(order, a, b) && n in order
    ensures CountAt(a, n) == CountAt(b, Place(order, n))
  {
  }

  lemma IterateMatches(order: seq<nat>, a: Slots, b: Slots, n: nat)
    requires SlotsMatch(order, a, b) && n in order
    ensures n in a <==> Place(order, n) in b
    ensures n in a ==> a[n] == b[Place(order, n)]
  {
  }

  /** Corresponding frames, with the visiting order known to be good. */
  ghost predicate AtVisited(p: Program, a: Frame, b: Frame) {
    && FrameMatches(p, a, b)
    && var g, order := Normalize(p.fns[a.fn].body).nodes, OrderOf(p, a.fn);
       && GoodOrder(g, order) && (forall i :: 0 <= i < |order| ==> order[i] < |g|)
       && a.node < |g| && b.node < |order|
  }

  ghost predicate DispatchesMatch(p: Program, native: nat, a: Frame, b: Frame, outcome: Value)
    requires AtVisited(p, a, b)
  {
    var g, order := Normalize(p.fns[a.fn].body).nodes, OrderOf(p, a.fn);
    ActionsMatch(p, Dispatch(Env(p, Created(p), native), g, a, outcome),
                 Dispatch(Env(p, Emitted(p), native), EmitNodes(g, order), b, outcome))
  }

  /** The emitted node at a visited node's place, and its visited targets. */
  lemma VisitedNode(p: Program, a: Frame, b: Frame)
    requires AtVisited(p, a, b)
    ensures var g, order := Normalize(p.fns[a.fn].body).nodes, OrderOf(p, a.fn);
            && EmitNodes(g, order)[b.node] == EmitNode(g[a.node], order)
            && (forall t :: t in Targets(g[a.node]) ==> t in order)
  {
    hide Normalize, EmitNodes, Order;
    EmittedAt(Normalize(p.fns[a.fn].body).nodes, OrderOf(p, a.fn), a.node);
  }

  /** Corresponding frames move to corresponding targets. */
  lemma MoveMatches(p: Program, a: Frame, b: Frame, t: nat)
    requires AtVisited(p, a, b) && t in Targets(Normalize(p.fns[a.fn].body).nodes[a.node])
    ensures FrameMatches(p, a.(node := t), b.(node := Place(OrderOf(p, a.fn), t)))
  {
    hide Normalize, EmitNodes, Order, Place, SlotsMatch, Distinct;
    VisitedNode(p, a, b);
  }

  lemma JumpMatches(p: Program, native: nat, a: Frame, b: Frame, outcome: Value)
    requires AtVisited(p, a, b)
    requires var n := Normalize(p.fns[a.fn].body).nodes[a.node]; n.Complete? || n.BasicBlock? || n.Join? || n.Branch?
    ensures DispatchesMatch(p, native, a, b, outcome)
  {
    hide Normalize, EmitNodes, Order, Started, Place, Pure, PureAll, RunResumed, CursorItem, CursorNext, OpenCursor,
      SlotsMatch, CountAt;
    var g, order := Normalize(p.fns[a.fn].body).nodes, OrderOf(p, a.fn);
    VisitedNode(p, a, b);
    var n := g[a.node];
    if n.Branch? {
      assert n.onTrue in Targets(n) && n.onFalse in Targets(n);
    } else if !n.Complete? {
      assert n.next in Targets(n);
    }
  }

  lemma ResumeMatches(p: Program, native: nat, a: Frame, b: Frame, outcome: Value)
    requires AtVisited(p, a, b)
    requires Normalize(p.fns[a.fn].body).nodes[a.node].AfterAwait?
    ensures DispatchesMatch(p, native, a, b, outcome)
  {
    hide Normalize, EmitNodes, Order, Started, Place, Pure, PureAll, RunResumed, CursorItem, CursorNext, OpenCursor,
      SlotsMatch, CountAt;
    var g, order := Normalize(p.fns[a.fn].body).nodes, OrderOf(p, a.fn);
    VisitedNode(p, a, b);
    var n := g[a.node];
    assert n.next in Targets(n);
    SetSlot(order, a.slots, b.slots, a.node, Awaited(outcome));
  }

  lemma SuspendedMatches(p: Program, native: nat, call: Expr, a: Frame, b: Frame)
    requires FrameMatches(p, a, b)
    ensures ActionsMatch(p, Suspend(Env(p, Created(p), native), call, a), Suspend(Env(p, Emitted(p), native), call, b))
  {
    hide Normalize, EmitNodes, Order, Started, Place, PureAll, SlotsMatch;
    if call.Await? && PureAll(call.operands, a.locals).Some? {
      var args := PureAll(call.operands, a.locals).value;
      if call.callee in p.fns && |p.fns[call.callee].params| == |args| {
        StartedMatches(p, native, call.callee, args);
      }
    }
  }

  lemma SuspendMatches(p: Program, native: nat, a: Frame, b: Frame, outcome: Value)
    requires AtVisited(p, a, b)
    requires Normalize(p.fns[a.fn].body).nodes[a.node].AwaitSuspend?
    ensures DispatchesMatch(p, native, a, b, outcome)
  {
    hide Normalize, EmitNodes, Order, Place, Suspend, SlotsMatch, GoodOrder, ActionsMatch;
    var g, order := Normalize(p.fns[a.fn].body).nodes, OrderOf(p, a.fn);
    VisitedNode(p, a, b);
    var n := g[a.node];
    assert n.next in Targets(n);
    MoveMatches(p, a, b, n.next);
    SuspendedMatches(p, native, n.await, a.(node := n.next), b.(node := Place(order, n.next)));
  }

  lemma MatchMatches(p: Program, native: nat, a: Frame, b: Frame, outcome: Value)
    requires AtVisited(p, a, b)
    requires Normalize(p.fns[a.fn].body).nodes[a.node].MatchDispatch?
    ensures DispatchesMatch(p, native, a, b, outcome)
  {
    hide Normalize, EmitNodes, Order, Started, Place, Pure, PureAll, RunResumed, CursorItem, CursorNext, OpenCursor,
      SlotsMatch, CountAt;
    var g, order := Normalize(p.fns[a.fn].body).nodes, OrderOf(p, a.fn);
    VisitedNode(p, a, b);
    var n := g[a.node];
    forall i | 0 <= i < |n.cases| ensures n.cases[i].target in order {
      assert Targets(n)[i] == n.cases[i].target;
    }
    match Pure(n.subject, a.locals) {
      case Some(Variant(tag, payload)) => SelectMatches(p, order, n.cases, tag, payload, a, b);
      case _ =>
    }
  }

  lemma LoopEntryMatches(p: Program, native: nat, a: Frame, b: Frame, outcome: Value)
    requires AtVisited(p, a, b)
    requires var n := Normalize(p.fns[a.fn].body).nodes[a.node]; n.LoopInit? || n.LoopBackedge?
    ensures DispatchesMatch(p, native, a, b, outcome)
  {
    hide Normalize, EmitNodes, Order, Started, Place, Pure, PureAll, RunResumed, CursorItem, CursorNext, OpenCursor,
      SlotsMatch, CountAt;
    var g, order := Normalize(p.fns[a.fn].body).nodes, OrderOf(p, a.fn);
    VisitedNode(p, a, b);
    var n := g[a.node];
    assert n.next in Targets(n);
    EmittedAt(g, order, n.next);
    CountMatches(order, a.slots, b.slots, n.next);
    SetSlot(order, a.slots, b.slots, n.next, Count(if n.LoopInit? then 0 else CountAt(a.slots, n.next) + 1));
  }

  lemma HeaderMatches(p: Program, native: nat, a: Frame, b: Frame, outcome: Value)
    requires AtVisited(p, a, b)
    requires Normalize(p.fns[a.fn].body).nodes[a.node].LoopHeader?
    ensures DispatchesMatch(p, native, a, b, outcome)
  {
    hide Normalize, EmitNodes, Order, Started, Place, Pure, SlotsMatch, CountAt, GoodOrder, Targets;
    var g, order := Normalize(p.fns[a.fn].body).nodes, OrderOf(p, a.fn);
    VisitedNode(p, a, b);
    var n := g[a.node];
    HeaderTargets(n);
    CountMatches(order, a.slots, b.slots, a.node);
    MoveMatches(p, a, b, n.onTrue);
    MoveMatches(p, a, b, n.onFalse);
    if n.exhausted.Some? {
      MoveMatches(p, a, b, n.exhausted.value);
    }
    hide FrameMatches;
  }

  lemma HeaderTargets(n: Node)
    requires n.LoopHeader?
    ensures n.onTrue in Targets(n) && n.onFalse in Targets(n) && (n.exhausted.Some? ==> n.exhausted.value in Targets(n))
  {
    assert Targets(n)[0] == n.onTrue && Targets(n)[1] == n.onFalse;
    assert n.exhausted.Some? ==> Targets(n)[2] == n.exhausted.value;
  }

  lemma ForeachMatches(p: Program, native: nat, a: Frame, b: Frame, outcome: Value)
    requires AtVisited(p, a, b)
    requires var n := Normalize(p.fns[a.fn].body).nodes[a.node];
             n.ForeachInit? || n.ForeachHeader? || n.ForeachContinue?
    ensures DispatchesMatch(p, native, a, b, outcome)
  {
    hide Normalize, EmitNodes, Order, Started, Place, Pure, PureAll, RunResumed, CursorItem, CursorNext, OpenCursor,
      SlotsMatch, CountAt;
    var g, order := Normalize(p.fns[a.fn].body).nodes, OrderOf(p, a.fn);
    VisitedNode(p, a, b);
    var n := g[a.node];
    if n.ForeachHeader? {
      assert n.body in Targets(n) && n.exit in Targets(n);
      IterateMatches(order, a.slots, b.slots, a.node);
    } else {
      assert n.next in Targets(n);
      IterateMatches(order, a.slots, b.slots, n.next);
      if n.ForeachInit? && OpenCursor(n.src, a.locals).Some? {
        SetSlot(order, a.slots, b.slots, n.next, Iterate(OpenCursor(n.src, a.locals).value));
      } else if n.ForeachContinue? && n.next in a.slots && a.slots[n.next].Iterate? {
        SetSlot(order, a.slots, b.slots, n.next, Iterate(CursorNext(a.slots[n.next].c)));
      }
    }
  }

  lemma DispatchMatches(p: Program, native: nat, a: Frame, b: Frame, outcome: Value)
    requires AtVisited(p, a, b)
    ensures DispatchesMatch(p, native, a, b, outcome)
  {
    hide Normalize, DispatchesMatch;
    match Normalize(p.fns[a.fn].body).nodes[a.node]
    case AwaitSuspend(_, _, _) => SuspendMatches(p, native, a, b, outcome);
    case AfterAwait(_, _, _) => ResumeMatches(p, native, a, b, outcome);
    case MatchDispatch(_, _, _) => MatchMatches(p, native, a, b, outcome);
    case LoopInit(_, _) => LoopEntryMatches(p, native, a, b, outcome);
    case LoopBackedge(_) => LoopEntryMatches(p, native, a, b, outcome);
    case LoopHeader(_, _, _, _, _) => HeaderMatches(p, native, a, b, outcome);
    case ForeachInit(_, _, _) => ForeachMatches(p, native, a, b, outcome);
    case ForeachHeader(_, _, _, _) => ForeachMatches(p, native, a, b, outcome);
    case ForeachContinue(_) => ForeachMatches(p, native, a, b, outcome);
    case _ => JumpMatches(p, native, a, b, outcome);
  }

  /** Emitted code discards nothing. */
  lemma KeptAll(a: Action)
    ensures Kept(All, a) == a
  {
  }

  lemma StepFrameMatches(p: Program, native: nat, a: Frame, b: Frame, outcome: Value)
    requires FrameMatches(p, a, b)
    ensures ActionsMatch(p, StepFrame(Env(p, Created(p), native), a, outcome),
                         StepFrame(Env(p, Emitted(p), native), b, outcome))
  {
    hide Normalize, Dispatch, EmitNodes, EmitNode, Order, Place, RunOrdinary, GoodOrder, SlotsMatch, Statements, Kept;
    var g, order := Normalize(p.fns[a.fn].body).nodes, OrderOf(p, a.fn);
    OrderIsGood(p, a.fn);
    OrderInRange(Normalize(p.fns[a.fn].body));
    EmittedAt(g, order, a.node);
    EmittedStatements(g[a.node], order);
    assert Emitted(p)[a.fn].nodes == EmitNodes(g, order);
    var r := RunOrdinary(p, Statements(g[a.node]), a.locals, native);
    forall x: Action ensures Kept(All, x) == x {
      KeptAll(x);
    }
    if r.Ran? {
      DispatchMatches(p, native, a.(locals := r.s), b.(locals := r.s), outcome);
    }
  }

  lemma StepMatches(p: Program, native: nat, a: Machine, b: Machine)
    requires MachinesMatch(p, a, b)
    ensures MachinesMatch(p, Step(Env(p, Created(p), native), a), Step(Env(p, Emitted(p), native), b))
  {
    hide StepFrame, FrameMatches;
    if a.Running? && a.frames != [] {
      StepFrameMatches(p, native, a.frames[|a.frames| - 1], b.frames[|b.frames| - 1], a.outcome);
    }
  }

  lemma {:induction false} RunMatches(p: Program, native: nat, a: Machine, b: Machine, n: nat)
    requires MachinesMatch(p, a, b)
    ensures MachinesMatch(p, Run(Env(p, Created(p), native), a, n), Run(Env(p, Emitted(p), native), b, n))
    decreases n
  {
    hide Step, MachinesMatch;
    if n > 0 {
      StepMatches(p, native, a, b);
      RunMatches(p, native, Step(Env(p, Created(p), native), a), Step(Env(p, Emitted(p), native), b), n - 1);
    }
  }

  /** Renumbering the reachable states changes no run: both operations complete together, with the same value. */
  lemma EmissionPreservesRuns(p: Program, f: string, args: seq<Value>, native: nat, n: nat, v: Value)
    requires f in p.fns && |p.fns[f].params| == |args|
    ensures var created, emitted := Env(p, Created(p), native), Env(p, Emitted(p), native);
            Run(created, Operation(created, f, args), n) == Completed(v) <==>
            Run(emitted, Operation(emitted, f, args), n) == Completed(v)
  {
    hide Step, FrameMatches, Started;
    StartedMatches(p, native, f, args);
    var created, emitted := Env(p, Created(p), native), Env(p, Emitted(p), native);
    RunMatches(p, native, Operation(created, f, args), Operation(emitted, f, args), n);
  }
}
