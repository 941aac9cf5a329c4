/** Every body of reducible shape normalises to a graph the validator accepts. */
module AsyncNormalize {
  import opened Wrappers
  import opened AsyncSyntax
  import opened AsyncGraph
  import opened AsyncNative
  import opened AsyncMachine
  import opened AsyncSimulation
  import opened AsyncEmit
  import opened AsyncValidate

  // ---------------------------------------------------------------------------------------------
  // Reducible bodies

  predicate SimpleShape(e: Expr) {
    AwaitFree(e) || OneAwait(e)
  }

  /** `evt1ValidateAsyncShape`, with awaits kept out of nested blocks and every match given an arm. */
  predicate Reducible(st: Stmt) {
    match st
    case Decl(_, e) => SimpleShape(e)
    case Assign(_, e) => SimpleShape(e)
    case Do(e) => SimpleShape(e)
    case Assert(c) => AwaitFree(c)
    case Return(None) => true
    case Return(Some(e)) => SimpleShape(e)
    case If(c, t, f) => AwaitFree(c) && ReducibleAll(t) && ReducibleAll(f)
    case Match(e, arms) => AwaitFree(e) && arms != [] && ReducibleArms(arms)
    case While(c, _, b, h, f) => AwaitFree(c) && ReducibleAll(b) && (h ==> ReducibleAll(f))
    case Foreach(_, src, b) => SourceAwaitFree(src) && ReducibleAll(b)
    case Block(b) => ReducibleAll(b) && AwaitsAll(b) == []
  }

  predicate ReducibleAll(b: seq<Stmt>) {
    b == [] || (Reducible(b[0]) && ReducibleAll(b[1..]))
  }

  predicate ReducibleArms(arms: seq<Arm>) {
    arms == [] || (ReducibleAll(arms[0].body) && ReducibleArms(arms[1..]))
  }

  /** The positions of the awaits, in source order. */
  function AwaitsOf(e: Expr): seq<nat> {
    match e
    case Await(id, _, _) => [id]
    case Unary(_, x) => AwaitsOf(x)
    case Binary(_, l, r) => AwaitsOf(l) + AwaitsOf(r)
    case _ => []
  }

  function Awaits(st: Stmt): seq<nat> {
    match st
    case Decl(_, e) => AwaitsOf(e)
    case Assign(_, e) => AwaitsOf(e)
    case Do(e) => AwaitsOf(e)
    case Return(Some(e)) => AwaitsOf(e)
    case If(_, t, f) => AwaitsAll(t) + AwaitsAll(f)
    case Match(_, arms) => AwaitsArms(arms)
    case While(_, _, b, h, f) => AwaitsAll(b) + (if h then AwaitsAll(f) else [])
    case Foreach(_, _, b) => AwaitsAll(b)
    case Block(b) => AwaitsAll(b)
    case _ => []
  }

  function AwaitsAll(b: seq<Stmt>): seq<nat> {
    if b == [] then [] else Awaits(b[0]) + AwaitsAll(b[1..])
  }

  function AwaitsArms(arms: seq<Arm>): seq<nat> {
    if arms == [] then [] else AwaitsAll(arms[0].body) + AwaitsArms(arms[1..])
  }

  /** Awaits are numbered as the analysis meets them. */
  predicate Numbered(body: seq<Stmt>) {
    forall i :: 0 <= i < |AwaitsAll(body)| ==> AwaitsAll(body)[i] == i
  }

  lemma {:induction false} NoAwaitsOf(e: Expr)
    requires AwaitFree(e)
    ensures AwaitsOf(e) == []
  {
    match e
    case Unary(_, x) => NoAwaitsOf(x);
    case Binary(_, l, r) => NoAwaitsOf(l); NoAwaitsOf(r);
    case _ =>
  }

  lemma {:induction false} OneAwaitsOf(e: Expr)
    requires OneAwait(e)
    ensures DirectAwait(e).Some? && DirectAwait(e).value.Await? && AwaitsOf(e) == [DirectAwait(e).value.id]
  {
    OneAwaitCall(e);
    match e
    case Unary(_, x) => OneAwaitsOf(x);
    case Binary(_, l, r) =>
      if AwaitFree(l) {
        NoAwaitsOf(l);
        OneAwaitsOf(r);
      } else {
        NoAwaitsOf(r);
        OneAwaitsOf(l);
      }
    case _ =>
  }

  /** A reducible statement that seems to hold no await holds none. */
  lemma {:induction false} QuietHasNone(st: Stmt)
    requires Reducible(st) && !StmtHasAwait(st)
    ensures Awaits(st) == []
  {
    if SimpleExpr(st).Some? {
      var e := SimpleExpr(st).value;
      if AwaitFree(e) {
        NoAwaitsOf(e);
      } else {
        OneAwaitIsDirect(e);
      }
    }
    match st
    case If(c, t, f) => QuietAllHasNone(t); QuietAllHasNone(f);
    case Match(_, arms) => QuietArmsHaveNone(arms);
    case While(_, _, b, h, f) =>
      QuietAllHasNone(b);
      if h {
        QuietAllHasNone(f);
      }
    case Foreach(_, _, b) => QuietAllHasNone(b);
    case _ =>
  }

  lemma {:induction false} QuietAllHasNone(b: seq<Stmt>)
    requires ReducibleAll(b) && !BlockHasAwait(b)
    ensures AwaitsAll(b) == []
  {
    if b != [] {
      QuietHasNone(b[0]);
      QuietAllHasNone(b[1..]);
    }
  }

  lemma {:induction false} QuietArmsHaveNone(arms: seq<Arm>)
    requires ReducibleArms(arms) && !ArmsHaveAwait(arms)
    ensures AwaitsArms(arms) == []
  {
    if arms != [] {
      QuietAllHasNone(arms[0].body);
      QuietArmsHaveNone(arms[1..]);
    }
  }

  lemma UnsplitHasNone(st: Stmt)
    requires Reducible(st) && !Splits(st)
    ensures Awaits(st) == []
  {
    if SimpleExpr(st).Some? {
      var e := SimpleExpr(st).value;
      if !AwaitFree(e) {
        OneAwaitIsDirect(e);
      } else {
        NoAwaitsOf(e);
      }
    } else if st.While? {
      QuietAllHasNone(st.body);
      if st.hasElse {
        QuietAllHasNone(st.els);
      }
    } else if st.Foreach? {
      QuietAllHasNone(st.body);
    } else if st.If? || st.Match? {
      QuietHasNone(st);
    }
  }

  /** A simple statement with nodes of its own awaits exactly once. */
  lemma SplitAwaitsOnce(st: Stmt)
    requires Reducible(st) && Splits(st) && SimpleExpr(st).Some?
    ensures StmtAwait(st).Some? && StmtAwait(st).value.Await? && Awaits(st) == [AwaitId(st)]
    ensures StmtAwait(st).value.id == AwaitId(st)
  {
    var e := SimpleExpr(st).value;
    if AwaitFree(e) {
      AwaitFreeHasNone(e);
    }
    OneAwaitsOf(e);
  }

  // ---------------------------------------------------------------------------------------------
  // Every compiled node is reached

  lemma Flows(g: Nodes, s: set<nat>, n: nat, t: nat)
    requires Closed(g, s) && n in s && n < |g| && t < |g| && t in Targets(g[n])
    ensures t in s
  {
  }

  lemma {:induction false} CoversBlock(b: seq<Stmt>, next: nat, nodes: Nodes, g: Nodes, s: set<nat>)
    requires ReducibleAll(b) && Closed(g, s) && next < |g| && In(g, Compile(b, next, nodes).nodes, |nodes|)
    requires Compile(b, next, nodes).entry in s
    ensures next in s && forall i :: |nodes| <= i < |Compile(b, next, nodes).nodes| ==> i in s
    decreases b, 2
  {
    if b != [] {
      CoversFrom([], b, next, nodes, g, s);
    }
  }

  lemma {:induction false} CoversFrom(ordinary: seq<Stmt>, b: seq<Stmt>, next: nat, nodes: Nodes, g: Nodes, s: set<nat>)
    requires ReducibleAll(b) && Closed(g, s) && next < |g|
             && In(g, CompileFrom(ordinary, b, next, nodes).nodes, |nodes|)
    requires CompileFrom(ordinary, b, next, nodes).entry in s
    ensures next in s && forall i :: |nodes| <= i < |CompileFrom(ordinary, b, next, nodes).nodes| ==> i in s
    decreases b, 1
  {
    hide Compile, CompileSplit;
    if b == [] {
      assert g[|nodes|] == BasicBlock(ordinary, next);
      assert next in Targets(g[|nodes|]);
    } else if !Splits(b[0]) {
      CoversFrom(ordinary + [b[0]], b[1..], next, nodes, g, s);
    } else {
      var after := Compile(b[1..], next, nodes);
      EntryIsNode(b[1..], next, nodes, g);
      CoversSplit(ordinary, b[0], after.entry, after.nodes, g, s);
      CoversBlock(b[1..], next, nodes, g, s);
    }
  }

  lemma {:induction false} EntryIsNode(b: seq<Stmt>, next: nat, nodes: Nodes, g: Nodes)
    requires next < |g| && In(g, Compile(b, next, nodes).nodes, |nodes|)
    ensures Compile(b, next, nodes).entry < |g|
    decreases b, 2
  {
    if b != [] {
      EntryFromIsNode([], b, next, nodes, g);
    }
  }

  lemma {:induction false} EntryFromIsNode(ordinary: seq<Stmt>, b: seq<Stmt>, next: nat, nodes: Nodes, g: Nodes)
    requires In(g, CompileFrom(ordinary, b, next, nodes).nodes, |nodes|) && b + ordinary != []
    ensures CompileFrom(ordinary, b, next, nodes).entry < |g|
    decreases b, 1
  {
    hide Compile, CompileSplit;
    if b != [] {
      if !Splits(b[0]) {
        EntryFromIsNode(ordinary + [b[0]], b[1..], next, nodes, g);
      } else {
        var after := Compile(b[1..], next, nodes);
        EntryRunsOrdinary(ordinary, b[0], after.entry, after.nodes);
      }
    }
  }

  lemma {:induction false} CoversSplit(ordinary: seq<Stmt>, st: Stmt, after: nat, nodes: Nodes, g: Nodes, s: set<nat>)
    requires Splits(st) && Reducible(st) && Closed(g, s) && after < |g|
    requires In(g, CompileSplit(ordinary, st, after, nodes).nodes, |nodes|)
    requires CompileSplit(ordinary, st, after, nodes).entry in s
    ensures after in s && forall i :: |nodes| <= i < |CompileSplit(ordinary, st, after, nodes).nodes| ==> i in s
    decreases st, 3
  {
    hide CompileSplit;
    if st.If? {
      CoversIf(ordinary, st, after, nodes, g, s);
    } else if st.Match? {
      CoversMatch(ordinary, st, after, nodes, g, s);
    } else if st.While? {
      CoversWhile(ordinary, st, after, nodes, g, s);
    } else if st.Foreach? {
      CoversForeach(ordinary, st, after, nodes, g, s);
    } else {
      CoversAwait(ordinary, st, after, nodes, g, s);
    }
  }

  lemma CoversAwait(ordinary: seq<Stmt>, st: Stmt, after: nat, nodes: Nodes, g: Nodes, s: set<nat>)
    requires Splits(st) && Closed(g, s) && after < |g| && SimpleExpr(st).Some?
    requires In(g, CompileSplit(ordinary, st, after, nodes).nodes, |nodes|)
    requires CompileSplit(ordinary, st, after, nodes).entry in s
    ensures after in s && forall i :: |nodes| <= i < |CompileSplit(ordinary, st, after, nodes).nodes| ==> i in s
  {
    var n := |nodes|;
    assert n in Targets(g[n + 1]) && after in Targets(g[n]);
  }

  lemma BranchIsPlaced(g: Nodes, ordinary: seq<Stmt>, st: Stmt, after: nat, nodes: Nodes)
    requires Splits(st) && st.If? && In(g, CompileSplit(ordinary, st, after, nodes).nodes, |nodes|)
    ensures var n := |nodes|;
            var joined := nodes + [Join(false, after)];
            var thn := Compile(st.thn, n, joined);
            var els := Compile(st.els, n, thn.nodes);
            var built := CompileSplit(ordinary, st, after, nodes);
            && built.entry == |els.nodes| && |built.nodes| == |els.nodes| + 1 && |g| > |els.nodes|
            && g[n] == Join(false, after) && g[built.entry] == Branch(ordinary, st.c, thn.entry, els.entry)
            && In(g, thn.nodes, n + 1) && In(g, els.nodes, |thn.nodes|)
  {
    hide Compile, Splits;
    var n := |nodes|;
    var joined := nodes + [Join(false, after)];
    var thn := Compile(st.thn, n, joined);
    var els := Compile(st.els, n, thn.nodes);
    var built := CompileSplit(ordinary, st, after, nodes);
    assert joined[n] == built.nodes[n];
    forall i | n + 1 <= i < |thn.nodes| ensures g[i] == thn.nodes[i] {
      assert built.nodes[i] == thn.nodes[i];
    }
  }

  lemma {:induction false} CoversIf(ordinary: seq<Stmt>, st: Stmt, after: nat, nodes: Nodes, g: Nodes, s: set<nat>)
    requires Splits(st) && Reducible(st) && Closed(g, s) && after < |g| && st.If?
    requires In(g, CompileSplit(ordinary, st, after, nodes).nodes, |nodes|)
    requires CompileSplit(ordinary, st, after, nodes).entry in s
    ensures after in s && forall i :: |nodes| <= i < |CompileSplit(ordinary, st, after, nodes).nodes| ==> i in s
    decreases st, 2
  {
    hide Compile, In;
    var n := |nodes|;
    var joined := nodes + [Join(false, after)];
    var thn := Compile(st.thn, n, joined);
    var els := Compile(st.els, n, thn.nodes);
    var built := CompileSplit(ordinary, st, after, nodes);
    BranchIsPlaced(g, ordinary, st, after, nodes);
    hide CompileSplit;
    EntryIsNode(st.thn, n, joined, g);
    EntryIsNode(st.els, n, thn.nodes, g);
    assert thn.entry in Targets(g[built.entry]) && els.entry in Targets(g[built.entry]);
    CoversBlock(st.thn, n, joined, g, s);
    CoversBlock(st.els, n, thn.nodes, g, s);
    assert after in Targets(g[n]);
  }

  lemma {:induction false} CoversWhile(ordinary: seq<Stmt>, st: Stmt, after: nat, nodes: Nodes, g: Nodes, s: set<nat>)
    requires Splits(st) && Reducible(st) && Closed(g, s) && after < |g| && st.While?
    requires In(g, CompileSplit(ordinary, st, after, nodes).nodes, |nodes|)
    requires CompileSplit(ordinary, st, after, nodes).entry in s
    ensures after in s && forall i :: |nodes| <= i < |CompileSplit(ordinary, st, after, nodes).nodes| ==> i in s
    decreases st, 2
  {
    hide Compile, CompileSplit, CompileElse, Closed, In, Splits;
    var n := |nodes|;
    LoopIsPlaced(g, ordinary, st, after, nodes);
    var started := WhileStart(ordinary, st, after, nodes);
    var exhausted := CompileElse(st, after, started);
    var inside := Compile(st.body, n + 2, exhausted.nodes);
    EntryIsNode(st.body, n + 2, exhausted.nodes, g);
    Flows(g, s, n, n + 1);
    Flows(g, s, n + 1, inside.entry);
    Flows(g, s, n + 1, after);
    CoversBlock(st.body, n + 2, exhausted.nodes, g, s);
    CoversElse(ordinary, st, after, nodes, g, s);
    forall i | n <= i < |CompileSplit(ordinary, st, after, nodes).nodes| ensures i in s {
      if n + 3 <= i < |exhausted.nodes| {
        assert i in s;
      } else if i >= |exhausted.nodes| {
        assert i in s;
      }
    }
  }

  lemma {:induction false} CoversElse(ordinary: seq<Stmt>, st: Stmt, after: nat, nodes: Nodes, g: Nodes, s: set<nat>)
    requires Reducible(st) && Closed(g, s) && after < |g| && st.While? && LoopNodes(g, ordinary, st, after, nodes)
    requires |nodes| + 1 in s
    ensures forall i :: |nodes| + 3 <= i < |CompileElse(st, after, WhileStart(ordinary, st, after, nodes)).nodes| ==>
                          i in s
    decreases st, 1
  {
    hide Compile, Closed, In;
    if st.hasElse {
      var started := WhileStart(ordinary, st, after, nodes);
      var exhausted := CompileElse(st, after, started);
      EntryIsNode(st.els, after, started, g);
      Flows(g, s, |nodes| + 1, exhausted.entry);
      CoversBlock(st.els, after, started, g, s);
    }
  }

  lemma {:induction false} CoversForeach(ordinary: seq<Stmt>, st: Stmt, after: nat, nodes: Nodes, g: Nodes, s: set<nat>)
    requires Splits(st) && Reducible(st) && Closed(g, s) && after < |g| && st.Foreach?
    requires In(g, CompileSplit(ordinary, st, after, nodes).nodes, |nodes|)
    requires CompileSplit(ordinary, st, after, nodes).entry in s
    ensures after in s && forall i :: |nodes| <= i < |CompileSplit(ordinary, st, after, nodes).nodes| ==> i in s
    decreases st, 2
  {
    hide Compile, CompileSplit, Closed, In, Splits;
    var n := |nodes|;
    EachIsPlaced(g, ordinary, st, after, nodes);
    var started := ForeachStart(ordinary, st, after, nodes);
    var inside := Compile(st.body, n + 2, started);
    EntryIsNode(st.body, n + 2, started, g);
    Flows(g, s, n, n + 1);
    Flows(g, s, n + 1, inside.entry);
    Flows(g, s, n + 1, after);
    CoversBlock(st.body, n + 2, started, g, s);
    forall i | n <= i < |CompileSplit(ordinary, st, after, nodes).nodes| ensures i in s {
      if i >= |started| {
        assert i in s;
      }
    }
  }

  /** The dispatch of a compiled match, as the finished graph holds it. */
  ghost predicate MatchNodes(g: Nodes, ordinary: seq<Stmt>, st: Stmt, after: nat, nodes: Nodes)
    requires st.Match?
  {
    var n := |nodes|;
    var started := nodes + [Join(true, after), MatchDispatch(ordinary, st.subject, [])];
    var (cases, inside) := CompileArms(st.arms, n, started);
    && In(g, inside, n + 2)
    && |g| > n + 1
    && g[n] == Join(true, after)
    && g[n + 1] == MatchDispatch(ordinary, st.subject, cases)
  }

  lemma MatchIsPlaced(g: Nodes, ordinary: seq<Stmt>, st: Stmt, after: nat, nodes: Nodes)
    requires st.Match? && Splits(st) && In(g, CompileSplit(ordinary, st, after, nodes).nodes, |nodes|)
    ensures MatchNodes(g, ordinary, st, after, nodes)
    ensures CompileSplit(ordinary, st, after, nodes).entry == |nodes| + 1
    ensures |CompileSplit(ordinary, st, after, nodes).nodes| ==
            |CompileArms(st.arms, |nodes|, nodes + [Join(true, after), MatchDispatch(ordinary, st.subject, [])]).1|
  {
    hide CompileArms, Splits;
    var n := |nodes|;
    var started := nodes + [Join(true, after), MatchDispatch(ordinary, st.subject, [])];
    var (cases, inside) := CompileArms(st.arms, n, started);
    var built := CompileSplit(ordinary, st, after, nodes).nodes;
    assert built == inside[n + 1 := MatchDispatch(ordinary, st.subject, cases)];
    assert g[n] == Join(true, after) by { assert started[n] == inside[n] == built[n]; }
    assert g[n + 1] == built[n + 1];
    forall i | n + 2 <= i < |inside| ensures g[i] == inside[i] {
      assert g[i] == built[i];
    }
  }

  lemma {:induction false} CoversMatch(ordinary: seq<Stmt>, st: Stmt, after: nat, nodes: Nodes, g: Nodes, s: set<nat>)
    requires Splits(st) && Reducible(st) && Closed(g, s) && after < |g| && st.Match?
    requires In(g, CompileSplit(ordinary, st, after, nodes).nodes, |nodes|)
    requires CompileSplit(ordinary, st, after, nodes).entry in s
    ensures after in s && forall i :: |nodes| <= i < |CompileSplit(ordinary, st, after, nodes).nodes| ==> i in s
    decreases st, 2
  {
    hide CompileSplit, CompileArms, Closed, In, Splits;
    var n := |nodes|;
    MatchIsPlaced(g, ordinary, st, after, nodes);
    var started := nodes + [Join(true, after), MatchDispatch(ordinary, st.subject, [])];
    var (cases, inside) := CompileArms(st.arms, n, started);
    forall i | 0 <= i < |cases| && cases[i].target < |g| ensures cases[i].target in s {
      assert Targets(g[n + 1])[i] == cases[i].target;
      Flows(g, s, n + 1, cases[i].target);
    }
    CoversArms(st.arms, n, started, g, s);
    Flows(g, s, n, after);
    forall i | n <= i < |CompileSplit(ordinary, st, after, nodes).nodes| ensures i in s {
      if i >= |started| {
        assert i in s;
      }
    }
  }

  lemma {:induction false} CoversArms(arms: seq<Arm>, join: nat, nodes: Nodes, g: Nodes, s: set<nat>)
    requires ReducibleArms(arms) && Closed(g, s) && join < |g| && In(g, CompileArms(arms, join, nodes).1, |nodes|)
    requires forall i :: 0 <= i < |CompileArms(arms, join, nodes).0|
                         && CompileArms(arms, join, nodes).0[i].target < |g| ==>
                           CompileArms(arms, join, nodes).0[i].target in s
    ensures arms != [] ==> join in s
    ensures forall i :: |nodes| <= i < |CompileArms(arms, join, nodes).1| ==> i in s
    ensures |CompileArms(arms, join, nodes).0| == |arms|
    decreases arms, 0
  {
    hide Compile;
    if arms != [] {
      var first := Compile(arms[0].body, join, nodes);
      var (rest, built) := CompileArms(arms[1..], join, first.nodes);
      var cases := CompileArms(arms, join, nodes).0;
      assert cases[0].target == first.entry && cases[1..] == rest;
      EntryIsNode(arms[0].body, join, nodes, g);
      CoversBlock(arms[0].body, join, nodes, g, s);
      forall i | 0 <= i < |rest| && rest[i].target < |g| ensures rest[i].target in s {
        assert cases[i + 1] == rest[i];
      }
      CoversArms(arms[1..], join, first.nodes, g, s);
    }
  }

  /** `finalize` numbers every node the builder created. */
  lemma AllNodesAreNumbered(body: seq<Stmt>)
    requires ReducibleAll(body)
    ensures var b := Normalize(body); forall i: nat :: i < |b.nodes| ==> i in Order(b)
  {
    hide Compile, Order;
    var b := Normalize(body);
    NormalizedTargets(body);
    OrderIsReachable(b);
    var s := set i | i in Order(b);
    assert [Complete] <= b.nodes;
    assert Closed(b.nodes, s);
    CoversBlock(body, 0, [Complete], b.nodes, s);
    forall i: nat | i < |b.nodes| ensures i in Order(b) {
      if i > 0 {
        assert i in s;
      }
    }
  }
}
