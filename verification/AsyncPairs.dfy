/** Every await of a reducible body is compiled to one suspension and one continuation. */
module AsyncPairs {
  import opened Wrappers
  import opened AsyncSyntax
  import opened AsyncGraph
  import opened AsyncNative
  import opened AsyncNormalize

  /** The two halves of a compiled await. */
  datatype Half = Suspending | Resuming

  predicate Marks(n: Node, half: Half, id: nat) {
    match half
    case Suspending => n.AwaitSuspend? && n.await.Await? && n.await.id == id
    case Resuming => n.AfterAwait? && n.index == id
  }

  function CountHalf(nodes: Nodes, half: Half, id: nat): nat {
    if nodes == [] then 0
    else CountHalf(nodes[..|nodes| - 1], half, id) + (if Marks(nodes[|nodes| - 1], half, id) then 1 else 0)
  }

  lemma CountPush(nodes: Nodes, n: Node, half: Half, id: nat)
    ensures CountHalf(nodes + [n], half, id) == CountHalf(nodes, half, id) + (if Marks(n, half, id) then 1 else 0)
  {
    assert (nodes + [n])[..|nodes|] == nodes;
  }

  lemma {:induction false} CountUpdate(nodes: Nodes, i: nat, n: Node, half: Half, id: nat)
    requires i < |nodes| && Marks(nodes[i], half, id) == Marks(n, half, id)
    ensures CountHalf(nodes[i := n], half, id) == CountHalf(nodes, half, id)
  {
    var last := |nodes| - 1;
    if i == last {
      assert nodes[i := n][..last] == nodes[..last];
    } else {
      assert nodes[i := n][..last] == nodes[..last][i := n];
      CountUpdate(nodes[..last], i, n, half, id);
    }
  }

  lemma {:induction false} CountPositive(nodes: Nodes, i: nat, half: Half, id: nat)
    requires i < |nodes| && Marks(nodes[i], half, id)
    ensures CountHalf(nodes, half, id) > 0
  {
    if i < |nodes| - 1 {
      CountPositive(nodes[..|nodes| - 1], i, half, id);
    }
  }

  ghost predicate OnlyAt(nodes: Nodes, i: nat, half: Half, id: nat) {
    && i < |nodes| && Marks(nodes[i], half, id)
    && forall j :: 0 <= j < |nodes| && Marks(nodes[j], half, id) ==> j == i
  }

  lemma {:induction false} NoneCounted(nodes: Nodes, half: Half, id: nat)
    requires forall j :: 0 <= j < |nodes| ==> !Marks(nodes[j], half, id)
    ensures CountHalf(nodes, half, id) == 0
  {
    if nodes != [] {
      NoneCounted(nodes[..|nodes| - 1], half, id);
    }
  }

  /** A count of one means exactly one place. */
  lemma {:induction false} CountedOnce(nodes: Nodes, half: Half, id: nat) returns (i: nat)
    requires CountHalf(nodes, half, id) == 1
    ensures OnlyAt(nodes, i, half, id)
  {
    var last := |nodes| - 1;
    if Marks(nodes[last], half, id) {
      i := last;
      forall j | 0 <= j < last ensures !Marks(nodes[j], half, id) {
        if Marks(nodes[j], half, id) {
          CountPositive(nodes[..last], j, half, id);
        }
      }
    } else {
      i := CountedOnce(nodes[..last], half, id);
      assert forall j :: 0 <= j < last ==> nodes[..last][j] == nodes[j];
    }
  }

  lemma {:induction false} OnlyIsOne(nodes: Nodes, i: nat, half: Half, id: nat)
    requires OnlyAt(nodes, i, half, id)
    ensures CountHalf(nodes, half, id) == 1
  {
    var last := |nodes| - 1;
    if i == last {
      NoneCounted(nodes[..last], half, id);
    } else {
      OnlyIsOne(nodes[..last], i, half, id);
    }
  }

  /** The multiplicity of an await position in a list of positions. */
  function Times(ids: seq<nat>, id: nat): nat {
    multiset(ids)[id]
  }

  lemma TimesAdd(a: seq<nat>, b: seq<nat>, id: nat)
    ensures Times(a + b, id) == Times(a, id) + Times(b, id)
  {
  }

  // ---------------------------------------------------------------------------------------------
  // The builder adds both halves of each await once

  lemma {:induction false} CountBlock(b: seq<Stmt>, next: nat, nodes: Nodes, half: Half, id: nat)
    requires ReducibleAll(b)
    ensures CountHalf(Compile(b, next, nodes).nodes, half, id) == CountHalf(nodes, half, id) + Times(AwaitsAll(b), id)
    decreases b, 2
  {
    if b != [] {
      CountFrom([], b, next, nodes, half, id);
    }
  }

  lemma {:induction false} CountFrom(ordinary: seq<Stmt>, b: seq<Stmt>, next: nat, nodes: Nodes, half: Half, id: nat)
    requires ReducibleAll(b)
    ensures CountHalf(CompileFrom(ordinary, b, next, nodes).nodes, half, id) ==
            CountHalf(nodes, half, id) + Times(AwaitsAll(b), id)
    decreases b, 1
  {
    hide Compile, CompileSplit, CountHalf, Marks;
    if b == [] {
      CountPush(nodes, BasicBlock(ordinary, next), half, id);
      assert !Marks(BasicBlock(ordinary, next), half, id) by { PlainUnmarked(BasicBlock(ordinary, next), half, id); }
    } else if !Splits(b[0]) {
      UnsplitHasNone(b[0]);
      CountFrom(ordinary + [b[0]], b[1..], next, nodes, half, id);
      assert AwaitsAll(b) == AwaitsAll(b[1..]);
    } else {
      var after := Compile(b[1..], next, nodes);
      CountBlock(b[1..], next, nodes, half, id);
      CountSplit(ordinary, b[0], after.entry, after.nodes, half, id);
      TimesAdd(Awaits(b[0]), AwaitsAll(b[1..]), id);
    }
  }

  lemma PlainUnmarked(n: Node, half: Half, id: nat)
    requires !n.AwaitSuspend? && !n.AfterAwait?
    ensures !Marks(n, half, id)
  {
  }

  lemma {:induction false} CountSplit(ordinary: seq<Stmt>, st: Stmt, after: nat, nodes: Nodes, half: Half, id: nat)
    requires Splits(st) && Reducible(st)
    ensures CountHalf(CompileSplit(ordinary, st, after, nodes).nodes, half, id) ==
            CountHalf(nodes, half, id) + Times(Awaits(st), id)
    decreases st, 3
  {
    hide CompileSplit, CountHalf, Times;
    if st.If? {
      CountIf(ordinary, st, after, nodes, half, id);
    } else if st.Match? {
      CountMatch(ordinary, st, after, nodes, half, id);
    } else if st.While? {
      CountWhile(ordinary, st, after, nodes, half, id);
    } else if st.Foreach? {
      CountForeach(ordinary, st, after, nodes, half, id);
    } else {
      CountAwait(ordinary, st, after, nodes, half, id);
    }
  }

  lemma CountAwait(ordinary: seq<Stmt>, st: Stmt, after: nat, nodes: Nodes, half: Half, id: nat)
    requires Splits(st) && Reducible(st) && SimpleExpr(st).Some?
    ensures CountHalf(CompileSplit(ordinary, st, after, nodes).nodes, half, id) ==
            CountHalf(nodes, half, id) + Times(Awaits(st), id)
  {
    hide CountHalf, Splits, Reducible;
    SplitAwaitsOnce(st);
    var resume := AfterAwait(AwaitId(st), ResumeStmt(st), after);
    var suspend := AwaitSuspend(ordinary, StmtAwait(st).value, |nodes|);
    CountPush(nodes, resume, half, id);
    CountPush(nodes + [resume], suspend, half, id);
    assert CompileSplit(ordinary, st, after, nodes).nodes == (nodes + [resume]) + [suspend];
  }

  lemma {:induction false} CountIf(ordinary: seq<Stmt>, st: Stmt, after: nat, nodes: Nodes, half: Half, id: nat)
    requires Splits(st) && Reducible(st) && st.If?
    ensures CountHalf(CompileSplit(ordinary, st, after, nodes).nodes, half, id) ==
            CountHalf(nodes, half, id) + Times(Awaits(st), id)
    decreases st, 2
  {
    hide Compile, CountHalf, Splits;
    var n := |nodes|;
    var joined := nodes + [Join(false, after)];
    var thn := Compile(st.thn, n, joined);
    var els := Compile(st.els, n, thn.nodes);
    CountPush(nodes, Join(false, after), half, id);
    CountBlock(st.thn, n, joined, half, id);
    CountBlock(st.els, n, thn.nodes, half, id);
    CountPush(els.nodes, Branch(ordinary, st.c, thn.entry, els.entry), half, id);
    TimesAdd(AwaitsAll(st.thn), AwaitsAll(st.els), id);
  }

  lemma {:induction false} CountMatch(ordinary: seq<Stmt>, st: Stmt, after: nat, nodes: Nodes, half: Half, id: nat)
    requires Splits(st) && Reducible(st) && st.Match?
    ensures CountHalf(CompileSplit(ordinary, st, after, nodes).nodes, half, id) ==
            CountHalf(nodes, half, id) + Times(Awaits(st), id)
    decreases st, 2
  {
    hide CompileArms, CountHalf, Splits;
    var n := |nodes|;
    var joined := nodes + [Join(true, after)];
    var started := nodes + [Join(true, after), MatchDispatch(ordinary, st.subject, [])];
    var (cases, inside) := CompileArms(st.arms, n, started);
    CountPush(nodes, Join(true, after), half, id);
    CountPush(joined, MatchDispatch(ordinary, st.subject, []), half, id);
    assert started == joined + [MatchDispatch(ordinary, st.subject, [])];
    CountArms(st.arms, n, started, half, id);
    assert inside[n + 1] == started[n + 1];
    CountUpdate(inside, n + 1, MatchDispatch(ordinary, st.subject, cases), half, id);
  }

  lemma {:induction false} CountArms(arms: seq<Arm>, join: nat, nodes: Nodes, half: Half, id: nat)
    requires ReducibleArms(arms)
    ensures CountHalf(CompileArms(arms, join, nodes).1, half, id) ==
            CountHalf(nodes, half, id) + Times(AwaitsArms(arms), id)
    decreases arms, 0
  {
    hide Compile, CountHalf;
    if arms != [] {
      var first := Compile(arms[0].body, join, nodes);
      CountBlock(arms[0].body, join, nodes, half, id);
      CountArms(arms[1..], join, first.nodes, half, id);
      TimesAdd(AwaitsAll(arms[0].body), AwaitsArms(arms[1..]), id);
    }
  }

  lemma CountThree(nodes: Nodes, a: Node, b: Node, c: Node, half: Half, id: nat)
    requires !Marks(a, half, id) && !Marks(b, half, id) && !Marks(c, half, id)
    ensures CountHalf(nodes + [a, b, c], half, id) == CountHalf(nodes, half, id)
  {
    CountPush(nodes, a, half, id);
    CountPush(nodes + [a], b, half, id);
    CountPush(nodes + [a] + [b], c, half, id);
    assert nodes + [a, b, c] == nodes + [a] + [b] + [c];
  }

  lemma {:induction false} CountWhile(ordinary: seq<Stmt>, st: Stmt, after: nat, nodes: Nodes, half: Half, id: nat)
    requires Splits(st) && Reducible(st) && st.While?
    ensures CountHalf(CompileSplit(ordinary, st, after, nodes).nodes, half, id) ==
            CountHalf(nodes, half, id) + Times(Awaits(st), id)
    decreases st, 2
  {
    hide Compile, CountHalf, Splits;
    var n := |nodes|;
    var started := WhileStart(ordinary, st, after, nodes);
    CountThree(nodes, LoopInit(ordinary, n + 1), LoopHeader(st.c, None, 0, after, None), LoopBackedge(n + 1), half, id);
    var exhausted := CompileElse(st, after, started);
    if st.hasElse {
      CountBlock(st.els, after, started, half, id);
    }
    var inside := Compile(st.body, n + 2, exhausted.nodes);
    CountBlock(st.body, n + 2, exhausted.nodes, half, id);
    var header := WhileHeader(st, inside.entry, after, exhausted.entry);
    assert inside.nodes[n + 1] == exhausted.nodes[n + 1] == started[n + 1];
    CountUpdate(inside.nodes, n + 1, header, half, id);
    TimesAdd(AwaitsAll(st.body), if st.hasElse then AwaitsAll(st.els) else [], id);
  }

  lemma {:induction false} CountForeach(ordinary: seq<Stmt>, st: Stmt, after: nat, nodes: Nodes, half: Half, id: nat)
    requires Splits(st) && Reducible(st) && st.Foreach?
    ensures CountHalf(CompileSplit(ordinary, st, after, nodes).nodes, half, id) ==
            CountHalf(nodes, half, id) + Times(Awaits(st), id)
    decreases st, 2
  {
    hide Compile, CountHalf, Splits;
    var n := |nodes|;
    var started := ForeachStart(ordinary, st, after, nodes);
    CountThree(nodes, ForeachInit(ordinary, st.src, n + 1), ForeachHeader(st.item, st.src, 0, after),
               ForeachContinue(n + 1), half, id);
    var inside := Compile(st.body, n + 2, started);
    CountBlock(st.body, n + 2, started, half, id);
    assert inside.nodes[n + 1] == started[n + 1];
    CountUpdate(inside.nodes, n + 1, ForeachHeader(st.item, st.src, inside.entry, after), half, id);
  }

  // ---------------------------------------------------------------------------------------------
  // A suspension is followed by its own continuation

  ghost predicate NodeFits(g: Nodes, lo: nat, i: nat)
    requires i < |g|
  {
    && (g[i].AwaitSuspend? ==>
          && g[i].await.Await? && lo < i && g[i].next == i - 1
          && g[i - 1].AfterAwait? && g[i - 1].index == g[i].await.id)
    && (g[i].MatchDispatch? ==> g[i].cases != [])
  }

  ghost predicate Fits(g: Nodes, lo: nat) {
    forall i :: lo <= i < |g| ==> NodeFits(g, lo, i)
  }

  lemma FitsTogether(g: Nodes, mid: nat, lo: nat)
    requires lo <= mid <= |g| && Fits(g[..mid], lo) && Fits(g, mid)
    ensures Fits(g, lo)
  {
    forall i | lo <= i < |g| ensures NodeFits(g, lo, i) {
      if i < mid {
        assert NodeFits(g[..mid], lo, i);
      } else {
        assert NodeFits(g, mid, i);
      }
    }
  }

  lemma FitsPush(g: Nodes, lo: nat, n: Node)
    requires lo <= |g| && Fits(g, lo) && !n.AwaitSuspend? && !n.MatchDispatch?
    ensures Fits(g + [n], lo)
  {
    var longer := g + [n];
    forall i | lo <= i < |g| ensures NodeFits(longer, lo, i) {
      assert NodeFits(g, lo, i);
    }
  }

  lemma {:induction false} FitsBlock(b: seq<Stmt>, next: nat, nodes: Nodes)
    requires ReducibleAll(b)
    ensures Fits(Compile(b, next, nodes).nodes, |nodes|)
    decreases b, 2
  {
    if b != [] {
      FitsFrom([], b, next, nodes);
    }
  }

  lemma {:induction false} FitsFrom(ordinary: seq<Stmt>, b: seq<Stmt>, next: nat, nodes: Nodes)
    requires ReducibleAll(b)
    ensures Fits(CompileFrom(ordinary, b, next, nodes).nodes, |nodes|)
    decreases b, 1
  {
    hide Compile, CompileSplit;
    if b == [] {
    } else if !Splits(b[0]) {
      FitsFrom(ordinary + [b[0]], b[1..], next, nodes);
    } else {
      hide Fits;
      var after := Compile(b[1..], next, nodes);
      var built := CompileSplit(ordinary, b[0], after.entry, after.nodes);
      FitsBlock(b[1..], next, nodes);
      FitsSplit(ordinary, b[0], after.entry, after.nodes);
      assert built.nodes[..|after.nodes|] == after.nodes;
      FitsTogether(built.nodes, |after.nodes|, |nodes|);
    }
  }

  lemma {:induction false} FitsSplit(ordinary: seq<Stmt>, st: Stmt, after: nat, nodes: Nodes)
    requires Splits(st) && Reducible(st)
    ensures Fits(CompileSplit(ordinary, st, after, nodes).nodes, |nodes|)
    decreases st, 3
  {
    hide Compile, CompileArms;
    if st.If? {
      hide Fits;
      FitsIf(ordinary, st, after, nodes);
    } else if st.Match? {
      hide Fits;
      FitsMatch(ordinary, st, after, nodes);
    } else if st.While? {
      hide Fits;
      FitsWhile(ordinary, st, after, nodes);
    } else if st.Foreach? {
      hide Fits;
      FitsForeach(ordinary, st, after, nodes);
    } else {
      SplitAwaitsOnce(st);
    }
  }

  lemma {:induction false} FitsIf(ordinary: seq<Stmt>, st: Stmt, after: nat, nodes: Nodes)
    requires Splits(st) && Reducible(st) && st.If?
    ensures Fits(CompileSplit(ordinary, st, after, nodes).nodes, |nodes|)
    decreases st, 2
  {
    hide Compile, Fits, Splits;
    var n := |nodes|;
    var joined := nodes + [Join(false, after)];
    var thn := Compile(st.thn, n, joined);
    var els := Compile(st.els, n, thn.nodes);
    FitsNone(nodes);
    FitsPush(nodes, n, Join(false, after));
    FitsBlock(st.thn, n, joined);
    assert thn.nodes[..n + 1] == joined;
    FitsTogether(thn.nodes, n + 1, n);
    FitsBlock(st.els, n, thn.nodes);
    assert els.nodes[..|thn.nodes|] == thn.nodes;
    FitsTogether(els.nodes, |thn.nodes|, n);
    FitsPush(els.nodes, n, Branch(ordinary, st.c, thn.entry, els.entry));
  }

  lemma FitsNone(nodes: Nodes)
    ensures Fits(nodes, |nodes|)
  {
  }

  /** Replacing a node that is no half of an await. */
  lemma FitsUpdate(g: Nodes, lo: nat, at: nat, n: Node)
    requires lo <= at < |g| && !g[at].AwaitSuspend? && !g[at].AfterAwait? && !n.AwaitSuspend?
    requires n.MatchDispatch? ==> n.cases != []
    requires forall i :: lo <= i < |g| && i != at ==> NodeFits(g, lo, i)
    ensures Fits(g[at := n], lo)
  {
    var updated := g[at := n];
    forall i | lo <= i < |g| ensures NodeFits(updated, lo, i) {
      if i != at {
        assert NodeFits(g, lo, i);
      }
    }
  }

  lemma {:induction false} FitsMatch(ordinary: seq<Stmt>, st: Stmt, after: nat, nodes: Nodes)
    requires Splits(st) && Reducible(st) && st.Match?
    ensures Fits(CompileSplit(ordinary, st, after, nodes).nodes, |nodes|)
    decreases st, 2
  {
    hide CompileArms, Splits;
    var n := |nodes|;
    var started := nodes + [Join(true, after), MatchDispatch(ordinary, st.subject, [])];
    var (cases, inside) := CompileArms(st.arms, n, started);
    FitsArms(st.arms, n, started);
    assert inside[n] == started[n] && inside[n + 1] == started[n + 1];
    forall i | n <= i < |inside| && i != n + 1 ensures NodeFits(inside, n, i) {
      if i > n + 1 {
        assert NodeFits(inside, n + 2, i);
      }
    }
    FitsUpdate(inside, n, n + 1, MatchDispatch(ordinary, st.subject, cases));
  }

  lemma {:induction false} FitsArms(arms: seq<Arm>, join: nat, nodes: Nodes)
    requires ReducibleArms(arms)
    ensures Fits(CompileArms(arms, join, nodes).1, |nodes|)
    ensures |CompileArms(arms, join, nodes).0| == |arms|
    decreases arms, 0
  {
    hide Compile, Fits;
    if arms == [] {
      FitsNone(nodes);
    } else {
      var first := Compile(arms[0].body, join, nodes);
      var (rest, built) := CompileArms(arms[1..], join, first.nodes);
      FitsBlock(arms[0].body, join, nodes);
      FitsArms(arms[1..], join, first.nodes);
      assert built[..|first.nodes|] == first.nodes;
      FitsTogether(built, |first.nodes|, |nodes|);
    }
  }

  lemma {:induction false} FitsWhile(ordinary: seq<Stmt>, st: Stmt, after: nat, nodes: Nodes)
    requires Splits(st) && Reducible(st) && st.While?
    ensures Fits(CompileSplit(ordinary, st, after, nodes).nodes, |nodes|)
    decreases st, 2
  {
    hide Compile, Splits;
    var n := |nodes|;
    var started := WhileStart(ordinary, st, after, nodes);
    var exhausted := CompileElse(st, after, started);
    var inside := Compile(st.body, n + 2, exhausted.nodes);
    assert Fits(exhausted.nodes, n + 3) by {
      if st.hasElse {
        FitsBlock(st.els, after, started);
      }
    }
    FitsBlock(st.body, n + 2, exhausted.nodes);
    assert inside.nodes[..|exhausted.nodes|] == exhausted.nodes;
    FitsTogether(inside.nodes, |exhausted.nodes|, n + 3);
    FitsLoop(inside.nodes, n, started);
    FitsUpdate(inside.nodes, n, n + 1, WhileHeader(st, inside.entry, after, exhausted.entry));
  }

  /** The three nodes that open a loop fit with what follows them. */
  lemma FitsLoop(g: Nodes, n: nat, started: Nodes)
    requires started <= g && |started| == n + 3 && Fits(g, n + 3)
    requires forall i :: n <= i < n + 3 ==>
                           !started[i].AwaitSuspend? && !started[i].AfterAwait? && !started[i].MatchDispatch?
    ensures Fits(g, n) && !g[n + 1].AwaitSuspend? && !g[n + 1].AfterAwait?
  {
    forall i | n <= i < |g| ensures NodeFits(g, n, i) {
      if i < n + 3 {
        assert g[i] == started[i];
      } else {
        assert NodeFits(g, n + 3, i);
      }
    }
    assert g[n + 1] == started[n + 1];
  }

  lemma {:induction false} FitsForeach(ordinary: seq<Stmt>, st: Stmt, after: nat, nodes: Nodes)
    requires Splits(st) && Reducible(st) && st.Foreach?
    ensures Fits(CompileSplit(ordinary, st, after, nodes).nodes, |nodes|)
    decreases st, 2
  {
    hide Compile, Splits;
    var n := |nodes|;
    var started := ForeachStart(ordinary, st, after, nodes);
    var inside := Compile(st.body, n + 2, started);
    FitsBlock(st.body, n + 2, started);
    FitsLoop(inside.nodes, n, started);
    FitsUpdate(inside.nodes, n, n + 1, ForeachHeader(st.item, st.src, inside.entry, after));
  }

  // ---------------------------------------------------------------------------------------------
  // Normalised bodies

  /** Each await of a numbered body has one suspension and one continuation, and there are no others. */
  lemma OnePairPerAwait(body: seq<Stmt>, half: Half, id: nat)
    requires ReducibleAll(body) && Numbered(body)
    ensures CountHalf(Normalize(body).nodes, half, id) == (if id < |AwaitsAll(body)| then 1 else 0)
  {
    CountBlock(body, 0, [Complete], half, id);
    CountPush([], Complete, half, id);
    assert [] + [Complete] == [Complete];
    NumberedOnce(AwaitsAll(body), id);
  }

  lemma {:induction false} NumberedOnce(ids: seq<nat>, id: nat)
    requires forall i :: 0 <= i < |ids| ==> ids[i] == i
    ensures Times(ids, id) == (if id < |ids| then 1 else 0)
  {
    if ids != [] {
      var last := |ids| - 1;
      NumberedOnce(ids[..last], id);
      assert ids == ids[..last] + [last];
      TimesAdd(ids[..last], [last], id);
    }
  }

  lemma NormalizedFits(body: seq<Stmt>)
    requires ReducibleAll(body)
    ensures Fits(Normalize(body).nodes, 0)
  {
    FitsBlock(body, 0, [Complete]);
    var g := Normalize(body).nodes;
    assert g[..1] == [Complete];
    FitsTogether(g, 1, 0);
  }
}
