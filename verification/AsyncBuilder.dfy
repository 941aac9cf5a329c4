/**
 The graph builder as the compiler runs it: nodes are appended to `created`, a loop header is filled
 in after the body it leads to, and `order` grows as `finalize` visits.
 */
module AsyncBuilder {
  import opened Wrappers
  import opened AsyncSyntax
  import opened AsyncGraph
  import opened AsyncEmit

  class GraphBuilder {
    var created: Nodes
    var order: seq<nat>

    constructor ()
      ensures created == [] && order == []
    {
      created, order := [], [];
    }

    /** `node`. */
    method Append(n: Node) returns (at: nat)
      modifies this`created
      ensures at == |old(created)| && created == old(created) + [n]
    {
      at := |created|;
      created := created + [n];
    }

    /** `compile`: gathers ordinary statements until one needs nodes of its own. */
    method CompileBlock(b: seq<Stmt>, next: nat) returns (entry: nat)
      modifies this`created
      ensures Built(entry, created) == Compile(b, next, old(created))
      decreases b, 2
    {
      if |b| == 0 {
        return next;
      }
      var ordinary: seq<Stmt> := [];
      for i := 0 to |b|
        invariant created == old(created)
        invariant Compile(b, next, old(created)) == CompileFrom(ordinary, b[i..], next, old(created))
      {
        assert b[i..][0] == b[i] && b[i..][1..] == b[i + 1..];
        if Splits(b[i]) {
          var after := CompileBlock(b[i + 1..], next);
          entry := CompileStatement(ordinary, b[i], after);
          return;
        }
        ordinary := ordinary + [b[i]];
      }
      entry := Append(BasicBlock(ordinary, next));
    }

    /** The nodes of one statement that is not run inside a single node. */
    method CompileStatement(ordinary: seq<Stmt>, st: Stmt, after: nat) returns (entry: nat)
      requires Splits(st)
      modifies this`created
      ensures Built(entry, created) == CompileSplit(ordinary, st, after, old(created))
      decreases st, 3
    {
      if st.If? {
        entry := CompileBranch(ordinary, st, after);
      } else if st.Match? {
        entry := CompileMatch(ordinary, st, after);
      } else if st.While? {
        entry := CompileLoop(ordinary, st, after);
      } else if st.Foreach? {
        entry := CompileForeach(ordinary, st, after);
      } else {
        var resume := Append(AfterAwait(AwaitId(st), ResumeStmt(st), after));
        assert StmtAwait(st).Some?;
        entry := Append(AwaitSuspend(ordinary, StmtAwait(st).value, resume));
        assert old(created) + [created[resume]] + [created[entry]] == created;
      }
    }

    method CompileBranch(ordinary: seq<Stmt>, st: Stmt, after: nat) returns (entry: nat)
      requires Splits(st) && st.If?
      modifies this`created
      ensures Built(entry, created) == CompileSplit(ordinary, st, after, old(created))
      decreases st, 2
    {
      var join := Append(Join(false, after));
      var thenEntry := CompileBlock(st.thn, join);
      var elseEntry := CompileBlock(st.els, join);
      entry := Append(Branch(ordinary, st.c, thenEntry, elseEntry));
    }

    method CompileMatch(ordinary: seq<Stmt>, st: Stmt, after: nat) returns (entry: nat)
      requires Splits(st) && st.Match?
      modifies this`created
      ensures Built(entry, created) == CompileSplit(ordinary, st, after, old(created))
      decreases st, 2
    {
      var join := Append(Join(true, after));
      entry := Append(MatchDispatch(ordinary, st.subject, []));
      ghost var started := created;
      assert started == old(created) + [Join(true, after), MatchDispatch(ordinary, st.subject, [])];
      var cases: seq<Case> := [];
      ghost var all := CompileArms(st.arms, join, started);
      assert st.arms[0..] == st.arms;
      for i := 0 to |st.arms|
        invariant started <= created
        invariant all.0 == cases + CompileArms(st.arms[i..], join, created).0
        invariant all.1 == CompileArms(st.arms[i..], join, created).1
      {
        var arm := st.arms[i];
        assert st.arms[i..][0] == arm && st.arms[i..][1..] == st.arms[i + 1..];
        ghost var before := created;
        var target := CompileBlock(arm.body, join);
        assert Built(target, created) == Compile(arm.body, join, before);
        cases := cases + [Case(arm.tag, arm.binds, target)];
      }
      assert st.arms[|st.arms|..] == [];
      assert all.0 == cases && all.1 == created;
      created := created[entry := MatchDispatch(ordinary, st.subject, cases)];
    }

    method CompileLoop(ordinary: seq<Stmt>, st: Stmt, after: nat) returns (entry: nat)
      requires Splits(st) && st.While?
      modifies this`created
      ensures Built(entry, created) == CompileSplit(ordinary, st, after, old(created))
      decreases st, 2
    {
      var n := |created|;
      entry := Append(LoopInit(ordinary, n + 1));
      var header := Append(LoopHeader(st.c, None, 0, after, None));
      var back := Append(LoopBackedge(header));
      assert created == WhileStart(ordinary, st, after, old(created));
      var exhausted := 0;
      if st.hasElse {
        exhausted := CompileBlock(st.els, after);
      }
      var body := CompileBlock(st.body, back);
      created := created[header := WhileHeader(st, body, after, exhausted)];
    }

    method CompileForeach(ordinary: seq<Stmt>, st: Stmt, after: nat) returns (entry: nat)
      requires Splits(st) && st.Foreach?
      modifies this`created
      ensures Built(entry, created) == CompileSplit(ordinary, st, after, old(created))
      decreases st, 2
    {
      var n := |created|;
      entry := Append(ForeachInit(ordinary, st.src, n + 1));
      var header := Append(ForeachHeader(st.item, st.src, 0, after));
      var back := Append(ForeachContinue(header));
      assert created == ForeachStart(ordinary, st, after, old(created));
      var body := CompileBlock(st.body, back);
      created := created[header := ForeachHeader(st.item, st.src, body, after)];
    }

    /** The `visit` closure of `finalize`. */
    method VisitNode(n: nat)
      modifies this`order
      ensures order == Visit(created, n, old(order))
      decreases Unvisited(created, order)
    {
      if n >= |created| || n in order {
        return;
      }
      assert n in Unvisited(created, order) && n !in Unvisited(created, order + [n]);
      order := order + [n];
      var targets := Targets(created[n]);
      for i := 0 to |targets|
        invariant old(order) + [n] <= order
        invariant VisitAll(created, targets, old(order) + [n]) == VisitAll(created, targets[i..], order)
      {
        assert targets[i..][0] == targets[i] && targets[i..][1..] == targets[i + 1..];
        ghost var before := order;
        assert Unvisited(created, order) <= Unvisited(created, old(order) + [n]);
        VisitNode(targets[i]);
        assert order == Visit(created, targets[i], before);
      }
    }

    /** `evt1NormalizeAsyncCFG`, up to the identities of the states. */
    method Build(body: seq<Stmt>) returns (entry: nat)
      requires created == [] && order == []
      modifies this
      ensures Built(entry, created) == Normalize(body)
      ensures order == Order(Normalize(body))
    {
      var complete := Append(Complete);
      assert [] + [Complete] == [Complete];
      entry := CompileBlock(body, complete);
      VisitNode(entry);
    }
  }
}
