/**
 The converse of the continuation law: where direct evaluation has no answer, because it panics or
 is still running, the machine does not get past the activation either.  With fuel `k` beyond the
 native loop bound, every unit of fuel left accounts for at least one dispatched state.
 */
module AsyncStuck {
  import opened Wrappers
  import opened AsyncSyntax
  import opened AsyncDirect
  import opened AsyncGraph
  import opened AsyncMachine
  import opened AsyncNative
  import opened AsyncRuns
  import opened AsyncSimulation

  lemma StepThenStays(env: Env, base: seq<Frame>, f: Frame, outcome: Value, next: Machine, n: nat)
    requires Perform(base, StepFrame(env, f, outcome), outcome) == next
    requires n > 0 ==> Stays(env, next, base, n - 1)
    ensures Stays(env, Running(base + [f], outcome), base, n)
  {
    hide StepFrame, Perform;
    TopStep(env, base, f, outcome);
  }

  /** A stalled machine, or one reached above `base` that stays there. */
  lemma ReachOrStall(env: Env, start: Machine, m: Machine, base: seq<Frame>, reached: nat, n: nat)
    requires ReachIn(env, start, base, m, reached)
    requires m == Stalled || Stays(env, m, base, n)
    ensures Stays(env, start, base, n)
  {
    hide ReachIn, Step;
    ReachThenStays(env, start, m, base, reached, n);
    StaysLess(env, start, base, reached + n, n);
  }

  lemma {:induction false} StuckBlock(env: Env, base: seq<Frame>, f: string, b: seq<Stmt>, next: nat, nodes: Nodes,
                                      s: Store, slots: Slots, outcome: Value, k: nat, n: nat)
    requires Ready(env, f) && ShapedBlock(b)
    requires In(Graph(env, f), Compile(b, next, nodes).nodes, |nodes|)
    requires !Answers(Exec(env.p, b, s, |base| + 1, k)) && k >= n + env.fuel
    ensures Stays(env, At(base, f, Compile(b, next, nodes).entry, s, slots, outcome), base, n)
    decreases k, 1, b, 6
  {
    assert [] + b == b;
    StuckFrom(env, base, f, [], b, next, nodes, s, slots, outcome, k, n);
  }

  lemma {:induction false} StuckFrom(env: Env, base: seq<Frame>, f: string,
                                     ordinary: seq<Stmt>, b: seq<Stmt>, next: nat,
                                     nodes: Nodes, s: Store, slots: Slots, outcome: Value, k: nat, n: nat)
    requires Ready(env, f) && OrdinaryBlock(ordinary) && ShapedBlock(b)
    requires In(Graph(env, f), CompileFrom(ordinary, b, next, nodes).nodes, |nodes|)
    requires !Answers(Exec(env.p, ordinary + b, s, |base| + 1, k)) && k >= n + env.fuel
    ensures Stays(env, At(base, f, CompileFrom(ordinary, b, next, nodes).entry, s, slots, outcome), base, n)
    decreases k, 1, b, 5
  {
    hide Step, Stays, Exec, ExecStmt;
    if b == [] {
      assert ordinary + b == ordinary;
      StuckOrdinary(env, base, f, ordinary, |nodes|, s, slots, outcome, k, n);
    } else if !Splits(b[0]) {
      UnsplitIsOrdinary(b[0]);
      OrdinaryAppend(ordinary, b[0]);
      assert (ordinary + [b[0]]) + b[1..] == ordinary + b;
      StuckFrom(env, base, f, ordinary + [b[0]], b[1..], next, nodes, s, slots, outcome, k, n);
    } else {
      StuckSplitThen(env, base, f, ordinary, b, next, nodes, s, slots, outcome, k, n);
    }
  }

  /** A state whose own statements have no answer stops the machine. */
  lemma StuckOrdinary(env: Env, base: seq<Frame>, f: string, ordinary: seq<Stmt>, node: nat,
                      s: Store, slots: Slots, outcome: Value, k: nat, n: nat)
    requires Ready(env, f) && OrdinaryBlock(ordinary) && node < |Graph(env, f)|
    requires Statements(Graph(env, f)[node]) == ordinary
    requires !Answers(Exec(env.p, ordinary, s, |base| + 1, k)) && k >= env.fuel
    ensures Stays(env, At(base, f, node, s, slots, outcome), base, n)
  {
    hide RunOrdinary, Exec, Step;
    OrdinaryAgrees(env.p, ordinary, s, env.fuel, |base| + 1, k);
    StateStep(env, f, node, s, slots, outcome);
    var frame := Frame(f, node, s, slots);
    StepThenStays(env, base, frame, outcome, Perform(base, StepFrame(env, frame, outcome), outcome), n);
  }

  lemma {:induction false} StuckSplitThen(env: Env, base: seq<Frame>, f: string,
                                          ordinary: seq<Stmt>, b: seq<Stmt>, next: nat,
                                          nodes: Nodes, s: Store, slots: Slots, outcome: Value, k: nat, n: nat)
    requires Ready(env, f) && OrdinaryBlock(ordinary) && b != [] && ShapedBlock(b) && Splits(b[0])
    requires In(Graph(env, f), CompileFrom(ordinary, b, next, nodes).nodes, |nodes|)
    requires !Answers(Exec(env.p, ordinary + b, s, |base| + 1, k)) && k >= n + env.fuel
    ensures Stays(env, At(base, f, CompileFrom(ordinary, b, next, nodes).entry, s, slots, outcome), base, n)
    decreases k, 1, b, 4
  {
    hide Step, ReachIn, Stays;
    var d := |base| + 1;
    var after := Compile(b[1..], next, nodes);
    var split := CompileSplit(ordinary, b[0], after.entry, after.nodes);
    ExecHead(env.p, ordinary, b, s, d, k);
    var o := Exec(env.p, ordinary + [b[0]], s, d, k);
    if !Answers(o) {
      StuckSplit(env, base, f, ordinary, b[0], after.entry, after.nodes, s, slots, outcome, k, n);
    } else {
      var reached, m := SimSplit(env, base, f, ordinary, b[0], after.entry, after.nodes, s, slots, outcome, k);
      if m != Stalled {
        var top := m.frames[|base|];
        assert m.frames == base + [top];
        StuckBlock(env, base, f, b[1..], next, nodes, o.s, top.slots, m.outcome, k, n);
      }
      ReachOrStall(env, At(base, f, split.entry, s, slots, outcome), m, base, reached, n);
    }
  }

  lemma {:induction false} StuckSplit(env: Env, base: seq<Frame>, f: string, ordinary: seq<Stmt>, st: Stmt, after: nat,
                                      nodes: Nodes, s: Store, slots: Slots, outcome: Value, k: nat, n: nat)
    requires Ready(env, f) && OrdinaryBlock(ordinary) && Shaped(st) && Splits(st)
    requires In(Graph(env, f), CompileSplit(ordinary, st, after, nodes).nodes, |nodes|)
    requires !Answers(Exec(env.p, ordinary + [st], s, |base| + 1, k)) && k >= n + env.fuel
    ensures Stays(env, At(base, f, CompileSplit(ordinary, st, after, nodes).entry, s, slots, outcome), base, n)
    decreases k, 1, st, 5
  {
    hide RunOrdinary, Exec, ExecStmt, Stays, Step;
    var d := |base| + 1;
    var built := CompileSplit(ordinary, st, after, nodes);
    EntryRunsOrdinary(ordinary, st, after, nodes);
    ExecLast(env.p, ordinary, st, s, d, k);
    if !Answers(Exec(env.p, ordinary, s, d, k)) {
      StuckOrdinary(env, base, f, ordinary, built.entry, s, slots, outcome, k, n);
    } else {
      OrdinaryAgrees(env.p, ordinary, s, env.fuel, d, k);
      StateStep(env, f, built.entry, s, slots, outcome);
      var r := RunOrdinary(env.p, ordinary, s, env.fuel);
      var frame := Frame(f, built.entry, s, slots);
      var next := Perform(base, StepFrame(env, frame, outcome), outcome);
      if r.Ran? {
        if n > 0 {
          StuckKind(env, base, f, ordinary, st, after, nodes, r.s, slots, outcome, k, n - 1);
        }
      } else if n > 0 {
        StopsStay(env, next, base, n - 1);
      }
      StepThenStays(env, base, frame, outcome, next, n);
    }
  }

  lemma {:induction false} StuckKind(env: Env, base: seq<Frame>, f: string, ordinary: seq<Stmt>, st: Stmt, after: nat,
                                     nodes: Nodes, s: Store, slots: Slots, outcome: Value, k: nat, n: nat)
    requires Ready(env, f) && Shaped(st) && Splits(st)
    requires In(Graph(env, f), CompileSplit(ordinary, st, after, nodes).nodes, |nodes|)
    requires !Answers(ExecStmt(env.p, st, s, |base| + 1, k)) && k >= n + 1 + env.fuel
    requires CompileSplit(ordinary, st, after, nodes).entry < |Graph(env, f)|
    ensures Stays(env, Perform(base, Dispatch(env, Graph(env, f),
                  Frame(f, CompileSplit(ordinary, st, after, nodes).entry, s, slots), outcome), outcome), base, n)
    decreases k, 1, st, 4
  {
    hide In, Stays, Perform, Dispatch, ExecStmt, CompileSplit;
    if st.If? {
      StuckIf(env, base, f, ordinary, st, after, nodes, s, slots, outcome, k, n);
    } else if st.Match? {
      StuckMatch(env, base, f, ordinary, st, after, nodes, s, slots, outcome, k, n);
    } else if st.While? {
      StuckWhile(env, base, f, ordinary, st, after, nodes, s, slots, outcome, k, n);
    } else if st.Foreach? {
      StuckForeach(env, base, f, ordinary, st, after, nodes, s, slots, outcome, k, n);
    } else {
      StuckAwait(env, base, f, ordinary, st, after, nodes, s, slots, outcome, k, n);
    }
  }

  lemma {:induction false} StuckIf(env: Env, base: seq<Frame>, f: string, ordinary: seq<Stmt>, st: Stmt, after: nat,
                                   nodes: Nodes, s: Store, slots: Slots, outcome: Value, k: nat, n: nat)
    requires Ready(env, f) && Shaped(st) && Splits(st) && st.If?
    requires In(Graph(env, f), CompileSplit(ordinary, st, after, nodes).nodes, |nodes|)
    requires !Answers(ExecStmt(env.p, st, s, |base| + 1, k)) && k >= n + 1 + env.fuel
    requires CompileSplit(ordinary, st, after, nodes).entry < |Graph(env, f)|
    ensures Stays(env, Perform(base, Dispatch(env, Graph(env, f),
                  Frame(f, CompileSplit(ordinary, st, after, nodes).entry, s, slots), outcome), outcome), base, n)
    decreases k, 1, st, 3
  {
    hide Exec, Step, Compile;
    var join := |nodes|;
    var joined := nodes + [Join(false, after)];
    var thn := Compile(st.thn, join, joined);
    var els := Compile(st.els, join, thn.nodes);
    var built := CompileSplit(ordinary, st, after, nodes);
    assert built.nodes == els.nodes + [Branch(ordinary, st.c, thn.entry, els.entry)];
    assert Graph(env, f)[built.entry] == Branch(ordinary, st.c, thn.entry, els.entry);
    if Pure(st.c, s) == Some(Bool(true)) {
      StuckBlock(env, base, f, st.thn, join, joined, s, slots, outcome, k, n);
    } else if Pure(st.c, s) == Some(Bool(false)) {
      StuckBlock(env, base, f, st.els, join, thn.nodes, s, slots, outcome, k, n);
    }
  }

  lemma {:induction false} StuckMatch(env: Env, base: seq<Frame>, f: string, ordinary: seq<Stmt>, st: Stmt, after: nat,
                                      nodes: Nodes, s: Store, slots: Slots, outcome: Value, k: nat, n: nat)
    requires Ready(env, f) && Shaped(st) && Splits(st) && st.Match?
    requires In(Graph(env, f), CompileSplit(ordinary, st, after, nodes).nodes, |nodes|)
    requires !Answers(ExecStmt(env.p, st, s, |base| + 1, k)) && k >= n + 1 + env.fuel
    requires CompileSplit(ordinary, st, after, nodes).entry < |Graph(env, f)|
    ensures Stays(env, Perform(base, Dispatch(env, Graph(env, f),
                  Frame(f, CompileSplit(ordinary, st, after, nodes).entry, s, slots), outcome), outcome), base, n)
    decreases k, 1, st, 3
  {
    hide Exec, Step, CompileArms;
    var join := |nodes|;
    var started := nodes + [Join(true, after), MatchDispatch(ordinary, st.subject, [])];
    var (cases, inside) := CompileArms(st.arms, join, started);
    var built := CompileSplit(ordinary, st, after, nodes);
    assert built.nodes == inside[join + 1 := MatchDispatch(ordinary, st.subject, cases)];
    assert Graph(env, f)[join + 1] == MatchDispatch(ordinary, st.subject, cases);
    assert In(Graph(env, f), inside, |started|);
    match Pure(st.subject, s) {
      case Some(Variant(tag, payload)) =>
        StuckArms(env, base, f, st.arms, tag, payload, join, started, Frame(f, join + 1, s, slots), outcome, k, n);
      case _ =>
    }
  }

  lemma {:induction false} StuckArms(env: Env, base: seq<Frame>, f: string, arms: seq<Arm>, tag: string,
                                     payload: seq<Value>,
                                     join: nat, nodes: Nodes, frame: Frame, outcome: Value, k: nat, n: nat)
    requires Ready(env, f) && ShapedArms(arms) && frame.fn == f
    requires In(Graph(env, f), CompileArms(arms, join, nodes).1, |nodes|)
    requires !Answers(ExecArms(env.p, arms, tag, payload, frame.locals, |base| + 1, k)) && k >= n + env.fuel
    ensures Stays(env, Perform(base, Select(CompileArms(arms, join, nodes).0, tag, payload, frame), outcome), base, n)
    decreases k, 1, arms, 7
  {
    hide Exec, Step, Compile;
    if arms != [] {
      var first := Compile(arms[0].body, join, nodes);
      var (rest, inside) := CompileArms(arms[1..], join, first.nodes);
      var cases := CompileArms(arms, join, nodes).0;
      assert cases[0] == Case(arms[0].tag, arms[0].binds, first.entry) && cases[1..] == rest;
      if arms[0].tag == tag {
        if |arms[0].binds| == |payload| {
          var bound := frame.locals + Bind(arms[0].binds, payload);
          StuckBlock(env, base, f, arms[0].body, join, nodes, bound, frame.slots, outcome, k, n);
          assert Perform(base, Select(cases, tag, payload, frame), outcome) ==
                 At(base, f, first.entry, bound, frame.slots, outcome);
        }
      } else {
        StuckArms(env, base, f, arms[1..], tag, payload, join, first.nodes, frame, outcome, k, n);
      }
    }
  }

  // ---------------------------------------------------------------------------------------------
  // Awaits and calls

  lemma {:induction false} StuckAwait(env: Env, base: seq<Frame>, f: string, ordinary: seq<Stmt>, st: Stmt, after: nat,
                                      nodes: Nodes, s: Store, slots: Slots, outcome: Value, k: nat, n: nat)
    requires Ready(env, f) && Shaped(st) && Splits(st) && SimpleExpr(st).Some?
    requires In(Graph(env, f), CompileSplit(ordinary, st, after, nodes).nodes, |nodes|)
    requires !Answers(ExecStmt(env.p, st, s, |base| + 1, k)) && k >= n + 1 + env.fuel
    requires CompileSplit(ordinary, st, after, nodes).entry < |Graph(env, f)|
    ensures Stays(env, Perform(base, Dispatch(env, Graph(env, f),
                  Frame(f, CompileSplit(ordinary, st, after, nodes).entry, s, slots), outcome), outcome), base, n)
    decreases k, 1, st, 3
  {
    hide ReachIn, Step, Exec, Pure, Call, CompileSplit, Lands;
    var d := |base| + 1;
    var at := |nodes|;
    var e := SimpleExpr(st).value;
    SplitsOnAwait(st);
    var call := DirectAwait(e).value;
    AwaitIsPlaced(Graph(env, f), ordinary, st, after, nodes);
    var parent := Frame(f, at, s, slots);
    var action := Suspend(env, call, parent);
    assert Dispatch(env, Graph(env, f), Frame(f, at + 1, s, slots), outcome) == action;
    if action.Push? && d < CAPACITY {
      var args := PureAll(call.operands, s).value;
      assert base + [parent, action.child] == (base + [parent]) + [action.child];
      var start := Running(base + [parent, action.child], outcome);
      var result := Call(env.p, call.callee, args, d, k);
      if result.Val? {
        var reached, m := SimCall(env, base + [parent], call.callee, args, outcome, k);
        ReachBelow(env, start, m, base, parent, reached);
        if m != Stalled {
          NoResume(env, st, s, d, k);
          StuckResume(env, base, f, st, at, after, s, slots, result.v, n);
        }
        ReachOrStall(env, start, m, base, reached, n);
      } else {
        StuckCall(env, base + [parent], call.callee, args, outcome, k, n);
        StaysBelow(env, start, base, parent, n);
      }
    }
  }

  /** If the call has a result and the statement has no answer, it is because it cannot be finished. */
  lemma NoResume(env: Env, st: Stmt, s: Store, d: nat, k: nat)
    requires Shaped(st) && Splits(st) && SimpleExpr(st).Some? && !Answers(ExecStmt(env.p, st, s, d, k))
    requires DirectAwait(SimpleExpr(st).value).Some? && DirectAwait(SimpleExpr(st).value).value.Await?
    requires AwaitedCall(env.p, SimpleExpr(st).value, s, d, k).Val?
    ensures Resumed(SimpleExpr(st).value, s, AwaitedCall(env.p, SimpleExpr(st).value, s, d, k).v) == None
            || (st.Assign? && st.x !in s)
  {
    hide Exec, Pure, Call, ReplaceAwait;
    var e := SimpleExpr(st).value;
    SplitsOnAwait(st);
    var v := AwaitedCall(env.p, e, s, d, k).v;
    if Resumed(e, s, v).Some? {
      SplitValue(env.p, e, s, d, k, Resumed(e, s, v).value);
    }
  }

  lemma StuckResume(env: Env, base: seq<Frame>, f: string, st: Stmt, at: nat, after: nat,
                    s: Store, slots: Slots, awaited: Value, n: nat)
    requires Ready(env, f) && at < |Graph(env, f)| && SimpleExpr(st).Some?
    requires Graph(env, f)[at] == AfterAwait(AwaitId(st), ResumeStmt(st), after)
    requires Resumed(SimpleExpr(st).value, s, awaited) == None || (st.Assign? && st.x !in s)
    ensures Stays(env, Running(base + [Frame(f, at, s, slots)], awaited), base, n)
  {
    hide Step, Pure, ReplaceAwait;
    var frame := Frame(f, at, s, slots);
    StateStep(env, f, at, s, slots, awaited);
    assert SimpleExpr(ResumeStmt(st)) == Some(ReplaceAwait(SimpleExpr(st).value));
    StepThenStays(env, base, frame, awaited, Perform(base, StepFrame(env, frame, awaited), awaited), n);
  }

  lemma {:induction false} StuckCall(env: Env, base: seq<Frame>, callee: string, args: seq<Value>, outcome: Value,
                                     k: nat, n: nat)
    requires ShapedProgram(env.p) && env.code == Created(env.p)
    requires callee in env.p.fns && |env.p.fns[callee].params| == |args| && |base| < CAPACITY
    requires !Call(env.p, callee, args, |base|, k).Val? && k >= n + 1 + env.fuel
    ensures Stays(env, Running(base + [Started(env, callee, args)], outcome), base, n)
    decreases k, 0
  {
    hide ReachIn, Step, Exec, Compile;
    var fn := env.p.fns[callee];
    var s := Bind(fn.params, args);
    var o := Exec(env.p, fn.body, s, |base| + 1, k - 1);
    var g := Graph(env, callee);
    assert Normalize(fn.body).nodes == g && g[0] == Complete;
    var start := Running(base + [Started(env, callee, args)], outcome);
    if Answers(o) {
      var reached, m := SimBlock(env, base, callee, fn.body, 0, [Complete], s, map[], outcome, k - 1);
      if m != Stalled {
        var top := m.frames[|base|];
        assert m.frames == base + [top];
        StateStep(env, callee, 0, top.locals, top.slots, m.outcome);
        assert top == Frame(callee, 0, o.s, top.slots);
        StepThenStays(env, base, top, m.outcome, Perform(base, StepFrame(env, top, m.outcome), m.outcome), n);
      }
      ReachOrStall(env, start, m, base, reached, n);
    } else {
      StuckBlock(env, base, callee, fn.body, 0, [Complete], s, map[], outcome, k - 1, n);
    }
  }

  // ---------------------------------------------------------------------------------------------
  // Loops

  lemma {:induction false} StuckWhile(env: Env, base: seq<Frame>, f: string, ordinary: seq<Stmt>, st: Stmt, after: nat,
                                      nodes: Nodes, s: Store, slots: Slots, outcome: Value, k: nat, n: nat)
    requires Ready(env, f) && Shaped(st) && Splits(st) && st.While?
    requires In(Graph(env, f), CompileSplit(ordinary, st, after, nodes).nodes, |nodes|)
    requires !Answers(ExecStmt(env.p, st, s, |base| + 1, k)) && k >= n + 1 + env.fuel
    requires CompileSplit(ordinary, st, after, nodes).entry < |Graph(env, f)|
    ensures Stays(env, Perform(base, Dispatch(env, Graph(env, f),
                  Frame(f, CompileSplit(ordinary, st, after, nodes).entry, s, slots), outcome), outcome), base, n)
    decreases k, 1, st, 3
  {
    hide Step, Exec, CompileSplit, Compile, CompileElse, ExecWhile;
    var g := Graph(env, f);
    var header := |nodes| + 1;
    LoopIsPlaced(g, ordinary, st, after, nodes);
    var started := if Bounded(g, header) then slots[header := Count(0)] else slots;
    assert Dispatch(env, g, Frame(f, |nodes|, s, slots), outcome) == Goto(Frame(f, header, s, started));
    LoopShape(st);
    StuckLoop(env, base, f, ordinary, st, after, nodes, 0, s, started, outcome, k, n);
  }

  lemma {:induction false} StuckLoop(env: Env, base: seq<Frame>, f: string, ordinary: seq<Stmt>, st: Stmt, after: nat,
                                     nodes: Nodes, done: nat, s: Store, slots: Slots, outcome: Value, k: nat, n: nat)
    requires Ready(env, f) && st.While? && ShapedBlock(st.body) && (st.hasElse ==> ShapedBlock(st.els))
    requires LoopNodes(Graph(env, f), ordinary, st, after, nodes) && Counts(st, slots, |nodes| + 1, done)
    requires !Answers(ExecWhile(env.p, st, done, s, |base| + 1, k)) && k >= n + env.fuel
    ensures Stays(env, At(base, f, |nodes| + 1, s, slots, outcome), base, n)
    decreases k, 1, st, 2
  {
    hide ReachIn, Step, Exec, Compile, StepFrame, LoopNodes, Lands;
    var header := |nodes| + 1;
    var exhausted := CompileElse(st, after, WhileStart(ordinary, st, after, nodes));
    var inside := Compile(st.body, header + 1, exhausted.nodes);
    var frame := Frame(f, header, s, slots);
    LoopParts(Graph(env, f), ordinary, st, after, nodes);
    HeaderStep(env, f, ordinary, st, after, nodes, done, s, slots, outcome);
    var next := Perform(base, StepFrame(env, frame, outcome), outcome);
    if n > 0 && Pure(st.c, s) == Some(Bool(true)) {
      if st.bound.Some? && done >= st.bound.value {
        if st.hasElse {
          StuckBlock(env, base, f, st.els, after, WhileStart(ordinary, st, after, nodes), s, slots, outcome, k - 1,
                     n - 1);
        }
      } else {
        assert next == At(base, f, inside.entry, s, slots, outcome);
        var body := Exec(env.p, st.body, s, |base| + 1, k - 1);
        if Answers(body) {
          var reached, m := SimBlock(env, base, f, st.body, header + 1, exhausted.nodes, s, slots, outcome, k - 1);
          if m != Stalled {
            StuckBack(env, base, f, ordinary, st, after, nodes, done, body.s, slots, k, m, n - 1);
          }
          ReachOrStall(env, next, m, base, reached, n - 1);
        } else {
          StuckBlock(env, base, f, st.body, header + 1, exhausted.nodes, s, slots, outcome, k - 1, n - 1);
        }
      }
    }
    StepThenStays(env, base, frame, outcome, next, n);
  }

  lemma {:induction false} StuckBack(env: Env, base: seq<Frame>, f: string, ordinary: seq<Stmt>, st: Stmt, after: nat,
                                     nodes: Nodes, done: nat, s: Store, slots: Slots, k: nat, from: Machine, n: nat)
    requires Ready(env, f) && st.While? && ShapedBlock(st.body) && (st.hasElse ==> ShapedBlock(st.els)) && k > 0
    requires LoopNodes(Graph(env, f), ordinary, st, after, nodes) && Counts(st, slots, |nodes| + 1, done)
    requires from != Stalled
    requires var exhausted := CompileElse(st, after, WhileStart(ordinary, st, after, nodes));
             Lands(env, base, f, Normal(s), |nodes| + 2, slots, |exhausted.nodes|,
                   |Compile(st.body, |nodes| + 2, exhausted.nodes).nodes|, k - 1, from)
    requires !Answers(ExecWhile(env.p, st, done + 1, s, |base| + 1, k - 1)) && k - 1 >= n + env.fuel
    ensures Stays(env, from, base, n)
    decreases k, 0, st, 2
  {
    hide Step, Exec, ExecWhile, Compile, CompileElse;
    var header := |nodes| + 1;
    var g := Graph(env, f);
    var top := from.frames[|base|];
    assert from.frames == base + [top];
    assert top == Frame(f, header + 1, s, top.slots);
    StateStep(env, f, header + 1, s, top.slots, from.outcome);
    var again := if Bounded(g, header) then top.slots[header := Count(CountAt(top.slots, header) + 1)] else top.slots;
    assert header in slots <==> header in top.slots;
    assert StepFrame(env, top, from.outcome) == Goto(Frame(f, header, s, again));
    if n > 0 {
      StuckLoop(env, base, f, ordinary, st, after, nodes, done + 1, s, again, from.outcome, k - 1, n - 1);
    }
    StepThenStays(env, base, top, from.outcome, At(base, f, header, s, again, from.outcome), n);
  }

  lemma {:induction false} StuckForeach(env: Env, base: seq<Frame>, f: string, ordinary: seq<Stmt>, st: Stmt,
                                        after: nat,
                                        nodes: Nodes, s: Store, slots: Slots, outcome: Value, k: nat, n: nat)
    requires Ready(env, f) && Shaped(st) && Splits(st) && st.Foreach?
    requires In(Graph(env, f), CompileSplit(ordinary, st, after, nodes).nodes, |nodes|)
    requires !Answers(ExecStmt(env.p, st, s, |base| + 1, k)) && k >= n + 1 + env.fuel
    requires CompileSplit(ordinary, st, after, nodes).entry < |Graph(env, f)|
    ensures Stays(env, Perform(base, Dispatch(env, Graph(env, f),
                  Frame(f, CompileSplit(ordinary, st, after, nodes).entry, s, slots), outcome), outcome), base, n)
    decreases k, 1, st, 3
  {
    hide Step, Exec, CompileSplit, Compile, ExecFor, Open, OpenCursor;
    var g := Graph(env, f);
    var header := |nodes| + 1;
    EachIsPlaced(g, ordinary, st, after, nodes);
    OpenedCursor(st.src, s);
    if Open(st.src, s).Some? {
      var started := slots[header := Iterate(OpenCursor(st.src, s).value)];
      assert Dispatch(env, g, Frame(f, |nodes|, s, slots), outcome) == Goto(Frame(f, header, s, started));
      LoopShape(st);
      StuckEach(env, base, f, ordinary, st, after, nodes, s, started, outcome, k, n);
    }
  }

  lemma {:induction false} StuckEach(env: Env, base: seq<Frame>, f: string, ordinary: seq<Stmt>, st: Stmt, after: nat,
                                     nodes: Nodes, s: Store, slots: Slots, outcome: Value, k: nat, n: nat)
    requires Ready(env, f) && st.Foreach? && ShapedBlock(st.body)
    requires EachNodes(Graph(env, f), ordinary, st, after, nodes) && HoldsCursor(slots, |nodes| + 1)
    requires !Answers(ExecFor(env.p, st, Pending(slots[|nodes| + 1].c), s, |base| + 1, k)) && k >= n + env.fuel
    ensures Stays(env, At(base, f, |nodes| + 1, s, slots, outcome), base, n)
    decreases k, 1, st, 2
  {
    hide ReachIn, Step, Exec, Compile, Pending, CursorItem, CursorNext, StepFrame, EachNodes, Lands;
    var header := |nodes| + 1;
    var started := ForeachStart(ordinary, st, after, nodes);
    var inside := Compile(st.body, header + 1, started);
    var frame := Frame(f, header, s, slots);
    var c := slots[header].c;
    CursorDelivers(c, s);
    EachStep(env, f, ordinary, st, after, nodes, s, slots, outcome);
    var next := Perform(base, StepFrame(env, frame, outcome), outcome);
    if n > 0 {
      var v := CursorItem(c, s).value;
      var bound := s[st.item := v];
      assert next == At(base, f, inside.entry, bound, slots, outcome);
      var body := Exec(env.p, st.body, bound, |base| + 1, k - 1);
      if Answers(body) {
        var reached, m := SimBlock(env, base, f, st.body, header + 1, started, bound, slots, outcome, k - 1);
        if m != Stalled {
          StuckContinue(env, base, f, ordinary, st, after, nodes, body.s, slots, k, m, n - 1);
        }
        ReachOrStall(env, next, m, base, reached, n - 1);
      } else {
        StuckBlock(env, base, f, st.body, header + 1, started, bound, slots, outcome, k - 1, n - 1);
      }
    }
    StepThenStays(env, base, frame, outcome, next, n);
  }

  lemma {:induction false} StuckContinue(env: Env, base: seq<Frame>, f: string, ordinary: seq<Stmt>, st: Stmt,
                                         after: nat,
                                         nodes: Nodes, s: Store, slots: Slots, k: nat, from: Machine, n: nat)
    requires Ready(env, f) && st.Foreach? && ShapedBlock(st.body) && k > 0
    requires EachNodes(Graph(env, f), ordinary, st, after, nodes) && HoldsCursor(slots, |nodes| + 1)
    requires ValidCursor(CursorNext(slots[|nodes| + 1].c)) && from != Stalled
    requires Lands(env, base, f, Normal(s), |nodes| + 2, slots, |nodes| + 3,
                   |Compile(st.body, |nodes| + 2, ForeachStart(ordinary, st, after, nodes)).nodes|, k - 1, from)
    requires !Answers(ExecFor(env.p, st, Pending(CursorNext(slots[|nodes| + 1].c)), s, |base| + 1, k - 1))
    requires k - 1 >= n + env.fuel
    ensures Stays(env, from, base, n)
    decreases k, 0, st, 2
  {
    hide Step, Exec, ExecFor, Compile, Pending, CursorNext;
    var header := |nodes| + 1;
    var top := from.frames[|base|];
    assert from.frames == base + [top];
    assert top == Frame(f, header + 1, s, top.slots);
    StateStep(env, f, header + 1, s, top.slots, from.outcome);
    assert header in slots <==> header in top.slots;
    assert top.slots[header] == slots[header];
    var again := top.slots[header := Iterate(CursorNext(slots[header].c))];
    assert StepFrame(env, top, from.outcome) == Goto(Frame(f, header, s, again));
    if n > 0 {
      StuckEach(env, base, f, ordinary, st, after, nodes, s, again, from.outcome, k - 1, n - 1);
    }
    StepThenStays(env, base, top, from.outcome, At(base, f, header, s, again, from.outcome), n);
  }
}
