/**
 The continuation law: running the graph of a statement list does what the statements do and then
 continues at the list's continuation, or finishes the operation early on a return.

 Each lemma follows one clause of the builder.  Its machine starts above an arbitrary stack `base`.
 */
module AsyncSimulation {
  import opened Wrappers
  import opened AsyncSyntax
  import opened AsyncDirect
  import opened AsyncGraph
  import opened AsyncMachine
  import opened AsyncNative
  import opened AsyncRuns
  import RangeCursor

  predicate Ready(env: Env, f: string) {
    ShapedProgram(env.p) && env.code == Created(env.p) && f in env.p.fns
  }

  function Graph(env: Env, f: string): Nodes
    requires Ready(env, f)
  {
    env.code[f].nodes
  }

  /** The nodes of `built` from `lo` on are the nodes of the finished graph `g`. */
  ghost predicate In(g: Nodes, built: Nodes, lo: nat) {
    |built| <= |g| && forall i {:trigger g[i]} {:trigger built[i]} :: lo <= i < |built| ==> g[i] == built[i]
  }

  function At(base: seq<Frame>, f: string, node: nat, s: Store, slots: Slots, outcome: Value): Machine {
    Running(base + [Frame(f, node, s, slots)], outcome)
  }

  /** The generated fields of nodes outside `[lo, hi)` are unchanged. */
  ghost predicate SameOutside(a: Slots, b: Slots, lo: nat, hi: nat) {
    forall i: nat {:trigger a[i]} {:trigger b[i]} {:trigger i in a} {:trigger i in b} ::
      !(lo <= i < hi) ==> (i in a <==> i in b) && (i in a ==> a[i] == b[i])
  }

  /** Where a run ends for the direct outcome `o`: at `next` with the same locals, or popped with the value. */
  ghost predicate Lands(env: Env, base: seq<Frame>, f: string, o: Out, next: nat, slots: Slots, lo: nat, hi: nat,
                        k: nat, m: Machine) {
    || (m == Stalled && env.fuel < k)
    || (match o
        case Normal(s) =>
          && m.Running? && |m.frames| == |base| + 1 && m.frames[..|base|] == base
          && var top := m.frames[|base|];
             && top.fn == f && top.node == next && top.locals == s
             && SameOutside(slots, top.slots, lo, hi)
        case Ret(v, _) => m == Popped(base, v)
        case _ => false)
  }

  predicate Answers(o: Out) { o.Normal? || o.Ret? }

  lemma TopStep(env: Env, base: seq<Frame>, f: Frame, outcome: Value)
    ensures Step(env, Running(base + [f], outcome)) == Perform(base, StepFrame(env, f, outcome), outcome)
    ensures Above(Running(base + [f], outcome), base)
  {
    assert (base + [f])[..|base|] == base;
  }

  /** The state at `node` runs its statements and then dispatches. */
  lemma StateStep(env: Env, f: string, node: nat, s: Store, slots: Slots, outcome: Value)
    requires Ready(env, f) && node < |Graph(env, f)|
    ensures var r := RunOrdinary(env.p, Statements(Graph(env, f)[node]), s, env.fuel);
            StepFrame(env, Frame(f, node, s, slots), outcome) ==
            if r.Ran? then Dispatch(env, Graph(env, f), Frame(f, node, r.s, slots), outcome)
            else Interrupted(r, Frame(f, node, s, slots))
  {
    hide RunOrdinary, Dispatch;
  }

  /** A landing seen from further away: a larger region, and fields that agreed outside it before. */
  lemma LandsWider(env: Env, base: seq<Frame>, f: string, o: Out, next: nat, before: Slots, slots: Slots,
                   lo: nat, hi: nat, lo': nat, hi': nat, k: nat, k': nat, m: Machine)
    requires Lands(env, base, f, o, next, slots, lo, hi, k, m)
    requires lo' <= lo && hi <= hi' && k <= k' && SameOutside(before, slots, lo', hi')
    ensures Lands(env, base, f, o, next, before, lo', hi', k', m)
  {
  }

  /** One step from `m1`, then whatever was reached from there. */
  lemma StepThen(env: Env, base: seq<Frame>, f: Frame, outcome: Value, m2: Machine, last: Machine, n: nat)
    requires Perform(base, StepFrame(env, f, outcome), outcome) == m2 && ReachIn(env, m2, base, last, n)
    ensures ReachIn(env, Running(base + [f], outcome), base, last, n + 1)
  {
    hide StepFrame, Perform;
    TopStep(env, base, f, outcome);
  }

  /** A single step that already is the landing. */
  lemma StepOnly(env: Env, base: seq<Frame>, f: Frame, outcome: Value, m2: Machine)
    requires Perform(base, StepFrame(env, f, outcome), outcome) == m2
    ensures ReachIn(env, Running(base + [f], outcome), base, m2, 1)
  {
    StepThen(env, base, f, outcome, m2, m2, 0);
  }

  // ---------------------------------------------------------------------------------------------
  // Statement lists

  lemma {:induction false} SimBlock(env: Env, base: seq<Frame>, f: string, b: seq<Stmt>, next: nat, nodes: Nodes,
                                    s: Store, slots: Slots, outcome: Value, k: nat)
    returns (n: nat, m: Machine)
    requires Ready(env, f) && ShapedBlock(b)
    requires In(Graph(env, f), Compile(b, next, nodes).nodes, |nodes|)
    requires Answers(Exec(env.p, b, s, |base| + 1, k))
    ensures ReachIn(env, At(base, f, Compile(b, next, nodes).entry, s, slots, outcome), base, m, n)
    ensures Lands(env, base, f, Exec(env.p, b, s, |base| + 1, k), next, slots, |nodes|, |Compile(b, next, nodes).nodes|,
                  k, m)
    decreases k, 1, b, 6
  {
    if b == [] {
      n, m := 0, At(base, f, next, s, slots, outcome);
    } else {
      assert [] + b == b;
      n, m := SimFrom(env, base, f, [], b, next, nodes, s, slots, outcome, k);
    }
  }

  lemma {:induction false} SimFrom(env: Env, base: seq<Frame>, f: string, ordinary: seq<Stmt>, b: seq<Stmt>, next: nat,
                                   nodes: Nodes, s: Store, slots: Slots, outcome: Value, k: nat)
    returns (n: nat, m: Machine)
    requires Ready(env, f) && OrdinaryBlock(ordinary) && ShapedBlock(b)
    requires In(Graph(env, f), CompileFrom(ordinary, b, next, nodes).nodes, |nodes|)
    requires Answers(Exec(env.p, ordinary + b, s, |base| + 1, k))
    ensures ReachIn(env, At(base, f, CompileFrom(ordinary, b, next, nodes).entry, s, slots, outcome), base, m, n)
    ensures Lands(env, base, f, Exec(env.p, ordinary + b, s, |base| + 1, k), next, slots, |nodes|,
                  |CompileFrom(ordinary, b, next, nodes).nodes|, k, m)
    decreases k, 1, b, 5
  {
    hide Lands, Step, ReachIn, Exec, ExecStmt;
    if b == [] {
      assert ordinary + b == ordinary;
      n, m := SimBasic(env, base, f, ordinary, next, |nodes|, s, slots, outcome, k, |nodes|, |nodes| + 1);
    } else if !Splits(b[0]) {
      UnsplitIsOrdinary(b[0]);
      OrdinaryAppend(ordinary, b[0]);
      assert (ordinary + [b[0]]) + b[1..] == ordinary + b;
      n, m := SimFrom(env, base, f, ordinary + [b[0]], b[1..], next, nodes, s, slots, outcome, k);
    } else {
      n, m := SimSplitThen(env, base, f, ordinary, b, next, nodes, s, slots, outcome, k);
    }
  }

  lemma SimBasic(env: Env, base: seq<Frame>, f: string, ordinary: seq<Stmt>, next: nat, node: nat,
                 s: Store, slots: Slots, outcome: Value, k: nat, lo: nat, hi: nat)
    returns (n: nat, m: Machine)
    requires Ready(env, f) && OrdinaryBlock(ordinary) && node < |Graph(env, f)|
    requires Graph(env, f)[node] == BasicBlock(ordinary, next)
    requires Answers(Exec(env.p, ordinary, s, |base| + 1, k))
    ensures ReachIn(env, At(base, f, node, s, slots, outcome), base, m, n)
    ensures Lands(env, base, f, Exec(env.p, ordinary, s, |base| + 1, k), next, slots, lo, hi, k, m)
  {
    hide RunOrdinary, Exec, ReachIn, Step;
    OrdinaryAgrees(env.p, ordinary, s, env.fuel, |base| + 1, k);
    StateStep(env, f, node, s, slots, outcome);
    var frame := Frame(f, node, s, slots);
    n, m := 1, Perform(base, StepFrame(env, frame, outcome), outcome);
    StepOnly(env, base, frame, outcome, m);
  }

  /** A list whose head gets nodes of its own: the head, then the rest compiled before it. */
  lemma {:induction false} SimSplitThen(env: Env, base: seq<Frame>, f: string,
                                        ordinary: seq<Stmt>, b: seq<Stmt>, next: nat,
                                        nodes: Nodes, s: Store, slots: Slots, outcome: Value, k: nat)
    returns (n: nat, m: Machine)
    requires Ready(env, f) && OrdinaryBlock(ordinary) && b != [] && ShapedBlock(b) && Splits(b[0])
    requires In(Graph(env, f), CompileFrom(ordinary, b, next, nodes).nodes, |nodes|)
    requires Answers(Exec(env.p, ordinary + b, s, |base| + 1, k))
    ensures ReachIn(env, At(base, f, CompileFrom(ordinary, b, next, nodes).entry, s, slots, outcome), base, m, n)
    ensures Lands(env, base, f, Exec(env.p, ordinary + b, s, |base| + 1, k), next, slots, |nodes|,
                  |CompileFrom(ordinary, b, next, nodes).nodes|, k, m)
    decreases k, 1, b, 4
  {
    hide Step, ReachIn;
    var d := |base| + 1;
    var after := Compile(b[1..], next, nodes);
    var split := CompileSplit(ordinary, b[0], after.entry, after.nodes);
    ExecHead(env.p, ordinary, b, s, d, k);
    n, m := SimSplit(env, base, f, ordinary, b[0], after.entry, after.nodes, s, slots, outcome, k);
    var o := Exec(env.p, ordinary + [b[0]], s, d, k);
    if m != Stalled && o.Normal? {
      var top := m.frames[|base|];
      assert m.frames == base + [top];
      var n2, m2 := SimBlock(env, base, f, b[1..], next, nodes, o.s, top.slots, m.outcome, k);
      ReachJoins(env, At(base, f, split.entry, s, slots, outcome), m, m2, base, n, n2);
      n, m := n + n2, m2;
    }
  }

  lemma ExecHead(p: Program, ordinary: seq<Stmt>, b: seq<Stmt>, s: Store, d: nat, k: nat)
    requires b != []
    ensures Exec(p, ordinary + b, s, d, k) ==
            match Exec(p, ordinary + [b[0]], s, d, k) case Normal(s1) => Exec(p, b[1..], s1, d, k) case o => o
  {
    hide *;
    assert (ordinary + [b[0]]) + b[1..] == ordinary + b;
    ExecAppend(p, ordinary + [b[0]], b[1..], s, d, k);
  }

  lemma ExecLast(p: Program, ordinary: seq<Stmt>, st: Stmt, s: Store, d: nat, k: nat)
    ensures Exec(p, ordinary + [st], s, d, k) ==
            match Exec(p, ordinary, s, d, k) case Normal(s1) => ExecStmt(p, st, s1, d, k) case o => o
  {
    ExecAppend(p, ordinary, [st], s, d, k);
    forall s1 ensures Exec(p, [st], s1, d, k) == ExecStmt(p, st, s1, d, k) {
      match ExecStmt(p, st, s1, d, k) {
        case Normal(s2) => assert Exec(p, [st][1..], s2, d, k) == Normal(s2);
        case _ =>
      }
    }
  }

  // ---------------------------------------------------------------------------------------------
  // Statements with nodes of their own

  lemma EntryRunsOrdinary(ordinary: seq<Stmt>, st: Stmt, after: nat, nodes: Nodes)
    requires Splits(st)
    ensures var built := CompileSplit(ordinary, st, after, nodes);
            |nodes| <= built.entry < |built.nodes| && Statements(built.nodes[built.entry]) == ordinary
  {
  }

  lemma {:induction false} SimSplit(env: Env, base: seq<Frame>, f: string, ordinary: seq<Stmt>, st: Stmt, after: nat,
                                    nodes: Nodes, s: Store, slots: Slots, outcome: Value, k: nat)
    returns (n: nat, m: Machine)
    requires Ready(env, f) && OrdinaryBlock(ordinary) && Shaped(st) && Splits(st)
    requires In(Graph(env, f), CompileSplit(ordinary, st, after, nodes).nodes, |nodes|)
    requires Answers(Exec(env.p, ordinary + [st], s, |base| + 1, k))
    ensures ReachIn(env, At(base, f, CompileSplit(ordinary, st, after, nodes).entry, s, slots, outcome), base, m, n)
    ensures Lands(env, base, f, Exec(env.p, ordinary + [st], s, |base| + 1, k), after, slots, |nodes|,
                  |CompileSplit(ordinary, st, after, nodes).nodes|, k, m)
    decreases k, 1, st, 5
  {
    hide RunOrdinary, Exec, ExecStmt, ReachIn, Step;
    var d := |base| + 1;
    var built := CompileSplit(ordinary, st, after, nodes);
    EntryRunsOrdinary(ordinary, st, after, nodes);
    ExecLast(env.p, ordinary, st, s, d, k);
    OrdinaryAgrees(env.p, ordinary, s, env.fuel, d, k);
    StateStep(env, f, built.entry, s, slots, outcome);
    var r := RunOrdinary(env.p, ordinary, s, env.fuel);
    var frame := Frame(f, built.entry, s, slots);
    if !r.Ran? {
      n, m := 1, Perform(base, StepFrame(env, frame, outcome), outcome);
      StepOnly(env, base, frame, outcome, m);
    } else {
      var action := Dispatch(env, Graph(env, f), Frame(f, built.entry, r.s, slots), outcome);
      n, m := SimKind(env, base, f, ordinary, st, after, nodes, r.s, slots, outcome, k);
      StepThen(env, base, frame, outcome, Perform(base, action, outcome), m, n);
      n := n + 1;
    }
  }

  /** After the entry state's own statements, from its dispatch on. */
  lemma {:induction false} SimKind(env: Env, base: seq<Frame>, f: string, ordinary: seq<Stmt>, st: Stmt, after: nat,
                                   nodes: Nodes, s: Store, slots: Slots, outcome: Value, k: nat)
    returns (n: nat, m: Machine)
    requires Ready(env, f) && Shaped(st) && Splits(st)
    requires In(Graph(env, f), CompileSplit(ordinary, st, after, nodes).nodes, |nodes|)
    requires Answers(ExecStmt(env.p, st, s, |base| + 1, k))
    requires CompileSplit(ordinary, st, after, nodes).entry < |Graph(env, f)|
    ensures ReachIn(env, Perform(base, Dispatch(env, Graph(env, f),
                    Frame(f, CompileSplit(ordinary, st, after, nodes).entry, s, slots), outcome), outcome), base, m, n)
    ensures Lands(env, base, f, ExecStmt(env.p, st, s, |base| + 1, k), after, slots, |nodes|,
                  |CompileSplit(ordinary, st, after, nodes).nodes|, k, m)
    decreases k, 1, st, 4
  {
    hide In, Lands, ReachIn, Perform, Dispatch, ExecStmt, CompileSplit;
    if st.If? {
      n, m := SimIf(env, base, f, ordinary, st, after, nodes, s, slots, outcome, k);
    } else if st.Match? {
      n, m := SimMatch(env, base, f, ordinary, st, after, nodes, s, slots, outcome, k);
    } else if st.While? {
      n, m := SimWhile(env, base, f, ordinary, st, after, nodes, s, slots, outcome, k);
    } else if st.Foreach? {
      n, m := SimForeach(env, base, f, ordinary, st, after, nodes, s, slots, outcome, k);
    } else {
      n, m := SimAwait(env, base, f, ordinary, st, after, nodes, s, slots, outcome, k);
    }
  }

  /** From the join of a branch to the node after it. */
  lemma SimJoin(env: Env, base: seq<Frame>, f: string, o: Out, join: nat, ofMatch: bool, after: nat, slots: Slots,
                lo: nat, hi: nat, k: nat, start: Machine, m: Machine, n: nat)
    returns (n': nat, m': Machine)
    requires Ready(env, f) && join < |Graph(env, f)| && Graph(env, f)[join] == Join(ofMatch, after)
    requires Answers(o) && Lands(env, base, f, o, join, slots, lo, hi, k, m) && ReachIn(env, start, base, m, n)
    ensures Lands(env, base, f, o, after, slots, lo, hi, k, m') && ReachIn(env, start, base, m', n')
  {
    hide Exec, ReachIn;
    n', m' := n, m;
    if m != Stalled && o.Normal? {
      var top := m.frames[|base|];
      assert m.frames == base + [top];
      StateStep(env, f, join, top.locals, top.slots, m.outcome);
      assert top == Frame(f, join, o.s, top.slots);
      m' := Perform(base, StepFrame(env, top, m.outcome), m.outcome);
      assert StepFrame(env, top, m.outcome) == Goto(top.(node := after));
      assert m'.frames == base + [top.(node := after)];
      StepOnly(env, base, top, m.outcome, m');
      ReachJoins(env, start, m, m', base, n, 1);
      n' := n + 1;
    }
  }

  lemma {:induction false} SimIf(env: Env, base: seq<Frame>, f: string, ordinary: seq<Stmt>, st: Stmt, after: nat,
                                 nodes: Nodes, s: Store, slots: Slots, outcome: Value, k: nat)
    returns (n: nat, m: Machine)
    requires Ready(env, f) && Shaped(st) && Splits(st) && st.If?
    requires In(Graph(env, f), CompileSplit(ordinary, st, after, nodes).nodes, |nodes|)
    requires Answers(ExecStmt(env.p, st, s, |base| + 1, k))
    requires CompileSplit(ordinary, st, after, nodes).entry < |Graph(env, f)|
    ensures ReachIn(env, Perform(base, Dispatch(env, Graph(env, f),
                    Frame(f, CompileSplit(ordinary, st, after, nodes).entry, s, slots), outcome), outcome), base, m, n)
    ensures Lands(env, base, f, ExecStmt(env.p, st, s, |base| + 1, k), after, slots, |nodes|,
                  |CompileSplit(ordinary, st, after, nodes).nodes|, k, m)
    decreases k, 1, st, 3
  {
    hide Exec, ReachIn, Step, Compile;
    var join := |nodes|;
    var joined := nodes + [Join(false, after)];
    var thn := Compile(st.thn, join, joined);
    var els := Compile(st.els, join, thn.nodes);
    var built := CompileSplit(ordinary, st, after, nodes);
    assert built.nodes == els.nodes + [Branch(ordinary, st.c, thn.entry, els.entry)];
    assert Graph(env, f)[built.entry] == Branch(ordinary, st.c, thn.entry, els.entry);
    assert Graph(env, f)[join] == Join(false, after) by {
      assert joined[join] == built.nodes[join];
    }
    var o := ExecStmt(env.p, st, s, |base| + 1, k);
    var start;
    if Pure(st.c, s) == Some(Bool(true)) {
      n, m := SimBlock(env, base, f, st.thn, join, joined, s, slots, outcome, k);
      LandsWider(env, base, f, o, join, slots, slots, |joined|, |thn.nodes|, |nodes|, |built.nodes|, k, k, m);
      start := At(base, f, thn.entry, s, slots, outcome);
    } else {
      n, m := SimBlock(env, base, f, st.els, join, thn.nodes, s, slots, outcome, k);
      LandsWider(env, base, f, o, join, slots, slots, |thn.nodes|, |els.nodes|, |nodes|, |built.nodes|, k, k, m);
      start := At(base, f, els.entry, s, slots, outcome);
    }
    n, m := SimJoin(env, base, f, o, join, false, after, slots, |nodes|, |built.nodes|, k, start, m, n);
  }

  lemma {:induction false} SimMatch(env: Env, base: seq<Frame>, f: string, ordinary: seq<Stmt>, st: Stmt, after: nat,
                                    nodes: Nodes, s: Store, slots: Slots, outcome: Value, k: nat)
    returns (n: nat, m: Machine)
    requires Ready(env, f) && Shaped(st) && Splits(st) && st.Match?
    requires In(Graph(env, f), CompileSplit(ordinary, st, after, nodes).nodes, |nodes|)
    requires Answers(ExecStmt(env.p, st, s, |base| + 1, k))
    requires CompileSplit(ordinary, st, after, nodes).entry < |Graph(env, f)|
    ensures ReachIn(env, Perform(base, Dispatch(env, Graph(env, f),
                    Frame(f, CompileSplit(ordinary, st, after, nodes).entry, s, slots), outcome), outcome), base, m, n)
    ensures Lands(env, base, f, ExecStmt(env.p, st, s, |base| + 1, k), after, slots, |nodes|,
                  |CompileSplit(ordinary, st, after, nodes).nodes|, k, m)
    decreases k, 1, st, 3
  {
    hide Exec, ReachIn, Step, CompileArms;
    var join := |nodes|;
    var started := nodes + [Join(true, after), MatchDispatch(ordinary, st.subject, [])];
    var (cases, inside) := CompileArms(st.arms, join, started);
    var built := CompileSplit(ordinary, st, after, nodes);
    assert built.nodes == inside[join + 1 := MatchDispatch(ordinary, st.subject, cases)];
    assert Graph(env, f)[join] == Join(true, after) by {
      assert started[join] == inside[join] == built.nodes[join];
    }
    assert Graph(env, f)[join + 1] == MatchDispatch(ordinary, st.subject, cases);
    assert In(Graph(env, f), inside, |started|);
    var o := ExecStmt(env.p, st, s, |base| + 1, k);
    var v := Pure(st.subject, s).value;
    var frame := Frame(f, join + 1, s, slots);
    n, m := SimArms(env, base, f, st.arms, v.name, v.payload, join, started, frame, outcome, k);
    LandsWider(env, base, f, o, join, slots, slots, |started|, |inside|, |nodes|, |built.nodes|, k, k, m);
    n, m := SimJoin(env, base, f, o, join, true, after, slots, |nodes|, |built.nodes|, k,
      Perform(base, Select(cases, v.name, v.payload, frame), outcome), m, n);
  }

  lemma {:induction false} SimArms(env: Env, base: seq<Frame>, f: string, arms: seq<Arm>, tag: string,
                                   payload: seq<Value>, join: nat, nodes: Nodes, frame: Frame, outcome: Value, k: nat)
    returns (n: nat, m: Machine)
    requires Ready(env, f) && ShapedArms(arms) && frame.fn == f
    requires In(Graph(env, f), CompileArms(arms, join, nodes).1, |nodes|)
    requires Answers(ExecArms(env.p, arms, tag, payload, frame.locals, |base| + 1, k))
    ensures ReachIn(env, Perform(base, Select(CompileArms(arms, join, nodes).0, tag, payload, frame), outcome), base, m,
                    n)
    ensures Lands(env, base, f, ExecArms(env.p, arms, tag, payload, frame.locals, |base| + 1, k), join, frame.slots,
                  |nodes|, |CompileArms(arms, join, nodes).1|, k, m)
    decreases k, 1, arms, 7
  {
    hide Exec, ReachIn, Step, Compile;
    var first := Compile(arms[0].body, join, nodes);
    var (rest, inside) := CompileArms(arms[1..], join, first.nodes);
    var o := ExecArms(env.p, arms, tag, payload, frame.locals, |base| + 1, k);
    var cases := CompileArms(arms, join, nodes).0;
    assert cases[0] == Case(arms[0].tag, arms[0].binds, first.entry) && cases[1..] == rest;
    if arms[0].tag == tag {
      var bound := frame.locals + Bind(arms[0].binds, payload);
      n, m := SimBlock(env, base, f, arms[0].body, join, nodes, bound, frame.slots, outcome, k);
      LandsWider(env, base, f, o, join, frame.slots, frame.slots, |nodes|, |first.nodes|, |nodes|, |inside|, k, k, m);
      assert Perform(base, Select(cases, tag, payload, frame), outcome) ==
             At(base, f, first.entry, bound, frame.slots, outcome);
    } else {
      n, m := SimArms(env, base, f, arms[1..], tag, payload, join, first.nodes, frame, outcome, k);
      LandsWider(env, base, f, o, join, frame.slots, frame.slots, |first.nodes|, |inside|, |nodes|, |inside|, k, k, m);
    }
  }

  // ---------------------------------------------------------------------------------------------
  // Awaits and calls

  lemma {:induction false} SimAwait(env: Env, base: seq<Frame>, f: string, ordinary: seq<Stmt>, st: Stmt, after: nat,
                                    nodes: Nodes, s: Store, slots: Slots, outcome: Value, k: nat)
    returns (n: nat, m: Machine)
    requires Ready(env, f) && Shaped(st) && Splits(st) && SimpleExpr(st).Some?
    requires In(Graph(env, f), CompileSplit(ordinary, st, after, nodes).nodes, |nodes|)
    requires Answers(ExecStmt(env.p, st, s, |base| + 1, k))
    requires CompileSplit(ordinary, st, after, nodes).entry < |Graph(env, f)|
    ensures ReachIn(env, Perform(base, Dispatch(env, Graph(env, f),
                    Frame(f, CompileSplit(ordinary, st, after, nodes).entry, s, slots), outcome), outcome), base, m, n)
    ensures Lands(env, base, f, ExecStmt(env.p, st, s, |base| + 1, k), after, slots, |nodes|,
                  |CompileSplit(ordinary, st, after, nodes).nodes|, k, m)
    decreases k, 1, st, 3
  {
    hide ReachIn, Step, Exec, Pure, Call, Lands, CompileSplit;
    var at := |nodes|;
    var g := Graph(env, f);
    var e := SimpleExpr(st).value;
    AwaitIsPlaced(g, ordinary, st, after, nodes);
    var awaited, w := AwaitAnswers(env, st, s, |base| + 1, k);
    var call := DirectAwait(e).value;
    var args := PureAll(call.operands, s).value;
    var parent := Frame(f, at, s, slots);
    var child := Started(env, call.callee, args);
    assert Dispatch(env, g, Frame(f, at + 1, s, slots), outcome) == Push(parent, child);
    assert base + [parent, child] == (base + [parent]) + [child];
    n, m := SimCall(env, base + [parent], call.callee, args, outcome, k);
    var start := Running(base + [parent, child], outcome);
    ReachBelow(env, start, m, base, parent, n);
    if m != Stalled {
      var last := SimResume(env, base, f, st, at, after, s, slots, awaited, w, k, at + 2);
      ReachJoins(env, start, m, last, base, n, 1);
      n, m := n + 1, last;
    } else {
      StalledLands(env, base, f, ExecStmt(env.p, st, s, |base| + 1, k), after, slots, at, at + 2, k);
    }
  }

  lemma StalledLands(env: Env, base: seq<Frame>, f: string, o: Out, next: nat, slots: Slots, lo: nat, hi: nat, k: nat)
    requires Answers(o) && env.fuel < k
    ensures Lands(env, base, f, o, next, slots, lo, hi, k, Stalled)
  {
  }

  lemma AwaitIsPlaced(g: Nodes, ordinary: seq<Stmt>, st: Stmt, after: nat, nodes: Nodes)
    requires Shaped(st) && Splits(st) && SimpleExpr(st).Some?
             && In(g, CompileSplit(ordinary, st, after, nodes).nodes, |nodes|)
    ensures var built := CompileSplit(ordinary, st, after, nodes);
            && built.entry == |nodes| + 1 && |built.nodes| == |nodes| + 2 && |g| > |nodes| + 1
            && DirectAwait(SimpleExpr(st).value).Some?
            && g[|nodes|] == AfterAwait(AwaitId(st), ResumeStmt(st), after)
            && g[|nodes| + 1] == AwaitSuspend(ordinary, DirectAwait(SimpleExpr(st).value).value, |nodes|)
  {
    SplitsOnAwait(st);
  }

  /** A statement with an answer calls a function with one, and finishes with its value. */
  lemma AwaitAnswers(env: Env, st: Stmt, s: Store, d: nat, k: nat) returns (awaited: Value, w: Value)
    requires Shaped(st) && Splits(st) && SimpleExpr(st).Some? && d > 0 && env.code == Created(env.p)
    requires Answers(ExecStmt(env.p, st, s, d, k))
    ensures var e := SimpleExpr(st).value;
            && DirectAwait(e).Some? && DirectAwait(e).value.Await? && PureAll(DirectAwait(e).value.operands, s).Some?
            && var call := DirectAwait(e).value;
               var args := PureAll(call.operands, s).value;
            && Call(env.p, call.callee, args, d, k) == Val(awaited)
            && call.callee in env.p.fns && call.callee in env.code && |env.p.fns[call.callee].params| == |args|
              && d < CAPACITY
            && Resumed(e, s, awaited) == Some(w) && Eval(env.p, e, s, d, k) == Val(w)
  {
    hide Exec, Pure, Call;
    var e := SimpleExpr(st).value;
    SplitsOnAwait(st);
    w := Eval(env.p, e, s, d, k).v;
    SplitValue(env.p, e, s, d, k, w);
    var call := DirectAwait(e).value;
    var args := PureAll(call.operands, s).value;
    awaited := AwaitedCall(env.p, e, s, d, k).v;
    assert Call(env.p, call.callee, args, d, k) == Val(awaited);
    CallIsPushed(env, call.callee, args, d, k);
  }

  lemma SplitsOnAwait(st: Stmt)
    requires Shaped(st) && Splits(st) && SimpleExpr(st).Some?
    ensures var e := SimpleExpr(st).value;
            && OneAwait(e) && Unguarded(e) && AWAITED !in Mentions(e)
            && DirectAwait(e).Some? && DirectAwait(e).value.Await? && StmtAwait(st) == DirectAwait(e)
  {
    var e := SimpleExpr(st).value;
    if AwaitFree(e) {
      AwaitFreeHasNone(e);
    }
    OneAwaitIsDirect(e);
  }

  /** A call with an answer is one the suspend state can push. */
  lemma CallIsPushed(env: Env, callee: string, args: seq<Value>, d: nat, k: nat)
    requires env.code == Created(env.p) && Call(env.p, callee, args, d, k).Val?
    ensures callee in env.p.fns && callee in env.code && |env.p.fns[callee].params| == |args| && d < CAPACITY
  {
    hide Exec;
  }

  /** The state after the await finishes the statement with the delivered result. */
  lemma SimResume(env: Env, base: seq<Frame>, f: string, st: Stmt, at: nat, after: nat,
                  s: Store, slots: Slots, awaited: Value, w: Value, k: nat, hi: nat)
    returns (last: Machine)
    requires Ready(env, f) && at < |Graph(env, f)| && SimpleExpr(st).Some? && at < hi
    requires Graph(env, f)[at] == AfterAwait(AwaitId(st), ResumeStmt(st), after)
    requires Resumed(SimpleExpr(st).value, s, awaited) == Some(w)
    requires Eval(env.p, SimpleExpr(st).value, s, |base| + 1, k) == Val(w)
             && Answers(ExecStmt(env.p, st, s, |base| + 1, k))
    ensures ReachIn(env, Running(base + [Frame(f, at, s, slots)], awaited), base, last, 1)
    ensures Lands(env, base, f, ExecStmt(env.p, st, s, |base| + 1, k), after, slots, at, hi, k, last)
  {
    hide ReachIn, Step, Exec, Eval, Pure, ReplaceAwait;
    var frame := Frame(f, at, s, slots);
    StateStep(env, f, at, s, slots, awaited);
    last := Perform(base, StepFrame(env, frame, awaited), awaited);
    StepOnly(env, base, frame, awaited, last);
    assert SimpleExpr(ResumeStmt(st)) == Some(ReplaceAwait(SimpleExpr(st).value));
  }

  lemma {:induction false} SimCall(env: Env, base: seq<Frame>, callee: string, args: seq<Value>, outcome: Value, k: nat)
    returns (n: nat, m: Machine)
    requires ShapedProgram(env.p) && env.code == Created(env.p)
    requires Call(env.p, callee, args, |base|, k).Val?
    ensures callee in env.p.fns && callee in env.code && |env.p.fns[callee].params| == |args|
    ensures ReachIn(env, Running(base + [Started(env, callee, args)], outcome), base, m, n)
    ensures m == Popped(base, Call(env.p, callee, args, |base|, k).v) || (m == Stalled && env.fuel < k)
    decreases k, 0
  {
    hide ReachIn, Step, Exec, Compile;
    CallIsPushed(env, callee, args, |base|, k);
    var fn := env.p.fns[callee];
    var s := Bind(fn.params, args);
    var o := Exec(env.p, fn.body, s, |base| + 1, k - 1);
    var g := Graph(env, callee);
    assert Normalize(fn.body).nodes == g && g[0] == Complete;
    n, m := SimBlock(env, base, callee, fn.body, 0, [Complete], s, map[], outcome, k - 1);
    var start := Running(base + [Started(env, callee, args)], outcome);
    if m != Stalled && o.Normal? {
      var top := m.frames[|base|];
      assert m.frames == base + [top];
      StateStep(env, callee, 0, top.locals, top.slots, m.outcome);
      assert top == Frame(callee, 0, o.s, top.slots);
      var last := Perform(base, StepFrame(env, top, m.outcome), m.outcome);
      StepOnly(env, base, top, m.outcome, last);
      ReachJoins(env, start, m, last, base, n, 1);
      n, m := n + 1, last;
    }
  }

  // ---------------------------------------------------------------------------------------------
  // Loops

  /** The nodes of a compiled loop, as the finished graph holds them. */
  ghost predicate LoopNodes(g: Nodes, ordinary: seq<Stmt>, st: Stmt, after: nat, nodes: Nodes)
    requires st.While?
  {
    var n := |nodes|;
    var exhausted := CompileElse(st, after, WhileStart(ordinary, st, after, nodes));
    var inside := Compile(st.body, n + 2, exhausted.nodes);
    && In(g, inside.nodes, |exhausted.nodes|)
    && In(g, exhausted.nodes, n + 3)
    && |g| > n + 2
    && g[n] == LoopInit(ordinary, n + 1)
    && g[n + 1] == WhileHeader(st, inside.entry, after, exhausted.entry)
    && g[n + 2] == LoopBackedge(n + 1)
  }

  lemma LoopIsPlaced(g: Nodes, ordinary: seq<Stmt>, st: Stmt, after: nat, nodes: Nodes)
    requires st.While? && Splits(st) && In(g, CompileSplit(ordinary, st, after, nodes).nodes, |nodes|)
    ensures LoopNodes(g, ordinary, st, after, nodes)
    ensures CompileSplit(ordinary, st, after, nodes).entry == |nodes|
    ensures |CompileSplit(ordinary, st, after, nodes).nodes| ==
            |Compile(st.body, |nodes| + 2, CompileElse(st, after, WhileStart(ordinary, st, after, nodes)).nodes).nodes|
  {
    hide Compile, CompileElse;
    var n := |nodes|;
    var started := WhileStart(ordinary, st, after, nodes);
    var exhausted := CompileElse(st, after, started);
    var inside := Compile(st.body, n + 2, exhausted.nodes);
    var built := CompileSplit(ordinary, st, after, nodes).nodes;
    var header := WhileHeader(st, inside.entry, after, exhausted.entry);
    assert built == inside.nodes[n + 1 := header];
    assert built[n] == inside.nodes[n] == exhausted.nodes[n] == started[n];
    assert built[n + 2] == inside.nodes[n + 2] == exhausted.nodes[n + 2] == started[n + 2];
    assert g[n] == built[n] && g[n + 1] == built[n + 1] && g[n + 2] == built[n + 2];
    forall i | |exhausted.nodes| <= i < |inside.nodes| ensures g[i] == inside.nodes[i] {
      assert g[i] == built[i];
    }
    forall i | n + 3 <= i < |exhausted.nodes| ensures g[i] == exhausted.nodes[i] {
      assert g[i] == built[i] == inside.nodes[i];
    }
  }

  predicate Counts(st: Stmt, slots: Slots, header: nat, done: nat)
    requires st.While?
  {
    st.bound.Some? ==> CountAt(slots, header) == done
  }

  lemma {:induction false} SimWhile(env: Env, base: seq<Frame>, f: string, ordinary: seq<Stmt>, st: Stmt, after: nat,
                                    nodes: Nodes, s: Store, slots: Slots, outcome: Value, k: nat)
    returns (n: nat, m: Machine)
    requires Ready(env, f) && Shaped(st) && Splits(st) && st.While?
    requires In(Graph(env, f), CompileSplit(ordinary, st, after, nodes).nodes, |nodes|)
    requires Answers(ExecStmt(env.p, st, s, |base| + 1, k))
    requires CompileSplit(ordinary, st, after, nodes).entry < |Graph(env, f)|
    ensures ReachIn(env, Perform(base, Dispatch(env, Graph(env, f),
                    Frame(f, CompileSplit(ordinary, st, after, nodes).entry, s, slots), outcome), outcome), base, m, n)
    ensures Lands(env, base, f, ExecStmt(env.p, st, s, |base| + 1, k), after, slots, |nodes|,
                  |CompileSplit(ordinary, st, after, nodes).nodes|, k, m)
    decreases k, 1, st, 3
  {
    hide ReachIn, Step, Exec, CompileSplit, Compile, CompileElse, ExecWhile;
    var g := Graph(env, f);
    var header := |nodes| + 1;
    LoopIsPlaced(g, ordinary, st, after, nodes);
    var started := if Bounded(g, header) then slots[header := Count(0)] else slots;
    assert Dispatch(env, g, Frame(f, |nodes|, s, slots), outcome) == Goto(Frame(f, header, s, started));
    LoopShape(st);
    n, m := SimLoop(env, base, f, ordinary, st, after, nodes, 0, s, started, outcome, k);
    var hi := |CompileSplit(ordinary, st, after, nodes).nodes|;
    LandsWider(env, base, f, ExecStmt(env.p, st, s, |base| + 1, k), after, slots, started, |nodes|, hi, |nodes|, hi, k,
               k, m);
  }

  lemma LoopShape(st: Stmt)
    requires Shaped(st) && Splits(st) && (st.While? || st.Foreach?)
    ensures ShapedBlock(st.body) && (st.While? && st.hasElse ==> ShapedBlock(st.els))
  {
    if Plain(st) {
      PlainStaysWhole(st);
    }
  }

  lemma {:induction false} SimLoop(env: Env, base: seq<Frame>, f: string, ordinary: seq<Stmt>, st: Stmt, after: nat,
                                   nodes: Nodes, done: nat, s: Store, slots: Slots, outcome: Value, k: nat)
    returns (n: nat, m: Machine)
    requires Ready(env, f) && st.While? && ShapedBlock(st.body) && (st.hasElse ==> ShapedBlock(st.els))
    requires LoopNodes(Graph(env, f), ordinary, st, after, nodes) && Counts(st, slots, |nodes| + 1, done)
    requires Answers(ExecWhile(env.p, st, done, s, |base| + 1, k))
    ensures ReachIn(env, At(base, f, |nodes| + 1, s, slots, outcome), base, m, n)
    ensures Lands(env, base, f, ExecWhile(env.p, st, done, s, |base| + 1, k), after, slots, |nodes|,
                  |Compile(st.body, |nodes| + 2,
                           CompileElse(st, after, WhileStart(ordinary, st, after, nodes)).nodes).nodes|, k, m)
    decreases k, 1, st, 2
  {
    hide ReachIn, Step, Exec, Compile, Lands, StepFrame, LoopNodes;
    var header := |nodes| + 1;
    var exhausted := CompileElse(st, after, WhileStart(ordinary, st, after, nodes));
    var inside := Compile(st.body, header + 1, exhausted.nodes);
    var frame := Frame(f, header, s, slots);
    var o := ExecWhile(env.p, st, done, s, |base| + 1, k);
    LoopParts(Graph(env, f), ordinary, st, after, nodes);
    HeaderStep(env, f, ordinary, st, after, nodes, done, s, slots, outcome);
    var next := Perform(base, StepFrame(env, frame, outcome), outcome);
    if Pure(st.c, s) == Some(Bool(false)) {
      n, m := 0, next;
      ReachHere(env, next, base);
      LandsHere(env, base, f, s, after, slots, outcome, |nodes|, |inside.nodes|, k);
    } else if st.bound.Some? && done >= st.bound.value {
      if st.hasElse {
        n, m := SimBlock(env, base, f, st.els, after, WhileStart(ordinary, st, after, nodes), s, slots, outcome, k - 1);
        LandsWider(env, base, f, o, after, slots, slots, header + 2, |exhausted.nodes|, |nodes|, |inside.nodes|, k - 1,
                   k, m);
      } else {
        n, m := 0, next;
        ReachHere(env, next, base);
        LandsHere(env, base, f, s, after, slots, outcome, |nodes|, |inside.nodes|, k);
      }
    } else {
      n, m := SimBlock(env, base, f, st.body, header + 1, exhausted.nodes, s, slots, outcome, k - 1);
      var body := Exec(env.p, st.body, s, |base| + 1, k - 1);
      if m != Stalled && body.Normal? {
        var n2, m2 := SimBack(env, base, f, ordinary, st, after, nodes, done, body.s, slots, k, m);
        ReachJoins(env, next, m, m2, base, n, n2);
        n, m := n + n2, m2;
      } else {
        StopsInBody(env, base, f, body, o, header + 1, after, slots, |exhausted.nodes|, |inside.nodes|, |nodes|, k, m);
      }
    }
    StepThen(env, base, frame, outcome, next, m, n);
    n := n + 1;
  }

  /** A body that returns, or runs out of native fuel, is the end of the loop. */
  lemma StopsInBody(env: Env, base: seq<Frame>, f: string, body: Out, o: Out, back: nat, after: nat, slots: Slots,
                    lo: nat, hi: nat, lo': nat, k: nat, m: Machine)
    requires k > 0 && lo' <= lo && Answers(o) && Lands(env, base, f, body, back, slots, lo, hi, k - 1, m)
    requires body.Ret? ==> o == body
    requires m == Stalled || !body.Normal?
    ensures Lands(env, base, f, o, after, slots, lo', hi, k, m)
  {
  }

  lemma LandsHere(env: Env, base: seq<Frame>, f: string, s: Store, next: nat, slots: Slots, outcome: Value, lo: nat,
                  hi: nat, k: nat)
    ensures Lands(env, base, f, Normal(s), next, slots, lo, hi, k, At(base, f, next, s, slots, outcome))
  {
  }

  lemma LoopParts(g: Nodes, ordinary: seq<Stmt>, st: Stmt, after: nat, nodes: Nodes)
    requires st.While? && LoopNodes(g, ordinary, st, after, nodes)
    ensures var exhausted := CompileElse(st, after, WhileStart(ordinary, st, after, nodes));
            && In(g, Compile(st.body, |nodes| + 2, exhausted.nodes).nodes, |exhausted.nodes|)
            && In(g, exhausted.nodes, |nodes| + 3) && |WhileStart(ordinary, st, after, nodes)| == |nodes| + 3
  {
    hide Compile;
  }

  /** The header's state: condition first, then the bound. */
  lemma HeaderStep(env: Env, f: string, ordinary: seq<Stmt>, st: Stmt, after: nat, nodes: Nodes, done: nat,
                   s: Store, slots: Slots, outcome: Value)
    requires Ready(env, f) && st.While? && LoopNodes(Graph(env, f), ordinary, st, after, nodes)
             && Counts(st, slots, |nodes| + 1, done)
    ensures var exhausted := CompileElse(st, after, WhileStart(ordinary, st, after, nodes));
            var frame := Frame(f, |nodes| + 1, s, slots);
            StepFrame(env, frame, outcome) ==
            match Pure(st.c, s)
            case Some(Bool(false)) => Goto(frame.(node := after))
            case Some(Bool(true)) =>
              if st.bound.Some? && done >= st.bound.value then
                if st.hasElse then Goto(frame.(node := exhausted.entry))
                else if env.p.verify then Abort else Goto(frame.(node := after))
              else Goto(frame.(node := Compile(st.body, |nodes| + 2, exhausted.nodes).entry))
            case _ => Abort
  {
    hide Compile, CompileElse, Pure;
    StateStep(env, f, |nodes| + 1, s, slots, outcome);
  }

  /** From the backedge of a loop through its remaining iterations. */
  lemma {:induction false} SimBack(env: Env, base: seq<Frame>, f: string, ordinary: seq<Stmt>, st: Stmt, after: nat,
                                   nodes: Nodes, done: nat, s: Store, slots: Slots, k: nat, from: Machine)
    returns (n: nat, m: Machine)
    requires Ready(env, f) && st.While? && ShapedBlock(st.body) && (st.hasElse ==> ShapedBlock(st.els)) && k > 0
    requires LoopNodes(Graph(env, f), ordinary, st, after, nodes) && Counts(st, slots, |nodes| + 1, done)
    requires from != Stalled
    requires var exhausted := CompileElse(st, after, WhileStart(ordinary, st, after, nodes));
             Lands(env, base, f, Normal(s), |nodes| + 2, slots, |exhausted.nodes|,
                   |Compile(st.body, |nodes| + 2, exhausted.nodes).nodes|, k - 1, from)
    requires Answers(ExecWhile(env.p, st, done + 1, s, |base| + 1, k - 1))
    ensures ReachIn(env, from, base, m, n)
    ensures Lands(env, base, f, ExecWhile(env.p, st, done + 1, s, |base| + 1, k - 1), after, slots, |nodes|,
                  |Compile(st.body, |nodes| + 2,
                           CompileElse(st, after, WhileStart(ordinary, st, after, nodes)).nodes).nodes|, k, m)
    decreases k, 0, st, 2
  {
    hide ReachIn, Step, Exec, ExecWhile, Compile, CompileElse;
    var header := |nodes| + 1;
    var g := Graph(env, f);
    var top := from.frames[|base|];
    assert from.frames == base + [top];
    assert top == Frame(f, header + 1, s, top.slots);
    StateStep(env, f, header + 1, s, top.slots, from.outcome);
    var again := if Bounded(g, header) then top.slots[header := Count(CountAt(top.slots, header) + 1)] else top.slots;
    assert header in slots <==> header in top.slots;
    assert StepFrame(env, top, from.outcome) == Goto(Frame(f, header, s, again));
    n, m := SimLoop(env, base, f, ordinary, st, after, nodes, done + 1, s, again, from.outcome, k - 1);
    StepThen(env, base, top, from.outcome, At(base, f, header, s, again, from.outcome), m, n);
    var hi := |Compile(st.body, header + 1,
                       CompileElse(st, after, WhileStart(ordinary, st, after, nodes)).nodes).nodes|;
    LandsWider(env, base, f, ExecWhile(env.p, st, done + 1, s, |base| + 1, k - 1), after, slots, again,
      |nodes|, hi, |nodes|, hi, k - 1, k, m);
    n := n + 1;
  }

  // ---------------------------------------------------------------------------------------------
  // Iteration

  /** What a cursor still has to deliver. */
  function Pending(c: Cursor): Iteration
    requires ValidCursor(c)
  {
    match c
    case RangeAt(cursor, end, step, descending) => Fixed(IntValues(RangeCursor.Items(cursor, end, step, descending)))
    case CopyAt(elements, i) => Fixed(elements[i..])
    case NameAt(x, i) => InPlace(x, i)
  }

  predicate ValidCursor(c: Cursor) {
    match c
    case RangeAt(cursor, end, step, _) =>
      && step > 0 && RangeCursor.InElement(true, cursor) && RangeCursor.InElement(true, end)
        && RangeCursor.InElement(true, step)
    case CopyAt(elements, i) => i <= |elements|
    case NameAt(_, _) => true
    case LostAt(_, _) => false
  }

  lemma OpenedCursor(src: Source, s: Store)
    ensures OpenCursor(src, s).Some? <==> Open(src, s).Some?
    ensures OpenCursor(src, s).Some? ==>
              ValidCursor(OpenCursor(src, s).value) && Pending(OpenCursor(src, s).value) == Open(src, s).value
  {
    if src.Elements? {
      match Pure(src.e, s) {
        case Some(Arr(items)) => assert items[0..] == items;
        case _ =>
      }
    }
  }

  /** A cursor delivers and advances like the iteration it stands for. */
  lemma CursorDelivers(c: Cursor, s: Store)
    requires ValidCursor(c)
    ensures CursorItem(c, s) == Current(Pending(c), s) && !Dangles(c, s)
    ensures CursorItem(c, s).Some? ==> ValidCursor(CursorNext(c)) && Pending(CursorNext(c)) == Following(Pending(c))
  {
    match c
    case RangeAt(cursor, end, step, descending) =>
      if RangeCursor.Before(cursor, end, descending) {
        RangeCursor.AdvanceIsExact(true, cursor, end, step, descending);
        var rest := RangeCursor.Items(RangeCursor.Advance(cursor, end, step, descending), end, step, descending);
        assert ([cursor] + rest)[1..] == rest;
        assert IntValues([cursor] + rest) == [Int(cursor)] + IntValues(rest);
        assert ([Int(cursor)] + IntValues(rest))[1..] == IntValues(rest);
      }
    case CopyAt(elements, i) =>
      if i < |elements| {
        assert elements[i..][1..] == elements[i + 1..];
      }
    case NameAt(_, _) =>
  }

  ghost predicate EachNodes(g: Nodes, ordinary: seq<Stmt>, st: Stmt, after: nat, nodes: Nodes)
    requires st.Foreach?
  {
    var n := |nodes|;
    var started := ForeachStart(ordinary, st, after, nodes);
    var inside := Compile(st.body, n + 2, started);
    && In(g, inside.nodes, n + 3)
    && |g| > n + 2
    && g[n] == ForeachInit(ordinary, st.src, n + 1)
    && g[n + 1] == ForeachHeader(st.item, st.src, inside.entry, after)
    && g[n + 2] == ForeachContinue(n + 1)
  }

  lemma EachIsPlaced(g: Nodes, ordinary: seq<Stmt>, st: Stmt, after: nat, nodes: Nodes)
    requires st.Foreach? && Splits(st) && In(g, CompileSplit(ordinary, st, after, nodes).nodes, |nodes|)
    ensures EachNodes(g, ordinary, st, after, nodes)
    ensures CompileSplit(ordinary, st, after, nodes).entry == |nodes|
    ensures |CompileSplit(ordinary, st, after, nodes).nodes| ==
            |Compile(st.body, |nodes| + 2, ForeachStart(ordinary, st, after, nodes)).nodes|
  {
    hide Compile;
    var n := |nodes|;
    var started := ForeachStart(ordinary, st, after, nodes);
    var inside := Compile(st.body, n + 2, started);
    var built := CompileSplit(ordinary, st, after, nodes).nodes;
    assert built == inside.nodes[n + 1 := ForeachHeader(st.item, st.src, inside.entry, after)];
    assert built[n] == inside.nodes[n] == started[n];
    assert built[n + 2] == inside.nodes[n + 2] == started[n + 2];
    assert g[n] == built[n] && g[n + 1] == built[n + 1] && g[n + 2] == built[n + 2];
    forall i | n + 3 <= i < |inside.nodes| ensures g[i] == inside.nodes[i] {
      assert g[i] == built[i];
    }
  }

  lemma {:induction false} SimForeach(env: Env, base: seq<Frame>, f: string, ordinary: seq<Stmt>, st: Stmt, after: nat,
                                      nodes: Nodes, s: Store, slots: Slots, outcome: Value, k: nat)
    returns (n: nat, m: Machine)
    requires Ready(env, f) && Shaped(st) && Splits(st) && st.Foreach?
    requires In(Graph(env, f), CompileSplit(ordinary, st, after, nodes).nodes, |nodes|)
    requires Answers(ExecStmt(env.p, st, s, |base| + 1, k))
    requires CompileSplit(ordinary, st, after, nodes).entry < |Graph(env, f)|
    ensures ReachIn(env, Perform(base, Dispatch(env, Graph(env, f),
                    Frame(f, CompileSplit(ordinary, st, after, nodes).entry, s, slots), outcome), outcome), base, m, n)
    ensures Lands(env, base, f, ExecStmt(env.p, st, s, |base| + 1, k), after, slots, |nodes|,
                  |CompileSplit(ordinary, st, after, nodes).nodes|, k, m)
    decreases k, 1, st, 3
  {
    hide ReachIn, Step, Exec, CompileSplit, Compile, ExecFor, Open, OpenCursor;
    var g := Graph(env, f);
    var header := |nodes| + 1;
    EachIsPlaced(g, ordinary, st, after, nodes);
    OpenedCursor(st.src, s);
    var started := slots[header := Iterate(OpenCursor(st.src, s).value)];
    assert Dispatch(env, g, Frame(f, |nodes|, s, slots), outcome) == Goto(Frame(f, header, s, started));
    LoopShape(st);
    n, m := SimEach(env, base, f, ordinary, st, after, nodes, s, started, outcome, k);
    var hi := |CompileSplit(ordinary, st, after, nodes).nodes|;
    LandsWider(env, base, f, ExecStmt(env.p, st, s, |base| + 1, k), after, slots, started, |nodes|, hi, |nodes|, hi, k,
               k, m);
  }

  predicate HoldsCursor(slots: Slots, header: nat) {
    header in slots && slots[header].Iterate? && ValidCursor(slots[header].c)
  }

  lemma {:induction false} SimEach(env: Env, base: seq<Frame>, f: string, ordinary: seq<Stmt>, st: Stmt, after: nat,
                                   nodes: Nodes, s: Store, slots: Slots, outcome: Value, k: nat)
    returns (n: nat, m: Machine)
    requires Ready(env, f) && st.Foreach? && ShapedBlock(st.body)
    requires EachNodes(Graph(env, f), ordinary, st, after, nodes) && HoldsCursor(slots, |nodes| + 1)
    requires Answers(ExecFor(env.p, st, Pending(slots[|nodes| + 1].c), s, |base| + 1, k))
    ensures ReachIn(env, At(base, f, |nodes| + 1, s, slots, outcome), base, m, n)
    ensures Lands(env, base, f, ExecFor(env.p, st, Pending(slots[|nodes| + 1].c), s, |base| + 1, k), after, slots,
                  |nodes|,
                  |Compile(st.body, |nodes| + 2, ForeachStart(ordinary, st, after, nodes)).nodes|, k, m)
    decreases k, 1, st, 2
  {
    hide ReachIn, Step, Exec, Compile, Pending, CursorItem, CursorNext, Lands, StepFrame, EachNodes;
    var header := |nodes| + 1;
    var started := ForeachStart(ordinary, st, after, nodes);
    var inside := Compile(st.body, header + 1, started);
    var frame := Frame(f, header, s, slots);
    var c := slots[header].c;
    var o := ExecFor(env.p, st, Pending(c), s, |base| + 1, k);
    CursorDelivers(c, s);
    EachStep(env, f, ordinary, st, after, nodes, s, slots, outcome);
    var next := Perform(base, StepFrame(env, frame, outcome), outcome);
    match CursorItem(c, s) {
      case None =>
        n, m := 0, next;
        ReachHere(env, next, base);
        LandsHere(env, base, f, s, after, slots, outcome, |nodes|, |inside.nodes|, k);
      case Some(v) =>
        var bound := s[st.item := v];
        n, m := SimBlock(env, base, f, st.body, header + 1, started, bound, slots, outcome, k - 1);
        var body := Exec(env.p, st.body, bound, |base| + 1, k - 1);
        if m != Stalled && body.Normal? {
          var n2, m2 := SimContinue(env, base, f, ordinary, st, after, nodes, body.s, slots, k, m);
          ReachJoins(env, next, m, m2, base, n, n2);
          n, m := n + n2, m2;
        } else {
          StopsInBody(env, base, f, body, o, header + 1, after, slots, |nodes| + 3, |inside.nodes|, |nodes|, k, m);
        }
    }
    StepThen(env, base, frame, outcome, next, m, n);
    n := n + 1;
  }

  /** The header's state: the next item is bound, or the loop is left. */
  lemma EachStep(env: Env, f: string, ordinary: seq<Stmt>, st: Stmt, after: nat, nodes: Nodes, s: Store, slots: Slots,
                 outcome: Value)
    requires Ready(env, f) && st.Foreach? && EachNodes(Graph(env, f), ordinary, st, after, nodes)
             && HoldsCursor(slots, |nodes| + 1)
    ensures var inside := Compile(st.body, |nodes| + 2, ForeachStart(ordinary, st, after, nodes));
            var frame := Frame(f, |nodes| + 1, s, slots);
            && In(Graph(env, f), inside.nodes, |nodes| + 3) && |ForeachStart(ordinary, st, after, nodes)| == |nodes| + 3
            && StepFrame(env, frame, outcome) ==
               match CursorItem(slots[|nodes| + 1].c, s)
               case None => Goto(frame.(node := after))
               case Some(v) => Goto(frame.(node := inside.entry, locals := s[st.item := v]))
  {
    hide Compile, CursorItem;
    StateStep(env, f, |nodes| + 1, s, slots, outcome);
  }

  /** From the continue state of an iteration through its remaining items. */
  lemma {:induction false} SimContinue(env: Env, base: seq<Frame>, f: string, ordinary: seq<Stmt>, st: Stmt, after: nat,
                                       nodes: Nodes, s: Store, slots: Slots, k: nat, from: Machine)
    returns (n: nat, m: Machine)
    requires Ready(env, f) && st.Foreach? && ShapedBlock(st.body) && k > 0
    requires EachNodes(Graph(env, f), ordinary, st, after, nodes) && HoldsCursor(slots, |nodes| + 1)
    requires ValidCursor(CursorNext(slots[|nodes| + 1].c)) && from != Stalled
    requires Lands(env, base, f, Normal(s), |nodes| + 2, slots, |nodes| + 3,
                   |Compile(st.body, |nodes| + 2, ForeachStart(ordinary, st, after, nodes)).nodes|, k - 1, from)
    requires Answers(ExecFor(env.p, st, Pending(CursorNext(slots[|nodes| + 1].c)), s, |base| + 1, k - 1))
    ensures ReachIn(env, from, base, m, n)
    ensures Lands(env, base, f, ExecFor(env.p, st, Pending(CursorNext(slots[|nodes| + 1].c)), s, |base| + 1, k - 1),
                  after, slots,
                  |nodes|, |Compile(st.body, |nodes| + 2, ForeachStart(ordinary, st, after, nodes)).nodes|, k, m)
    decreases k, 0, st, 2
  {
    hide ReachIn, Step, Exec, ExecFor, Compile, Pending, CursorNext;
    var header := |nodes| + 1;
    var top := from.frames[|base|];
    assert from.frames == base + [top];
    assert top == Frame(f, header + 1, s, top.slots);
    StateStep(env, f, header + 1, s, top.slots, from.outcome);
    assert header in slots <==> header in top.slots;
    assert top.slots[header] == slots[header];
    var again := top.slots[header := Iterate(CursorNext(slots[header].c))];
    assert StepFrame(env, top, from.outcome) == Goto(Frame(f, header, s, again));
    n, m := SimEach(env, base, f, ordinary, st, after, nodes, s, again, from.outcome, k - 1);
    StepThen(env, base, top, from.outcome, At(base, f, header, s, again, from.outcome), m, n);
    var hi := |Compile(st.body, header + 1, ForeachStart(ordinary, st, after, nodes)).nodes|;
    LandsWider(env, base, f, ExecFor(env.p, st, Pending(CursorNext(slots[header].c)), s, |base| + 1, k - 1), after,
               slots, again,
      |nodes|, hi, |nodes|, hi, k - 1, k, m);
    n := n + 1;
  }
}
