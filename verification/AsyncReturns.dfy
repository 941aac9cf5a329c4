/**
 A `return` nested in a statement that stays within one state.  It is lowered as a plain C return, which
 leaves the step function but neither the state nor the operation.
 */
module AsyncReturns {
  import opened Wrappers
  import opened AsyncSyntax
  import opened AsyncDirect
  import opened AsyncGraph
  import opened AsyncMachine
  import opened AsyncNative
  import opened AsyncRuns

  // ---------------------------------------------------------------------------------------------
  // Statements that await nothing

  /** No await at any depth; returns may stand anywhere. */
  predicate AwaitsNothing(st: Stmt) {
    match st
    case Decl(_, e) => AwaitFree(e)
    case Assign(_, e) => AwaitFree(e)
    case Do(e) => AwaitFree(e)
    case Assert(c) => AwaitFree(c)
    case Return(r) => r.Some? ==> AwaitFree(r.value)
    case If(c, t, f) => AwaitFree(c) && AwaitNothing(t) && AwaitNothing(f)
    case Match(e, arms) => AwaitFree(e) && ArmsAwaitNothing(arms)
    case While(c, _, b, h, f) => AwaitFree(c) && AwaitNothing(b) && (h ==> AwaitNothing(f))
    case Foreach(_, src, b) => SourceAwaitFree(src) && AwaitNothing(b)
    case Block(b) => AwaitNothing(b)
  }

  predicate AwaitNothing(b: seq<Stmt>) {
    b == [] || (AwaitsNothing(b[0]) && AwaitNothing(b[1..]))
  }

  predicate ArmsAwaitNothing(arms: seq<Arm>) {
    arms == [] || (AwaitNothing(arms[0].body) && ArmsAwaitNothing(arms[1..]))
  }

  // ---------------------------------------------------------------------------------------------
  // Which `return` is reached

  /** Following the guards from `s`, a `return` inside the statement is reached. */
  predicate Reaches(p: Program, st: Stmt, s: Store, k: nat)
    decreases k, 1, st, 2
  {
    match st
    case Return(r) => r.Some? ==> Pure(r.value, s).Some?
    case If(c, t, f) =>
      (match Pure(c, s) case Some(Bool(b)) => ReachesAny(p, if b then t else f, s, k) case _ => false)
    case Match(e, arms) =>
      (match Pure(e, s) case Some(Variant(tag, payload)) => ReachesArm(p, arms, tag, payload, s, k) case _ => false)
    case While(_, _, _, _, _) => ReachesWhile(p, st, 0, s, k)
    case Foreach(_, src, _) => Open(src, s).Some? && ReachesFor(p, st, Open(src, s).value, s, k)
    case Block(b) => ReachesAny(p, b, s, k)
    case _ => false
  }

  predicate ReachesAny(p: Program, b: seq<Stmt>, s: Store, k: nat)
    decreases k, 1, b, 1
  {
    b != [] &&
    (|| Reaches(p, b[0], s, k)
     || (match ExecStmt(p, b[0], s, CAPACITY, k) case Normal(s1) => ReachesAny(p, b[1..], s1, k) case _ => false))
  }

  predicate ReachesArm(p: Program, arms: seq<Arm>, tag: string, payload: seq<Value>, s: Store, k: nat)
    decreases k, 1, arms, 3
  {
    arms != [] &&
    if arms[0].tag == tag
    then |arms[0].binds| == |payload| && ReachesAny(p, arms[0].body, s + Bind(arms[0].binds, payload), k)
    else ReachesArm(p, arms[1..], tag, payload, s, k)
  }

  predicate ReachesWhile(p: Program, w: Stmt, done: nat, s: Store, k: nat)
    requires w.While?
    decreases k, 1, w, 1
  {
    k > 0 && Pure(w.c, s) == Some(Bool(true)) &&
    if w.bound.Some? && done >= w.bound.value then w.hasElse && ReachesAny(p, w.els, s, k - 1)
    else
      || ReachesAny(p, w.body, s, k - 1)
      || (match Exec(p, w.body, s, CAPACITY, k - 1)
          case Normal(s1) => ReachesWhile(p, w, done + 1, s1, k - 1)
          case _ => false)
  }

  predicate ReachesFor(p: Program, f: Stmt, it: Iteration, s: Store, k: nat)
    requires f.Foreach?
    decreases k, 1, f, 1
  {
    k > 0 && Current(it, s).Some? &&
    var inner := s[f.item := Current(it, s).value];
    || ReachesAny(p, f.body, inner, k - 1)
    || (match Exec(p, f.body, inner, CAPACITY, k - 1)
        case Normal(s1) => ReachesFor(p, f, Following(it), s1, k - 1)
        case _ => false)
  }

  /** Of the statements collected in a node, one that is no `return` itself reaches one inside. */
  predicate NestedReached(p: Program, b: seq<Stmt>, s: Store, k: nat)
    decreases b
  {
    b != [] && !b[0].Return? &&
    (|| Reaches(p, b[0], s, k)
     || (match ExecStmt(p, b[0], s, CAPACITY, k) case Normal(s1) => NestedReached(p, b[1..], s1, k) case _ => false))
  }

  // ---------------------------------------------------------------------------------------------
  // Execution returns exactly then

  /** Without awaits the number of active frames does not matter. */
  predicate Returns(o: Out, deep: Out, reached: bool) {
    o == deep && (o.Ret? <==> reached)
  }

  lemma {:induction false} AnyReturns(p: Program, b: seq<Stmt>, s: Store, d: nat, k: nat)
    requires AwaitNothing(b)
    ensures Returns(Exec(p, b, s, d, k), Exec(p, b, s, CAPACITY, k), ReachesAny(p, b, s, k))
    decreases k, 1, b, 1
  {
    hide ExecStmt, Reaches;
    if b != [] {
      StmtReturns(p, b[0], s, d, k);
      match ExecStmt(p, b[0], s, d, k) {
        case Normal(s1) => AnyReturns(p, b[1..], s1, d, k);
        case _ =>
      }
    }
  }

  lemma {:induction false} StmtReturns(p: Program, st: Stmt, s: Store, d: nat, k: nat)
    requires AwaitsNothing(st)
    ensures Returns(ExecStmt(p, st, s, d, k), ExecStmt(p, st, s, CAPACITY, k), Reaches(p, st, s, k))
    decreases k, 1, st, 2
  {
    hide Exec, ExecArms, ExecWhile, ExecFor, ReachesAny, ReachesArm, ReachesWhile, ReachesFor, Pure, Open;
    match st
    case If(c, t, f) =>
      match Pure(c, s) {
        case Some(Bool(b)) => AnyReturns(p, if b then t else f, s, d, k);
        case _ =>
      }
    case Match(e, arms) =>
      match Pure(e, s) {
        case Some(Variant(tag, payload)) => ArmReturns(p, arms, tag, payload, s, d, k);
        case _ =>
      }
    case While(_, _, _, _, _) => WhileReturns(p, st, 0, s, d, k);
    case Foreach(_, src, _) =>
      if Open(src, s).Some? {
        ForReturns(p, st, Open(src, s).value, s, d, k);
      }
    case Block(b) => AnyReturns(p, b, s, d, k);
    case _ =>
  }

  lemma {:induction false} ArmReturns(p: Program, arms: seq<Arm>, tag: string, payload: seq<Value>, s: Store, d: nat,
                                      k: nat)
    requires ArmsAwaitNothing(arms)
    ensures Returns(ExecArms(p, arms, tag, payload, s, d, k), ExecArms(p, arms, tag, payload, s, CAPACITY, k),
                    ReachesArm(p, arms, tag, payload, s, k))
    decreases k, 1, arms, 3
  {
    hide Exec, ReachesAny;
    if arms != [] {
      if arms[0].tag == tag {
        if |arms[0].binds| == |payload| {
          AnyReturns(p, arms[0].body, s + Bind(arms[0].binds, payload), d, k);
        }
      } else {
        ArmReturns(p, arms[1..], tag, payload, s, d, k);
      }
    }
  }

  lemma {:induction false} WhileReturns(p: Program, w: Stmt, done: nat, s: Store, d: nat, k: nat)
    requires w.While? && AwaitsNothing(w)
    ensures Returns(ExecWhile(p, w, done, s, d, k), ExecWhile(p, w, done, s, CAPACITY, k),
                    ReachesWhile(p, w, done, s, k))
    decreases k, 1, w, 1
  {
    hide Exec, ReachesAny, Pure;
    if k > 0 && Pure(w.c, s) == Some(Bool(true)) {
      if w.bound.Some? && done >= w.bound.value {
        if w.hasElse {
          AnyReturns(p, w.els, s, d, k - 1);
        }
      } else {
        AnyReturns(p, w.body, s, d, k - 1);
        match Exec(p, w.body, s, d, k - 1) {
          case Normal(s1) => WhileReturns(p, w, done + 1, s1, d, k - 1);
          case _ =>
        }
      }
    }
  }

  lemma {:induction false} ForReturns(p: Program, f: Stmt, it: Iteration, s: Store, d: nat, k: nat)
    requires f.Foreach? && AwaitsNothing(f)
    ensures Returns(ExecFor(p, f, it, s, d, k), ExecFor(p, f, it, s, CAPACITY, k), ReachesFor(p, f, it, s, k))
    decreases k, 1, f, 1
  {
    hide Exec, ReachesAny;
    if k > 0 && Current(it, s).Some? {
      var inner := s[f.item := Current(it, s).value];
      AnyReturns(p, f.body, inner, d, k - 1);
      match Exec(p, f.body, inner, d, k - 1) {
        case Normal(s1) => ForReturns(p, f, Following(it), s1, d, k - 1);
        case _ =>
      }
    }
  }

  /** A node's own statements do what direct evaluation does exactly when no nested `return` is reached. */
  lemma {:induction false} NodeAgreesIff(p: Program, b: seq<Stmt>, s: Store, d: nat, k: nat)
    requires AwaitNothing(b)
    ensures SameOutcome(Exec(p, b, s, d, k), RunOrdinary(p, b, s, k)) <==> !NestedReached(p, b, s, k)
    ensures RunOrdinary(p, b, s, k).RawReturn? <==> NestedReached(p, b, s, k)
    decreases b
  {
    hide ExecStmt, Reaches;
    if b != [] {
      if b[0].Return? {
        ReturnEvaluates(p, b[0], s, d, k);
      } else {
        StmtReturns(p, b[0], s, d, k);
        match ExecStmt(p, b[0], s, d, k) {
          case Normal(s1) => NodeAgreesIff(p, b[1..], s1, d, k);
          case _ =>
        }
      }
    }
  }

  // ---------------------------------------------------------------------------------------------
  // The state is entered again

  /** The node's statements, for a frame at a node that awaits nothing itself. */
  predicate Quiet(env: Env, f: Frame) {
    && f.fn in env.code && f.fn in env.p.fns && f.node < |env.code[f.fn].nodes|
    && AwaitNothing(Statements(env.code[f.fn].nodes[f.node]))
  }

  predicate Blocked(env: Env, f: Frame) {
    Quiet(env, f) && NestedReached(env.p, Statements(env.code[f.fn].nodes[f.node]), f.locals, env.fuel)
  }

  /** The locals that survive a nested `return`, or the locals as they are where none is reached. */
  function Survivors(env: Env, f: Frame): Store {
    if !Quiet(env, f) then f.locals
    else
      match RunOrdinary(env.p, Statements(env.code[f.fn].nodes[f.node]), f.locals, env.fuel)
      case RawReturn(s) => Trim(env.code[f.fn].keep, s)
      case _ => f.locals
  }

  /** The frame after `n` entries of its state. */
  function Entered(env: Env, f: Frame, n: nat): Frame
    decreases n
  {
    if n == 0 then f else Entered(env, f.(locals := Survivors(env, f)), n - 1)
  }

  /**
   A state is left where it stands, with the same fields but for locals, exactly when a nested `return` is
   reached.
   */
  lemma LeavesIff(env: Env, f: Frame, outcome: Value)
    requires Quiet(env, f)
    ensures StepFrame(env, f, outcome).Leave? <==> Blocked(env, f)
    ensures Blocked(env, f) ==> StepFrame(env, f, outcome) == Leave(f.(locals := Survivors(env, f)))
  {
    hide RunOrdinary, NestedReached, Statements;
    var unit := env.code[f.fn];
    var b := Statements(unit.nodes[f.node]);
    NodeAgreesIff(env.p, b, f.locals, 0, env.fuel);
    var r := RunOrdinary(env.p, b, f.locals, env.fuel);
    if r.Ran? {
      NeverLeaves(env, unit.nodes, f.(locals := r.s), outcome);
    }
  }

  lemma NeverLeaves(env: Env, nodes: Nodes, f: Frame, outcome: Value)
    requires f.fn in env.p.fns && f.node < |nodes|
    ensures !Dispatch(env, nodes, f, outcome).Leave?
  {
    if nodes[f.node].MatchDispatch? {
      var v := Pure(nodes[f.node].subject, f.locals);
      if v.Some? && v.value.Variant? {
        SelectNeverLeaves(nodes[f.node].cases, v.value.name, v.value.payload, f);
      }
    }
  }

  lemma {:induction false} SelectNeverLeaves(cases: seq<Case>, tag: string, payload: seq<Value>, f: Frame)
    ensures !Select(cases, tag, payload, f).Leave?
  {
    if cases != [] {
      SelectNeverLeaves(cases[1..], tag, payload, f);
    }
  }

  /**
   As long as every entry reaches a nested `return`, the operation stays in the state and changes nothing but
   locals.
   */
  lemma {:induction false} EntersAgain(env: Env, below: seq<Frame>, f: Frame, outcome: Value, n: nat)
    requires forall i: nat :: i < n ==> Blocked(env, Entered(env, f, i))
    ensures Run(env, Running(below + [f], outcome), n) == Running(below + [Entered(env, f, n)], outcome)
    decreases n
  {
    hide StepFrame, Blocked;
    if n > 0 {
      assert Blocked(env, Entered(env, f, 0));
      BlockedIsQuiet(env, f);
      LeavesIff(env, f, outcome);
      var g := f.(locals := Survivors(env, f));
      assert (below + [f])[..|below|] == below;
      assert Step(env, Running(below + [f], outcome)) == Running(below + [g], outcome);
      forall i: nat | i < n - 1 ensures Blocked(env, Entered(env, g, i)) {
        assert Entered(env, f, i + 1) == Entered(env, g, i);
      }
      EntersAgain(env, below, g, outcome, n - 1);
    }
  }

  lemma BlockedIsQuiet(env: Env, f: Frame)
    requires Blocked(env, f)
    ensures Quiet(env, f)
  {
  }

  lemma {:induction false} FirstUnblocked(env: Env, f: Frame, i: nat) returns (n: nat)
    requires !Blocked(env, Entered(env, f, i))
    ensures n <= i && !Blocked(env, Entered(env, f, n)) && forall j: nat :: j < n ==> Blocked(env, Entered(env, f, j))
    decreases i
  {
    hide Blocked, Entered;
    n := i;
    if j: nat :| j < i && !Blocked(env, Entered(env, f, j)) {
      n := FirstUnblocked(env, f, j);
    }
  }

  lemma {:induction false} EnteredQuiet(env: Env, f: Frame, n: nat)
    requires Quiet(env, f)
    ensures Quiet(env, Entered(env, f, n))
    decreases n
  {
    if n > 0 {
      EnteredQuiet(env, f.(locals := Survivors(env, f)), n - 1);
    }
  }

  /** The frame is on top of the same frames, in the same state. */
  predicate Holding(m: Machine, below: seq<Frame>, f: Frame, outcome: Value) {
    && m.Running? && |m.frames| == |below| + 1 && m.frames[..|below|] == below && m.outcome == outcome
    && m.frames[|below|] == f.(locals := m.frames[|below|].locals)
  }

  /** Never does the state do what it stands for: each time it is entered it is left by a nested `return`. */
  ghost predicate OnlyLeaves(env: Env, below: seq<Frame>, f: Frame, outcome: Value) {
    forall n: nat ::
      var m := Run(env, Running(below + [f], outcome), n);
      Holding(m, below, f, outcome) && StepFrame(env, m.frames[|below|], outcome).Leave?
  }

  lemma {:induction false} EnteredKeeps(env: Env, f: Frame, n: nat)
    ensures Entered(env, f, n) == f.(locals := Entered(env, f, n).locals)
    decreases n
  {
    if n > 0 {
      EnteredKeeps(env, f.(locals := Survivors(env, f)), n - 1);
    }
  }

  /**
   An operation is caught in a state exactly when every entry, with the locals the last one left, reaches a
   nested `return`.
   */
  lemma CaughtIff(env: Env, below: seq<Frame>, f: Frame, outcome: Value)
    requires Quiet(env, f)
    ensures OnlyLeaves(env, below, f, outcome) <==> forall i: nat :: Blocked(env, Entered(env, f, i))
  {
    hide StepFrame, Blocked, Quiet, Run, Entered;
    if forall i: nat :: Blocked(env, Entered(env, f, i)) {
      forall n: nat ensures var m := Run(env, Running(below + [f], outcome), n);
                            Holding(m, below, f, outcome) && StepFrame(env, m.frames[|below|], outcome).Leave?
      {
        EntersAgain(env, below, f, outcome, n);
        EnteredQuiet(env, f, n);
        EnteredKeeps(env, f, n);
        LeavesIff(env, Entered(env, f, n), outcome);
      }
    }
    if i: nat :| !Blocked(env, Entered(env, f, i)) {
      var n := FirstUnblocked(env, f, i);
      EntersAgain(env, below, f, outcome, n);
      EnteredQuiet(env, f, n);
      LeavesIff(env, Entered(env, f, n), outcome);
      var m := Run(env, Running(below + [f], outcome), n);
      assert m.frames[|below|] == Entered(env, f, n);
    }
  }

  /** Caught, the operation never completes. */
  lemma CaughtNeverCompletes(env: Env, below: seq<Frame>, f: Frame, outcome: Value, n: nat)
    requires OnlyLeaves(env, below, f, outcome)
    ensures !Run(env, Running(below + [f], outcome), n).Completed?
  {
    hide StepFrame, Run;
    assert Holding(Run(env, Running(below + [f], outcome), n), below, f, outcome);
  }

  /** In particular where a nested `return` is reached and the surviving locals are as before. */
  lemma UnchangedIsCaught(env: Env, below: seq<Frame>, f: Frame, outcome: Value)
    requires Blocked(env, f) && Survivors(env, f) == f.locals
    ensures OnlyLeaves(env, below, f, outcome)
  {
    BlockedIsQuiet(env, f);
    CaughtIff(env, below, f, outcome);
    forall i: nat ensures Entered(env, f, i) == f {
      StaysEntered(env, f, i);
    }
  }

  lemma {:induction false} StaysEntered(env: Env, f: Frame, i: nat)
    requires Survivors(env, f) == f.locals
    ensures Entered(env, f, i) == f
    decreases i
  {
    hide Survivors;
    if i > 0 {
      StaysEntered(env, f, i - 1);
    }
  }
}
