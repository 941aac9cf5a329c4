/**
 Where the async lowering departs from direct evaluation: an await behind `and` or `or`, a return
 inside a loop that awaits nothing, and a local used only inside an `if` expression of another state.
 */
module AsyncLimits {
  import opened Wrappers
  import opened AsyncSyntax
  import opened AsyncDirect
  import opened AsyncGraph
  import opened AsyncMachine
  import opened AsyncNative
  import opened AsyncRuns
  import opened AsyncScope
  import opened AsyncFrame
  import opened AsyncEmit
  import opened AsyncPersist
  import opened AsyncCoverage
  import opened AsyncTheorem
  import opened AsyncEndToEnd

  // ---------------------------------------------------------------------------------------------
  // Awaits behind short-circuit operators

  /** Direct evaluation of `e` when its await has outcome `o`. */
  function DirectWith(e: Expr, s: Store, o: EvalOut): EvalOut {
    if AwaitFree(e) then Evaluated(Pure(e, s))
    else
      match e
      case Await(_, _, _) => o
      case Unary(op, x) =>
        (match DirectWith(x, s, o)
         case Val(a) => Evaluated(ApplyUnary(op, a))
         case r => r)
      case Binary(op, l, r) =>
        (match DirectWith(l, s, o)
         case Val(a) =>
           if Decides(op, a) then Val(a)
           else (match DirectWith(r, s, o)
                 case Val(b) => Evaluated(Apply(op, a, b))
                 case q => q)
         case q => q)
      case _ => EvalFail
  }

  /** The lowered order: the await first, the rest with its value. */
  function LoweredWith(e: Expr, s: Store, o: EvalOut): EvalOut {
    match o
    case Val(v) => Evaluated(Resumed(e, s, v))
    case _ => o
  }

  /** `DirectWith` is direct evaluation with the call's own outcome put in. */
  lemma {:induction false} DirectWithCall(p: Program, e: Expr, s: Store, d: nat, k: nat)
    requires OneAwait(e)
    ensures DirectAwait(e).Some? && DirectAwait(e).value.Await?
    ensures Eval(p, e, s, d, k) == DirectWith(e, s, AwaitedCall(p, e, s, d, k))
  {
    hide Call, Pure;
    OneAwaitCall(e);
    match e
    case Unary(_, x) => DirectWithCall(p, x, s, d, k);
    case Binary(_, l, r) =>
      if AwaitFree(l) {
        DirectWithCall(p, r, s, d, k);
      } else {
        DirectWithCall(p, l, s, d, k);
      }
    case _ =>
  }

  /** Evaluating `e` left to right gets as far as its await: nothing before it panics or decides the result. */
  predicate Reached(e: Expr, s: Store) {
    match e
    case Await(_, _, _) => true
    case Unary(_, x) => Reached(x, s)
    case Binary(op, l, r) =>
      if AwaitFree(l) then Pure(l, s).Some? && !Decides(op, Pure(l, s).value) && Reached(r, s) else Reached(l, s)
    case _ => false
  }

  lemma {:induction false} ReachedAgrees(e: Expr, s: Store, o: EvalOut)
    requires OneAwait(e) && AWAITED !in Mentions(e) && Reached(e, s)
    ensures DirectWith(e, s, o) == LoweredWith(e, s, o)
  {
    hide Pure;
    OneAwaitCall(e);
    match e
    case Unary(op, x) =>
      ReachedAgrees(x, s, o);
      if o.Val? {
        ResumedUnary(op, x, s, o.v);
      }
    case Binary(op, l, r) =>
      if AwaitFree(l) {
        ReachedAgrees(r, s, o);
        if o.Val? {
          ResumedRight(op, l, r, s, o.v);
        }
      } else {
        ReachedAgrees(l, s, o);
        if o.Val? {
          ResumedLeft(op, l, r, s, o.v);
        }
      }
    case _ => ResumedAwait(e, s, o);
  }

  lemma ResumedUnary(op: UnOp, x: Expr, s: Store, v: Value)
    ensures Resumed(Unary(op, x), s, v) == match Resumed(x, s, v) case None => None case Some(a) => ApplyUnary(op, a)
  {
  }

  lemma ResumedAwait(e: Expr, s: Store, o: EvalOut)
    requires e.Await?
    ensures LoweredWith(e, s, o) == o
  {
  }

  /** Where the await is not reached, direct evaluation never asks for its outcome. */
  lemma {:induction false} UnreachedIsConstant(e: Expr, s: Store, o: EvalOut)
    requires OneAwait(e) && !Reached(e, s)
    ensures DirectWith(e, s, o) != EvalTimeout
  {
    OneAwaitCall(e);
    match e
    case Unary(_, x) => UnreachedIsConstant(x, s, o);
    case Binary(_, l, r) =>
      if !AwaitFree(l) {
        UnreachedIsConstant(l, s, o);
      } else if Pure(l, s).Some? && !Decides(e.op, Pure(l, s).value) {
        UnreachedIsConstant(r, s, o);
      }
    case _ =>
  }

  /** Splitting off the await is right for every outcome of the call exactly when evaluation reaches the await. */
  lemma SplitIsRightIffReached(e: Expr, s: Store)
    requires OneAwait(e) && AWAITED !in Mentions(e)
    ensures (forall o :: DirectWith(e, s, o) == LoweredWith(e, s, o)) <==> Reached(e, s)
  {
    if Reached(e, s) {
      forall o ensures DirectWith(e, s, o) == LoweredWith(e, s, o) {
        ReachedAgrees(e, s, o);
      }
    } else {
      UnreachedIsConstant(e, s, EvalTimeout);
      assert DirectWith(e, s, EvalTimeout) != LoweredWith(e, s, EvalTimeout);
    }
  }

  /** `main` is false without its callee, which awaits itself without end. */
  function GuardedProgram(): Program {
    Program(map[
      "main" := Fn([], false, [Return(Some(Binary(And, Lit(Bool(false)), Await(0, "loop", []))))]),
      "loop" := Fn([], false, [Return(Some(Await(0, "loop", [])))])], false)
  }

  const LoopCall: Expr := Await(0, "loop", [])

  function GuardedNodes(): Nodes {
    [Complete, AfterAwait(0, Return(Some(Binary(And, Lit(Bool(false)), Name(AWAITED)))), 0),
     AwaitSuspend([], LoopCall, 1)]
  }

  function LoopingNodes(): Nodes {
    [Complete, AfterAwait(0, Return(Some(Name(AWAITED))), 0), AwaitSuspend([], LoopCall, 1)]
  }

  lemma GuardedCode(env: Env)
    requires env.p == GuardedProgram() && env.code == Created(env.p)
    ensures "main" in env.code && env.code["main"] == Unit(2, GuardedNodes(), All)
    ensures "loop" in env.code && env.code["loop"] == Unit(2, LoopingNodes(), All)
  {
    var main, looping := env.p.fns["main"].body, env.p.fns["loop"].body;
    assert Compile(main[1..], 0, [Complete]) == Built(0, [Complete]);
    assert Compile(looping[1..], 0, [Complete]) == Built(0, [Complete]);
    assert DirectAwait(Binary(And, Lit(Bool(false)), LoopCall)) == Some(LoopCall);
    assert Normalize(main) == Built(2, GuardedNodes());
    assert Normalize(looping) == Built(2, LoopingNodes());
  }

  /** Either function suspends at once and pushes a frame of `loop`. */
  lemma PushesLoop(env: Env, f: string, outcome: Value)
    requires env.p == GuardedProgram() && env.code == Created(env.p) && f in env.p.fns && "loop" in env.code
             && f in env.code
    ensures StepFrame(env, Started(env, f, []), outcome) ==
            Push(Started(env, f, []).(node := 1), Started(env, "loop", []))
  {
    hide Created;
    GuardedCode(env);
    assert Bind([], []) == map[];
    assert f == "main" || f == "loop";
  }

  /** The stack fills with frames of `loop` until the runtime aborts. */
  lemma {:induction false} LoopOverflows(env: Env, m: Machine, n: nat)
    requires env.p == GuardedProgram() && env.code == Created(env.p) && "loop" in env.code
    requires m.Running? && 0 < |m.frames| <= CAPACITY && n == CAPACITY - |m.frames| + 1
    requires m.frames[|m.frames| - 1] == Started(env, "loop", [])
    ensures Run(env, m, n) == Aborted
    decreases n
  {
    hide StepFrame, Started, Created;
    PushesLoop(env, "loop", m.outcome);
    if n > 1 {
      LoopOverflows(env, Step(env, m), n - 1);
    } else {
      assert Run(env, Step(env, m), 0) == Aborted;
    }
  }

  lemma GuardedDirect()
    ensures Direct(GuardedProgram(), "main", [], 1) == Val(Bool(false))
  {
    var p := GuardedProgram();
    var e := Binary(And, Lit(Bool(false)), LoopCall);
    var body := p.fns["main"].body;
    assert Bind([], []) == map[];
    assert Eval(p, e, map[], 1, 0) == Val(Bool(false)) by {
      assert Eval(p, Lit(Bool(false)), map[], 1, 0) == Val(Bool(false));
    }
    assert ExecStmt(p, body[0], map[], 1, 0) == Ret(Bool(false), map[]);
    assert Exec(p, body, map[], 1, 0) == Ret(Bool(false), map[]);
  }

  /** An aborted run has not completed at any time. */
  lemma AbortsNeverCompletes(env: Env, m: Machine, aborted: nat, n: nat)
    requires Run(env, m, aborted) == Aborted
    ensures !Run(env, m, n).Completed?
  {
    hide Step;
    if n <= aborted {
      RunAdds(env, m, n, aborted - n);
      if Run(env, m, n).Completed? {
        StoppedStays(env, Run(env, m, n), aborted - n);
      }
    } else {
      RunAdds(env, m, aborted, n - aborted);
      StoppedStays(env, Aborted, n - aborted);
    }
  }

  /** An awaited call behind `and` runs although the left operand already decides the result. */
  lemma GuardedAwaitExample(native: nat, n: nat)
    ensures Direct(GuardedProgram(), "main", [], 1) == Val(Bool(false))
    ensures var env := Env(GuardedProgram(), Created(GuardedProgram()), native);
            !Run(env, Operation(env, "main", []), n).Completed?
  {
    hide StepFrame, Started, Direct;
    GuardedDirect();
    var env := Env(GuardedProgram(), Created(GuardedProgram()), native);
    var start := Operation(env, "main", []);
    PushesLoop(env, "main", Void);
    LoopOverflows(env, Step(env, start), CAPACITY - 1);
    assert Run(env, start, CAPACITY) == Aborted;
    AbortsNeverCompletes(env, start, CAPACITY, n);
  }

  // ---------------------------------------------------------------------------------------------
  // Returns inside loops that await nothing

  const ReturningLoop: Stmt := While(Lit(Bool(true)), None, [Return(None)], false, [])

  function ReturningProgram(): Program {
    Program(map["main" := Fn([], true, [ReturningLoop])], false)
  }

  /** The loop's `return` leaves the step function but not the state, so the operation never completes. */
  lemma RawReturnExample(native: nat, n: nat)
    ensures Direct(ReturningProgram(), "main", [], 2) == Val(Void)
    ensures var env := Env(ReturningProgram(), Created(ReturningProgram()), native);
            !Run(env, Operation(env, "main", []), n).Completed?
  {
    var p := ReturningProgram();
    var env := Env(p, Created(p), native);
    var body := p.fns["main"].body;
    assert Bind([], []) == map[];
    forall d: nat, k: nat | k > 0 ensures ExecStmt(p, ReturningLoop, map[], d, k) == Ret(Void, map[]) {
      assert ExecStmt(p, Return(None), map[], d, k - 1) == Ret(Void, map[]);
      assert Exec(p, [Return(None)], map[], d, k - 1) == Ret(Void, map[]);
    }
    assert Exec(p, body, map[], 1, 1) == Ret(Void, map[]);
    assert [] + [body[0]] == body;
    assert body[1..] == [] && !Splits(body[0]);
    assert CompileFrom(body, [], 0, [Complete]) == Built(1, [Complete] + [BasicBlock(body, 0)]);
    assert CompileFrom([], body, 0, [Complete]) == Built(1, [Complete, BasicBlock(body, 0)]);
    assert Normalize(body) == Built(1, [Complete, BasicBlock(body, 0)]);
    var start := Operation(env, "main", []);
    var r := RunOrdinary(p, body, map[], native);
    assert native > 0 ==> r == RawReturn(map[]);
    assert native == 0 ==> r == OutOfFuel;
    assert Step(env, start) == if native > 0 then start else Stalled;
    ReturnsInPlace(env, start, n);
  }

  lemma {:induction false} ReturnsInPlace(env: Env, m: Machine, n: nat)
    requires m.Running? && (Step(env, m) == m || Step(env, m) == Stalled)
    ensures !Run(env, m, n).Completed?
    decreases n
  {
    hide Step;
    if n > 0 {
      if Step(env, m) == m {
        ReturnsInPlace(env, m, n - 1);
      } else {
        StoppedStays(env, Stalled, n - 1);
      }
    }
  }

  /** `{ if x == 0 { x = 1; return } }` */
  const OnZero: Stmt := Block([If(Binary(Same, Name("x"), Lit(Int(0))), [Assign("x", Lit(Int(1))), Return(None)], [])])

  const StillZero: Stmt := Assert(Binary(Same, Name("x"), Lit(Int(0))))

  const Twice: seq<Stmt> := [OnZero, StillZero]

  function TwiceProgram(): Program {
    Program(map["main" := Fn(["x"], true, Twice)], false)
  }

  lemma OnZeroReturns(p: Program, d: nat, k: nat)
    ensures ExecStmt(p, OnZero, map["x" := Int(0)], d, k) == Ret(Void, map["x" := Int(1)])
  {
    var branch := OnZero.stmts[0];
    var zero, one: Store := map["x" := Int(0)], map["x" := Int(1)];
    assert zero["x" := Int(1)] == one;
    assert branch.thn[1..] == [Return(None)];
    assert ExecStmt(p, branch.thn[0], zero, d, k) == Normal(one);
    assert Exec(p, branch.thn[1..], one, d, k) == Ret(Void, one);
    assert Exec(p, branch.thn, zero, d, k) == Ret(Void, one);
    assert ExecStmt(p, branch, zero, d, k) == Ret(Void, one);
  }

  lemma OnZeroPasses(p: Program, d: nat, k: nat)
    ensures ExecStmt(p, OnZero, map["x" := Int(1)], d, k) == Normal(map["x" := Int(1)])
    ensures ExecStmt(p, StillZero, map["x" := Int(1)], d, k) == Fail
  {
    var one: Store := map["x" := Int(1)];
    assert OnZero.stmts[1..] == [];
    assert ExecStmt(p, OnZero.stmts[0], one, d, k) == Normal(one);
  }

  lemma TwiceIsCreated(env: Env)
    requires env == Env(TwiceProgram(), Created(TwiceProgram()), 0)
    ensures "main" in env.code && env.code["main"] == Unit(1, [Complete, BasicBlock(Twice, 0)], All)
  {
    assert [] + [Twice[0]] + [Twice[1]] == Twice && Twice[1..][1..] == [];
    assert !Splits(Twice[0]) && !Splits(Twice[1]) && Twice[1..][0] == Twice[1];
    assert CompileFrom(Twice, [], 0, [Complete]) == Built(1, [Complete] + [BasicBlock(Twice, 0)]);
    assert CompileFrom([] + [Twice[0]], Twice[1..], 0, [Complete]) == Built(1, [Complete, BasicBlock(Twice, 0)]);
    assert CompileFrom([], Twice, 0, [Complete]) == Built(1, [Complete, BasicBlock(Twice, 0)]);
    assert Normalize(Twice) == Built(1, [Complete, BasicBlock(Twice, 0)]);
  }

  lemma TwiceRuns(p: Program)
    ensures RunOrdinary(p, Twice, map["x" := Int(0)], 0) == RawReturn(map["x" := Int(1)])
    ensures RunOrdinary(p, Twice, map["x" := Int(1)], 0) == Panicked
  {
    OnZeroReturns(p, CAPACITY, 0);
    OnZeroPasses(p, CAPACITY, 0);
    NotReturns();
    hide ExecStmt, OnZero, StillZero;
    var one: Store := map["x" := Int(1)];
    assert RunOrdinary(p, Twice, one, 0) == RunOrdinary(p, Twice[1..], one, 0);
  }

  lemma TwiceSteps(env: Env)
    requires env == Env(TwiceProgram(), Created(TwiceProgram()), 0)
    ensures StepFrame(env, Frame("main", 1, map["x" := Int(0)], map[]), Void) ==
            Leave(Frame("main", 1, map["x" := Int(1)], map[]))
    ensures StepFrame(env, Frame("main", 1, map["x" := Int(1)], map[]), Void) == Abort
  {
    TwiceIsCreated(env);
    TwiceRuns(env.p);
    hide RunOrdinary, Created, Dispatch, Twice;
  }

  lemma TwiceDirect()
    ensures Direct(TwiceProgram(), "main", [Int(0)], 1) == Val(Void)
    ensures Bind(["x"], [Int(0)]) == map["x" := Int(0)]
  {
    var p := TwiceProgram();
    OnZeroReturns(p, 1, 0);
    hide ExecStmt, OnZero;
    assert Bind(["x"], [Int(0)]) == map["x" := Int(0)] by { assert Bind([], []) == map[]; }
    assert Exec(p, Twice, map["x" := Int(0)], 1, 0) == Ret(Void, map["x" := Int(1)]);
  }

  /** The nested `return` changes a local that survives, so the second entry passes it, and fails on what follows. */
  lemma SecondEntryExample()
    ensures Direct(TwiceProgram(), "main", [Int(0)], 1) == Val(Void)
    ensures var env := Env(TwiceProgram(), Created(TwiceProgram()), 0);
            Run(env, Operation(env, "main", [Int(0)]), 2) == Aborted
  {
    var env := Env(TwiceProgram(), Created(TwiceProgram()), 0);
    TwiceDirect();
    TwiceIsCreated(env);
    TwiceSteps(env);
    hide StepFrame, Created, Direct;
    var first, second := Frame("main", 1, map["x" := Int(0)], map[]), Frame("main", 1, map["x" := Int(1)], map[]);
    assert Operation(env, "main", [Int(0)]) == Running([first], Void);
    assert Step(env, Running([first], Void)) == Running([second], Void);
    assert Run(env, Running([second], Void), 1) == Run(env, Aborted, 0);
  }

  lemma NotReturns()
    ensures !OnZero.Return? && !StillZero.Return? && Twice[1..][0] == StillZero
  {
  }

  // ---------------------------------------------------------------------------------------------
  // Names the analysis does not see

  const Hidden: Expr := IfExpr(Lit(Bool(true)), Name("x"), Lit(Int(0)))

  function HidingProgram(): Program {
    Program(map["main" := Fn([], false, [
      Decl("x", Lit(Int(7))), If(Lit(Bool(true)), [Return(Some(Hidden))], []), Return(Some(Lit(Int(1))))])], false)
  }

  function HidingNodes(): Nodes {
    [Branch([Decl("x", Lit(Int(7)))], Lit(Bool(true)), 1, 2), BasicBlock([Return(Some(Hidden))], 2), Join(false, 3),
     BasicBlock([Return(Some(Lit(Int(1))))], 4), Complete]
  }

  function HidingCreated(): Nodes {
    [Complete, BasicBlock([Return(Some(Lit(Int(1))))], 0), Join(false, 1), BasicBlock([Return(Some(Hidden))], 2),
     Branch([Decl("x", Lit(Int(7)))], Lit(Bool(true)), 3, 2)]
  }

  lemma HidingIsVisited()
    ensures Order(Built(4, HidingCreated())) == [4, 3, 2, 1, 0]
  {
    hide Visit, VisitAll;
    var nodes := HidingCreated();
    VisitOne(nodes, 0, [4, 3, 2, 1], [4, 3, 2, 1, 0], [4, 3, 2, 1, 0]);
    VisitOne(nodes, 1, [4, 3, 2], [4, 3, 2, 1], [4, 3, 2, 1, 0]);
    VisitOne(nodes, 2, [4, 3], [4, 3, 2], [4, 3, 2, 1, 0]);
    VisitOne(nodes, 3, [4], [4, 3], [4, 3, 2, 1, 0]);
    VisitTwo(nodes, 4, [], [4], 3, 2, [4, 3, 2, 1, 0]);
  }

  /** A node with two targets, the second of which the first leads to. */
  lemma VisitTwo(nodes: Nodes, n: nat, order: seq<nat>, grown: seq<nat>, a: nat, b: nat, r: seq<nat>)
    requires n < |nodes| && n !in order && Targets(nodes[n]) == [a, b] && grown == order + [n]
    requires Visit(nodes, a, grown) == r && b in r
    ensures Visit(nodes, n, order) == r
  {
    var ts := Targets(nodes[n]);
    assert ts[1..] == [b] && [b][1..] == [];
    assert Visit(nodes, b, r) == r;
    assert VisitAll(nodes, [b], r) == r;
  }

  /** A node with at most one target. */
  lemma VisitOne(nodes: Nodes, n: nat, order: seq<nat>, grown: seq<nat>, r: seq<nat>)
    requires n < |nodes| && n !in order && |Targets(nodes[n])| <= 1 && grown == order + [n]
    requires Targets(nodes[n]) == [] ==> r == grown
    requires Targets(nodes[n]) != [] ==> Visit(nodes, Targets(nodes[n])[0], grown) == r
    ensures Visit(nodes, n, order) == r
  {
    var ts := Targets(nodes[n]);
    assert VisitAll(nodes, [], r) == r;
    if ts != [] {
      assert ts[1..] == [];
      assert VisitAll(nodes, ts, grown) == r;
    }
  }

  lemma HidingIsEmitted()
    ensures Emitted(HidingProgram())["main"] == Unit(0, HidingNodes(), All)
  {
    hide Normalize, Order, Place;
    var body := HidingProgram().fns["main"].body;
    var nodes := HidingCreated();
    HidingIsCompiled(body, nodes);
    HidingIsVisited();
    var order := [4, 3, 2, 1, 0];
    PlaceIsUnique(order, 0);
    PlaceIsUnique(order, 1);
    PlaceIsUnique(order, 2);
    PlaceIsUnique(order, 3);
    PlaceIsUnique(order, 4);
    var emitted := EmitNodes(nodes, order);
    assert emitted[0] == HidingNodes()[0];
    assert emitted[1] == HidingNodes()[1];
    assert emitted[2] == HidingNodes()[2];
    assert emitted[3] == HidingNodes()[3];
    assert emitted[4] == HidingNodes()[4];
    assert emitted == HidingNodes();
  }

  lemma HidingIsCompiled(body: seq<Stmt>, nodes: Nodes)
    requires body == HidingProgram().fns["main"].body
    requires nodes == HidingCreated()
    ensures Normalize(body) == Built(4, nodes)
  {
    var tail := [body[2]];
    assert body[1..][1..] == tail;
    assert [] + [body[2]] == tail && tail[1..] == [];
    assert CompileFrom(tail, [], 0, [Complete]) == Built(1, nodes[..2]);
    assert Compile(tail, 0, [Complete]) == Built(1, nodes[..2]);
    var thn := [Return(Some(Hidden))];
    assert [] + [thn[0]] == thn && thn[1..] == [];
    assert DirectAwait(Hidden) == None;
    assert Compile(thn, 2, nodes[..3]) == Built(3, nodes[..4]) by {
      assert CompileFrom(thn, [], 2, nodes[..3]) == Built(3, nodes[..3] + [BasicBlock(thn, 2)]);
    }
    assert BlockReturns(thn) && Splits(body[1]);
    assert nodes[..2] + [Join(false, 1)] == nodes[..3];
    assert CompileSplit([body[0]], body[1], 1, nodes[..2]) == Built(4, nodes);
    assert [] + [body[0]] == [body[0]];
    assert CompileFrom([body[0]], body[1..], 0, [Complete]) == Built(4, nodes);
    assert !Splits(body[0]);
    assert CompileFrom([], body, 0, [Complete]) == Built(4, nodes);
  }

  lemma HidingUses()
    ensures "x" !in CrossState(HidingNodes())
  {
    var nodes := HidingNodes();
    assert UsesAll([]) == {};
    assert UsesAll(Statements(nodes[0])) == {} by { assert Statements(nodes[0])[1..] == []; }
    assert UsesAll(Statements(nodes[1])) == {} by { assert Statements(nodes[1])[1..] == []; }
    assert UsesAll(Statements(nodes[3])) == {} by { assert Statements(nodes[3])[1..] == []; }
    assert "x" !in StateUses(nodes[0]);
    assert "x" !in StateUses(nodes[1]);
    assert "x" !in StateUses(nodes[2]);
    assert "x" !in StateUses(nodes[3]);
    assert "x" !in StateUses(nodes[4]);
    UsedSomewhere(nodes, "x");
  }

  lemma HidingFields(body: seq<Stmt>)
    requires body == HidingProgram().fns["main"].body
    ensures MatchFieldsAll(body) == {} && SourcesAll(body) == {} && AwaitedDeclarations(body) == {}
    ensures ItemsAll(body) == {}
  {
    var thn := [Return(Some(Hidden))];
    assert body[1..][1..] == [body[2]] && [body[2]][1..] == [] && thn[1..] == [];
    assert MatchFieldsAll(thn) == {} && ItemsAll(thn) == {} && SourcesAll(thn) == {};
    assert MatchFieldsAll([body[2]]) == {} && ItemsAll([body[2]]) == {} && SourcesAll([body[2]]) == {};
    assert AwaitedDeclarations([body[2]]) == {};
    assert MatchFields(body[1]) == {} && Items(body[1]) == {} && Sources(body[1]) == {};
    assert MatchFieldsAll(body[1..]) == {} && ItemsAll(body[1..]) == {} && SourcesAll(body[1..]) == {};
    assert MatchFields(body[0]) == {} && Items(body[0]) == {} && Sources(body[0]) == {};
  }

  lemma HidingMoments(body: seq<Stmt>)
    requires body == HidingProgram().fns["main"].body
    ensures LiveAcross({}, TimelineAll(body)) == {}
  {
    var thn := [Return(Some(Hidden))];
    assert body[1..][1..] == [body[2]] && [body[2]][1..] == [] && thn[1..] == [];
    assert !HasAwait(Hidden);
    assert TimelineAll(thn) == [MomentOf(thn[0])];
    assert TimelineAll([body[2]]) == [MomentOf(body[2])];
    assert Timeline(body[1]) == [MomentOf(body[1])] + [MomentOf(thn[0])];
    assert TimelineAll(body) ==
           [MomentOf(body[0])] + (([MomentOf(body[1])] + [MomentOf(thn[0])]) + [MomentOf(body[2])]);
    NoAwaitNothingLive({}, TimelineAll(body));
  }

  /** `x` is not a frame field, although another state than the declaring one reads it. */
  lemma HiddenLocalIsLost()
    ensures "main" in Fields(HidingProgram()) && "x" !in Fields(HidingProgram())["main"]
  {
    hide CrossState, MatchFieldsAll, ItemsAll, SourcesAll, AwaitedDeclarations, LiveAcross, Emitted, HidingNodes;
    var p := HidingProgram();
    assert "main" in p.fns;
    HidingIsEmitted();
    HidingUses();
    HidingFields(p.fns["main"].body);
    HidingMoments(p.fns["main"].body);
    assert Elems(p.fns["main"].params) == {};
  }

  lemma {:induction false} UsedSomewhere(nodes: Nodes, x: string)
    requires forall i :: 0 <= i < |nodes| ==> x !in StateUses(nodes[i])
    ensures x !in AllUses(nodes)
  {
    if nodes != [] {
      UsedSomewhere(nodes[1..], x);
    }
  }

  lemma {:induction false} NoAwaitNothingLive(declared: set<string>, ms: seq<Moment>)
    requires forall i :: 0 <= i < |ms| ==> !ms[i].awaits
    ensures LiveAcross(declared, ms) == {}
    decreases ms
  {
    if ms != [] {
      NoAwaitNothingLive(declared + ms[0].declares, ms[1..]);
    }
  }

  lemma HidingDirect()
    ensures Direct(HidingProgram(), "main", [], 1) == Val(Int(7))
  {
    var p := HidingProgram();
    var body := p.fns["main"].body;
    var s := map["x" := Int(7)];
    assert Bind([], []) == map[];
    assert ExecStmt(p, body[0], map[], 1, 0) == Normal(s);
    assert Exec(p, [Return(Some(Hidden))], s, 1, 0) == Ret(Int(7), s) by {
      assert ExecStmt(p, Return(Some(Hidden)), s, 1, 0) == Ret(Int(7), s);
    }
    assert ExecStmt(p, body[1], s, 1, 0) == Ret(Int(7), s);
    assert Exec(p, body[1..], s, 1, 0) == Ret(Int(7), s);
  }

  /** Leaving the declaring state, the machine drops `x`. */
  lemma HidingCode(env: Env)
    requires env == Env(HidingProgram(), Generated(HidingProgram()), 0)
    ensures "main" in env.code && "main" in Fields(env.p)
            && env.code["main"] == Unit(0, HidingNodes(), Only(Fields(env.p)["main"]))
  {
    hide Persistent, Normalize;
    HidingIsEmitted();
    HiddenLocalIsLost();
  }

  lemma HidingFirstStep(env: Env)
    requires env == Env(HidingProgram(), Generated(HidingProgram()), 0)
    ensures StepFrame(env, Frame("main", 0, map[], map[]), Void) == Goto(Frame("main", 1, map[], map[]))
    ensures "main" in env.code && env.code["main"].entry == 0
  {
    hide Generated, Fields;
    HidingCode(env);
    HiddenLocalIsLost();
    var s := map["x" := Int(7)];
    var declare := [Decl("x", Lit(Int(7)))];
    assert declare[1..] == [];
    assert RunOrdinary(env.p, declare, map[], 0) == Ran(s) by {
      assert ExecStmt(env.p, declare[0], map[], CAPACITY, 0) == Normal(s);
    }
    assert Trim(Only(Fields(env.p)["main"]), s) == map[];
  }

  lemma HidingSecondStep(env: Env)
    requires env == Env(HidingProgram(), Generated(HidingProgram()), 0)
    ensures StepFrame(env, Frame("main", 1, map[], map[]), Void) == Abort
  {
    hide Generated, Fields;
    HidingCode(env);
    assert RunOrdinary(env.p, [Return(Some(Hidden))], map[], 0) == Panicked;
  }

  lemma HidingIsScoped(fn: Fn)
    requires fn == HidingProgram().fns["main"]
    ensures WellScoped(fn)
  {
    var b := fn.body;
    var thn, last := [Return(Some(Hidden))], [b[2]];
    assert Mentions(Hidden) == {"x"} && Elems([]) == {};
    OneReturn(Hidden, {"x"});
    OneReturn(Lit(Int(1)), {"x"});
    BranchIsScoped(b[1], last);
    assert b[1..] == [b[1]] + last && b == [b[0]] + b[1..];
    assert {} + Defines(b[0]) == {"x"} && Declared(b[0]) == {"x"} && Bound(b[0]) == {};
    assert DeclaredAll(b) == {"x"} + DeclaredAll(b[1..]) && BoundAll(b) == BoundAll(b[1..]);
  }

  lemma BranchIsScoped(st: Stmt, last: seq<Stmt>)
    requires st == If(Lit(Bool(true)), [Return(Some(Hidden))], [])
    requires ScopedAll(last, {"x"}) && UniqueAll(last) && Introduced(last) == {}
    ensures var b := [st] + last; ScopedAll(b, {"x"}) && UniqueAll(b) && DeclaredAll(b) == {} && BoundAll(b) == {}
  {
    var b := [st] + last;
    assert b[1..] == last;
    assert Mentions(Hidden) == {"x"};
    OneReturn(Hidden, {"x"});
    assert {"x"} + Defines(st) == {"x"};
    assert Declared(st) == {} && Bound(st) == {} by {
      assert DeclaredAll([]) == {} && BoundAll([]) == {};
    }
    assert DeclaredAll(last) <= Introduced(last) && BoundAll(last) <= Introduced(last);
  }

  lemma OneReturn(e: Expr, scope: set<string>)
    requires Mentions(e) <= scope
    ensures var b := [Return(Some(e))];
            && DeclaredAll(b) == {} && BoundAll(b) == {} && ReadsAll(b) == Mentions(e)
            && ScopedAll(b, scope) && UniqueAll(b)
  {
    var b := [Return(Some(e))];
    assert b[1..] == [] && DeclaredAll([]) == {} && BoundAll([]) == {} && ReadsAll([]) == {};
    assert ReadsAll(b) == Reads(b[0]) + (ReadsAll(b[1..]) - Defines(b[0]));
    assert ScopedAll(b[1..], scope + Defines(b[0])) && UniqueAll(b[1..]);
  }

  /** The local is scoped, but no state but its own uses it where the analysis looks, and nothing else keeps it. */
  lemma HidingIsNotSeen()
    ensures var fn := HidingProgram().fns["main"]; WellScoped(fn) && !ReadsAreSeen(fn)
  {
    hide Emitted, Persistent, WellScoped, ReadsAreSeen, Normalize, EmitUnit;
    var p := HidingProgram();
    var fn := p.fns["main"];
    HidingIsScoped(fn);
    HidingIsEmitted();
    HiddenLocalIsLost();
    FieldsCoverIff(fn);
    HidingIsUncovered(Fields(p)["main"]);
    assert Emitted(p)["main"] == EmitUnit(Normalize(fn.body), All) by { EmittedIsUnit(p, "main"); }
  }

  lemma EmittedIsUnit(p: Program, f: string)
    requires f in p.fns
    ensures f in Emitted(p) && Emitted(p)[f] == EmitUnit(Normalize(p.fns[f].body), All)
  {
  }

  lemma HidingIsUncovered(keep: set<string>)
    requires "x" !in keep
    ensures !Covers([], HidingNodes(), keep)
  {
    var nodes := HidingNodes();
    assert Mentions(Hidden) == {"x"};
    OneReturn(Hidden, {"x"});
    assert "x" in StateReads(nodes[1]);
    assert "x" in StateDeclares(nodes[0]);
    StoredNamesHold([], nodes, 0);
  }

  /** The generated machine therefore reads a local it no longer has. */
  lemma HiddenLocalExample()
    ensures Direct(HidingProgram(), "main", [], 1) == Val(Int(7))
    ensures var env := Env(HidingProgram(), Generated(HidingProgram()), 0);
            Run(env, Operation(env, "main", []), 2) == Aborted
  {
    hide StepFrame, Generated, HidingProgram;
    var env := Env(HidingProgram(), Generated(HidingProgram()), 0);
    HidingDirect();
    HidingFirstStep(env);
    HidingSecondStep(env);
    HidingStart(env);
    var first, second := Running([Frame("main", 0, map[], map[])], Void),
        Running([Frame("main", 1, map[], map[])], Void);
    assert Step(env, first) == second && Step(env, second) == Aborted;
    assert Run(env, second, 1) == Run(env, Aborted, 0);
  }

  lemma HidingStart(env: Env)
    requires env == Env(HidingProgram(), Generated(HidingProgram()), 0)
    ensures "main" in env.p.fns && |env.p.fns["main"].params| == 0 && "main" in env.code
    ensures Operation(env, "main", []) == Running([Frame("main", 0, map[], map[])], Void)
  {
    hide Normalize, Persistent;
    HidingFirstStep(env);
    assert Bind([], []) == map[];
  }
}
