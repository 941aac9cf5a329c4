/**
 A `return` without a value, at compile time.  The evaluator only leaves the block it stands in; here
 is the execution in which it leaves the function, and exactly when the two agree.
 */
module ComptimeReturns {
  import opened Wrappers
  import opened Comptime

  /** How a block ends: at its end, with a value, or by a `return` without one. */
  datatype Signal = Fell | Gave(v: Value) | Left

  type Run = Result<(Signal, Scopes, State), Failure>

  function Outer(sc: Scopes): Scopes {
    if sc == [] then [] else sc[..|sc| - 1]
  }

  // ---------------------------------------------------------------------------------------------
  // Execution in which every `return` leaves the function

  function RunBlock(p: Program, st: State, sc: Scopes, b: seq<Stmt>): (r: Run)
    ensures r.Ok? ==> r.value.2.fuel <= st.fuel
    decreases st.fuel, 3, b, 1
  {
    match RunAll(p, st, sc + [map[]], b)
    case Err(f) => Err(f)
    case Ok((o, sc1, st1)) => Ok((o, Outer(sc1), st1))
  }

  function RunAll(p: Program, st: State, sc: Scopes, b: seq<Stmt>): (r: Run)
    ensures r.Ok? ==> r.value.2.fuel <= st.fuel
    decreases st.fuel, 3, b, 0
  {
    if b == [] then Ok((Fell, sc, st))
    else
      match RunStmt(p, st, sc, b[0])
      case Err(f) => Err(f)
      case Ok((Fell, sc1, st1)) => RunAll(p, st1, sc1, b[1..])
      case Ok((o, sc1, st1)) => Ok((o, sc1, st1))
  }

  /** A statement that holds no other is the evaluator's. */
  function Simple(r: Executed): Run {
    match r
    case Err(f) => Err(f)
    case Ok((o, sc, st)) => Ok((if o.Some? then Gave(o.value) else Fell, sc, st))
  }

  function RunStmt(p: Program, st: State, sc: Scopes, s: Stmt): (r: Run)
    ensures r.Ok? ==> r.value.2.fuel <= st.fuel
    decreases st.fuel, 3, s, 0
  {
    match s
    case Return(None) => Ok((Left, sc, st))
    case If(c, t, f) =>
      (match Eval(p, st, sc, c)
       case Ok((a, st1)) =>
         if a == Bool(true) then RunBlock(p, st1, sc, t)
         else if a == Bool(false) then RunBlock(p, st1, sc, f)
         else Err(Invalid)
       case Err(f) => Err(f))
    case While(_, bound, _, _, _) =>
      (match Eval(p, st, sc, bound)
       case Err(f) => Err(f)
       case Ok((n, st1)) =>
         if !n.Int? || n.n < 0 || n.n > MAX_LOOP_BOUND then Err(LoopBoundInvalid)
         else
           match Pushed(st1, WhileLoop(n.n))
           case Err(f) => Err(f)
           case Ok(st2) =>
             match RunWhile(p, st2, sc, s, n.n, 0)
             case Err(f) => Err(f)
             case Ok((o, sc1, st3)) => Ok((o, sc1, Popped(st3))))
    case For(_, src, _) =>
      (match SourceItems(p, st, sc, src)
       case Err(f) => Err(f)
       case Ok((items, st1)) =>
         match Pushed(st1, ForLoop(|items|))
         case Err(f) => Err(f)
         case Ok(st2) =>
           match RunFor(p, st2, sc, s, items)
           case Err(f) => Err(f)
           case Ok((o, sc1, st3)) => Ok((o, sc1, Popped(st3))))
    case Block(b) => RunBlock(p, st, sc, b)
    case _ => Simple(ExecStmt(p, st, sc, s))
  }

  function RunWhile(p: Program, st: State, sc: Scopes, w: Stmt, bound: int, i: nat): (r: Run)
    requires w.While?
    ensures r.Ok? ==> r.value.2.fuel <= st.fuel
    decreases st.fuel, 2, 0
  {
    match Eval(p, st, sc, w.c)
    case Err(f) => Err(f)
    case Ok((a, st1)) =>
      if a == Bool(false) then Ok((Fell, sc, st1))
      else if a != Bool(true) then Err(Invalid)
      else if i >= bound then (if w.hasElse then RunBlock(p, st1, sc, w.els) else Ok((Fell, sc, st1)))
      else
        match RunBlock(p, st1, sc, w.body)
        case Err(f) => Err(f)
        case Ok((Fell, sc1, st2)) => RunWhile(p, st2, sc1, w, bound, i + 1)
        case Ok((o, sc1, st2)) => Ok((o, sc1, st2))
  }

  function RunFor(p: Program, st: State, sc: Scopes, f: Stmt, items: seq<Value>): (r: Run)
    requires f.For?
    ensures r.Ok? ==> r.value.2.fuel <= st.fuel
    decreases st.fuel, 2, 0
  {
    if items == [] then Ok((Fell, sc, st))
    else if st.fuel == 0 then Err(FuelExhausted)
    else
      match RunBlock(p, st.(fuel := st.fuel - 1), sc + [map[f.item := Binding(items[0], true)]], f.body)
      case Err(e) => Err(e)
      case Ok((Fell, sc1, st1)) => RunFor(p, st1, Outer(sc1), f, items[1..])
      case Ok((o, sc1, st1)) => Ok((o, Outer(sc1), st1))
  }

  // ---------------------------------------------------------------------------------------------
  // What is still to run

  /** Running these statements evaluates nothing. */
  predicate Idle(b: seq<Stmt>) {
    b == [] || b[0] == Return(None) || (b[0].Block? && Idle(b[0].stmts) && Idle(b[1..]))
  }

  /** A bare `return` is reached in a nested block or in the body of a loop with something still to run after it. */
  predicate Overruns(p: Program, st: State, sc: Scopes, b: seq<Stmt>)
    decreases st.fuel, 3, b, 1
  {
    OverrunsAll(p, st, sc + [map[]], b)
  }

  predicate OverrunsAll(p: Program, st: State, sc: Scopes, b: seq<Stmt>)
    decreases st.fuel, 3, b, 0
  {
    b != [] && b[0] != Return(None) &&
    (|| OverrunsStmt(p, st, sc, b[0])
     || (match RunStmt(p, st, sc, b[0])
         case Ok((Fell, sc1, st1)) => OverrunsAll(p, st1, sc1, b[1..])
         case Ok((Left, _, _)) => !Idle(b[1..])
         case _ => false))
  }

  predicate OverrunsStmt(p: Program, st: State, sc: Scopes, s: Stmt)
    decreases st.fuel, 3, s, 0
  {
    match s
    case If(c, t, f) =>
      (match Eval(p, st, sc, c)
       case Ok((Bool(b), st1)) => Overruns(p, st1, sc, if b then t else f)
       case _ => false)
    case While(_, bound, _, _, _) =>
      (match Eval(p, st, sc, bound)
       case Ok((Int(n), st1)) =>
         0 <= n <= MAX_LOOP_BOUND && Pushed(st1, WhileLoop(n)).Ok? &&
         OverrunsWhile(p, Pushed(st1, WhileLoop(n)).value, sc, s, n, 0)
       case _ => false)
    case For(_, src, _) =>
      (match SourceItems(p, st, sc, src)
       case Ok((items, st1)) =>
         Pushed(st1, ForLoop(|items|)).Ok? && OverrunsFor(p, Pushed(st1, ForLoop(|items|)).value, sc, s, items)
       case _ => false)
    case Block(b) => Overruns(p, st, sc, b)
    case _ => false
  }

  /** After the body the condition is still to be evaluated. */
  predicate OverrunsWhile(p: Program, st: State, sc: Scopes, w: Stmt, bound: int, i: nat)
    requires w.While?
    decreases st.fuel, 2, 0
  {
    match Eval(p, st, sc, w.c)
    case Ok((Bool(true), st1)) =>
      if i >= bound then w.hasElse && Overruns(p, st1, sc, w.els)
      else
        || Overruns(p, st1, sc, w.body)
        || (match RunBlock(p, st1, sc, w.body)
            case Ok((Fell, sc1, st2)) => OverrunsWhile(p, st2, sc1, w, bound, i + 1)
            case Ok((Left, _, _)) => true
            case _ => false)
    case _ => false
  }

  /** After the body the next item, if there is one, is still to be visited. */
  predicate OverrunsFor(p: Program, st: State, sc: Scopes, f: Stmt, items: seq<Value>)
    requires f.For?
    decreases st.fuel, 2, 0
  {
    items != [] && st.fuel > 0 &&
    var (inner, scope) := (st.(fuel := st.fuel - 1), sc + [map[f.item := Binding(items[0], true)]]);
    || Overruns(p, inner, scope, f.body)
    || (match RunBlock(p, inner, scope, f.body)
        case Ok((Fell, sc1, st1)) => OverrunsFor(p, st1, Outer(sc1), f, items[1..])
        case Ok((Left, _, _)) => items[1..] != []
        case _ => false)
  }

  lemma {:induction false} IdleKeeps(p: Program, st: State, sc: Scopes, b: seq<Stmt>)
    requires Idle(b)
    ensures ExecAll(p, st, sc, b) == Ok((None, sc, st))
    decreases b
  {
    if b != [] && b[0].Block? {
      IdleKeeps(p, st, sc + [map[]], b[0].stmts);
      assert (sc + [map[]])[..|sc|] == sc;
      assert ExecStmt(p, st, sc, b[0]) == ExecBlock(p, st, sc, b[0].stmts) == Ok((None, sc, st));
      IdleKeeps(p, st, sc, b[1..]);
    }
  }

  predicate Costs(st: State, r: Executed) {
    r.Ok? ==> r.value.2.fuel < st.fuel
  }

  lemma StmtCosts(p: Program, st: State, sc: Scopes, s: Stmt)
    requires !s.Block? && s != Return(None)
    ensures Costs(st, ExecStmt(p, st, sc, s))
  {
    hide Eval, ExecBlock, ExecWhile, ExecFor, SourceItems;
  }

  lemma {:induction false} BusyCosts(p: Program, st: State, sc: Scopes, b: seq<Stmt>)
    requires !Idle(b)
    ensures Costs(st, ExecAll(p, st, sc, b))
    decreases b
  {
    if b[0].Block? {
      if Idle(b[0].stmts) {
        IdleKeeps(p, st, sc + [map[]], b[0].stmts);
        assert (sc + [map[]])[..|sc|] == sc;
        assert ExecStmt(p, st, sc, b[0]) == ExecBlock(p, st, sc, b[0].stmts) == Ok((None, sc, st));
        BusyCosts(p, st, sc, b[1..]);
      } else {
        BusyCosts(p, st, sc + [map[]], b[0].stmts);
        assert Costs(st, ExecBlock(p, st, sc, b[0].stmts));
        assert ExecStmt(p, st, sc, b[0]) == ExecBlock(p, st, sc, b[0].stmts);
      }
    } else {
      StmtCosts(p, st, sc, b[0]);
    }
  }

  // ---------------------------------------------------------------------------------------------
  // Agreement

  function ValueOf(o: Signal): Option<Value> {
    if o.Gave? then Some(o.v) else None
  }

  predicate Agrees(r: Executed, x: Run) {
    match x
    case Err(f) => r == Err(f)
    case Ok((o, sc, st)) => r == Ok((ValueOf(o), sc, st))
  }

  /** A `return` left, while the evaluator went on and has spent more fuel or failed. */
  predicate WentOn(r: Executed, x: Run) {
    x.Ok? && x.value.0.Left? && Costs(x.value.2, r)
  }

  predicate Verdict(over: bool, r: Executed, x: Run) {
    if over then WentOn(r, x) else Agrees(r, x)
  }

  lemma {:induction false} BlockVerdict(p: Program, st: State, sc: Scopes, b: seq<Stmt>)
    ensures Verdict(Overruns(p, st, sc, b), ExecBlock(p, st, sc, b), RunBlock(p, st, sc, b))
    decreases st.fuel, 3, b, 1
  {
    hide ExecAll, RunAll, OverrunsAll;
    AllVerdict(p, st, sc + [map[]], b);
  }

  lemma {:induction false} AllVerdict(p: Program, st: State, sc: Scopes, b: seq<Stmt>)
    ensures Verdict(OverrunsAll(p, st, sc, b), ExecAll(p, st, sc, b), RunAll(p, st, sc, b))
    decreases st.fuel, 3, b, 0
  {
    hide ExecStmt, OverrunsStmt, Idle;
    if b != [] && b[0] != Return(None) {
      StmtVerdict(p, st, sc, b[0]);
      match RunStmt(p, st, sc, b[0]) {
        case Ok((Fell, sc1, st1)) => AllVerdict(p, st1, sc1, b[1..]);
        case Ok((Left, sc1, st1)) =>
          if Idle(b[1..]) {
            IdleKeeps(p, st1, sc1, b[1..]);
          } else {
            BusyCosts(p, st1, sc1, b[1..]);
          }
        case _ =>
      }
    }
  }

  lemma {:induction false} StmtVerdict(p: Program, st: State, sc: Scopes, s: Stmt)
    requires s != Return(None)
    ensures Verdict(OverrunsStmt(p, st, sc, s), ExecStmt(p, st, sc, s), RunStmt(p, st, sc, s))
    decreases st.fuel, 3, s, 0
  {
    hide Eval, ExecBlock, RunBlock, Overruns, ExecWhile, RunWhile, OverrunsWhile, ExecFor, RunFor, OverrunsFor,
      SourceItems;
    match s
    case If(c, t, f) =>
      var a := Eval(p, st, sc, c);
      if a.Ok? && a.value.0.Bool? {
        BlockVerdict(p, a.value.1, sc, if a.value.0.b then t else f);
      }
    case While(_, bound, _, _, _) =>
      var n := Eval(p, st, sc, bound);
      if n.Ok? && n.value.0.Int? && 0 <= n.value.0.n <= MAX_LOOP_BOUND
        && Pushed(n.value.1, WhileLoop(n.value.0.n)).Ok? {
        WhileVerdict(p, Pushed(n.value.1, WhileLoop(n.value.0.n)).value, sc, s, n.value.0.n, 0);
      }
    case For(_, src, _) =>
      var items := SourceItems(p, st, sc, src);
      if items.Ok? && Pushed(items.value.1, ForLoop(|items.value.0|)).Ok? {
        ForVerdict(p, Pushed(items.value.1, ForLoop(|items.value.0|)).value, sc, s, items.value.0);
      }
    case Block(b) => BlockVerdict(p, st, sc, b);
    case _ =>
  }

  lemma {:induction false} WhileVerdict(p: Program, st: State, sc: Scopes, w: Stmt, bound: int, i: nat)
    requires w.While?
    ensures Verdict(OverrunsWhile(p, st, sc, w, bound, i), ExecWhile(p, st, sc, w, bound, i),
                    RunWhile(p, st, sc, w, bound, i))
    decreases st.fuel, 2, 0
  {
    hide Eval, ExecBlock, RunBlock, Overruns;
    var a := Eval(p, st, sc, w.c);
    if a.Ok? && a.value.0 == Bool(true) {
      var st1 := a.value.1;
      if i >= bound {
        BlockVerdict(p, st1, sc, w.els);
      } else {
        BlockVerdict(p, st1, sc, w.body);
        match RunBlock(p, st1, sc, w.body) {
          case Ok((Fell, sc1, st2)) => WhileVerdict(p, st2, sc1, w, bound, i + 1);
          case _ =>
        }
      }
    }
  }

  lemma {:induction false} ForVerdict(p: Program, st: State, sc: Scopes, f: Stmt, items: seq<Value>)
    requires f.For?
    ensures Verdict(OverrunsFor(p, st, sc, f, items), ExecFor(p, st, sc, f, items), RunFor(p, st, sc, f, items))
    decreases st.fuel, 2, 0
  {
    hide ExecBlock, RunBlock, Overruns;
    if items != [] && st.fuel > 0 {
      var inner, scope := st.(fuel := st.fuel - 1), sc + [map[f.item := Binding(items[0], true)]];
      BlockVerdict(p, inner, scope, f.body);
      match RunBlock(p, inner, scope, f.body) {
        case Ok((Fell, sc1, st1)) => ForVerdict(p, st1, Outer(sc1), f, items[1..]);
        case _ =>
      }
    }
  }

  /** A bare `return` leaves the function exactly when none is reached with something still to run after it. */
  lemma ReturnsLeaveIff(p: Program, st: State, sc: Scopes, b: seq<Stmt>)
    ensures Agrees(ExecBlock(p, st, sc, b), RunBlock(p, st, sc, b)) <==> !Overruns(p, st, sc, b)
  {
    hide ExecBlock, RunBlock, Overruns;
    BlockVerdict(p, st, sc, b);
  }

  /** Where it does not, the function yields what follows the block: here `rest`, after the body of an `if`. */
  lemma BareReturnContinues(p: Program, st: State, sc: Scopes, rest: seq<Stmt>)
    requires st.fuel > 0
    ensures var b := [If(Lit(Bool(true)), [Return(None)], [])] + rest;
            && ExecAll(p, st, sc, b) == ExecAll(p, st.(fuel := st.fuel - 1), sc, rest)
            && (OverrunsAll(p, st, sc, b) <==> !Idle(rest))
  {
    var s := If(Lit(Bool(true)), [Return(None)], []);
    var st1 := st.(fuel := st.fuel - 1);
    assert ([s] + rest)[0] == s && ([s] + rest)[1..] == rest;
    assert ExecAll(p, st1, sc + [map[]], [Return(None)]) == Ok((None, sc + [map[]], st1));
    assert RunAll(p, st1, sc + [map[]], [Return(None)]) == Ok((Left, sc + [map[]], st1));
    assert (sc + [map[]])[..|sc|] == sc;
    assert ExecBlock(p, st1, sc, [Return(None)]) == Ok((None, sc, st1));
    assert RunBlock(p, st1, sc, [Return(None)]) == Ok((Left, sc, st1));
    assert Eval(p, st, sc, Lit(Bool(true))) == Ok((Bool(true), st1));
    assert ExecStmt(p, st, sc, s) == Ok((None, sc, st1));
    assert RunStmt(p, st, sc, s) == Ok((Left, sc, st1));
    assert !OverrunsAll(p, st1, sc + [map[]], [Return(None)]);
    assert !OverrunsStmt(p, st, sc, s);
  }
}
