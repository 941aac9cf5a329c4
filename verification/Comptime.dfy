/**
 The compile-time evaluator: an interpreter bounded by fuel, call depth, recursion bounds and loop
 bounds, with memoised global declarations.
 */
module Comptime {
  import opened Wrappers
  import opened Division
  import RangeCursor

  const MAX_FUEL: nat := 4096
  const MAX_LOOP_BOUND := 256
  const MAX_CALL_DEPTH := 32

  datatype Value = Void | Int(n: int) | Bool(b: bool) | Arr(items: seq<Value>)

  datatype UnOp = Neg | Not

  datatype BinOp = Add | Sub | Mul | Div | Less | Same | And | Or

  datatype Expr =
    | Lit(v: Value)
    | Name(x: string)
    | Unary(uop: UnOp, e: Expr)
    | Binary(op: BinOp, l: Expr, r: Expr)
    | IfExpr(c: Expr, t: Expr, f: Expr)
    | CallTo(callee: string, args: seq<Expr>)

  datatype Source = Range(start: Expr, end: Expr, step: Option<Expr>, descending: bool) | Elements(e: Expr)

  datatype Stmt =
    | Decl(x: string, mutable: bool, e: Expr)
    | Assign(x: string, e: Expr)
    | Do(e: Expr)
    | Return(result: Option<Expr>)
    | If(c: Expr, thn: seq<Stmt>, els: seq<Stmt>)
    | While(c: Expr, bound: Expr, body: seq<Stmt>, hasElse: bool, els: seq<Stmt>)
    | For(item: string, src: Source, body: seq<Stmt>)
    | Block(stmts: seq<Stmt>)

  /** A recursion bound of zero is no bound. */
  datatype Fn = Fn(params: seq<string>, recursionBound: nat, isVoid: bool, body: seq<Stmt>)

  /** Without `memo` no global is ever cached. */
  datatype Program = Program(fns: map<string, Fn>, decls: map<string, Expr>, memo: bool)

  datatype Frame = Global(x: string) | Call(f: string) | WhileLoop(bound: int) | ForLoop(n: nat)

  /** `log` records every stack the evaluation reached, for the statements about depth. */
  datatype State = State(fuel: nat, stack: seq<Frame>, values: map<string, Value>,
                         evaluating: set<string>, log: seq<seq<Frame>>)

  datatype Binding = Binding(v: Value, mutable: bool)

  /** Innermost scope last. */
  type Scopes = seq<map<string, Binding>>

  datatype Failure =
    | FuelExhausted | DepthExceeded | RecursionExceeded | LoopBoundInvalid | Cycle | Unavailable | Invalid

  type Evaluated = Result<(Value, State), Failure>

  /** A value if the block returned one. */
  type Executed = Result<(Option<Value>, Scopes, State), Failure>

  // ---------------------------------------------------------------------------------------------
  // Operators

  /** Arithmetic is on the host's 64-bit integers and wraps. */
  function Apply(op: BinOp, a: Value, b: Value): Option<Value> {
    if op == Same then Some(Bool(a == b))
    else if op == And || op == Or then
      if a.Bool? && b.Bool? then Some(Bool(if op == And then a.b && b.b else a.b || b.b)) else None
    else if !a.Int? || !b.Int? then None
    else if op == Less then Some(Bool(a.n < b.n))
    else if op == Div && b.n == 0 then None
    else Some(Int(RangeCursor.WrapInt(
      if op == Add then a.n + b.n
      else if op == Sub then a.n - b.n
      else if op == Div then Quotient(a.n, b.n)
      else a.n * b.n)))
  }

  function ApplyUnary(op: UnOp, a: Value): Option<Value> {
    match op
    case Neg => if a.Int? then Some(Int(RangeCursor.WrapInt(-a.n))) else None
    case Not => if a.Bool? then Some(Bool(!a.b)) else None
  }

  predicate Decides(op: BinOp, a: Value) {
    (op == And && a == Bool(false)) || (op == Or && a == Bool(true))
  }

  // ---------------------------------------------------------------------------------------------
  // Scopes and stack

  function Lookup(sc: Scopes, x: string): Option<Binding> {
    if sc == [] then None
    else if x in sc[|sc| - 1] then Some(sc[|sc| - 1][x])
    else Lookup(sc[..|sc| - 1], x)
  }

  function Declared(sc: Scopes, x: string, b: Binding): Scopes {
    if sc == [] then sc else sc[|sc| - 1 := sc[|sc| - 1][x := b]]
  }

  /** The innermost binding of the name takes the value. */
  function Assigned(sc: Scopes, x: string, v: Value): Scopes {
    if sc == [] then sc
    else
      var last := |sc| - 1;
      if x in sc[last] then sc[last := sc[last][x := sc[last][x].(v := v)]]
      else Assigned(sc[..last], x, v) + [sc[last]]
  }

  /** `evt1SeedComptimeScope`. */
  function Seeded(st: State): Scopes {
    [map x | x in st.values :: Binding(st.values[x], false)]
  }

  function Active(stack: seq<Frame>, f: string): nat {
    if stack == [] then 0 else Active(stack[..|stack| - 1], f) + (if stack[|stack| - 1] == Call(f) then 1 else 0)
  }

  /** `push`. */
  function Pushed(st: State, frame: Frame): Result<State, Failure> {
    if |st.stack| + 1 > MAX_CALL_DEPTH then Err(DepthExceeded)
    else Ok(st.(stack := st.stack + [frame], log := st.log + [st.stack + [frame]]))
  }

  function Popped(st: State): State {
    if st.stack == [] then st else st.(stack := st.stack[..|st.stack| - 1])
  }

  function IntValues(ns: seq<int>): (r: seq<Value>)
    ensures |r| == |ns|
  {
    if ns == [] then [] else [Int(ns[0])] + IntValues(ns[1..])
  }

  // ---------------------------------------------------------------------------------------------
  // Expressions

  /** `evt1EvalExprTyped`: every expression costs fuel before anything else happens. */
  function Eval(p: Program, st: State, sc: Scopes, e: Expr): (r: Evaluated)
    ensures r.Ok? ==> r.value.1.fuel < st.fuel
    decreases st.fuel, 0, 0
  {
    if st.fuel == 0 then Err(FuelExhausted)
    else
      var st1 := st.(fuel := st.fuel - 1);
      match e
      case Lit(v) => Ok((v, st1))
      case Name(x) =>
        (match Lookup(sc, x)
         case Some(b) => Ok((b.v, st1))
         case None => if x in p.decls then EvalGlobal(p, st1, x) else Err(Unavailable))
      case Unary(op, x) =>
        (match Eval(p, st1, sc, x)
         case Ok((a, st2)) => (match ApplyUnary(op, a) case Some(v) => Ok((v, st2)) case None => Err(Invalid))
         case Err(f) => Err(f))
      case Binary(op, l, r) =>
        (match Eval(p, st1, sc, l)
         case Ok((a, st2)) =>
           if (op == And || op == Or) && !a.Bool? then Err(Invalid)
           else if Decides(op, a) then Ok((a, st2))
           else
             (match Eval(p, st2, sc, r)
              case Ok((b, st3)) => (match Apply(op, a, b) case Some(v) => Ok((v, st3)) case None => Err(Invalid))
              case Err(f) => Err(f))
         case Err(f) => Err(f))
      case IfExpr(c, t, f) =>
        (match Eval(p, st1, sc, c)
         case Ok((a, st2)) =>
           if a == Bool(true) then Eval(p, st2, sc, t)
           else if a == Bool(false) then Eval(p, st2, sc, f)
           else Err(Invalid)
         case Err(f) => Err(f))
      case CallTo(f, args) => EvalCall(p, st1, sc, f, args)
  }

  /** `evt1EvaluateGlobalComptimeDecl`. */
  function EvalGlobal(p: Program, st: State, x: string): (r: Evaluated)
    requires x in p.decls
    ensures r.Ok? ==> r.value.1.fuel <= st.fuel
    decreases st.fuel, 1, 0
  {
    if x in st.values then Ok((st.values[x], st))
    else if x in st.evaluating then Err(Cycle)
    else
      match Pushed(st.(evaluating := st.evaluating + {x}), Global(x))
      case Err(f) => Err(f)
      case Ok(st1) =>
        match Eval(p, st1, Seeded(st1), p.decls[x])
        case Err(f) => Err(f)
        case Ok((v, st2)) =>
          var done := Popped(st2.(evaluating := st2.evaluating - {x}));
          Ok((v, if p.memo then done.(values := done.values[x := v]) else done))
  }

  function EvalArgs(p: Program, st: State, sc: Scopes, args: seq<Expr>): (r: Result<(seq<Value>, State), Failure>)
    ensures r.Ok? ==> r.value.1.fuel <= st.fuel && |r.value.0| == |args|
    decreases st.fuel, 1, |args|
  {
    if args == [] then Ok(([], st))
    else
      match Eval(p, st, sc, args[0])
      case Err(f) => Err(f)
      case Ok((v, st1)) =>
        match EvalArgs(p, st1, sc, args[1..])
        case Err(f) => Err(f)
        case Ok((vs, st2)) => Ok(([v] + vs, st2))
  }

  /** Parameters are mutable locals over the seeded globals. */
  function WithParams(scope: map<string, Binding>, params: seq<string>, vs: seq<Value>): map<string, Binding>
    requires |params| == |vs|
    decreases |params|
  {
    if params == [] then scope
    else WithParams(scope[params[0] := Binding(vs[0], true)], params[1..], vs[1..])
  }

  predicate AtBound(p: Program, st: State, f: string)
    requires f in p.fns
  {
    p.fns[f].recursionBound > 0 && Active(st.stack, f) >= p.fns[f].recursionBound
  }

  /** `evt1EvalComptimeCall`: the frame is pushed before the arguments are evaluated. */
  function EvalCall(p: Program, st: State, sc: Scopes, f: string, args: seq<Expr>): (r: Evaluated)
    ensures r.Ok? ==> r.value.1.fuel <= st.fuel
    decreases st.fuel, 4, 0
  {
    if f !in p.fns then Err(Unavailable)
    else if |p.fns[f].params| != |args| then Err(Invalid)
    else if AtBound(p, st, f) then Err(RecursionExceeded)
    else
      match Pushed(st, Call(f))
      case Err(e) => Err(e)
      case Ok(st1) =>
        match EvalArgs(p, st1, sc, args)
        case Err(e) => Err(e)
        case Ok((vs, st2)) =>
          match ExecBlock(p, st2, [WithParams(Seeded(st1)[0], p.fns[f].params, vs)], p.fns[f].body)
          case Err(e) => Err(e)
          case Ok((Some(v), _, st3)) => Ok((v, Popped(st3)))
          case Ok((None, _, st3)) => if p.fns[f].isVoid then Ok((Void, Popped(st3))) else Err(Invalid)
  }

  // ---------------------------------------------------------------------------------------------
  // Statements

  /** `evt1ExecComptimeBlock`.  A `return` without a value ends only the block it stands in. */
  function ExecBlock(p: Program, st: State, sc: Scopes, b: seq<Stmt>): (r: Executed)
    ensures r.Ok? ==> r.value.2.fuel <= st.fuel
    decreases st.fuel, 3, b, 1
  {
    match ExecAll(p, st, sc + [map[]], b)
    case Err(f) => Err(f)
    case Ok((o, sc1, st1)) => Ok((o, if sc1 == [] then [] else sc1[..|sc1| - 1], st1))
  }

  function ExecAll(p: Program, st: State, sc: Scopes, b: seq<Stmt>): (r: Executed)
    ensures r.Ok? ==> r.value.2.fuel <= st.fuel
    decreases st.fuel, 3, b, 0
  {
    if b == [] then Ok((None, sc, st))
    else if b[0].Return? && b[0].result.None? then Ok((None, sc, st))
    else
      match ExecStmt(p, st, sc, b[0])
      case Err(f) => Err(f)
      case Ok((Some(v), sc1, st1)) => Ok((Some(v), sc1, st1))
      case Ok((None, sc1, st1)) => ExecAll(p, st1, sc1, b[1..])
  }

  function ExecStmt(p: Program, st: State, sc: Scopes, s: Stmt): (r: Executed)
    ensures r.Ok? ==> r.value.2.fuel <= st.fuel
    decreases st.fuel, 3, s, 0
  {
    match s
    case Decl(x, m, e) =>
      (match Eval(p, st, sc, e)
       case Ok((v, st1)) => Ok((None, Declared(sc, x, Binding(v, m)), st1))
       case Err(f) => Err(f))
    case Assign(x, e) =>
      (match Lookup(sc, x)
       case Some(b) =>
         if !b.mutable then Err(Invalid)
         else (match Eval(p, st, sc, e) case Ok((v, st1)) => Ok((None, Assigned(sc, x, v), st1)) case Err(f) => Err(f))
       case None => Err(Invalid))
    case Do(e) => (match Eval(p, st, sc, e) case Ok((_, st1)) => Ok((None, sc, st1)) case Err(f) => Err(f))
    case Return(None) => Ok((None, sc, st))
    case Return(Some(e)) => (match Eval(p, st, sc, e) case Ok((v, st1)) => Ok((Some(v), sc, st1)) case Err(f) => Err(f))
    case If(c, t, f) =>
      (match Eval(p, st, sc, c)
       case Ok((a, st1)) =>
         if a == Bool(true) then ExecBlock(p, st1, sc, t)
         else if a == Bool(false) then ExecBlock(p, st1, sc, f)
         else Err(Invalid)
       case Err(f) => Err(f))
    case While(_, bound, _, _, _) =>
      (match Eval(p, st, sc, bound)
       case Err(f) => Err(f)
       case Ok((n, st1)) =>
         if !n.Int? || n.n < 0 || n.n > MAX_LOOP_BOUND then Err(LoopBoundInvalid)
         else
           match Pushed(st1, WhileLoop(n.n))
           case Err(f) => Err(f)
           case Ok(st2) =>
             match ExecWhile(p, st2, sc, s, n.n, 0)
             case Err(f) => Err(f)
             case Ok((o, sc1, st3)) => Ok((o, sc1, Popped(st3))))
    case For(_, src, _) =>
      (match SourceItems(p, st, sc, src)
       case Err(f) => Err(f)
       case Ok((items, st1)) =>
         match Pushed(st1, ForLoop(|items|))
         case Err(f) => Err(f)
         case Ok(st2) =>
           match ExecFor(p, st2, sc, s, items)
           case Err(f) => Err(f)
           case Ok((o, sc1, st3)) => Ok((o, sc1, Popped(st3))))
    case Block(b) => ExecBlock(p, st, sc, b)
  }

  /** `i` bodies ran.  The condition is tested before the bound. */
  function ExecWhile(p: Program, st: State, sc: Scopes, w: Stmt, bound: int, i: nat): (r: Executed)
    requires w.While?
    ensures r.Ok? ==> r.value.2.fuel <= st.fuel
    decreases st.fuel, 2, 0
  {
    match Eval(p, st, sc, w.c)
    case Err(f) => Err(f)
    case Ok((a, st1)) =>
      if a == Bool(false) then Ok((None, sc, st1))
      else if a != Bool(true) then Err(Invalid)
      else if i >= bound then (if w.hasElse then ExecBlock(p, st1, sc, w.els) else Ok((None, sc, st1)))
      else
        match ExecBlock(p, st1, sc, w.body)
        case Err(f) => Err(f)
        case Ok((Some(v), sc1, st2)) => Ok((Some(v), sc1, st2))
        case Ok((None, sc1, st2)) => ExecWhile(p, st2, sc1, w, bound, i + 1)
  }

  /** `evt1ComptimeIteratorValues`: the step is evaluated before the bounds. */
  function SourceItems(p: Program, st: State, sc: Scopes, src: Source): (r: Result<(seq<Value>, State), Failure>)
    ensures r.Ok? ==> r.value.1.fuel < st.fuel
    decreases st.fuel, 2, 0
  {
    match src
    case Elements(e) =>
      (match Eval(p, st, sc, e)
       case Ok((v, st1)) =>
         if !v.Arr? then Err(Invalid)
         else if |v.items| > MAX_LOOP_BOUND then Err(LoopBoundInvalid)
         else Ok((v.items, st1))
       case Err(f) => Err(f))
    case Range(a, b, step, descending) =>
      (match (if step.Some? then Eval(p, st, sc, step.value) else Ok((Int(1), st)))
       case Err(f) => Err(f)
       case Ok((k, st1)) =>
         if !k.Int? then Err(Invalid)
         else
           match Eval(p, st1, sc, a)
           case Err(f) => Err(f)
           case Ok((from, st2)) =>
             match Eval(p, st2, sc, b)
             case Err(f) => Err(f)
             case Ok((to, st3)) =>
               if !from.Int? || !to.Int? then Err(Invalid)
               else
                 match RangeCursor.ComptimeResult(from.n, to.n, k.n, descending)
                 case Ok(ns) => Ok((IntValues(ns), st3))
                 case Err(_) => Err(LoopBoundInvalid))
  }

  /** `evt1ExecComptimeFor`: every iteration costs fuel and has a scope of its own. */
  function ExecFor(p: Program, st: State, sc: Scopes, f: Stmt, items: seq<Value>): (r: Executed)
    requires f.For?
    ensures r.Ok? ==> r.value.2.fuel <= st.fuel
    decreases st.fuel, 2, 0
  {
    if items == [] then Ok((None, sc, st))
    else if st.fuel == 0 then Err(FuelExhausted)
    else
      match ExecBlock(p, st.(fuel := st.fuel - 1), sc + [map[f.item := Binding(items[0], true)]], f.body)
      case Err(e) => Err(e)
      case Ok((Some(v), sc1, st1)) => Ok((Some(v), if sc1 == [] then [] else sc1[..|sc1| - 1], st1))
      case Ok((None, sc1, st1)) => ExecFor(p, st1, if sc1 == [] then [] else sc1[..|sc1| - 1], f, items[1..])
  }

  /** A fresh evaluation. */
  function Start(): State {
    State(MAX_FUEL, [], map[], {}, [])
  }
}
