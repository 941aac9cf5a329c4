/**
 Direct evaluation of async code: `await f(args)` is read as a call of `f`.

 This is the reference meaning the generated state machines are compared with.  `fuel` bounds the
 nesting of calls and loop iterations; running out of it is `Timeout`, never an answer.  `depth`
 counts the active machine frames, the running one included: the runtime holds eight.
 */
module AsyncDirect {
  import opened Wrappers
  import opened AsyncSyntax
  import opened Division
  import RangeCursor

  /** `evt1MachineStackCapacity`. */
  const CAPACITY: nat := 8

  type Store = map<string, Value>

  /** A name without a local has no meaning: the lowering has no binding for it. */
  function Lookup(s: Store, x: string): Option<Value> {
    if x in s then Some(s[x]) else None
  }

  /** The elements of an array variable. */
  function ItemsOf(s: Store, x: string): Option<seq<Value>> {
    if x in s && s[x].Arr? then Some(s[x].items) else None
  }

  predicate FitsInt(n: int) { -0x8000_0000 <= n < 0x8000_0000 }

  function CheckedInt(n: int): Option<Value> {
    if FitsInt(n) then Some(Int(n)) else None
  }

  /** An operator on evaluated operands; `None` is a panic. */
  function Apply(op: BinOp, a: Value, b: Value): Option<Value> {
    if op == Same then Some(Bool(a == b))
    else if op == And || op == Or then
      if a.Bool? && b.Bool? then Some(Bool(if op == And then a.b && b.b else a.b || b.b)) else None
    else if !a.Int? || !b.Int? then None
    else if op == Less then Some(Bool(a.n < b.n))
    else if op == Div && b.n == 0 then None
    else CheckedInt(
      if op == Add then a.n + b.n else if op == Sub then a.n - b.n
      else if op == Div then Quotient(a.n, b.n) else a.n * b.n)
  }

  function ApplyUnary(op: UnOp, a: Value): Option<Value> {
    match op
    case Neg => if a.Int? then CheckedInt(-a.n) else None
    case Not => if a.Bool? then Some(Bool(!a.b)) else None
  }

  /** Integer arithmetic yields the exact result, or panics if that is no 32-bit integer or there is none. */
  lemma ArithmeticIsExact(op: BinOp, a: int, b: int, n: int)
    requires op == Add || op == Sub || op == Mul || op == Div
    ensures Apply(op, Int(a), Int(b)) == Some(Int(n)) <==>
            && FitsInt(n)
            && match op
               case Add => n == a + b
               case Sub => n + b == a
               case Mul => n == a * b
               case _ => b != 0 && Divides(a, b, n)
  {
    hide Divides, Quotient;
    if b != 0 {
      QuotientIff(a, b, n);
    }
  }

  /** The left value already decides `and` or `or`. */
  predicate Decides(op: BinOp, a: Value) {
    (op == And && a == Bool(false)) || (op == Or && a == Bool(true))
  }

  /** Evaluation without awaits; `None` is a panic. */
  function Pure(e: Expr, s: Store): Option<Value> {
    match e
    case Lit(v) => Some(v)
    case Name(x) => Lookup(s, x)
    case Unary(op, x) =>
      (match Pure(x, s)
       case Some(a) => ApplyUnary(op, a)
       case None => None)
    case Binary(op, l, r) =>
      (match Pure(l, s)
       case Some(a) =>
         if Decides(op, a) then Some(a)
         else (match Pure(r, s)
               case Some(b) => Apply(op, a, b)
               case None => None)
       case None => None)
    case Index(base, i) =>
      (match Pure(base, s)
       case Some(a) =>
         (match Pure(i, s)
          case Some(j) => if a.Arr? && j.Int? && 0 <= j.n < |a.items| then Some(a.items[j.n]) else None
          case None => None)
       case None => None)
    case Construct(variant, args) =>
      (match PureAll(args, s)
       case Some(vs) => Some(Variant(variant, vs))
       case None => None)
    case IfExpr(c, t, f) =>
      (match Pure(c, s)
       case Some(a) => if a == Bool(true) then Pure(t, s) else if a == Bool(false) then Pure(f, s) else None
       case None => None)
    case Await(_, _, _) => None
  }

  function PureAll(es: seq<Expr>, s: Store): (r: Option<seq<Value>>)
  {
    if es == [] then Some([])
    else
      match Pure(es[0], s)
      case Some(v) =>
        (match PureAll(es[1..], s)
         case Some(vs) => Some([v] + vs)
         case None => None)
      case None => None
  }

  datatype EvalOut = Val(v: Value) | EvalFail | EvalTimeout

  datatype Out =
    | Normal(s: Store)
    | Ret(v: Value, s: Store)
    | Fail
    | Timeout

  function Evaluated(r: Option<Value>): EvalOut {
    match r
    case Some(v) => Val(v)
    case None => EvalFail
  }

  function Bind(params: seq<string>, args: seq<Value>): Store
    requires |params| == |args|
  {
    if params == [] then map[]
    else Bind(params[..|params| - 1], args[..|args| - 1])[params[|params| - 1] := args[|args| - 1]]
  }

  /** A parameter is bound to its argument; of two equal names the later one counts. */
  lemma {:induction false} BindIs(params: seq<string>, args: seq<Value>, i: nat)
    requires |params| == |args| && i < |params| && forall j :: i < j < |params| ==> params[j] != params[i]
    ensures params[i] in Bind(params, args) && Bind(params, args)[params[i]] == args[i]
    decreases |params|
  {
    var n := |params| - 1;
    if i < n {
      BindIs(params[..n], args[..n], i);
    }
  }

  /** An expression that may hold a direct await, operands first and left to right. */
  function Eval(p: Program, e: Expr, s: Store, depth: nat, fuel: nat): EvalOut
    decreases fuel, 1, e, 0
  {
    if AwaitFree(e) then Evaluated(Pure(e, s))
    else
      match e
      case Await(_, f, args) =>
        (match PureAll(args, s)
         case Some(vs) => Call(p, f, vs, depth, fuel)
         case None => EvalFail)
      case Unary(op, x) =>
        (match Eval(p, x, s, depth, fuel)
         case Val(a) => Evaluated(ApplyUnary(op, a))
         case o => o)
      case Binary(op, l, r) =>
        (match Eval(p, l, s, depth, fuel)
         case Val(a) =>
           if Decides(op, a) then Val(a)
           else (match Eval(p, r, s, depth, fuel)
                 case Val(b) => Evaluated(Apply(op, a, b))
                 case o => o)
         case o => o)
      case _ => EvalFail
  }

  function Call(p: Program, f: string, args: seq<Value>, depth: nat, fuel: nat): EvalOut
    decreases fuel, 0
  {
    if depth >= CAPACITY || f !in p.fns || |p.fns[f].params| != |args| then EvalFail
    else if fuel == 0 then EvalTimeout
    else
      match Exec(p, p.fns[f].body, Bind(p.fns[f].params, args), depth + 1, fuel - 1)
      case Normal(_) => if p.fns[f].isVoid then Val(Void) else EvalFail
      case Ret(v, _) => Val(v)
      case Fail => EvalFail
      case Timeout => EvalTimeout
  }

  function Exec(p: Program, b: seq<Stmt>, s: Store, depth: nat, fuel: nat): Out
    decreases fuel, 1, b, 1
  {
    if b == [] then Normal(s)
    else
      match ExecStmt(p, b[0], s, depth, fuel)
      case Normal(s1) => Exec(p, b[1..], s1, depth, fuel)
      case o => o
  }

  /** Only a local that was declared can be assigned. */
  function Assigned(r: EvalOut, x: string, s: Store): Out {
    match r
    case Val(v) => Normal(s[x := v])
    case EvalFail => Fail
    case EvalTimeout => Timeout
  }

  function ExecStmt(p: Program, st: Stmt, s: Store, depth: nat, fuel: nat): Out
    decreases fuel, 1, st, 2
  {
    match st
    case Decl(x, e) => Assigned(Eval(p, e, s, depth, fuel), x, s)
    case Assign(x, e) => if x in s then Assigned(Eval(p, e, s, depth, fuel), x, s) else Fail
    case Do(e) =>
      (match Eval(p, e, s, depth, fuel)
       case Val(_) => Normal(s)
       case EvalFail => Fail
       case EvalTimeout => Timeout)
    case Assert(c) => if Pure(c, s) == Some(Bool(true)) then Normal(s) else Fail
    case Return(None) => Ret(Void, s)
    case Return(Some(e)) =>
      (match Eval(p, e, s, depth, fuel)
       case Val(v) => Ret(v, s)
       case EvalFail => Fail
       case EvalTimeout => Timeout)
    case If(c, t, f) =>
      (match Pure(c, s)
       case Some(Bool(true)) => Exec(p, t, s, depth, fuel)
       case Some(Bool(false)) => Exec(p, f, s, depth, fuel)
       case _ => Fail)
    case Match(e, arms) =>
      (match Pure(e, s)
       case Some(Variant(tag, payload)) => ExecArms(p, arms, tag, payload, s, depth, fuel)
       case _ => Fail)
    case While(_, _, _, _, _) => ExecWhile(p, st, 0, s, depth, fuel)
    case Foreach(_, src, _) =>
      (match Open(src, s)
       case Some(it) => ExecFor(p, st, it, s, depth, fuel)
       case None => Fail)
    case Block(b) => Exec(p, b, s, depth, fuel)
  }

  /** The first arm for the variant runs with the payload bound. */
  function ExecArms(p: Program, arms: seq<Arm>, tag: string, payload: seq<Value>, s: Store, depth: nat, fuel: nat): Out
    decreases fuel, 1, arms, 3
  {
    if arms == [] then Fail
    else if arms[0].tag == tag then
      if |arms[0].binds| != |payload| then Fail
      else Exec(p, arms[0].body, s + Bind(arms[0].binds, payload), depth, fuel)
    else ExecArms(p, arms[1..], tag, payload, s, depth, fuel)
  }

  /** `done` iterations ran.  The condition is tested first, then the bound. */
  function ExecWhile(p: Program, w: Stmt, done: nat, s: Store, depth: nat, fuel: nat): Out
    requires w.While?
    decreases fuel, 1, w, 1
  {
    if fuel == 0 then Timeout
    else
      match Pure(w.c, s)
      case Some(Bool(false)) => Normal(s)
      case Some(Bool(true)) =>
        if w.bound.Some? && done >= w.bound.value then
          if w.hasElse then Exec(p, w.els, s, depth, fuel - 1)
          else if p.verify then Fail else Normal(s)
        else
          (match Exec(p, w.body, s, depth, fuel - 1)
           case Normal(s1) => ExecWhile(p, w, done + 1, s1, depth, fuel - 1)
           case o => o)
      case _ => Fail
  }

  // ---------------------------------------------------------------------------------------------
  // Iteration

  /**
   What a `foreach` still has to visit: fixed items, or the elements from `next` on of an array
   variable, which is iterated in place and not copied.
   */
  datatype Iteration = Fixed(items: seq<Value>) | InPlace(variable: string, next: nat)

  function IntValues(ns: seq<int>): seq<Value> {
    if ns == [] then [] else [Int(ns[0])] + IntValues(ns[1..])
  }

  /** The evaluated bounds of a valid range: start, end, step. */
  function RangeBounds(src: Source, s: Store): Option<(int, int, int)>
    requires src.Range?
  {
    match (Pure(src.start, s), Pure(src.end, s), Pure(src.step, s))
    case (Some(Int(a)), Some(Int(b)), Some(Int(c))) =>
      if && RangeCursor.ValidRange(a, b, c, src.descending)
         && RangeCursor.InElement(true, a) && RangeCursor.InElement(true, b) && RangeCursor.InElement(true, c)
      then Some((a, b, c)) else None
    case _ => None
  }

  function Open(src: Source, s: Store): Option<Iteration> {
    match src
    case Range(_, _, _, descending) =>
      (match RangeBounds(src, s)
       case Some((a, b, c)) => Some(Fixed(IntValues(RangeCursor.Items(a, b, c, descending))))
       case None => None)
    case Elements(Name(x)) => if ItemsOf(s, x).Some? then Some(InPlace(x, 0)) else None
    case Elements(e) =>
      (match Pure(e, s)
       case Some(Arr(items)) => Some(Fixed(items))
       case _ => None)
  }

  /** The item to visit now, if any. */
  function Current(it: Iteration, s: Store): Option<Value> {
    match it
    case Fixed(items) => if items == [] then None else Some(items[0])
    case InPlace(x, k) =>
      if ItemsOf(s, x).Some? && k < |ItemsOf(s, x).value| then Some(ItemsOf(s, x).value[k]) else None
  }

  function Following(it: Iteration): Iteration {
    match it
    case Fixed(items) => Fixed(if items == [] then [] else items[1..])
    case InPlace(x, k) => InPlace(x, k + 1)
  }

  function ExecFor(p: Program, f: Stmt, it: Iteration, s: Store, depth: nat, fuel: nat): Out
    requires f.Foreach?
    decreases fuel, 1, f, 1
  {
    if fuel == 0 then Timeout
    else
      match Current(it, s)
      case None => Normal(s)
      case Some(v) =>
        match Exec(p, f.body, s[f.item := v], depth, fuel - 1)
        case Normal(s1) => ExecFor(p, f, Following(it), s1, depth, fuel - 1)
        case o => o
  }

  /** Running function `f` as an operation of its own. */
  function Direct(p: Program, f: string, args: seq<Value>, fuel: nat): EvalOut {
    Call(p, f, args, 0, fuel)
  }
}
