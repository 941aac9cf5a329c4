/**
 The structured async language: values, expressions, statements, and the syntactic tests that
 decide how a statement is lowered.
 */
module AsyncSyntax {
  import opened Wrappers
  import RangeCursor

  datatype Value =
    | Void
    | Int(n: int)
    | Bool(b: bool)
    | Arr(items: seq<Value>)
    | Variant(name: string, payload: seq<Value>)

  datatype UnOp = Neg | Not

  datatype BinOp = Add | Sub | Mul | Div | Less | Same | And | Or

  /** An await carries its position among the awaits of its function. */
  datatype Expr =
    | Lit(v: Value)
    | Name(x: string)
    | Unary(uop: UnOp, e: Expr)
    | Binary(op: BinOp, l: Expr, r: Expr)
    | Index(base: Expr, i: Expr)
    | Construct(variant: string, args: seq<Expr>)
    | IfExpr(c: Expr, t: Expr, f: Expr)
    | Await(id: nat, callee: string, operands: seq<Expr>)

  datatype Source =
    | Range(start: Expr, end: Expr, step: Expr, descending: bool)
    | Elements(e: Expr)

  datatype Arm = Arm(tag: string, binds: seq<string>, body: seq<Stmt>)

  /** An absent `else` of an `if` is the empty block; a loop tells the two apart. */
  datatype Stmt =
    | Decl(x: string, e: Expr)
    | Assign(x: string, e: Expr)
    | Do(e: Expr)
    | Assert(c: Expr)
    | Return(result: Option<Expr>)
    | If(c: Expr, thn: seq<Stmt>, els: seq<Stmt>)
    | Match(subject: Expr, arms: seq<Arm>)
    | While(c: Expr, bound: Option<int>, body: seq<Stmt>, hasElse: bool, els: seq<Stmt>)
    | Foreach(item: string, src: Source, body: seq<Stmt>)
    | Block(stmts: seq<Stmt>)

  /** The name the lowering gives an awaited value; `#` cannot occur in a source identifier. */
  const AWAITED := "#await"

  datatype Fn = Fn(params: seq<string>, isVoid: bool, body: seq<Stmt>)

  /** `verify` selects the build in which exhausting a bounded loop without `else` panics. */
  datatype Program = Program(fns: map<string, Fn>, verify: bool)

  // ---------------------------------------------------------------------------------------------
  // Awaits in expressions

  /** No await anywhere in `e`. */
  predicate AwaitFree(e: Expr) {
    match e
    case Lit(_) => true
    case Name(_) => true
    case Unary(_, x) => AwaitFree(x)
    case Binary(_, l, r) => AwaitFree(l) && AwaitFree(r)
    case Index(b, i) => AwaitFree(b) && AwaitFree(i)
    case Construct(_, args) => AllAwaitFree(args)
    case IfExpr(c, t, f) => AwaitFree(c) && AwaitFree(t) && AwaitFree(f)
    case Await(_, _, _) => false
  }

  predicate AllAwaitFree(es: seq<Expr>) {
    es == [] || (AwaitFree(es[0]) && AllAwaitFree(es[1..]))
  }

  /** `evt1DirectAwait`: the first await reached through unary and binary operators only. */
  function DirectAwait(e: Expr): Option<Expr> {
    match e
    case Await(_, _, _) => Some(e)
    case Unary(_, x) => DirectAwait(x)
    case Binary(_, l, r) => if DirectAwait(l).Some? then DirectAwait(l) else DirectAwait(r)
    case _ => None
  }

  /** `evt1ReplaceDirectAwait`: the awaits on the same spine become the name of the awaited value. */
  function ReplaceAwait(e: Expr): Expr {
    match e
    case Await(_, _, _) => Name(AWAITED)
    case Unary(op, x) => Unary(op, ReplaceAwait(x))
    case Binary(op, l, r) => Binary(op, ReplaceAwait(l), ReplaceAwait(r))
    case _ => e
  }

  /** Exactly one await, reached through operators, whose operands hold no further await. */
  predicate OneAwait(e: Expr) {
    match e
    case Await(_, _, args) => AllAwaitFree(args)
    case Unary(_, x) => OneAwait(x)
    case Binary(_, l, r) => (OneAwait(l) && AwaitFree(r)) || (AwaitFree(l) && OneAwait(r))
    case _ => false
  }

  /** The await is not the right operand of `and` or `or`. */
  predicate Unguarded(e: Expr) {
    match e
    case Unary(_, x) => Unguarded(x)
    case Binary(op, l, r) => Unguarded(l) && Unguarded(r) && ((op == And || op == Or) ==> AwaitFree(r))
    case _ => true
  }

  /** The expression of a statement that may hold a direct await. */
  function SimpleExpr(s: Stmt): Option<Expr> {
    match s
    case Decl(_, e) => Some(e)
    case Assign(_, e) => Some(e)
    case Do(e) => Some(e)
    case Return(Some(e)) => Some(e)
    case _ => None
  }

  function StmtAwait(s: Stmt): Option<Expr> {
    match SimpleExpr(s)
    case Some(e) => DirectAwait(e)
    case None => None
  }

  function ResumeStmt(s: Stmt): Stmt {
    match s
    case Decl(x, e) => Decl(x, ReplaceAwait(e))
    case Assign(x, e) => Assign(x, ReplaceAwait(e))
    case Do(e) => Do(ReplaceAwait(e))
    case Return(Some(e)) => Return(Some(ReplaceAwait(e)))
    case _ => s
  }

  // ---------------------------------------------------------------------------------------------
  // Awaits and returns in statements

  /** `evt1ExprContainsAwait`, which looks through operators only. */
  predicate HasAwait(e: Expr) {
    match e
    case Await(_, _, _) => true
    case Unary(_, x) => HasAwait(x)
    case Binary(_, l, r) => HasAwait(l) || HasAwait(r)
    case _ => false
  }

  /** `evt1StatementContainsAwait`. */
  predicate StmtHasAwait(s: Stmt) {
    match s
    case Decl(_, e) => HasAwait(e)
    case Assign(_, e) => HasAwait(e)
    case Do(e) => HasAwait(e)
    case Assert(_) => false
    case Return(r) => r.Some? && HasAwait(r.value)
    case If(c, t, f) => HasAwait(c) || BlockHasAwait(t) || BlockHasAwait(f)
    case Match(e, arms) => HasAwait(e) || ArmsHaveAwait(arms)
    case While(c, _, b, h, f) => HasAwait(c) || BlockHasAwait(b) || (h && BlockHasAwait(f))
    case Foreach(_, src, b) => SourceHasAwait(src) || BlockHasAwait(b)
    case Block(b) => BlockHasAwait(b)
  }

  predicate SourceHasAwait(src: Source) {
    match src
    case Range(a, b, c, _) => HasAwait(a) || HasAwait(b) || HasAwait(c)
    case Elements(e) => HasAwait(e)
  }

  predicate BlockHasAwait(b: seq<Stmt>) {
    b != [] && (StmtHasAwait(b[0]) || BlockHasAwait(b[1..]))
  }

  predicate ArmsHaveAwait(arms: seq<Arm>) {
    arms != [] && (BlockHasAwait(arms[0].body) || ArmsHaveAwait(arms[1..]))
  }

  /** `evt1AsyncBlockContainsReturn`, which does not look into loops. */
  predicate BlockReturns(b: seq<Stmt>) {
    b != [] && (StmtReturns(b[0]) || BlockReturns(b[1..]))
  }

  predicate StmtReturns(s: Stmt) {
    match s
    case Return(_) => true
    case Block(b) => BlockReturns(b)
    case If(_, t, f) => BlockReturns(t) || BlockReturns(f)
    case Match(_, arms) => ArmsReturn(arms)
    case _ => false
  }

  predicate ArmsReturn(arms: seq<Arm>) {
    arms != [] && (BlockReturns(arms[0].body) || ArmsReturn(arms[1..]))
  }

  // ---------------------------------------------------------------------------------------------
  // The shapes of the lowered fragment

  predicate SourceAwaitFree(src: Source) {
    match src
    case Range(a, b, c, _) => AwaitFree(a) && AwaitFree(b) && AwaitFree(c)
    case Elements(e) => AwaitFree(e)
  }

  /** A statement that neither awaits nor returns, at any depth. */
  predicate Plain(s: Stmt) {
    match s
    case Decl(x, e) => AwaitFree(e)
    case Assign(x, e) => AwaitFree(e)
    case Do(e) => AwaitFree(e)
    case Assert(c) => AwaitFree(c)
    case Return(_) => false
    case If(c, t, f) => AwaitFree(c) && PlainBlock(t) && PlainBlock(f)
    case Match(e, arms) => AwaitFree(e) && PlainArms(arms)
    case While(c, _, b, h, f) => AwaitFree(c) && PlainBlock(b) && (h ==> PlainBlock(f))
    case Foreach(_, src, b) => SourceAwaitFree(src) && PlainBlock(b)
    case Block(b) => PlainBlock(b)
  }

  predicate PlainBlock(b: seq<Stmt>) {
    b == [] || (Plain(b[0]) && PlainBlock(b[1..]))
  }

  predicate PlainArms(arms: seq<Arm>) {
    arms == [] || (PlainBlock(arms[0].body) && PlainArms(arms[1..]))
  }

  /** The statement's own expression holds no await, or one that can be split off. */
  predicate Splittable(e: Expr) {
    AwaitFree(e) || (OneAwait(e) && Unguarded(e) && AWAITED !in Mentions(e))
  }

  /**
   The fragment: conditions, subjects and sources await nothing, a simple statement holds at most
   one unguarded direct await, and a nested block, or a loop that awaits nothing, does not return.
   */
  predicate Shaped(s: Stmt) {
    match s
    case Decl(_, e) => Splittable(e)
    case Assign(_, e) => Splittable(e)
    case Do(e) => Splittable(e)
    case Assert(c) => AwaitFree(c)
    case Return(r) => r.Some? ==> Splittable(r.value)
    case If(c, t, f) => AwaitFree(c) && ShapedBlock(t) && ShapedBlock(f)
    case Match(e, arms) => AwaitFree(e) && ShapedArms(arms)
    case While(c, _, b, h, f) =>
      if StmtHasAwait(s) then AwaitFree(c) && ShapedBlock(b) && (h ==> ShapedBlock(f)) else Plain(s)
    case Foreach(_, src, b) =>
      if StmtHasAwait(s) then SourceAwaitFree(src) && ShapedBlock(b) else Plain(s)
    case Block(b) => Plain(s)
  }

  predicate ShapedBlock(b: seq<Stmt>) {
    b == [] || (Shaped(b[0]) && ShapedBlock(b[1..]))
  }

  predicate ShapedArms(arms: seq<Arm>) {
    arms == [] || (ShapedBlock(arms[0].body) && ShapedArms(arms[1..]))
  }

  predicate ShapedProgram(p: Program) {
    forall f <- p.fns :: ShapedBlock(p.fns[f].body)
  }

  /** Every name an expression mentions, in any position. */
  function Mentions(e: Expr): set<string> {
    match e
    case Lit(_) => {}
    case Name(x) => {x}
    case Unary(_, x) => Mentions(x)
    case Binary(_, l, r) => Mentions(l) + Mentions(r)
    case Index(b, i) => Mentions(b) + Mentions(i)
    case Construct(_, args) => AllMentions(args)
    case IfExpr(c, t, f) => Mentions(c) + Mentions(t) + Mentions(f)
    case Await(_, _, args) => AllMentions(args)
  }

  function AllMentions(es: seq<Expr>): set<string> {
    if es == [] then {} else Mentions(es[0]) + AllMentions(es[1..])
  }

  /** `evt1ExprNames`: the names seen by the graph analysis, which skips `if` and constructor expressions. */
  function VisibleNames(e: Expr): set<string> {
    match e
    case Lit(_) => {}
    case Name(x) => {x}
    case Unary(_, x) => VisibleNames(x)
    case Binary(_, l, r) => VisibleNames(l) + VisibleNames(r)
    case Index(b, i) => VisibleNames(b) + VisibleNames(i)
    case Construct(_, _) => {}
    case IfExpr(_, _, _) => {}
    case Await(_, _, args) => AllVisible(args)
  }

  function AllVisible(es: seq<Expr>): set<string> {
    if es == [] then {} else VisibleNames(es[0]) + AllVisible(es[1..])
  }
}
