/**
 What compile-time code means, as inductive rules: no fuel, no stack, no cache and no order of evaluation.  The
 evaluator is compared with these rules in `ComptimeAdequacy`.
 */
module ComptimeMeaning {
  import opened Wrappers
  import opened Comptime
  import opened Division
  import RangeCursor

  // ---------------------------------------------------------------------------------------------
  // Names and operators

  /** The innermost scope that binds the name. */
  ghost predicate BoundAt(env: Scopes, x: string, i: nat) {
    i < |env| && x in env[i] && forall j :: i < j < |env| ==> x !in env[j]
  }

  ghost predicate Unbound(env: Scopes, x: string) {
    forall i :: 0 <= i < |env| ==> x !in env[i]
  }

  /** The 64-bit integer that is congruent to `n`. */
  ghost predicate Wraps(v: Value, n: int) {
    v.Int? && -RangeCursor.TWO63 <= v.n < RangeCursor.TWO63 && (v.n - n) % RangeCursor.TWO64 == 0
  }

  ghost predicate OpMeans(op: BinOp, a: Value, b: Value, v: Value) {
    match op
    case Same => v.Bool? && (v.b <==> a == b)
    case And => a.Bool? && b.Bool? && v.Bool? && (v.b <==> a.b && b.b)
    case Or => a.Bool? && b.Bool? && v.Bool? && (v.b <==> a.b || b.b)
    case Less => a.Int? && b.Int? && v.Bool? && (v.b <==> a.n < b.n)
    case Add => a.Int? && b.Int? && Wraps(v, a.n + b.n)
    case Sub => a.Int? && b.Int? && Wraps(v, a.n - b.n)
    case Mul => a.Int? && b.Int? && Wraps(v, a.n * b.n)
    case Div => a.Int? && b.Int? && b.n != 0 && exists q :: Divides(a.n, b.n, q) && Wraps(v, q)
  }

  ghost predicate UnaryMeans(op: UnOp, a: Value, v: Value) {
    match op
    case Neg => a.Int? && Wraps(v, -a.n)
    case Not => a.Bool? && v.Bool? && v.b != a.b
  }

  /** Parameters bound to arguments, all mutable; of two equal names the later one counts. */
  ghost predicate Entry(params: seq<string>, vs: seq<Value>, scope: map<string, Binding>) {
    && |params| == |vs|
    && (forall x :: x in scope <==> x in params)
    && forall i :: 0 <= i < |params| && params[i] !in params[i + 1..] ==> scope[params[i]] == Binding(vs[i], true)
  }

  function Stride(step: int, descending: bool): int {
    if descending then -step else step
  }

  /** The wrapped end of the last step is not before the end. */
  ghost predicate Passes(last: int, end: int, step: int, descending: bool) {
    exists past: Value :: Wraps(past, last + Stride(step, descending)) && !RangeCursor.Before(past.n, end, descending)
  }

  /** Each item is one wrapping step from the one before and before the end; the next one would not be. */
  ghost predicate Walks(start: int, end: int, step: int, descending: bool, items: seq<Value>) {
    && (forall i :: 0 <= i < |items| ==> items[i].Int? && RangeCursor.Before(items[i].n, end, descending))
    && (forall i :: 0 < i < |items| ==> Wraps(items[i], items[i - 1].n + Stride(step, descending)))
    && if items == [] then !RangeCursor.Before(start, end, descending)
       else items[0] == Int(start) && Passes(items[|items| - 1].n, end, step, descending)
  }

  ghost predicate Enumerates(start: int, end: int, step: int, descending: bool, items: seq<Value>) {
    && RangeCursor.ValidRange(start, end, step, descending) && |items| <= MAX_LOOP_BOUND
    && Walks(start, end, step, descending, items)
  }

  /** Start, end and step; a step that is not given is one. */
  function Bounds(src: Source): seq<Expr>
    requires src.Range?
  {
    [src.start, src.end, if src.step.Some? then src.step.value else Lit(Int(1))]
  }

  ghost predicate Ranges(bounds: seq<Value>, descending: bool, items: seq<Value>) {
    && |bounds| == 3 && bounds[0].Int? && bounds[1].Int? && bounds[2].Int?
    && Enumerates(bounds[0].n, bounds[1].n, bounds[2].n, descending, items)
  }

  // ---------------------------------------------------------------------------------------------
  // Expressions

  least predicate Means[nat](p: Program, env: Scopes, e: Expr, v: Value) {
    match e
    case Lit(w) => v == w
    case Name(x) =>
      || (exists i: nat :: BoundAt(env, x, i) && v == env[i][x].v)
      || (Unbound(env, x) && x in p.decls && Means(p, [map[]], p.decls[x], v))
    case Unary(op, a) => exists w :: Means(p, env, a, w) && UnaryMeans(op, w, v)
    case Binary(And, l, r) =>
      || (Means(p, env, l, Bool(false)) && v == Bool(false))
      || (Means(p, env, l, Bool(true)) && v.Bool? && Means(p, env, r, v))
    case Binary(Or, l, r) =>
      || (Means(p, env, l, Bool(true)) && v == Bool(true))
      || (Means(p, env, l, Bool(false)) && v.Bool? && Means(p, env, r, v))
    case Binary(op, l, r) => exists a, b :: Means(p, env, l, a) && Means(p, env, r, b) && OpMeans(op, a, b, v)
    case IfExpr(c, t, f) =>
      || (Means(p, env, c, Bool(true)) && Means(p, env, t, v))
      || (Means(p, env, c, Bool(false)) && Means(p, env, f, v))
    case CallTo(f, args) =>
      && f in p.fns
      && exists vs, scope, o, env1 ::
           && ArgsMean(p, env, args, vs) && Entry(p.fns[f].params, vs, scope)
           && BlockMeans(p, [scope], p.fns[f].body, o, env1)
           && (o == Some(v) || (o == None && p.fns[f].isVoid && v == Void))
  }

  least predicate ArgsMean[nat](p: Program, env: Scopes, args: seq<Expr>, vs: seq<Value>) {
    if args == [] then vs == []
    else vs != [] && Means(p, env, args[0], vs[0]) && ArgsMean(p, env, args[1..], vs[1..])
  }

  // ---------------------------------------------------------------------------------------------
  // Statements: the value returned, if any, and the scopes after

  /** A block has a scope of its own. */
  least predicate BlockMeans[nat](p: Program, env: Scopes, b: seq<Stmt>, o: Option<Value>, env1: Scopes) {
    exists inner :: AllMean(p, env + [map[]], b, o, inner) && |inner| == |env| + 1 && env1 == inner[..|env|]
  }

  /** A `return` without a value ends the list, and no more than the list. */
  least predicate AllMean[nat](p: Program, env: Scopes, b: seq<Stmt>, o: Option<Value>, env1: Scopes) {
    if b == [] || b[0] == Return(None) then o == None && env1 == env
    else
      exists first, env2 ::
        StmtMeans(p, env, b[0], first, env2) &&
        if first.Some? then o == first && env1 == env2 else AllMean(p, env2, b[1..], o, env1)
  }

  least predicate StmtMeans[nat](p: Program, env: Scopes, s: Stmt, o: Option<Value>, env1: Scopes) {
    match s
    case Decl(x, m, e) =>
      && o == None && env != []
      && exists v :: Means(p, env, e, v) && env1 == env[|env| - 1 := env[|env| - 1][x := Binding(v, m)]]
    case Assign(x, e) =>
      && o == None
      && exists i: nat, v :: && BoundAt(env, x, i) && env[i][x].mutable && Means(p, env, e, v)
                             && env1 == env[i := env[i][x := Binding(v, true)]]
    case Do(e) => o == None && env1 == env && exists v :: Means(p, env, e, v)
    case Return(None) => o == None && env1 == env
    case Return(Some(e)) => o.Some? && env1 == env && Means(p, env, e, o.value)
    case If(c, t, f) =>
      || (Means(p, env, c, Bool(true)) && BlockMeans(p, env, t, o, env1))
      || (Means(p, env, c, Bool(false)) && BlockMeans(p, env, f, o, env1))
    case While(_, bound, _, _, _) =>
      exists n: int :: && Means(p, env, bound, Int(n)) && 0 <= n <= MAX_LOOP_BOUND
                       && WhileMeans(p, env, s, n, o, env1)
    case For(_, src, _) => exists items :: SourceMeans(p, env, src, items) && ForMeans(p, env, s, items, o, env1)
    case Block(b) => BlockMeans(p, env, b, o, env1)
  }

  /** The items of an iteration. */
  least predicate SourceMeans[nat](p: Program, env: Scopes, src: Source, items: seq<Value>) {
    match src
    case Elements(e) => Means(p, env, e, Arr(items)) && |items| <= MAX_LOOP_BOUND
    case Range(_, _, _, descending) =>
      exists bounds :: ArgsMean(p, env, Bounds(src), bounds) && Ranges(bounds, descending, items)
  }

  least predicate WhileMeans[nat](p: Program, env: Scopes, w: Stmt, left: int, o: Option<Value>, env1: Scopes) {
    && w.While?
    && (|| (Means(p, env, w.c, Bool(false)) && o == None && env1 == env)
        || (Means(p, env, w.c, Bool(true)) && MoreMeans(p, env, w, left, o, env1)))
  }

  /** While the condition holds: at most `left` more bodies, and after them the `else`. */
  least predicate MoreMeans[nat](p: Program, env: Scopes, w: Stmt, left: int, o: Option<Value>, env1: Scopes) {
    && w.While?
    && if left <= 0 then if w.hasElse then BlockMeans(p, env, w.els, o, env1) else o == None && env1 == env
       else
         exists first, env2 ::
           BlockMeans(p, env, w.body, first, env2) &&
           if first.Some? then o == first && env1 == env2 else WhileMeans(p, env2, w, left - 1, o, env1)
  }

  /** Each item runs the body in a scope of its own. */
  least predicate ForMeans[nat](p: Program, env: Scopes, f: Stmt, items: seq<Value>, o: Option<Value>, env1: Scopes) {
    f.For? &&
    if items == [] then o == None && env1 == env
    else
      exists first, inner ::
        && BlockMeans(p, env + [map[f.item := Binding(items[0], true)]], f.body, first, inner)
        && |inner| == |env| + 1
        && if first.Some? then o == first && env1 == inner[..|env|]
           else ForMeans(p, inner[..|env|], f, items[1..], o, env1)
  }

  /** What a block returns, whatever it leaves bound. */
  ghost predicate Returns(p: Program, env: Scopes, b: seq<Stmt>, o: Option<Value>) {
    exists env1 :: BlockMeans(p, env, b, o, env1)
  }
}
