/** Meanings with derivations of bounded size, their parts, and why nothing means two things. */
module ComptimeDerivations {
  import opened Wrappers
  import opened Comptime
  import opened ComptimeMeaning
  import opened Division
  import RangeCursor

  // ---------------------------------------------------------------------------------------------
  // Meanings with derivations of at most `k` steps, and their parts

  ghost predicate MeansIn(k: nat, p: Program, env: Scopes, e: Expr, v: Value) {
    Means#[k](p, env, e, v)
  }

  ghost predicate ArgsIn(k: nat, p: Program, env: Scopes, args: seq<Expr>, vs: seq<Value>) {
    ArgsMean#[k](p, env, args, vs)
  }

  ghost predicate BlockIn(k: nat, p: Program, env: Scopes, b: seq<Stmt>, o: Option<Value>, env1: Scopes) {
    BlockMeans#[k](p, env, b, o, env1)
  }

  ghost predicate AllIn(k: nat, p: Program, env: Scopes, b: seq<Stmt>, o: Option<Value>, env1: Scopes) {
    AllMean#[k](p, env, b, o, env1)
  }

  ghost predicate StmtIn(k: nat, p: Program, env: Scopes, s: Stmt, o: Option<Value>, env1: Scopes) {
    StmtMeans#[k](p, env, s, o, env1)
  }

  ghost predicate SourceIn(k: nat, p: Program, env: Scopes, src: Source, items: seq<Value>) {
    SourceMeans#[k](p, env, src, items)
  }

  ghost predicate WhileIn(k: nat, p: Program, env: Scopes, w: Stmt, left: int, o: Option<Value>, env1: Scopes) {
    WhileMeans#[k](p, env, w, left, o, env1)
  }

  ghost predicate MoreIn(k: nat, p: Program, env: Scopes, w: Stmt, left: int, o: Option<Value>, env1: Scopes) {
    MoreMeans#[k](p, env, w, left, o, env1)
  }

  ghost predicate ForIn(k: nat, p: Program, env: Scopes, f: Stmt, items: seq<Value>, o: Option<Value>, env1: Scopes) {
    ForMeans#[k](p, env, f, items, o, env1)
  }

  lemma UnaryParts(k: nat, p: Program, env: Scopes, e: Expr, v: Value) returns (a: Value)
    requires e.Unary? && MeansIn(k, p, env, e, v)
    ensures k > 0 && MeansIn(k - 1, p, env, e.e, a) && UnaryMeans(e.uop, a, v)
  {
    hide UnaryMeans;
    a :| Means#[k - 1](p, env, e.e, a) && UnaryMeans(e.uop, a, v);
  }

  lemma CallParts(k: nat, p: Program, env: Scopes, f: string, args: seq<Expr>, v: Value)
    returns (vs: seq<Value>, scope: map<string, Binding>, o: Option<Value>, env1: Scopes)
    requires MeansIn(k, p, env, CallTo(f, args), v)
    ensures k > 0 && f in p.fns && ArgsIn(k - 1, p, env, args, vs) && Entry(p.fns[f].params, vs, scope)
    ensures BlockIn(k - 1, p, [scope], p.fns[f].body, o, env1)
    ensures o == Some(v) || (o == None && p.fns[f].isVoid && v == Void)
  {
    hide Entry;
    vs, scope, o, env1 :|
      && ArgsMean#[k - 1](p, env, args, vs) && Entry(p.fns[f].params, vs, scope)
      && BlockMeans#[k - 1](p, [scope], p.fns[f].body, o, env1)
      && (o == Some(v) || (o == None && p.fns[f].isVoid && v == Void));
  }

  lemma ArgsParts(k: nat, p: Program, env: Scopes, args: seq<Expr>, vs: seq<Value>)
    requires ArgsIn(k, p, env, args, vs)
    ensures args == [] ==> vs == []
    ensures args != [] ==> k > 0 && vs != [] && MeansIn(k - 1, p, env, args[0], vs[0])
                           && ArgsIn(k - 1, p, env, args[1..], vs[1..])
  {
  }

  lemma BlockParts(k: nat, p: Program, env: Scopes, b: seq<Stmt>, o: Option<Value>, env1: Scopes)
    returns (inner: Scopes)
    requires BlockIn(k, p, env, b, o, env1)
    ensures k > 0 && AllIn(k - 1, p, env + [map[]], b, o, inner) && |inner| == |env| + 1 && env1 == inner[..|env|]
  {
    inner :| AllMean#[k - 1](p, env + [map[]], b, o, inner) && |inner| == |env| + 1 && env1 == inner[..|env|];
  }

  lemma AllParts(k: nat, p: Program, env: Scopes, b: seq<Stmt>, o: Option<Value>, env1: Scopes)
    returns (first: Option<Value>, env2: Scopes)
    requires AllIn(k, p, env, b, o, env1)
    ensures b == [] || b[0] == Return(None) ==> o == None && env1 == env
    ensures b != [] && b[0] != Return(None) ==>
              && k > 0 && StmtIn(k - 1, p, env, b[0], first, env2)
              && if first.Some? then o == first && env1 == env2 else AllIn(k - 1, p, env2, b[1..], o, env1)
  {
    first, env2 := o, env1;
    if b != [] && b[0] != Return(None) {
      first, env2 :| StmtMeans#[k - 1](p, env, b[0], first, env2) &&
                     if first.Some? then o == first && env1 == env2 else AllMean#[k - 1](p, env2, b[1..], o, env1);
    }
  }

  lemma NestedParts(k: nat, p: Program, env: Scopes, s: Stmt, o: Option<Value>, env1: Scopes)
    requires StmtIn(k, p, env, s, o, env1) && s.Block?
    ensures k > 0 && BlockIn(k - 1, p, env, s.stmts, o, env1)
  {
  }

  lemma IfParts(k: nat, p: Program, env: Scopes, s: Stmt, o: Option<Value>, env1: Scopes) returns (a: bool)
    requires StmtIn(k, p, env, s, o, env1) && s.If?
    ensures k > 0 && MeansIn(k - 1, p, env, s.c, Bool(a))
    ensures BlockIn(k - 1, p, env, if a then s.thn else s.els, o, env1)
  {
    a := Means#[k - 1](p, env, s.c, Bool(true)) && BlockMeans#[k - 1](p, env, s.thn, o, env1);
  }

  lemma LimitParts(k: nat, p: Program, env: Scopes, s: Stmt, o: Option<Value>, env1: Scopes) returns (n: int)
    requires StmtIn(k, p, env, s, o, env1) && s.While?
    ensures k > 0 && MeansIn(k - 1, p, env, s.bound, Int(n)) && 0 <= n <= MAX_LOOP_BOUND
    ensures WhileIn(k - 1, p, env, s, n, o, env1)
  {
    n :| Means#[k - 1](p, env, s.bound, Int(n)) && 0 <= n <= MAX_LOOP_BOUND
         && WhileMeans#[k - 1](p, env, s, n, o, env1);
  }

  lemma ForParts(k: nat, p: Program, env: Scopes, s: Stmt, o: Option<Value>, env1: Scopes) returns (items: seq<Value>)
    requires StmtIn(k, p, env, s, o, env1) && s.For?
    ensures k > 0 && SourceIn(k - 1, p, env, s.src, items) && ForIn(k - 1, p, env, s, items, o, env1)
  {
    items :| SourceMeans#[k - 1](p, env, s.src, items) && ForMeans#[k - 1](p, env, s, items, o, env1);
  }

  lemma ElementsParts(k: nat, p: Program, env: Scopes, src: Source, items: seq<Value>)
    requires SourceIn(k, p, env, src, items) && src.Elements?
    ensures k > 0 && MeansIn(k - 1, p, env, src.e, Arr(items)) && |items| <= MAX_LOOP_BOUND
  {
  }

  lemma RangeParts(k: nat, p: Program, env: Scopes, src: Source, items: seq<Value>) returns (bounds: seq<Value>)
    requires SourceIn(k, p, env, src, items) && src.Range?
    ensures k > 0 && ArgsIn(k - 1, p, env, Bounds(src), bounds) && Ranges(bounds, src.descending, items)
  {
    hide Ranges;
    bounds :| ArgsMean#[k - 1](p, env, Bounds(src), bounds) && Ranges(bounds, src.descending, items);
  }

  lemma PassParts(k: nat, p: Program, env: Scopes, f: Stmt, items: seq<Value>, o: Option<Value>, env1: Scopes)
    returns (first: Option<Value>, inner: Scopes)
    requires items != [] && ForIn(k, p, env, f, items, o, env1)
    ensures k > 0 && f.For? && |inner| == |env| + 1
    ensures BlockIn(k - 1, p, env + [map[f.item := Binding(items[0], true)]], f.body, first, inner)
    ensures if first.Some? then o == first && env1 == inner[..|env|]
            else ForIn(k - 1, p, inner[..|env|], f, items[1..], o, env1)
  {
    var scope := map[f.item := Binding(items[0], true)];
    first, inner :| && BlockMeans#[k - 1](p, env + [scope], f.body, first, inner) && |inner| == |env| + 1
                    && if first.Some? then o == first && env1 == inner[..|env|]
                       else ForMeans#[k - 1](p, inner[..|env|], f, items[1..], o, env1);
  }

  lemma InIsMeant(k: nat, p: Program, env: Scopes, e: Expr, v: Value)
    requires MeansIn(k, p, env, e, v)
    ensures Means(p, env, e, v)
  {
  }

  lemma LitParts(k: nat, p: Program, env: Scopes, w: Value, v: Value)
    requires MeansIn(k, p, env, Lit(w), v)
    ensures v == w
  {
  }

  lemma NameParts(k: nat, p: Program, env: Scopes, x: string, v: Value)
    requires MeansIn(k, p, env, Name(x), v)
    ensures Unbound(env, x) ==> k > 0 && x in p.decls && MeansIn(k - 1, p, [map[]], p.decls[x], v)
    ensures !Unbound(env, x) ==> exists i: nat :: BoundAt(env, x, i) && v == env[i][x].v
  {
  }

  /** The left operand of `and` or `or` decides, or the right one does. */
  lemma LogicalParts(k: nat, p: Program, env: Scopes, e: Expr, v: Value) returns (a: bool)
    requires e.Binary? && (e.op == And || e.op == Or) && MeansIn(k, p, env, e, v)
    ensures k > 0 && MeansIn(k - 1, p, env, e.l, Bool(a))
    ensures if a == (e.op == Or) then v == Bool(a) else v.Bool? && MeansIn(k - 1, p, env, e.r, v)
  {
    a := Means#[k - 1](p, env, e.l, Bool(true)) &&
         (if e.op == Or then v == Bool(true) else Means#[k - 1](p, env, e.r, v));
  }

  lemma OperatorParts(k: nat, p: Program, env: Scopes, e: Expr, v: Value) returns (a: Value, b: Value)
    requires e.Binary? && e.op != And && e.op != Or && MeansIn(k, p, env, e, v)
    ensures k > 0 && MeansIn(k - 1, p, env, e.l, a) && MeansIn(k - 1, p, env, e.r, b) && OpMeans(e.op, a, b, v)
  {
    hide OpMeans;
    a, b :| Means#[k - 1](p, env, e.l, a) && Means#[k - 1](p, env, e.r, b) && OpMeans(e.op, a, b, v);
  }

  lemma BranchParts(k: nat, p: Program, env: Scopes, e: Expr, v: Value) returns (a: bool)
    requires e.IfExpr? && MeansIn(k, p, env, e, v)
    ensures k > 0 && MeansIn(k - 1, p, env, e.c, Bool(a)) && MeansIn(k - 1, p, env, if a then e.t else e.f, v)
  {
    a := Means#[k - 1](p, env, e.c, Bool(true)) && Means#[k - 1](p, env, e.t, v);
  }

  lemma DeclParts(k: nat, p: Program, env: Scopes, s: Stmt, o: Option<Value>, env1: Scopes) returns (v: Value)
    requires StmtIn(k, p, env, s, o, env1) && s.Decl?
    ensures k > 0 && MeansIn(k - 1, p, env, s.e, v) && o == None && env != []
    ensures env1 == env[|env| - 1 := env[|env| - 1][s.x := Binding(v, s.mutable)]]
  {
    v :| Means#[k - 1](p, env, s.e, v) && env1 == env[|env| - 1 := env[|env| - 1][s.x := Binding(v, s.mutable)]];
  }

  lemma AssignParts(k: nat, p: Program, env: Scopes, s: Stmt, o: Option<Value>, env1: Scopes)
    returns (i: nat, v: Value)
    requires StmtIn(k, p, env, s, o, env1) && s.Assign?
    ensures k > 0 && MeansIn(k - 1, p, env, s.e, v) && o == None
    ensures BoundAt(env, s.x, i) && env[i][s.x].mutable && env1 == env[i := env[i][s.x := Binding(v, true)]]
  {
    i, v :| && BoundAt(env, s.x, i) && env[i][s.x].mutable && Means#[k - 1](p, env, s.e, v)
            && env1 == env[i := env[i][s.x := Binding(v, true)]];
  }

  lemma DoParts(k: nat, p: Program, env: Scopes, s: Stmt, o: Option<Value>, env1: Scopes) returns (v: Value)
    requires StmtIn(k, p, env, s, o, env1) && s.Do?
    ensures k > 0 && MeansIn(k - 1, p, env, s.e, v) && o == None && env1 == env
  {
    v :| Means#[k - 1](p, env, s.e, v);
  }

  lemma ReturnParts(k: nat, p: Program, env: Scopes, s: Stmt, o: Option<Value>, env1: Scopes)
    requires StmtIn(k, p, env, s, o, env1) && s.Return?
    ensures env1 == env && (s.result.None? ==> o == None)
    ensures s.result.Some? ==> k > 0 && o.Some? && MeansIn(k - 1, p, env, s.result.value, o.value)
  {
  }

  lemma WhileParts(k: nat, p: Program, env: Scopes, w: Stmt, left: int, o: Option<Value>, env1: Scopes)
    returns (a: bool)
    requires WhileIn(k, p, env, w, left, o, env1)
    ensures k > 0 && w.While? && MeansIn(k - 1, p, env, w.c, Bool(a))
    ensures if a then MoreIn(k - 1, p, env, w, left, o, env1) else o == None && env1 == env
  {
    a := Means#[k - 1](p, env, w.c, Bool(true)) && MoreMeans#[k - 1](p, env, w, left, o, env1);
  }

  lemma ElseParts(k: nat, p: Program, env: Scopes, w: Stmt, left: int, o: Option<Value>, env1: Scopes)
    requires MoreIn(k, p, env, w, left, o, env1) && left <= 0
    ensures w.While?
    ensures if w.hasElse then k > 0 && BlockIn(k - 1, p, env, w.els, o, env1) else o == None && env1 == env
  {
  }

  lemma BodyParts(k: nat, p: Program, env: Scopes, w: Stmt, left: int, o: Option<Value>, env1: Scopes)
    returns (first: Option<Value>, env2: Scopes)
    requires MoreIn(k, p, env, w, left, o, env1) && left > 0
    ensures k > 0 && w.While? && BlockIn(k - 1, p, env, w.body, first, env2)
    ensures if first.Some? then o == first && env1 == env2 else WhileIn(k - 1, p, env2, w, left - 1, o, env1)
  {
    first, env2 :| BlockMeans#[k - 1](p, env, w.body, first, env2) &&
                   if first.Some? then o == first && env1 == env2
                   else WhileMeans#[k - 1](p, env2, w, left - 1, o, env1);
  }

  lemma NoItems(k: nat, p: Program, env: Scopes, f: Stmt, o: Option<Value>, env1: Scopes)
    requires ForIn(k, p, env, f, [], o, env1)
    ensures o == None && env1 == env
  {
  }

  // ---------------------------------------------------------------------------------------------
  // At most one meaning

  lemma WrapsOnce(v: Value, w: Value, n: int)
    requires Wraps(v, n) && Wraps(w, n)
    ensures v == w
  {
  }

  lemma OpOnce(op: BinOp, a: Value, b: Value, v: Value, w: Value)
    requires OpMeans(op, a, b, v) && OpMeans(op, a, b, w)
    ensures v == w
  {
    hide Wraps, Divides;
    match op
    case Add => WrapsOnce(v, w, a.n + b.n);
    case Sub => WrapsOnce(v, w, a.n - b.n);
    case Mul => WrapsOnce(v, w, a.n * b.n);
    case Div =>
      var q :| Divides(a.n, b.n, q) && Wraps(v, q);
      var q' :| Divides(a.n, b.n, q') && Wraps(w, q');
      QuotientOnce(a.n, b.n, q, q');
      WrapsOnce(v, w, q);
    case _ =>
  }

  lemma UnaryOnce(op: UnOp, a: Value, v: Value, w: Value)
    requires UnaryMeans(op, a, v) && UnaryMeans(op, a, w)
    ensures v == w
  {
    if op == Neg {
      WrapsOnce(v, w, -a.n);
    }
  }

  /** The later of the bindings of a parameter. */
  lemma {:induction false} LastOf(params: seq<string>, x: string) returns (i: nat)
    requires x in params
    ensures i < |params| && params[i] == x && x !in params[i + 1..]
  {
    if x in params[1..] {
      var j := LastOf(params[1..], x);
      i := j + 1;
      assert params[i + 1..] == params[1..][j + 1..];
    } else {
      i := 0;
    }
  }

  lemma EntryOnce(params: seq<string>, vs: seq<Value>, a: map<string, Binding>, b: map<string, Binding>)
    requires Entry(params, vs, a) && Entry(params, vs, b)
    ensures a == b
  {
    forall x | x in params ensures a[x] == b[x] {
      var i := LastOf(params, x);
    }
  }

  lemma BoundOnce(env: Scopes, x: string, i: nat, j: nat)
    requires BoundAt(env, x, i) && BoundAt(env, x, j)
    ensures i == j
  {
  }

  lemma {:induction false} ItemsOnce(start: int, end: int, step: int, down: bool, a: seq<Value>, b: seq<Value>, n: nat)
    requires Enumerates(start, end, step, down, a) && Enumerates(start, end, step, down, b)
    requires n <= |a| && n <= |b|
    ensures a[..n] == b[..n]
  {
    if n > 0 {
      hide Enumerates;
      ItemsOnce(start, end, step, down, a, b, n - 1);
      SameItem(start, end, step, down, a, b, n - 1);
      assert a[..n] == a[..n - 1] + [a[n - 1]] && b[..n] == b[..n - 1] + [b[n - 1]];
    }
  }

  lemma SameItem(start: int, end: int, step: int, down: bool, a: seq<Value>, b: seq<Value>, k: nat)
    requires Enumerates(start, end, step, down, a) && Enumerates(start, end, step, down, b)
    requires k < |a| && k < |b| && a[..k] == b[..k]
    ensures a[k] == b[k]
  {
    hide Wraps;
    if k > 0 {
      assert a[k - 1] == a[..k][k - 1] == b[..k][k - 1] == b[k - 1];
      WrapsOnce(a[k], b[k], a[k - 1].n + Stride(step, down));
    }
  }

  lemma NotLonger(start: int, end: int, step: int, down: bool, a: seq<Value>, b: seq<Value>)
    requires Enumerates(start, end, step, down, a) && Enumerates(start, end, step, down, b)
    ensures |b| <= |a|
  {
    hide Wraps, Passes;
    var n := |a|;
    if n < |b| && n > 0 {
      ItemsOnce(start, end, step, down, a, b, n);
      assert a[n - 1] == a[..n][n - 1] == b[..n][n - 1] == b[n - 1];
      PassesOnce(a[n - 1].n, end, step, down, b[n]);
    }
  }

  lemma PassesOnce(last: int, end: int, step: int, down: bool, next: Value)
    requires Passes(last, end, step, down) && Wraps(next, last + Stride(step, down))
    ensures !RangeCursor.Before(next.n, end, down)
  {
    var past: Value :| Wraps(past, last + Stride(step, down)) && !RangeCursor.Before(past.n, end, down);
    WrapsOnce(past, next, last + Stride(step, down));
  }

  lemma EnumeratesOnce(start: int, end: int, step: int, down: bool, a: seq<Value>, b: seq<Value>)
    requires Enumerates(start, end, step, down, a) && Enumerates(start, end, step, down, b)
    ensures a == b
  {
    hide Enumerates;
    NotLonger(start, end, step, down, a, b);
    NotLonger(start, end, step, down, b, a);
    ItemsOnce(start, end, step, down, a, b, |a|);
  }

  lemma {:induction false} MeansOnce(k: nat, h: nat, p: Program, env: Scopes, e: Expr, v: Value, w: Value)
    requires MeansIn(k, p, env, e, v) && MeansIn(h, p, env, e, w)
    ensures v == w
    decreases k, 1
  {
    hide MeansIn;
    match e
    case Lit(u) => LitParts(k, p, env, u, v); LitParts(h, p, env, u, w);
    case Name(_) => NameOnce(k, h, p, env, e, v, w);
    case Unary(_, _) => OperandOnce(k, h, p, env, e, v, w);
    case Binary(op, _, _) =>
      if op == And || op == Or {
        LogicalOnce(k, h, p, env, e, v, w);
      } else {
        OperatorOnce(k, h, p, env, e, v, w);
      }
    case IfExpr(_, _, _) => BranchOnce(k, h, p, env, e, v, w);
    case CallTo(_, _) => CallOnce(k, h, p, env, e, v, w);
  }

  lemma {:induction false} NameOnce(k: nat, h: nat, p: Program, env: Scopes, e: Expr, v: Value, w: Value)
    requires e.Name? && MeansIn(k, p, env, e, v) && MeansIn(h, p, env, e, w)
    ensures v == w
    decreases k, 0
  {
    hide MeansIn;
    NameParts(k, p, env, e.x, v);
    NameParts(h, p, env, e.x, w);
    if Unbound(env, e.x) {
      MeansOnce(k - 1, h - 1, p, [map[]], p.decls[e.x], v, w);
    } else {
      var i: nat :| BoundAt(env, e.x, i) && v == env[i][e.x].v;
      var j: nat :| BoundAt(env, e.x, j) && w == env[j][e.x].v;
      BoundOnce(env, e.x, i, j);
    }
  }

  lemma {:induction false} OperandOnce(k: nat, h: nat, p: Program, env: Scopes, e: Expr, v: Value, w: Value)
    requires e.Unary? && MeansIn(k, p, env, e, v) && MeansIn(h, p, env, e, w)
    ensures v == w
    decreases k, 0
  {
    hide UnaryMeans, MeansIn;
    var a := UnaryParts(k, p, env, e, v);
    var b := UnaryParts(h, p, env, e, w);
    MeansOnce(k - 1, h - 1, p, env, e.e, a, b);
    UnaryOnce(e.uop, a, v, w);
  }

  lemma {:induction false} BranchOnce(k: nat, h: nat, p: Program, env: Scopes, e: Expr, v: Value, w: Value)
    requires e.IfExpr? && MeansIn(k, p, env, e, v) && MeansIn(h, p, env, e, w)
    ensures v == w
    decreases k, 0
  {
    hide MeansIn;
    var a := BranchParts(k, p, env, e, v);
    var b := BranchParts(h, p, env, e, w);
    MeansOnce(k - 1, h - 1, p, env, e.c, Bool(a), Bool(b));
    MeansOnce(k - 1, h - 1, p, env, if a then e.t else e.f, v, w);
  }

  lemma {:induction false} LogicalOnce(k: nat, h: nat, p: Program, env: Scopes, e: Expr, v: Value, w: Value)
    requires e.Binary? && (e.op == And || e.op == Or) && MeansIn(k, p, env, e, v) && MeansIn(h, p, env, e, w)
    ensures v == w
    decreases k, 0
  {
    hide MeansIn;
    var a := LogicalParts(k, p, env, e, v);
    var b := LogicalParts(h, p, env, e, w);
    MeansOnce(k - 1, h - 1, p, env, e.l, Bool(a), Bool(b));
    if a != (e.op == Or) {
      MeansOnce(k - 1, h - 1, p, env, e.r, v, w);
    }
  }

  lemma {:induction false} OperatorOnce(k: nat, h: nat, p: Program, env: Scopes, e: Expr, v: Value, w: Value)
    requires e.Binary? && e.op != And && e.op != Or && MeansIn(k, p, env, e, v) && MeansIn(h, p, env, e, w)
    ensures v == w
    decreases k, 0
  {
    hide OpMeans, MeansIn;
    var a, b := OperatorParts(k, p, env, e, v);
    var a', b' := OperatorParts(h, p, env, e, w);
    MeansOnce(k - 1, h - 1, p, env, e.l, a, a');
    MeansOnce(k - 1, h - 1, p, env, e.r, b, b');
    OpOnce(e.op, a, b, v, w);
  }

  lemma {:induction false} CallOnce(k: nat, h: nat, p: Program, env: Scopes, e: Expr, v: Value, w: Value)
    requires e.CallTo? && MeansIn(k, p, env, e, v) && MeansIn(h, p, env, e, w)
    ensures v == w
    decreases k, 0
  {
    hide Entry, MeansIn, ArgsIn, BlockIn;
    var f, args := e.callee, e.args;
    var vs, scope, o, env1 := CallParts(k, p, env, f, args, v);
    var vs', scope', o', env1' := CallParts(h, p, env, f, args, w);
    ArgsOnce(k - 1, h - 1, p, env, args, vs, vs');
    EntryOnce(p.fns[f].params, vs, scope, scope');
    BlockOnce(k - 1, h - 1, p, [scope], p.fns[f].body, o, env1, o', env1');
  }

  lemma {:induction false} ArgsOnce(k: nat, h: nat, p: Program, env: Scopes, args: seq<Expr>, vs: seq<Value>,
                                    ws: seq<Value>)
    requires ArgsIn(k, p, env, args, vs) && ArgsIn(h, p, env, args, ws)
    ensures vs == ws
    decreases k
  {
    hide MeansIn, ArgsIn;
    ArgsParts(k, p, env, args, vs);
    ArgsParts(h, p, env, args, ws);
    if args != [] {
      MeansOnce(k - 1, h - 1, p, env, args[0], vs[0], ws[0]);
      ArgsOnce(k - 1, h - 1, p, env, args[1..], vs[1..], ws[1..]);
      assert vs == [vs[0]] + vs[1..] && ws == [ws[0]] + ws[1..];
    }
  }

  lemma {:induction false} BlockOnce(k: nat, h: nat, p: Program, env: Scopes, b: seq<Stmt>,
                                     o: Option<Value>, env1: Scopes, o': Option<Value>, env1': Scopes)
    requires BlockIn(k, p, env, b, o, env1) && BlockIn(h, p, env, b, o', env1')
    ensures o == o' && env1 == env1'
    decreases k
  {
    hide BlockIn, AllIn;
    var inner := BlockParts(k, p, env, b, o, env1);
    var inner' := BlockParts(h, p, env, b, o', env1');
    AllOnce(k - 1, h - 1, p, env + [map[]], b, o, inner, o', inner');
  }

  lemma {:induction false} AllOnce(k: nat, h: nat, p: Program, env: Scopes, b: seq<Stmt>,
                                   o: Option<Value>, env1: Scopes, o': Option<Value>, env1': Scopes)
    requires AllIn(k, p, env, b, o, env1) && AllIn(h, p, env, b, o', env1')
    ensures o == o' && env1 == env1'
    decreases k
  {
    hide AllIn, StmtIn;
    var first, env2 := AllParts(k, p, env, b, o, env1);
    var first', env2' := AllParts(h, p, env, b, o', env1');
    if b != [] && b[0] != Return(None) {
      StmtOnce(k - 1, h - 1, p, env, b[0], first, env2, first', env2');
      if first.None? {
        AllOnce(k - 1, h - 1, p, env2, b[1..], o, env1, o', env1');
      }
    }
  }

  lemma {:induction false} StmtOnce(k: nat, h: nat, p: Program, env: Scopes, s: Stmt, o: Option<Value>, env1: Scopes,
                                    o': Option<Value>, env1': Scopes)
    requires StmtIn(k, p, env, s, o, env1) && StmtIn(h, p, env, s, o', env1')
    ensures o == o' && env1 == env1'
    decreases k, 1
  {
    hide StmtIn, MeansIn, BlockIn;
    match s
    case Decl(_, _, e) =>
      var v := DeclParts(k, p, env, s, o, env1);
      var w := DeclParts(h, p, env, s, o', env1');
      MeansOnce(k - 1, h - 1, p, env, e, v, w);
    case Assign(_, _) => AssignOnce(k, h, p, env, s, o, env1, o', env1');
    case Do(_) =>
      var v := DoParts(k, p, env, s, o, env1);
      var w := DoParts(h, p, env, s, o', env1');
    case Return(r) =>
      ReturnParts(k, p, env, s, o, env1);
      ReturnParts(h, p, env, s, o', env1');
      if r.Some? {
        MeansOnce(k - 1, h - 1, p, env, r.value, o.value, o'.value);
      }
    case If(_, _, _) => IfOnce(k, h, p, env, s, o, env1, o', env1');
    case While(_, _, _, _, _) => WhileStmtOnce(k, h, p, env, s, o, env1, o', env1');
    case For(_, _, _) => ForStmtOnce(k, h, p, env, s, o, env1, o', env1');
    case Block(b) =>
      NestedParts(k, p, env, s, o, env1);
      NestedParts(h, p, env, s, o', env1');
      BlockOnce(k - 1, h - 1, p, env, b, o, env1, o', env1');
  }

  lemma {:induction false} IfOnce(k: nat, h: nat, p: Program, env: Scopes, s: Stmt, o: Option<Value>, env1: Scopes,
                                  o': Option<Value>, env1': Scopes)
    requires s.If? && StmtIn(k, p, env, s, o, env1) && StmtIn(h, p, env, s, o', env1')
    ensures o == o' && env1 == env1'
    decreases k, 0
  {
    hide StmtIn, MeansIn, BlockIn;
    var a := IfParts(k, p, env, s, o, env1);
    var b := IfParts(h, p, env, s, o', env1');
    MeansOnce(k - 1, h - 1, p, env, s.c, Bool(a), Bool(b));
    BlockOnce(k - 1, h - 1, p, env, if a then s.thn else s.els, o, env1, o', env1');
  }

  lemma {:induction false} WhileStmtOnce(k: nat, h: nat, p: Program, env: Scopes, s: Stmt,
                                         o: Option<Value>, env1: Scopes, o': Option<Value>, env1': Scopes)
    requires s.While? && StmtIn(k, p, env, s, o, env1) && StmtIn(h, p, env, s, o', env1')
    ensures o == o' && env1 == env1'
    decreases k, 0
  {
    hide StmtIn, MeansIn, WhileIn;
    var n := LimitParts(k, p, env, s, o, env1);
    var n' := LimitParts(h, p, env, s, o', env1');
    MeansOnce(k - 1, h - 1, p, env, s.bound, Int(n), Int(n'));
    WhileOnce(k - 1, h - 1, p, env, s, n, o, env1, o', env1');
  }

  lemma {:induction false} AssignOnce(k: nat, h: nat, p: Program, env: Scopes, s: Stmt, o: Option<Value>, env1: Scopes,
                                      o': Option<Value>, env1': Scopes)
    requires s.Assign? && StmtIn(k, p, env, s, o, env1) && StmtIn(h, p, env, s, o', env1')
    ensures o == o' && env1 == env1'
    decreases k, 0
  {
    hide StmtIn, MeansIn;
    var i, v := AssignParts(k, p, env, s, o, env1);
    var j, w := AssignParts(h, p, env, s, o', env1');
    MeansOnce(k - 1, h - 1, p, env, s.e, v, w);
    BoundOnce(env, s.x, i, j);
  }

  lemma {:induction false} ForStmtOnce(k: nat, h: nat, p: Program, env: Scopes, s: Stmt, o: Option<Value>, env1: Scopes,
                                       o': Option<Value>, env1': Scopes)
    requires s.For? && StmtIn(k, p, env, s, o, env1) && StmtIn(h, p, env, s, o', env1')
    ensures o == o' && env1 == env1'
    decreases k, 0
  {
    hide StmtIn, SourceIn, ForIn;
    var items := ForParts(k, p, env, s, o, env1);
    var items' := ForParts(h, p, env, s, o', env1');
    SourceOnce(k - 1, h - 1, p, env, s.src, items, items');
    ForOnce(k - 1, h - 1, p, env, s, items, o, env1, o', env1');
  }

  lemma {:induction false} SourceOnce(k: nat, h: nat, p: Program, env: Scopes, src: Source, items: seq<Value>,
                                      items': seq<Value>)
    requires SourceIn(k, p, env, src, items) && SourceIn(h, p, env, src, items')
    ensures items == items'
    decreases k
  {
    hide Enumerates, SourceIn, MeansIn, ArgsIn;
    match src
    case Elements(e) =>
      ElementsParts(k, p, env, src, items);
      ElementsParts(h, p, env, src, items');
      MeansOnce(k - 1, h - 1, p, env, e, Arr(items), Arr(items'));
    case Range(_, _, _, down) =>
      var bounds := RangeParts(k, p, env, src, items);
      var bounds' := RangeParts(h, p, env, src, items');
      ArgsOnce(k - 1, h - 1, p, env, Bounds(src), bounds, bounds');
      EnumeratesOnce(bounds[0].n, bounds[1].n, bounds[2].n, down, items, items');
  }

  lemma {:induction false} WhileOnce(k: nat, h: nat, p: Program, env: Scopes, w: Stmt, left: int, o: Option<Value>,
                                     env1: Scopes, o': Option<Value>, env1': Scopes)
    requires WhileIn(k, p, env, w, left, o, env1) && WhileIn(h, p, env, w, left, o', env1')
    ensures o == o' && env1 == env1'
    decreases k
  {
    hide WhileIn, MeansIn, MoreIn;
    var a := WhileParts(k, p, env, w, left, o, env1);
    var b := WhileParts(h, p, env, w, left, o', env1');
    MeansOnce(k - 1, h - 1, p, env, w.c, Bool(a), Bool(b));
    if a {
      MoreOnce(k - 1, h - 1, p, env, w, left, o, env1, o', env1');
    }
  }

  lemma {:induction false} MoreOnce(k: nat, h: nat, p: Program, env: Scopes, w: Stmt, left: int, o: Option<Value>,
                                    env1: Scopes, o': Option<Value>, env1': Scopes)
    requires MoreIn(k, p, env, w, left, o, env1) && MoreIn(h, p, env, w, left, o', env1')
    ensures o == o' && env1 == env1'
    decreases k
  {
    hide MoreIn, BlockIn, WhileIn;
    if left <= 0 {
      ElseParts(k, p, env, w, left, o, env1);
      ElseParts(h, p, env, w, left, o', env1');
      if w.hasElse {
        BlockOnce(k - 1, h - 1, p, env, w.els, o, env1, o', env1');
      }
    } else {
      var first, env2 := BodyParts(k, p, env, w, left, o, env1);
      var first', env2' := BodyParts(h, p, env, w, left, o', env1');
      BlockOnce(k - 1, h - 1, p, env, w.body, first, env2, first', env2');
      if first.None? {
        WhileOnce(k - 1, h - 1, p, env2, w, left - 1, o, env1, o', env1');
      }
    }
  }
  lemma {:induction false} ForOnce(k: nat, h: nat, p: Program, env: Scopes, f: Stmt, items: seq<Value>,
                                   o: Option<Value>, env1: Scopes, o': Option<Value>, env1': Scopes)
    requires ForIn(k, p, env, f, items, o, env1) && ForIn(h, p, env, f, items, o', env1')
    ensures o == o' && env1 == env1'
    decreases k
  {
    hide ForIn, BlockIn;
    if items == [] {
      NoItems(k, p, env, f, o, env1);
      NoItems(h, p, env, f, o', env1');
    } else {
      var first, inner := PassParts(k, p, env, f, items, o, env1);
      var first', inner' := PassParts(h, p, env, f, items, o', env1');
      var scope := env + [map[f.item := Binding(items[0], true)]];
      BlockOnce(k - 1, h - 1, p, scope, f.body, first, inner, first', inner');
      if first.None? {
        ForOnce(k - 1, h - 1, p, inner[..|env|], f, items[1..], o, env1, o', env1');
      }
    }
  }
}
