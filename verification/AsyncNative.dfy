/**
 Facts about statements that run inside one state, and about splitting one await off a statement.
 */
module AsyncNative {
  import opened Wrappers
  import opened AsyncSyntax
  import opened AsyncDirect
  import opened AsyncGraph
  import opened AsyncMachine
  import RangeCursor

  // ---------------------------------------------------------------------------------------------
  // Which statements stay whole

  lemma {:induction false} AwaitFreeHasNone(e: Expr)
    requires AwaitFree(e)
    ensures DirectAwait(e) == None && !HasAwait(e)
  {
    match e
    case Unary(_, x) => AwaitFreeHasNone(x);
    case Binary(_, l, r) => AwaitFreeHasNone(l); AwaitFreeHasNone(r);
    case _ =>
  }

  /** The one await is the one the lowering finds. */
  lemma {:induction false} OneAwaitIsDirect(e: Expr)
    requires OneAwait(e)
    ensures HasAwait(e) && !AwaitFree(e)
    ensures DirectAwait(e).Some? && DirectAwait(e).value.Await? && AllAwaitFree(DirectAwait(e).value.operands)
  {
    match e
    case Unary(_, x) => OneAwaitIsDirect(x);
    case Binary(_, l, r) =>
      if AwaitFree(l) {
        AwaitFreeHasNone(l);
      }
      if OneAwait(l) {
        OneAwaitIsDirect(l);
      } else {
        OneAwaitIsDirect(r);
      }
    case _ =>
  }

  lemma {:induction false} PlainStaysWhole(st: Stmt)
    requires Plain(st)
    ensures !StmtHasAwait(st) && !StmtReturns(st) && !Splits(st)
  {
    if SimpleExpr(st).Some? {
      AwaitFreeHasNone(SimpleExpr(st).value);
    }
    match st
    case If(c, t, f) => AwaitFreeHasNone(c); PlainBlockStaysWhole(t); PlainBlockStaysWhole(f);
    case Match(e, arms) => AwaitFreeHasNone(e); PlainArmsStayWhole(arms);
    case While(c, _, b, h, f) =>
      AwaitFreeHasNone(c);
      PlainBlockStaysWhole(b);
      if h {
        PlainBlockStaysWhole(f);
      }
    case Foreach(_, src, b) =>
      PlainBlockStaysWhole(b);
      match src {
        case Range(a, b, c, _) => AwaitFreeHasNone(a); AwaitFreeHasNone(b); AwaitFreeHasNone(c);
        case Elements(e) => AwaitFreeHasNone(e);
      }
    case Block(b) => PlainBlockStaysWhole(b);
    case _ =>
  }

  lemma {:induction false} PlainBlockStaysWhole(b: seq<Stmt>)
    requires PlainBlock(b)
    ensures !BlockHasAwait(b) && !BlockReturns(b)
  {
    if b != [] {
      PlainStaysWhole(b[0]);
      PlainBlockStaysWhole(b[1..]);
    }
  }

  lemma {:induction false} PlainArmsStayWhole(arms: seq<Arm>)
    requires PlainArms(arms)
    ensures !ArmsHaveAwait(arms) && !ArmsReturn(arms)
  {
    if arms != [] {
      PlainBlockStaysWhole(arms[0].body);
      PlainArmsStayWhole(arms[1..]);
    }
  }

  /** A statement the node loop executes as it stands: plain, or a return that awaits nothing. */
  predicate Ordinary(st: Stmt) {
    Plain(st) || (st.Return? && (st.result.Some? ==> AwaitFree(st.result.value)))
  }

  predicate OrdinaryBlock(b: seq<Stmt>) {
    b == [] || (Ordinary(b[0]) && OrdinaryBlock(b[1..]))
  }

  lemma {:induction false} QuietExpr(e: Expr)
    requires Splittable(e) && (!HasAwait(e) || DirectAwait(e) == None)
    ensures AwaitFree(e)
  {
    if !AwaitFree(e) {
      OneAwaitIsDirect(e);
    }
  }

  /** In the fragment, what neither awaits nor shows a return is plain all the way down. */
  lemma {:induction false} QuietIsPlain(st: Stmt)
    requires Shaped(st) && !StmtHasAwait(st) && !StmtReturns(st)
    ensures Plain(st)
  {
    if SimpleExpr(st).Some? {
      QuietExpr(SimpleExpr(st).value);
    }
    match st
    case If(c, t, f) => QuietBlockIsPlain(t); QuietBlockIsPlain(f);
    case Match(e, arms) => QuietArmsArePlain(arms);
    case _ =>
  }

  lemma {:induction false} QuietBlockIsPlain(b: seq<Stmt>)
    requires ShapedBlock(b) && !BlockHasAwait(b) && !BlockReturns(b)
    ensures PlainBlock(b)
  {
    if b != [] {
      QuietIsPlain(b[0]);
      QuietBlockIsPlain(b[1..]);
    }
  }

  lemma {:induction false} QuietArmsArePlain(arms: seq<Arm>)
    requires ShapedArms(arms) && !ArmsHaveAwait(arms) && !ArmsReturn(arms)
    ensures PlainArms(arms)
  {
    if arms != [] {
      QuietBlockIsPlain(arms[0].body);
      QuietArmsArePlain(arms[1..]);
    }
  }

  /** Every statement of the fragment either gets nodes of its own or is ordinary. */
  lemma UnsplitIsOrdinary(st: Stmt)
    requires Shaped(st) && !Splits(st)
    ensures Ordinary(st)
  {
    if SimpleExpr(st).Some? {
      QuietExpr(SimpleExpr(st).value);
    } else if st.If? {
      AwaitFreeHasNone(st.c);
      QuietBlockIsPlain(st.thn);
      QuietBlockIsPlain(st.els);
    } else if st.Match? {
      AwaitFreeHasNone(st.subject);
      QuietArmsArePlain(st.arms);
    } else if st.While? && StmtHasAwait(st) {
      AwaitFreeHasNone(st.c);
    } else if st.Foreach? && StmtHasAwait(st) {
      match st.src {
        case Range(a, b, c, _) => AwaitFreeHasNone(a); AwaitFreeHasNone(b); AwaitFreeHasNone(c);
        case Elements(e) => AwaitFreeHasNone(e);
      }
    }
  }

  lemma {:induction false} OrdinaryAppend(b: seq<Stmt>, st: Stmt)
    requires OrdinaryBlock(b) && Ordinary(st)
    ensures OrdinaryBlock(b + [st])
  {
    if b != [] {
      OrdinaryAppend(b[1..], st);
      assert (b + [st])[1..] == b[1..] + [st];
    }
  }

  // ---------------------------------------------------------------------------------------------
  // Plain statements: depth and fuel do not matter

  lemma {:induction false} PlainStable(p: Program, st: Stmt, s: Store, d: nat, k: nat, d': nat, k': nat)
    requires Plain(st) && k <= k' && ExecStmt(p, st, s, d, k) != Timeout
    ensures ExecStmt(p, st, s, d', k') == ExecStmt(p, st, s, d, k)
    ensures !ExecStmt(p, st, s, d, k).Ret?
    decreases k, 1, st, 2
  {
    match st
    case If(c, t, f) =>
      if Pure(c, s) == Some(Bool(true)) {
        PlainBlockStable(p, t, s, d, k, d', k');
      } else if Pure(c, s) == Some(Bool(false)) {
        PlainBlockStable(p, f, s, d, k, d', k');
      }
    case Match(e, arms) =>
      match Pure(e, s) {
        case Some(Variant(tag, payload)) => PlainArmsStable(p, arms, tag, payload, s, d, k, d', k');
        case _ =>
      }
    case While(_, _, _, _, _) => PlainWhileStable(p, st, 0, s, d, k, d', k');
    case Foreach(_, src, _) =>
      if Open(src, s).Some? {
        PlainForStable(p, st, Open(src, s).value, s, d, k, d', k');
      }
    case Block(b) => PlainBlockStable(p, b, s, d, k, d', k');
    case _ =>
  }

  lemma {:induction false} PlainBlockStable(p: Program, b: seq<Stmt>, s: Store, d: nat, k: nat, d': nat, k': nat)
    requires PlainBlock(b) && k <= k' && Exec(p, b, s, d, k) != Timeout
    ensures Exec(p, b, s, d', k') == Exec(p, b, s, d, k)
    ensures !Exec(p, b, s, d, k).Ret?
    decreases k, 1, b, 1
  {
    if b != [] {
      PlainStable(p, b[0], s, d, k, d', k');
      match ExecStmt(p, b[0], s, d, k) {
        case Normal(s1) => PlainBlockStable(p, b[1..], s1, d, k, d', k');
        case _ =>
      }
    }
  }

  lemma {:induction false} PlainArmsStable(p: Program, arms: seq<Arm>, tag: string, payload: seq<Value>, s: Store,
                                           d: nat, k: nat, d': nat, k': nat)
    requires PlainArms(arms) && k <= k' && ExecArms(p, arms, tag, payload, s, d, k) != Timeout
    ensures ExecArms(p, arms, tag, payload, s, d', k') == ExecArms(p, arms, tag, payload, s, d, k)
    ensures !ExecArms(p, arms, tag, payload, s, d, k).Ret?
    decreases k, 1, arms, 3
  {
    if arms != [] {
      if arms[0].tag == tag {
        if |arms[0].binds| == |payload| {
          PlainBlockStable(p, arms[0].body, s + Bind(arms[0].binds, payload), d, k, d', k');
        }
      } else {
        PlainArmsStable(p, arms[1..], tag, payload, s, d, k, d', k');
      }
    }
  }

  lemma {:induction false} PlainWhileStable(p: Program, w: Stmt, done: nat, s: Store, d: nat, k: nat, d': nat, k': nat)
    requires w.While? && Plain(w) && k <= k' && ExecWhile(p, w, done, s, d, k) != Timeout
    ensures ExecWhile(p, w, done, s, d', k') == ExecWhile(p, w, done, s, d, k)
    ensures !ExecWhile(p, w, done, s, d, k).Ret?
    decreases k, 1, w, 1
  {
    if Pure(w.c, s) == Some(Bool(true)) {
      if w.bound.Some? && done >= w.bound.value {
        if w.hasElse {
          PlainBlockStable(p, w.els, s, d, k - 1, d', k' - 1);
        }
      } else {
        PlainBlockStable(p, w.body, s, d, k - 1, d', k' - 1);
        match Exec(p, w.body, s, d, k - 1) {
          case Normal(s1) => PlainWhileStable(p, w, done + 1, s1, d, k - 1, d', k' - 1);
          case _ =>
        }
      }
    }
  }

  lemma {:induction false} PlainForStable(p: Program, f: Stmt, it: Iteration, s: Store, d: nat, k: nat, d': nat,
                                          k': nat)
    requires f.Foreach? && Plain(f) && k <= k' && ExecFor(p, f, it, s, d, k) != Timeout
    ensures ExecFor(p, f, it, s, d', k') == ExecFor(p, f, it, s, d, k)
    ensures !ExecFor(p, f, it, s, d, k).Ret?
    decreases k, 1, f, 1
  {
    match Current(it, s)
    case None =>
    case Some(v) =>
      PlainBlockStable(p, f.body, s[f.item := v], d, k - 1, d', k' - 1);
      match Exec(p, f.body, s[f.item := v], d, k - 1) {
        case Normal(s1) => PlainForStable(p, f, Following(it), s1, d, k - 1, d', k' - 1);
        case _ =>
      }
  }

  // ---------------------------------------------------------------------------------------------
  // A node's own statements against direct execution

  predicate SameOutcome(o: Out, r: NativeOut) {
    match o
    case Normal(s) => r == Ran(s)
    case Ret(v, _) => r == Finished(v)
    case Fail => r == Panicked
    case Timeout => r == OutOfFuel
  }

  lemma ReturnEvaluates(p: Program, st: Stmt, s: Store, d: nat, k: nat)
    requires st.Return? && Ordinary(st)
    ensures ExecStmt(p, st, s, d, k) ==
            match st.result
            case None => Ret(Void, s)
            case Some(e) => (match Pure(e, s) case Some(v) => Ret(v, s) case None => Fail)
  {
    if st.result.Some? {
      assert Eval(p, st.result.value, s, d, k) == Evaluated(Pure(st.result.value, s));
    }
  }

  lemma {:induction false} OrdinaryAgrees(p: Program, b: seq<Stmt>, s: Store, native: nat, d: nat, k: nat)
    requires OrdinaryBlock(b)
    ensures var o, r := Exec(p, b, s, d, k), RunOrdinary(p, b, s, native);
            && (o != Timeout && r != OutOfFuel ==> SameOutcome(o, r))
            && (native >= k && o != Timeout ==> r != OutOfFuel)
            && (k >= native && r != OutOfFuel ==> o != Timeout)
  {
    if b != [] && b[0].Return? {
      ReturnEvaluates(p, b[0], s, d, k);
    } else if b != [] {
      var direct, whole := ExecStmt(p, b[0], s, d, k), ExecStmt(p, b[0], s, CAPACITY, native);
      if direct != Timeout && k <= native {
        PlainStable(p, b[0], s, d, k, CAPACITY, native);
      } else if whole != Timeout && native <= k {
        PlainStable(p, b[0], s, CAPACITY, native, d, k);
      }
      if direct != Timeout && whole != Timeout {
        match direct {
          case Normal(s1) => OrdinaryAgrees(p, b[1..], s1, native, d, k);
          case _ =>
        }
      }
    }
  }

  lemma {:induction false} ExecAppend(p: Program, a: seq<Stmt>, b: seq<Stmt>, s: Store, d: nat, k: nat)
    ensures Exec(p, a + b, s, d, k) ==
            match Exec(p, a, s, d, k) case Normal(s1) => Exec(p, b, s1, d, k) case o => o
  {
    if a == [] {
      assert a + b == b;
    } else {
      assert (a + b)[1..] == a[1..] + b;
      match ExecStmt(p, a[0], s, d, k) {
        case Normal(s1) => ExecAppend(p, a[1..], b, s1, d, k);
        case _ =>
      }
    }
  }

  // ---------------------------------------------------------------------------------------------
  // Splitting off the await

  lemma {:induction false} PureIgnores(e: Expr, s: Store, x: string, v: Value)
    requires x !in Mentions(e)
    ensures Pure(e, s[x := v]) == Pure(e, s)
  {
    match e
    case Lit(_) =>
    case Name(_) =>
    case Unary(_, a) => PureIgnores(a, s, x, v);
    case Binary(_, l, r) => PureIgnores(l, s, x, v); PureIgnores(r, s, x, v);
    case Index(b, i) => PureIgnores(b, s, x, v); PureIgnores(i, s, x, v);
    case Construct(_, args) => PureAllIgnores(args, s, x, v);
    case IfExpr(c, t, f) => PureIgnores(c, s, x, v); PureIgnores(t, s, x, v); PureIgnores(f, s, x, v);
    case Await(_, _, _) =>
  }

  lemma {:induction false} PureAllIgnores(es: seq<Expr>, s: Store, x: string, v: Value)
    requires x !in AllMentions(es)
    ensures PureAll(es, s[x := v]) == PureAll(es, s)
  {
    if es != [] {
      PureIgnores(es[0], s, x, v);
      PureAllIgnores(es[1..], s, x, v);
    }
  }

  lemma {:induction false} ReplaceAwaitFree(e: Expr)
    requires AwaitFree(e)
    ensures ReplaceAwait(e) == e
  {
    match e
    case Unary(_, x) => ReplaceAwaitFree(x);
    case Binary(_, l, r) => ReplaceAwaitFree(l); ReplaceAwaitFree(r);
    case _ =>
  }

  /** The call made for the await of `e`. */
  function AwaitedCall(p: Program, e: Expr, s: Store, d: nat, k: nat): EvalOut
    requires DirectAwait(e).Some? && DirectAwait(e).value.Await?
  {
    var call := DirectAwait(e).value;
    match PureAll(call.operands, s)
    case None => EvalFail
    case Some(args) => Call(p, call.callee, args, d, k)
  }

  /** The value of `e` once its await has produced `v`. */
  function Resumed(e: Expr, s: Store, v: Value): Option<Value> {
    Pure(ReplaceAwait(e), s[AWAITED := v])
  }

  /** `e` evaluates to `w` by calling the awaited function first and the rest afterwards. */
  predicate SplitsTo(p: Program, e: Expr, s: Store, d: nat, k: nat, w: Value)
    requires DirectAwait(e).Some? && DirectAwait(e).value.Await?
  {
    var c := AwaitedCall(p, e, s, d, k);
    c.Val? && Resumed(e, s, c.v) == Some(w)
  }

  lemma {:induction false} OneAwaitCall(e: Expr)
    requires OneAwait(e)
    ensures DirectAwait(e).Some? && DirectAwait(e).value.Await?
    ensures e.Unary? ==> DirectAwait(e) == DirectAwait(e.e)
    ensures e.Binary? && AwaitFree(e.l) ==> DirectAwait(e) == DirectAwait(e.r) && OneAwait(e.r)
    ensures e.Binary? && !AwaitFree(e.l) ==> DirectAwait(e) == DirectAwait(e.l) && OneAwait(e.l) && AwaitFree(e.r)
    ensures !AwaitFree(e)
  {
    OneAwaitIsDirect(e);
    if e.Binary? {
      if AwaitFree(e.l) {
        AwaitFreeHasNone(e.l);
        if OneAwait(e.l) {
          OneAwaitIsDirect(e.l);
        }
      } else {
        OneAwaitIsDirect(e.l);
      }
    }
  }

  lemma ResumedLeft(op: BinOp, l: Expr, r: Expr, s: Store, v: Value)
    requires AwaitFree(r) && AWAITED !in Mentions(r)
    ensures Resumed(Binary(op, l, r), s, v) ==
            match Resumed(l, s, v)
            case None => None
            case Some(a) => if Decides(op, a) then Some(a) else
                              (match Pure(r, s) case None => None case Some(b) => Apply(op, a, b))
  {
    ReplaceAwaitFree(r);
    PureIgnores(r, s, AWAITED, v);
  }

  lemma ResumedRight(op: BinOp, l: Expr, r: Expr, s: Store, v: Value)
    requires AwaitFree(l) && AWAITED !in Mentions(l)
    ensures Resumed(Binary(op, l, r), s, v) ==
            match Pure(l, s)
            case None => None
            case Some(a) => if Decides(op, a) then Some(a) else
                              (match Resumed(r, s, v) case None => None case Some(b) => Apply(op, a, b))
  {
    ReplaceAwaitFree(l);
    PureIgnores(l, s, AWAITED, v);
  }

  /** For an unguarded await, both orders of evaluation produce the same values. */
  lemma {:induction false} SplitValue(p: Program, e: Expr, s: Store, d: nat, k: nat, w: Value)
    requires OneAwait(e) && Unguarded(e) && AWAITED !in Mentions(e)
    ensures DirectAwait(e).Some? && DirectAwait(e).value.Await?
    ensures Eval(p, e, s, d, k) == Val(w) <==> SplitsTo(p, e, s, d, k, w)
    decreases e, 1
  {
    OneAwaitCall(e);
    if e.Await? {
      SplitAwait(p, e, s, d, k, w);
    } else if e.Unary? {
      SplitUnary(p, e, s, d, k, w);
    } else if AwaitFree(e.l) {
      SplitRight(p, e, s, d, k, w);
    } else {
      SplitLeft(p, e, s, d, k, w);
    }
  }

  lemma SplitAwait(p: Program, e: Expr, s: Store, d: nat, k: nat, w: Value)
    requires e.Await?
    ensures Eval(p, e, s, d, k) == Val(w) <==> SplitsTo(p, e, s, d, k, w)
  {
  }

  lemma {:induction false} SplitUnary(p: Program, e: Expr, s: Store, d: nat, k: nat, w: Value)
    requires OneAwait(e) && Unguarded(e) && AWAITED !in Mentions(e) && e.Unary?
    ensures DirectAwait(e).Some? && DirectAwait(e).value.Await?
    ensures Eval(p, e, s, d, k) == Val(w) <==> SplitsTo(p, e, s, d, k, w)
    decreases e, 0
  {
    OneAwaitCall(e);
    OneAwaitCall(e.e);
    var inner := Eval(p, e.e, s, d, k);
    if inner.Val? {
      SplitValue(p, e.e, s, d, k, inner.v);
    }
    var c := AwaitedCall(p, e, s, d, k);
    assert c == AwaitedCall(p, e.e, s, d, k);
    if c.Val? {
      var a := Resumed(e.e, s, c.v);
      assert Resumed(e, s, c.v) == match a case None => None case Some(b) => ApplyUnary(e.uop, b);
      if a.Some? {
        SplitValue(p, e.e, s, d, k, a.value);
      }
    }
  }

  lemma {:induction false} SplitLeft(p: Program, e: Expr, s: Store, d: nat, k: nat, w: Value)
    requires OneAwait(e) && Unguarded(e) && AWAITED !in Mentions(e) && e.Binary? && !AwaitFree(e.l)
    ensures DirectAwait(e).Some? && DirectAwait(e).value.Await?
    ensures Eval(p, e, s, d, k) == Val(w) <==> SplitsTo(p, e, s, d, k, w)
    decreases e, 0
  {
    hide Pure;
    OneAwaitCall(e);
    OneAwaitCall(e.l);
    assert Eval(p, e.r, s, d, k) == Evaluated(Pure(e.r, s));
    var inner := Eval(p, e.l, s, d, k);
    if inner.Val? {
      SplitValue(p, e.l, s, d, k, inner.v);
    }
    var c := AwaitedCall(p, e, s, d, k);
    assert c == AwaitedCall(p, e.l, s, d, k);
    if c.Val? {
      ResumedLeft(e.op, e.l, e.r, s, c.v);
      var a := Resumed(e.l, s, c.v);
      if a.Some? {
        SplitValue(p, e.l, s, d, k, a.value);
      }
    }
  }

  lemma {:induction false} SplitRight(p: Program, e: Expr, s: Store, d: nat, k: nat, w: Value)
    requires OneAwait(e) && Unguarded(e) && AWAITED !in Mentions(e) && e.Binary? && AwaitFree(e.l)
    ensures DirectAwait(e).Some? && DirectAwait(e).value.Await?
    ensures Eval(p, e, s, d, k) == Val(w) <==> SplitsTo(p, e, s, d, k, w)
    decreases e, 0
  {
    hide Pure;
    OneAwaitCall(e);
    OneAwaitCall(e.r);
    assert Eval(p, e.l, s, d, k) == Evaluated(Pure(e.l, s));
    var inner := Eval(p, e.r, s, d, k);
    if inner.Val? {
      SplitValue(p, e.r, s, d, k, inner.v);
    }
    var c := AwaitedCall(p, e, s, d, k);
    assert c == AwaitedCall(p, e.r, s, d, k);
    if c.Val? {
      ResumedRight(e.op, e.l, e.r, s, c.v);
      var b := Resumed(e.r, s, c.v);
      if b.Some? {
        SplitValue(p, e.r, s, d, k, b.value);
      }
    }
  }
}
