/** The call stack: left as found, never deeper than the limit, never over a recursion bound. */
module ComptimeStack {
  import opened Wrappers
  import opened Comptime

  /** No deeper than the limit, and no function active more often than its bound. */
  ghost predicate Within(p: Program, stack: seq<Frame>) {
    |stack| <= MAX_CALL_DEPTH &&
    forall f :: f in p.fns && p.fns[f].recursionBound > 0 ==> multiset(stack)[Call(f)] <= p.fns[f].recursionBound
  }

  /** The evaluator's count of active frames. */
  lemma {:induction false} ActiveCounts(stack: seq<Frame>, f: string)
    ensures Active(stack, f) == multiset(stack)[Call(f)]
  {
    if stack != [] {
      assert stack == stack[..|stack| - 1] + [stack[|stack| - 1]];
      ActiveCounts(stack[..|stack| - 1], f);
    }
  }

  ghost predicate LogOk(p: Program, log: seq<seq<Frame>>) {
    forall i :: 0 <= i < |log| ==> Within(p, log[i])
  }

  /** The stack is as before, and every stack reached since was within its limits. */
  ghost predicate Kept(p: Program, st: State, after: State) {
    && after.stack == st.stack && st.log <= after.log
    && (Within(p, st.stack) && LogOk(p, st.log) ==> LogOk(p, after.log))
  }

  ghost predicate ValueKept<T>(p: Program, st: State, r: Result<(T, State), Failure>) {
    r.Ok? ==> Kept(p, st, r.value.1)
  }

  ghost predicate RunKept(p: Program, st: State, r: Executed) {
    r.Ok? ==> Kept(p, st, r.value.2)
  }

  lemma KeptTwice(p: Program, a: State, b: State, c: State)
    requires Kept(p, a, b) && Kept(p, b, c)
    ensures Kept(p, a, c)
  {
  }

  /** Pushing a frame that is not a call, or a call below its bound, stays within the limits. */
  lemma PushWithin(p: Program, st: State, frame: Frame)
    requires Pushed(st, frame).Ok? && (frame.Call? ==> frame.f in p.fns && !AtBound(p, st, frame.f))
    ensures var st1 := Pushed(st, frame).value;
            && st1.stack == st.stack + [frame] && st1.log == st.log + [st1.stack]
            && (Within(p, st.stack) && LogOk(p, st.log) ==> Within(p, st1.stack) && LogOk(p, st1.log))
  {
    var stack := st.stack + [frame];
    if frame.Call? {
      ActiveCounts(st.stack, frame.f);
    }
    forall f ensures multiset(stack)[Call(f)] == multiset(st.stack)[Call(f)] + (if frame == Call(f) then 1 else 0) {
    }
  }

  /** What happens between a push and its pop. */
  lemma PopKeeps(p: Program, st: State, frame: Frame, inside: State)
    requires Pushed(st, frame).Ok? && (frame.Call? ==> frame.f in p.fns && !AtBound(p, st, frame.f))
    requires Kept(p, Pushed(st, frame).value, inside)
    ensures Kept(p, st, Popped(inside))
  {
    PushWithin(p, st, frame);
    assert (st.stack + [frame])[..|st.stack|] == st.stack;
  }

  lemma {:induction false} EvalKeeps(p: Program, st: State, sc: Scopes, e: Expr)
    ensures ValueKept(p, st, Eval(p, st, sc, e))
    decreases st.fuel, 0, 0
  {
    hide Within;
    if Eval(p, st, sc, e).Ok? {
      var st1 := st.(fuel := st.fuel - 1);
      assert Kept(p, st, st1);
      match e
      case Lit(_) =>
      case Name(x) =>
        if Lookup(sc, x).None? {
          GlobalKeeps(p, st1, x);
        }
      case Unary(_, x) => EvalKeeps(p, st1, sc, x);
      case Binary(_, l, r) =>
        EvalKeeps(p, st1, sc, l);
        EvalKeeps(p, Eval(p, st1, sc, l).value.1, sc, r);
      case IfExpr(c, t, f) =>
        EvalKeeps(p, st1, sc, c);
        var (a, st2) := Eval(p, st1, sc, c).value;
        EvalKeeps(p, st2, sc, if a == Bool(true) then t else f);
      case CallTo(f, args) => CallKeeps(p, st1, sc, f, args);
    }
  }

  lemma {:induction false} GlobalKeeps(p: Program, st: State, x: string)
    requires x in p.decls
    ensures ValueKept(p, st, EvalGlobal(p, st, x))
    decreases st.fuel, 1, 0
  {
    hide Within;
    if EvalGlobal(p, st, x).Ok? && x !in st.values {
      var marked := st.(evaluating := st.evaluating + {x});
      var st1 := Pushed(marked, Global(x)).value;
      EvalKeeps(p, st1, Seeded(st1), p.decls[x]);
      var st2 := Eval(p, st1, Seeded(st1), p.decls[x]).value.1;
      PopKeeps(p, marked, Global(x), st2);
    }
  }

  lemma {:induction false} ArgsKeep(p: Program, st: State, sc: Scopes, args: seq<Expr>)
    ensures ValueKept(p, st, EvalArgs(p, st, sc, args))
    decreases st.fuel, 1, |args|
  {
    hide Within;
    if EvalArgs(p, st, sc, args).Ok? && args != [] {
      EvalKeeps(p, st, sc, args[0]);
      ArgsKeep(p, Eval(p, st, sc, args[0]).value.1, sc, args[1..]);
    }
  }

  lemma {:induction false} CallKeeps(p: Program, st: State, sc: Scopes, f: string, args: seq<Expr>)
    ensures ValueKept(p, st, EvalCall(p, st, sc, f, args))
    decreases st.fuel, 4, 0
  {
    hide Kept;
    if EvalCall(p, st, sc, f, args).Ok? {
      var st1 := Pushed(st, Call(f)).value;
      ArgsKeep(p, st1, sc, args);
      var (vs, st2) := EvalArgs(p, st1, sc, args).value;
      var inner := [WithParams(Seeded(st1)[0], p.fns[f].params, vs)];
      BlockKeeps(p, st2, inner, p.fns[f].body);
      var st3 := ExecBlock(p, st2, inner, p.fns[f].body).value.2;
      KeptTwice(p, st1, st2, st3);
      PopKeeps(p, st, Call(f), st3);
    }
  }

  lemma {:induction false} BlockKeeps(p: Program, st: State, sc: Scopes, b: seq<Stmt>)
    ensures RunKept(p, st, ExecBlock(p, st, sc, b))
    decreases st.fuel, 3, b, 1
  {
    AllKeep(p, st, sc + [map[]], b);
  }

  lemma {:induction false} AllKeep(p: Program, st: State, sc: Scopes, b: seq<Stmt>)
    ensures RunKept(p, st, ExecAll(p, st, sc, b))
    decreases st.fuel, 3, b, 0
  {
    hide ExecStmt, Within;
    if ExecAll(p, st, sc, b).Ok? && b != [] && !(b[0].Return? && b[0].result.None?) {
      StmtKeeps(p, st, sc, b[0]);
      var (o, sc1, st1) := ExecStmt(p, st, sc, b[0]).value;
      if o.None? {
        AllKeep(p, st1, sc1, b[1..]);
      }
    }
  }

  lemma {:induction false} StmtKeeps(p: Program, st: State, sc: Scopes, s: Stmt)
    ensures RunKept(p, st, ExecStmt(p, st, sc, s))
    decreases st.fuel, 3, s, 0
  {
    hide Eval, ExecBlock, ExecWhile, ExecFor, SourceItems, Kept;
    if ExecStmt(p, st, sc, s).Ok? {
      NothingKept(p, st);
      match s
      case Decl(_, _, e) => EvalKeeps(p, st, sc, e);
      case Assign(_, e) => EvalKeeps(p, st, sc, e);
      case Do(e) => EvalKeeps(p, st, sc, e);
      case Return(r) =>
        if r.Some? {
          EvalKeeps(p, st, sc, r.value);
        }
      case If(c, t, f) =>
        EvalKeeps(p, st, sc, c);
        var (a, st1) := Eval(p, st, sc, c).value;
        var taken := if a == Bool(true) then t else f;
        BlockKeeps(p, st1, sc, taken);
        KeptTwice(p, st, st1, ExecBlock(p, st1, sc, taken).value.2);
      case While(_, bound, _, _, _) =>
        EvalKeeps(p, st, sc, bound);
        var (n, st1) := Eval(p, st, sc, bound).value;
        var st2 := Pushed(st1, WhileLoop(n.n)).value;
        WhileKeeps(p, st2, sc, s, n.n, 0);
        var st3 := ExecWhile(p, st2, sc, s, n.n, 0).value.2;
        PopKeeps(p, st1, WhileLoop(n.n), st3);
        KeptTwice(p, st, st1, Popped(st3));
      case For(_, src, _) =>
        ItemsKeep(p, st, sc, src);
        var (items, st1) := SourceItems(p, st, sc, src).value;
        var st2 := Pushed(st1, ForLoop(|items|)).value;
        ForKeeps(p, st2, sc, s, items);
        var st3 := ExecFor(p, st2, sc, s, items).value.2;
        PopKeeps(p, st1, ForLoop(|items|), st3);
        KeptTwice(p, st, st1, Popped(st3));
      case Block(b) => BlockKeeps(p, st, sc, b);
    }
  }

  lemma NothingKept(p: Program, st: State)
    ensures Kept(p, st, st)
  {
  }

  lemma {:induction false} WhileKeeps(p: Program, st: State, sc: Scopes, w: Stmt, bound: int, i: nat)
    requires w.While?
    ensures RunKept(p, st, ExecWhile(p, st, sc, w, bound, i))
    decreases st.fuel, 2, 0
  {
    hide Eval, ExecBlock, Within;
    if ExecWhile(p, st, sc, w, bound, i).Ok? {
      EvalKeeps(p, st, sc, w.c);
      var (a, st1) := Eval(p, st, sc, w.c).value;
      if a == Bool(true) {
        if i >= bound {
          BlockKeeps(p, st1, sc, w.els);
        } else {
          BlockKeeps(p, st1, sc, w.body);
          var (o, sc1, st2) := ExecBlock(p, st1, sc, w.body).value;
          if o.None? {
            WhileKeeps(p, st2, sc1, w, bound, i + 1);
          }
        }
      }
    }
  }

  lemma {:induction false} ItemsKeep(p: Program, st: State, sc: Scopes, src: Source)
    ensures ValueKept(p, st, SourceItems(p, st, sc, src))
    decreases st.fuel, 2, 0
  {
    hide Eval, Within;
    if SourceItems(p, st, sc, src).Ok? {
      match src
      case Elements(e) => EvalKeeps(p, st, sc, e);
      case Range(a, b, step, _) =>
        if step.Some? {
          EvalKeeps(p, st, sc, step.value);
        }
        var st1 := if step.Some? then Eval(p, st, sc, step.value).value.1 else st;
        EvalKeeps(p, st1, sc, a);
        EvalKeeps(p, Eval(p, st1, sc, a).value.1, sc, b);
    }
  }

  lemma {:induction false} ForKeeps(p: Program, st: State, sc: Scopes, f: Stmt, items: seq<Value>)
    requires f.For?
    ensures RunKept(p, st, ExecFor(p, st, sc, f, items))
    decreases st.fuel, 2, 0
  {
    hide ExecBlock, Within;
    if ExecFor(p, st, sc, f, items).Ok? && items != [] {
      var st1 := st.(fuel := st.fuel - 1);
      var inner := sc + [map[f.item := Binding(items[0], true)]];
      BlockKeeps(p, st1, inner, f.body);
      var (o, sc1, st2) := ExecBlock(p, st1, inner, f.body).value;
      if o.None? {
        ForKeeps(p, st2, if sc1 == [] then [] else sc1[..|sc1| - 1], f, items[1..]);
      }
    }
  }

  /** A successful evaluation from an empty stack ends with an empty stack and was never outside the limits. */
  lemma EvaluationStaysWithinLimits(p: Program, sc: Scopes, e: Expr)
    requires Eval(p, Start(), sc, e).Ok?
    ensures var after := Eval(p, Start(), sc, e).value.1;
            after.stack == [] && LogOk(p, after.log) && after.fuel < MAX_FUEL
  {
    EvalKeeps(p, Start(), sc, e);
    assert Within(p, []);
  }
}
