/** Fuel is only a cut-off: a success is the same success with more fuel. */
module ComptimeFuel {
  import opened Wrappers
  import opened Comptime

  function Richer(st: State, k: nat): State {
    st.(fuel := st.fuel + k)
  }

  ghost predicate SameValue<T>(r: Result<(T, State), Failure>, rich: Result<(T, State), Failure>, k: nat) {
    r.Ok? ==> rich == Ok((r.value.0, Richer(r.value.1, k)))
  }

  ghost predicate SameRun(r: Executed, rich: Executed, k: nat) {
    r.Ok? ==> rich == Ok((r.value.0, r.value.1, Richer(r.value.2, k)))
  }

  lemma PushedRicher(st: State, frame: Frame, k: nat)
    requires Pushed(st, frame).Ok?
    ensures Pushed(Richer(st, k), frame) == Ok(Richer(Pushed(st, frame).value, k))
  {
  }

  lemma {:induction false} EvalRicher(p: Program, st: State, sc: Scopes, e: Expr, k: nat)
    ensures SameValue(Eval(p, st, sc, e), Eval(p, Richer(st, k), sc, e), k)
    decreases st.fuel, 0, 0
  {
    if Eval(p, st, sc, e).Ok? {
      var st1 := st.(fuel := st.fuel - 1);
      assert Richer(st, k).(fuel := Richer(st, k).fuel - 1) == Richer(st1, k);
      match e
      case Lit(_) =>
      case Name(x) =>
        if Lookup(sc, x).None? {
          GlobalRicher(p, st1, x, k);
        }
      case Unary(_, x) => EvalRicher(p, st1, sc, x, k);
      case Binary(_, l, r) =>
        EvalRicher(p, st1, sc, l, k);
        EvalRicher(p, Eval(p, st1, sc, l).value.1, sc, r, k);
      case IfExpr(c, t, f) =>
        EvalRicher(p, st1, sc, c, k);
        var (a, st2) := Eval(p, st1, sc, c).value;
        EvalRicher(p, st2, sc, if a == Bool(true) then t else f, k);
      case CallTo(f, args) => CallRicher(p, st1, sc, f, args, k);
    }
  }

  lemma {:induction false} GlobalRicher(p: Program, st: State, x: string, k: nat)
    requires x in p.decls
    ensures SameValue(EvalGlobal(p, st, x), EvalGlobal(p, Richer(st, k), x), k)
    decreases st.fuel, 1, 0
  {
    if EvalGlobal(p, st, x).Ok? && x !in st.values {
      var marked := st.(evaluating := st.evaluating + {x});
      PushedRicher(marked, Global(x), k);
      var st1 := Pushed(marked, Global(x)).value;
      EvalRicher(p, st1, Seeded(st1), p.decls[x], k);
    }
  }

  lemma {:induction false} ArgsRicher(p: Program, st: State, sc: Scopes, args: seq<Expr>, k: nat)
    ensures SameValue(EvalArgs(p, st, sc, args), EvalArgs(p, Richer(st, k), sc, args), k)
    decreases st.fuel, 1, |args|
  {
    if EvalArgs(p, st, sc, args).Ok? && args != [] {
      EvalRicher(p, st, sc, args[0], k);
      ArgsRicher(p, Eval(p, st, sc, args[0]).value.1, sc, args[1..], k);
    }
  }

  lemma {:induction false} CallRicher(p: Program, st: State, sc: Scopes, f: string, args: seq<Expr>, k: nat)
    ensures SameValue(EvalCall(p, st, sc, f, args), EvalCall(p, Richer(st, k), sc, f, args), k)
    decreases st.fuel, 4, 0
  {
    if EvalCall(p, st, sc, f, args).Ok? {
      PushedRicher(st, Call(f), k);
      var st1 := Pushed(st, Call(f)).value;
      ArgsRicher(p, st1, sc, args, k);
      var (vs, st2) := EvalArgs(p, st1, sc, args).value;
      BlockRicher(p, st2, [WithParams(Seeded(st1)[0], p.fns[f].params, vs)], p.fns[f].body, k);
    }
  }

  lemma {:induction false} BlockRicher(p: Program, st: State, sc: Scopes, b: seq<Stmt>, k: nat)
    ensures SameRun(ExecBlock(p, st, sc, b), ExecBlock(p, Richer(st, k), sc, b), k)
    decreases st.fuel, 3, b, 1
  {
    AllRicher(p, st, sc + [map[]], b, k);
  }

  lemma {:induction false} AllRicher(p: Program, st: State, sc: Scopes, b: seq<Stmt>, k: nat)
    ensures SameRun(ExecAll(p, st, sc, b), ExecAll(p, Richer(st, k), sc, b), k)
    decreases st.fuel, 3, b, 0
  {
    hide ExecStmt;
    if ExecAll(p, st, sc, b).Ok? && b != [] && !(b[0].Return? && b[0].result.None?) {
      StmtRicher(p, st, sc, b[0], k);
      var (o, sc1, st1) := ExecStmt(p, st, sc, b[0]).value;
      if o.None? {
        AllRicher(p, st1, sc1, b[1..], k);
      }
    }
  }

  lemma {:induction false} StmtRicher(p: Program, st: State, sc: Scopes, s: Stmt, k: nat)
    ensures SameRun(ExecStmt(p, st, sc, s), ExecStmt(p, Richer(st, k), sc, s), k)
    decreases st.fuel, 3, s, 0
  {
    hide Eval, ExecBlock, ExecWhile, ExecFor, SourceItems;
    if ExecStmt(p, st, sc, s).Ok? {
      match s
      case Decl(_, _, e) => EvalRicher(p, st, sc, e, k);
      case Assign(_, e) => EvalRicher(p, st, sc, e, k);
      case Do(e) => EvalRicher(p, st, sc, e, k);
      case Return(r) =>
        if r.Some? {
          EvalRicher(p, st, sc, r.value, k);
        }
      case If(c, t, f) =>
        EvalRicher(p, st, sc, c, k);
        var (a, st1) := Eval(p, st, sc, c).value;
        BlockRicher(p, st1, sc, if a == Bool(true) then t else f, k);
      case While(_, bound, _, _, _) =>
        EvalRicher(p, st, sc, bound, k);
        var (n, st1) := Eval(p, st, sc, bound).value;
        PushedRicher(st1, WhileLoop(n.n), k);
        WhileRicher(p, Pushed(st1, WhileLoop(n.n)).value, sc, s, n.n, 0, k);
      case For(_, src, _) =>
        ItemsRicher(p, st, sc, src, k);
        var (items, st1) := SourceItems(p, st, sc, src).value;
        PushedRicher(st1, ForLoop(|items|), k);
        ForRicher(p, Pushed(st1, ForLoop(|items|)).value, sc, s, items, k);
      case Block(b) => BlockRicher(p, st, sc, b, k);
    }
  }

  lemma {:induction false} WhileRicher(p: Program, st: State, sc: Scopes, w: Stmt, bound: int, i: nat, k: nat)
    requires w.While?
    ensures SameRun(ExecWhile(p, st, sc, w, bound, i), ExecWhile(p, Richer(st, k), sc, w, bound, i), k)
    decreases st.fuel, 2, 0
  {
    hide Eval, ExecBlock;
    if ExecWhile(p, st, sc, w, bound, i).Ok? {
      EvalRicher(p, st, sc, w.c, k);
      var (a, st1) := Eval(p, st, sc, w.c).value;
      if a == Bool(true) {
        if i >= bound {
          BlockRicher(p, st1, sc, w.els, k);
        } else {
          BlockRicher(p, st1, sc, w.body, k);
          var (o, sc1, st2) := ExecBlock(p, st1, sc, w.body).value;
          if o.None? {
            WhileRicher(p, st2, sc1, w, bound, i + 1, k);
          }
        }
      }
    }
  }

  lemma {:induction false} ItemsRicher(p: Program, st: State, sc: Scopes, src: Source, k: nat)
    ensures SameValue(SourceItems(p, st, sc, src), SourceItems(p, Richer(st, k), sc, src), k)
    decreases st.fuel, 2, 0
  {
    hide Eval;
    if SourceItems(p, st, sc, src).Ok? {
      match src
      case Elements(e) => EvalRicher(p, st, sc, e, k);
      case Range(a, b, step, _) =>
        if step.Some? {
          EvalRicher(p, st, sc, step.value, k);
        }
        var st1 := if step.Some? then Eval(p, st, sc, step.value).value.1 else st;
        EvalRicher(p, st1, sc, a, k);
        EvalRicher(p, Eval(p, st1, sc, a).value.1, sc, b, k);
    }
  }

  lemma {:induction false} ForRicher(p: Program, st: State, sc: Scopes, f: Stmt, items: seq<Value>, k: nat)
    requires f.For?
    ensures SameRun(ExecFor(p, st, sc, f, items), ExecFor(p, Richer(st, k), sc, f, items), k)
    decreases st.fuel, 2, 0
  {
    hide ExecBlock;
    if ExecFor(p, st, sc, f, items).Ok? && items != [] {
      var st1 := st.(fuel := st.fuel - 1);
      assert Richer(st, k).(fuel := Richer(st, k).fuel - 1) == Richer(st1, k);
      var inner := sc + [map[f.item := Binding(items[0], true)]];
      BlockRicher(p, st1, inner, f.body, k);
      var (o, sc1, st2) := ExecBlock(p, st1, inner, f.body).value;
      if o.None? {
        ForRicher(p, st2, if sc1 == [] then [] else sc1[..|sc1| - 1], f, items[1..], k);
      }
    }
  }

  /** An evaluation that succeeds with some fuel gives the same value with any larger amount. */
  lemma MoreFuelSameValue(p: Program, st: State, sc: Scopes, e: Expr, fuel: nat)
    requires Eval(p, st, sc, e).Ok? && fuel >= st.fuel
    ensures Eval(p, st.(fuel := fuel), sc, e).Ok?
            && Eval(p, st.(fuel := fuel), sc, e).value.0 == Eval(p, st, sc, e).value.0
  {
    hide Eval;
    EvalRicher(p, st, sc, e, fuel - st.fuel);
    assert Richer(st, fuel - st.fuel) == st.(fuel := fuel);
  }
}
