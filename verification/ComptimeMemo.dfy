/** Memoisation is only a cut-off: a cached global is what evaluating it afresh yields, whenever that succeeds. */
module ComptimeMemo {
  import opened Wrappers
  import opened Comptime

  function Fresh(p: Program): Program {
    p.(memo := false)
  }

  function Flagged(p: Program, cached: bool): Program {
    p.(memo := cached)
  }

  /** Every evaluation of the global without a cache that succeeds yields `v`. */
  ghost predicate Settled(p: Program, x: string, v: Value) {
    x in p.decls &&
    forall s: State :: s.values == map[] && EvalGlobal(Fresh(p), s, x).Ok? ==> EvalGlobal(Fresh(p), s, x).value.0 == v
  }

  ghost predicate Consistent(p: Program, values: map<string, Value>) {
    forall x :: x in values ==> Settled(p, x, values[x])
  }

  /** The same user bindings; the outermost scope of the first may also hold seeded globals. */
  ghost predicate ScopeRelated(p: Program, cached: bool, i: nat, a: map<string, Binding>, b: map<string, Binding>) {
    && (forall x :: x in b ==> x in a && a[x] == b[x])
    && (forall x :: x in a && x !in b ==> cached && i == 0 && !a[x].mutable && Settled(p, x, a[x].v))
  }

  ghost predicate Related(p: Program, cached: bool, a: Scopes, b: Scopes) {
    |a| == |b| && forall i :: 0 <= i < |a| ==> ScopeRelated(p, cached, i, a[i], b[i])
  }

  /** The state of the run that may cache, and of the run that does not. */
  ghost predicate Paired(p: Program, cached: bool, a: State, b: State) {
    Consistent(p, a.values) && b.values == map[] && (!cached ==> a.values == map[])
  }

  ghost predicate SameValue<T>(p: Program, cached: bool, ra: Result<(T, State), Failure>, rb: Result<(T, State),
                               Failure>) {
    ra.Ok? && rb.Ok? ==> ra.value.0 == rb.value.0 && Paired(p, cached, ra.value.1, rb.value.1)
  }

  ghost predicate SameRun(p: Program, cached: bool, ra: Executed, rb: Executed) {
    ra.Ok? && rb.Ok? ==>
      ra.value.0 == rb.value.0 && Related(p, cached, ra.value.1, rb.value.1)
        && Paired(p, cached, ra.value.2, rb.value.2)
  }

  // ---------------------------------------------------------------------------------------------
  // Scopes

  lemma {:induction false} LookupRelated(p: Program, cached: bool, a: Scopes, b: Scopes, x: string)
    requires Related(p, cached, a, b)
    ensures Lookup(b, x).Some? ==> Lookup(a, x) == Lookup(b, x)
    ensures Lookup(b, x).None? && Lookup(a, x).Some? ==>
              cached && !Lookup(a, x).value.mutable && Settled(p, x, Lookup(a, x).value.v)
    decreases |a|
  {
    hide Settled;
    if a != [] {
      var last := |a| - 1;
      assert ScopeRelated(p, cached, last, a[last], b[last]);
      LookupRelated(p, cached, a[..last], b[..last], x);
      if x !in b[last] && x in a[last] {
        assert last == 0 && Lookup(b[..last], x).None?;
      }
    }
  }

  lemma DeclaredRelated(p: Program, cached: bool, a: Scopes, b: Scopes, x: string, v: Binding)
    requires Related(p, cached, a, b)
    ensures Related(p, cached, Declared(a, x, v), Declared(b, x, v))
  {
    hide Settled;
    if a != [] {
      var last := |a| - 1;
      forall i | 0 <= i < |a| ensures ScopeRelated(p, cached, i, Declared(a, x, v)[i], Declared(b, x, v)[i]) {
        assert ScopeRelated(p, cached, i, a[i], b[i]);
      }
    }
  }

  lemma {:induction false} AssignedRelated(p: Program, cached: bool, a: Scopes, b: Scopes, x: string, v: Value)
    requires Related(p, cached, a, b) && Lookup(b, x).Some?
    ensures Related(p, cached, Assigned(a, x, v), Assigned(b, x, v))
    decreases |a|
  {
    var last := |a| - 1;
    InitRelated(p, cached, a, b);
    if x in b[last] {
      var top, other := a[last][x := a[last][x].(v := v)], b[last][x := b[last][x].(v := v)];
      assert ScopeRelated(p, cached, last, top, other);
      assert Assigned(a, x, v) == a[..last] + [top] && Assigned(b, x, v) == b[..last] + [other];
      JoinRelated(p, cached, a[..last], b[..last], top, other);
    } else {
      hide ScopeRelated, Related;
      AssignedRelated(p, cached, a[..last], b[..last], x, v);
      AssignedLength(a[..last], x, v);
      AssignedLength(b[..last], x, v);
      JoinRelated(p, cached, Assigned(a[..last], x, v), Assigned(b[..last], x, v), a[last], b[last]);
    }
  }

  lemma InitRelated(p: Program, cached: bool, a: Scopes, b: Scopes)
    requires Related(p, cached, a, b) && a != []
    ensures |b| == |a| && Related(p, cached, a[..|a| - 1], b[..|a| - 1])
    ensures ScopeRelated(p, cached, |a| - 1, a[|a| - 1], b[|a| - 1])
  {
    hide ScopeRelated;
  }

  lemma JoinRelated(p: Program, cached: bool, a: Scopes, b: Scopes, top: map<string, Binding>,
                    other: map<string, Binding>)
    requires Related(p, cached, a, b) && ScopeRelated(p, cached, |a|, top, other)
    ensures Related(p, cached, a + [top], b + [other])
  {
    hide ScopeRelated;
    forall i | 0 <= i < |a| + 1 ensures ScopeRelated(p, cached, i, (a + [top])[i], (b + [other])[i]) {
      if i < |a| {
        assert ScopeRelated(p, cached, i, a[i], b[i]);
      }
    }
  }

  lemma {:induction false} AssignedLength(a: Scopes, x: string, v: Value)
    ensures |Assigned(a, x, v)| == |a|
    decreases |a|
  {
    if a != [] && x !in a[|a| - 1] {
      AssignedLength(a[..|a| - 1], x, v);
    }
  }

  lemma PushRelated(p: Program, cached: bool, a: Scopes, b: Scopes, scope: map<string, Binding>)
    requires Related(p, cached, a, b)
    ensures Related(p, cached, a + [scope], b + [scope])
  {
    hide Settled;
    forall i | 0 <= i < |a| + 1 ensures ScopeRelated(p, cached, i, (a + [scope])[i], (b + [scope])[i]) {
      if i < |a| {
        assert ScopeRelated(p, cached, i, a[i], b[i]);
      }
    }
  }

  function Outer(sc: Scopes): Scopes {
    if sc == [] then [] else sc[..|sc| - 1]
  }

  lemma PopRelated(p: Program, cached: bool, a: Scopes, b: Scopes)
    requires Related(p, cached, a, b)
    ensures Related(p, cached, Outer(a), Outer(b))
  {
    hide ScopeRelated;
    forall i | 0 <= i < |Outer(a)| ensures ScopeRelated(p, cached, i, Outer(a)[i], Outer(b)[i]) {
      assert ScopeRelated(p, cached, i, a[i], b[i]);
    }
  }

  lemma SeedsRelated(p: Program, cached: bool, a: State, b: State)
    requires Paired(p, cached, a, b)
    ensures ScopeRelated(p, cached, 0, Seeded(a)[0], Seeded(b)[0]) && Related(p, cached, Seeded(a), Seeded(b))
  {
    hide Settled;
  }

  lemma {:induction false} ParamsRelated(p: Program, cached: bool, a: map<string, Binding>, b: map<string, Binding>,
                                         params: seq<string>, vs: seq<Value>)
    requires |params| == |vs| && ScopeRelated(p, cached, 0, a, b)
    ensures ScopeRelated(p, cached, 0, WithParams(a, params, vs), WithParams(b, params, vs))
    decreases |params|
  {
    hide Settled;
    if params != [] {
      ParamsRelated(p, cached, a[params[0] := Binding(vs[0], true)], b[params[0] := Binding(vs[0], true)], params[1..],
                    vs[1..]);
    }
  }

  // ---------------------------------------------------------------------------------------------
  // The two runs

  function Rank(cached: bool): nat { if cached then 1 else 0 }

  lemma {:induction false} EvalAgrees(p: Program, cached: bool, sa: State, sca: Scopes, sb: State, scb: Scopes, e: Expr)
    requires Paired(p, cached, sa, sb) && Related(p, cached, sca, scb)
    ensures SameValue(p, cached, Eval(Flagged(p, cached), sa, sca, e), Eval(Fresh(p), sb, scb, e))
    decreases Rank(cached), sa.fuel, 0, 0
  {
    hide Consistent, Related;
    var pa, pb := Flagged(p, cached), Fresh(p);
    if Eval(pa, sa, sca, e).Ok? && Eval(pb, sb, scb, e).Ok? {
      var a1, b1 := sa.(fuel := sa.fuel - 1), sb.(fuel := sb.fuel - 1);
      match e
      case Lit(_) =>
      case Name(x) => NameAgrees(p, cached, a1, sca, b1, scb, x);
      case Unary(_, x) => EvalAgrees(p, cached, a1, sca, b1, scb, x);
      case Binary(_, l, r) =>
        EvalAgrees(p, cached, a1, sca, b1, scb, l);
        EvalAgrees(p, cached, Eval(pa, a1, sca, l).value.1, sca, Eval(pb, b1, scb, l).value.1, scb, r);
      case IfExpr(c, t, f) =>
        EvalAgrees(p, cached, a1, sca, b1, scb, c);
        var (v, a2) := Eval(pa, a1, sca, c).value;
        EvalAgrees(p, cached, a2, sca, Eval(pb, b1, scb, c).value.1, scb, if v == Bool(true) then t else f);
      case CallTo(f, args) => CallAgrees(p, cached, a1, sca, b1, scb, f, args);
    }
  }

  lemma {:induction false} NameAgrees(p: Program, cached: bool, sa: State, sca: Scopes, sb: State, scb: Scopes,
                                      x: string)
    requires Paired(p, cached, sa, sb) && Related(p, cached, sca, scb)
    requires Lookup(sca, x).Some? || (x in p.decls && EvalGlobal(Flagged(p, cached), sa, x).Ok?)
    requires Lookup(scb, x).Some? || (x in p.decls && EvalGlobal(Fresh(p), sb, x).Ok?)
    ensures var ra :=
              if Lookup(sca, x).Some? then Ok((Lookup(sca, x).value.v, sa)) else EvalGlobal(Flagged(p, cached), sa, x);
            var rb := if Lookup(scb, x).Some? then Ok((Lookup(scb, x).value.v, sb)) else EvalGlobal(Fresh(p), sb, x);
            SameValue(p, cached, ra, rb)
    decreases Rank(cached), sa.fuel, 2, 0
  {
    hide EvalGlobal, Related;
    LookupRelated(p, cached, sca, scb, x);
    if Lookup(scb, x).None? {
      if Lookup(sca, x).None? {
        GlobalAgrees(p, cached, sa, sb, x);
      } else {
        CachesNothing(p, sb, x);
      }
    }
  }

  lemma {:induction false} CachesNothing(p: Program, s: State, x: string)
    requires s.values == map[] && x in p.decls
    ensures EvalGlobal(Fresh(p), s, x).Ok? ==> EvalGlobal(Fresh(p), s, x).value.1.values == map[]
    decreases 0, s.fuel, 1, 2
  {
    hide EvalGlobal;
    ConsistentNothing(p);
    GlobalAgrees(p, false, s, s, x);
  }

  lemma ConsistentNothing(p: Program)
    ensures Consistent(p, map[])
  {
  }

  lemma {:induction false} GlobalAgrees(p: Program, cached: bool, sa: State, sb: State, x: string)
    requires Paired(p, cached, sa, sb) && x in p.decls
    ensures SameValue(p, cached, EvalGlobal(Flagged(p, cached), sa, x), EvalGlobal(Fresh(p), sb, x))
    decreases Rank(cached), sa.fuel, 1, 1
  {
    var pa, pb := Flagged(p, cached), Fresh(p);
    if EvalGlobal(pa, sa, x).Ok? && EvalGlobal(pb, sb, x).Ok? {
      if x in sa.values {
        KnownAgrees(p, cached, sa, sb, x);
      } else {
        ComputedAgrees(p, cached, sa, sb, x);
      }
    }
  }

  lemma {:induction false} KnownAgrees(p: Program, cached: bool, sa: State, sb: State, x: string)
    requires Paired(p, cached, sa, sb) && x in sa.values && x in p.decls && EvalGlobal(Fresh(p), sb, x).Ok?
    ensures SameValue(p, cached, EvalGlobal(Flagged(p, cached), sa, x), EvalGlobal(Fresh(p), sb, x))
    decreases Rank(cached), sa.fuel, 1, 0
  {
    hide Eval;
    CachesNothing(p, sb, x);
    assert Settled(p, x, sa.values[x]);
  }

  lemma {:induction false} ComputedAgrees(p: Program, cached: bool, sa: State, sb: State, x: string)
    requires Paired(p, cached, sa, sb) && x !in sa.values && x in p.decls
    requires EvalGlobal(Flagged(p, cached), sa, x).Ok? && EvalGlobal(Fresh(p), sb, x).Ok?
    ensures SameValue(p, cached, EvalGlobal(Flagged(p, cached), sa, x), EvalGlobal(Fresh(p), sb, x))
    decreases Rank(cached), sa.fuel, 1, 0
  {
    hide Eval, Settled;
    var pa, pb := Flagged(p, cached), Fresh(p);
    var a1 := Pushed(sa.(evaluating := sa.evaluating + {x}), Global(x)).value;
    var b1 := Pushed(sb.(evaluating := sb.evaluating + {x}), Global(x)).value;
    SeedsRelated(p, cached, a1, b1);
    EvalAgrees(p, cached, a1, Seeded(a1), b1, Seeded(b1), p.decls[x]);
    if cached {
      NewlySettled(p, sb, x);
      Recorded(p, Eval(pa, a1, Seeded(a1), p.decls[x]).value.1.values, x, EvalGlobal(pb, sb, x).value.0);
    }
  }

  lemma Recorded(p: Program, values: map<string, Value>, x: string, v: Value)
    requires Consistent(p, values) && Settled(p, x, v)
    ensures Consistent(p, values[x := v])
  {
    hide Settled;
  }

  /** What one evaluation without a cache yields, all of them yield. */
  lemma {:induction false} NewlySettled(p: Program, s: State, x: string)
    requires s.values == map[] && x in p.decls && EvalGlobal(Fresh(p), s, x).Ok?
    ensures Settled(p, x, EvalGlobal(Fresh(p), s, x).value.0)
    decreases 0, s.fuel, 1, 2
  {
    hide EvalGlobal;
    ConsistentNothing(p);
    forall t: State | t.values == map[] && EvalGlobal(Fresh(p), t, x).Ok?
      ensures EvalGlobal(Fresh(p), t, x).value.0 == EvalGlobal(Fresh(p), s, x).value.0
    {
      GlobalAgrees(p, false, s, t, x);
    }
  }

  lemma {:induction false} ArgsAgree(p: Program, cached: bool, sa: State, sca: Scopes, sb: State, scb: Scopes,
                                     args: seq<Expr>)
    requires Paired(p, cached, sa, sb) && Related(p, cached, sca, scb)
    ensures SameValue(p, cached, EvalArgs(Flagged(p, cached), sa, sca, args), EvalArgs(Fresh(p), sb, scb, args))
    decreases Rank(cached), sa.fuel, 1, |args|
  {
    hide Eval, Related;
    var pa, pb := Flagged(p, cached), Fresh(p);
    if EvalArgs(pa, sa, sca, args).Ok? && EvalArgs(pb, sb, scb, args).Ok? && args != [] {
      EvalAgrees(p, cached, sa, sca, sb, scb, args[0]);
      ArgsAgree(p, cached, Eval(pa, sa, sca, args[0]).value.1, sca, Eval(pb, sb, scb, args[0]).value.1, scb, args[1..]);
    }
  }

  lemma {:induction false} CallAgrees(p: Program, cached: bool, sa: State, sca: Scopes, sb: State, scb: Scopes,
                                      f: string, args: seq<Expr>)
    requires Paired(p, cached, sa, sb) && Related(p, cached, sca, scb)
    ensures SameValue(p, cached, EvalCall(Flagged(p, cached), sa, sca, f, args), EvalCall(Fresh(p), sb, scb, f, args))
    decreases Rank(cached), sa.fuel, 4, 0
  {
    hide EvalArgs, ExecBlock, Settled, Consistent;
    var pa, pb := Flagged(p, cached), Fresh(p);
    if EvalCall(pa, sa, sca, f, args).Ok? && EvalCall(pb, sb, scb, f, args).Ok? {
      var a1, b1 := Pushed(sa, Call(f)).value, Pushed(sb, Call(f)).value;
      ArgsAgree(p, cached, a1, sca, b1, scb, args);
      var (vs, a2) := EvalArgs(pa, a1, sca, args).value;
      var b2 := EvalArgs(pb, b1, scb, args).value.1;
      SeedsRelated(p, cached, a1, b1);
      var params := p.fns[f].params;
      ParamsRelated(p, cached, Seeded(a1)[0], Seeded(b1)[0], params, vs);
      BlockAgrees(p, cached, a2, [WithParams(Seeded(a1)[0], params, vs)], b2, [WithParams(Seeded(b1)[0], params, vs)],
                  p.fns[f].body);
    }
  }

  lemma {:induction false} BlockAgrees(p: Program, cached: bool, sa: State, sca: Scopes, sb: State, scb: Scopes,
                                       b: seq<Stmt>)
    requires Paired(p, cached, sa, sb) && Related(p, cached, sca, scb)
    ensures SameRun(p, cached, ExecBlock(Flagged(p, cached), sa, sca, b), ExecBlock(Fresh(p), sb, scb, b))
    decreases Rank(cached), sa.fuel, 3, b, 1
  {
    hide ExecAll, Related, Consistent;
    var pa, pb := Flagged(p, cached), Fresh(p);
    PushRelated(p, cached, sca, scb, map[]);
    AllAgree(p, cached, sa, sca + [map[]], sb, scb + [map[]], b);
    var ra, rb := ExecAll(pa, sa, sca + [map[]], b), ExecAll(pb, sb, scb + [map[]], b);
    if ra.Ok? && rb.Ok? {
      PopRelated(p, cached, ra.value.1, rb.value.1);
    }
  }

  lemma {:induction false} AllAgree(p: Program, cached: bool, sa: State, sca: Scopes, sb: State, scb: Scopes,
                                    b: seq<Stmt>)
    requires Paired(p, cached, sa, sb) && Related(p, cached, sca, scb)
    ensures SameRun(p, cached, ExecAll(Flagged(p, cached), sa, sca, b), ExecAll(Fresh(p), sb, scb, b))
    decreases Rank(cached), sa.fuel, 3, b, 0
  {
    hide ExecStmt, Related, Consistent;
    var pa, pb := Flagged(p, cached), Fresh(p);
    if ExecAll(pa, sa, sca, b).Ok? && ExecAll(pb, sb, scb, b).Ok? && b != [] && !(b[0].Return? && b[0].result.None?) {
      StmtAgrees(p, cached, sa, sca, sb, scb, b[0]);
      var (o, sca1, sa1) := ExecStmt(pa, sa, sca, b[0]).value;
      var (_, scb1, sb1) := ExecStmt(pb, sb, scb, b[0]).value;
      if o.None? {
        AllAgree(p, cached, sa1, sca1, sb1, scb1, b[1..]);
      }
    }
  }

  lemma {:induction false} StmtAgrees(p: Program, cached: bool, sa: State, sca: Scopes, sb: State, scb: Scopes, s: Stmt)
    requires Paired(p, cached, sa, sb) && Related(p, cached, sca, scb)
    ensures SameRun(p, cached, ExecStmt(Flagged(p, cached), sa, sca, s), ExecStmt(Fresh(p), sb, scb, s))
    decreases Rank(cached), sa.fuel, 3, s, 0
  {
    hide Eval, ExecBlock, ExecWhile, ExecFor, SourceItems, Related, Consistent;
    var pa, pb := Flagged(p, cached), Fresh(p);
    if ExecStmt(pa, sa, sca, s).Ok? && ExecStmt(pb, sb, scb, s).Ok? {
      match s
      case Decl(x, m, e) =>
        EvalAgrees(p, cached, sa, sca, sb, scb, e);
        DeclaredRelated(p, cached, sca, scb, x, Binding(Eval(pa, sa, sca, e).value.0, m));
      case Assign(x, e) =>
        EvalAgrees(p, cached, sa, sca, sb, scb, e);
        AssignedRelated(p, cached, sca, scb, x, Eval(pa, sa, sca, e).value.0);
      case Do(e) => EvalAgrees(p, cached, sa, sca, sb, scb, e);
      case Return(r) =>
        if r.Some? {
          EvalAgrees(p, cached, sa, sca, sb, scb, r.value);
        }
      case If(c, t, f) =>
        EvalAgrees(p, cached, sa, sca, sb, scb, c);
        var (v, sa1) := Eval(pa, sa, sca, c).value;
        BlockAgrees(p, cached, sa1, sca, Eval(pb, sb, scb, c).value.1, scb, if v == Bool(true) then t else f);
      case While(_, bound, _, _, _) =>
        EvalAgrees(p, cached, sa, sca, sb, scb, bound);
        var (n, sa1) := Eval(pa, sa, sca, bound).value;
        var sb1 := Eval(pb, sb, scb, bound).value.1;
        WhileAgrees(p, cached, Pushed(sa1, WhileLoop(n.n)).value, sca, Pushed(sb1, WhileLoop(n.n)).value, scb, s, n.n,
                    0);
      case For(_, src, _) =>
        ItemsAgree(p, cached, sa, sca, sb, scb, src);
        var (items, sa1) := SourceItems(pa, sa, sca, src).value;
        var sb1 := SourceItems(pb, sb, scb, src).value.1;
        ForAgrees(p, cached, Pushed(sa1, ForLoop(|items|)).value, sca, Pushed(sb1, ForLoop(|items|)).value, scb, s,
                  items);
      case Block(b) => BlockAgrees(p, cached, sa, sca, sb, scb, b);
    }
  }

  lemma {:induction false} WhileAgrees(p: Program, cached: bool, sa: State, sca: Scopes, sb: State, scb: Scopes,
                                       w: Stmt, bound: int, i: nat)
    requires w.While? && Paired(p, cached, sa, sb) && Related(p, cached, sca, scb)
    ensures SameRun(p, cached, ExecWhile(Flagged(p, cached), sa, sca, w, bound, i),
                    ExecWhile(Fresh(p), sb, scb, w, bound, i))
    decreases Rank(cached), sa.fuel, 2, 0
  {
    hide Eval, ExecBlock, Related, Consistent;
    var pa, pb := Flagged(p, cached), Fresh(p);
    if ExecWhile(pa, sa, sca, w, bound, i).Ok? && ExecWhile(pb, sb, scb, w, bound, i).Ok? {
      EvalAgrees(p, cached, sa, sca, sb, scb, w.c);
      var (v, sa1) := Eval(pa, sa, sca, w.c).value;
      var sb1 := Eval(pb, sb, scb, w.c).value.1;
      if v == Bool(true) {
        if i >= bound {
          BlockAgrees(p, cached, sa1, sca, sb1, scb, w.els);
        } else {
          BlockAgrees(p, cached, sa1, sca, sb1, scb, w.body);
          var (o, sca1, sa2) := ExecBlock(pa, sa1, sca, w.body).value;
          var (_, scb1, sb2) := ExecBlock(pb, sb1, scb, w.body).value;
          if o.None? {
            WhileAgrees(p, cached, sa2, sca1, sb2, scb1, w, bound, i + 1);
          }
        }
      }
    }
  }

  lemma {:induction false} ItemsAgree(p: Program, cached: bool, sa: State, sca: Scopes, sb: State, scb: Scopes,
                                      src: Source)
    requires Paired(p, cached, sa, sb) && Related(p, cached, sca, scb)
    ensures SameValue(p, cached, SourceItems(Flagged(p, cached), sa, sca, src), SourceItems(Fresh(p), sb, scb, src))
    decreases Rank(cached), sa.fuel, 2, 0
  {
    hide Eval, Related, Consistent;
    var pa, pb := Flagged(p, cached), Fresh(p);
    if SourceItems(pa, sa, sca, src).Ok? && SourceItems(pb, sb, scb, src).Ok? {
      match src
      case Elements(e) => EvalAgrees(p, cached, sa, sca, sb, scb, e);
      case Range(a, b, step, _) =>
        if step.Some? {
          EvalAgrees(p, cached, sa, sca, sb, scb, step.value);
        }
        var sa1 := if step.Some? then Eval(pa, sa, sca, step.value).value.1 else sa;
        var sb1 := if step.Some? then Eval(pb, sb, scb, step.value).value.1 else sb;
        EvalAgrees(p, cached, sa1, sca, sb1, scb, a);
        EvalAgrees(p, cached, Eval(pa, sa1, sca, a).value.1, sca, Eval(pb, sb1, scb, a).value.1, scb, b);
    }
  }

  lemma {:induction false} ForAgrees(p: Program, cached: bool, sa: State, sca: Scopes, sb: State, scb: Scopes, f: Stmt,
                                     items: seq<Value>)
    requires f.For? && Paired(p, cached, sa, sb) && Related(p, cached, sca, scb)
    ensures SameRun(p, cached, ExecFor(Flagged(p, cached), sa, sca, f, items), ExecFor(Fresh(p), sb, scb, f, items))
    decreases Rank(cached), sa.fuel, 2, 0
  {
    hide ExecBlock, Related, Consistent;
    var pa, pb := Flagged(p, cached), Fresh(p);
    if ExecFor(pa, sa, sca, f, items).Ok? && ExecFor(pb, sb, scb, f, items).Ok? && items != [] {
      var a1, b1 := sa.(fuel := sa.fuel - 1), sb.(fuel := sb.fuel - 1);
      var scope := map[f.item := Binding(items[0], true)];
      PushRelated(p, cached, sca, scb, scope);
      BlockAgrees(p, cached, a1, sca + [scope], b1, scb + [scope], f.body);
      var (o, sca1, sa2) := ExecBlock(pa, a1, sca + [scope], f.body).value;
      var (_, scb1, sb2) := ExecBlock(pb, b1, scb + [scope], f.body).value;
      PopRelated(p, cached, sca1, scb1);
      if o.None? {
        ForAgrees(p, cached, sa2, Outer(sca1), sb2, Outer(scb1), f, items[1..]);
      }
    }
  }

  // ---------------------------------------------------------------------------------------------
  // The cache stays consistent, whether or not evaluation without it would succeed

  ghost predicate Keeps<T>(p: Program, r: Result<(T, State), Failure>) {
    r.Ok? ==> Consistent(p, r.value.1.values)
  }

  ghost predicate KeepsRun(p: Program, r: Executed) {
    r.Ok? ==> Consistent(p, r.value.2.values)
  }

  lemma {:induction false} EvalKeeps(p: Program, s: State, sc: Scopes, e: Expr)
    requires Consistent(p, s.values)
    ensures Keeps(p, Eval(Flagged(p, true), s, sc, e))
    decreases s.fuel, 0, 0
  {
    hide Consistent;
    var q := Flagged(p, true);
    if Eval(q, s, sc, e).Ok? {
      var s1 := s.(fuel := s.fuel - 1);
      match e
      case Lit(_) =>
      case Name(x) =>
        if Lookup(sc, x).None? {
          GlobalKeeps(p, s1, x);
        }
      case Unary(_, x) => EvalKeeps(p, s1, sc, x);
      case Binary(_, l, r) =>
        EvalKeeps(p, s1, sc, l);
        EvalKeeps(p, Eval(q, s1, sc, l).value.1, sc, r);
      case IfExpr(c, t, f) =>
        EvalKeeps(p, s1, sc, c);
        var (v, s2) := Eval(q, s1, sc, c).value;
        EvalKeeps(p, s2, sc, if v == Bool(true) then t else f);
      case CallTo(f, args) => CallKeeps(p, s1, sc, f, args);
    }
  }

  lemma {:induction false} GlobalKeeps(p: Program, s: State, x: string)
    requires Consistent(p, s.values) && x in p.decls
    ensures Keeps(p, EvalGlobal(Flagged(p, true), s, x))
    decreases s.fuel, 1, 0
  {
    hide Consistent;
    var q := Flagged(p, true);
    if EvalGlobal(q, s, x).Ok? && x !in s.values {
      var s1 := Pushed(s.(evaluating := s.evaluating + {x}), Global(x)).value;
      EvalKeeps(p, s1, Seeded(s1), p.decls[x]);
      var (v, s2) := Eval(q, s1, Seeded(s1), p.decls[x]).value;
      CachedIsSettled(p, s, x);
      Recorded(p, s2.values, x, v);
    }
  }

  /** What is cached for a global is what evaluating it without a cache yields, if that ever succeeds. */
  lemma CachedIsSettled(p: Program, s: State, x: string)
    requires Consistent(p, s.values) && x in p.decls && EvalGlobal(Flagged(p, true), s, x).Ok?
    ensures Settled(p, x, EvalGlobal(Flagged(p, true), s, x).value.0)
  {
    hide EvalGlobal, Consistent;
    forall t: State | t.values == map[] && EvalGlobal(Fresh(p), t, x).Ok?
      ensures EvalGlobal(Fresh(p), t, x).value.0 == EvalGlobal(Flagged(p, true), s, x).value.0
    {
      GlobalAgrees(p, true, s, t, x);
    }
  }

  lemma {:induction false} ArgsKeep(p: Program, s: State, sc: Scopes, args: seq<Expr>)
    requires Consistent(p, s.values)
    ensures Keeps(p, EvalArgs(Flagged(p, true), s, sc, args))
    decreases s.fuel, 1, |args|
  {
    hide Eval, Consistent;
    if args != [] && Eval(Flagged(p, true), s, sc, args[0]).Ok? {
      EvalKeeps(p, s, sc, args[0]);
      ArgsKeep(p, Eval(Flagged(p, true), s, sc, args[0]).value.1, sc, args[1..]);
    }
  }

  lemma {:induction false} CallKeeps(p: Program, s: State, sc: Scopes, f: string, args: seq<Expr>)
    requires Consistent(p, s.values)
    ensures Keeps(p, EvalCall(Flagged(p, true), s, sc, f, args))
    decreases s.fuel, 4, 0
  {
    hide EvalArgs, ExecBlock, Consistent;
    var q := Flagged(p, true);
    if EvalCall(q, s, sc, f, args).Ok? {
      var s1 := Pushed(s, Call(f)).value;
      ArgsKeep(p, s1, sc, args);
      var (vs, s2) := EvalArgs(q, s1, sc, args).value;
      BlockKeeps(p, s2, [WithParams(Seeded(s1)[0], p.fns[f].params, vs)], p.fns[f].body);
    }
  }

  lemma {:induction false} BlockKeeps(p: Program, s: State, sc: Scopes, b: seq<Stmt>)
    requires Consistent(p, s.values)
    ensures KeepsRun(p, ExecBlock(Flagged(p, true), s, sc, b))
    decreases s.fuel, 3, b, 1
  {
    hide ExecAll, Consistent;
    AllKeep(p, s, sc + [map[]], b);
  }

  lemma {:induction false} AllKeep(p: Program, s: State, sc: Scopes, b: seq<Stmt>)
    requires Consistent(p, s.values)
    ensures KeepsRun(p, ExecAll(Flagged(p, true), s, sc, b))
    decreases s.fuel, 3, b, 0
  {
    hide ExecStmt, Consistent;
    var q := Flagged(p, true);
    if b != [] && b[0] != Return(None) && ExecStmt(q, s, sc, b[0]).Ok? {
      StmtKeeps(p, s, sc, b[0]);
      var (o, sc1, s1) := ExecStmt(q, s, sc, b[0]).value;
      AllKeep(p, s1, sc1, b[1..]);
    }
  }

  lemma {:induction false} StmtKeeps(p: Program, s: State, sc: Scopes, st: Stmt)
    requires Consistent(p, s.values)
    ensures KeepsRun(p, ExecStmt(Flagged(p, true), s, sc, st))
    decreases s.fuel, 3, st, 0
  {
    hide Eval, ExecBlock, ExecWhile, ExecFor, SourceItems, Consistent;
    var q := Flagged(p, true);
    if ExecStmt(q, s, sc, st).Ok? {
      match st
      case Decl(_, _, e) => EvalKeeps(p, s, sc, e);
      case Assign(_, e) => EvalKeeps(p, s, sc, e);
      case Do(e) => EvalKeeps(p, s, sc, e);
      case Return(r) =>
        if r.Some? {
          EvalKeeps(p, s, sc, r.value);
        }
      case If(c, t, f) =>
        EvalKeeps(p, s, sc, c);
        var (v, s1) := Eval(q, s, sc, c).value;
        BlockKeeps(p, s1, sc, if v == Bool(true) then t else f);
      case While(_, bound, _, _, _) =>
        EvalKeeps(p, s, sc, bound);
        var (n, s1) := Eval(q, s, sc, bound).value;
        WhileKeeps(p, Pushed(s1, WhileLoop(n.n)).value, sc, st, n.n, 0);
      case For(_, src, _) =>
        ItemsKeep(p, s, sc, src);
        var (items, s1) := SourceItems(q, s, sc, src).value;
        ForKeeps(p, Pushed(s1, ForLoop(|items|)).value, sc, st, items);
      case Block(b) => BlockKeeps(p, s, sc, b);
    }
  }

  lemma {:induction false} WhileKeeps(p: Program, s: State, sc: Scopes, w: Stmt, bound: int, i: nat)
    requires w.While? && Consistent(p, s.values)
    ensures KeepsRun(p, ExecWhile(Flagged(p, true), s, sc, w, bound, i))
    decreases s.fuel, 2, 0
  {
    hide Eval, ExecBlock, Consistent;
    var q := Flagged(p, true);
    if ExecWhile(q, s, sc, w, bound, i).Ok? {
      EvalKeeps(p, s, sc, w.c);
      var (v, s1) := Eval(q, s, sc, w.c).value;
      if v == Bool(true) && i >= bound {
        BlockKeeps(p, s1, sc, w.els);
      } else if v == Bool(true) {
        BlockKeeps(p, s1, sc, w.body);
        var (o, sc1, s2) := ExecBlock(q, s1, sc, w.body).value;
        WhileKeeps(p, s2, sc1, w, bound, i + 1);
      }
    }
  }

  lemma {:induction false} ItemsKeep(p: Program, s: State, sc: Scopes, src: Source)
    requires Consistent(p, s.values)
    ensures Keeps(p, SourceItems(Flagged(p, true), s, sc, src))
    decreases s.fuel, 2, 0
  {
    hide Eval, Consistent;
    var q := Flagged(p, true);
    if SourceItems(q, s, sc, src).Ok? {
      match src
      case Elements(e) => EvalKeeps(p, s, sc, e);
      case Range(a, b, step, _) =>
        if step.Some? {
          EvalKeeps(p, s, sc, step.value);
        }
        var s1 := if step.Some? then Eval(q, s, sc, step.value).value.1 else s;
        EvalKeeps(p, s1, sc, a);
        EvalKeeps(p, Eval(q, s1, sc, a).value.1, sc, b);
    }
  }

  lemma {:induction false} ForKeeps(p: Program, s: State, sc: Scopes, f: Stmt, items: seq<Value>)
    requires f.For? && Consistent(p, s.values)
    ensures KeepsRun(p, ExecFor(Flagged(p, true), s, sc, f, items))
    decreases s.fuel, 2, 0
  {
    hide ExecBlock, Consistent;
    var q := Flagged(p, true);
    if ExecFor(q, s, sc, f, items).Ok? && items != [] {
      var inner, scope := s.(fuel := s.fuel - 1), sc + [map[f.item := Binding(items[0], true)]];
      BlockKeeps(p, inner, scope, f.body);
      var (o, sc1, s1) := ExecBlock(q, inner, scope, f.body).value;
      ForKeeps(p, s1, Outer(sc1), f, items[1..]);
    }
  }

  /**
   What evaluation with a cache yields and what it caches is what evaluation without one yields, whenever that
   succeeds.
   */
  lemma CachingChangesNothing(p: Program, s: State, t: State, x: string)
    requires x in p.decls && Consistent(p, s.values) && t.values == map[] && EvalGlobal(Flagged(p, true), s, x).Ok?
    ensures EvalGlobal(Fresh(p), t, x).Ok? ==>
              EvalGlobal(Flagged(p, true), s, x).value.0 == EvalGlobal(Fresh(p), t, x).value.0
    ensures Consistent(p, EvalGlobal(Flagged(p, true), s, x).value.1.values)
  {
    hide EvalGlobal, Consistent;
    GlobalAgrees(p, true, s, t, x);
    GlobalKeeps(p, s, x);
  }

  /** `evt1EvaluateModuleComptime`: the globals of a module in order, over one state. */
  function EvalModule(p: Program, s: State, xs: seq<string>): Result<(seq<Value>, State), Failure>
    requires forall x :: x in xs ==> x in p.decls
    decreases |xs|
  {
    if xs == [] then Ok(([], s))
    else
      match EvalGlobal(p, s, xs[0])
      case Err(f) => Err(f)
      case Ok((v, s1)) =>
        match EvalModule(p, s1, xs[1..])
        case Err(f) => Err(f)
        case Ok((vs, s2)) => Ok(([v] + vs, s2))
  }

  /**
   Every global of a module has the value that evaluating it alone, without a cache, yields whenever that
   succeeds.
   */
  lemma {:induction false} ModuleIsUncached(p: Program, s: State, xs: seq<string>, t: State, k: nat)
    requires (forall x :: x in xs ==> x in p.decls) && k < |xs| && Consistent(p, s.values) && t.values == map[]
    requires EvalModule(Flagged(p, true), s, xs).Ok? && EvalGlobal(Fresh(p), t, xs[k]).Ok?
    ensures |EvalModule(Flagged(p, true), s, xs).value.0| == |xs|
    ensures EvalModule(Flagged(p, true), s, xs).value.0[k] == EvalGlobal(Fresh(p), t, xs[k]).value.0
    decreases |xs|
  {
    hide EvalGlobal, Consistent;
    var first := EvalGlobal(Flagged(p, true), s, xs[0]);
    if k == 0 {
      CachingChangesNothing(p, s, t, xs[0]);
      ModuleLength(Flagged(p, true), s, xs);
    } else {
      GlobalKeeps(p, s, xs[0]);
      ModuleIsUncached(p, first.value.1, xs[1..], t, k - 1);
    }
  }

  lemma {:induction false} ModuleLength(p: Program, s: State, xs: seq<string>)
    requires forall x :: x in xs ==> x in p.decls
    ensures EvalModule(p, s, xs).Ok? ==> |EvalModule(p, s, xs).value.0| == |xs|
    decreases |xs|
  {
    if xs != [] && EvalGlobal(p, s, xs[0]).Ok? {
      ModuleLength(p, EvalGlobal(p, s, xs[0]).value.1, xs[1..]);
    }
  }
}
