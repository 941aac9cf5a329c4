/** `while i < N bounded(n) { i = i + 1 }` for a global `N` of 10, evaluated and lowered. */
module LoopExample {
  import opened Wrappers
  import opened BoundedLoops
  import opened LoopMeanings
  import A = AsyncSyntax
  import D = AsyncDirect
  import C = Comptime
  import R = ComptimeReturns

  const COUNT: int := 10

  const Raise: C.Stmt := C.Assign("i", C.Binary(C.Add, C.Name("i"), C.Lit(C.Int(1))))

  const RaiseAsync: A.Stmt := A.Assign("i", A.Binary(A.Add, A.Name("i"), A.Lit(A.Int(1))))

  const Below: C.Expr := C.Binary(C.Less, C.Name("i"), C.Name("N"))

  const BelowAsync: A.Expr := A.Binary(A.Less, A.Name("i"), A.Lit(A.Int(COUNT)))

  function Evaluated(bound: nat): C.Stmt {
    C.While(Below, C.Lit(C.Int(bound)), [Raise], false, [])
  }

  function Lowered(bound: nat): A.Stmt {
    A.While(BelowAsync, Some(bound), [RaiseAsync], false, [])
  }

  function Globals(): C.Program {
    C.Program(map[], map["N" := C.Lit(C.Int(COUNT))], true)
  }

  function Locals(n: int): C.Scopes {
    [map["i" := C.Binding(C.Int(n), true)]]
  }

  /** Both have counted to the same number. */
  predicate Counted(x: Setting, s: D.Store) {
    "i" in s && s["i"].Int? && 0 <= s["i"].n <= COUNT && s == map["i" := s["i"]] && x.0 == Locals(s["i"].n)
  }

  /** The evaluator may have cached `N`, and has fuel for the turns that are left. */
  predicate Ready(st: C.State, n: int) {
    && st.stack == [] && st.evaluating == {} && ("N" in st.values ==> st.values["N"] == C.Int(COUNT))
    && st.fuel >= 10 * (COUNT + 1 - n)
  }

  predicate SameNumber(v: C.Value, w: A.Value) {
    v.Int? && w.Int? && v.n == w.n
  }

  function Counting(): Relation<Setting, C.Value, D.Store, A.Value> {
    Relation((x: Setting, s: D.Store) => Counted(x, s) && Ready(x.1, s["i"].n), Counted, SameNumber)
  }

  lemma ReadsGlobal(p: C.Program, st: C.State, sc: C.Scopes)
    requires p == Globals() && C.Lookup(sc, "N").None?
    requires st.stack == [] && st.evaluating == {} && st.fuel >= 2
    requires "N" in st.values ==> st.values["N"] == C.Int(COUNT)
    ensures var r := C.Eval(p, st, sc, C.Name("N"));
            && r.Ok? && r.value.0 == C.Int(COUNT) && r.value.1.fuel >= st.fuel - 2
            && r.value.1.stack == [] && r.value.1.evaluating == {} && "N" in r.value.1.values
              && r.value.1.values["N"] == C.Int(COUNT)
  {
    var st1 := st.(fuel := st.fuel - 1);
    if "N" !in st.values {
      var st2 := C.Pushed(st1.(evaluating := st1.evaluating + {"N"}), C.Global("N")).value;
      assert C.Eval(p, st2, C.Seeded(st2), p.decls["N"]) == Ok((C.Int(COUNT), st2.(fuel := st2.fuel - 1)));
      assert {} + {"N"} - {"N"} == {};
    }
  }

  lemma LooksUp(n: int)
    ensures C.Lookup(Locals(n), "i") == Some(C.Binding(C.Int(n), true)) && C.Lookup(Locals(n), "N") == None
  {
    assert Locals(n)[..0] == [];
    assert C.Lookup([], "N") == None;
  }

  lemma InnerScope(n: int)
    ensures C.Lookup(Locals(n) + [map[]], "i") == Some(C.Binding(C.Int(n), true))
    ensures C.Assigned(Locals(n) + [map[]], "i", C.Int(n + 1)) == Locals(n + 1) + [map[]]
  {
    LooksUp(n);
    assert (Locals(n) + [map[]])[..1] == Locals(n);
    var b := C.Binding(C.Int(n), true);
    assert Locals(n)[0]["i" := b.(v := C.Int(n + 1))] == map["i" := C.Binding(C.Int(n + 1), true)];
    assert C.Assigned(Locals(n), "i", C.Int(n + 1)) == Locals(n + 1);
  }

  lemma NameEvaluates(p: C.Program, st: C.State, sc: C.Scopes, x: string, b: C.Binding)
    requires C.Lookup(sc, x) == Some(b) && st.fuel > 0
    ensures C.Eval(p, st, sc, C.Name(x)) == Ok((b.v, st.(fuel := st.fuel - 1)))
  {
  }

  lemma LitEvaluates(p: C.Program, st: C.State, sc: C.Scopes, v: C.Value)
    requires st.fuel > 0
    ensures C.Eval(p, st, sc, C.Lit(v)) == Ok((v, st.(fuel := st.fuel - 1)))
  {
  }

  lemma BinaryEvaluates(p: C.Program, st: C.State, sc: C.Scopes, e: C.Expr, a: C.Value, st2: C.State, b: C.Value,
                        st3: C.State)
    requires e.Binary? && e.op != C.And && e.op != C.Or && st.fuel > 0
    requires C.Eval(p, st.(fuel := st.fuel - 1), sc, e.l) == Ok((a, st2)) && C.Eval(p, st2, sc, e.r) == Ok((b, st3))
    requires C.Apply(e.op, a, b).Some?
    ensures C.Eval(p, st, sc, e) == Ok((C.Apply(e.op, a, b).value, st3))
  {
  }

  lemma TestsAlike(st: C.State, n: int)
    requires 0 <= n <= COUNT && Ready(st, n)
    ensures var r := C.Eval(Globals(), st, Locals(n), Below);
            && r.Ok? && r.value.0 == C.Bool(n < COUNT)
            && r.value.1.stack == [] && r.value.1.evaluating == {} && "N" in r.value.1.values
            && r.value.1.values["N"] == C.Int(COUNT) && r.value.1.fuel >= st.fuel - 4
    ensures D.Pure(BelowAsync, map["i" := A.Int(n)]) == Some(A.Bool(n < COUNT))
  {
    AsyncTest(n);
    LooksUp(n);
    hide C.Eval, C.Lookup, Locals, D.Pure;
    var st2 := st.(fuel := st.fuel - 2);
    NameEvaluates(Globals(), st.(fuel := st.fuel - 1), Locals(n), "i", C.Binding(C.Int(n), true));
    ReadsGlobal(Globals(), st2, Locals(n));
    var st3 := C.Eval(Globals(), st2, Locals(n), C.Name("N")).value.1;
    BinaryEvaluates(Globals(), st, Locals(n), Below, C.Int(n), st2, C.Int(COUNT), st3);
  }

  lemma AsyncTest(n: int)
    ensures D.Pure(BelowAsync, map["i" := A.Int(n)]) == Some(A.Bool(n < COUNT))
  {
  }

  lemma SumEvaluates(st: C.State, n: int)
    requires 0 <= n < COUNT && st.fuel >= 4
    ensures C.Eval(Globals(), st, Locals(n) + [map[]], Raise.e) == Ok((C.Int(n + 1), st.(fuel := st.fuel - 3)))
  {
    hide C.Eval, C.Lookup, C.Assigned, Locals;
    InnerScope(n);
    var sc, p := Locals(n) + [map[]], Globals();
    var st2, st3 := st.(fuel := st.fuel - 2), st.(fuel := st.fuel - 3);
    NameEvaluates(p, st.(fuel := st.fuel - 1), sc, "i", C.Binding(C.Int(n), true));
    LitEvaluates(p, st2, sc, C.Int(1));
    BinaryEvaluates(p, st, sc, Raise.e, C.Int(n), st2, C.Int(1), st3);
  }

  lemma BodyEvaluates(st: C.State, n: int)
    requires 0 <= n < COUNT && st.fuel >= 4
    ensures R.RunBlock(Globals(), st, Locals(n), [Raise]) == Ok((R.Fell, Locals(n + 1), st.(fuel := st.fuel - 3)))
  {
    var sc, p := Locals(n) + [map[]], Globals();
    InnerScope(n);
    SumEvaluates(st, n);
    hide C.Eval, C.Lookup, C.Assigned;
    var last := st.(fuel := st.fuel - 3);
    assert C.ExecStmt(p, st, sc, Raise) == Ok((None, Locals(n + 1) + [map[]], last));
    assert R.RunStmt(p, st, sc, Raise) == Ok((R.Fell, Locals(n + 1) + [map[]], last));
    assert [Raise][1..] == [] && (Locals(n + 1) + [map[]])[..1] == Locals(n + 1);
    assert R.RunAll(p, st, sc, [Raise]) == Ok((R.Fell, Locals(n + 1) + [map[]], last));
  }

  lemma BodyRuns(q: A.Program, n: int, d: nat, fuel: nat)
    requires 0 <= n < COUNT
    ensures D.Exec(q, [RaiseAsync], map["i" := A.Int(n)], d, fuel) == D.Normal(map["i" := A.Int(n + 1)])
  {
    var s: D.Store := map["i" := A.Int(n)];
    assert D.Pure(RaiseAsync.e.l, s) == Some(A.Int(n)) && D.Pure(RaiseAsync.e.r, s) == Some(A.Int(1));
    assert D.Eval(q, RaiseAsync.e, s, d, fuel) == D.Evaluated(D.Pure(RaiseAsync.e, s));
    assert s["i" := A.Int(n + 1)] == map["i" := A.Int(n + 1)];
    assert D.ExecStmt(q, RaiseAsync, s, d, fuel) == D.Normal(map["i" := A.Int(n + 1)]);
    assert [RaiseAsync][1..] == [];
  }

  /** The parts of the two loops do the same to related states. */
  lemma CountingIsSimilar(q: A.Program, bound: nat, d: nat, fuel: nat)
    ensures Similar(ComptimeLoop(Globals(), Evaluated(bound)), DirectLoop(q, Lowered(bound), d, fuel), Counting())
  {
    hide C.Eval, D.Pure, D.Exec, R.RunBlock, Below, BelowAsync, Raise, RaiseAsync, SimilarTurn;
    forall x: Setting, s: D.Store | Counting().heads(x, s)
      ensures SimilarTurn(ComptimeLoop(Globals(), Evaluated(bound)), DirectLoop(q, Lowered(bound), d, fuel), x, s,
                          Counting())
    {
      TurnIsSimilar(q, bound, d, fuel, x, s);
    }
  }

  lemma TurnIsSimilar(q: A.Program, bound: nat, d: nat, fuel: nat, x: Setting, s: D.Store)
    requires Counted(x, s) && Ready(x.1, s["i"].n)
    ensures SimilarTurn(ComptimeLoop(Globals(), Evaluated(bound)), DirectLoop(q, Lowered(bound), d, fuel), x, s,
                        Counting())
  {
    hide C.Eval, D.Pure, D.Exec, R.RunBlock, Below, BelowAsync, Raise, RaiseAsync, Locals;
    var n := s["i"].n;
    TestsAlike(x.1, n);
    var st1 := C.Eval(Globals(), x.1, Locals(n), Below).value.1;
    var a, b := ComptimeLoop(Globals(), Evaluated(bound)), DirectLoop(q, Lowered(bound), d, fuel);
    assert a.test(x) == Some((n < COUNT, (x.0, st1)));
    assert b.test(s) == Some((n < COUNT, s));
    if n < COUNT {
      BodyEvaluates(st1, n);
      BodyRuns(q, n, d, fuel);
      assert a.body((x.0, st1)) == BoundedLoops.Fell((Locals(n + 1), st1.(fuel := st1.fuel - 3)));
      assert b.body(s) == BoundedLoops.Fell(map["i" := A.Int(n + 1)]);
    }
  }

  lemma {:induction false} CountsUp(w: C.Stmt, b: nat, bound: nat, n: nat, st: C.State)
    requires w == Evaluated(b) && n <= COUNT && Ready(st, n)
    ensures var stop := Turns(ComptimeLoop(Globals(), w), bound, (Locals(n), st));
            if n + bound < COUNT then stop.Exhausted? else stop.Ended?
    decreases COUNT - n
  {
    hide C.Eval, R.RunBlock, Below, Raise, Locals, ComptimeLoop;
    var l := ComptimeLoop(Globals(), w);
    var t := TrueTest(w, b, n, st);
    if n < COUNT && bound > 0 {
      assert l.body((Locals(n), t)) == BoundedLoops.Fell((Locals(n + 1), t.(fuel := t.fuel - 3)));
      CountsUp(w, b, bound - 1, n + 1, t.(fuel := t.fuel - 3));
    }
  }

  lemma TrueTest(w: C.Stmt, b: nat, n: nat, st: C.State) returns (t: C.State)
    requires w == Evaluated(b) && n <= COUNT && Ready(st, n)
    ensures ComptimeLoop(Globals(), w).test((Locals(n), st)) == Some((n < COUNT, (Locals(n), t)))
    ensures n < COUNT ==>
              && t.fuel >= 3 && Ready(t.(fuel := t.fuel - 3), n + 1)
              && ComptimeLoop(Globals(), w).body((Locals(n), t)) ==
              BoundedLoops.Fell((Locals(n + 1), t.(fuel := t.fuel - 3)))
  {
    hide C.Eval, R.RunBlock, Below, Raise, Locals;
    TestsAlike(st, n);
    t := C.Eval(Globals(), st, Locals(n), Below).value.1;
    if n < COUNT {
      BodyEvaluates(t, n);
    }
  }

  /** Started at 0 with enough fuel, the loops agree exactly when the bound lets them finish or nothing is verified. */
  lemma CountingAgreesIff(q: A.Program, bound: nat, d: nat, fuel: nat, st: C.State)
    requires Ready(st, 0) && !D.ExecWhile(q, Lowered(bound), 0, map["i" := A.Int(0)], d, fuel).Timeout?
    ensures var r := Counting();
            SimilarEnds(EndOfExec(C.ExecWhile(Globals(), st, Locals(0), Evaluated(bound), bound, 0)),
                        EndOfOut(D.ExecWhile(q, Lowered(bound), 0, map["i" := A.Int(0)], d, fuel)), r.ends, r) <==>
            (!q.verify || bound >= COUNT)
  {
    hide C.ExecWhile, D.ExecWhile, ComptimeLoop, Turns, SimilarEnds, Locals;
    var s: D.Store := map["i" := A.Int(0)];
    CountingIsSimilar(q, bound, d, fuel);
    assert Counting().heads((Locals(0), st), s);
    LoopsAgreeIff(Globals(), st, Locals(0), Evaluated(bound), bound, q, s, Lowered(bound), d, fuel, Counting());
    CountsUp(Evaluated(bound), bound, bound, 0, st);
    NoElse(bound);
  }

  lemma NoElse(bound: nat)
    ensures !ComptimeLoop(Globals(), Evaluated(bound)).hasElse
  {
  }
}
