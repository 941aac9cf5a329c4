/** A local that only a hidden read after an await needs: the frame keeps it, and the operation completes. */
module AsyncKept {
  import opened Wrappers
  import opened AsyncSyntax
  import opened AsyncDirect
  import opened AsyncMachine
  import opened AsyncEmit
  import opened AsyncScope
  import opened AsyncPersist
  import opened AsyncLiveness
  import opened AsyncCoverage
  import opened AsyncTheorem
  import opened AsyncEndToEnd

  const Choice: Expr := IfExpr(Lit(Bool(true)), Name("x"), Lit(Int(0)))

  const Main: Fn := Fn([], false, [Decl("x", Lit(Int(7))), Do(Await(0, "g", [])), Return(Some(Choice))])

  /** `main` declares `x`, awaits `g` and returns `if true { x } else { 0 }`; `g` does nothing. */
  function KeptProgram(): Program {
    Program(map["main" := Main, "g" := Fn([], true, [])], false)
  }

  lemma KeptDirect()
    ensures Direct(KeptProgram(), "main", [], 2) == Val(Int(7))
  {
    var p, b := KeptProgram(), Main.body;
    var s := map["x" := Int(7)];
    assert Bind([], []) == map[];
    AwaitIsCall(p, s);
    hide Call;
    assert ExecStmt(p, b[0], map[], 1, 1) == Normal(s);
    assert Pure(Choice, s) == Some(Int(7));
    assert ExecStmt(p, b[2], s, 1, 1) == Ret(Int(7), s);
    assert b[1..][0] == b[1] && b[1..][1..][0] == b[2];
    assert Exec(p, b[1..][1..], s, 1, 1) == Ret(Int(7), s);
    assert Exec(p, b[1..], s, 1, 1) == Ret(Int(7), s);
    MainIsCalled(p, s);
  }

  lemma AwaitIsCall(p: Program, s: Store)
    requires p == KeptProgram()
    ensures ExecStmt(p, Main.body[1], s, 1, 1) == Normal(s)
  {
    assert Bind([], []) == map[] && PureAll([], s) == Some([]);
    assert Call(p, "g", [], 1, 1) == Val(Void) by {
      assert Exec(p, [], map[], 2, 0) == Normal(map[]);
    }
  }

  lemma MainIsCalled(p: Program, s: Store)
    requires p == KeptProgram() && Exec(p, Main.body, map[], 1, 1) == Ret(Int(7), s)
    ensures Direct(p, "main", [], 2) == Val(Int(7))
  {
    hide Exec;
    assert Bind([], []) == map[];
  }

  lemma OneMore(st: Stmt, rest: seq<Stmt>, scope: set<string>)
    requires (st.Do? || st.Return?) && Scoped(st, scope) && ScopedAll(rest, scope) && UniqueAll(rest)
    requires DeclaredAll(rest) == {} && BoundAll(rest) == {}
    ensures var b := [st] + rest; ScopedAll(b, scope) && UniqueAll(b) && DeclaredAll(b) == {} && BoundAll(b) == {}
  {
    var b := [st] + rest;
    assert b[1..] == rest && scope + Defines(st) == scope;
    assert Declared(st) == {} && Bound(st) == {} && Unique(st) && Introduced(rest) == {};
    hide Unique, Scoped, Declared, Bound, Defines;
    assert UniqueAll(b) && ScopedAll(b, scope);
  }

  lemma MainIsScoped()
    ensures WellScoped(Main)
  {
    var b := Main.body;
    assert Mentions(Choice) == {"x"} && Mentions(Await(0, "g", [])) == {} && Elems([]) == {};
    OneMore(b[2], [], {"x"});
    assert [b[2]] + [] == [b[2]] && [b[1]] + [b[2]] == b[1..];
    OneMore(b[1], [b[2]], {"x"});
    assert {} + Defines(b[0]) == {"x"} && Declared(b[0]) == {"x"} && Bound(b[0]) == {};
    assert DeclaredAll(b) == {"x"} + DeclaredAll(b[1..]) && BoundAll(b) == BoundAll(b[1..]);
  }

  /** The statements of `main`, by position. */
  lemma MainAt(u: Path)
    requires StmtAt(Main.body, u).Some?
    ensures |u| == 1 && u[0] < 3 && StmtAt(Main.body, u) == Some(Main.body[u[0]])
  {
  }

  /** The only hidden read follows the await that follows the declaration. */
  lemma ReadFollowsAwait(u: Path, x: string)
    requires HiddenAt(Main.body, u, x)
    ensures u == [2] && x == "x" && FollowsAwait(Main, u, x)
  {
    var b := Main.body;
    MainAt(u);
    assert HiddenNames(Lit(Int(7))) == {} && HiddenNames(Await(0, "g", [])) == {} && HiddenNames(Choice) == {"x"};
    assert StmtAt(b, [0]) == Some(b[0]) && StmtAt(b, [1]) == Some(b[1]);
    assert Precedes([0], [1]) && Precedes([1], [2]);
    assert DeclaredNoLater(b, [1], "x");
    assert AwaitsItself(b[1]) && AwaitedAt(b, [1]);
  }

  lemma MainReadsAreSeen()
    ensures ReadsAreSeen(Main)
  {
    hide ReadsAreSeen, FollowsAwait, HiddenAt, WellScoped;
    MainIsScoped();
    forall u: Path, x | HiddenAt(Main.body, u, x) ensures FollowsAwait(Main, u, x) {
      ReadFollowsAwait(u, x);
    }
    HiddenReadsAfterAwaitsAreCovered(Main);
  }

  lemma MainIsShaped()
    ensures ShapedBlock(Main.body)
  {
    var b := Main.body;
    assert b[1..][0] == b[1] && b[1..][1..] == [b[2]] && [b[2]][1..] == [];
    assert ShapedBlock([b[2]]) && ShapedBlock(b[1..]);
  }

  lemma KeptIsWellFormed()
    ensures WellFormed(KeptProgram())
  {
    hide ReadsAreSeen;
    var p := KeptProgram();
    MainIsScoped();
    MainReadsAreSeen();
    var g := p.fns["g"];
    assert WellScoped(g) && SeenAll(g.body);
    SeenBodiesAreSeen(g);
    MainIsShaped();
  }

  /** The local is a frame field, and repeated calls of the step function complete with its value. */
  lemma KeptLocalExample()
    ensures "main" in Fields(KeptProgram()) && "x" in Fields(KeptProgram())["main"]
    ensures exists native: nat, calls: nat, limit: nat ::
              Driven(KeptProgram(), "main", [], native, calls, limit) == Some(Completed(Int(7)))
  {
    hide WellFormed, Driven, Direct;
    var p := KeptProgram();
    KeptDirect();
    KeptIsWellFormed();
    GeneratedCodeIsCorrect(p, "main", [], Int(7));
    LocalIsField();
  }

  lemma LocalIsField()
    ensures "main" in Fields(KeptProgram()) && "x" in Fields(KeptProgram())["main"]
  {
    hide LiveAcross, Required, AwaitedDeclarations, Emitted;
    LocalLives();
    LiveAcrossIff(Elems(Main.params), Main.body, "x");
  }

  lemma LocalLives()
    ensures LivesAcross(Elems(Main.params), Main.body, "x")
  {
    var b := Main.body;
    assert HiddenNames(Choice) == {"x"} && StmtAt(b, [2]) == Some(b[2]) && OwnExprs(b[2])[0] == Choice;
    assert HiddenAt(b, [2], "x");
    hide HiddenAt, AwaitedAt, NamedAt, DeclaredNoLater, Precedes;
    ReadFollowsAwait([2], "x");
    HiddenIsNamed(b, [2], "x");
  }
}
