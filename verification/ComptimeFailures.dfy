/** Code that means something fails at compile time only for want of fuel, stack or recursion. */
module ComptimeFailures {
  import opened Wrappers
  import opened Comptime
  import opened ComptimeMeaning
  import opened ComptimeDerivations
  import opened ComptimeAdequacy
  import RangeCursor

  /** The failures that are a matter of resources. */
  predicate Limit(f: Failure) {
    f == FuelExhausted || f == DepthExceeded || f == RecursionExceeded
  }

  /** A success with the value, or a limit. */
  ghost predicate Reaches<T>(r: Result<(T, State), Failure>, v: T) {
    match r case Ok((w, _)) => w == v case Err(f) => Limit(f)
  }

  ghost predicate RunReaches(p: Program, r: Executed, o: Option<Value>, env1: Scopes) {
    match r case Ok((w, sc, _)) => w == o && Stands(p, sc, env1) case Err(f) => Limit(f)
  }

  /** No global under evaluation has a meaning that is derived in fewer than `k` steps. */
  ghost predicate Deep(p: Program, evaluating: set<string>, k: nat) {
    forall y, j: nat, w ::
      y in evaluating && y in p.decls && j < k ==> !MeansIn(j, p, [map[]], p.decls[y], w)
  }

  // ---------------------------------------------------------------------------------------------
  // What a success yields

  lemma ValueTold(k: nat, p: Program, st: State, sc: Scopes, env: Scopes, e: Expr, v: Value)
    requires Fair(p, st.values) && Stands(p, sc, env) && MeansIn(k, p, env, e, v) && Eval(p, st, sc, e).Ok?
    ensures Eval(p, st, sc, e).value.0 == v && Left(p, st, Eval(p, st, sc, e).value.1)
  {
    hide Eval, Fair, Stands;
    EvalIsMeant(p, st, sc, env, e);
    var w := Eval(p, st, sc, e).value.0;
    var h: nat :| Means#[h](p, env, e, w);
    MeansOnce(k, h, p, env, e, v, w);
  }

  lemma ArgsTold(k: nat, p: Program, st: State, sc: Scopes, env: Scopes, args: seq<Expr>, vs: seq<Value>)
    requires Fair(p, st.values) && Stands(p, sc, env) && ArgsIn(k, p, env, args, vs) && EvalArgs(p, st, sc, args).Ok?
    ensures EvalArgs(p, st, sc, args).value.0 == vs && Left(p, st, EvalArgs(p, st, sc, args).value.1)
  {
    hide EvalArgs, Fair, Stands;
    ArgsAreMeant(p, st, sc, env, args);
    var ws := EvalArgs(p, st, sc, args).value.0;
    var h: nat :| ArgsMean#[h](p, env, args, ws);
    ArgsOnce(k, h, p, env, args, vs, ws);
  }

  lemma StmtTold(k: nat, p: Program, st: State, sc: Scopes, env: Scopes, s: Stmt, o: Option<Value>, env1: Scopes)
    requires Fair(p, st.values) && Stands(p, sc, env) && StmtIn(k, p, env, s, o, env1)
    requires ExecStmt(p, st, sc, s).Ok?
    ensures var r := ExecStmt(p, st, sc, s).value;
            r.0 == o && Stands(p, r.1, env1) && |env1| == |env| && Left(p, st, r.2)
  {
    hide ExecStmt, Fair, Stands;
    var env2 := StmtIsMeant(p, st, sc, env, s);
    var w := ExecStmt(p, st, sc, s).value.0;
    var h: nat :| StmtMeans#[h](p, env, s, w, env2);
    StmtOnce(k, h, p, env, s, o, env1, w, env2);
  }

  lemma BlockTold(k: nat, p: Program, st: State, sc: Scopes, env: Scopes, b: seq<Stmt>, o: Option<Value>, env1: Scopes)
    requires Fair(p, st.values) && Stands(p, sc, env) && BlockIn(k, p, env, b, o, env1)
    requires ExecBlock(p, st, sc, b).Ok?
    ensures var r := ExecBlock(p, st, sc, b).value;
            r.0 == o && Stands(p, r.1, env1) && |env1| == |env| && Left(p, st, r.2)
  {
    hide ExecBlock, Fair, Stands;
    var env2 := BlockIsMeant(p, st, sc, env, b);
    var w := ExecBlock(p, st, sc, b).value.0;
    var h: nat :| BlockMeans#[h](p, env, b, w, env2);
    BlockOnce(k, h, p, env, b, o, env1, w, env2);
  }

  // ---------------------------------------------------------------------------------------------
  // Expressions

  lemma {:induction false} EvalReaches(k: nat, p: Program, st: State, sc: Scopes, env: Scopes, e: Expr, v: Value)
    requires Fair(p, st.values) && Stands(p, sc, env) && Deep(p, st.evaluating, k) && MeansIn(k, p, env, e, v)
    ensures Reaches(Eval(p, st, sc, e), v)
    decreases st.fuel, 0, 1
  {
    hide Fair, Stands, Deep, Eval, MeansIn;
    if st.fuel == 0 {
      NothingWithoutFuel(p, st, sc, e);
    } else {
      match e
      case Lit(_) => LitReaches(k, p, st, sc, env, e, v);
      case Name(_) => NameReaches(k, p, st, sc, env, e, v);
      case Unary(_, _) => OperandReaches(k, p, st, sc, env, e, v);
      case Binary(op, _, _) =>
        if op == And || op == Or {
          LogicalReaches(k, p, st, sc, env, e, v);
        } else {
          OperatorReaches(k, p, st, sc, env, e, v);
        }
      case IfExpr(_, _, _) => BranchReaches(k, p, st, sc, env, e, v);
      case CallTo(f, args) =>
        var st1 := st.(fuel := st.fuel - 1);
        CallReaches(k, p, st1, sc, env, f, args, v);
        assert Eval(p, st, sc, e) == EvalCall(p, st1, sc, f, args) by { CallEvaluates(p, st, sc, f, args); }
    }
  }

  lemma NothingWithoutFuel(p: Program, st: State, sc: Scopes, e: Expr)
    requires st.fuel == 0
    ensures Eval(p, st, sc, e) == Err(FuelExhausted)
  {
  }

  lemma CallEvaluates(p: Program, st: State, sc: Scopes, f: string, args: seq<Expr>)
    requires st.fuel > 0
    ensures Eval(p, st, sc, CallTo(f, args)) == EvalCall(p, st.(fuel := st.fuel - 1), sc, f, args)
  {
  }

  lemma LitReaches(k: nat, p: Program, st: State, sc: Scopes, env: Scopes, e: Expr, v: Value)
    requires e.Lit? && st.fuel > 0 && MeansIn(k, p, env, e, v)
    ensures Reaches(Eval(p, st, sc, e), v)
  {
  }

  lemma DeepBelow(p: Program, evaluating: set<string>, k: nat)
    requires Deep(p, evaluating, k) && k > 0
    ensures Deep(p, evaluating, k - 1)
  {
  }

  lemma {:induction false} NameReaches(k: nat, p: Program, st: State, sc: Scopes, env: Scopes, e: Expr, v: Value)
    requires Fair(p, st.values) && Stands(p, sc, env) && Deep(p, st.evaluating, k) && MeansIn(k, p, env, e, v)
    requires e.Name? && st.fuel > 0
    ensures Reaches(Eval(p, st, sc, e), v)
    decreases st.fuel, 0, 0
  {
    hide Fair, Stands, Deep, EvalGlobal, MeansIn, Means;
    NameStands(p, sc, env, e.x);
    if Lookup(sc, e.x).Some? {
      InIsMeant(k, p, env, e, v);
      OneMeaning(p, env, e, v, Lookup(sc, e.x).value.v);
    } else {
      NameParts(k, p, env, e.x, v);
      DeepBelow(p, st.evaluating, k);
      GlobalReaches(k - 1, p, st.(fuel := st.fuel - 1), e.x, v);
    }
  }

  lemma {:induction false} OperandReaches(k: nat, p: Program, st: State, sc: Scopes, env: Scopes, e: Expr, v: Value)
    requires Fair(p, st.values) && Stands(p, sc, env) && Deep(p, st.evaluating, k) && MeansIn(k, p, env, e, v)
    requires e.Unary? && st.fuel > 0
    ensures Reaches(Eval(p, st, sc, e), v)
    decreases st.fuel, 0, 0
  {
    hide Fair, Stands, Deep, UnaryMeans, ApplyUnary, MeansIn;
    var a := UnaryParts(k, p, env, e, v);
    var st1 := st.(fuel := st.fuel - 1);
    DeepBelow(p, st.evaluating, k);
    EvalReaches(k - 1, p, st1, sc, env, e.e, a);
    UnaryMeansIff(e.uop, a, v);
  }

  lemma {:induction false} LogicalReaches(k: nat, p: Program, st: State, sc: Scopes, env: Scopes, e: Expr, v: Value)
    requires Fair(p, st.values) && Stands(p, sc, env) && Deep(p, st.evaluating, k) && MeansIn(k, p, env, e, v)
    requires e.Binary? && (e.op == And || e.op == Or) && st.fuel > 0
    ensures Reaches(Eval(p, st, sc, e), v)
    decreases st.fuel, 0, 0
  {
    hide Fair, Stands, Deep, Apply, MeansIn;
    var a := LogicalParts(k, p, env, e, v);
    var st1 := st.(fuel := st.fuel - 1);
    DeepBelow(p, st.evaluating, k);
    EvalReaches(k - 1, p, st1, sc, env, e.l, Bool(a));
    if Eval(p, st1, sc, e.l).Ok? && a != (e.op == Or) {
      ValueTold(k - 1, p, st1, sc, env, e.l, Bool(a));
      var st2 := Eval(p, st1, sc, e.l).value.1;
      EvalReaches(k - 1, p, st2, sc, env, e.r, v);
      LogicalApplies(e.op, Bool(a), v, v);
    }
  }

  lemma OperatorEvaluates(p: Program, st: State, sc: Scopes, e: Expr, a: Value, b: Value, v: Value)
    requires e.Binary? && e.op != And && e.op != Or && st.fuel > 0 && Apply(e.op, a, b) == Some(v)
    ensures var l := Eval(p, st.(fuel := st.fuel - 1), sc, e.l);
            && (l.Err? ==> Eval(p, st, sc, e) == Err(l.error))
            && (l.Ok? && l.value.0 == a ==>
                  var r := Eval(p, l.value.1, sc, e.r);
                  && (r.Err? ==> Eval(p, st, sc, e) == Err(r.error))
                  && (r.Ok? && r.value.0 == b ==> Eval(p, st, sc, e) == Ok((v, r.value.1))))
  {
    hide Apply;
  }

  lemma {:induction false} OperatorReaches(k: nat, p: Program, st: State, sc: Scopes, env: Scopes, e: Expr, v: Value)
    requires Fair(p, st.values) && Stands(p, sc, env) && Deep(p, st.evaluating, k) && MeansIn(k, p, env, e, v)
    requires e.Binary? && e.op != And && e.op != Or && st.fuel > 0
    ensures Reaches(Eval(p, st, sc, e), v)
    decreases st.fuel, 0, 0
  {
    hide Fair, Stands, Deep, OpMeans, Apply, Eval, MeansIn;
    var a, b := OperatorParts(k, p, env, e, v);
    var st1 := st.(fuel := st.fuel - 1);
    DeepBelow(p, st.evaluating, k);
    EvalReaches(k - 1, p, st1, sc, env, e.l, a);
    OpMeansIff(e.op, a, b, v);
    OperatorEvaluates(p, st, sc, e, a, b, v);
    if Eval(p, st1, sc, e.l).Ok? {
      ValueTold(k - 1, p, st1, sc, env, e.l, a);
      EvalReaches(k - 1, p, Eval(p, st1, sc, e.l).value.1, sc, env, e.r, b);
    }
  }

  lemma {:induction false} BranchReaches(k: nat, p: Program, st: State, sc: Scopes, env: Scopes, e: Expr, v: Value)
    requires Fair(p, st.values) && Stands(p, sc, env) && Deep(p, st.evaluating, k) && MeansIn(k, p, env, e, v)
    requires e.IfExpr? && st.fuel > 0
    ensures Reaches(Eval(p, st, sc, e), v)
    decreases st.fuel, 0, 0
  {
    hide Fair, Stands, Deep, MeansIn;
    var a := BranchParts(k, p, env, e, v);
    var st1 := st.(fuel := st.fuel - 1);
    DeepBelow(p, st.evaluating, k);
    EvalReaches(k - 1, p, st1, sc, env, e.c, Bool(a));
    if Eval(p, st1, sc, e.c).Ok? {
      ValueTold(k - 1, p, st1, sc, env, e.c, Bool(a));
      EvalReaches(k - 1, p, Eval(p, st1, sc, e.c).value.1, sc, env, if a then e.t else e.f, v);
    }
  }

  /** The shortest derivation. */
  lemma {:induction false} Shortest(k: nat, p: Program, x: string, v: Value) returns (m: nat)
    requires x in p.decls && MeansIn(k, p, [map[]], p.decls[x], v)
    ensures m <= k && MeansIn(m, p, [map[]], p.decls[x], v)
    ensures forall j: nat, w :: j < m ==> !MeansIn(j, p, [map[]], p.decls[x], w)
  {
    m := k;
    if j: nat, w :| j < k && MeansIn(j, p, [map[]], p.decls[x], w) {
      MeansOnce(k, j, p, [map[]], p.decls[x], v, w);
      m := Shortest(j, p, x, v);
    }
  }

  lemma {:induction false} GlobalReaches(k: nat, p: Program, st: State, x: string, v: Value)
    requires Fair(p, st.values) && Deep(p, st.evaluating, k + 1) && x in p.decls
    requires MeansIn(k, p, [map[]], p.decls[x], v)
    ensures Reaches(EvalGlobal(p, st, x), v)
    decreases st.fuel, 1, 0
  {
    hide Eval, MeansIn, Means;
    if x in st.values {
      InIsMeant(k, p, [map[]], p.decls[x], v);
      OneMeaning(p, [map[]], p.decls[x], v, st.values[x]);
    } else {
      var m := Shortest(k, p, x, v);
      var st1 := st.(evaluating := st.evaluating + {x});
      assert Deep(p, st1.evaluating, m);
      if Pushed(st1, Global(x)).Ok? {
        var st2 := Pushed(st1, Global(x)).value;
        SeededStands(p, st2);
        EvalReaches(m, p, st2, Seeded(st2), [map[]], p.decls[x], v);
      }
    }
  }

  lemma {:induction false} ArgsReach(k: nat, p: Program, st: State, sc: Scopes, env: Scopes, args: seq<Expr>,
                                     vs: seq<Value>)
    requires Fair(p, st.values) && Stands(p, sc, env) && Deep(p, st.evaluating, k) && ArgsIn(k, p, env, args, vs)
    ensures Reaches(EvalArgs(p, st, sc, args), vs)
    decreases st.fuel, 1, |args|
  {
    hide Fair, Stands, Deep, Eval, MeansIn, ArgsIn;
    ArgsParts(k, p, env, args, vs);
    if args != [] {
      DeepBelow(p, st.evaluating, k);
      EvalReaches(k - 1, p, st, sc, env, args[0], vs[0]);
      if Eval(p, st, sc, args[0]).Ok? {
        ValueTold(k - 1, p, st, sc, env, args[0], vs[0]);
        ArgsReach(k - 1, p, Eval(p, st, sc, args[0]).value.1, sc, env, args[1..], vs[1..]);
        assert [vs[0]] + vs[1..] == vs;
      }
    }
  }

  lemma {:induction false} ArgsLength(k: nat, p: Program, env: Scopes, args: seq<Expr>, vs: seq<Value>)
    requires ArgsIn(k, p, env, args, vs)
    ensures |vs| == |args|
    decreases k
  {
    hide MeansIn, ArgsIn;
    ArgsParts(k, p, env, args, vs);
    if args != [] {
      ArgsLength(k - 1, p, env, args[1..], vs[1..]);
    }
  }

  lemma {:induction false} CallReaches(k: nat, p: Program, st: State, sc: Scopes, env: Scopes, f: string,
                                       args: seq<Expr>, v: Value)
    requires Fair(p, st.values) && Stands(p, sc, env) && Deep(p, st.evaluating, k)
    requires MeansIn(k, p, env, CallTo(f, args), v)
    ensures Reaches(EvalCall(p, st, sc, f, args), v)
    decreases st.fuel, 4, 0
  {
    hide Fair, Stands, Deep, Entry, EvalArgs, ExecBlock, WithParams, AtBound, MeansIn, ArgsIn, BlockIn;
    var vs, scope, o, env1 := CallParts(k, p, env, f, args, v);
    ArgsLength(k - 1, p, env, args, vs);
    assert |p.fns[f].params| == |vs| by {
      EntryLength(p.fns[f].params, vs, scope);
    }
    if !AtBound(p, st, f) && Pushed(st, Call(f)).Ok? {
      var st1 := Pushed(st, Call(f)).value;
      DeepBelow(p, st.evaluating, k);
      ArgsReach(k - 1, p, st1, sc, env, args, vs);
      if EvalArgs(p, st1, sc, args).Ok? {
        ArgsTold(k - 1, p, st1, sc, env, args, vs);
        var st2 := EvalArgs(p, st1, sc, args).value.1;
        var entry := EntryStands(p, st1, p.fns[f].params, vs);
        EntryOnce(p.fns[f].params, vs, scope, entry);
        BlockReaches(k - 1, p, st2, [WithParams(Seeded(st1)[0], p.fns[f].params, vs)], [scope], p.fns[f].body, o, env1);
      }
    }
  }

  lemma EntryLength(params: seq<string>, vs: seq<Value>, scope: map<string, Binding>)
    requires Entry(params, vs, scope)
    ensures |params| == |vs|
  {
  }

  // ---------------------------------------------------------------------------------------------
  // Statements

  lemma {:induction false} BlockReaches(k: nat, p: Program, st: State, sc: Scopes, env: Scopes, b: seq<Stmt>,
                                        o: Option<Value>, env1: Scopes)
    requires Fair(p, st.values) && Stands(p, sc, env) && Deep(p, st.evaluating, k)
    requires BlockIn(k, p, env, b, o, env1)
    ensures RunReaches(p, ExecBlock(p, st, sc, b), o, env1)
    decreases st.fuel, 3, b, 1
  {
    hide Fair, Deep, ExecAll, BlockIn, AllIn;
    PushStands(p, sc, env, map[]);
    hide LevelStands;
    var inner := BlockParts(k, p, env, b, o, env1);
    DeepBelow(p, st.evaluating, k);
    AllReaches(k - 1, p, st, sc + [map[]], env + [map[]], b, o, inner);
    var r := ExecAll(p, st, sc + [map[]], b);
    if r.Ok? {
      PopStands(p, r.value.1, inner);
    }
  }

  lemma {:induction false} AllReaches(k: nat, p: Program, st: State, sc: Scopes, env: Scopes, b: seq<Stmt>,
                                      o: Option<Value>, env1: Scopes)
    requires Fair(p, st.values) && Stands(p, sc, env) && Deep(p, st.evaluating, k) && AllIn(k, p, env, b, o, env1)
    ensures RunReaches(p, ExecAll(p, st, sc, b), o, env1)
    decreases st.fuel, 3, b, 0
  {
    hide Fair, Stands, Deep, ExecStmt, AllIn, StmtIn;
    var first, env2 := AllParts(k, p, env, b, o, env1);
    if b != [] && b[0] != Return(None) {
      DeepBelow(p, st.evaluating, k);
      StmtReaches(k - 1, p, st, sc, env, b[0], first, env2);
      if ExecStmt(p, st, sc, b[0]).Ok? {
        StmtTold(k - 1, p, st, sc, env, b[0], first, env2);
        var (_, sc1, st1) := ExecStmt(p, st, sc, b[0]).value;
        if first.None? {
          AllReaches(k - 1, p, st1, sc1, env2, b[1..], o, env1);
        }
      }
    }
  }

  lemma {:induction false} StmtReaches(k: nat, p: Program, st: State, sc: Scopes, env: Scopes, s: Stmt,
                                       o: Option<Value>, env1: Scopes)
    requires Fair(p, st.values) && Stands(p, sc, env) && Deep(p, st.evaluating, k)
    requires StmtIn(k, p, env, s, o, env1)
    ensures RunReaches(p, ExecStmt(p, st, sc, s), o, env1)
    decreases st.fuel, 3, s, 1
  {
    hide Fair, Stands, Deep, ExecStmt, StmtIn;
    StmtCompletes(k, p, st, sc, env, s, o, env1);
    if ExecStmt(p, st, sc, s).Ok? {
      StmtTold(k, p, st, sc, env, s, o, env1);
    }
  }

  /** No statement that means something fails for another reason than a limit. */
  lemma {:induction false} StmtCompletes(k: nat, p: Program, st: State, sc: Scopes, env: Scopes, s: Stmt,
                                         o: Option<Value>, env1: Scopes)
    requires Fair(p, st.values) && Stands(p, sc, env) && Deep(p, st.evaluating, k)
    requires StmtIn(k, p, env, s, o, env1)
    ensures ExecStmt(p, st, sc, s).Err? ==> Limit(ExecStmt(p, st, sc, s).error)
    decreases st.fuel, 3, s, 0
  {
    hide Fair, Stands, Deep, Eval, ExecBlock, ExecWhile, ExecFor, SourceItems, Lookup, StmtIn, MeansIn, BlockIn;
    match s
    case Decl(_, _, _) => SimpleReaches(k, p, st, sc, env, s, o, env1);
    case Assign(_, _) => SimpleReaches(k, p, st, sc, env, s, o, env1);
    case Do(_) => SimpleReaches(k, p, st, sc, env, s, o, env1);
    case Return(None) =>
    case Return(Some(e)) =>
      ReturnParts(k, p, env, s, o, env1);
      DeepBelow(p, st.evaluating, k);
      EvalReaches(k - 1, p, st, sc, env, e, o.value);
    case If(_, _, _) => IfCompletes(k, p, st, sc, env, s, o, env1);
    case While(_, _, _, _, _) => WhileCompletes(k, p, st, sc, env, s, o, env1);
    case For(_, _, _) => ForCompletes(k, p, st, sc, env, s, o, env1);
    case Block(b) =>
      NestedParts(k, p, env, s, o, env1);
      DeepBelow(p, st.evaluating, k);
      BlockReaches(k - 1, p, st, sc, env, b, o, env1);
  }

  lemma {:induction false} SimpleReaches(k: nat, p: Program, st: State, sc: Scopes, env: Scopes, s: Stmt,
                                         o: Option<Value>, env1: Scopes)
    requires Fair(p, st.values) && Stands(p, sc, env) && Deep(p, st.evaluating, k)
    requires StmtIn(k, p, env, s, o, env1) && (s.Decl? || s.Assign? || s.Do?)
    ensures ExecStmt(p, st, sc, s).Err? ==> Limit(ExecStmt(p, st, sc, s).error)
    decreases st.fuel, 2, 1
  {
    hide Fair, Stands, Deep, Eval, Lookup, StmtIn, MeansIn;
    var v;
    if s.Decl? {
      v := DeclParts(k, p, env, s, o, env1);
    } else if s.Do? {
      v := DoParts(k, p, env, s, o, env1);
    } else {
      var i;
      i, v := AssignParts(k, p, env, s, o, env1);
      BoundStands(p, sc, env, s.x, i);
    }
    DeepBelow(p, st.evaluating, k);
    EvalReaches(k - 1, p, st, sc, env, s.e, v);
  }

  /** A name of the source is looked up to its own binding. */
  lemma BoundStands(p: Program, sc: Scopes, env: Scopes, x: string, i: nat)
    requires Stands(p, sc, env) && BoundAt(env, x, i)
    ensures Lookup(sc, x) == Some(env[i][x])
  {
    var j := LookupFinds(sc, x);
    assert LevelStands(p, i, sc[i], env[i]);
    if Lookup(sc, x).Some? {
      assert LevelStands(p, j, sc[j], env[j]);
    }
  }

  lemma {:induction false} IfCompletes(k: nat, p: Program, st: State, sc: Scopes, env: Scopes, s: Stmt,
                                       o: Option<Value>, env1: Scopes)
    requires Fair(p, st.values) && Stands(p, sc, env) && Deep(p, st.evaluating, k)
    requires s.If? && StmtIn(k, p, env, s, o, env1)
    ensures ExecStmt(p, st, sc, s).Err? ==> Limit(ExecStmt(p, st, sc, s).error)
    decreases st.fuel, 2, 1
  {
    hide Fair, Stands, Deep, Eval, ExecBlock, StmtIn, MeansIn, BlockIn;
    var a := IfParts(k, p, env, s, o, env1);
    DeepBelow(p, st.evaluating, k);
    EvalReaches(k - 1, p, st, sc, env, s.c, Bool(a));
    if Eval(p, st, sc, s.c).Ok? {
      ValueTold(k - 1, p, st, sc, env, s.c, Bool(a));
      BlockReaches(k - 1, p, Eval(p, st, sc, s.c).value.1, sc, env, if a then s.thn else s.els, o, env1);
    }
  }

  /** How a loop with an admissible bound can fail. */
  lemma WhileFailure(p: Program, st: State, sc: Scopes, s: Stmt, n: int)
    requires s.While? && 0 <= n <= MAX_LOOP_BOUND && ExecStmt(p, st, sc, s).Err?
    requires var bound := Eval(p, st, sc, s.bound); bound.Ok? ==> bound.value.0 == Int(n)
    ensures var bound, f := Eval(p, st, sc, s.bound), ExecStmt(p, st, sc, s).error;
            || bound == Err(f) || f == DepthExceeded
            || (bound.Ok? && var entered := Pushed(bound.value.1, WhileLoop(n));
                             entered.Ok? && ExecWhile(p, entered.value, sc, s, n, 0) == Err(f))
  {
    hide Eval, ExecWhile;
  }

  lemma {:induction false} WhileCompletes(k: nat, p: Program, st: State, sc: Scopes, env: Scopes, s: Stmt,
                                          o: Option<Value>, env1: Scopes)
    requires Fair(p, st.values) && Stands(p, sc, env) && Deep(p, st.evaluating, k)
    requires s.While? && StmtIn(k, p, env, s, o, env1)
    ensures ExecStmt(p, st, sc, s).Err? ==> Limit(ExecStmt(p, st, sc, s).error)
    decreases st.fuel, 2, 1
  {
    hide Fair, Stands, Deep, Eval, ExecWhile, ExecStmt, StmtIn, MeansIn, WhileIn;
    var n := LimitParts(k, p, env, s, o, env1);
    DeepBelow(p, st.evaluating, k);
    EvalReaches(k - 1, p, st, sc, env, s.bound, Int(n));
    var bound := Eval(p, st, sc, s.bound);
    if bound.Ok? {
      ValueTold(k - 1, p, st, sc, env, s.bound, Int(n));
      var entered := Pushed(bound.value.1, WhileLoop(n));
      if entered.Ok? {
        WhileReaches(k - 1, p, entered.value, sc, env, s, n, 0, o, env1);
      }
    }
    if ExecStmt(p, st, sc, s).Err? {
      WhileFailure(p, st, sc, s, n);
    }
  }

  /** `i` bodies ran. */
  lemma {:induction false} WhileReaches(k: nat, p: Program, st: State, sc: Scopes, env: Scopes, w: Stmt, bound: int,
                                        i: nat, o: Option<Value>, env1: Scopes)
    requires Fair(p, st.values) && Stands(p, sc, env) && Deep(p, st.evaluating, k)
    requires w.While? && WhileIn(k, p, env, w, bound - i, o, env1)
    ensures var r := ExecWhile(p, st, sc, w, bound, i); r.Err? ==> Limit(r.error)
    decreases st.fuel, 2, 0
  {
    hide Fair, Stands, Deep, Eval, ExecBlock, WhileIn, MeansIn, MoreIn;
    var a := WhileParts(k, p, env, w, bound - i, o, env1);
    DeepBelow(p, st.evaluating, k);
    EvalReaches(k - 1, p, st, sc, env, w.c, Bool(a));
    if Eval(p, st, sc, w.c).Ok? {
      ValueTold(k - 1, p, st, sc, env, w.c, Bool(a));
      if a {
        MoreReaches(k - 1, p, Eval(p, st, sc, w.c).value.1, sc, env, w, bound, i, o, env1);
      }
    }
  }

  /** What is left of a loop whose condition holds. */
  lemma {:induction false} MoreReaches(k: nat, p: Program, st: State, sc: Scopes, env: Scopes, w: Stmt, bound: int,
                                       i: nat, o: Option<Value>, env1: Scopes)
    requires Fair(p, st.values) && Stands(p, sc, env) && Deep(p, st.evaluating, k)
    requires w.While? && MoreIn(k, p, env, w, bound - i, o, env1)
    ensures var r := if i >= bound then ExecBlock(p, st, sc, w.els) else ExecBlock(p, st, sc, w.body);
            && (r.Err? && (i < bound || w.hasElse) ==> Limit(r.error))
            && (r.Ok? && i < bound && r.value.0 == None ==>
                  var rest := ExecWhile(p, r.value.2, r.value.1, w, bound, i + 1); rest.Err? ==> Limit(rest.error))
    decreases st.fuel, 4, 0
  {
    hide Fair, Stands, Deep, Eval, ExecBlock, ExecWhile, MoreIn, BlockIn, WhileIn;
    if i < bound {
      var first, env2 := BodyParts(k, p, env, w, bound - i, o, env1);
      DeepBelow(p, st.evaluating, k);
      BlockReaches(k - 1, p, st, sc, env, w.body, first, env2);
      if ExecBlock(p, st, sc, w.body).Ok? {
        BlockTold(k - 1, p, st, sc, env, w.body, first, env2);
        var (_, sc1, st1) := ExecBlock(p, st, sc, w.body).value;
        if first.None? {
          WhileReaches(k - 1, p, st1, sc1, env2, w, bound, i + 1, o, env1);
        }
      }
    } else if w.hasElse {
      ElseParts(k, p, env, w, bound - i, o, env1);
      DeepBelow(p, st.evaluating, k);
      BlockReaches(k - 1, p, st, sc, env, w.els, o, env1);
    }
  }

  lemma {:induction false} ForCompletes(k: nat, p: Program, st: State, sc: Scopes, env: Scopes, s: Stmt,
                                        o: Option<Value>, env1: Scopes)
    requires Fair(p, st.values) && Stands(p, sc, env) && Deep(p, st.evaluating, k)
    requires s.For? && StmtIn(k, p, env, s, o, env1)
    ensures ExecStmt(p, st, sc, s).Err? ==> Limit(ExecStmt(p, st, sc, s).error)
    decreases st.fuel, 2, 1
  {
    hide Fair, Stands, Deep, SourceItems, ExecFor, StmtIn, SourceIn, ForIn;
    var items := ForParts(k, p, env, s, o, env1);
    DeepBelow(p, st.evaluating, k);
    SourceReaches(k - 1, p, st, sc, env, s.src, items);
    if SourceItems(p, st, sc, s.src).Ok? {
      SourceTold(k - 1, p, st, sc, env, s.src, items);
      var st1 := SourceItems(p, st, sc, s.src).value.1;
      if Pushed(st1, ForLoop(|items|)).Ok? {
        ForReaches(k - 1, p, Pushed(st1, ForLoop(|items|)).value, sc, env, s, items, o, env1);
      }
    }
  }

  lemma SourceTold(k: nat, p: Program, st: State, sc: Scopes, env: Scopes, src: Source, items: seq<Value>)
    requires Fair(p, st.values) && Stands(p, sc, env) && SourceIn(k, p, env, src, items)
    requires SourceItems(p, st, sc, src).Ok?
    ensures SourceItems(p, st, sc, src).value.0 == items && Left(p, st, SourceItems(p, st, sc, src).value.1)
  {
    hide SourceItems, Fair, Stands;
    SourceIsMeant(p, st, sc, env, src);
    var found := SourceItems(p, st, sc, src).value.0;
    var h: nat :| SourceMeans#[h](p, env, src, found);
    SourceOnce(k, h, p, env, src, items, found);
  }

  lemma {:induction false} SourceReaches(k: nat, p: Program, st: State, sc: Scopes, env: Scopes, src: Source,
                                         items: seq<Value>)
    requires Fair(p, st.values) && Stands(p, sc, env) && Deep(p, st.evaluating, k)
    requires SourceIn(k, p, env, src, items)
    ensures Reaches(SourceItems(p, st, sc, src), items)
    decreases st.fuel, 2, 0
  {
    hide Fair, Stands, Deep, Eval, Enumerates, SourceIn, MeansIn;
    match src
    case Elements(e) =>
      ElementsParts(k, p, env, src, items);
      DeepBelow(p, st.evaluating, k);
      EvalReaches(k - 1, p, st, sc, env, e, Arr(items));
    case Range(_, _, _, _) => RangeReaches(k, p, st, sc, env, src, items);
  }

  /** The bounds of a range, each with its own value. */
  lemma BoundsHave(k: nat, p: Program, env: Scopes, src: Source, bounds: seq<Value>)
    requires src.Range? && ArgsIn(k, p, env, Bounds(src), bounds)
    ensures k > 2 && |bounds| == 3
    ensures MeansIn(k - 1, p, env, src.start, bounds[0]) && MeansIn(k - 2, p, env, src.end, bounds[1])
    ensures MeansIn(k - 3, p, env, Bounds(src)[2], bounds[2])
  {
    hide MeansIn, ArgsIn;
    var es := Bounds(src);
    ArgsLength(k, p, env, es, bounds);
    ArgsParts(k, p, env, es, bounds);
    ArgsParts(k - 1, p, env, es[1..], bounds[1..]);
    ArgsParts(k - 2, p, env, es[1..][1..], bounds[1..][1..]);
  }

  lemma StepIsOne(k: nat, p: Program, env: Scopes, n: Value)
    requires MeansIn(k, p, env, Lit(Int(1)), n)
    ensures n == Int(1)
  {
  }

  lemma {:induction false} RangeReaches(k: nat, p: Program, st: State, sc: Scopes, env: Scopes, src: Source,
                                        items: seq<Value>)
    requires Fair(p, st.values) && Stands(p, sc, env) && Deep(p, st.evaluating, k)
    requires src.Range? && SourceIn(k, p, env, src, items)
    ensures Reaches(SourceItems(p, st, sc, src), items)
    decreases st.fuel, 1, 0
  {
    hide Fair, Stands, Deep, Eval, Enumerates, SourceIn, MeansIn, ArgsIn;
    var bounds := RangeParts(k, p, env, src, items);
    BoundsHave(k - 1, p, env, src, bounds);
    var st1 := st;
    if src.step.Some? {
      EvalGives(k - 4, k, p, st, sc, env, src.step.value, bounds[2]);
      if Eval(p, st, sc, src.step.value).Err? {
        return;
      }
      st1 := Eval(p, st, sc, src.step.value).value.1;
    } else {
      StepIsOne(k - 4, p, env, bounds[2]);
    }
    EvalGives(k - 2, k, p, st1, sc, env, src.start, bounds[0]);
    if Eval(p, st1, sc, src.start).Ok? {
      EvalGives(k - 3, k, p, Eval(p, st1, sc, src.start).value.1, sc, env, src.end, bounds[1]);
      RangeMeansIff(bounds[0].n, bounds[1].n, bounds[2].n, src.descending, items);
    }
  }

  /** What a part of at most `k` steps evaluates to, and the state after it. */
  lemma {:induction false} EvalGives(h: nat, k: nat, p: Program, st: State, sc: Scopes, env: Scopes, e: Expr, v: Value)
    requires Fair(p, st.values) && Stands(p, sc, env) && Deep(p, st.evaluating, k) && h < k && MeansIn(h, p, env, e, v)
    ensures Reaches(Eval(p, st, sc, e), v)
    ensures Eval(p, st, sc, e).Ok? ==> Left(p, st, Eval(p, st, sc, e).value.1)
    decreases st.fuel, 0, 2
  {
    hide Fair, Stands, Eval, MeansIn;
    assert Deep(p, st.evaluating, h);
    EvalReaches(h, p, st, sc, env, e, v);
    if Eval(p, st, sc, e).Ok? {
      ValueTold(h, p, st, sc, env, e, v);
    }
  }

  /** How an iteration can fail. */
  lemma ForFailure(p: Program, st: State, sc: Scopes, f: Stmt, items: seq<Value>)
    requires f.For?
    ensures items == [] ==> ExecFor(p, st, sc, f, items).Ok?
    ensures items != [] && st.fuel == 0 ==> ExecFor(p, st, sc, f, items) == Err(FuelExhausted)
    ensures items != [] && st.fuel > 0 ==>
              var r := ExecBlock(p, st.(fuel := st.fuel - 1), sc + [map[f.item := Binding(items[0], true)]], f.body);
              && (r.Err? ==> ExecFor(p, st, sc, f, items) == Err(r.error))
              && (r.Ok? && r.value.0.Some? ==> ExecFor(p, st, sc, f, items).Ok?)
              && (r.Ok? && r.value.0.None? && r.value.1 != [] ==>
                    ExecFor(p, st, sc, f, items) ==
                    ExecFor(p, r.value.2, r.value.1[..|r.value.1| - 1], f, items[1..]))
  {
    hide ExecBlock;
  }

  lemma {:induction false} ForReaches(k: nat, p: Program, st: State, sc: Scopes, env: Scopes, f: Stmt,
                                      items: seq<Value>, o: Option<Value>, env1: Scopes)
    requires Fair(p, st.values) && Stands(p, sc, env) && Deep(p, st.evaluating, k)
    requires f.For? && ForIn(k, p, env, f, items, o, env1)
    ensures var r := ExecFor(p, st, sc, f, items); r.Err? ==> Limit(r.error)
    decreases st.fuel, 2, 0
  {
    hide Fair, Deep, LevelStands, ExecBlock, ExecFor, ForIn, BlockIn;
    ForFailure(p, st, sc, f, items);
    if items != [] && st.fuel > 0 {
      var scope := map[f.item := Binding(items[0], true)];
      var first, inner := PassParts(k, p, env, f, items, o, env1);
      DeepBelow(p, st.evaluating, k);
      PushStands(p, sc, env, scope);
      var spent := st.(fuel := st.fuel - 1);
      BlockReaches(k - 1, p, spent, sc + [scope], env + [scope], f.body, first, inner);
      var r := ExecBlock(p, spent, sc + [scope], f.body);
      if r.Ok? {
        BlockTold(k - 1, p, spent, sc + [scope], env + [scope], f.body, first, inner);
        PopStands(p, r.value.1, inner);
        if first.None? {
          ForReaches(k - 1, p, r.value.2, r.value.1[..|sc|], inner[..|env|], f, items[1..], o, env1);
        }
      }
    }
  }

  // ---------------------------------------------------------------------------------------------
  // Success and failure

  /** An evaluation that no limit cuts off succeeds exactly when the expression means something, and then with that. */
  lemma SucceedsIffMeant(p: Program, st: State, sc: Scopes, env: Scopes, e: Expr)
    requires Fair(p, st.values) && Stands(p, sc, env) && st.evaluating == {}
    ensures var r := Eval(p, st, sc, e);
            (r.Err? ==> !Limit(r.error)) ==> (r.Ok? <==> exists v :: Means(p, env, e, v))
    ensures var r := Eval(p, st, sc, e);
            r.Ok? ==> forall v :: Means(p, env, e, v) <==> v == r.value.0
  {
    hide Eval, Fair, Stands;
    if v :| Means(p, env, e, v) {
      var k: nat :| Means#[k](p, env, e, v);
      EvalReaches(k, p, st, sc, env, e, v);
    }
    if Eval(p, st, sc, e).Ok? {
      forall v ensures Means(p, env, e, v) <==> v == Eval(p, st, sc, e).value.0 {
        ValueIsTheMeaning(p, st, sc, env, e, v);
      }
      assert Means(p, env, e, Eval(p, st, sc, e).value.0);
    }
  }

  /** The same for a block and what it returns. */
  lemma BlockSucceedsIffMeant(p: Program, st: State, sc: Scopes, env: Scopes, b: seq<Stmt>)
    requires Fair(p, st.values) && Stands(p, sc, env) && st.evaluating == {}
    ensures var r := ExecBlock(p, st, sc, b);
            (r.Err? ==> !Limit(r.error)) ==> (r.Ok? <==> exists o :: Returns(p, env, b, o))
    ensures var r := ExecBlock(p, st, sc, b);
            r.Ok? ==> forall o :: Returns(p, env, b, o) <==> o == r.value.0
  {
    hide ExecBlock, Fair, Stands, BlockMeans;
    if o :| Returns(p, env, b, o) {
      var env1 :| BlockMeans(p, env, b, o, env1);
      var k: nat :| BlockMeans#[k](p, env, b, o, env1);
      BlockReaches(k, p, st, sc, env, b, o, env1);
    }
    if ExecBlock(p, st, sc, b).Ok? {
      var after := BlockIsMeant(p, st, sc, env, b);
      var returned := ExecBlock(p, st, sc, b).value.0;
      assert Returns(p, env, b, returned);
      forall o | Returns(p, env, b, o) ensures o == returned {
        var env1 :| BlockMeans(p, env, b, o, env1);
        OneOutcome(p, env, b, o, env1, returned, after);
      }
    }
  }
}
