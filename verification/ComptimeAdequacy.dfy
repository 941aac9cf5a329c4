/** The evaluator yields what compile-time code means, and fails of its own accord only at a limit. */
module ComptimeAdequacy {
  import opened Wrappers
  import opened Comptime
  import opened ComptimeMeaning
  import opened ComptimeDerivations
  import opened Division
  import ComptimeMemo
  import RangeCursor

  // ---------------------------------------------------------------------------------------------
  // Operators and ranges

  lemma WrapIntWraps(n: int)
    ensures Wraps(Int(RangeCursor.WrapInt(n)), n)
  {
    var q := (n + RangeCursor.TWO63) / RangeCursor.TWO64;
    assert RangeCursor.WrapInt(n) - n == -q * RangeCursor.TWO64;
    assert (-q * RangeCursor.TWO64) % RangeCursor.TWO64 == 0;
  }

  lemma OpMeansIff(op: BinOp, a: Value, b: Value, v: Value)
    ensures OpMeans(op, a, b, v) <==> Apply(op, a, b) == Some(v)
  {
    if Apply(op, a, b).Some? {
      ApplyMeans(op, a, b);
      if OpMeans(op, a, b, v) {
        OpOnce(op, a, b, v, Apply(op, a, b).value);
      }
    }
  }

  lemma ApplyMeans(op: BinOp, a: Value, b: Value)
    requires Apply(op, a, b).Some?
    ensures OpMeans(op, a, b, Apply(op, a, b).value)
  {
    hide Wraps, Divides, Quotient;
    match op
    case Add => WrapIntWraps(a.n + b.n);
    case Sub => WrapIntWraps(a.n - b.n);
    case Mul => WrapIntWraps(a.n * b.n);
    case Div =>
      QuotientDivides(a.n, b.n);
      WrapIntWraps(Quotient(a.n, b.n));
    case _ =>
  }

  lemma UnaryMeansIff(op: UnOp, a: Value, v: Value)
    ensures UnaryMeans(op, a, v) <==> ApplyUnary(op, a) == Some(v)
  {
    hide Wraps;
    if op == Neg && a.Int? {
      WrapIntWraps(-a.n);
      if Wraps(v, -a.n) {
        WrapsOnce(v, Int(RangeCursor.WrapInt(-a.n)), -a.n);
      }
    }
  }

  lemma WalksOn(start: int, end: int, step: int, down: bool, rest: seq<Value>)
    requires RangeCursor.Before(start, end, down)
    ensures Walks(start, end, step, down, [Int(start)] + rest) <==>
            Walks(RangeCursor.WrapInt(start + Stride(step, down)), end, step, down, rest)
  {
    hide Walks;
    var next := RangeCursor.WrapInt(start + Stride(step, down));
    WrapIntWraps(start + Stride(step, down));
    if Walks(next, end, step, down, rest) {
      WalksBefore(start, end, step, down, rest, next);
    }
    if Walks(start, end, step, down, [Int(start)] + rest) {
      WalksAfter(start, end, step, down, rest, next);
    }
  }

  lemma WalksBefore(start: int, end: int, step: int, down: bool, rest: seq<Value>, next: int)
    requires RangeCursor.Before(start, end, down) && Wraps(Int(next), start + Stride(step, down))
    requires Walks(next, end, step, down, rest)
    ensures Walks(start, end, step, down, [Int(start)] + rest)
  {
    hide Wraps, Passes, RangeCursor.Before, Stride;
    var items := [Int(start)] + rest;
    if rest == [] {
      PassesBy(start, end, step, down, Int(next));
    }
    forall i | 0 < i < |items| ensures Wraps(items[i], items[i - 1].n + Stride(step, down)) {
      assert items[i] == rest[i - 1] && (i > 1 ==> items[i - 1] == rest[i - 2]);
    }
  }

  lemma PassesBy(last: int, end: int, step: int, down: bool, next: Value)
    requires Wraps(next, last + Stride(step, down)) && !RangeCursor.Before(next.n, end, down)
    ensures Passes(last, end, step, down)
  {
  }

  lemma WalksAfter(start: int, end: int, step: int, down: bool, rest: seq<Value>, next: int)
    requires Wraps(Int(next), start + Stride(step, down)) && Walks(start, end, step, down, [Int(start)] + rest)
    ensures Walks(next, end, step, down, rest)
  {
    hide Wraps, Passes, RangeCursor.Before, Stride;
    var items := [Int(start)] + rest;
    forall i | 0 <= i < |rest| ensures rest[i].Int? && RangeCursor.Before(rest[i].n, end, down) {
      assert rest[i] == items[i + 1];
    }
    forall i | 0 < i < |rest| ensures Wraps(rest[i], rest[i - 1].n + Stride(step, down)) {
      assert rest[i] == items[i + 1] && rest[i - 1] == items[i];
    }
    if rest == [] {
      PassesOnce(start, end, step, down, Int(next));
    } else {
      assert Wraps(items[1], items[0].n + Stride(step, down)) && items[1] == rest[0];
      WrapsOnce(rest[0], Int(next), start + Stride(step, down));
      assert rest[|rest| - 1] == items[|items| - 1];
    }
  }

  /** Collected values walk, and values that walk are collected. */
  lemma {:induction false} CollectWalks(cursor: int, end: int, step: int, down: bool, count: nat, items: seq<Value>)
    requires count + |items| <= RangeCursor.LOOP_LIMIT
    ensures Walks(cursor, end, step, down, items) <==>
            items == IntValues(RangeCursor.Collect(cursor, end, step, down, count))
    decreases |items|
  {
    hide Walks, RangeCursor.WrapInt;
    var next := RangeCursor.WrapInt(RangeCursor.Moved(cursor, step, down));
    assert RangeCursor.Moved(cursor, step, down) == cursor + Stride(step, down);
    if !RangeCursor.Before(cursor, end, down) || items == [] || items[0] != Int(cursor) {
      WalksStart(cursor, end, step, down, items);
    } else {
      var rest := items[1..];
      assert items == [Int(cursor)] + rest;
      WalksOn(cursor, end, step, down, rest);
      CollectWalks(next, end, step, down, count + 1, rest);
      var tail := RangeCursor.Collect(next, end, step, down, count + 1);
      assert RangeCursor.Collect(cursor, end, step, down, count) == [cursor] + tail && ([cursor] + tail)[1..] == tail;
      assert IntValues([cursor] + tail) == [Int(cursor)] + IntValues(tail);
      assert ([Int(cursor)] + IntValues(tail))[1..] == IntValues(tail);
    }
  }

  lemma WalksStart(start: int, end: int, step: int, down: bool, items: seq<Value>)
    ensures Walks(start, end, step, down, items) && items != [] ==>
              items[0] == Int(start) && RangeCursor.Before(start, end, down)
    ensures Walks(start, end, step, down, []) <==> !RangeCursor.Before(start, end, down)
  {
  }

  /** The evaluator's range is the enumeration, and fails exactly when there is none. */
  lemma RangeMeansIff(start: int, end: int, step: int, down: bool, items: seq<Value>)
    ensures var r := RangeCursor.ComptimeResult(start, end, step, down);
            Enumerates(start, end, step, down, items) <==> r.Ok? && IntValues(r.value) == items
  {
    hide Walks;
    if |items| <= MAX_LOOP_BOUND {
      CollectWalks(start, end, step, down, 0, items);
    }
  }

  // ---------------------------------------------------------------------------------------------
  // The evaluator's scopes and cache

  ghost predicate GlobalMeans(p: Program, x: string, v: Value) {
    x in p.decls && Means(p, [map[]], p.decls[x], v)
  }

  /** Everything cached is what it means. */
  ghost predicate Fair(p: Program, values: map<string, Value>) {
    forall x :: x in values ==> GlobalMeans(p, x, values[x])
  }

  /** The same bindings, but for globals seeded into the outermost scope. */
  ghost predicate LevelStands(p: Program, i: nat, a: map<string, Binding>, b: map<string, Binding>) {
    && (forall x :: x in b ==> x in a && a[x] == b[x])
    && (forall x :: x in a && x !in b ==> i == 0 && !a[x].mutable && GlobalMeans(p, x, a[x].v))
  }

  ghost predicate Stands(p: Program, sc: Scopes, env: Scopes) {
    |sc| == |env| && sc != [] && forall i :: 0 <= i < |sc| ==> LevelStands(p, i, sc[i], env[i])
  }

  lemma {:induction false} LookupFinds(sc: Scopes, x: string) returns (i: nat)
    ensures match Lookup(sc, x) case Some(b) => BoundAt(sc, x, i) && b == sc[i][x] case None => Unbound(sc, x)
    decreases |sc|
  {
    i := 0;
    if sc != [] {
      var last := |sc| - 1;
      if x in sc[last] {
        i := last;
      } else {
        i := LookupFinds(sc[..last], x);
      }
    }
  }

  /** What a name is looked up to is what it means; a name that is not found is bound nowhere. */
  lemma NameStands(p: Program, sc: Scopes, env: Scopes, x: string)
    requires Stands(p, sc, env)
    ensures match Lookup(sc, x) case Some(b) => Means(p, env, Name(x), b.v) case None => Unbound(env, x)
  {
    var i := LookupFinds(sc, x);
    forall j | 0 <= j < |env| && x !in sc[j] ensures x !in env[j] {
      assert LevelStands(p, j, sc[j], env[j]);
    }
    if Lookup(sc, x).Some? {
      assert LevelStands(p, i, sc[i], env[i]);
      if x in env[i] {
        assert BoundAt(env, x, i);
      }
    }
  }

  /** A mutable binding is not a seeded global, so it is one of the source's. */
  lemma MutableStands(p: Program, sc: Scopes, env: Scopes, x: string) returns (i: nat)
    requires Stands(p, sc, env) && Lookup(sc, x).Some? && Lookup(sc, x).value.mutable
    ensures BoundAt(sc, x, i) && BoundAt(env, x, i) && env[i][x].mutable
  {
    i := LookupFinds(sc, x);
    forall j | i <= j < |env| ensures x in env[j] <==> x in sc[j] {
      assert LevelStands(p, j, sc[j], env[j]);
    }
    assert LevelStands(p, i, sc[i], env[i]);
  }

  lemma {:induction false} AssignedAt(sc: Scopes, x: string, i: nat, v: Value)
    requires BoundAt(sc, x, i)
    ensures Assigned(sc, x, v) == sc[i := sc[i][x := sc[i][x].(v := v)]]
    decreases |sc|
  {
    var last := |sc| - 1;
    if i < last {
      AssignedAt(sc[..last], x, i, v);
      assert sc == sc[..last] + [sc[last]];
    }
  }

  lemma BindStands(p: Program, sc: Scopes, env: Scopes, i: nat, x: string, b: Binding)
    requires Stands(p, sc, env) && i < |sc|
    ensures Stands(p, sc[i := sc[i][x := b]], env[i := env[i][x := b]])
  {
    hide GlobalMeans;
    var sc1, env1 := sc[i := sc[i][x := b]], env[i := env[i][x := b]];
    forall j | 0 <= j < |sc| ensures LevelStands(p, j, sc1[j], env1[j]) {
      assert LevelStands(p, j, sc[j], env[j]);
    }
  }

  lemma AssignStands(p: Program, sc: Scopes, env: Scopes, x: string, v: Value, i: nat)
    requires Stands(p, sc, env) && BoundAt(sc, x, i) && BoundAt(env, x, i) && env[i][x].mutable
    ensures Stands(p, Assigned(sc, x, v), env[i := env[i][x := Binding(v, true)]])
  {
    hide Assigned, GlobalMeans;
    AssignedAt(sc, x, i, v);
    assert LevelStands(p, i, sc[i], env[i]);
    assert sc[i][x].(v := v) == Binding(v, true);
    BindStands(p, sc, env, i, x, Binding(v, true));
  }

  lemma PushStands(p: Program, sc: Scopes, env: Scopes, scope: map<string, Binding>)
    requires Stands(p, sc, env)
    ensures Stands(p, sc + [scope], env + [scope])
  {
    hide GlobalMeans;
    forall j | 0 <= j < |sc| + 1 ensures LevelStands(p, j, (sc + [scope])[j], (env + [scope])[j]) {
      if j < |sc| {
        assert LevelStands(p, j, sc[j], env[j]);
      }
    }
  }

  lemma PopStands(p: Program, sc: Scopes, env: Scopes)
    requires Stands(p, sc, env) && |sc| > 1
    ensures Stands(p, sc[..|sc| - 1], env[..|env| - 1])
  {
    hide LevelStands;
  }

  lemma SeededStands(p: Program, st: State)
    requires Fair(p, st.values)
    ensures Stands(p, Seeded(st), [map[]]) && |Seeded(st)| == 1
  {
    hide GlobalMeans;
    assert LevelStands(p, 0, Seeded(st)[0], map[]);
  }

  lemma {:induction false} ParamsStand(p: Program, seed: map<string, Binding>, env: map<string, Binding>,
                                       params: seq<string>, vs: seq<Value>)
    requires |params| == |vs| && LevelStands(p, 0, seed, env)
    ensures LevelStands(p, 0, WithParams(seed, params, vs), WithParams(env, params, vs))
    decreases |params|
  {
    hide GlobalMeans;
    if params != [] {
      var b := Binding(vs[0], true);
      ParamsStand(p, seed[params[0] := b], env[params[0] := b], params[1..], vs[1..]);
    }
  }

  lemma {:induction false} ParamsAre(scope: map<string, Binding>, params: seq<string>, vs: seq<Value>)
    requires |params| == |vs|
    ensures var r := WithParams(scope, params, vs);
            && (forall x :: x in r <==> x in scope || x in params)
            && (forall x :: x in scope && x !in params ==> r[x] == scope[x])
            && forall i :: 0 <= i < |params| && params[i] !in params[i + 1..] ==> r[params[i]] == Binding(vs[i], true)
    decreases |params|
  {
    if params != [] {
      ParamsAre(scope[params[0] := Binding(vs[0], true)], params[1..], vs[1..]);
      forall i | 0 < i < |params| ensures params[i + 1..] == params[1..][i..] && params[i] == params[1..][i - 1] {
      }
    }
  }

  lemma EntryStands(p: Program, st: State, params: seq<string>, vs: seq<Value>) returns (scope: map<string, Binding>)
    requires Fair(p, st.values) && |params| == |vs|
    ensures Entry(params, vs, scope) && Stands(p, [WithParams(Seeded(st)[0], params, vs)], [scope])
  {
    hide GlobalMeans;
    SeededStands(p, st);
    assert LevelStands(p, 0, Seeded(st)[0], map[]);
    ParamsStand(p, Seeded(st)[0], map[], params, vs);
    scope := WithParams(map[], params, vs);
    ParamsAre(map[], params, vs);
  }

  // ---------------------------------------------------------------------------------------------
  // The evaluator yields what is meant

  /** The state after: a fair cache, and the same globals under evaluation. */
  ghost predicate Left(p: Program, st: State, st1: State) {
    Fair(p, st1.values) && st1.evaluating == st.evaluating
  }

  ghost predicate Ran(p: Program, env: Scopes, st: State, r: Executed, env1: Scopes) {
    r.Ok? ==> Stands(p, r.value.1, env1) && |env1| == |env| && Left(p, st, r.value.2)
  }

  lemma {:induction false} EvalIsMeant(p: Program, st: State, sc: Scopes, env: Scopes, e: Expr)
    requires Fair(p, st.values) && Stands(p, sc, env)
    ensures var r := Eval(p, st, sc, e); r.Ok? ==> Means(p, env, e, r.value.0) && Left(p, st, r.value.1)
    decreases st.fuel, 0, 1
  {
    hide Fair, Stands, Means, Apply, ApplyUnary;
    if Eval(p, st, sc, e).Ok? {
      match e
      case Lit(v) => LitMeans(p, env, v);
      case Name(_) => NameIsMeant(p, st, sc, env, e);
      case Unary(_, _) => OperandIsMeant(p, st, sc, env, e);
      case Binary(op, _, _) =>
        if op == And || op == Or {
          LogicalIsMeant(p, st, sc, env, e);
        } else {
          OperatorIsMeant(p, st, sc, env, e);
        }
      case IfExpr(_, _, _) => BranchIsMeant(p, st, sc, env, e);
      case CallTo(f, args) => CallIsMeant(p, st.(fuel := st.fuel - 1), sc, env, f, args);
    }
  }

  lemma LitMeans(p: Program, env: Scopes, v: Value)
    ensures Means(p, env, Lit(v), v)
  {
  }

  lemma {:induction false} NameIsMeant(p: Program, st: State, sc: Scopes, env: Scopes, e: Expr)
    requires Fair(p, st.values) && Stands(p, sc, env) && e.Name? && Eval(p, st, sc, e).Ok?
    ensures var r := Eval(p, st, sc, e); Means(p, env, e, r.value.0) && Left(p, st, r.value.1)
    decreases st.fuel, 0, 0
  {
    hide Fair, Stands, EvalGlobal;
    NameStands(p, sc, env, e.x);
    if Lookup(sc, e.x).None? {
      GlobalIsMeant(p, st.(fuel := st.fuel - 1), e.x);
    }
  }

  lemma {:induction false} OperandIsMeant(p: Program, st: State, sc: Scopes, env: Scopes, e: Expr)
    requires Fair(p, st.values) && Stands(p, sc, env) && e.Unary? && Eval(p, st, sc, e).Ok?
    ensures var r := Eval(p, st, sc, e); Means(p, env, e, r.value.0) && Left(p, st, r.value.1)
    decreases st.fuel, 0, 0
  {
    hide Fair, Stands, UnaryMeans, ApplyUnary, ArgsMean, BlockMeans;
    var st1 := st.(fuel := st.fuel - 1);
    EvalIsMeant(p, st1, sc, env, e.e);
    var a := Eval(p, st1, sc, e.e).value.0;
    UnaryMeansIff(e.uop, a, ApplyUnary(e.uop, a).value);
  }

  lemma {:induction false} BranchIsMeant(p: Program, st: State, sc: Scopes, env: Scopes, e: Expr)
    requires Fair(p, st.values) && Stands(p, sc, env) && e.IfExpr? && Eval(p, st, sc, e).Ok?
    ensures var r := Eval(p, st, sc, e); Means(p, env, e, r.value.0) && Left(p, st, r.value.1)
    decreases st.fuel, 0, 0
  {
    hide Fair, Stands, ArgsMean, BlockMeans;
    var st1 := st.(fuel := st.fuel - 1);
    EvalIsMeant(p, st1, sc, env, e.c);
    var (a, st2) := Eval(p, st1, sc, e.c).value;
    EvalIsMeant(p, st2, sc, env, if a == Bool(true) then e.t else e.f);
  }

  lemma {:induction false} LogicalIsMeant(p: Program, st: State, sc: Scopes, env: Scopes, e: Expr)
    requires Fair(p, st.values) && Stands(p, sc, env) && e.Binary? && (e.op == And || e.op == Or)
    requires Eval(p, st, sc, e).Ok?
    ensures var r := Eval(p, st, sc, e); Means(p, env, e, r.value.0) && Left(p, st, r.value.1)
    decreases st.fuel, 0, 0
  {
    hide Fair, Stands, Apply;
    var st1 := st.(fuel := st.fuel - 1);
    EvalIsMeant(p, st1, sc, env, e.l);
    var (a, st2) := Eval(p, st1, sc, e.l).value;
    if !Decides(e.op, a) {
      EvalIsMeant(p, st2, sc, env, e.r);
      LogicalApplies(e.op, a, Eval(p, st2, sc, e.r).value.0, Eval(p, st, sc, e).value.0);
    }
  }

  /** Where the left operand does not decide, the result is the right one. */
  lemma LogicalApplies(op: BinOp, a: Value, b: Value, v: Value)
    requires (op == And || op == Or) && a.Bool? && !Decides(op, a)
    ensures a == Bool(op == And) && (Apply(op, a, b) == Some(v) <==> v == b && b.Bool?)
  {
  }

  lemma {:induction false} OperatorIsMeant(p: Program, st: State, sc: Scopes, env: Scopes, e: Expr)
    requires Fair(p, st.values) && Stands(p, sc, env) && e.Binary? && e.op != And && e.op != Or
    requires Eval(p, st, sc, e).Ok?
    ensures var r := Eval(p, st, sc, e); Means(p, env, e, r.value.0) && Left(p, st, r.value.1)
    decreases st.fuel, 0, 0
  {
    hide Fair, Stands, OpMeans, Apply;
    var st1 := st.(fuel := st.fuel - 1);
    EvalIsMeant(p, st1, sc, env, e.l);
    var (a, st2) := Eval(p, st1, sc, e.l).value;
    EvalIsMeant(p, st2, sc, env, e.r);
    var b := Eval(p, st2, sc, e.r).value.0;
    OpMeansIff(e.op, a, b, Apply(e.op, a, b).value);
  }

  lemma {:induction false} GlobalIsMeant(p: Program, st: State, x: string)
    requires Fair(p, st.values) && x in p.decls
    ensures var r := EvalGlobal(p, st, x); r.Ok? ==> GlobalMeans(p, x, r.value.0) && Left(p, st, r.value.1)
    decreases st.fuel, 1, 0
  {
    hide Eval, Means;
    if EvalGlobal(p, st, x).Ok? && x !in st.values {
      var st1 := Pushed(st.(evaluating := st.evaluating + {x}), Global(x)).value;
      SeededStands(p, st1);
      EvalIsMeant(p, st1, Seeded(st1), [map[]], p.decls[x]);
      assert st.evaluating + {x} - {x} == st.evaluating;
    }
  }

  lemma {:induction false} ArgsAreMeant(p: Program, st: State, sc: Scopes, env: Scopes, args: seq<Expr>)
    requires Fair(p, st.values) && Stands(p, sc, env)
    ensures var r := EvalArgs(p, st, sc, args); r.Ok? ==> ArgsMean(p, env, args, r.value.0) && Left(p, st, r.value.1)
    decreases st.fuel, 1, |args|
  {
    hide Eval, Means, Fair, Stands;
    if EvalArgs(p, st, sc, args).Ok? && args != [] {
      EvalIsMeant(p, st, sc, env, args[0]);
      var (v, st1) := Eval(p, st, sc, args[0]).value;
      ArgsAreMeant(p, st1, sc, env, args[1..]);
      var vs := EvalArgs(p, st1, sc, args[1..]).value.0;
      assert ([v] + vs)[1..] == vs;
    }
  }

  lemma {:induction false} CallIsMeant(p: Program, st: State, sc: Scopes, env: Scopes, f: string, args: seq<Expr>)
    requires Fair(p, st.values) && Stands(p, sc, env)
    ensures var r := EvalCall(p, st, sc, f, args);
            r.Ok? ==> Means(p, env, CallTo(f, args), r.value.0) && Left(p, st, r.value.1)
    decreases st.fuel, 4, 0
  {
    hide Fair, Stands, Entry, EvalArgs, ExecBlock, WithParams, AtBound, ArgsMean, BlockMeans;
    if EvalCall(p, st, sc, f, args).Ok? {
      var st1 := Pushed(st, Call(f)).value;
      ArgsAreMeant(p, st1, sc, env, args);
      var (vs, st2) := EvalArgs(p, st1, sc, args).value;
      var scope := EntryStands(p, st1, p.fns[f].params, vs);
      var env1 := BlockIsMeant(p, st2, [WithParams(Seeded(st1)[0], p.fns[f].params, vs)], [scope], p.fns[f].body);
    }
  }

  lemma {:induction false} BlockIsMeant(p: Program, st: State, sc: Scopes, env: Scopes, b: seq<Stmt>)
    returns (env1: Scopes)
    requires Fair(p, st.values) && Stands(p, sc, env)
    ensures var r := ExecBlock(p, st, sc, b);
            Ran(p, env, st, r, env1) && (r.Ok? ==> BlockMeans(p, env, b, r.value.0, env1))
    decreases st.fuel, 3, b, 1
  {
    hide Fair, ExecAll, AllMean;
    PushStands(p, sc, env, map[]);
    hide LevelStands;
    var inner := AllIsMeant(p, st, sc + [map[]], env + [map[]], b);
    env1 := env;
    if ExecBlock(p, st, sc, b).Ok? {
      PopStands(p, ExecAll(p, st, sc + [map[]], b).value.1, inner);
      env1 := inner[..|env|];
    }
  }

  lemma {:induction false} AllIsMeant(p: Program, st: State, sc: Scopes, env: Scopes, b: seq<Stmt>)
    returns (env1: Scopes)
    requires Fair(p, st.values) && Stands(p, sc, env)
    ensures var r := ExecAll(p, st, sc, b);
            Ran(p, env, st, r, env1) && (r.Ok? ==> AllMean(p, env, b, r.value.0, env1))
    decreases st.fuel, 3, b, 0
  {
    hide Fair, Stands, ExecStmt, StmtMeans;
    env1 := env;
    if b != [] && b[0] != Return(None) && ExecAll(p, st, sc, b).Ok? {
      env1 := StmtIsMeant(p, st, sc, env, b[0]);
      var (first, sc1, st1) := ExecStmt(p, st, sc, b[0]).value;
      if first.None? {
        var env2 := env1;
        env1 := AllIsMeant(p, st1, sc1, env2, b[1..]);
      }
    }
  }

  lemma {:induction false} StmtIsMeant(p: Program, st: State, sc: Scopes, env: Scopes, s: Stmt)
    returns (env1: Scopes)
    requires Fair(p, st.values) && Stands(p, sc, env)
    ensures var r := ExecStmt(p, st, sc, s);
            Ran(p, env, st, r, env1) && (r.Ok? ==> StmtMeans(p, env, s, r.value.0, env1))
    decreases st.fuel, 3, s, 0
  {
    hide Fair, Stands, Eval, ExecBlock, ExecWhile, ExecFor, SourceItems, Enumerates, BoundAt;
    hide Means, BlockMeans, WhileMeans, SourceMeans, ForMeans;
    env1 := env;
    if ExecStmt(p, st, sc, s).Ok? {
      match s
      case Decl(_, _, _) => env1 := DeclIsMeant(p, st, sc, env, s);
      case Assign(_, _) => env1 := AssignIsMeant(p, st, sc, env, s);
      case Do(e) => EvalIsMeant(p, st, sc, env, e);
      case Return(r) =>
        if r.Some? {
          EvalIsMeant(p, st, sc, env, r.value);
        }
      case If(c, t, f) =>
        EvalIsMeant(p, st, sc, env, c);
        var (a, st1) := Eval(p, st, sc, c).value;
        env1 := BlockIsMeant(p, st1, sc, env, if a == Bool(true) then t else f);
      case While(_, bound, _, _, _) =>
        EvalIsMeant(p, st, sc, env, bound);
        var (n, st1) := Eval(p, st, sc, bound).value;
        env1 := WhileIsMeant(p, Pushed(st1, WhileLoop(n.n)).value, sc, env, s, n.n, 0);
      case For(_, _, _) => env1 := ForStmtIsMeant(p, st, sc, env, s);
      case Block(b) => env1 := BlockIsMeant(p, st, sc, env, b);
    }
  }

  lemma {:induction false} DeclIsMeant(p: Program, st: State, sc: Scopes, env: Scopes, s: Stmt) returns (env1: Scopes)
    requires Fair(p, st.values) && Stands(p, sc, env) && s.Decl? && ExecStmt(p, st, sc, s).Ok?
    ensures var r := ExecStmt(p, st, sc, s); Ran(p, env, st, r, env1) && StmtMeans(p, env, s, r.value.0, env1)
    decreases st.fuel, 2, 0
  {
    hide Fair, LevelStands, Eval, Means, BlockMeans, WhileMeans, SourceMeans, ForMeans;
    EvalIsMeant(p, st, sc, env, s.e);
    var last, b := |env| - 1, Binding(Eval(p, st, sc, s.e).value.0, s.mutable);
    BindStands(p, sc, env, last, s.x, b);
    env1 := env[last := env[last][s.x := b]];
  }

  lemma {:induction false} AssignIsMeant(p: Program, st: State, sc: Scopes, env: Scopes, s: Stmt)
    returns (env1: Scopes)
    requires Fair(p, st.values) && Stands(p, sc, env) && s.Assign? && ExecStmt(p, st, sc, s).Ok?
    ensures var r := ExecStmt(p, st, sc, s); Ran(p, env, st, r, env1) && StmtMeans(p, env, s, r.value.0, env1)
    decreases st.fuel, 2, 0
  {
    hide Fair, Stands, Eval, Assigned, Lookup, Means, BlockMeans, WhileMeans, SourceMeans, ForMeans;
    EvalIsMeant(p, st, sc, env, s.e);
    var v := Eval(p, st, sc, s.e).value.0;
    var i := MutableStands(p, sc, env, s.x);
    AssignStands(p, sc, env, s.x, v, i);
    env1 := env[i := env[i][s.x := Binding(v, true)]];
  }

  /** `i` bodies ran. */
  lemma {:induction false} WhileIsMeant(p: Program, st: State, sc: Scopes, env: Scopes, w: Stmt, bound: int, i: nat)
    returns (env1: Scopes)
    requires w.While? && Fair(p, st.values) && Stands(p, sc, env)
    ensures var r := ExecWhile(p, st, sc, w, bound, i);
            Ran(p, env, st, r, env1) && (r.Ok? ==> WhileMeans(p, env, w, bound - i, r.value.0, env1))
    decreases st.fuel, 2, 0
  {
    hide Fair, Stands, Eval, ExecBlock, Means, BlockMeans;
    env1 := env;
    if ExecWhile(p, st, sc, w, bound, i).Ok? {
      EvalIsMeant(p, st, sc, env, w.c);
      var (a, st1) := Eval(p, st, sc, w.c).value;
      if a == Bool(true) && i >= bound {
        if w.hasElse {
          env1 := BlockIsMeant(p, st1, sc, env, w.els);
        }
        assert MoreMeans(p, env, w, bound - i, ExecWhile(p, st, sc, w, bound, i).value.0, env1);
      } else if a == Bool(true) {
        env1 := BlockIsMeant(p, st1, sc, env, w.body);
        var (first, sc1, st2) := ExecBlock(p, st1, sc, w.body).value;
        if first.None? {
          var env2 := env1;
          env1 := WhileIsMeant(p, st2, sc1, env2, w, bound, i + 1);
        }
        assert MoreMeans(p, env, w, bound - i, ExecWhile(p, st, sc, w, bound, i).value.0, env1);
      }
    }
  }

  lemma BoundsMean(p: Program, env: Scopes, src: Source, i: Value, j: Value, k: Value)
    requires src.Range? && Means(p, env, src.start, i) && Means(p, env, src.end, j)
    requires if src.step.Some? then Means(p, env, src.step.value, k) else k == Int(1)
    ensures ArgsMean(p, env, Bounds(src), [i, j, k])
  {
    var es, vs := Bounds(src), [i, j, k];
    assert es[1..][1..] == [es[2]] && vs[1..][1..] == [k] && [es[2]][1..] == [] && [k][1..] == [];
    assert ArgsMean(p, env, [], []);
    assert ArgsMean(p, env, [es[2]], [k]);
    assert ArgsMean(p, env, es[1..], vs[1..]);
  }

  lemma {:induction false} SourceIsMeant(p: Program, st: State, sc: Scopes, env: Scopes, src: Source)
    requires Fair(p, st.values) && Stands(p, sc, env)
    ensures var r := SourceItems(p, st, sc, src);
            r.Ok? ==> SourceMeans(p, env, src, r.value.0) && Left(p, st, r.value.1)
    decreases st.fuel, 2, 0
  {
    hide Fair, Stands, Eval, Means, Enumerates, ArgsMean;
    if SourceItems(p, st, sc, src).Ok? {
      match src
      case Elements(e) => EvalIsMeant(p, st, sc, env, e);
      case Range(a, b, step, down) =>
        var k, st1 := Int(1), st;
        if step.Some? {
          EvalIsMeant(p, st, sc, env, step.value);
          k, st1 := Eval(p, st, sc, step.value).value.0, Eval(p, st, sc, step.value).value.1;
        }
        EvalIsMeant(p, st1, sc, env, a);
        var (i, st2) := Eval(p, st1, sc, a).value;
        EvalIsMeant(p, st2, sc, env, b);
        var (j, st3) := Eval(p, st2, sc, b).value;
        BoundsMean(p, env, src, i, j, k);
        var items := SourceItems(p, st, sc, src).value.0;
        RangeMeansIff(i.n, j.n, k.n, down, items);
        assert Ranges([i, j, k], down, items);
    }
  }

  lemma {:induction false} ForStmtIsMeant(p: Program, st: State, sc: Scopes, env: Scopes, s: Stmt)
    returns (env1: Scopes)
    requires Fair(p, st.values) && Stands(p, sc, env) && s.For? && ExecStmt(p, st, sc, s).Ok?
    ensures var r := ExecStmt(p, st, sc, s); Ran(p, env, st, r, env1) && StmtMeans(p, env, s, r.value.0, env1)
    decreases st.fuel, 2, 1
  {
    hide Fair, Stands, SourceItems, ExecFor, Enumerates, Means, BlockMeans, WhileMeans, SourceMeans, ForMeans;
    SourceIsMeant(p, st, sc, env, s.src);
    var (items, st1) := SourceItems(p, st, sc, s.src).value;
    env1 := ForIsMeant(p, Pushed(st1, ForLoop(|items|)).value, sc, env, s, items);
  }

  lemma {:induction false} ForIsMeant(p: Program, st: State, sc: Scopes, env: Scopes, f: Stmt, items: seq<Value>)
    returns (env1: Scopes)
    requires f.For? && Fair(p, st.values) && Stands(p, sc, env)
    ensures var r := ExecFor(p, st, sc, f, items);
            Ran(p, env, st, r, env1) && (r.Ok? ==> ForMeans(p, env, f, items, r.value.0, env1))
    decreases st.fuel, 2, 0
  {
    hide Fair, LevelStands, ExecBlock, BlockMeans;
    env1 := env;
    if ExecFor(p, st, sc, f, items).Ok? && items != [] {
      var scope := map[f.item := Binding(items[0], true)];
      PushStands(p, sc, env, scope);
      var spent := st.(fuel := st.fuel - 1);
      var inner := BlockIsMeant(p, spent, sc + [scope], env + [scope], f.body);
      var (first, sc1, st1) := ExecBlock(p, spent, sc + [scope], f.body).value;
      PopStands(p, sc1, inner);
      env1 := inner[..|env|];
      if first.None? {
        var env2 := env1;
        env1 := ForIsMeant(p, st1, sc1[..|sc1| - 1], env2, f, items[1..]);
      }
    }
  }

  // ---------------------------------------------------------------------------------------------
  // The value is the meaning

  lemma OneMeaning(p: Program, env: Scopes, e: Expr, v: Value, w: Value)
    requires Means(p, env, e, v) && Means(p, env, e, w)
    ensures v == w
  {
    var k: nat :| Means#[k](p, env, e, v);
    var h: nat :| Means#[h](p, env, e, w);
    MeansOnce(k, h, p, env, e, v, w);
  }

  lemma OneOutcome(p: Program, env: Scopes, b: seq<Stmt>, o: Option<Value>, env1: Scopes, o': Option<Value>,
                   env1': Scopes)
    requires BlockMeans(p, env, b, o, env1) && BlockMeans(p, env, b, o', env1')
    ensures o == o' && env1 == env1'
  {
    var k: nat :| BlockMeans#[k](p, env, b, o, env1);
    var h: nat :| BlockMeans#[h](p, env, b, o', env1');
    BlockOnce(k, h, p, env, b, o, env1, o', env1');
  }

  /** If an evaluation succeeds, its value is what the expression means, and the only thing it means. */
  lemma ValueIsTheMeaning(p: Program, st: State, sc: Scopes, env: Scopes, e: Expr, v: Value)
    requires Fair(p, st.values) && Stands(p, sc, env) && Eval(p, st, sc, e).Ok?
    ensures Means(p, env, e, v) <==> v == Eval(p, st, sc, e).value.0
    ensures Fair(p, Eval(p, st, sc, e).value.1.values)
  {
    hide Means, Eval, Fair, Stands;
    EvalIsMeant(p, st, sc, env, e);
    if Means(p, env, e, v) {
      OneMeaning(p, env, e, v, Eval(p, st, sc, e).value.0);
    }
  }

  /** If a block succeeds, it returns what it means and leaves the bindings it means. */
  lemma OutcomeIsTheMeaning(p: Program, st: State, sc: Scopes, env: Scopes, b: seq<Stmt>, o: Option<Value>,
                            env1: Scopes)
    requires Fair(p, st.values) && Stands(p, sc, env) && ExecBlock(p, st, sc, b).Ok?
    ensures BlockMeans(p, env, b, o, env1) ==>
              o == ExecBlock(p, st, sc, b).value.0 && Stands(p, ExecBlock(p, st, sc, b).value.1, env1)
    ensures exists after :: BlockMeans(p, env, b, ExecBlock(p, st, sc, b).value.0, after)
  {
    hide BlockMeans, ExecBlock, Fair, Stands;
    var after := BlockIsMeant(p, st, sc, env, b);
    if BlockMeans(p, env, b, o, env1) {
      OneOutcome(p, env, b, o, env1, ExecBlock(p, st, sc, b).value.0, after);
    }
  }

  /** Every global of a module has the value its initialiser means, whatever was cached for it on the way. */
  lemma {:induction false} ModuleIsMeant(p: Program, s: State, xs: seq<string>, k: nat, v: Value)
    requires (forall x :: x in xs ==> x in p.decls) && k < |xs| && Fair(p, s.values)
    requires ComptimeMemo.EvalModule(p, s, xs).Ok?
    ensures |ComptimeMemo.EvalModule(p, s, xs).value.0| == |xs|
    ensures GlobalMeans(p, xs[k], v) <==> v == ComptimeMemo.EvalModule(p, s, xs).value.0[k]
    decreases |xs|
  {
    hide EvalGlobal, Fair, Means;
    GlobalIsMeant(p, s, xs[0]);
    ComptimeMemo.ModuleLength(p, s, xs);
    var (first, s1) := EvalGlobal(p, s, xs[0]).value;
    if k > 0 {
      ModuleIsMeant(p, s1, xs[1..], k - 1, v);
    } else if GlobalMeans(p, xs[0], v) {
      OneMeaning(p, [map[]], p.decls[xs[0]], v, first);
    }
  }

  /** `if true { 1 } else { 2 }` evaluates to 1. */
  lemma BranchExample(p: Program)
    ensures var r := Eval(p, Start(), [map[]], IfExpr(Lit(Bool(true)), Lit(Int(1)), Lit(Int(2))));
            r.Ok? && r.value.0 == Int(1)
  {
    var st := Start().(fuel := MAX_FUEL - 1);
    assert Eval(p, st, [map[]], Lit(Bool(true))) == Ok((Bool(true), st.(fuel := MAX_FUEL - 2)));
  }
}
