/** The evaluator as the compiler runs it: one object whose fuel, stack and cache change in place. */
module ComptimeEvaluator {
  import opened Wrappers
  import opened Comptime
  import RangeCursor

  class ComptimeState {
    const p: Program
    var fuel: nat
    var stack: seq<Frame>
    var values: map<string, Value>
    var evaluating: set<string>
    ghost var log: seq<seq<Frame>>

    ghost function State(): State
      reads this
    {
      Comptime.State.State(fuel, stack, values, evaluating, log)
    }

    constructor (p: Program)
      ensures this.p == p && State() == Start()
    {
      this.p := p;
      fuel, stack, values, evaluating, log := MAX_FUEL, [], map[], {}, [];
    }

    /** The outcome and, after a success, the state are those of the functional evaluator. */
    ghost predicate Did<T>(r: Result<T, Failure>, spec: Result<(T, State), Failure>)
      reads this
    {
      match spec
      case Ok((v, st)) => r == Ok(v) && State() == st
      case Err(f) => r == Err(f)
    }

    ghost predicate Ran(r: Result<(Option<Value>, Scopes), Failure>, spec: Executed)
      reads this
    {
      match spec
      case Ok((v, sc, st)) => r == Ok((v, sc)) && State() == st
      case Err(f) => r == Err(f)
    }

    method Push(frame: Frame) returns (r: Option<Failure>)
      modifies this
      ensures match Pushed(old(State()), frame)
              case Ok(st) => r == None && State() == st
              case Err(f) => r == Some(f)
      ensures fuel == old(fuel)
    {
      stack := stack + [frame];
      log := log + [stack];
      if |stack| > MAX_CALL_DEPTH {
        return Some(DepthExceeded);
      }
      r := None;
    }

    method Pop()
      modifies this
      ensures State() == Popped(old(State()))
    {
      if |stack| > 0 {
        stack := stack[..|stack| - 1];
      }
    }

    /** Active frames of a function, counted as the compiler does. */
    method CountActive(f: string) returns (active: nat)
      ensures active == Active(stack, f)
    {
      active := 0;
      for i := 0 to |stack|
        invariant active == Active(stack[..i], f)
      {
        assert stack[..i + 1][..i] == stack[..i];
        if stack[i] == Call(f) {
          active := active + 1;
        }
      }
      assert stack[..|stack|] == stack;
    }

    method EvalExpr(sc: Scopes, e: Expr) returns (r: Result<Value, Failure>)
      modifies this
      ensures Did(r, Eval(p, old(State()), sc, e))
      decreases fuel, 0, 0
    {
      if fuel == 0 {
        return Err(FuelExhausted);
      }
      fuel := fuel - 1;
      match e
      case Lit(v) => r := Ok(v);
      case Name(x) =>
        var b := Lookup(sc, x);
        if b.Some? {
          r := Ok(b.value.v);
        } else if x in p.decls {
          r := Declaration(x);
        } else {
          r := Err(Unavailable);
        }
      case Unary(op, x) =>
        r := EvalExpr(sc, x);
        if r.Ok? {
          var v := ApplyUnary(op, r.value);
          r := if v.Some? then Ok(v.value) else Err(Invalid);
        }
      case Binary(_, _, _) => r := BinaryExpr(sc, e);
      case IfExpr(c, t, f) =>
        r := EvalExpr(sc, c);
        if r.Ok? {
          if r.value == Bool(true) {
            r := EvalExpr(sc, t);
          } else if r.value == Bool(false) {
            r := EvalExpr(sc, f);
          } else {
            r := Err(Invalid);
          }
        }
      case CallTo(f, args) => r := CallFunction(sc, f, args);
    }

    /** Operands left to right; `and` and `or` stop at a deciding left operand. */
    method BinaryExpr(sc: Scopes, e: Expr) returns (r: Result<Value, Failure>)
      requires e.Binary?
      modifies this
      ensures Did(r, match Eval(p, old(State()), sc, e.l)
                     case Ok((a, st2)) =>
                       if (e.op == And || e.op == Or) && !a.Bool? then Err(Invalid)
                       else if Decides(e.op, a) then Ok((a, st2))
                       else
                         (match Eval(p, st2, sc, e.r)
                          case Ok((b, st3)) =>
                            (match Apply(e.op, a, b)
                             case Some(v) => Ok((v, st3))
                             case None => Err(Invalid))
                          case Err(f) => Err(f))
                     case Err(f) => Err(f))
      decreases fuel, 1, 0
    {
      r := EvalExpr(sc, e.l);
      if r.Ok? {
        var left := r.value;
        if (e.op == And || e.op == Or) && !left.Bool? {
          return Err(Invalid);
        }
        if Decides(e.op, left) {
          return;
        }
        r := EvalExpr(sc, e.r);
        if r.Ok? {
          var v := Apply(e.op, left, r.value);
          r := if v.Some? then Ok(v.value) else Err(Invalid);
        }
      }
    }

    /** `evt1EvaluateGlobalComptimeDecl`. */
    method Declaration(x: string) returns (r: Result<Value, Failure>)
      requires x in p.decls
      modifies this
      ensures Did(r, EvalGlobal(p, old(State()), x))
      decreases fuel, 1, 0
    {
      if x in values {
        return Ok(values[x]);
      }
      if x in evaluating {
        return Err(Cycle);
      }
      evaluating := evaluating + {x};
      var failed := Push(Global(x));
      if failed.Some? {
        return Err(failed.value);
      }
      var seeds := [map y | y in values :: Binding(values[y], false)];
      assert seeds == Seeded(State());
      r := EvalExpr(seeds, p.decls[x]);
      if r.Ok? {
        evaluating := evaluating - {x};
        Pop();
        if p.memo {
          values := values[x := r.value];
        }
      }
    }

    method Arguments(sc: Scopes, args: seq<Expr>) returns (r: Result<seq<Value>, Failure>)
      modifies this
      ensures Did(r, EvalArgs(p, old(State()), sc, args))
      decreases fuel, 1, |args|
    {
      if |args| == 0 {
        return Ok([]);
      }
      var first := EvalExpr(sc, args[0]);
      if first.Err? {
        return Err(first.error);
      }
      var rest := Arguments(sc, args[1..]);
      r := if rest.Ok? then Ok([first.value] + rest.value) else rest;
    }

    /** `evt1EvalComptimeCall`. */
    method CallFunction(sc: Scopes, f: string, args: seq<Expr>) returns (r: Result<Value, Failure>)
      modifies this
      ensures Did(r, EvalCall(p, old(State()), sc, f, args))
      decreases fuel, 4, 0
    {
      if f !in p.fns {
        return Err(Unavailable);
      }
      var fn := p.fns[f];
      if |fn.params| != |args| {
        return Err(Invalid);
      }
      if fn.recursionBound > 0 {
        var active := CountActive(f);
        if active >= fn.recursionBound {
          return Err(RecursionExceeded);
        }
      }
      var failed := Push(Call(f));
      if failed.Some? {
        return Err(failed.value);
      }
      var seeds := map y | y in values :: Binding(values[y], false);
      assert [seeds] == Seeded(State());
      var vs := Arguments(sc, args);
      if vs.Err? {
        return Err(vs.error);
      }
      var o := RunBlock([WithParams(seeds, fn.params, vs.value)], fn.body);
      if o.Err? {
        return Err(o.error);
      }
      Pop();
      r := match o.value.0 case Some(v) => Ok(v) case None => if fn.isVoid then Ok(Void) else Err(Invalid);
    }

    /** `evt1ExecComptimeBlock`. */
    method RunBlock(sc: Scopes, b: seq<Stmt>) returns (r: Result<(Option<Value>, Scopes), Failure>)
      modifies this
      ensures Ran(r, ExecBlock(p, old(State()), sc, b))
      decreases fuel, 3, b, 1
    {
      r := RunAll(sc + [map[]], b);
      if r.Ok? {
        var local := r.value.1;
        r := Ok((r.value.0, if |local| == 0 then [] else local[..|local| - 1]));
      }
    }

    method RunAll(sc: Scopes, b: seq<Stmt>) returns (r: Result<(Option<Value>, Scopes), Failure>)
      modifies this
      ensures Ran(r, ExecAll(p, old(State()), sc, b))
      decreases fuel, 3, b, 0
    {
      hide ExecStmt;
      if |b| == 0 || (b[0].Return? && b[0].result.None?) {
        return Ok((None, sc));
      }
      r := RunStmt(sc, b[0]);
      if r.Ok? && r.value.0.None? {
        r := RunAll(r.value.1, b[1..]);
      }
    }

    method RunStmt(sc: Scopes, s: Stmt) returns (r: Result<(Option<Value>, Scopes), Failure>)
      modifies this
      ensures Ran(r, ExecStmt(p, old(State()), sc, s))
      decreases fuel, 3, s, 0
    {
      hide Eval, ExecBlock, ExecWhile, ExecFor, SourceItems;
      match s
      case Decl(x, m, e) =>
        var v := EvalExpr(sc, e);
        r := if v.Ok? then Ok((None, Declared(sc, x, Binding(v.value, m)))) else Err(v.error);
      case Assign(x, e) =>
        var b := Lookup(sc, x);
        if b.None? || !b.value.mutable {
          return Err(Invalid);
        }
        var v := EvalExpr(sc, e);
        r := if v.Ok? then Ok((None, Assigned(sc, x, v.value))) else Err(v.error);
      case Do(e) =>
        var v := EvalExpr(sc, e);
        r := if v.Ok? then Ok((None, sc)) else Err(v.error);
      case Return(result) =>
        if result.None? {
          return Ok((None, sc));
        }
        var v := EvalExpr(sc, result.value);
        r := if v.Ok? then Ok((Some(v.value), sc)) else Err(v.error);
      case If(c, t, f) =>
        var v := EvalExpr(sc, c);
        if v.Err? {
          return Err(v.error);
        }
        if v.value == Bool(true) {
          r := RunBlock(sc, t);
        } else if v.value == Bool(false) {
          r := RunBlock(sc, f);
        } else {
          r := Err(Invalid);
        }
      case While(_, bound, _, _, _) =>
        var n := EvalExpr(sc, bound);
        if n.Err? {
          return Err(n.error);
        }
        if !n.value.Int? || n.value.n < 0 || n.value.n > MAX_LOOP_BOUND {
          return Err(LoopBoundInvalid);
        }
        var failed := Push(WhileLoop(n.value.n));
        if failed.Some? {
          return Err(failed.value);
        }
        r := RunWhile(sc, s, n.value.n);
        if r.Ok? {
          Pop();
        }
      case For(_, src, _) =>
        var items := Items(sc, src);
        if items.Err? {
          return Err(items.error);
        }
        var failed := Push(ForLoop(|items.value|));
        if failed.Some? {
          return Err(failed.value);
        }
        r := RunFor(sc, s, items.value);
        if r.Ok? {
          Pop();
        }
      case Block(b) => r := RunBlock(sc, b);
    }

    /** The loop of a bounded `while`: condition, then bound, then body. */
    method RunWhile(sc: Scopes, w: Stmt, bound: int) returns (r: Result<(Option<Value>, Scopes), Failure>)
      requires w.While?
      modifies this
      ensures Ran(r, ExecWhile(p, old(State()), sc, w, bound, 0))
      decreases fuel, 2, 0
    {
      hide Eval, ExecBlock;
      var local := sc;
      var i := 0;
      while true
        invariant i >= 0 && fuel <= old(fuel)
        invariant ExecWhile(p, old(State()), sc, w, bound, 0) == ExecWhile(p, State(), local, w, bound, i)
        decreases fuel
      {
        var condition := EvalExpr(local, w.c);
        if condition.Err? {
          return Err(condition.error);
        }
        if !condition.value.Bool? {
          return Err(Invalid);
        }
        if !condition.value.b {
          return Ok((None, local));
        }
        if i >= bound {
          if w.hasElse {
            r := RunBlock(local, w.els);
            return;
          }
          return Ok((None, local));
        }
        r := RunBlock(local, w.body);
        if r.Err? || r.value.0.Some? {
          return;
        }
        local := r.value.1;
        i := i + 1;
      }
    }

    method Items(sc: Scopes, src: Source) returns (r: Result<seq<Value>, Failure>)
      modifies this
      ensures Did(r, SourceItems(p, old(State()), sc, src))
      decreases fuel, 2, 0
    {
      hide Eval;
      match src
      case Elements(e) =>
        var v := EvalExpr(sc, e);
        if v.Err? {
          return Err(v.error);
        }
        if !v.value.Arr? {
          return Err(Invalid);
        }
        r := if |v.value.items| > MAX_LOOP_BOUND then Err(LoopBoundInvalid) else Ok(v.value.items);
      case Range(a, b, step, descending) =>
        var k: Result<Value, Failure> := Ok(Int(1));
        if step.Some? {
          k := EvalExpr(sc, step.value);
        }
        if k.Err? {
          return Err(k.error);
        }
        if !k.value.Int? {
          return Err(Invalid);
        }
        var from := EvalExpr(sc, a);
        if from.Err? {
          return Err(from.error);
        }
        var to := EvalExpr(sc, b);
        if to.Err? {
          return Err(to.error);
        }
        if !from.value.Int? || !to.value.Int? {
          return Err(Invalid);
        }
        var ns := RangeCursor.ComptimeRangeValues(from.value.n, to.value.n, k.value.n, descending);
        r := match ns case Ok(xs) => Ok(IntValues(xs)) case Err(_) => Err(LoopBoundInvalid);
    }

    /** `evt1ExecComptimeFor`. */
    method RunFor(sc: Scopes, f: Stmt, items: seq<Value>) returns (r: Result<(Option<Value>, Scopes), Failure>)
      requires f.For?
      modifies this
      ensures Ran(r, ExecFor(p, old(State()), sc, f, items))
      decreases fuel, 2, 0
    {
      hide ExecBlock;
      var local := sc;
      for i := 0 to |items|
        invariant fuel <= old(fuel)
        invariant ExecFor(p, old(State()), sc, f, items) == ExecFor(p, State(), local, f, items[i..])
      {
        assert items[i..][0] == items[i] && items[i..][1..] == items[i + 1..];
        if fuel == 0 {
          return Err(FuelExhausted);
        }
        fuel := fuel - 1;
        r := RunBlock(local + [map[f.item := Binding(items[i], true)]], f.body);
        if r.Err? {
          return;
        }
        local := if |r.value.1| == 0 then [] else r.value.1[..|r.value.1| - 1];
        if r.value.0.Some? {
          return Ok((r.value.0, local));
        }
      }
      r := Ok((None, local));
    }
  }
}
