/**
 The loops of the async semantics and of the compile-time evaluator against `BoundedLoops`, and when the
 three lowerings of one loop agree.
 */
module LoopMeanings {
  import opened Wrappers
  import opened BoundedLoops
  import A = AsyncSyntax
  import D = AsyncDirect
  import C = Comptime
  import R = ComptimeReturns

  // ---------------------------------------------------------------------------------------------
  // Direct evaluation does not depend on fuel

  lemma {:induction false} EvalMore(p: A.Program, e: A.Expr, s: D.Store, d: nat, k: nat, more: nat)
    requires !D.Eval(p, e, s, d, k).EvalTimeout?
    ensures D.Eval(p, e, s, d, k + more) == D.Eval(p, e, s, d, k)
    decreases k, 1, e, 0
  {
    if !A.AwaitFree(e) {
      match e
      case Await(_, f, args) =>
        if D.PureAll(args, s).Some? {
          CallMore(p, f, D.PureAll(args, s).value, d, k, more);
        }
      case Unary(_, x) => EvalMore(p, x, s, d, k, more);
      case Binary(op, l, r) =>
        EvalMore(p, l, s, d, k, more);
        var a := D.Eval(p, l, s, d, k);
        if a.Val? && !D.Decides(op, a.v) {
          EvalMore(p, r, s, d, k, more);
        }
      case _ =>
    }
  }

  lemma {:induction false} CallMore(p: A.Program, f: string, args: seq<A.Value>, d: nat, k: nat, more: nat)
    requires !D.Call(p, f, args, d, k).EvalTimeout?
    ensures D.Call(p, f, args, d, k + more) == D.Call(p, f, args, d, k)
    decreases k, 0
  {
    if d < D.CAPACITY && f in p.fns && |p.fns[f].params| == |args| {
      ExecMore(p, p.fns[f].body, D.Bind(p.fns[f].params, args), d + 1, k - 1, more);
    }
  }

  lemma {:induction false} ExecMore(p: A.Program, b: seq<A.Stmt>, s: D.Store, d: nat, k: nat, more: nat)
    requires !D.Exec(p, b, s, d, k).Timeout?
    ensures D.Exec(p, b, s, d, k + more) == D.Exec(p, b, s, d, k)
    decreases k, 1, b, 1
  {
    hide D.ExecStmt;
    if b != [] {
      StmtMore(p, b[0], s, d, k, more);
      var o := D.ExecStmt(p, b[0], s, d, k);
      if o.Normal? {
        ExecMore(p, b[1..], o.s, d, k, more);
      }
    }
  }

  lemma {:induction false} StmtMore(p: A.Program, st: A.Stmt, s: D.Store, d: nat, k: nat, more: nat)
    requires !D.ExecStmt(p, st, s, d, k).Timeout?
    ensures D.ExecStmt(p, st, s, d, k + more) == D.ExecStmt(p, st, s, d, k)
    decreases k, 1, st, 2
  {
    hide D.Eval, D.Exec, D.ExecWhile, D.ExecFor, D.ExecArms;
    match st
    case Decl(_, e) => EvalMore(p, e, s, d, k, more);
    case Assign(x, e) =>
      if x in s {
        EvalMore(p, e, s, d, k, more);
      }
    case Do(e) => EvalMore(p, e, s, d, k, more);
    case Return(r) =>
      if r.Some? {
        EvalMore(p, r.value, s, d, k, more);
      }
    case If(c, t, f) =>
      if D.Pure(c, s) == Some(A.Bool(true)) {
        ExecMore(p, t, s, d, k, more);
      } else if D.Pure(c, s) == Some(A.Bool(false)) {
        ExecMore(p, f, s, d, k, more);
      }
    case Match(e, arms) =>
      var v := D.Pure(e, s);
      if v.Some? && v.value.Variant? {
        ArmsMore(p, arms, v.value.name, v.value.payload, s, d, k, more);
      }
    case While(_, _, _, _, _) => WhileMore(p, st, 0, s, d, k, more);
    case Foreach(_, src, _) =>
      if D.Open(src, s).Some? {
        ForMore(p, st, D.Open(src, s).value, s, d, k, more);
      }
    case Block(b) => ExecMore(p, b, s, d, k, more);
    case Assert(_) =>
  }

  lemma {:induction false} ArmsMore(p: A.Program, arms: seq<A.Arm>, tag: string, payload: seq<A.Value>, s: D.Store,
                                    d: nat, k: nat, more: nat)
    requires !D.ExecArms(p, arms, tag, payload, s, d, k).Timeout?
    ensures D.ExecArms(p, arms, tag, payload, s, d, k + more) == D.ExecArms(p, arms, tag, payload, s, d, k)
    decreases k, 1, arms, 3
  {
    if arms != [] {
      if arms[0].tag == tag {
        if |arms[0].binds| == |payload| {
          ExecMore(p, arms[0].body, s + D.Bind(arms[0].binds, payload), d, k, more);
        }
      } else {
        ArmsMore(p, arms[1..], tag, payload, s, d, k, more);
      }
    }
  }

  lemma {:induction false} WhileMore(p: A.Program, w: A.Stmt, done: nat, s: D.Store, d: nat, k: nat, more: nat)
    requires w.While? && !D.ExecWhile(p, w, done, s, d, k).Timeout?
    ensures D.ExecWhile(p, w, done, s, d, k + more) == D.ExecWhile(p, w, done, s, d, k)
    decreases k, 1, w, 1
  {
    hide D.Exec;
    if k > 0 && D.Pure(w.c, s) == Some(A.Bool(true)) {
      if w.bound.Some? && done >= w.bound.value {
        if w.hasElse {
          ExecMore(p, w.els, s, d, k - 1, more);
        }
      } else {
        ExecMore(p, w.body, s, d, k - 1, more);
        var o := D.Exec(p, w.body, s, d, k - 1);
        if o.Normal? {
          WhileMore(p, w, done + 1, o.s, d, k - 1, more);
        }
      }
    }
  }

  lemma {:induction false} ForMore(p: A.Program, f: A.Stmt, it: D.Iteration, s: D.Store, d: nat, k: nat, more: nat)
    requires f.Foreach? && !D.ExecFor(p, f, it, s, d, k).Timeout?
    ensures D.ExecFor(p, f, it, s, d, k + more) == D.ExecFor(p, f, it, s, d, k)
    decreases k, 1, f, 1
  {
    hide D.Exec;
    if k > 0 && D.Current(it, s).Some? {
      var inner := s[f.item := D.Current(it, s).value];
      ExecMore(p, f.body, inner, d, k - 1, more);
      var o := D.Exec(p, f.body, inner, d, k - 1);
      if o.Normal? {
        ForMore(p, f, D.Following(it), o.s, d, k - 1, more);
      }
    }
  }

  // ---------------------------------------------------------------------------------------------
  // Async loops

  function EndOfOut(o: D.Out): End<D.Store, A.Value> {
    match o
    case Normal(s) => Fell(s)
    case Ret(v, s) => Left(if v.Void? then None else Some(v), s)
    case _ => Failed
  }

  /** The parts of an async loop, bodies being given `fuel`. */
  function DirectLoop(p: A.Program, w: A.Stmt, d: nat, fuel: nat): Loop<D.Store, A.Value>
    requires w.While?
  {
    Loop((s: D.Store) => (match D.Pure(w.c, s) case Some(Bool(b)) => Some((b, s)) case _ => None),
         (s: D.Store) => EndOfOut(D.Exec(p, w.body, s, d, fuel)),
         w.hasElse,
         (s: D.Store) => EndOfOut(D.Exec(p, w.els, s, d, fuel)))
  }

  /** A loop of the async language that does not run out of fuel is the bounded loop of its parts. */
  lemma {:induction false} AsyncLoopMeans(p: A.Program, w: A.Stmt, done: nat, s: D.Store, d: nat, k: nat, fuel: nat)
    requires w.While? && w.bound.Some? && done <= Clamped(w.bound.value) && k <= fuel
    requires !D.ExecWhile(p, w, done, s, d, k).Timeout?
    ensures EndOfOut(D.ExecWhile(p, w, done, s, d, k)) ==
            Runs(DirectLoop(p, w, d, fuel), p.verify, Clamped(w.bound.value) - done, s)
    decreases k
  {
    hide D.Exec;
    var l := DirectLoop(p, w, d, fuel);
    assert l.test(s) == (match D.Pure(w.c, s) case Some(Bool(b)) => Some((b, s)) case _ => None);
    if D.Pure(w.c, s) == Some(A.Bool(true)) {
      if done >= w.bound.value {
        if w.hasElse {
          ExecMore(p, w.els, s, d, k - 1, fuel - (k - 1));
          assert l.els(s) == EndOfOut(D.Exec(p, w.els, s, d, fuel));
        }
      } else {
        ExecMore(p, w.body, s, d, k - 1, fuel - (k - 1));
        var o := D.Exec(p, w.body, s, d, k - 1);
        assert l.body(s) == EndOfOut(o);
        if o.Normal? {
          AsyncLoopMeans(p, w, done + 1, o.s, d, k - 1, fuel);
        }
      }
    }
  }

  /** Async code and ordinary C agree on every bounded loop. */
  lemma AsyncAgreesWithC(p: A.Program, w: A.Stmt, s: D.Store, d: nat, fuel: nat)
    requires w.While? && w.bound.Some? && !D.ExecWhile(p, w, 0, s, d, fuel).Timeout?
    ensures InC(DirectLoop(p, w, d, fuel), p.verify, w.bound.value, s) ==
            Some(EndOfOut(D.ExecWhile(p, w, 0, s, d, fuel)))
  {
    hide InC, Runs;
    CLoopMeans(DirectLoop(p, w, d, fuel), p.verify, w.bound.value, s);
    AsyncLoopMeans(p, w, 0, s, d, fuel, fuel);
  }

  // ---------------------------------------------------------------------------------------------
  // Compile-time loops

  /** Scopes, and the evaluator's state with its fuel and its cache. */
  type Setting = (C.Scopes, C.State)

  function EndOfRun(r: R.Run): End<Setting, C.Value> {
    match r
    case Err(_) => Failed
    case Ok((Fell, sc, st)) => BoundedLoops.Fell((sc, st))
    case Ok((Gave(v), sc, st)) => BoundedLoops.Left(Some(v), (sc, st))
    case Ok((Left, sc, st)) => BoundedLoops.Left(None, (sc, st))
  }

  /** What the evaluator shows of it: a bare `return` looks like the end of the block. */
  function EndOfExec(r: C.Executed): End<Setting, C.Value> {
    match r
    case Err(_) => Failed
    case Ok((o, sc, st)) => if o.Some? then BoundedLoops.Left(o, (sc, st)) else BoundedLoops.Fell((sc, st))
  }

  /** The parts of a compile-time loop: evaluating the condition takes fuel and may fill the cache. */
  function ComptimeLoop(p: C.Program, w: C.Stmt): Loop<Setting, C.Value>
    requires w.While?
  {
    Loop((x: Setting) =>
           (match C.Eval(p, x.1, x.0, w.c) case Ok((Bool(b), st)) => Some((b, (x.0, st))) case _ => None),
         (x: Setting) => EndOfRun(R.RunBlock(p, x.1, x.0, w.body)),
         w.hasElse,
         (x: Setting) => EndOfRun(R.RunBlock(p, x.1, x.0, w.els)))
  }

  /** If a bare `return` leaves the function, a compile-time loop is the bounded loop of its parts. */
  lemma {:induction false} ComptimeLoopMeans(p: C.Program, st: C.State, sc: C.Scopes, w: C.Stmt, bound: int, i: nat)
    requires w.While? && i <= bound
    ensures EndOfRun(R.RunWhile(p, st, sc, w, bound, i)) == Runs(ComptimeLoop(p, w), false, bound - i, (sc, st))
    decreases bound - i
  {
    hide C.Eval, R.RunBlock;
    var l := ComptimeLoop(p, w);
    var a := C.Eval(p, st, sc, w.c);
    assert l.test((sc, st)) == (match a case Ok((Bool(b), t)) => Some((b, (sc, t))) case _ => None);
    if a.Ok? && a.value.0 == C.Bool(true) {
      var st1 := a.value.1;
      if i >= bound {
        if w.hasElse {
          assert l.els((sc, st1)) == EndOfRun(R.RunBlock(p, st1, sc, w.els));
        }
      } else {
        var o := R.RunBlock(p, st1, sc, w.body);
        assert l.body((sc, st1)) == EndOfRun(o);
        if o.Ok? && o.value.0.Fell? {
          ComptimeLoopMeans(p, o.value.2, o.value.1, w, bound, i + 1);
        }
      }
    }
  }

  lemma BareEnds<S, V>(l: Loop<S, V>, verify: bool, n: nat, s: S)
    ensures BareReached(l, n, s) <==> Runs(l, verify, n, s).Left? && Runs(l, verify, n, s).v.None?
  {
  }

  /**
   The evaluator and ordinary C agree on a loop exactly when no bare `return` is reached and the loop has an
   `else`, is not exhausted, or is not built for verification.
   */
  lemma EvaluatorAgreesWithCIff(p: C.Program, st: C.State, sc: C.Scopes, w: C.Stmt, bound: nat, verify: bool)
    requires w.While?
    ensures var l, start := ComptimeLoop(p, w), (sc, st);
            Some(EndOfExec(C.ExecWhile(p, st, sc, w, bound, 0))) == InC(l, verify, bound, start) <==>
            !BareReached(l, bound, start) && (l.hasElse || !verify || !Turns(l, bound, start).Exhausted?)
  {
    hide InC, C.ExecWhile, R.RunWhile, R.OverrunsWhile, Turns, C.Eval, R.RunBlock;
    var l, start := ComptimeLoop(p, w), (sc, st);
    CLoopMeans(l, verify, bound, start);
    ComptimeLoopMeans(p, st, sc, w, bound, 0);
    R.WhileVerdict(p, st, sc, w, bound, 0);
    BareEnds(l, false, bound, start);
    VerifyDiffersIff(l, bound, start);
  }

  /**
   All three lowerings of one loop: if the evaluator's parts and the async parts do the same to related states,
   the loops agree exactly when no bare `return` is reached and the loop has an `else`, is not exhausted, or is
   not built for verification.
   */
  lemma LoopsAgreeIff(p: C.Program, st: C.State, sc: C.Scopes, w: C.Stmt, bound: nat,
                      q: A.Program, s: D.Store, u: A.Stmt, d: nat, fuel: nat,
                      r: Relation<Setting, C.Value, D.Store, A.Value>)
    requires w.While? && u.While? && u.bound == Some(bound) && !D.ExecWhile(q, u, 0, s, d, fuel).Timeout?
    requires Similar(ComptimeLoop(p, w), DirectLoop(q, u, d, fuel), r) && r.heads((sc, st), s)
    ensures var evaluated, async := EndOfExec(C.ExecWhile(p, st, sc, w, bound, 0)),
            EndOfOut(D.ExecWhile(q, u, 0, s, d, fuel));
            var l, start := ComptimeLoop(p, w), (sc, st);
            && InC(DirectLoop(q, u, d, fuel), q.verify, bound, s) == Some(async)
            && (SimilarEnds(evaluated, async, r.ends, r) <==>
                !BareReached(l, bound, start) && (l.hasElse || !q.verify || !Turns(l, bound, start).Exhausted?))
  {
    hide InC, C.ExecWhile, D.ExecWhile, ComptimeLoop, DirectLoop, Turns;
    var l, m, start := ComptimeLoop(p, w), DirectLoop(q, u, d, fuel), (sc, st);
    EvaluatorAgreesWithCIff(p, st, sc, w, bound, q.verify);
    CLoopMeans(l, q.verify, bound, start);
    AsyncAgreesWithC(q, u, s, d, fuel);
    CLoopMeans(m, q.verify, bound, s);
    SimilarRuns(l, m, r, q.verify, bound, start, s);
    BareEnds(l, q.verify, bound, start);
    EvaluatedEnds(p, st, sc, w, bound);
  }

  /** The evaluator never shows a bare `return`, and it does not fail where the loop is exhausted without `else`. */
  lemma EvaluatedEnds(p: C.Program, st: C.State, sc: C.Scopes, w: C.Stmt, bound: nat)
    requires w.While?
    ensures var e := EndOfExec(C.ExecWhile(p, st, sc, w, bound, 0)); e.Left? ==> e.v.Some?
    ensures var l, start := ComptimeLoop(p, w), (sc, st);
            Turns(l, bound, start).Exhausted? && !l.hasElse ==> EndOfExec(C.ExecWhile(p, st, sc, w, bound, 0)).Fell?
  {
    hide InC, C.ExecWhile, Turns, C.Eval, R.RunBlock;
    EvaluatorAgreesWithCIff(p, st, sc, w, bound, false);
    CLoopMeans(ComptimeLoop(p, w), false, bound, (sc, st));
  }
}
