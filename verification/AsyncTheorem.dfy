/** Lowering preserves meaning: the machine completes with a value exactly when direct evaluation yields it. */
module AsyncTheorem {
  import opened Wrappers
  import opened AsyncSyntax
  import opened AsyncDirect
  import opened AsyncGraph
  import opened AsyncMachine
  import opened AsyncRuns
  import opened AsyncSimulation
  import opened AsyncStuck

  /** Some bound on native loops and some number of dispatched states complete the operation. */
  ghost predicate Completes(p: Program, code: Code, f: string, args: seq<Value>, v: Value)
    requires f in p.fns && f in code && |p.fns[f].params| == |args|
  {
    exists native: nat, n: nat :: Run(Env(p, code, native), Operation(Env(p, code, native), f, args), n) == Completed(v)
  }

  ghost predicate Evaluates(p: Program, f: string, args: seq<Value>, v: Value) {
    exists fuel: nat :: Direct(p, f, args, fuel) == Val(v)
  }

  /** If direct evaluation yields a value, the machine completes with it. */
  lemma AnswerIsReached(p: Program, f: string, args: seq<Value>, fuel: nat) returns (n: nat)
    requires ShapedProgram(p) && Direct(p, f, args, fuel).Val?
    ensures f in p.fns && |p.fns[f].params| == |args|
    ensures var env := Env(p, Created(p), fuel);
            Run(env, Operation(env, f, args), n) == Completed(Direct(p, f, args, fuel).v)
  {
    var env := Env(p, Created(p), fuel);
    var m;
    n, m := SimCall(env, [], f, args, Void, fuel);
    var start := Operation(env, f, args);
    assert [] + [Started(env, f, args)] == [Started(env, f, args)];
    ReachIsRun(env, start, m, [], n);
  }

  /** If direct evaluation yields nothing with ample fuel, the machine has not completed after `n` states. */
  lemma NoAnswerNoCompletion(p: Program, f: string, args: seq<Value>, native: nat, n: nat)
    requires ShapedProgram(p) && f in p.fns && |p.fns[f].params| == |args|
    requires !Direct(p, f, args, n + native + 1).Val?
    ensures var env := Env(p, Created(p), native);
            !Run(env, Operation(env, f, args), n).Completed?
  {
    var env := Env(p, Created(p), native);
    assert [] + [Started(env, f, args)] == [Started(env, f, args)];
    StuckCall(env, [], f, args, Void, n + native + 1, n);
    StaysNeverCompletes(env, Operation(env, f, args), n);
  }

  /** Two runs of the same operation that complete agree, whatever their bounds on native loops. */
  lemma CompletionIsUnique(p: Program, f: string, args: seq<Value>, native: nat, n: nat, v: Value)
    requires ShapedProgram(p) && f in p.fns && |p.fns[f].params| == |args|
    requires var env := Env(p, Created(p), native); Run(env, Operation(env, f, args), n) == Completed(v)
    ensures Direct(p, f, args, n + native + 1) == Val(v)
  {
    var k := n + native + 1;
    if !Direct(p, f, args, k).Val? {
      NoAnswerNoCompletion(p, f, args, native, n);
    } else {
      var env := Env(p, Created(p), native);
      var start := Operation(env, f, args);
      assert [] + [Started(env, f, args)] == [Started(env, f, args)];
      var steps, m := SimCall(env, [], f, args, Void, k);
      ReachIsRun(env, start, m, [], steps);
      // Both runs stop, so they stop in the same state.
      RunAdds(env, start, n, steps);
      RunAdds(env, start, steps, n);
      assert n + steps == steps + n;
      StoppedStays(env, Completed(v), steps);
      StoppedStays(env, m, n);
    }
  }

  /** The lowered machine completes with a value exactly when direct evaluation yields that value. */
  lemma LoweringPreservesMeaning(p: Program, f: string, args: seq<Value>, v: Value)
    requires ShapedProgram(p) && f in p.fns && |p.fns[f].params| == |args|
    ensures Completes(p, Created(p), f, args, v) <==> Evaluates(p, f, args, v)
  {
    if fuel: nat :| Direct(p, f, args, fuel) == Val(v) {
      var n := AnswerIsReached(p, f, args, fuel);
      assert Run(Env(p, Created(p), fuel), Operation(Env(p, Created(p), fuel), f, args), n) == Completed(v);
    }
    if native: nat, n: nat :|
      Run(Env(p, Created(p), native), Operation(Env(p, Created(p), native), f, args), n) == Completed(v) {
      CompletionIsUnique(p, f, args, native, n, v);
    }
  }
}
