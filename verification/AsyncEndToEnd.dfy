/** The whole async lowering: graph, numbering, frame fields, step function and driver together. */
module AsyncEndToEnd {
  import opened Wrappers
  import opened AsyncSyntax
  import opened AsyncDirect
  import opened AsyncGraph
  import opened AsyncMachine
  import opened AsyncScope
  import opened AsyncFrame
  import opened AsyncEmit
  import opened AsyncPersist
  import opened AsyncCoverage
  import opened AsyncDriver
  import opened AsyncTheorem

  /** The frame fields chosen for each function. */
  function Fields(p: Program): map<string, set<string>> {
    map f | f in p.fns :: Persistent(p.fns[f], Emitted(p)[f].nodes)
  }

  /** The generated code: emitted states over frames that hold the persistent names only. */
  function Generated(p: Program): (code: Code)
    ensures code.Keys == p.fns.Keys
  {
    Trimmed(Emitted(p), Fields(p))
  }

  ghost predicate WellFormed(p: Program) {
    ShapedProgram(p) && forall f :: f in p.fns ==> WellScoped(p.fns[f]) && ReadsAreSeen(p.fns[f])
  }

  lemma FieldsSuffice(p: Program)
    requires WellFormed(p)
    ensures Sufficient(p, Emitted(p), Fields(p))
  {
    hide Covers, Persistent, ReadsAreSeen;
    forall f | f in p.fns ensures Covers(p.fns[f].params, Emitted(p)[f].nodes, Fields(p)[f]) {
      FieldsCoverIff(p.fns[f]);
    }
  }

  /** The state of an operation of `f` after so many calls of `concept_async_step`. */
  function Driven(p: Program, f: string, args: seq<Value>, native: nat, calls: nat, limit: nat): Option<Machine>
    requires f in p.fns && |p.fns[f].params| == |args|
  {
    var env := Env(p, Generated(p), native);
    Drive(env, Operation(env, f, args), calls, limit)
  }

  lemma GeneratedRuns(p: Program, f: string, args: seq<Value>, native: nat, n: nat, v: Value)
    requires WellFormed(p) && f in p.fns && |p.fns[f].params| == |args|
    ensures var created, generated := Env(p, Created(p), native), Env(p, Generated(p), native);
            Run(created, Operation(created, f, args), n) == Completed(v) <==>
            Run(generated, Operation(generated, f, args), n) == Completed(v)
  {
    hide Step, Started, Sufficient;
    FieldsSuffice(p);
    EmissionPreservesRuns(p, f, args, native, n, v);
    DiscardingPreservesRuns(p, Emitted(p), Fields(p), f, args, native, n, v);
  }

  /**
   Repeated calls of `concept_async_step` on a generated operation complete with `v` exactly when
   direct evaluation, with await read as a call and at most eight frames, yields `v`.
   */
  lemma GeneratedCodeIsCorrect(p: Program, f: string, args: seq<Value>, v: Value)
    requires WellFormed(p) && f in p.fns && |p.fns[f].params| == |args|
    ensures (exists native: nat, calls: nat, limit: nat ::
               Driven(p, f, args, native, calls, limit) == Some(Completed(v))) <==>
            Evaluates(p, f, args, v)
  {
    hide Step, Started, Generated, Drive, Run;
    LoweringPreservesMeaning(p, f, args, v);
    if native: nat, calls: nat, limit: nat :| Driven(p, f, args, native, calls, limit) == Some(Completed(v)) {
      var env, created := Env(p, Generated(p), native), Env(p, Created(p), native);
      var n := DriveIsRun(env, Operation(env, f, args), calls, limit);
      GeneratedRuns(p, f, args, native, n, v);
      assert Run(created, Operation(created, f, args), n) == Completed(v);
      assert Completes(p, Created(p), f, args, v);
    }
    if Completes(p, Created(p), f, args, v) {
      var native: nat, n: nat :|
        Run(Env(p, Created(p), native), Operation(Env(p, Created(p), native), f, args), n) == Completed(v);
      GeneratedRuns(p, f, args, native, n, v);
      var env := Env(p, Generated(p), native);
      var calls := RunIsDriven(env, Operation(env, f, args), n, n);
      assert Driven(p, f, args, native, calls, n) == Some(Completed(v));
    }
  }
}
