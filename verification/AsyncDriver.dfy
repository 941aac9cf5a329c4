/**
 Driving an operation with `concept_async_step`.  One call runs dispatched states of the top frame
 until that frame suspends, finishes or aborts.
 */
module AsyncDriver {
  import opened Wrappers
  import opened AsyncSyntax
  import opened AsyncDirect
  import opened AsyncGraph
  import opened AsyncMachine
  import opened AsyncRuns

  /** The state dispatched next is the last one of the running call. */
  predicate EndsCall(env: Env, m: Machine) {
    m.Running? && m.frames != [] ==> !StepFrame(env, m.frames[|m.frames| - 1], m.outcome).Goto?
  }

  /** One call; `None` if it has not returned after `limit` states. */
  function StepCall(env: Env, m: Machine, limit: nat): Option<Machine>
    decreases limit
  {
    if !m.Running? then Some(m)
    else if limit == 0 then None
    else if EndsCall(env, m) then Some(Step(env, m))
    else StepCall(env, Step(env, m), limit - 1)
  }

  /** `calls` calls in a row. */
  function Drive(env: Env, m: Machine, calls: nat, limit: nat): Option<Machine>
    decreases calls
  {
    if calls == 0 then Some(m)
    else
      match StepCall(env, m, limit)
      case None => None
      case Some(m1) => Drive(env, m1, calls - 1, limit)
  }

  lemma {:induction false} CallIsRun(env: Env, m: Machine, limit: nat) returns (n: nat)
    requires StepCall(env, m, limit).Some?
    ensures Run(env, m, n) == StepCall(env, m, limit).value
    decreases limit
  {
    hide Step, EndsCall;
    if !m.Running? {
      n := 0;
    } else if EndsCall(env, m) {
      n := 1;
      assert Run(env, m, 1) == Run(env, Step(env, m), 0);
    } else {
      var rest := CallIsRun(env, Step(env, m), limit - 1);
      n := rest + 1;
    }
  }

  lemma {:induction false} DriveIsRun(env: Env, m: Machine, calls: nat, limit: nat) returns (n: nat)
    requires Drive(env, m, calls, limit).Some?
    ensures Run(env, m, n) == Drive(env, m, calls, limit).value
    decreases calls
  {
    hide Step, EndsCall, StepCall;
    if calls == 0 {
      n := 0;
    } else {
      var m1 := StepCall(env, m, limit).value;
      var first := CallIsRun(env, m, limit);
      var rest := DriveIsRun(env, m1, calls - 1, limit);
      RunAdds(env, m, first, rest);
      n := first + rest;
    }
  }

  /** A call returns within a run that completes, and the rest of the run completes too. */
  lemma {:induction false} CallReturns(env: Env, m: Machine, n: nat, limit: nat) returns (used: nat)
    requires Run(env, m, n).Completed? && m.Running? && n <= limit
    ensures StepCall(env, m, limit).Some? && 0 < used <= n
    ensures Run(env, StepCall(env, m, limit).value, n - used) == Run(env, m, n)
    decreases n
  {
    used := 1;
    if !EndsCall(env, m) {
      assert Step(env, m).Running?;
      var rest := CallReturns(env, Step(env, m), n - 1, limit - 1);
      used := rest + 1;
    }
  }

  lemma {:induction false} RunIsDriven(env: Env, m: Machine, n: nat, limit: nat) returns (calls: nat)
    requires Run(env, m, n).Completed? && n <= limit
    ensures Drive(env, m, calls, limit) == Some(Run(env, m, n))
    decreases n
  {
    hide Step, EndsCall, StepCall;
    if m.Running? {
      var used := CallReturns(env, m, n, limit);
      var rest := RunIsDriven(env, StepCall(env, m, limit).value, n - used, limit);
      calls := rest + 1;
    } else {
      StoppedStays(env, m, n);
      calls := 0;
    }
  }

  /** Repeated calls complete the operation exactly when its dispatched states do. */
  lemma DrivenIffRun(env: Env, m: Machine, v: Value)
    ensures (exists calls: nat, limit: nat :: Drive(env, m, calls, limit) == Some(Completed(v))) <==>
            (exists n: nat :: Run(env, m, n) == Completed(v))
  {
    if calls: nat, limit: nat :| Drive(env, m, calls, limit) == Some(Completed(v)) {
      var n := DriveIsRun(env, m, calls, limit);
      assert Run(env, m, n) == Completed(v);
    }
    if n: nat :| Run(env, m, n) == Completed(v) {
      var calls := RunIsDriven(env, m, n, n);
      assert Drive(env, m, calls, n) == Some(Completed(v));
    }
  }
}
