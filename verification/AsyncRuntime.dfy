/**
 The C runtime of an operation: a fixed array of machine frames, updated in place.  A method returns
 `false` where the runtime calls `concept_async_abort`.
 */
module AsyncRuntime {
  import opened Wrappers
  import opened AsyncSyntax
  import opened AsyncDirect
  import opened AsyncGraph
  import opened AsyncMachine
  import opened AsyncDriver
  import opened AsyncAdopt

  /** How a call of `concept_async_step` comes back; `Working` if it has not returned yet. */
  datatype StepEnd = Returned | AbortCalled | Looping | Working

  class Operation {
    const frames: array<Frame>
    var depth: nat
    var completed: bool
    var result: Value
    var outcome: Value

    ghost predicate Valid()
      reads this
    {
      frames.Length == CAPACITY && depth <= CAPACITY
    }

    /** The active frames, the running one last. */
    ghost function Stack(): seq<Frame>
      requires Valid()
      reads this, frames
    {
      frames[..depth]
    }

    /** The machine state this operation represents. */
    ghost function State(): Machine
      requires Valid()
      reads this, frames
    {
      if completed then Completed(result) else Running(Stack(), outcome)
    }

    /** A zeroed operation, before its first frame is pushed. */
    constructor (blank: Frame)
      ensures Valid() && fresh(frames) && depth == 0 && !completed && Stack() == [] && outcome == Void
    {
      frames := new Frame[CAPACITY](_ => blank);
      depth, completed, result, outcome := 0, false, Void, Void;
    }

    /** `concept_async_push`, with the frame's storage initialised. */
    method Push(f: Frame) returns (ok: bool)
      requires Valid()
      modifies this`depth, frames
      ensures ok <==> old(depth) < CAPACITY
      ensures ok ==> depth == old(depth) + 1 && frames[..depth] == old(Stack()) + [f]
      ensures !ok ==> depth == old(depth) && frames[..] == old(frames[..])
    {
      ok := depth < CAPACITY;
      if ok {
        frames[depth] := f;
        depth := depth + 1;
      }
    }

    /**
     `concept_async_adopt`: the child's frames are copied above the parent's own, with the addresses they hold
     into the child's storage.  What then runs is the stack that `AdoptedRuns` compares with the child alone.
     */
    method Adopt(child: Operation) returns (ok: bool)
      requires Valid() && child.Valid() && child != this && child.frames != frames
      modifies this`depth, frames, child`depth
      ensures ok <==> !child.completed && old(child.depth) > 0 && old(depth) + old(child.depth) <= CAPACITY
      ensures Valid() && child.Valid()
      ensures ok ==> Stack() == old(Stack()) + AllMoved(old(child.Stack())) && child.Stack() == []
      ensures ok && !completed ==>
                State() == Running(old(Stack()) + AllMoved(old(child.Stack())), outcome) &&
                old(child.State()) == Running(old(child.Stack()), child.outcome)
      ensures completed == old(completed) && outcome == old(outcome)
      ensures !ok ==> depth == old(depth) && child.depth == old(child.depth) && frames[..] == old(frames[..])
    {
      if child.completed || child.depth == 0 {
        return false;
      }
      if depth + child.depth > CAPACITY {
        return false;
      }
      hide Moved;
      for i := 0 to child.depth
        invariant depth == old(depth) && child.depth == old(child.depth) && depth + child.depth <= CAPACITY
        invariant frames[..depth + i] == old(Stack()) + AllMoved(child.frames[..i])
        invariant child.frames[..] == old(child.frames[..])
      {
        frames[depth + i] := Moved(child.frames[i]);
        assert frames[..depth + i + 1] == frames[..depth + i] + [Moved(child.frames[i])];
        assert AllMoved(child.frames[..i + 1]) == AllMoved(child.frames[..i]) + [Moved(child.frames[i])];
      }
      depth := depth + child.depth;
      child.depth := 0;
      ok := true;
    }

    /** `concept_async_finish`. */
    method Finish(v: Value) returns (ok: bool)
      requires Valid() && !completed
      modifies this
      ensures Valid() && frames[..] == old(frames[..])
      ensures ok <==> old(depth) > 0
      ensures ok ==> State() == Popped(old(frames[..depth - 1]), v) && outcome == v
    {
      if depth == 0 {
        return false;
      }
      outcome := v;
      depth := depth - 1;
      if depth == 0 {
        result := v;
        completed := true;
      }
      ok := true;
    }

    /** One dispatched state of the top frame. */
    method StepOnce(env: Env) returns (end: StepEnd)
      requires Valid() && !completed && depth > 0
      modifies this, frames
      ensures var next := AsyncMachine.Step(env, old(State()));
              match end
              case AbortCalled => next == Aborted
              case Looping => next == Stalled
              case _ => Valid() && State() == next && (end.Working? <==> !EndsCall(env, old(State())))
    {
      ghost var below := frames[..depth - 1];
      assert frames[..depth][..depth - 1] == below;
      var a := StepFrame(env, frames[depth - 1], outcome);
      if a.Goto? || a.Leave? {
        frames[depth - 1] := a.f;
        assert Stack() == below + [a.f];
        return if a.Goto? then Working else Returned;
      }
      if a.Push? {
        frames[depth - 1] := a.f;
        assert Stack() == below + [a.f];
        var ok := Push(a.child);
        if ok {
          assert Stack() == below + [a.f, a.child];
        }
        return if ok then Returned else AbortCalled;
      }
      if a.Finish? {
        var ok := Finish(a.v);
        return Returned;
      }
      return if a.Abort? then AbortCalled else Looping;
    }

    /** `concept_async_step`: dispatches states of the top frame until one ends the call. */
    method Step(env: Env, limit: nat) returns (end: StepEnd)
      requires Valid()
      modifies this, frames
      ensures match end
              case Returned => Valid() && StepCall(env, old(State()), limit) == Some(State())
              case AbortCalled => limit > 0 ==> StepCall(env, old(State()), limit) == Some(Aborted)
              case Looping => StepCall(env, old(State()), limit) == Some(Stalled)
              case Working => StepCall(env, old(State()), limit) == None
    {
      if completed {
        return Returned;
      }
      if depth == 0 {
        assert Stack() == [];
        return AbortCalled;
      }
      hide *;
      end := StepAll(env, limit);
    }

    /** The loop around the generated `switch`. */
    method StepAll(env: Env, limit: nat) returns (end: StepEnd)
      requires Valid() && !completed && depth > 0
      modifies this, frames
      ensures match end
              case Returned => Valid() && StepCall(env, old(State()), limit) == Some(State())
              case AbortCalled => StepCall(env, old(State()), limit) == Some(Aborted)
              case Looping => StepCall(env, old(State()), limit) == Some(Stalled)
              case Working => StepCall(env, old(State()), limit) == None
    {
      hide AsyncMachine.Step, EndsCall, StepFrame, StepCall;
      ghost var start := State();
      for i := 0 to limit
        invariant Valid() && !completed && depth > 0
        invariant StepCall(env, start, limit) == StepCall(env, State(), limit - i)
      {
        ghost var before := State();
        end := StepOnce(env);
        if !end.Working? {
          StepEnds(env, before, limit - i);
          return;
        }
        Continues(env, before, limit - i);
      }
      end := Working;
      NotYet(env, State());
    }
  }

  lemma NotYet(env: Env, m: Machine)
    requires m.Running?
    ensures StepCall(env, m, 0) == None
  {
  }

  lemma StepEnds(env: Env, m: Machine, limit: nat)
    requires m.Running? && m.frames != [] && limit > 0
    ensures EndsCall(env, m) ==> StepCall(env, m, limit) == Some(AsyncMachine.Step(env, m))
    ensures AsyncMachine.Step(env, m).Aborted? || AsyncMachine.Step(env, m).Stalled? ==>
              StepCall(env, m, limit) == Some(AsyncMachine.Step(env, m))
  {
  }

  lemma Continues(env: Env, m: Machine, limit: nat)
    requires m.Running? && m.frames != [] && !EndsCall(env, m) && limit > 0
    ensures AsyncMachine.Step(env, m).Running? && |AsyncMachine.Step(env, m).frames| == |m.frames|
    ensures StepCall(env, m, limit) == StepCall(env, AsyncMachine.Step(env, m), limit - 1)
  {
  }
}
