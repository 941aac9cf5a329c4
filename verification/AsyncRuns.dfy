/** Runs of the machine that stay above a given stack. */
module AsyncRuns {
  import opened AsyncSyntax
  import opened AsyncMachine
  import opened AsyncGraph

  /** The frames of `base` are untouched and another frame is on top of them. */
  predicate Above(m: Machine, base: seq<Frame>) {
    m.Running? && |m.frames| > |base| && m.frames[..|base|] == base
  }

  /** `n` steps lead from `m` to `last`, staying above `base` until then. */
  predicate ReachIn(env: Env, m: Machine, base: seq<Frame>, last: Machine, n: nat)
    decreases n
  {
    if n == 0 then m == last else Above(m, base) && ReachIn(env, Step(env, m), base, last, n - 1)
  }

  /** For `n` steps the machine neither completes nor falls back to `base`. */
  predicate Stays(env: Env, m: Machine, base: seq<Frame>, n: nat)
    decreases n
  {
    m == Aborted || m == Stalled || (Above(m, base) && (n > 0 ==> Stays(env, Step(env, m), base, n - 1)))
  }

  lemma ReachHere(env: Env, m: Machine, base: seq<Frame>)
    ensures ReachIn(env, m, base, m, 0)
  {
  }

  lemma {:induction false} ReachJoins(env: Env, m1: Machine, m2: Machine, m3: Machine, base: seq<Frame>, a: nat, b: nat)
    requires ReachIn(env, m1, base, m2, a) && ReachIn(env, m2, base, m3, b)
    ensures ReachIn(env, m1, base, m3, a + b)
    decreases a
  {
    hide Step;
    if a > 0 {
      ReachJoins(env, Step(env, m1), m2, m3, base, a - 1, b);
    }
  }

  lemma {:induction false} ReachBelow(env: Env, m1: Machine, m2: Machine, base: seq<Frame>, f: Frame, n: nat)
    requires ReachIn(env, m1, base + [f], m2, n)
    ensures ReachIn(env, m1, base, m2, n)
    decreases n
  {
    if n > 0 {
      AboveBelow(m1, base, f);
      ReachBelow(env, Step(env, m1), m2, base, f, n - 1);
    }
  }

  lemma AboveBelow(m: Machine, base: seq<Frame>, f: Frame)
    requires Above(m, base + [f])
    ensures Above(m, base)
  {
    assert m.frames[..|base|] == m.frames[..|base| + 1][..|base|];
    assert (base + [f])[..|base|] == base;
  }

  lemma {:induction false} StaysBelow(env: Env, m: Machine, base: seq<Frame>, f: Frame, n: nat)
    requires Stays(env, m, base + [f], n)
    ensures Stays(env, m, base, n)
    decreases n
  {
    if m.Running? {
      AboveBelow(m, base, f);
      if n > 0 {
        StaysBelow(env, Step(env, m), base, f, n - 1);
      }
    }
  }

  lemma {:induction false} StaysLess(env: Env, m: Machine, base: seq<Frame>, n: nat, fewer: nat)
    requires Stays(env, m, base, n) && fewer <= n
    ensures Stays(env, m, base, fewer)
    decreases n
  {
    if m.Running? && fewer > 0 {
      StaysLess(env, Step(env, m), base, n - 1, fewer - 1);
    }
  }

  /** After `a` steps above `base`, whatever stays keeps the whole run there. */
  lemma {:induction false} ReachThenStays(env: Env, m1: Machine, m2: Machine, base: seq<Frame>, a: nat, n: nat)
    requires ReachIn(env, m1, base, m2, a) && Stays(env, m2, base, n)
    ensures Stays(env, m1, base, a + n)
    decreases a
  {
    hide Step;
    if a > 0 {
      ReachThenStays(env, Step(env, m1), m2, base, a - 1, n);
    }
  }

  lemma StopsStay(env: Env, m: Machine, base: seq<Frame>, n: nat)
    requires m == Aborted || m == Stalled
    ensures Stays(env, m, base, n)
  {
  }

  lemma {:induction false} ReachIsRun(env: Env, m1: Machine, m2: Machine, base: seq<Frame>, n: nat)
    requires ReachIn(env, m1, base, m2, n)
    ensures Run(env, m1, n) == m2
    decreases n
  {
    if n > 0 {
      ReachIsRun(env, Step(env, m1), m2, base, n - 1);
    }
  }

  lemma {:induction false} StaysNeverCompletes(env: Env, m: Machine, n: nat)
    requires Stays(env, m, [], n)
    ensures !Run(env, m, n).Completed?
    decreases n
  {
    if n > 0 {
      if m.Running? {
        StaysNeverCompletes(env, Step(env, m), n - 1);
      } else {
        assert Step(env, m) == m;
        StaysNeverCompletes(env, m, n - 1);
      }
    }
  }

  lemma {:induction false} RunAdds(env: Env, m: Machine, a: nat, b: nat)
    ensures Run(env, m, a + b) == Run(env, Run(env, m, a), b)
    decreases a
  {
    if a > 0 {
      RunAdds(env, Step(env, m), a - 1, b);
    }
  }

  lemma {:induction false} StoppedStays(env: Env, m: Machine, n: nat)
    requires !m.Running?
    ensures Run(env, m, n) == m
    decreases n
  {
    if n > 0 {
      StoppedStays(env, m, n - 1);
    }
  }
}
