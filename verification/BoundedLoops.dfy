/**
 `while (c) bounded(n) ... else ...`: what the loop means, and its lowering to C, where the bound is a
 counter of an endless loop.
 */
module BoundedLoops {
  import opened Wrappers

  /** How a piece of code ends: at its end, by a `return`, or not at all. */
  datatype End<S, V> = Fell(s: S) | Left(v: Option<V>, s: S) | Failed

  /** A condition, which may change the state and may fail, a body and an `else`. */
  datatype Loop<!S, !V> = Loop(test: S -> Option<(bool, S)>, body: S -> End<S, V>, hasElse: bool, els: S -> End<S, V>)

  // ---------------------------------------------------------------------------------------------
  // The meaning

  /** How the turns of the loop come to an end. */
  datatype Stop<S, V> = Ended(s: S) | Exhausted(s: S) | Returned(v: Option<V>, s: S) | Broken

  /** The condition is tested before the bound, and the body runs at most `n` times. */
  function Turns<S, V>(l: Loop<S, V>, n: nat, s: S): Stop<S, V>
    decreases n
  {
    match l.test(s)
    case None => Broken
    case Some((false, t)) => Ended(t)
    case Some((true, t)) =>
      if n == 0 then Exhausted(t)
      else
        match l.body(t)
        case Fell(s1) => Turns(l, n - 1, s1)
        case Left(v, s1) => Returned(v, s1)
        case Failed => Broken
  }

  /** Exhaustion runs `else`; without one it panics in a verify build and ends the loop in others. */
  function Finish<S, V>(l: Loop<S, V>, verify: bool, stop: Stop<S, V>): End<S, V> {
    match stop
    case Ended(t) => Fell(t)
    case Exhausted(t) => if l.hasElse then l.els(t) else if verify then Failed else Fell(t)
    case Returned(v, t) => Left(v, t)
    case Broken => Failed
  }

  function Runs<S, V>(l: Loop<S, V>, verify: bool, n: nat, s: S): End<S, V> {
    Finish(l, verify, Turns(l, n, s))
  }

  /** The state after `k` bodies, if all of them complete under a true condition. */
  function After<S, V>(l: Loop<S, V>, k: nat, s: S): Option<S>
    decreases k
  {
    if k == 0 then Some(s)
    else
      match l.test(s)
      case Some((true, t)) => (match l.body(t) case Fell(s1) => After(l, k - 1, s1) case _ => None)
      case _ => None
  }

  ghost predicate TestsAfter<S(!new), V>(l: Loop<S, V>, k: nat, s: S, answer: bool, t: S) {
    After(l, k, s).Some? && l.test(After(l, k, s).value) == Some((answer, t))
  }

  /** The loop is exhausted exactly when the condition still holds after `n` bodies. */
  lemma {:induction false} ExhaustedIff<S(!new), V>(l: Loop<S, V>, n: nat, s: S, t: S)
    ensures Turns(l, n, s) == Exhausted(t) <==> TestsAfter(l, n, s, true, t)
    decreases n
  {
    match l.test(s)
    case Some((true, u)) =>
      if n > 0 && l.body(u).Fell? {
        ExhaustedIff(l, n - 1, l.body(u).s, t);
      }
    case _ =>
  }

  lemma LaterTests<S(!new), V>(l: Loop<S, V>, k: nat, s: S, u: S, answer: bool, t: S)
    requires l.test(s) == Some((true, u)) && l.body(u).Fell?
    ensures TestsAfter(l, k + 1, s, answer, t) <==> TestsAfter(l, k, l.body(u).s, answer, t)
  {
  }

  /** It ends exactly when the condition turns false after at most `n` bodies. */
  lemma {:induction false} EndedIff<S(!new), V>(l: Loop<S, V>, n: nat, s: S, t: S)
    ensures Turns(l, n, s) == Ended(t) <==> exists k: nat :: k <= n && TestsAfter(l, k, s, false, t)
    decreases n
  {
    hide TestsAfter;
    assert TestsAfter(l, 0, s, false, t) <==> l.test(s) == Some((false, t)) by { FirstTest(l, s, false, t); }
    match l.test(s)
    case Some((true, u)) =>
      if n > 0 && l.body(u).Fell? {
        EndedIff(l, n - 1, l.body(u).s, t);
        forall k: nat ensures TestsAfter(l, k + 1, s, false, t) <==> TestsAfter(l, k, l.body(u).s, false, t) {
          LaterTests(l, k, s, u, false, t);
        }
        if k: nat :| k <= n - 1 && TestsAfter(l, k, l.body(u).s, false, t) {
          assert TestsAfter(l, k + 1, s, false, t);
        }
        if k: nat :| k <= n && TestsAfter(l, k, s, false, t) {
          assert k > 0;
          var earlier: nat := k - 1;
          assert TestsAfter(l, earlier + 1, s, false, t) && TestsAfter(l, earlier, l.body(u).s, false, t);
        }
      } else {
        forall k: nat | k <= n && TestsAfter(l, k, s, false, t) ensures k == 0 {
          NoLaterTest(l, k, s, false, t);
        }
      }
    case _ =>
      forall k: nat | k <= n && TestsAfter(l, k, s, false, t) ensures k == 0 {
        NoLaterTest(l, k, s, false, t);
      }
  }

  lemma FirstTest<S(!new), V>(l: Loop<S, V>, s: S, answer: bool, t: S)
    ensures TestsAfter(l, 0, s, answer, t) <==> l.test(s) == Some((answer, t))
  {
  }

  lemma NoLaterTest<S(!new), V>(l: Loop<S, V>, k: nat, s: S, answer: bool, t: S)
    requires TestsAfter(l, k, s, answer, t)
    requires match l.test(s) case Some((true, u)) => !l.body(u).Fell? case _ => true
    ensures k == 0
  {
  }

  /** A `return` leaves it exactly when the body reaches one in one of the first `n` turns. */
  lemma {:induction false} ReturnedIff<S(!new), V>(l: Loop<S, V>, n: nat, s: S, v: Option<V>, r: S)
    ensures Turns(l, n, s) == Returned(v, r) <==>
            exists k: nat, t: S :: k < n && TestsAfter(l, k, s, true, t) && l.body(t) == Left(v, r)
    decreases n
  {
    hide TestsAfter;
    forall t: S ensures TestsAfter(l, 0, s, true, t) <==> l.test(s) == Some((true, t)) {
      FirstTest(l, s, true, t);
    }
    match l.test(s)
    case Some((true, u)) =>
      if n > 0 && l.body(u).Fell? {
        ReturnedIff(l, n - 1, l.body(u).s, v, r);
        forall k: nat, t: S ensures TestsAfter(l, k + 1, s, true, t) <==> TestsAfter(l, k, l.body(u).s, true, t) {
          LaterTests(l, k, s, u, true, t);
        }
        if k: nat, t: S :| k < n - 1 && TestsAfter(l, k, l.body(u).s, true, t) && l.body(t) == Left(v, r) {
          assert TestsAfter(l, k + 1, s, true, t);
        }
        if k: nat, t: S :| k < n && TestsAfter(l, k, s, true, t) && l.body(t) == Left(v, r) {
          assert k > 0;
          var earlier: nat := k - 1;
          assert TestsAfter(l, earlier + 1, s, true, t) && TestsAfter(l, earlier, l.body(u).s, true, t);
        }
      } else {
        forall k: nat, t: S | k < n && TestsAfter(l, k, s, true, t) ensures k == 0 {
          NoLaterTest(l, k, s, true, t);
        }
        if n > 0 {
          assert TestsAfter(l, 0, s, true, u);
        }
      }
    case _ =>
      forall k: nat, t: S | k < n && TestsAfter(l, k, s, true, t) ensures k == 0 {
        NoLaterTest(l, k, s, true, t);
      }
  }

  /** A verify build differs exactly when the loop is exhausted and has no `else`. */
  lemma VerifyDiffersIff<S, V>(l: Loop<S, V>, n: nat, s: S)
    ensures Runs(l, true, n, s) == Runs(l, false, n, s) <==> (l.hasElse || !Turns(l, n, s).Exhausted?)
  {
  }

  /** A bare `return` is reached, in the body or in the `else` of the exhausted loop. */
  predicate BareReached<S, V>(l: Loop<S, V>, n: nat, s: S) {
    match Turns(l, n, s)
    case Returned(v, _) => v.None?
    case Exhausted(t) => l.hasElse && l.els(t).Left? && l.els(t).v.None?
    case _ => false
  }

  // ---------------------------------------------------------------------------------------------
  // The same loop over two kinds of states

  /** What relates two loops: states at their heads, states they end in, and returned values. */
  datatype Relation<!S, !V, !T, !W> = Relation(heads: (S, T) -> bool, ends: (S, T) -> bool, values: (V, W) -> bool)

  ghost predicate SimilarEnds<S, V, T, W>(a: End<S, V>, b: End<T, W>, fell: (S, T) -> bool, r: Relation<S, V, T, W>) {
    match a
    case Fell(s) => b.Fell? && fell(s, b.s)
    case Left(v, s) =>
      b.Left? && r.ends(s, b.s) && (if v.Some? then b.v.Some? && r.values(v.value, b.v.value) else b.v.None?)
    case Failed => b.Failed?
  }

  /** One turn: the same answer of the condition, then bodies that do the same. */
  ghost predicate SimilarTurn<S, V, T, W>(a: Loop<S, V>, b: Loop<T, W>, s: S, t: T, r: Relation<S, V, T, W>) {
    match a.test(s)
    case None => b.test(t).None?
    case Some((false, u)) => b.test(t).Some? && !b.test(t).value.0 && r.ends(u, b.test(t).value.1)
    case Some((true, u)) =>
      && b.test(t).Some? && b.test(t).value.0
      && SimilarEnds(a.body(u), b.body(b.test(t).value.1), r.heads, r)
      && (if a.hasElse then SimilarEnds(a.els(u), b.els(b.test(t).value.1), r.ends, r)
          else r.ends(u, b.test(t).value.1))
  }

  /** Condition, body and `else` do the same to related states. */
  ghost predicate Similar<S(!new), V, T(!new), W>(a: Loop<S, V>, b: Loop<T, W>, r: Relation<S, V, T, W>) {
    a.hasElse == b.hasElse && forall s: S, t: T :: r.heads(s, t) ==> SimilarTurn(a, b, s, t, r)
  }

  lemma {:induction false} SimilarRuns<S(!new), V, T(!new), W>(a: Loop<S, V>, b: Loop<T, W>, r: Relation<S, V, T, W>,
                                                              verify: bool, n: nat, s: S, t: T)
    requires Similar(a, b, r) && r.heads(s, t)
    ensures SimilarEnds(Runs(a, verify, n, s), Runs(b, verify, n, t), r.ends, r)
    ensures Turns(a, n, s).Exhausted? == Turns(b, n, t).Exhausted?
    decreases n
  {
    assert SimilarTurn(a, b, s, t, r);
    match a.test(s)
    case Some((true, u)) =>
      if n > 0 && a.body(u).Fell? {
        SimilarRuns(a, b, r, verify, n - 1, a.body(u).s, b.body(b.test(t).value.1).s);
      }
    case _ =>
  }

  // ---------------------------------------------------------------------------------------------
  // Source and C

  /** Code without bounded loops, and bounded loops of code. */
  datatype Src<!S, !V> =
    | Basic(run: S -> End<S, V>)
    | While(test: S -> Option<(bool, S)>, bound: int, body: seq<Src<S, V>>, hasElse: bool, els: seq<Src<S, V>>)

  function Clamped(n: int): nat { if n < 0 then 0 else n }

  function Meaning<S, V>(verify: bool, c: Src<S, V>, s: S): End<S, V>
    decreases c, 1
  {
    match c
    case Basic(run) => run(s)
    case While(_, bound, _, _, _) => Runs(LoopOf(verify, c), verify, Clamped(bound), s)
  }

  function LoopOf<S, V>(verify: bool, c: Src<S, V>): Loop<S, V>
    requires c.While?
    decreases c, 0
  {
    Loop(c.test, (s: S) => MeaningAll(verify, c.body, s), c.hasElse, (s: S) => MeaningAll(verify, c.els, s))
  }

  function MeaningAll<S, V>(verify: bool, b: seq<Src<S, V>>, s: S): End<S, V>
    decreases b, 0
  {
    if b == [] then Fell(s)
    else match Meaning(verify, b[0], s) case Fell(s1) => MeaningAll(verify, b[1..], s1) case e => e
  }

  datatype CStmt<!S, !V> =
    | Plain(run: S -> End<S, V>)
    | SetCounter(c: nat, n: int)
    | Raise(c: nat)
    | BreakUnless(test: S -> Option<(bool, S)>)
    | IfAtLeast(c: nat, n: int, thn: seq<CStmt<S, V>>)
    | Panic
    | Break
    | Forever(body: seq<CStmt<S, V>>)

  type Counters = map<nat, int>

  datatype COut<S, V> =
    | Next(s: S, cs: Counters)
    | Broke(s: S, cs: Counters)
    | Gone(v: Option<V>, s: S)
    | Panicked
    | OutOfFuel

  function CounterAt(cs: Counters, c: nat): int {
    if c in cs then cs[c] else 0
  }

  function ExecC<S, V>(st: CStmt<S, V>, s: S, cs: Counters, fuel: nat): COut<S, V>
    decreases fuel, st, 1
  {
    match st
    case Plain(run) => (match run(s) case Fell(t) => Next(t, cs) case Left(v, t) => Gone(v, t) case Failed => Panicked)
    case SetCounter(c, n) => Next(s, cs[c := n])
    case Raise(c) => Next(s, cs[c := CounterAt(cs, c) + 1])
    case BreakUnless(test) =>
      (match test(s) case None => Panicked case Some((b, t)) => if b then Next(t, cs) else Broke(t, cs))
    case IfAtLeast(c, n, thn) => if CounterAt(cs, c) >= n then ExecAllC(thn, s, cs, fuel) else Next(s, cs)
    case Panic => Panicked
    case Break => Broke(s, cs)
    case Forever(body) =>
      if fuel == 0 then OutOfFuel
      else
        match ExecAllC(body, s, cs, fuel - 1)
        case Next(t, cs1) => ExecC(st, t, cs1, fuel - 1)
        case Broke(t, cs1) => Next(t, cs1)
        case o => o
  }

  function ExecAllC<S, V>(b: seq<CStmt<S, V>>, s: S, cs: Counters, fuel: nat): COut<S, V>
    decreases fuel, b, 0
  {
    if b == [] then Next(s, cs)
    else match ExecC(b[0], s, cs, fuel) case Next(t, cs1) => ExecAllC(b[1..], t, cs1, fuel) case o => o
  }

  /** `lowerWhileStmt`: a fresh counter, tested after the condition and raised before the body. */
  function Lower<S, V>(verify: bool, c: Src<S, V>, temps: nat): (r: (seq<CStmt<S, V>>, nat))
    ensures temps <= r.1
    decreases c, 0
  {
    match c
    case Basic(run) => ([Plain(run)], temps)
    case While(test, bound, body, hasElse, els) =>
      var (elseCode, t1) :=
        if hasElse then LowerAll(verify, els, temps + 1) else (if verify then [Panic] else [], temps + 1);
      var (bodyCode, t2) := LowerAll(verify, body, t1);
      ([SetCounter(temps, 0), Forever(Turn(test, temps, bound, elseCode, bodyCode))], t2)
  }

  function Turn<S, V>(test: S -> Option<(bool, S)>, c: nat, bound: int, elseCode: seq<CStmt<S, V>>,
                      bodyCode: seq<CStmt<S, V>>)
    : seq<CStmt<S, V>>
  {
    [BreakUnless(test), IfAtLeast(c, bound, elseCode + [Break]), Raise(c)] + bodyCode
  }

  function LowerAll<S, V>(verify: bool, b: seq<Src<S, V>>, temps: nat): (r: (seq<CStmt<S, V>>, nat))
    ensures temps <= r.1
    decreases b, 0
  {
    if b == [] then ([], temps)
    else
      var (first, t1) := Lower(verify, b[0], temps);
      var (rest, t2) := LowerAll(verify, b[1..], t1);
      (first + rest, t2)
  }

  // ---------------------------------------------------------------------------------------------
  // The lowering is right

  /** Fuel that is enough for the endless loops of the lowered code. */
  function Need<S, V>(c: Src<S, V>): nat
    decreases c, 0
  {
    match c
    case Basic(_) => 0
    case While(_, bound, body, _, els) => Clamped(bound) + 1 + NeedAll(body) + NeedAll(els)
  }

  function NeedAll<S, V>(b: seq<Src<S, V>>): nat
    decreases b, 0
  {
    if b == [] then 0 else Need(b[0]) + NeedAll(b[1..])
  }

  /** Counters of enclosing loops are untouched. */
  predicate Untouched(cs: Counters, after: Counters, temps: nat) {
    forall c: nat :: c < temps ==> CounterAt(after, c) == CounterAt(cs, c)
  }

  ghost predicate Same<S(!new), V>(o: COut<S, V>, e: End<S, V>, cs: Counters, temps: nat) {
    match e
    case Fell(t) => o.Next? && o.s == t && Untouched(cs, o.cs, temps)
    case Left(v, t) => o == Gone(v, t)
    case Failed => o == Panicked
  }

  lemma {:induction false} AppendC<S, V>(a: seq<CStmt<S, V>>, b: seq<CStmt<S, V>>, s: S, cs: Counters, fuel: nat)
    ensures ExecAllC(a + b, s, cs, fuel) ==
            match ExecAllC(a, s, cs, fuel) case Next(t, cs1) => ExecAllC(b, t, cs1, fuel) case o => o
    decreases a
  {
    if a == [] {
      assert a + b == b;
    } else {
      assert (a + b)[1..] == a[1..] + b;
      match ExecC(a[0], s, cs, fuel) {
        case Next(t, cs1) => AppendC(a[1..], b, t, cs1, fuel);
        case _ =>
      }
    }
  }

  lemma OneC<S, V>(st: CStmt<S, V>, s: S, cs: Counters, fuel: nat)
    ensures ExecAllC([st], s, cs, fuel) == ExecC(st, s, cs, fuel)
  {
    assert [st][1..] == [];
  }

  lemma {:induction false} LoweredMeans<S(!new), V>(
    verify: bool, c: Src<S, V>, temps: nat, s: S, cs: Counters, fuel: nat)
    requires fuel >= Need(c)
    ensures Same(ExecAllC(Lower(verify, c, temps).0, s, cs, fuel), Meaning(verify, c, s), cs, temps)
    decreases c, 1
  {
    match c
    case Basic(run) => OneC(Plain(run), s, cs, fuel);
    case While(test, bound, body, hasElse, els) =>
      hide ExecC, ExecAllC, Meaning, Runs, LowerAll;
      var (elseCode, t1) :=
        if hasElse then LowerAll(verify, els, temps + 1) else (if verify then [Panic] else [], temps + 1);
      var (bodyCode, t2) := LowerAll(verify, body, t1);
      var loop := Forever(Turn(test, temps, bound, elseCode, bodyCode));
      WhileEnters(loop, temps, s, cs, fuel);
      LoopMeans(verify, c, temps, 0, s, cs[temps := 0], fuel);
      WhileMeaning(verify, c, s);
      Weaker(ExecC(loop, s, cs[temps := 0], fuel), Meaning(verify, c, s), cs, cs[temps := 0], temps);
  }

  lemma WhileEnters<S, V>(loop: CStmt<S, V>, c: nat, s: S, cs: Counters, fuel: nat)
    ensures ExecAllC([SetCounter(c, 0), loop], s, cs, fuel) == ExecC(loop, s, cs[c := 0], fuel)
  {
    assert [SetCounter(c, 0), loop][1..] == [loop];
    OneC(loop, s, cs[c := 0], fuel);
  }

  lemma WhileMeaning<S, V>(verify: bool, c: Src<S, V>, s: S)
    requires c.While?
    ensures Meaning(verify, c, s) == Runs(LoopOf(verify, c), verify, Clamped(c.bound), s)
  {
  }

  lemma Weaker<S(!new), V>(o: COut<S, V>, e: End<S, V>, cs: Counters, inner: Counters, temps: nat)
    requires Same(o, e, inner, temps) && Untouched(cs, inner, temps)
    ensures Same(o, e, cs, temps)
  {
  }

  /** The loop as it stands after `i` bodies. */
  lemma {:induction false} LoopMeans<S(!new), V>(
    verify: bool, c: Src<S, V>, temps: nat, i: nat, s: S, cs: Counters, fuel: nat)
    requires c.While? && CounterAt(cs, temps) == i && i <= Clamped(c.bound)
    requires fuel > Clamped(c.bound) - i + NeedAll(c.body) + NeedAll(c.els)
    ensures var (elseCode, t1) :=
              if c.hasElse then LowerAll(verify, c.els, temps + 1) else (if verify then [Panic] else [], temps + 1);
            var loop := Forever(Turn(c.test, temps, c.bound, elseCode, LowerAll(verify, c.body, t1).0));
            Same(ExecC(loop, s, cs, fuel), Runs(LoopOf(verify, c), verify, Clamped(c.bound) - i, s), cs, temps)
    decreases c, 0, Clamped(c.bound) - i
  {
    hide LowerAll, MeaningAll, ExecAllC;
    var (elseCode, t1) :=
      if c.hasElse then LowerAll(verify, c.els, temps + 1) else (if verify then [Panic] else [], temps + 1);
    var bodyCode := LowerAll(verify, c.body, t1).0;
    var loop := Forever(Turn(c.test, temps, c.bound, elseCode, bodyCode));
    var l := LoopOf(verify, c);
    match c.test(s)
    case Some((true, t)) =>
      if i >= c.bound {
        TurnExhausted(c.test, temps, c.bound, elseCode, bodyCode, s, t, cs, fuel - 1);
        if c.hasElse {
          AllLoweredMeans(verify, c.els, temps + 1, t, cs, fuel - 1);
        } else {
          NoElse<S, V>(verify, t, cs, fuel - 1);
        }
      } else {
        TurnRuns(c.test, temps, c.bound, elseCode, bodyCode, s, t, cs, fuel - 1);
        var cs1 := cs[temps := i + 1];
        AllLoweredMeans(verify, c.body, t1, t, cs1, fuel - 1);
        var o := ExecAllC(bodyCode, t, cs1, fuel - 1);
        if o.Next? {
          LoopMeans(verify, c, temps, i + 1, o.s, o.cs, fuel - 1);
        }
      }
    case _ => TurnEnds(c.test, temps, c.bound, elseCode, bodyCode, s, cs, fuel - 1);
  }

  lemma NoElse<S, V>(verify: bool, s: S, cs: Counters, fuel: nat)
    ensures ExecAllC<S, V>(if verify then [Panic] else [], s, cs, fuel) == if verify then Panicked else Next(s, cs)
  {
  }

  lemma TurnEnds<S, V>(test: S -> Option<(bool, S)>, c: nat, bound: int, elseCode: seq<CStmt<S, V>>,
                       bodyCode: seq<CStmt<S, V>>, s: S, cs: Counters, fuel: nat)
    requires match test(s) case Some((true, _)) => false case _ => true
    ensures ExecAllC(Turn(test, c, bound, elseCode, bodyCode), s, cs, fuel) ==
            match test(s) case Some((_, t)) => Broke(t, cs) case None => Panicked
  {
  }

  lemma TurnExhausted<S, V>(test: S -> Option<(bool, S)>, c: nat, bound: int, elseCode: seq<CStmt<S, V>>,
                            bodyCode: seq<CStmt<S, V>>, s: S, t: S, cs: Counters, fuel: nat)
    requires test(s) == Some((true, t)) && CounterAt(cs, c) >= bound
    ensures ExecAllC(Turn(test, c, bound, elseCode, bodyCode), s, cs, fuel) ==
            match ExecAllC(elseCode, t, cs, fuel) case Next(u, cs1) => Broke(u, cs1) case o => o
  {
    var b := Turn(test, c, bound, elseCode, bodyCode);
    AppendC(elseCode, [Break], t, cs, fuel);
    forall u: S, cs1: Counters ensures ExecAllC<S, V>([Break], u, cs1, fuel) == Broke(u, cs1) {
      OneC<S, V>(Break, u, cs1, fuel);
    }
    var rest := b[1..];
    assert ExecAllC(b, s, cs, fuel) == ExecAllC(rest, t, cs, fuel);
    assert rest[0] == IfAtLeast(c, bound, elseCode + [Break]);
    var o := ExecC(rest[0], t, cs, fuel);
    assert o == ExecAllC(elseCode + [Break], t, cs, fuel) && !o.Next?;
    assert ExecAllC(rest, t, cs, fuel) == o;
  }

  lemma TurnRuns<S, V>(test: S -> Option<(bool, S)>, c: nat, bound: int, elseCode: seq<CStmt<S, V>>,
                       bodyCode: seq<CStmt<S, V>>, s: S, t: S, cs: Counters, fuel: nat)
    requires test(s) == Some((true, t)) && CounterAt(cs, c) < bound
    ensures ExecAllC(Turn(test, c, bound, elseCode, bodyCode), s, cs, fuel) ==
            ExecAllC(bodyCode, t, cs[c := CounterAt(cs, c) + 1], fuel)
  {
    var b := Turn(test, c, bound, elseCode, bodyCode);
    assert ExecAllC(b, s, cs, fuel) == ExecAllC(b[1..], t, cs, fuel);
    var raised := [Raise(c)] + bodyCode;
    assert b[1..][1..] == raised && raised[1..] == bodyCode;
    assert ExecAllC(b[1..], t, cs, fuel) == ExecAllC(raised, t, cs, fuel);
    var cs1 := cs[c := CounterAt(cs, c) + 1];
    assert ExecC(raised[0], t, cs, fuel) == Next(t, cs1);
    assert ExecAllC(raised, t, cs, fuel) == ExecAllC(raised[1..], t, cs1, fuel);
  }

  lemma {:induction false} AllLoweredMeans<S(!new), V>(
    verify: bool, b: seq<Src<S, V>>, temps: nat, s: S, cs: Counters, fuel: nat)
    requires fuel >= NeedAll(b)
    ensures Same(ExecAllC(LowerAll(verify, b, temps).0, s, cs, fuel), MeaningAll(verify, b, s), cs, temps)
    decreases b, 0
  {
    hide ExecAllC, Lower, Meaning;
    if b == [] {
      NothingC<S, V>(s, cs, fuel);
    } else {
      var (first, t1) := Lower(verify, b[0], temps);
      var rest := LowerAll(verify, b[1..], t1).0;
      AppendC(first, rest, s, cs, fuel);
      LoweredMeans(verify, b[0], temps, s, cs, fuel);
      match Meaning(verify, b[0], s) {
        case Fell(s1) => AllLoweredMeans(verify, b[1..], t1, s1, ExecAllC(first, s, cs, fuel).cs, fuel);
        case _ =>
      }
    }
  }

  lemma NothingC<S, V>(s: S, cs: Counters, fuel: nat)
    ensures ExecAllC<S, V>([], s, cs, fuel) == Next(s, cs)
  {
  }

  // ---------------------------------------------------------------------------------------------
  // One loop, with its parts given

  function AsSource<S, V>(l: Loop<S, V>, n: int): Src<S, V> {
    While(l.test, n, [Basic(l.body)], l.hasElse, [Basic(l.els)])
  }

  function EndOf<S, V>(o: COut<S, V>): Option<End<S, V>> {
    match o
    case Next(t, _) => Some(Fell(t))
    case Gone(v, t) => Some(Left(v, t))
    case Panicked => Some(Failed)
    case _ => None
  }

  /** The loop as ordinary C runs it. */
  function InC<S, V>(l: Loop<S, V>, verify: bool, n: int, s: S): Option<End<S, V>> {
    EndOf(ExecAllC(Lower(verify, AsSource(l, n), 0).0, s, map[], Clamped(n) + 1))
  }

  /** The lowered loop ends as the loop means. */
  lemma CLoopMeans<S(!new), V>(l: Loop<S, V>, verify: bool, n: int, s: S)
    ensures InC(l, verify, n, s) == Some(Runs(l, verify, Clamped(n), s))
  {
    var c := AsSource(l, n);
    hide ExecAllC, Lower;
    assert [Basic(l.body)][1..] == [] && [Basic(l.els)][1..] == [];
    assert NeedAll(c.body) == Need(c.body[0]) + NeedAll(c.body[1..]) == 0;
    assert NeedAll(c.els) == Need(c.els[0]) + NeedAll(c.els[1..]) == 0;
    assert Need(c) == Clamped(n) + 1;
    LoweredMeans(verify, c, 0, s, map[], Clamped(n) + 1);
    SameTurns(l, LoopOf(verify, c), Clamped(n), s) by {
      forall t: S ensures LoopOf(verify, c).body(t) == l.body(t) && LoopOf(verify, c).els(t) == l.els(t) {
        OneSource(verify, l.body, t);
        OneSource(verify, l.els, t);
      }
    }
    WhileMeaning(verify, c, s);
  }

  lemma OneSource<S, V>(verify: bool, run: S -> End<S, V>, t: S)
    ensures MeaningAll(verify, [Basic(run)], t) == run(t)
  {
    assert [Basic(run)][1..] == [];
  }

  lemma {:induction false} SameTurns<S(!new), V>(a: Loop<S, V>, b: Loop<S, V>, n: nat, s: S)
    requires a.test == b.test && a.hasElse == b.hasElse
    requires forall t: S :: a.body(t) == b.body(t) && a.els(t) == b.els(t)
    ensures Turns(a, n, s) == Turns(b, n, s)
    ensures forall verify :: Runs(a, verify, n, s) == Runs(b, verify, n, s)
    decreases n
  {
    match a.test(s)
    case Some((true, t)) =>
      if n > 0 && a.body(t).Fell? {
        SameTurns(a, b, n - 1, a.body(t).s);
      }
    case _ =>
  }
}
