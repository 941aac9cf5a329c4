/**
 When branches agree on what they move, and no failure is tested between a move and its hand-over, every owner
 is handed over or dropped exactly once on every path, and whatever is dropped is at that moment the latest
 initialised of all that is owned.
 */
module OwnershipExact {
  import opened Wrappers
  import opened OwnershipLowering
  import opened OwnershipNames
  import opened OwnershipSafety

  // ---------------------------------------------------------------------------------------------
  // Programs whose branches agree

  /** Moves are of live owners; the ownership validator rejects the others. */
  predicate MovesLive(st: State, es: seq<Effect>)
    decreases es
  {
    es == [] || (PartFits(st, es[0]) && MovesLive(LowerPart(st, es[0]).st, es[1..]))
  }

  predicate PartFits(st: State, e: Effect)
    decreases e
  {
    match e
    case Move(x) => MovesOwner(st.scopes, e) ==> IsLive(st.live, Lookup(st.scopes, x).value.c)
    case Propagate(operand) => MovesLive(st, operand)
    case Complete(operand) => MovesLive(st, operand)
  }

  /**
   No failure is tested while a moved owner is still to be handed over; `waiting` says that one is from the
   start.
   */
  predicate Prompt(scopes: seq<Scope>, es: seq<Effect>, waiting: bool)
    decreases es
  {
    es == [] || (PartPrompt(scopes, es[0], waiting) && Prompt(scopes, es[1..], waiting || MovesOwner(scopes, es[0])))
  }

  predicate PartPrompt(scopes: seq<Scope>, e: Effect, waiting: bool)
    decreases e
  {
    match e
    case Move(_) => true
    case Propagate(operand) => !waiting && Prompt(scopes, operand, false)
    case Complete(operand) => Prompt(scopes, operand, waiting)
  }

  /** The same owners of the surrounding scopes are live. */
  predicate Agree(order: seq<seq<CName>>, a: Live, b: Live) {
    forall c :: c in Flat(order) ==> IsLive(a, c) == IsLive(b, c)
  }

  /** Some path through the statement comes out at its end. */
  predicate CanFall(s: Stmt) {
    match s
    case Return(_) => false
    case Block(b) => AllFall(b)
    case If(_, t, h, f) => !h || AllFall(t) || AllFall(f)
    case _ => true
  }

  predicate AllFall(b: seq<Stmt>) {
    b == [] || (CanFall(b[0]) && AllFall(b[1..]))
  }

  /** Every move that can be reached is of a live owner. */
  predicate StmtFits(st: State, s: Stmt)
    requires Deep(st)
    decreases s, 1
  {
    match s
    case Declare(_, _, es) => MovesLive(st, es)
    case Do(es) => MovesLive(st, es)
    case Return(es) => MovesLive(st, es)
    case Block(b) => BlockFits(st, b)
    case If(_, _, _, _) =>
      var st1 := LowerEffects(st, s.cond).1;
      && MovesLive(st, s.cond) && BlockFits(st1, s.thn)
      && (s.hasElse ==> BlockFits(LowerBlock(st1, s.thn).1.(live := st1.live), s.els))
  }

  predicate AllFits(st: State, b: seq<Stmt>)
    requires Deep(st)
    decreases b, 0
  {
    b == [] || (StmtFits(st, b[0]) && (CanFall(b[0]) ==> AllFits(LowerStmt(st, b[0]).1, b[1..])))
  }

  predicate BlockFits(st: State, b: seq<Stmt>)
    requires Deep(st)
    decreases b, 1
  {
    AllFits(Push(st), b)
  }

  /** The expressions of a statement that are evaluated outside its blocks. */
  function Direct(s: Stmt): seq<Effect> {
    match s
    case Declare(_, _, es) => es
    case Do(es) => es
    case Return(es) => es
    case If(cond, _, _, _) => cond
    case Block(_) => []
  }

  /** The live maps of the branches that meet after an `if` agree. */
  predicate BranchesMeet(st: State, s: Stmt)
    requires Deep(st) && s.If?
  {
    var st1 := LowerEffects(st, s.cond).1;
    var st2 := LowerBlock(st1, s.thn).1;
    if s.hasElse then
      || EndsInReturn(s.thn) || EndsInReturn(s.els)
      || Agree(st.order, st2.live, LowerBlock(st2.(live := st1.live), s.els).1.live)
    else EndsInReturn(s.thn) || Agree(st.order, st2.live, st1.live)
  }

  /** Branches that do not end in a return agree on what is left, at every `if` that can be reached. */
  predicate StmtAgrees(st: State, s: Stmt)
    requires Deep(st)
    decreases s, 1
  {
    match s
    case Block(b) => BlockAgrees(st, b)
    case If(_, _, _, _) =>
      var st1 := LowerEffects(st, s.cond).1;
      && BlockAgrees(st1, s.thn)
      && (s.hasElse ==> BlockAgrees(LowerBlock(st1, s.thn).1.(live := st1.live), s.els))
      && BranchesMeet(st, s)
    case _ => true
  }

  predicate AllAgree(st: State, b: seq<Stmt>)
    requires Deep(st)
    decreases b, 0
  {
    b == [] || (StmtAgrees(st, b[0]) && (CanFall(b[0]) ==> AllAgree(LowerStmt(st, b[0]).1, b[1..])))
  }

  predicate BlockAgrees(st: State, b: seq<Stmt>)
    requires Deep(st)
    decreases b, 1
  {
    AllAgree(Push(st), b)
  }

  /** At every expression that can be reached, no failure is tested between a move and its hand-over. */
  predicate StmtPrompt(st: State, s: Stmt)
    requires Deep(st)
    decreases s, 1
  {
    && Prompt(st.scopes, Direct(s), false)
    && match s
       case Block(b) => BlockPrompt(st, b)
       case If(_, _, _, _) =>
         var st1 := LowerEffects(st, s.cond).1;
         BlockPrompt(st1, s.thn) && (s.hasElse ==> BlockPrompt(LowerBlock(st1, s.thn).1.(live := st1.live), s.els))
       case _ => true
  }

  predicate AllPrompt(st: State, b: seq<Stmt>)
    requires Deep(st)
    decreases b, 0
  {
    b == [] || (StmtPrompt(st, b[0]) && (CanFall(b[0]) ==> AllPrompt(LowerStmt(st, b[0]).1, b[1..])))
  }

  predicate BlockPrompt(st: State, b: seq<Stmt>)
    requires Deep(st)
    decreases b, 1
  {
    AllPrompt(Push(st), b)
  }

  /** Both at once. */
  predicate StmtOrderly(st: State, s: Stmt)
    requires Deep(st)
    decreases s, 1
  {
    && Prompt(st.scopes, Direct(s), false)
    && match s
       case Block(b) => BlockOrderly(st, b)
       case If(_, _, _, _) =>
         var st1 := LowerEffects(st, s.cond).1;
         && BlockOrderly(st1, s.thn)
         && (s.hasElse ==> BlockOrderly(LowerBlock(st1, s.thn).1.(live := st1.live), s.els))
         && BranchesMeet(st, s)
       case _ => true
  }

  predicate AllOrderly(st: State, b: seq<Stmt>)
    requires Deep(st)
    decreases b, 0
  {
    b == [] || (StmtOrderly(st, b[0]) && (CanFall(b[0]) ==> AllOrderly(LowerStmt(st, b[0]).1, b[1..])))
  }

  predicate BlockOrderly(st: State, b: seq<Stmt>)
    requires Deep(st)
    decreases b, 1
  {
    AllOrderly(Push(st), b)
  }

  lemma {:induction false} OrderlyIsBoth(st: State, b: seq<Stmt>)
    requires Deep(st)
    ensures BlockOrderly(st, b) <==> BlockAgrees(st, b) && BlockPrompt(st, b)
    decreases b, 1
  {
    AllOrderlyIsBoth(Push(st), b);
  }

  lemma {:induction false} AllOrderlyIsBoth(st: State, b: seq<Stmt>)
    requires Deep(st)
    ensures AllOrderly(st, b) <==> AllAgree(st, b) && AllPrompt(st, b)
    decreases b, 0
  {
    hide StmtOrderly, StmtAgrees, StmtPrompt, LowerStmt, CanFall;
    if b != [] {
      StmtOrderlyIsBoth(st, b[0]);
      AllOrderlyIsBoth(LowerStmt(st, b[0]).1, b[1..]);
    }
  }

  lemma {:induction false} StmtOrderlyIsBoth(st: State, s: Stmt)
    requires Deep(st)
    ensures StmtOrderly(st, s) <==> StmtAgrees(st, s) && StmtPrompt(st, s)
    decreases s, 1
  {
    hide BlockOrderly, BlockAgrees, BlockPrompt, LowerEffects, LowerBlock, Prompt, BranchesMeet;
    match s
    case Block(b) => OrderlyIsBoth(st, b);
    case If(_, _, _, _) =>
      var st1 := LowerEffects(st, s.cond).1;
      OrderlyIsBoth(st1, s.thn);
      OrderlyIsBoth(LowerBlock(st1, s.thn).1.(live := st1.live), s.els);
    case _ =>
  }

  // ---------------------------------------------------------------------------------------------
  // Statements that do not come out at their end

  lemma {:induction false} ReturnCannotFall(b: seq<Stmt>)
    requires EndsInReturn(b)
    ensures !AllFall(b)
    decreases b, 1
  {
    if |b| == 1 {
      StmtReturnCannotFall(b[0]);
    } else {
      assert b[1..][|b| - 2] == b[|b| - 1];
      ReturnCannotFall(b[1..]);
    }
  }

  lemma {:induction false} StmtReturnCannotFall(s: Stmt)
    requires StmtReturns(s)
    ensures !CanFall(s)
    decreases s, 0
  {
    match s
    case Return(_) =>
    case Block(b) => ReturnCannotFall(b);
    case If(_, t, _, f) =>
      ReturnCannotFall(t);
      ReturnCannotFall(f);
    case Declare(_, _, _) =>
    case Do(_) =>
  }

  lemma {:induction false} StmtStops(strict: bool, st: State, s: Stmt, owned: seq<CName>, choices: seq<bool>)
    requires Deep(st) && !CanFall(s)
    ensures !Exec(strict, LowerStmt(st, s).0, owned, choices).Fell?
    decreases s, 1
  {
    hide LowerEffects, LowerBlock, Exec;
    match s
    case Return(es) =>
      var (code, st1) := LowerEffects(st, es);
      var drops := AllDrops(st1.order, st1.live).0;
      ExecJoin(strict, code + drops, [Exit], owned, choices);
      var mid := Exec(strict, code + drops, owned, choices);
      if mid.Fell? {
        ExecSingle(strict, Exit, mid.owned, mid.choices);
      }
    case Block(b) => BlockStops(strict, st, b, owned, choices);
    case If(_, _, _, _) =>
      var (cond, st1) := LowerEffects(st, s.cond);
      var (thn, st2) := LowerBlock(st1, s.thn);
      var els := LowerBlock(st2.(live := st1.live), s.els).0;
      BranchRuns(strict, cond, thn, els, owned, choices);
      var mid := Exec(strict, cond, owned, choices);
      if mid.Fell? {
        BlockStops(strict, st1, s.thn, mid.owned, Tail(mid.choices));
        BlockStops(strict, st2.(live := st1.live), s.els, mid.owned, Tail(mid.choices));
      }
    case Declare(_, _, _) =>
    case Do(_) =>
  }

  lemma {:induction false} AllStop(strict: bool, st: State, b: seq<Stmt>, owned: seq<CName>, choices: seq<bool>)
    requires Deep(st) && !AllFall(b)
    ensures !Exec(strict, LowerAll(st, b).0, owned, choices).Fell?
    decreases b, 0
  {
    hide LowerStmt, CanFall, Exec;
    var (first, st1) := LowerStmt(st, b[0]);
    ExecJoin(strict, first, LowerAll(st1, b[1..]).0, owned, choices);
    var mid := Exec(strict, first, owned, choices);
    if !CanFall(b[0]) {
      StmtStops(strict, st, b[0], owned, choices);
    } else if mid.Fell? {
      AllStop(strict, st1, b[1..], mid.owned, mid.choices);
    }
  }

  lemma {:induction false} BlockStops(strict: bool, st: State, b: seq<Stmt>, owned: seq<CName>, choices: seq<bool>)
    requires Deep(st) && !AllFall(b)
    ensures !Exec(strict, LowerBlock(st, b).0, owned, choices).Fell?
    decreases b, 1
  {
    hide LowerAll, ScopeDrops, Exec;
    var (code, st1) := LowerAll(Push(st), b);
    AllStop(strict, Push(st), b, owned, choices);
    ExecJoin(strict, code, ScopeDrops(st1.order[|st1.order| - 1], st1.live).0, owned, choices);
  }

  lemma ReturnStops(st: State, b: seq<Stmt>, owned: seq<CName>, choices: seq<bool>)
    requires Deep(st)
    ensures EndsInReturn(b) ==> !Exec(true, LowerBlock(st, b).0, owned, choices).Fell?
  {
    hide LowerBlock, EndsInReturn;
    if EndsInReturn(b) {
      ReturnCannotFall(b);
      BlockStops(true, st, b, owned, choices);
    }
  }

  lemma BranchRuns(strict: bool, cond: seq<Code>, thn: seq<Code>, els: seq<Code>, owned: seq<CName>, choices: seq<bool>)
    ensures Exec(strict, cond + [Branch(thn, els)], owned, choices) ==
            match Exec(strict, cond, owned, choices)
            case Fell(o, cs) => if Head(cs) then Exec(strict, thn, o, Tail(cs)) else Exec(strict, els, o, Tail(cs))
            case end => end
  {
    ExecJoin(strict, cond, [Branch(thn, els)], owned, choices);
    var mid := Exec(strict, cond, owned, choices);
    if mid.Fell? {
      ExecSingle(strict, Branch(thn, els), mid.owned, mid.choices);
    }
  }

  // ---------------------------------------------------------------------------------------------
  // The live owners in order

  function Filter(names: seq<CName>, live: Live): seq<CName> {
    if names == [] then []
    else
      var c := names[|names| - 1];
      Filter(names[..|names| - 1], live) + (if IsLive(live, c) then [c] else [])
  }

  lemma {:induction false} FilterJoin(a: seq<CName>, b: seq<CName>, live: Live)
    ensures Filter(a + b, live) == Filter(a, live) + Filter(b, live)
  {
    if b == [] {
      assert a + b == a;
    } else {
      assert (a + b)[..|a + b| - 1] == a + b[..|b| - 1];
      FilterJoin(a, b[..|b| - 1], live);
    }
  }

  lemma {:induction false} FilterSame(names: seq<CName>, a: Live, b: Live)
    requires forall c :: c in names ==> IsLive(a, c) == IsLive(b, c)
    ensures Filter(names, a) == Filter(names, b)
  {
    if names != [] {
      FilterSame(names[..|names| - 1], a, b);
    }
  }

  lemma {:induction false} FilterHas(names: seq<CName>, live: Live, c: CName)
    ensures c in Filter(names, live) <==> c in names && IsLive(live, c)
  {
    if names != [] {
      FilterHas(names[..|names| - 1], live, c);
      assert names == names[..|names| - 1] + [names[|names| - 1]];
    }
  }

  lemma {:induction false} FilterRelease(names: seq<CName>, live: Live, c: CName)
    requires Distinct(names) && c in names && IsLive(live, c)
    ensures Released(Filter(names, live), c) == Filter(names, live[c := false])
  {
    var last := |names| - 1;
    var d := names[last];
    assert names == names[..last] + [d];
    DistinctParts(names[..last], [d]);
    assert d in [d];
    if d == c {
      FilterSame(names[..last], live, live[c := false]);
    } else {
      FilterRelease(names[..last], live, c);
      if IsLive(live, d) {
        var all := Filter(names[..last], live) + [d];
        assert all[..|all| - 1] == Filter(names[..last], live);
      } else {
        assert Filter(names[..last], live) + [] == Filter(names[..last], live);
        assert Filter(names[..last], live[c := false]) + [] == Filter(names[..last], live[c := false]);
      }
    }
  }

  // ---------------------------------------------------------------------------------------------
  // Strict runs

  /** What is owned is exactly what is statically live, in order. */
  ghost predicate Tracks(st: State, end: End) {
    match end
    case Fell(owned, _) => owned == Filter(Flat(st.order), st.live)
    case Exited(owned) => owned == []
    case Wrong(_) => false
  }

  lemma {:induction false} DropsInOrder(below: seq<CName>, names: seq<CName>, live: Live, choices: seq<bool>)
    requires Distinct(names)
    ensures Exec(true, ScopeDrops(names, live).0, below + Filter(names, live), choices) == Fell(below, choices)
    decreases |names|
  {
    if names == [] {
      assert below + Filter(names, live) == below;
    } else {
      var last := |names| - 1;
      var c := names[last];
      assert names == names[..last] + [c];
      DistinctParts(names[..last], [c]);
      assert c in [c];
      if IsLive(live, c) {
        var owned := below + Filter(names, live);
        FilterSame(names[..last], live, live[c := false]);
        assert owned[|owned| - 1] == c && owned[..|owned| - 1] == below + Filter(names[..last], live[c := false]);
        var code := ScopeDrops(names[..last], live[c := false]).0;
        assert ([Drop(c)] + code)[0] == Drop(c) && ([Drop(c)] + code)[1..] == code;
        DropsInOrder(below, names[..last], live[c := false], choices);
      } else {
        assert Filter(names, live) == Filter(names[..last], live);
        DropsInOrder(below, names[..last], live, choices);
      }
    }
  }

  lemma {:induction false} AllDropsInOrder(order: seq<seq<CName>>, live: Live, choices: seq<bool>)
    requires Distinct(Flat(order))
    ensures Exec(true, AllDrops(order, live).0, Filter(Flat(order), live), choices) == Fell([], choices)
    decreases |order|
  {
    if order != [] {
      var names, rest := order[|order| - 1], order[..|order| - 1];
      var (inner, l1) := ScopeDrops(names, live);
      var outer := AllDrops(rest, l1).0;
      DistinctParts(Flat(rest), names);
      FilterJoin(Flat(rest), names, live);
      DropsInOrder(Filter(Flat(rest), live), names, live, choices);
      ScopeDropsLive(names, live);
      FilterSame(Flat(rest), live, l1);
      AllDropsInOrder(rest, l1, choices);
      ExecJoin(true, inner, outer, Filter(Flat(order), live), choices);
    }
  }

  /** The owners still to be handed over count as live. */
  function Held(live: Live, waiting: seq<CName>): Live {
    live + map c | c in waiting :: true
  }

  /** Owners still to be handed over, each moved once. */
  ghost predicate Off(live: Live, waiting: seq<CName>) {
    Distinct(waiting) && forall c :: c in waiting ==> !IsLive(live, c)
  }

  ghost predicate Waiting(st: State, waiting: seq<CName>) {
    Off(st.live, waiting) && forall c :: c in waiting ==> c in Flat(st.order)
  }

  /** What is owned while the values in `waiting` are still to be handed over. */
  function Owned(st: State, waiting: seq<CName>): seq<CName> {
    Filter(Flat(st.order), Held(st.live, waiting))
  }

  ghost predicate TracksHeld(st: State, waiting: seq<CName>, end: End) {
    match end
    case Fell(owned, _) => owned == Owned(st, waiting)
    case Exited(owned) => owned == []
    case Wrong(_) => false
  }

  lemma NoneWaiting(st: State)
    ensures Owned(st, []) == Filter(Flat(st.order), st.live) && Waiting(st, [])
  {
    FilterSame(Flat(st.order), Held(st.live, []), st.live);
  }

  /** A move changes nothing about what is owned. */
  lemma MoveWaits(st: State, waiting: seq<CName>, c: CName)
    requires Waiting(st, waiting) && IsLive(st.live, c) && c in Flat(st.order)
    ensures var r := st.(live := st.live[c := false]);
            Waiting(r, waiting + [c]) && Owned(r, waiting + [c]) == Owned(st, waiting)
  {
    var r := st.(live := st.live[c := false]);
    FilterSame(Flat(st.order), Held(st.live, waiting), Held(r.live, waiting + [c]));
  }

  /** Handing over the value of one owner. */
  lemma TakeTracks(st: State, waiting: seq<CName>, c: CName, rest: seq<CName>)
    requires WellNamed(st) && Waiting(st, waiting + ([c] + rest))
    ensures Waiting(st, waiting + rest) && c in Owned(st, waiting + ([c] + rest))
    ensures Released(Owned(st, waiting + ([c] + rest)), c) == Owned(st, waiting + rest)
  {
    var all := waiting + ([c] + rest);
    assert all == waiting + [c] + rest;
    DistinctWithout(waiting, c, rest);
    FilterHas(Flat(st.order), Held(st.live, all), c);
    FilterRelease(Flat(st.order), Held(st.live, all), c);
    FilterSame(Flat(st.order), Held(st.live, all)[c := false], Held(st.live, waiting + rest));
  }

  lemma DistinctWithout(a: seq<CName>, c: CName, b: seq<CName>)
    requires Distinct(a + [c] + b)
    ensures Distinct(a + b) && c !in a + b
  {
    var all := a + [c] + b;
    forall i, j | 0 <= i < j < |a + b| ensures (a + b)[i] != (a + b)[j] {
      var k, l := if i < |a| then i else i + 1, if j < |a| then j else j + 1;
      assert all[k] == (a + b)[i] && all[l] == (a + b)[j];
    }
    forall i | 0 <= i < |a + b| ensures (a + b)[i] != c {
      assert all[|a|] == c && all[if i < |a| then i else i + 1] == (a + b)[i];
    }
  }

  /** Handing over values that wait leaves the others. */
  lemma {:induction false} TakesTrack(st: State, waiting: seq<CName>, names: seq<CName>, choices: seq<bool>)
    requires WellNamed(st) && Waiting(st, waiting + names)
    ensures Waiting(st, waiting)
    ensures Exec(true, Takes(names), Owned(st, waiting + names), choices) == Fell(Owned(st, waiting), choices)
    decreases names
  {
    hide WellNamed, Waiting, Owned;
    if names == [] {
      assert waiting + names == waiting;
    } else {
      var c, rest := names[0], names[1..];
      assert names == [c] + rest;
      TakeTracks(st, waiting, c, rest);
      assert ([Take(c)] + Takes(rest))[1..] == Takes(rest);
      TakesTrack(st, waiting, rest, choices);
    }
  }

  lemma EffectsTrack(st: State, es: seq<Effect>, choices: seq<bool>)
    requires WellNamed(st) && MovesLive(st, es) && Prompt(st.scopes, es, false)
    ensures var (code, st1) := LowerEffects(st, es);
            Tracks(st1, Exec(true, code, Filter(Flat(st.order), st.live), choices))
  {
    hide WellNamed, Waiting, Owned, LowerEffects;
    NoneWaiting(st);
    CompletedTracks(st, es, [], choices);
    NoneWaiting(LowerEffects(st, es).1);
  }

  /** An expression whose value is computed on the spot hands over what it moved. */
  lemma {:induction false} CompletedTracks(st: State, es: seq<Effect>, waiting: seq<CName>, choices: seq<bool>)
    requires WellNamed(st) && MovesLive(st, es) && Waiting(st, waiting) && Prompt(st.scopes, es, waiting != [])
    ensures var (code, st1) := LowerEffects(st, es);
            Waiting(st1, waiting) && TracksHeld(st1, waiting, Exec(true, code, Owned(st, waiting), choices))
    decreases es, 1
  {
    hide WellNamed, Waiting, Owned, LowerParts, Exec;
    var low := LowerParts(st, es);
    PartsTrack(st, es, waiting, choices);
    PartsKeepNames(st, es);
    ExecJoin(true, low.prelude, Takes(low.pending), Owned(st, waiting), choices);
    var mid := Exec(true, low.prelude, Owned(st, waiting), choices);
    TakesTrack(low.st, waiting, low.pending, if mid.Fell? then mid.choices else []);
  }

  lemma {:induction false} PartsTrack(st: State, es: seq<Effect>, waiting: seq<CName>, choices: seq<bool>)
    requires WellNamed(st) && MovesLive(st, es) && Waiting(st, waiting) && Prompt(st.scopes, es, waiting != [])
    ensures var low := LowerParts(st, es);
            && Waiting(low.st, waiting + low.pending)
            && TracksHeld(low.st, waiting + low.pending, Exec(true, low.prelude, Owned(st, waiting), choices))
    decreases es, 0
  {
    hide WellNamed, Waiting, Owned, LowerPart, PartFits, PartPrompt, Exec;
    if es == [] {
      assert waiting + [] == waiting;
      NothingRuns(Owned(st, waiting), choices);
    } else {
      var first := LowerPart(st, es[0]);
      var rest := LowerParts(first.st, es[1..]);
      PartTracks(st, es[0], waiting, choices);
      PartKeepsNames(st, es[0]);
      PendingIffMoves(st, es[0]);
      ExecJoin(true, first.prelude, rest.prelude, Owned(st, waiting), choices);
      var mid := Exec(true, first.prelude, Owned(st, waiting), choices);
      assert waiting + (first.pending + rest.pending) == waiting + first.pending + rest.pending;
      PartsTrack(first.st, es[1..], waiting + first.pending, if mid.Fell? then mid.choices else []);
    }
  }

  lemma PendingIffMoves(st: State, e: Effect)
    ensures LowerPart(st, e).pending != [] <==> MovesOwner(st.scopes, e)
  {
    hide LowerEffects, AllDrops;
  }

  lemma {:induction false} PartTracks(st: State, e: Effect, waiting: seq<CName>, choices: seq<bool>)
    requires WellNamed(st) && PartFits(st, e) && Waiting(st, waiting) && PartPrompt(st.scopes, e, waiting != [])
    ensures var low := LowerPart(st, e);
            && Waiting(low.st, waiting + low.pending)
            && TracksHeld(low.st, waiting + low.pending, Exec(true, low.prelude, Owned(st, waiting), choices))
    decreases e
  {
    hide WellNamed, Waiting, Owned, LowerEffects, Exec;
    assert waiting + [] == waiting;
    match e
    case Move(x) =>
      NothingRuns(Owned(st, waiting), choices);
      if MovesOwner(st.scopes, e) {
        var c := Lookup(st.scopes, x).value.c;
        LiveIsKnown(st, c);
        MoveWaits(st, waiting, c);
      }
    case Propagate(operand) =>
      CompletedTracks(st, operand, waiting, choices);
      EffectsKeepNames(st, operand);
      var (code, st1) := LowerEffects(st, operand);
      ExecJoin(true, code, [IfFailed(AllDrops(st1.order, st1.live).0 + [Exit])], Owned(st, waiting), choices);
      var mid := Exec(true, code, Owned(st, waiting), choices);
      if mid.Fell? {
        FailureTracks(st1, mid.choices);
      }
    case Complete(operand) => CompletedTracks(st, operand, waiting, choices);
  }

  lemma LiveIsKnown(st: State, c: CName)
    requires WellNamed(st) && IsLive(st.live, c)
    ensures c in Flat(st.order)
  {
  }

  /** Nothing waits where a failure is tested. */
  lemma FailureTracks(st: State, choices: seq<bool>)
    requires WellNamed(st)
    ensures var code := [IfFailed(AllDrops(st.order, st.live).0 + [Exit])];
            TracksHeld(st, [], Exec(true, code, Owned(st, []), choices))
  {
    var drops := AllDrops(st.order, st.live).0;
    NoneWaiting(st);
    AllDropsInOrder(st.order, st.live, Tail(choices));
    ExecJoin(true, drops, [Exit], Owned(st, []), Tail(choices));
    ExecSingle(true, IfFailed(drops + [Exit]), Owned(st, []), choices);
    ExecSingle(true, Exit, [], Tail(choices));
  }

  lemma FilterPlus(names: seq<CName>, live: Live, c: CName)
    requires c !in names
    ensures Filter(names + [c], live[c := true]) == Filter(names, live) + [c]
  {
    FilterJoin(names, [c], live[c := true]);
    FilterSame(names, live, live[c := true]);
    assert [c][..0] == [] && Filter([c], live[c := true]) == [c];
  }

  /** A declared owner is the last one in order. */
  lemma BindTracks(st: State, x: string, owns: bool)
    requires WellNamed(st) && x !in st.scopes[|st.scopes| - 1]
    ensures var r := Bind(st, x, owns);
            Filter(Flat(r.order), r.live) == Filter(Flat(st.order), st.live) + (if owns then [NameFor(st, x)] else [])
  {
    hide NameFor, WellNamed;
    DeepNamed(st);
    BindKeepsNames(st, x, owns);
    if owns {
      var c := NameFor(st, x);
      NameIsFresh(st, x);
      FilterPlus(Flat(st.order), st.live, c);
    } else {
      assert Filter(Flat(st.order), st.live) + [] == Filter(Flat(st.order), st.live);
    }
  }

  lemma DeclareTracks(st: State, s: Stmt, choices: seq<bool>)
    requires WellNamed(st) && StmtFits(st, s) && s.Declare? && s.x !in st.scopes[|st.scopes| - 1]
    requires Prompt(st.scopes, s.init, false)
    ensures var (code, st1) := LowerStmt(st, s); Tracks(st1, Exec(true, code, Filter(Flat(st.order), st.live), choices))
  {
    hide LowerEffects, NameFor, WellNamed, Bind, Exec;
    DeepNamed(st);
    var owned := Filter(Flat(st.order), st.live);
    var (code, st1) := LowerEffects(st, s.init);
    EffectsTrack(st, s.init, choices);
    EffectsKeepNames(st, s.init);
    var c := NameFor(st1, s.x);
    var tail := if s.owns then [Init(c)] else [];
    ExecJoin(true, code, tail, owned, choices);
    var mid := Exec(true, code, owned, choices);
    if mid.Fell? {
      BindTracks(st1, s.x, s.owns);
      if s.owns {
        ExecSingle(true, Init(c), mid.owned, mid.choices);
      } else {
        NothingRuns(mid.owned, mid.choices);
      }
    }
  }

  lemma ReturnTracks(st: State, s: Stmt, choices: seq<bool>)
    requires WellNamed(st) && StmtFits(st, s) && s.Return? && Prompt(st.scopes, s.es, false)
    ensures var (code, st1) := LowerStmt(st, s);
            Exec(true, code, Filter(Flat(st.order), st.live), choices) == Exited([])
  {
    hide LowerEffects;
    var owned := Filter(Flat(st.order), st.live);
    var (code, st1) := LowerEffects(st, s.es);
    EffectsTrack(st, s.es, choices);
    EffectsKeepNames(st, s.es);
    var drops := AllDrops(st1.order, st1.live).0;
    assert code + drops + [Exit] == code + (drops + [Exit]);
    ExecJoin(true, code, drops + [Exit], owned, choices);
    var mid := Exec(true, code, owned, choices);
    if mid.Fell? {
      AllDropsInOrder(st1.order, st1.live, mid.choices);
      ExecJoin(true, drops, [Exit], mid.owned, mid.choices);
      ExecSingle(true, Exit, [], mid.choices);
    }
  }

  lemma {:induction false} StmtTracks(st: State, s: Stmt, choices: seq<bool>)
    requires WellNamed(st) && StmtUnrepeated(s) && StmtFits(st, s) && StmtOrderly(st, s)
             && (s.Declare? ==> s.x !in st.scopes[|st.scopes| - 1])
    ensures var (code, st1) := LowerStmt(st, s);
            Tracks(st1, Exec(true, code, Filter(Flat(st.order), st.live), choices))
    decreases s, 1
  {
    hide WellNamed, LowerEffects, LowerBlock, EndsInReturn, Unrepeated, Exec, BlockFits, BlockOrderly;
    DeepNamed(st);
    match s
    case Declare(_, _, _) => DeclareTracks(st, s, choices);
    case Do(es) => EffectsTrack(st, es, choices);
    case Return(_) => ReturnTracks(st, s, choices);
    case Block(b) => BlockTracks(st, b, choices);
    case If(_, _, _, _) => IfTracks(st, s, choices);
  }

  /** Where control meets again, the joined map is right for both ways of getting there. */
  lemma JoinTracks(st: State, thenReturns: bool, elseReturns: bool, thenLive: Live, elseLive: Live)
    requires thenReturns || elseReturns || Agree(st.order, thenLive, elseLive)
    requires forall c :: c in Flat(st.order) ==> c in elseLive
    ensures var joined := Joined(thenReturns, elseReturns, thenLive, elseLive);
            && (!thenReturns ==> Filter(Flat(st.order), joined) == Filter(Flat(st.order), thenLive))
            && (!elseReturns ==> Filter(Flat(st.order), joined) == Filter(Flat(st.order), elseLive))
  {
    var joined := Joined(thenReturns, elseReturns, thenLive, elseLive);
    if !thenReturns {
      FilterSame(Flat(st.order), joined, thenLive);
    }
    if !elseReturns {
      FilterSame(Flat(st.order), joined, elseLive);
    }
  }

  lemma JoinOneTracks(st: State, thenReturns: bool, before: Live, thenLive: Live)
    requires thenReturns || Agree(st.order, thenLive, before)
    requires forall c :: c in Flat(st.order) ==> c in thenLive && c in before
    ensures var joined := JoinedOne(thenReturns, before, thenLive);
            && (!thenReturns ==> Filter(Flat(st.order), joined) == Filter(Flat(st.order), thenLive))
            && Filter(Flat(st.order), joined) == Filter(Flat(st.order), before)
  {
    var joined := JoinedOne(thenReturns, before, thenLive);
    FilterSame(Flat(st.order), joined, before);
    if !thenReturns {
      FilterSame(Flat(st.order), joined, thenLive);
    }
  }

  lemma KnownLive(st: State)
    requires WellNamed(st)
    ensures forall c :: c in Flat(st.order) ==> c in st.live
  {
  }

  lemma {:induction false} IfTracks(st: State, s: Stmt, choices: seq<bool>)
    requires WellNamed(st) && StmtUnrepeated(s) && StmtFits(st, s) && StmtOrderly(st, s) && s.If?
    ensures var (code, st1) := LowerStmt(st, s);
            Tracks(st1, Exec(true, code, Filter(Flat(st.order), st.live), choices))
    decreases s, 0
  {
    hide WellNamed, LowerEffects, LowerBlock, EndsInReturn, Unrepeated, Exec, BlockFits, BlockOrderly, MovesLive, Agree,
      Joined, JoinedOne;
    DeepNamed(st);
    var owned := Filter(Flat(st.order), st.live);
    var (cond, st1) := LowerEffects(st, s.cond);
    EffectsTrack(st, s.cond, choices);
    EffectsKeepNames(st, s.cond);
    BlockKeepsNames(st1, s.thn);
    var (thn, st2) := LowerBlock(st1, s.thn);
    OtherBranchNamed(st1, st2);
    var other := st2.(live := st1.live);
    var els := if s.hasElse then LowerBlock(other, s.els).0 else [];
    var mid := Exec(true, cond, owned, choices);
    BranchRuns(true, cond, thn, els, owned, choices);
    KnownLive(st1);
    KnownLive(st2);
    if mid.Fell? {
      var cs := Tail(mid.choices);
      BlockTracks(st1, s.thn, cs);
      ReturnStops(st1, s.thn, mid.owned, cs);
      if s.hasElse {
        BlockTracks(other, s.els, cs);
        ReturnStops(other, s.els, mid.owned, cs);
        BlockKeepsNames(other, s.els);
        var st3 := LowerBlock(other, s.els).1;
        KnownLive(st3);
        JoinTracks(st, EndsInReturn(s.thn), EndsInReturn(s.els), st2.live, st3.live);
      } else {
        JoinOneTracks(st, EndsInReturn(s.thn), st1.live, st2.live);
        NothingRuns(mid.owned, cs);
      }
    }
  }

  lemma NothingRuns(owned: seq<CName>, choices: seq<bool>)
    ensures Exec(true, [], owned, choices) == Fell(owned, choices)
  {
  }

  lemma {:induction false} AllTrack(st: State, b: seq<Stmt>, choices: seq<bool>)
    requires WellNamed(st) && InnerUnrepeated(b) && NewHere(st, Declared(b)) && AllFits(st, b) && AllOrderly(st, b)
    ensures var (code, st1) := LowerAll(st, b);
            Tracks(st1, Exec(true, code, Filter(Flat(st.order), st.live), choices))
    decreases b, 0
  {
    hide WellNamed, LowerStmt, StmtUnrepeated, StmtFits, StmtOrderly, CanFall, Exec;
    DeepNamed(st);
    if b != [] {
      var (first, st1) := LowerStmt(st, b[0]);
      var rest := LowerAll(st1, b[1..]).0;
      var owned := Filter(Flat(st.order), st.live);
      FirstDeclared(st, b);
      StmtKeepsNames(st, b[0]);
      StmtTracks(st, b[0], choices);
      ExecJoin(true, first, rest, owned, choices);
      var mid := Exec(true, first, owned, choices);
      if !CanFall(b[0]) {
        StmtStops(true, st, b[0], owned, choices);
      } else if mid.Fell? {
        StillNew(st, b, st1);
        AllTrack(st1, b[1..], mid.choices);
      }
    } else {
      NothingRuns(Filter(Flat(st.order), st.live), choices);
    }
  }

  lemma {:induction false} BlockTracks(st: State, b: seq<Stmt>, choices: seq<bool>)
    requires WellNamed(st) && Unrepeated(b) && BlockFits(st, b) && BlockOrderly(st, b)
    ensures var (code, st1) := LowerBlock(st, b);
            Tracks(st1, Exec(true, code, Filter(Flat(st.order), st.live), choices))
    decreases b, 1
  {
    hide LowerAll, EndsInReturn, ScopeDrops, WellNamed;
    DeepNamed(st);
    PushKeepsNames(st);
    var (code, st1) := LowerAll(Push(st), b);
    var owned := Filter(Flat(st.order), st.live);
    AllTrack(Push(st), b, choices);
    AllKeepNames(Push(st), b);
    var names := st1.order[|st1.order| - 1];
    var (drops, live) := ScopeDrops(names, st1.live);
    ExecJoin(true, code, drops, owned, choices);
    var mid := Exec(true, code, owned, choices);
    if mid.Fell? {
      PopTracks(st1, mid.choices);
      assert Push(st).order[..|st.order|] == st.order;
    }
  }

  /** The drops that end a scope leave what the scopes around it own. */
  lemma PopTracks(st: State, choices: seq<bool>)
    requires WellNamed(st)
    ensures var (drops, live) := ScopeDrops(st.order[|st.order| - 1], st.live);
            Tracks(Pop(st.(live := live)), Exec(true, drops, Filter(Flat(st.order), st.live), choices))
  {
    var last := |st.order| - 1;
    var names, rest := st.order[last], st.order[..last];
    var (drops, live) := ScopeDrops(names, st.live);
    assert st.order == rest + [names];
    FlatPush(rest, names);
    DistinctParts(Flat(rest), names);
    FilterJoin(Flat(rest), names, st.live);
    DropsInOrder(Filter(Flat(rest), st.live), names, st.live, choices);
    ScopeDropsLive(names, st.live);
    FilterSame(Flat(rest), st.live, Without(live, names));
  }

  /** Every owner is handed over or dropped exactly once on every path, each drop being of the latest owner left. */
  lemma EveryOwnerIsReleasedOnce(params: seq<Param>, body: seq<Stmt>, choices: seq<bool>)
    requires NoRepeatsOfParams(params) && Unrepeated(body)
    requires BlockFits(StartState(params), body)
    requires BlockAgrees(StartState(params), body) && BlockPrompt(StartState(params), body)
    ensures var end := Exec(true, LowerFunction(params, body), OwnedParams(params), choices);
            !end.Wrong? && end.owned == []
  {
    hide LowerBlock, WellNamed, Unrepeated, BlockFits, BlockOrderly, BlockAgrees, BlockPrompt;
    var st := StartState(params);
    OrderlyIsBoth(st, body);
    StartIsWellNamed(params);
    AllOwnedAtStart(params);
    BlockTracks(st, body, choices);
    BlockKeepsNames(st, body);
    var (code, st1) := LowerBlock(st, body);
    var drops := ScopeDrops(st1.order[0], st1.live).0;
    ExecJoin(true, code, drops, OwnedParams(params), choices);
    var mid := Exec(true, code, OwnedParams(params), choices);
    if mid.Fell? {
      OneScope(st1, params);
      DropsInOrder([], st1.order[0], st1.live, mid.choices);
      assert [] + Filter(st1.order[0], st1.live) == Filter(st1.order[0], st1.live);
    }
  }

  lemma OneScope(st: State, params: seq<Param>)
    requires WellNamed(st) && st.order == StartState(params).order
    ensures Flat(st.order) == st.order[0] && Distinct(st.order[0])
  {
    assert st.order == [] + [st.order[0]];
    FlatPush([], st.order[0]);
    assert Flat([]) + st.order[0] == st.order[0];
  }

  lemma AllOwnedAtStart(params: seq<Param>)
    ensures Filter(OwnedParams(params), StartState(params).live) == OwnedParams(params)
  {
    FilterAll(OwnedParams(params), StartState(params).live);
  }

  lemma {:induction false} FilterAll(names: seq<CName>, live: Live)
    requires forall c :: c in names ==> IsLive(live, c)
    ensures Filter(names, live) == names
  {
    if names != [] {
      assert names == names[..|names| - 1] + [names[|names| - 1]];
      FilterAll(names[..|names| - 1], live);
    }
  }
}
