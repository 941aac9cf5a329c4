/** A statically live owner is owned at run time on every path, so nothing is dropped twice. */
module OwnershipSafety {
  import opened Wrappers
  import opened OwnershipLowering
  import opened OwnershipNames

  lemma {:induction false} ExecJoin(strict: bool, a: seq<Code>, b: seq<Code>, owned: seq<CName>, choices: seq<bool>)
    ensures Exec(strict, a + b, owned, choices) ==
            match Exec(strict, a, owned, choices)
            case Fell(o, cs) => Exec(strict, b, o, cs)
            case end => end
    decreases a
  {
    if a == [] {
      assert a + b == b;
    } else {
      assert (a + b)[0] == a[0] && (a + b)[1..] == a[1..] + b;
      var first := ExecOne(strict, a[0], owned, choices);
      if first.Fell? {
        ExecJoin(strict, a[1..], b, first.owned, first.choices);
      }
    }
  }

  lemma ExecSingle(strict: bool, c: Code, owned: seq<CName>, choices: seq<bool>)
    ensures Exec(strict, [c], owned, choices) == ExecOne(strict, c, owned, choices)
  {
    assert [c][1..] == [];
  }

  /** What the lowerer takes for live is owned. */
  ghost predicate Backs(live: Live, owned: seq<CName>) {
    forall c :: IsLive(live, c) ==> c in owned
  }

  lemma {:induction false} ReleasedKeeps(owned: seq<CName>, c: CName, d: CName)
    requires c != d && d in owned
    ensures d in Released(owned, c)
  {
    var last := |owned| - 1;
    if owned[last] == c {
      assert d in owned[..last];
    } else if owned[last] != d {
      ReleasedKeeps(owned[..last], c, d);
    }
  }

  lemma ReleaseBacks(live: Live, owned: seq<CName>, c: CName)
    requires Backs(live, owned)
    ensures Backs(live[c := false], Released(owned, c))
  {
    forall d | IsLive(live[c := false], d) ensures d in Released(owned, c) {
      ReleasedKeeps(owned, c, d);
    }
  }

  /** A run that goes on does so with every live owner owned. */
  ghost predicate Safe(live: Live, end: End) {
    !end.Wrong? && (end.Fell? ==> Backs(live, end.owned))
  }

  lemma {:induction false} DropsSafe(names: seq<CName>, live: Live, owned: seq<CName>, choices: seq<bool>)
    requires Backs(live, owned)
    ensures Exec(false, ScopeDrops(names, live).0, owned, choices).Fell?
    ensures Safe(ScopeDrops(names, live).1, Exec(false, ScopeDrops(names, live).0, owned, choices))
    decreases |names|
  {
    if names != [] {
      var c := names[|names| - 1];
      if IsLive(live, c) {
        ReleaseBacks(live, owned, c);
        var (code, after) := ScopeDrops(names[..|names| - 1], live[c := false]);
        assert ([Drop(c)] + code)[0] == Drop(c) && ([Drop(c)] + code)[1..] == code;
        DropsSafe(names[..|names| - 1], live[c := false], Released(owned, c), choices);
      } else {
        DropsSafe(names[..|names| - 1], live, owned, choices);
      }
    }
  }

  lemma {:induction false} AllDropsSafe(order: seq<seq<CName>>, live: Live, owned: seq<CName>, choices: seq<bool>)
    requires Backs(live, owned)
    ensures Exec(false, AllDrops(order, live).0, owned, choices).Fell?
    ensures Safe(AllDrops(order, live).1, Exec(false, AllDrops(order, live).0, owned, choices))
    decreases |order|
  {
    hide Backs;
    if order != [] {
      var names := order[|order| - 1];
      var (inner, l1) := ScopeDrops(names, live);
      var (outer, l2) := AllDrops(order[..|order| - 1], l1);
      DropsSafe(names, live, owned, choices);
      var mid := Exec(false, inner, owned, choices);
      AllDropsSafe(order[..|order| - 1], l1, mid.owned, mid.choices);
      ExecJoin(false, inner, outer, owned, choices);
    } else {
      assert AllDrops(order, live).0 == [];
    }
  }

  /** A handed-over owner is not live. */
  lemma {:induction false} TakesSafe(names: seq<CName>, live: Live, owned: seq<CName>, choices: seq<bool>)
    requires Backs(live, owned) && forall c :: c in names ==> !IsLive(live, c)
    ensures Safe(live, Exec(false, Takes(names), owned, choices))
  {
    if names != [] {
      var c := names[0];
      ReleaseBacks(live, owned, c);
      assert ([Take(c)] + Takes(names[1..]))[1..] == Takes(names[1..]);
      TakesSafe(names[1..], live, Released(owned, c), choices);
    }
  }

  lemma {:induction false} EffectsTurnNoneOn(st: State, es: seq<Effect>, c: CName)
    requires !IsLive(st.live, c)
    ensures !IsLive(LowerEffects(st, es).1.live, c)
    decreases es, 1
  {
    PartsTurnNoneOn(st, es, c);
  }

  lemma {:induction false} PartsTurnNoneOn(st: State, es: seq<Effect>, c: CName)
    requires !IsLive(st.live, c)
    ensures !IsLive(LowerParts(st, es).st.live, c)
    decreases es, 0
  {
    hide LowerPart;
    if es != [] {
      PartTurnsNoneOn(st, es[0], c);
      PartsTurnNoneOn(LowerPart(st, es[0]).st, es[1..], c);
    }
  }

  lemma {:induction false} PartTurnsNoneOn(st: State, e: Effect, c: CName)
    requires !IsLive(st.live, c)
    ensures !IsLive(LowerPart(st, e).st.live, c)
    decreases e
  {
    hide LowerEffects;
    if !e.Move? {
      EffectsTurnNoneOn(st, e.operand, c);
    }
  }

  lemma {:induction false} PendingIsDead(st: State, es: seq<Effect>, c: CName)
    requires c in LowerParts(st, es).pending
    ensures !IsLive(LowerParts(st, es).st.live, c)
    decreases es
  {
    hide LowerEffects, AllDrops;
    var first := LowerPart(st, es[0]);
    if c in first.pending {
      PartsTurnNoneOn(first.st, es[1..], c);
    } else {
      PendingIsDead(first.st, es[1..], c);
    }
  }

  lemma {:induction false} EffectsSafe(st: State, es: seq<Effect>, owned: seq<CName>, choices: seq<bool>)
    requires Backs(st.live, owned)
    ensures var (code, st1) := LowerEffects(st, es); Safe(st1.live, Exec(false, code, owned, choices))
    decreases es, 1
  {
    hide Backs, LowerParts, Exec;
    var low := LowerParts(st, es);
    PartsSafe(st, es, owned, choices);
    ExecJoin(false, low.prelude, Takes(low.pending), owned, choices);
    var mid := Exec(false, low.prelude, owned, choices);
    if mid.Fell? {
      forall c | c in low.pending ensures !IsLive(low.st.live, c) {
        PendingIsDead(st, es, c);
      }
      TakesSafe(low.pending, low.st.live, mid.owned, mid.choices);
    }
  }

  lemma {:induction false} PartsSafe(st: State, es: seq<Effect>, owned: seq<CName>, choices: seq<bool>)
    requires Backs(st.live, owned)
    ensures var low := LowerParts(st, es); Safe(low.st.live, Exec(false, low.prelude, owned, choices))
    decreases es, 0
  {
    hide Backs, LowerPart;
    if es != [] {
      var first := LowerPart(st, es[0]);
      PartSafe(st, es[0], owned, choices);
      ExecJoin(false, first.prelude, LowerParts(first.st, es[1..]).prelude, owned, choices);
      var mid := Exec(false, first.prelude, owned, choices);
      if mid.Fell? {
        PartsSafe(first.st, es[1..], mid.owned, mid.choices);
      }
    }
  }

  lemma {:induction false} PartSafe(st: State, e: Effect, owned: seq<CName>, choices: seq<bool>)
    requires Backs(st.live, owned)
    ensures var low := LowerPart(st, e); Safe(low.st.live, Exec(false, low.prelude, owned, choices))
    decreases e
  {
    hide LowerEffects;
    if !e.Move? {
      EffectsSafe(st, e.operand, owned, choices);
      if e.Propagate? {
        var (code, st1) := LowerEffects(st, e.operand);
        ExecJoin(false, code, [IfFailed(AllDrops(st1.order, st1.live).0 + [Exit])], owned, choices);
        var mid := Exec(false, code, owned, choices);
        if mid.Fell? {
          FailureSafe(st1, mid.owned, mid.choices);
        }
      }
    }
  }

  /** The cleanup of a failed value. */
  lemma FailureSafe(st: State, owned: seq<CName>, choices: seq<bool>)
    requires Backs(st.live, owned)
    ensures Safe(st.live, Exec(false, [IfFailed(AllDrops(st.order, st.live).0 + [Exit])], owned, choices))
  {
    hide Backs;
    var drops := AllDrops(st.order, st.live).0;
    AllDropsSafe(st.order, st.live, owned, Tail(choices));
    ExecJoin(false, drops, [Exit], owned, Tail(choices));
    ExecSingle(false, IfFailed(drops + [Exit]), owned, choices);
    var mid := Exec(false, drops, owned, Tail(choices));
    ExecSingle(false, Exit, mid.owned, mid.choices);
  }

  lemma {:induction false} StmtSafe(st: State, s: Stmt, owned: seq<CName>, choices: seq<bool>)
    requires WellNamed(st) && StmtUnrepeated(s) && Backs(st.live, owned)
    ensures var (code, st1) := LowerStmt(st, s);
            Safe(st1.live, Exec(false, code, owned, choices))
              && (StmtReturns(s) ==> !Exec(false, code, owned, choices).Fell?)
    decreases s, 1
  {
    hide Backs, LowerEffects, LowerBlock, EndsInReturn, Unrepeated, WellNamed;
    DeepNamed(st);
    match s
    case Declare(x, owns, es) => DeclareSafe(st, x, owns, es, owned, choices);
    case Do(es) => EffectsSafe(st, es, owned, choices);
    case Return(es) =>
      EffectsSafe(st, es, owned, choices);
      var (code, st1) := LowerEffects(st, es);
      var (drops, live) := AllDrops(st1.order, st1.live);
      assert code + drops + [Exit] == code + (drops + [Exit]);
      ExecJoin(false, code, drops + [Exit], owned, choices);
      var mid := Exec(false, code, owned, choices);
      if mid.Fell? {
        AllDropsSafe(st1.order, st1.live, mid.owned, mid.choices);
        ExecJoin(false, drops, [Exit], mid.owned, mid.choices);
        var end := Exec(false, drops, mid.owned, mid.choices);
        ExecSingle(false, Exit, end.owned, end.choices);
      }
    case Block(b) => BlockSafe(st, b, owned, choices);
    case If(_, _, _, _) => IfSafe(st, s, owned, choices);
  }

  lemma DeclareSafe(st: State, x: string, owns: bool, es: seq<Effect>, owned: seq<CName>, choices: seq<bool>)
    requires Deep(st) && Backs(st.live, owned)
    ensures var (code, st1) := LowerStmt(st, Declare(x, owns, es)); Safe(st1.live, Exec(false, code, owned, choices))
  {
    EffectsSafe(st, es, owned, choices);
    var (code, st1) := LowerEffects(st, es);
    var tail := if owns then [Init(NameFor(st1, x))] else [];
    ExecJoin(false, code, tail, owned, choices);
    var mid := Exec(false, code, owned, choices);
    if mid.Fell? && owns {
      ExecSingle(false, Init(NameFor(st1, x)), mid.owned, mid.choices);
    }
  }

  lemma JoinedBacks(thenReturns: bool, elseReturns: bool, thenLive: Live, elseLive: Live, owned: seq<CName>)
    ensures !elseReturns && Backs(elseLive, owned) ==>
              Backs(Joined(thenReturns, elseReturns, thenLive, elseLive), owned)
    ensures !thenReturns && Backs(thenLive, owned) ==>
              Backs(Joined(thenReturns, elseReturns, thenLive, elseLive), owned)
  {
  }

  lemma JoinedOneBacks(thenReturns: bool, before: Live, thenLive: Live, owned: seq<CName>)
    requires !thenReturns ==> forall c :: c in before ==> c in thenLive || !before[c]
    ensures Backs(before, owned) ==> Backs(JoinedOne(thenReturns, before, thenLive), owned)
    ensures !thenReturns && Backs(thenLive, owned) ==> Backs(JoinedOne(thenReturns, before, thenLive), owned)
  {
  }

  lemma {:induction false} IfSafe(st: State, s: Stmt, owned: seq<CName>, choices: seq<bool>)
    requires WellNamed(st) && StmtUnrepeated(s) && Backs(st.live, owned) && s.If?
    ensures var (code, st1) := LowerStmt(st, s);
            Safe(st1.live, Exec(false, code, owned, choices))
              && (StmtReturns(s) ==> !Exec(false, code, owned, choices).Fell?)
    decreases s, 0
  {
    hide Backs, LowerEffects, LowerBlock, EndsInReturn, Joined, JoinedOne, Unrepeated, WellNamed;
    DeepNamed(st);
    var (cond, st1) := LowerEffects(st, s.cond);
    EffectsKeepNames(st, s.cond);
    BlockKeepsNames(st1, s.thn);
    EffectsSafe(st, s.cond, owned, choices);
    var mid := Exec(false, cond, owned, choices);
    var (thn, st2) := LowerBlock(st1, s.thn);
    var els := if s.hasElse then LowerBlock(st2.(live := st1.live), s.els).0 else [];
    ExecJoin(false, cond, [Branch(thn, els)], owned, choices);
    if mid.Fell? {
      ExecSingle(false, Branch(thn, els), mid.owned, mid.choices);
      var cs := Tail(mid.choices);
      BlockSafe(st1, s.thn, mid.owned, cs);
      var thenEnd := Exec(false, thn, mid.owned, cs);
      if s.hasElse {
        OtherBranchNamed(st1, st2);
        BlockSafe(st2.(live := st1.live), s.els, mid.owned, cs);
        var st3 := LowerBlock(st2.(live := st1.live), s.els).1;
        var elseEnd := Exec(false, els, mid.owned, cs);
        if thenEnd.Fell? {
          JoinedBacks(EndsInReturn(s.thn), EndsInReturn(s.els), st2.live, st3.live, thenEnd.owned);
        }
        if elseEnd.Fell? {
          JoinedBacks(EndsInReturn(s.thn), EndsInReturn(s.els), st2.live, st3.live, elseEnd.owned);
        }
      } else {
        KeysStay(st1, st2);
        if thenEnd.Fell? {
          JoinedOneBacks(EndsInReturn(s.thn), st1.live, st2.live, thenEnd.owned);
        }
        JoinedOneBacks(EndsInReturn(s.thn), st1.live, st2.live, mid.owned);
      }
    }
  }

  /** A nested block forgets no owner of the scopes around it. */
  lemma KeysStay(before: State, after: State)
    requires WellNamed(before) && WellNamed(after) && after.order == before.order
    ensures forall c :: c in before.live ==> c in after.live || !before.live[c]
  {
    forall c | c in before.live && before.live[c] ensures c in after.live {
      assert IsLive(before.live, c);
    }
  }

  lemma OtherBranchNamed(before: State, after: State)
    requires WellNamed(before) && WellNamed(after) && after.order == before.order && after.scopes == before.scopes
             && after.temps >= before.temps
    ensures WellNamed(after.(live := before.live))
  {
    LaterTemps(before, after.temps);
    assert after.(live := before.live) == before.(temps := after.temps);
  }

  lemma StillNew(st: State, b: seq<Stmt>, st1: State)
    requires b != [] && NewHere(st, Declared(b)) && st1.scopes != []
    requires st1.scopes[|st1.scopes| - 1].Keys ==
             st.scopes[|st.scopes| - 1].Keys + (if b[0].Declare? then {b[0].x} else {})
    ensures NewHere(st1, Declared(b[1..]))
  {
    hide Declared;
    FirstDeclared(st, b);
  }

  lemma {:induction false} AllSafe(st: State, b: seq<Stmt>, owned: seq<CName>, choices: seq<bool>)
    requires WellNamed(st) && InnerUnrepeated(b) && NewHere(st, Declared(b)) && Backs(st.live, owned)
    ensures var (code, st1) := LowerAll(st, b);
            Safe(st1.live, Exec(false, code, owned, choices))
              && (EndsInReturn(b) ==> !Exec(false, code, owned, choices).Fell?)
    decreases b, 0
  {
    hide Backs, LowerStmt, WellNamed, StmtUnrepeated;
    DeepNamed(st);
    if b != [] {
      FirstDeclared(st, b);
      StmtKeepsNames(st, b[0]);
      var (first, st1) := LowerStmt(st, b[0]);
      var (rest, st2) := LowerAll(st1, b[1..]);
      StmtSafe(st, b[0], owned, choices);
      ExecJoin(false, first, rest, owned, choices);
      var mid := Exec(false, first, owned, choices);
      if mid.Fell? {
        StillNew(st, b, st1);
        AllSafe(st1, b[1..], mid.owned, mid.choices);
      }
    }
  }

  lemma {:induction false} BlockSafe(st: State, b: seq<Stmt>, owned: seq<CName>, choices: seq<bool>)
    requires WellNamed(st) && Unrepeated(b) && Backs(st.live, owned)
    ensures var (code, st1) := LowerBlock(st, b);
            Safe(st1.live, Exec(false, code, owned, choices))
              && (EndsInReturn(b) ==> !Exec(false, code, owned, choices).Fell?)
    decreases b, 1
  {
    hide LowerAll, EndsInReturn, ScopeDrops;
    PushKeepsNames(st);
    var (code, st1) := LowerAll(Push(st), b);
    AllSafe(Push(st), b, owned, choices);
    var names := st1.order[|st1.order| - 1];
    var (drops, live) := ScopeDrops(names, st1.live);
    ExecJoin(false, code, drops, owned, choices);
    var mid := Exec(false, code, owned, choices);
    if mid.Fell? {
      DropsSafe(names, st1.live, mid.owned, mid.choices);
    }
  }

  /** Whatever the program and the path taken, no owner is dropped that is not owned. */
  lemma NothingIsDroppedTwice(params: seq<Param>, body: seq<Stmt>, choices: seq<bool>)
    requires NoRepeatsOfParams(params) && Unrepeated(body)
    ensures !Exec(false, LowerFunction(params, body), OwnedParams(params), choices).Wrong?
  {
    hide LowerBlock, WellNamed, Unrepeated;
    var st := StartState(params);
    var owned := OwnedParams(params);
    StartIsWellNamed(params);
    BlockSafe(st, body, owned, choices);
    var (code, st1) := LowerBlock(st, body);
    var drops := ScopeDrops(st1.order[0], st1.live).0;
    ExecJoin(false, code, drops, owned, choices);
    var mid := Exec(false, code, owned, choices);
    if mid.Fell? {
      DropsSafe(st1.order[0], st1.live, mid.owned, mid.choices);
    }
  }
}
