/**
 Where branches disagree on what they move, or a failure is tested between a move and its hand-over, some path
 leaks an owner.  With the converse of module `OwnershipExact`: every owner is released exactly once on every
 path if and only if neither is the case.
 */
module OwnershipLeaks {
  import opened Wrappers
  import opened OwnershipLowering
  import opened OwnershipNames
  import opened OwnershipSafety
  import opened OwnershipExact

  // ---------------------------------------------------------------------------------------------
  // A leak stays

  /** Some owner is owned more often than the lowerer takes it for live. */
  ghost predicate Leaky(live: Live, owned: seq<CName>) {
    exists c :: LeaksAt(live, owned, c)
  }

  predicate LeaksAt(live: Live, owned: seq<CName>, c: CName) {
    multiset(owned)[c] > if IsLive(live, c) then 1 else 0
  }

  /** The run does not release every owner exactly once, or goes on with a leak. */
  ghost predicate Bad(live: Live, end: End) {
    match end
    case Fell(owned, _) => Leaky(live, owned)
    case Exited(owned) => owned != []
    case Wrong(_) => true
  }

  lemma {:induction false} ReleasedCount(owned: seq<CName>, c: CName)
    requires c in owned
    ensures multiset(Released(owned, c)) == multiset(owned) - multiset{c}
  {
    var last := |owned| - 1;
    assert owned == owned[..last] + [owned[last]];
    if owned[last] != c {
      ReleasedCount(owned[..last], c);
    }
  }

  lemma ReleaseStaysLeaky(live: Live, owned: seq<CName>, c: CName)
    requires Leaky(live, owned) && IsLive(live, c) && c in owned
    ensures Leaky(live[c := false], Released(owned, c))
  {
    ReleasedCount(owned, c);
    var d :| LeaksAt(live, owned, d);
    assert LeaksAt(live[c := false], Released(owned, c), d);
  }

  lemma LeakyIsOwned(live: Live, owned: seq<CName>)
    requires Leaky(live, owned)
    ensures owned != []
  {
    var d :| LeaksAt(live, owned, d);
    assert d in multiset(owned);
  }

  /** Taking fewer owners for live. */
  lemma LessLive(live: Live, less: Live, owned: seq<CName>)
    requires Leaky(live, owned) && forall c :: IsLive(less, c) ==> IsLive(live, c)
    ensures Leaky(less, owned)
  {
    var d :| LeaksAt(live, owned, d);
    assert LeaksAt(less, owned, d);
  }

  lemma {:induction false} DropsStayLeaky(names: seq<CName>, live: Live, owned: seq<CName>, choices: seq<bool>)
    requires Leaky(live, owned)
    ensures var end := Exec(true, ScopeDrops(names, live).0, owned, choices);
            !end.Exited? && Bad(ScopeDrops(names, live).1, end)
    decreases |names|
  {
    hide Leaky;
    if names != [] {
      var c := names[|names| - 1];
      if IsLive(live, c) {
        var code := ScopeDrops(names[..|names| - 1], live[c := false]).0;
        assert ([Drop(c)] + code)[0] == Drop(c) && ([Drop(c)] + code)[1..] == code;
        if c in owned {
          ReleaseStaysLeaky(live, owned, c);
          DropsStayLeaky(names[..|names| - 1], live[c := false], Released(owned, c), choices);
        }
      } else {
        DropsStayLeaky(names[..|names| - 1], live, owned, choices);
      }
    }
  }

  lemma {:induction false} AllDropsStayLeaky(order: seq<seq<CName>>, live: Live, owned: seq<CName>, choices: seq<bool>)
    requires Leaky(live, owned)
    ensures var end := Exec(true, AllDrops(order, live).0, owned, choices);
            !end.Exited? && Bad(AllDrops(order, live).1, end)
    decreases |order|
  {
    hide Leaky;
    if order != [] {
      var names, rest := order[|order| - 1], order[..|order| - 1];
      var (inner, l1) := ScopeDrops(names, live);
      DropsStayLeaky(names, live, owned, choices);
      ExecJoin(true, inner, AllDrops(rest, l1).0, owned, choices);
      var mid := Exec(true, inner, owned, choices);
      if mid.Fell? {
        AllDropsStayLeaky(rest, l1, mid.owned, mid.choices);
      }
    } else {
      NothingRuns(owned, choices);
    }
  }

  /** Cleanup before leaving the function cannot make up for a leak. */
  lemma ExitIsBad(order: seq<seq<CName>>, live: Live, owned: seq<CName>, choices: seq<bool>, after: Live)
    requires Leaky(live, owned)
    ensures var end := Exec(true, AllDrops(order, live).0 + [Exit], owned, choices); !end.Fell? && Bad(after, end)
  {
    hide Leaky, AllDrops, Exec;
    var drops := AllDrops(order, live).0;
    AllDropsStayLeaky(order, live, owned, choices);
    ExecJoin(true, drops, [Exit], owned, choices);
    var mid := Exec(true, drops, owned, choices);
    if mid.Fell? {
      LeakyIsOwned(AllDrops(order, live).1, mid.owned);
      ExecSingle(true, Exit, mid.owned, mid.choices);
    }
  }

  lemma {:induction false} TakesStayBad(live: Live, waiting: seq<CName>, names: seq<CName>, owned: seq<CName>,
                                        choices: seq<bool>)
    requires Off(live, waiting + names) && Leaky(Held(live, waiting + names), owned)
    ensures Bad(Held(live, waiting), Exec(true, Takes(names), owned, choices)) && Off(live, waiting)
    decreases names
  {
    hide Leaky, Off;
    if names == [] {
      assert waiting + names == waiting;
      NothingRuns(owned, choices);
    } else {
      var c, rest := names[0], names[1..];
      assert names == [c] + rest && waiting + ([c] + rest) == waiting + [c] + rest;
      assert ([Take(c)] + Takes(rest))[1..] == Takes(rest);
      OffWithout(live, waiting, c, rest);
      if c in owned {
        ReleaseStaysLeaky(Held(live, waiting + names), owned, c);
        LessLive(Held(live, waiting + names)[c := false], Held(live, waiting + rest), Released(owned, c));
        TakesStayBad(live, waiting, rest, Released(owned, c), choices);
      } else {
        OffPrefix(live, waiting, rest);
      }
    }
  }

  lemma OffWithout(live: Live, waiting: seq<CName>, c: CName, rest: seq<CName>)
    requires Off(live, waiting + [c] + rest)
    ensures Off(live, waiting + rest) && c !in waiting + rest && !IsLive(live, c)
  {
    DistinctWithout(waiting, c, rest);
    assert c in waiting + [c] + rest;
  }

  lemma OffPrefix(live: Live, waiting: seq<CName>, rest: seq<CName>)
    requires Off(live, waiting + rest)
    ensures Off(live, waiting)
  {
    DistinctParts(waiting, rest);
  }

  /** What an expression leaves of the owners that wait and of those it moves. */
  lemma {:induction false} PartsOff(st: State, es: seq<Effect>, waiting: seq<CName>)
    requires MovesLive(st, es) && Off(st.live, waiting)
    ensures var low := LowerParts(st, es); Off(low.st.live, waiting + low.pending)
    decreases es, 0
  {
    hide Off, LowerPart, PartFits;
    if es == [] {
      assert waiting + [] == waiting;
    } else {
      var first := LowerPart(st, es[0]);
      var rest := LowerParts(first.st, es[1..]);
      PartOff(st, es[0], waiting);
      PartsOff(first.st, es[1..], waiting + first.pending);
      assert waiting + (first.pending + rest.pending) == waiting + first.pending + rest.pending;
    }
  }

  lemma {:induction false} PartOff(st: State, e: Effect, waiting: seq<CName>)
    requires PartFits(st, e) && Off(st.live, waiting)
    ensures var low := LowerPart(st, e); Off(low.st.live, waiting + low.pending)
    decreases e
  {
    assert waiting + [] == waiting;
    if !e.Move? {
      PartsOff(st, e.operand, waiting);
      OffPrefix(LowerParts(st, e.operand).st.live, waiting, LowerParts(st, e.operand).pending);
    }
  }

  lemma {:induction false} EffectsStayBad(st: State, es: seq<Effect>, owned: seq<CName>, choices: seq<bool>)
    requires MovesLive(st, es) && Leaky(st.live, owned)
    ensures var (code, st1) := LowerEffects(st, es); Bad(st1.live, Exec(true, code, owned, choices))
  {
    hide Leaky, LowerEffects, Exec;
    assert Held(st.live, []) == st.live;
    CompletedStaysBad(st, es, [], owned, choices);
    assert Held(LowerEffects(st, es).1.live, []) == LowerEffects(st, es).1.live;
  }

  lemma {:induction false} CompletedStaysBad(st: State, es: seq<Effect>, waiting: seq<CName>, owned: seq<CName>,
                                             choices: seq<bool>)
    requires MovesLive(st, es) && Off(st.live, waiting) && Leaky(Held(st.live, waiting), owned)
    ensures var (code, st1) := LowerEffects(st, es); Bad(Held(st1.live, waiting), Exec(true, code, owned, choices))
    decreases es, 1
  {
    hide Leaky, Off, LowerParts, Held, Exec;
    PartsStayBad(st, es, waiting, owned, choices);
    CompletionStaysBad(st, es, waiting, owned, choices);
  }

  /** Handing over what was moved does not make up for a leak. */
  lemma CompletionStaysBad(st: State, es: seq<Effect>, waiting: seq<CName>, owned: seq<CName>, choices: seq<bool>)
    requires MovesLive(st, es) && Off(st.live, waiting)
    requires var low := LowerParts(st, es);
             Bad(Held(low.st.live, waiting + low.pending), Exec(true, low.prelude, owned, choices))
    ensures var (code, st1) := LowerEffects(st, es); Bad(Held(st1.live, waiting), Exec(true, code, owned, choices))
  {
    hide Leaky, Off, LowerParts, Held, Exec;
    var low := LowerParts(st, es);
    PartsOff(st, es, waiting);
    ExecJoin(true, low.prelude, Takes(low.pending), owned, choices);
    var mid := Exec(true, low.prelude, owned, choices);
    if mid.Fell? {
      TakesStayBad(low.st.live, waiting, low.pending, mid.owned, mid.choices);
    }
  }

  lemma {:induction false} PartsStayBad(st: State, es: seq<Effect>, waiting: seq<CName>, owned: seq<CName>,
                                        choices: seq<bool>)
    requires MovesLive(st, es) && Off(st.live, waiting) && Leaky(Held(st.live, waiting), owned)
    ensures var low := LowerParts(st, es);
            Bad(Held(low.st.live, waiting + low.pending), Exec(true, low.prelude, owned, choices))
    decreases es, 0
  {
    hide Leaky, Off, LowerPart, PartFits, Held, Exec;
    if es == [] {
      assert waiting + [] == waiting;
      NothingRuns(owned, choices);
    } else {
      PartStaysBad(st, es[0], waiting, owned, choices);
      LaterPartsStayBad(st, es, waiting, owned, choices);
    }
  }

  /** Once the first part of an expression ends badly, the expression does. */
  lemma {:induction false} LaterPartsStayBad(st: State, es: seq<Effect>, waiting: seq<CName>, owned: seq<CName>,
                                             choices: seq<bool>)
    requires MovesLive(st, es) && Off(st.live, waiting) && es != []
    requires var first := LowerPart(st, es[0]);
             Bad(Held(first.st.live, waiting + first.pending), Exec(true, first.prelude, owned, choices))
    ensures var low := LowerParts(st, es);
            Bad(Held(low.st.live, waiting + low.pending), Exec(true, low.prelude, owned, choices))
    decreases es[1..], 1
  {
    hide Leaky, Off, LowerPart, PartFits, Held, Exec;
    var first := LowerPart(st, es[0]);
    var rest := LowerParts(first.st, es[1..]);
    ExecJoin(true, first.prelude, rest.prelude, owned, choices);
    var mid := Exec(true, first.prelude, owned, choices);
    assert waiting + (first.pending + rest.pending) == waiting + first.pending + rest.pending;
    if mid.Fell? {
      PartOff(st, es[0], waiting);
      PartsStayBad(first.st, es[1..], waiting + first.pending, mid.owned, mid.choices);
    } else {
      EndedIsBad(Held(first.st.live, waiting + first.pending),
                 Held(rest.st.live, waiting + first.pending + rest.pending), mid);
    }
  }

  lemma {:induction false} PartStaysBad(st: State, e: Effect, waiting: seq<CName>, owned: seq<CName>,
                                        choices: seq<bool>)
    requires PartFits(st, e) && Off(st.live, waiting) && Leaky(Held(st.live, waiting), owned)
    ensures var low := LowerPart(st, e);
            Bad(Held(low.st.live, waiting + low.pending), Exec(true, low.prelude, owned, choices))
    decreases e
  {
    hide Leaky, LowerEffects, Exec;
    assert waiting + [] == waiting;
    match e
    case Move(x) =>
      NothingRuns(owned, choices);
      if MovesOwner(st.scopes, e) {
        var c := Lookup(st.scopes, x).value.c;
        LessLive(Held(st.live, waiting), Held(st.live[c := false], waiting + [c]), owned);
      }
    case Propagate(operand) =>
      CompletedStaysBad(st, operand, waiting, owned, choices);
      TestStaysBad(st, operand, waiting, owned, choices);
    case Complete(operand) => CompletedStaysBad(st, operand, waiting, owned, choices);
  }

  /** Neither branch of a failure test makes up for a leak in the tested operand. */
  lemma TestStaysBad(st: State, operand: seq<Effect>, waiting: seq<CName>, owned: seq<CName>, choices: seq<bool>)
    requires var (code, st1) := LowerEffects(st, operand);
             Bad(Held(st1.live, waiting), Exec(true, code, owned, choices))
    ensures var low := LowerPart(st, Propagate(operand));
            Bad(Held(low.st.live, waiting), Exec(true, low.prelude, owned, choices))
  {
    hide Leaky, LowerEffects, AllDrops, Exec;
    var (code, st1) := LowerEffects(st, operand);
    var cleanup := AllDrops(st1.order, st1.live).0 + [Exit];
    ExecJoin(true, code, [IfFailed(cleanup)], owned, choices);
    var mid := Exec(true, code, owned, choices);
    if mid.Fell? {
      ExecSingle(true, IfFailed(cleanup), mid.owned, mid.choices);
      LessLive(Held(st1.live, waiting), st1.live, mid.owned);
      ExitIsBad(st1.order, st1.live, mid.owned, Tail(mid.choices), Held(st1.live, waiting));
    }
  }

  lemma BindStaysLeaky(st: State, x: string, owned: seq<CName>)
    requires Deep(st) && Leaky(st.live, owned)
    ensures Leaky(Bind(st, x, true).live, owned + [NameFor(st, x)]) && Leaky(Bind(st, x, false).live, owned)
  {
    hide NameFor;
    var c := NameFor(st, x);
    var d :| LeaksAt(st.live, owned, d);
    assert LeaksAt(st.live[c := true], owned + [c], d);
  }

  lemma DeclareStaysBad(st: State, s: Stmt, owned: seq<CName>, choices: seq<bool>)
    requires Deep(st) && s.Declare? && StmtFits(st, s) && Leaky(st.live, owned)
    ensures var (code, st1) := LowerStmt(st, s); Bad(st1.live, Exec(true, code, owned, choices))
  {
    hide Leaky, LowerStmt, Exec;
    EffectsStayBad(st, s.init, owned, choices);
    DeclareRestStaysBad(st, s, owned, choices);
  }

  lemma DeclareRestStaysBad(st: State, s: Stmt, owned: seq<CName>, choices: seq<bool>)
    requires Deep(st) && s.Declare?
    requires var (code, st1) := LowerEffects(st, s.init); Bad(st1.live, Exec(true, code, owned, choices))
    ensures var (code, st1) := LowerStmt(st, s); Bad(st1.live, Exec(true, code, owned, choices))
  {
    hide Leaky, LowerEffects, Bind, NameFor, Exec;
    var (code, st1) := LowerEffects(st, s.init);
    var c := NameFor(st1, s.x);
    var tail := if s.owns then [Init(c)] else [];
    ExecJoin(true, code, tail, owned, choices);
    var mid := Exec(true, code, owned, choices);
    if mid.Fell? {
      BindStaysLeaky(st1, s.x, mid.owned);
      ExecSingle(true, Init(c), mid.owned, mid.choices);
      NothingRuns(mid.owned, mid.choices);
    }
  }

  lemma ReturnStaysBad(st: State, s: Stmt, owned: seq<CName>, choices: seq<bool>)
    requires Deep(st) && s.Return? && StmtFits(st, s) && Leaky(st.live, owned)
    ensures var (code, st1) := LowerStmt(st, s); Bad(st1.live, Exec(true, code, owned, choices))
  {
    hide Leaky, LowerStmt, Exec;
    EffectsStayBad(st, s.es, owned, choices);
    ReturnRestStaysBad(st, s, owned, choices);
  }

  lemma ReturnRestStaysBad(st: State, s: Stmt, owned: seq<CName>, choices: seq<bool>)
    requires Deep(st) && s.Return?
    requires var (code, st1) := LowerEffects(st, s.es); Bad(st1.live, Exec(true, code, owned, choices))
    ensures var (code, st1) := LowerStmt(st, s); Bad(st1.live, Exec(true, code, owned, choices))
  {
    hide Leaky, LowerEffects, AllDrops, Exec;
    var (code, st1) := LowerEffects(st, s.es);
    var (drops, live) := AllDrops(st1.order, st1.live);
    assert code + drops + [Exit] == code + (drops + [Exit]);
    ExecJoin(true, code, drops + [Exit], owned, choices);
    var mid := Exec(true, code, owned, choices);
    if mid.Fell? {
      ExitIsBad(st1.order, st1.live, mid.owned, mid.choices, live);
    }
  }

  lemma {:induction false} StmtStaysBad(st: State, s: Stmt, owned: seq<CName>, choices: seq<bool>)
    requires WellNamed(st) && StmtUnrepeated(s) && StmtFits(st, s) && Leaky(st.live, owned)
    ensures var (code, st1) := LowerStmt(st, s); Bad(st1.live, Exec(true, code, owned, choices))
    decreases s, 2
  {
    hide WellNamed, Leaky, LowerEffects, LowerBlock, Unrepeated, BlockFits, Exec;
    DeepNamed(st);
    match s
    case Declare(_, _, _) => DeclareStaysBad(st, s, owned, choices);
    case Do(es) => EffectsStayBad(st, es, owned, choices);
    case Return(_) => ReturnStaysBad(st, s, owned, choices);
    case Block(b) => BlockStaysBad(st, b, owned, choices);
    case If(_, _, _, _) => IfStaysBad(st, s, owned, choices);
  }

  /** A branch's end, seen from after the `if`. */
  lemma JoinedStaysBad(thenReturns: bool, elseReturns: bool, thenLive: Live, elseLive: Live, end: End)
    ensures !elseReturns && Bad(elseLive, end) ==> Bad(Joined(thenReturns, elseReturns, thenLive, elseLive), end)
    ensures !thenReturns && Bad(thenLive, end) ==> Bad(Joined(thenReturns, elseReturns, thenLive, elseLive), end)
    ensures !end.Fell? && (Bad(thenLive, end) || Bad(elseLive, end)) ==>
              Bad(Joined(thenReturns, elseReturns, thenLive, elseLive), end)
  {
    hide Leaky;
    var joined := Joined(thenReturns, elseReturns, thenLive, elseLive);
    if end.Fell? && !elseReturns && Leaky(elseLive, end.owned) {
      LessLive(elseLive, joined, end.owned);
    }
    if end.Fell? && !thenReturns && Leaky(thenLive, end.owned) {
      LessLive(thenLive, joined, end.owned);
    }
  }

  lemma JoinedOneStaysBad(thenReturns: bool, before: Live, thenLive: Live, end: End)
    requires !thenReturns ==> forall c :: c in before ==> c in thenLive || !before[c]
    ensures Bad(before, end) ==> Bad(JoinedOne(thenReturns, before, thenLive), end)
    ensures (!thenReturns || !end.Fell?) && Bad(thenLive, end) ==> Bad(JoinedOne(thenReturns, before, thenLive), end)
  {
    hide Leaky;
    var joined := JoinedOne(thenReturns, before, thenLive);
    if end.Fell? && Leaky(before, end.owned) {
      LessLive(before, joined, end.owned);
    }
    if end.Fell? && !thenReturns && Leaky(thenLive, end.owned) {
      LessLive(thenLive, joined, end.owned);
    }
  }

  /** The state each branch leaves, and the state after the `if`. */
  lemma AfterThen(st: State, s: Stmt, end: End)
    requires WellNamed(st) && StmtUnrepeated(s) && s.If?
    requires var st1 := LowerEffects(st, s.cond).1;
             Bad(LowerBlock(st1, s.thn).1.live, end) && (EndsInReturn(s.thn) ==> !end.Fell?)
    ensures Bad(LowerStmt(st, s).1.live, end)
  {
    hide WellNamed, Bad, LowerEffects, LowerBlock, Unrepeated, EndsInReturn, Joined, JoinedOne;
    DeepNamed(st);
    EffectsKeepNames(st, s.cond);
    var st1 := LowerEffects(st, s.cond).1;
    BlockKeepsNames(st1, s.thn);
    var st2 := LowerBlock(st1, s.thn).1;
    if s.hasElse {
      var st3 := LowerBlock(st2.(live := st1.live), s.els).1;
      JoinedStaysBad(EndsInReturn(s.thn), EndsInReturn(s.els), st2.live, st3.live, end);
    } else {
      KeysStay(st1, st2);
      JoinedOneStaysBad(EndsInReturn(s.thn), st1.live, st2.live, end);
    }
  }

  lemma AfterElse(st: State, s: Stmt, end: End)
    requires WellNamed(st) && StmtUnrepeated(s) && s.If?
    requires var st1 := LowerEffects(st, s.cond).1;
             if s.hasElse
             then Bad(LowerBlock(LowerBlock(st1, s.thn).1.(live := st1.live), s.els).1.live, end)
                  && (EndsInReturn(s.els) ==> !end.Fell?)
             else Bad(st1.live, end)
    ensures Bad(LowerStmt(st, s).1.live, end)
  {
    hide WellNamed, Bad, LowerEffects, LowerBlock, Unrepeated, EndsInReturn, Joined, JoinedOne;
    DeepNamed(st);
    EffectsKeepNames(st, s.cond);
    var st1 := LowerEffects(st, s.cond).1;
    BlockKeepsNames(st1, s.thn);
    var st2 := LowerBlock(st1, s.thn).1;
    if s.hasElse {
      var st3 := LowerBlock(st2.(live := st1.live), s.els).1;
      JoinedStaysBad(EndsInReturn(s.thn), EndsInReturn(s.els), st2.live, st3.live, end);
    } else {
      KeysStay(st1, st2);
      JoinedOneStaysBad(EndsInReturn(s.thn), st1.live, st2.live, end);
    }
  }

  lemma {:induction false} IfStaysBad(st: State, s: Stmt, owned: seq<CName>, choices: seq<bool>)
    requires WellNamed(st) && StmtUnrepeated(s) && StmtFits(st, s) && s.If? && Leaky(st.live, owned)
    ensures var (code, st1) := LowerStmt(st, s); Bad(st1.live, Exec(true, code, owned, choices))
    decreases s, 1
  {
    hide WellNamed, Leaky, LowerStmt, Unrepeated, BlockFits, LowerBlock, Exec;
    DeepNamed(st);
    EffectsStayBad(st, s.cond, owned, choices);
    BranchesStayBad(st, s, owned, choices);
  }

  /** Once the condition ends badly, the `if` does. */
  lemma {:induction false} BranchesStayBad(st: State, s: Stmt, owned: seq<CName>, choices: seq<bool>)
    requires WellNamed(st) && StmtUnrepeated(s) && StmtFits(st, s) && s.If?
    requires var (code, st1) := LowerEffects(st, s.cond); Bad(st1.live, Exec(true, code, owned, choices))
    ensures var (code, st1) := LowerStmt(st, s); Bad(st1.live, Exec(true, code, owned, choices))
    decreases s, 0
  {
    hide WellNamed, Leaky, LowerEffects, LowerBlock, Unrepeated, EndsInReturn, BlockFits, Joined, JoinedOne, Exec;
    DeepNamed(st);
    var (cond, st1) := LowerEffects(st, s.cond);
    EffectsKeepNames(st, s.cond);
    BlockKeepsNames(st1, s.thn);
    var (thn, st2) := LowerBlock(st1, s.thn);
    OtherBranchNamed(st1, st2);
    var other := st2.(live := st1.live);
    var els := if s.hasElse then LowerBlock(other, s.els).0 else [];
    BranchRuns(true, cond, thn, els, owned, choices);
    var mid := Exec(true, cond, owned, choices);
    if mid.Fell? {
      var cs := Tail(mid.choices);
      if Head(mid.choices) {
        BlockStaysBad(st1, s.thn, mid.owned, cs);
        ReturnStops(st1, s.thn, mid.owned, cs);
        AfterThen(st, s, Exec(true, thn, mid.owned, cs));
      } else if s.hasElse {
        BlockStaysBad(other, s.els, mid.owned, cs);
        ReturnStops(other, s.els, mid.owned, cs);
        AfterElse(st, s, Exec(true, els, mid.owned, cs));
      } else {
        NothingRuns(mid.owned, cs);
        AfterElse(st, s, Fell(mid.owned, cs));
      }
    } else {
      EndedIsBad(st1.live, LowerStmt(st, s).1.live, mid);
    }
  }

  lemma EndedIsBad(a: Live, b: Live, end: End)
    requires Bad(a, end) && !end.Fell?
    ensures Bad(b, end)
  {
  }

  lemma {:induction false} AllStayBad(st: State, b: seq<Stmt>, owned: seq<CName>, choices: seq<bool>)
    requires WellNamed(st) && InnerUnrepeated(b) && NewHere(st, Declared(b)) && AllFits(st, b) && Leaky(st.live, owned)
    ensures var (code, st1) := LowerAll(st, b); Bad(st1.live, Exec(true, code, owned, choices))
    decreases b, 0
  {
    hide WellNamed, Leaky, LowerStmt, StmtUnrepeated, StmtFits, CanFall, Exec;
    DeepNamed(st);
    if b == [] {
      NothingRuns(owned, choices);
    } else {
      StmtStaysBad(st, b[0], owned, choices);
      RestStaysBad(st, b, owned, choices);
    }
  }

  /** Once the first statement of a list ends badly, the list does. */
  lemma {:induction false} RestStaysBad(st: State, b: seq<Stmt>, owned: seq<CName>, choices: seq<bool>)
    requires WellNamed(st) && InnerUnrepeated(b) && NewHere(st, Declared(b)) && AllFits(st, b) && b != []
    requires Bad(LowerStmt(st, b[0]).1.live, Exec(true, LowerStmt(st, b[0]).0, owned, choices))
    ensures var (code, st1) := LowerAll(st, b); Bad(st1.live, Exec(true, code, owned, choices))
    decreases b[1..], 1
  {
    hide WellNamed, Leaky, LowerStmt, StmtUnrepeated, StmtFits, CanFall, Exec;
    DeepNamed(st);
    FirstDeclared(st, b);
    StmtKeepsNames(st, b[0]);
    var (first, st1) := LowerStmt(st, b[0]);
    var (rest, st2) := LowerAll(st1, b[1..]);
    ExecJoin(true, first, rest, owned, choices);
    var mid := Exec(true, first, owned, choices);
    if !CanFall(b[0]) {
      StmtStops(true, st, b[0], owned, choices);
      EndedIsBad(st1.live, st2.live, mid);
    } else if mid.Fell? {
      StillNew(st, b, st1);
      AllStayBad(st1, b[1..], mid.owned, mid.choices);
    } else {
      EndedIsBad(st1.live, st2.live, mid);
    }
  }

  lemma {:induction false} BlockStaysBad(st: State, b: seq<Stmt>, owned: seq<CName>, choices: seq<bool>)
    requires WellNamed(st) && Unrepeated(b) && BlockFits(st, b) && Leaky(st.live, owned)
    ensures var (code, st1) := LowerBlock(st, b); Bad(st1.live, Exec(true, code, owned, choices))
    decreases b, 1
  {
    hide WellNamed, Leaky, LowerAll, Exec;
    DeepNamed(st);
    PushKeepsNames(st);
    AllStayBad(Push(st), b, owned, choices);
    ScopeEndStaysBad(st, b, owned, choices);
  }

  /** The drops at the end of a scope do not make up for a leak in it. */
  lemma ScopeEndStaysBad(st: State, b: seq<Stmt>, owned: seq<CName>, choices: seq<bool>)
    requires Deep(st) && Bad(LowerAll(Push(st), b).1.live, Exec(true, LowerAll(Push(st), b).0, owned, choices))
    ensures var (code, st1) := LowerBlock(st, b); Bad(st1.live, Exec(true, code, owned, choices))
  {
    hide Leaky, LowerAll, ScopeDrops, Exec;
    var (code, st1) := LowerAll(Push(st), b);
    var names := st1.order[|st1.order| - 1];
    var (drops, live) := ScopeDrops(names, st1.live);
    ExecJoin(true, code, drops, owned, choices);
    var mid := Exec(true, code, owned, choices);
    if mid.Fell? {
      DropsStayLeaky(names, st1.live, mid.owned, mid.choices);
      var end := Exec(true, drops, mid.owned, mid.choices);
      if end.Fell? {
        LessLive(live, Without(live, names), end.owned);
      }
    }
  }

  // ---------------------------------------------------------------------------------------------
  // What cannot fall through has released everything

  /** Owners of the surrounding scopes never come back to life, and none lives on where control cannot. */
  lemma {:induction false} StmtTurnsOff(st: State, s: Stmt, c: CName)
    requires WellNamed(st) && StmtUnrepeated(s) && (s.Declare? ==> s.x !in st.scopes[|st.scopes| - 1])
    requires c in Flat(st.order) && (!IsLive(st.live, c) || !CanFall(s))
    ensures !IsLive(LowerStmt(st, s).1.live, c)
    decreases s, 1
  {
    hide WellNamed, LowerEffects, LowerBlock, AllDrops, NameFor, Unrepeated;
    DeepNamed(st);
    match s
    case Declare(x, _, es) =>
      EffectsTurnNoneOn(st, es, c);
      EffectsKeepNames(st, es);
      NameIsFresh(LowerEffects(st, es).1, x);
    case Do(es) => EffectsTurnNoneOn(st, es, c);
    case Return(es) =>
      var st1 := LowerEffects(st, es).1;
      AllDropsLive(st1.order, st1.live);
    case Block(b) => BlockTurnsOff(st, b, c);
    case If(_, _, _, _) => IfTurnsOff(st, s, c);
  }

  lemma {:induction false} IfTurnsOff(st: State, s: Stmt, c: CName)
    requires WellNamed(st) && StmtUnrepeated(s) && s.If?
    requires c in Flat(st.order) && (!IsLive(st.live, c) || !CanFall(s))
    ensures !IsLive(LowerStmt(st, s).1.live, c)
    decreases s, 0
  {
    hide WellNamed, LowerEffects, LowerBlock, Unrepeated, EndsInReturn, AllFall;
    DeepNamed(st);
    if !IsLive(st.live, c) {
      EffectsTurnNoneOn(st, s.cond, c);
    }
    EffectsKeepNames(st, s.cond);
    var st1 := LowerEffects(st, s.cond).1;
    BlockKeepsNames(st1, s.thn);
    BlockTurnsOff(st1, s.thn, c);
    var st2 := LowerBlock(st1, s.thn).1;
    if s.hasElse {
      OtherBranchNamed(st1, st2);
      BlockTurnsOff(st2.(live := st1.live), s.els, c);
    }
  }

  lemma KeepsOrder(st: State, s: Stmt, c: CName)
    requires WellNamed(st) && StmtUnrepeated(s) && (s.Declare? ==> s.x !in st.scopes[|st.scopes| - 1])
             && c in Flat(st.order)
    ensures c in Flat(LowerStmt(st, s).1.order)
  {
    hide LowerEffects, LowerBlock, NameFor, Unrepeated, Bind;
    StmtKeepsNames(st, s);
    if s.Declare? {
      EffectsKeepNames(st, s.init);
      BindKeepsNames(LowerEffects(st, s.init).1, s.x, s.owns);
    }
  }

  lemma {:induction false} AllTurnOff(st: State, b: seq<Stmt>, c: CName)
    requires WellNamed(st) && InnerUnrepeated(b) && NewHere(st, Declared(b))
    requires c in Flat(st.order) && (!IsLive(st.live, c) || !AllFall(b))
    ensures !IsLive(LowerAll(st, b).1.live, c)
    decreases b, 0
  {
    hide WellNamed, LowerStmt, StmtUnrepeated, CanFall, IsLive;
    DeepNamed(st);
    if b != [] {
      FirstDeclared(st, b);
      StmtKeepsNames(st, b[0]);
      var st1 := LowerStmt(st, b[0]).1;
      if !IsLive(st.live, c) || !CanFall(b[0]) {
        StmtTurnsOff(st, b[0], c);
      }
      KeepsOrder(st, b[0], c);
      StillNew(st, b, st1);
      AllTurnOff(st1, b[1..], c);
    }
  }

  lemma {:induction false} BlockTurnsOff(st: State, b: seq<Stmt>, c: CName)
    requires WellNamed(st) && Unrepeated(b)
    requires c in Flat(st.order) && (!IsLive(st.live, c) || !AllFall(b))
    ensures !IsLive(LowerBlock(st, b).1.live, c)
    decreases b, 1
  {
    hide WellNamed, LowerAll, AllFall;
    DeepNamed(st);
    PushKeepsNames(st);
    AllTurnOff(Push(st), b, c);
    var st1 := LowerAll(Push(st), b).1;
    ScopeDropsLive(st1.order[|st1.order| - 1], st1.live);
  }

  // ---------------------------------------------------------------------------------------------
  // Choices that fall through

  /** No test finds a failure; `rest` is left. */
  lemma EffectsFall(st: State, es: seq<Effect>, rest: seq<bool>) returns (choices: seq<bool>)
    requires WellNamed(st) && MovesLive(st, es)
    ensures var (code, st1) := LowerEffects(st, es);
            Exec(true, code, Filter(Flat(st.order), st.live), choices) == Fell(Filter(Flat(st1.order), st1.live), rest)
  {
    hide WellNamed, Waiting, Owned, LowerEffects;
    NoneWaiting(st);
    choices := CompletedFalls(st, es, [], rest);
    NoneWaiting(LowerEffects(st, es).1);
  }

  /** Whatever waits, a run without failures owns what is live or waits. */
  ghost predicate FallsHeld(code: seq<Code>, st: State, waiting: seq<CName>, st1: State, left: seq<CName>,
                            choices: seq<bool>, rest: seq<bool>)
  {
    Exec(true, code, Owned(st, waiting), choices) == Fell(Owned(st1, left), rest)
  }

  lemma {:induction false} CompletedFalls(st: State, es: seq<Effect>, waiting: seq<CName>, rest: seq<bool>)
    returns (choices: seq<bool>)
    requires WellNamed(st) && MovesLive(st, es) && Waiting(st, waiting)
    ensures var (code, st1) := LowerEffects(st, es);
            Waiting(st1, waiting) && FallsHeld(code, st, waiting, st1, waiting, choices, rest)
    decreases es, 1
  {
    hide WellNamed, Waiting, Owned, LowerParts, Exec;
    var low := LowerParts(st, es);
    choices := PartsFall(st, es, waiting, rest);
    PartsKeepNames(st, es);
    ExecJoin(true, low.prelude, Takes(low.pending), Owned(st, waiting), choices);
    TakesTrack(low.st, waiting, low.pending, rest);
  }

  lemma {:induction false} PartsFall(st: State, es: seq<Effect>, waiting: seq<CName>, rest: seq<bool>)
    returns (choices: seq<bool>)
    requires WellNamed(st) && MovesLive(st, es) && Waiting(st, waiting)
    ensures var low := LowerParts(st, es);
            && Waiting(low.st, waiting + low.pending)
            && FallsHeld(low.prelude, st, waiting, low.st, waiting + low.pending, choices, rest)
    decreases es, 0
  {
    hide WellNamed, Waiting, Owned, LowerPart, PartFits, Exec;
    if es == [] {
      choices := rest;
      assert waiting + [] == waiting;
      NothingRuns(Owned(st, waiting), choices);
    } else {
      var first := LowerPart(st, es[0]);
      var later := LowerParts(first.st, es[1..]);
      var _ := PartFalls(st, es[0], waiting, rest);
      PartKeepsNames(st, es[0]);
      var next := PartsFall(first.st, es[1..], waiting + first.pending, rest);
      choices := PartFalls(st, es[0], waiting, next);
      ExecJoin(true, first.prelude, later.prelude, Owned(st, waiting), choices);
      assert waiting + (first.pending + later.pending) == waiting + first.pending + later.pending;
    }
  }

  lemma {:induction false} PartFalls(st: State, e: Effect, waiting: seq<CName>, rest: seq<bool>)
    returns (choices: seq<bool>)
    requires WellNamed(st) && PartFits(st, e) && Waiting(st, waiting)
    ensures var low := LowerPart(st, e);
            && Waiting(low.st, waiting + low.pending)
            && FallsHeld(low.prelude, st, waiting, low.st, waiting + low.pending, choices, rest)
    decreases e
  {
    hide WellNamed, Waiting, Owned, LowerEffects, Exec;
    assert waiting + [] == waiting;
    match e
    case Move(x) =>
      choices := rest;
      NothingRuns(Owned(st, waiting), choices);
      if MovesOwner(st.scopes, e) {
        var c := Lookup(st.scopes, x).value.c;
        LiveIsKnown(st, c);
        MoveWaits(st, waiting, c);
      }
    case Propagate(operand) =>
      choices := CompletedFalls(st, operand, waiting, [false] + rest);
      TestFalls(st, operand, waiting, choices, false, rest);
    case Complete(operand) => choices := CompletedFalls(st, operand, waiting, rest);
  }

  /** A test after an operand that was computed without failures. */
  lemma TestFalls(st: State, operand: seq<Effect>, waiting: seq<CName>, choices: seq<bool>, failed: bool,
                  rest: seq<bool>)
    requires var (code, st1) := LowerEffects(st, operand);
             FallsHeld(code, st, waiting, st1, waiting, choices, [failed] + rest)
    ensures var (code, st1) := LowerEffects(st, operand);
            Exec(true, LowerPart(st, Propagate(operand)).prelude, Owned(st, waiting), choices) ==
            (if failed then Exec(true, AllDrops(st1.order, st1.live).0 + [Exit], Owned(st1, waiting), rest)
             else Fell(Owned(st1, waiting), rest))
  {
    hide Owned, LowerEffects, AllDrops;
    var (code, st1) := LowerEffects(st, operand);
    var cleanup := AllDrops(st1.order, st1.live).0 + [Exit];
    ExecJoin(true, code, [IfFailed(cleanup)], Owned(st, waiting), choices);
    ExecSingle(true, IfFailed(cleanup), Owned(st1, waiting), [failed] + rest);
    assert ([failed] + rest)[1..] == rest;
  }

  /** The run falls through and leaves `rest`. */
  ghost predicate Falls(code: seq<Code>, st: State, choices: seq<bool>, rest: seq<bool>) {
    var end := Exec(true, code, Filter(Flat(st.order), st.live), choices);
    end.Fell? && end.choices == rest
  }

  lemma {:induction false} StmtFalls(st: State, s: Stmt, rest: seq<bool>) returns (choices: seq<bool>)
    requires WellNamed(st) && StmtUnrepeated(s) && StmtFits(st, s) && StmtOrderly(st, s)
    requires CanFall(s) && (s.Declare? ==> s.x !in st.scopes[|st.scopes| - 1])
    ensures Falls(LowerStmt(st, s).0, st, choices, rest)
    decreases s, 1
  {
    hide WellNamed, LowerEffects, LowerBlock, Unrepeated, BlockFits, BlockOrderly, Exec, NameFor;
    DeepNamed(st);
    if s.Declare? {
      choices := EffectsFall(st, s.init, rest);
      var (code, st1) := LowerEffects(st, s.init);
      var c := NameFor(st1, s.x);
      var owned := Filter(Flat(st1.order), st1.live);
      ExecJoin(true, code, if s.owns then [Init(c)] else [], Filter(Flat(st.order), st.live), choices);
      ExecSingle(true, Init(c), owned, rest);
      NothingRuns(owned, rest);
    } else if s.Do? {
      choices := EffectsFall(st, s.es, rest);
    } else if s.Block? {
      choices := BlockFalls(st, s.stmts, rest);
    } else {
      choices := IfFalls(st, s, rest);
    }
  }

  lemma {:induction false} IfFalls(st: State, s: Stmt, rest: seq<bool>) returns (choices: seq<bool>)
    requires WellNamed(st) && StmtUnrepeated(s) && StmtFits(st, s) && StmtOrderly(st, s) && s.If? && CanFall(s)
    ensures Falls(LowerStmt(st, s).0, st, choices, rest)
    decreases s, 0
  {
    hide WellNamed, LowerEffects, LowerBlock, Unrepeated, BlockFits, BlockOrderly, EndsInReturn, Agree, AllFall, Exec;
    DeepNamed(st);
    EffectsKeepNames(st, s.cond);
    var (cond, st1) := LowerEffects(st, s.cond);
    BlockKeepsNames(st1, s.thn);
    var (thn, st2) := LowerBlock(st1, s.thn);
    OtherBranchNamed(st1, st2);
    var other := st2.(live := st1.live);
    var els := if s.hasElse then LowerBlock(other, s.els).0 else [];
    var later: seq<bool>;
    if s.hasElse && AllFall(s.thn) {
      later := BlockFalls(st1, s.thn, rest);
      later := [true] + later;
    } else if s.hasElse {
      later := BlockFalls(other, s.els, rest);
      later := [false] + later;
    } else {
      later := [false] + rest;
      NothingRuns(Filter(Flat(st1.order), st1.live), rest);
    }
    choices := EffectsFall(st, s.cond, later);
    assert Tail(later) == later[1..];
    BranchRuns(true, cond, thn, els, Filter(Flat(st.order), st.live), choices);
  }

  lemma {:induction false} AllFalls(st: State, b: seq<Stmt>, rest: seq<bool>) returns (choices: seq<bool>)
    requires WellNamed(st) && InnerUnrepeated(b) && NewHere(st, Declared(b)) && AllFits(st, b) && AllOrderly(st, b)
             && AllFall(b)
    ensures Falls(LowerAll(st, b).0, st, choices, rest)
    decreases b, 0
  {
    hide WellNamed, LowerStmt, StmtUnrepeated, StmtFits, StmtOrderly, CanFall, Exec, Filter, Flat,
      NewHere, Declared;
    DeepNamed(st);
    if b == [] {
      choices := rest;
      NothingRuns(Filter(Flat(st.order), st.live), choices);
    } else {
      FirstDeclared(st, b);
      StmtKeepsNames(st, b[0]);
      var (first, st1) := LowerStmt(st, b[0]);
      StillNew(st, b, st1);
      var later := AllFalls(st1, b[1..], rest);
      choices := StmtFalls(st, b[0], later);
      StmtTracks(st, b[0], choices);
      ExecJoin(true, first, LowerAll(st1, b[1..]).0, Filter(Flat(st.order), st.live), choices);
    }
  }

  lemma {:induction false} BlockFalls(st: State, b: seq<Stmt>, rest: seq<bool>) returns (choices: seq<bool>)
    requires WellNamed(st) && Unrepeated(b) && BlockFits(st, b) && BlockOrderly(st, b) && AllFall(b)
    ensures Falls(LowerBlock(st, b).0, st, choices, rest)
    decreases b, 1
  {
    hide WellNamed, LowerAll, AllFall, ScopeDrops, Exec;
    DeepNamed(st);
    PushKeepsNames(st);
    AllKeepNames(Push(st), b);
    choices := AllFalls(Push(st), b, rest);
    AllTrack(Push(st), b, choices);
    var (code, st1) := LowerAll(Push(st), b);
    var names := st1.order[|st1.order| - 1];
    ExecJoin(true, code, ScopeDrops(names, st1.live).0, Filter(Flat(st.order), st.live), choices);
    ScopeEndFalls(st1, rest);
  }

  lemma ScopeEndFalls(st: State, choices: seq<bool>)
    requires WellNamed(st)
    ensures Falls(ScopeDrops(st.order[|st.order| - 1], st.live).0, st, choices, choices)
  {
    var last := |st.order| - 1;
    var names, outer := st.order[last], st.order[..last];
    assert st.order == outer + [names];
    FlatPush(outer, names);
    DistinctParts(Flat(outer), names);
    FilterJoin(Flat(outer), names, st.live);
    DropsInOrder(Filter(Flat(outer), st.live), names, st.live, choices);
  }

  // ---------------------------------------------------------------------------------------------
  // A disagreement leaks

  /** The run from the tracked owners ends badly. */
  ghost predicate EndsBadly(code: seq<Code>, st: State, after: State, choices: seq<bool>) {
    Bad(after.live, Exec(true, code, Filter(Flat(st.order), st.live), choices))
  }

  // A failure tested before a hand-over

  /** The failure that is tested first while some owner waits. */
  lemma TestLeaks(st: State, operand: seq<Effect>, waiting: seq<CName>) returns (choices: seq<bool>)
    requires WellNamed(st) && MovesLive(st, operand) && Waiting(st, waiting) && waiting != []
    ensures var low := LowerPart(st, Propagate(operand));
            Bad(Held(low.st.live, waiting), Exec(true, low.prelude, Owned(st, waiting), choices))
  {
    hide WellNamed, LowerEffects, AllDrops, Exec;
    choices := CompletedFalls(st, operand, waiting, [true]);
    assert [true] + [] == [true];
    TestFalls(st, operand, waiting, choices, true, []);
    var st1 := LowerEffects(st, operand).1;
    var c := waiting[0];
    FilterHas(Flat(st1.order), Held(st1.live, waiting), c);
    assert LeaksAt(st1.live, Owned(st1, waiting), c);
    ExitIsBad(st1.order, st1.live, Owned(st1, waiting), [], Held(st1.live, waiting));
  }

  lemma EffectsLeak(st: State, es: seq<Effect>) returns (choices: seq<bool>)
    requires WellNamed(st) && MovesLive(st, es) && !Prompt(st.scopes, es, false)
    ensures var (code, st1) := LowerEffects(st, es);
            Bad(st1.live, Exec(true, code, Filter(Flat(st.order), st.live), choices))
  {
    hide WellNamed, Waiting, Owned, LowerEffects, Leaky, Exec;
    NoneWaiting(st);
    choices := CompletedLeaks(st, es, []);
    assert Held(LowerEffects(st, es).1.live, []) == LowerEffects(st, es).1.live;
  }

  lemma {:induction false} CompletedLeaks(st: State, es: seq<Effect>, waiting: seq<CName>)
    returns (choices: seq<bool>)
    requires WellNamed(st) && MovesLive(st, es) && Waiting(st, waiting) && !Prompt(st.scopes, es, waiting != [])
    ensures var (code, st1) := LowerEffects(st, es);
            Bad(Held(st1.live, waiting), Exec(true, code, Owned(st, waiting), choices))
    decreases es, 1
  {
    hide WellNamed, Off, Owned, LowerParts, LowerEffects, Held, Leaky, Exec;
    choices := PartsLeak(st, es, waiting);
    CompletionStaysBad(st, es, waiting, Owned(st, waiting), choices);
  }

  lemma {:induction false} PartsLeak(st: State, es: seq<Effect>, waiting: seq<CName>) returns (choices: seq<bool>)
    requires WellNamed(st) && MovesLive(st, es) && Waiting(st, waiting) && !Prompt(st.scopes, es, waiting != [])
    ensures var low := LowerParts(st, es);
            Bad(Held(low.st.live, waiting + low.pending), Exec(true, low.prelude, Owned(st, waiting), choices))
    decreases es, 0
  {
    hide WellNamed, Off, Owned, LowerPart, Held, Leaky, Exec, PartFits, PartPrompt;
    var first := LowerPart(st, es[0]);
    if !PartPrompt(st.scopes, es[0], waiting != []) {
      choices := PartLeaks(st, es[0], waiting);
      LaterPartsStayBad(st, es, waiting, Owned(st, waiting), choices);
    } else {
      var _ := PartFalls(st, es[0], waiting, []);
      PartKeepsNames(st, es[0]);
      PendingIffMoves(st, es[0]);
      var next := PartsLeak(first.st, es[1..], waiting + first.pending);
      choices := PartFalls(st, es[0], waiting, next);
      var rest := LowerParts(first.st, es[1..]);
      ExecJoin(true, first.prelude, rest.prelude, Owned(st, waiting), choices);
      assert waiting + (first.pending + rest.pending) == waiting + first.pending + rest.pending;
    }
  }

  lemma {:induction false} PartLeaks(st: State, e: Effect, waiting: seq<CName>) returns (choices: seq<bool>)
    requires WellNamed(st) && PartFits(st, e) && Waiting(st, waiting) && !PartPrompt(st.scopes, e, waiting != [])
    ensures var low := LowerPart(st, e);
            Bad(Held(low.st.live, waiting + low.pending), Exec(true, low.prelude, Owned(st, waiting), choices))
    decreases e
  {
    hide WellNamed, Waiting, Owned, LowerEffects, Held, Leaky, Exec;
    assert waiting + [] == waiting;
    match e
    case Propagate(operand) =>
      if waiting != [] {
        choices := TestLeaks(st, operand, waiting);
      } else {
        choices := CompletedLeaks(st, operand, waiting);
        TestStaysBad(st, operand, waiting, Owned(st, waiting), choices);
      }
    case Complete(operand) => choices := CompletedLeaks(st, operand, waiting);
  }

  lemma {:induction false} StmtLeaks(st: State, s: Stmt) returns (choices: seq<bool>)
    requires WellNamed(st) && StmtUnrepeated(s) && StmtFits(st, s) && !StmtOrderly(st, s)
    ensures EndsBadly(LowerStmt(st, s).0, st, LowerStmt(st, s).1, choices)
    decreases s, 1
  {
    hide WellNamed, LowerEffects, LowerBlock, Unrepeated, BlockFits, BlockOrderly, EndsInReturn, BranchesMeet,
      EndsBadly;
    DeepNamed(st);
    if !Prompt(st.scopes, Direct(s), false) {
      choices := DirectLeaks(st, s);
    } else if s.Block? {
      choices := BlockLeaks(st, s.stmts);
    } else {
      choices := IfLeaks(st, s);
    }
  }

  /** An expression of the statement itself ends badly. */
  lemma DirectLeaks(st: State, s: Stmt) returns (choices: seq<bool>)
    requires WellNamed(st) && StmtUnrepeated(s) && StmtFits(st, s) && !Prompt(st.scopes, Direct(s), false)
    ensures EndsBadly(LowerStmt(st, s).0, st, LowerStmt(st, s).1, choices)
  {
    hide WellNamed, LowerEffects, LowerBlock, Unrepeated, BlockFits, Exec, Bad;
    DeepNamed(st);
    choices := EffectsLeak(st, Direct(s));
    var owned := Filter(Flat(st.order), st.live);
    match s
    case Declare(_, _, _) => DeclareRestStaysBad(st, s, owned, choices);
    case Do(_) =>
    case Return(_) => ReturnRestStaysBad(st, s, owned, choices);
    case If(_, _, _, _) => BranchesStayBad(st, s, owned, choices);
    case Block(_) =>
  }

  lemma {:induction false} IfLeaks(st: State, s: Stmt) returns (choices: seq<bool>)
    requires WellNamed(st) && StmtUnrepeated(s) && StmtFits(st, s) && s.If? && !StmtOrderly(st, s)
    requires Prompt(st.scopes, s.cond, false)
    ensures EndsBadly(LowerStmt(st, s).0, st, LowerStmt(st, s).1, choices)
    decreases s, 0
  {
    hide WellNamed, LowerEffects, LowerBlock, Unrepeated, BlockFits, BlockOrderly, EndsInReturn, BranchesMeet,
      EndsBadly, Exec, Bad;
    DeepNamed(st);
    EffectsKeepNames(st, s.cond);
    var st1 := LowerEffects(st, s.cond).1;
    BlockKeepsNames(st1, s.thn);
    var st2 := LowerBlock(st1, s.thn).1;
    OtherBranchNamed(st1, st2);
    var other := st2.(live := st1.live);
    if !BlockOrderly(st1, s.thn) {
      var later := BlockLeaks(st1, s.thn);
      choices := ThenLeaks(st, s, later);
    } else if s.hasElse && !BlockOrderly(other, s.els) {
      var later := BlockLeaks(other, s.els);
      choices := ElseLeaks(st, s, later);
    } else {
      choices := JoinLeaks(st, s);
    }
  }

  lemma ThenLeaks(st: State, s: Stmt, later: seq<bool>) returns (choices: seq<bool>)
    requires WellNamed(st) && StmtUnrepeated(s) && StmtFits(st, s) && s.If?
    requires var st1 := LowerEffects(st, s.cond).1;
             EndsBadly(LowerBlock(st1, s.thn).0, st1, LowerBlock(st1, s.thn).1, later)
    ensures EndsBadly(LowerStmt(st, s).0, st, LowerStmt(st, s).1, choices)
  {
    hide WellNamed, LowerEffects, LowerBlock, Unrepeated, BlockFits, EndsInReturn, Exec, Bad, Joined, JoinedOne;
    DeepNamed(st);
    var (cond, st1) := LowerEffects(st, s.cond);
    var (thn, st2) := LowerBlock(st1, s.thn);
    var els := if s.hasElse then LowerBlock(st2.(live := st1.live), s.els).0 else [];
    choices := EffectsFall(st, s.cond, [true] + later);
    assert Tail([true] + later) == later;
    BranchRuns(true, cond, thn, els, Filter(Flat(st.order), st.live), choices);
    ReturnStops(st1, s.thn, Filter(Flat(st1.order), st1.live), later);
    AfterThen(st, s, Exec(true, thn, Filter(Flat(st1.order), st1.live), later));
  }

  lemma ElseLeaks(st: State, s: Stmt, later: seq<bool>) returns (choices: seq<bool>)
    requires WellNamed(st) && StmtUnrepeated(s) && StmtFits(st, s) && s.If?
    requires var st1 := LowerEffects(st, s.cond).1;
             var other := LowerBlock(st1, s.thn).1.(live := st1.live);
             if s.hasElse then other.order == st1.order
                               && EndsBadly(LowerBlock(other, s.els).0, other, LowerBlock(other, s.els).1, later)
             else Bad(st1.live, Fell(Filter(Flat(st1.order), st1.live), later))
    ensures EndsBadly(LowerStmt(st, s).0, st, LowerStmt(st, s).1, choices)
  {
    hide WellNamed, LowerEffects, LowerBlock, Unrepeated, BlockFits, EndsInReturn, Exec, Bad, Joined, JoinedOne;
    DeepNamed(st);
    var (cond, st1) := LowerEffects(st, s.cond);
    var (thn, st2) := LowerBlock(st1, s.thn);
    var other := st2.(live := st1.live);
    var els := if s.hasElse then LowerBlock(other, s.els).0 else [];
    var owned := Filter(Flat(st1.order), st1.live);
    choices := EffectsFall(st, s.cond, [false] + later);
    assert Tail([false] + later) == later;
    BranchRuns(true, cond, thn, els, Filter(Flat(st.order), st.live), choices);
    if s.hasElse {
      ReturnStops(other, s.els, owned, later);
      AfterElse(st, s, Exec(true, els, owned, later));
    } else {
      NothingRuns(owned, later);
      AfterElse(st, s, Fell(owned, later));
    }
  }

  /** An owner that one branch leaves live and the join takes for dead. */
  lemma FilterLeaks(order: seq<seq<CName>>, live: Live, joined: Live, c: CName)
    requires c in Flat(order) && IsLive(live, c) && !IsLive(joined, c)
    ensures Leaky(joined, Filter(Flat(order), live))
  {
    FilterHas(Flat(order), live, c);
    assert LeaksAt(joined, Filter(Flat(order), live), c);
  }

  /** Both branches agree inside, but not with one another. */
  lemma {:induction false} JoinLeaks(st: State, s: Stmt) returns (choices: seq<bool>)
    requires WellNamed(st) && StmtUnrepeated(s) && StmtFits(st, s) && s.If? && !BranchesMeet(st, s)
    requires var st1 := LowerEffects(st, s.cond).1;
             && BlockOrderly(st1, s.thn)
             && (s.hasElse ==> BlockOrderly(LowerBlock(st1, s.thn).1.(live := st1.live), s.els))
    ensures EndsBadly(LowerStmt(st, s).0, st, LowerStmt(st, s).1, choices)
  {
    hide WellNamed, LowerEffects, LowerBlock, Unrepeated, BlockFits, BlockOrderly, EndsInReturn, EndsBadly, Exec,
      IsLive, AllFall;
    DeepNamed(st);
    var st1 := LowerEffects(st, s.cond).1;
    var st2 := LowerBlock(st1, s.thn).1;
    var left := if s.hasElse then LowerBlock(st2.(live := st1.live), s.els).1.live else st1.live;
    assert !EndsInReturn(s.thn) && (s.hasElse ==> !EndsInReturn(s.els));
    var c :| c in Flat(st.order) && IsLive(st2.live, c) != IsLive(left, c);
    JoinKills(st, s, c);
    if IsLive(st2.live, c) {
      choices := ThenKeeps(st, s, c);
    } else {
      choices := ElseKeeps(st, s, c);
    }
  }

  lemma JoinKills(st: State, s: Stmt, c: CName)
    requires WellNamed(st) && StmtUnrepeated(s) && s.If? && c in Flat(st.order)
    requires !EndsInReturn(s.thn) && (s.hasElse ==> !EndsInReturn(s.els))
    requires var st1 := LowerEffects(st, s.cond).1;
             var st2 := LowerBlock(st1, s.thn).1;
             var left := if s.hasElse then LowerBlock(st2.(live := st1.live), s.els).1.live else st1.live;
             IsLive(st2.live, c) != IsLive(left, c)
    ensures !IsLive(LowerStmt(st, s).1.live, c)
  {
    hide WellNamed, LowerEffects, LowerBlock, Unrepeated, EndsInReturn;
    DeepNamed(st);
    EffectsKeepNames(st, s.cond);
    var st1 := LowerEffects(st, s.cond).1;
    BlockKeepsNames(st1, s.thn);
    KnownLive(LowerBlock(st1, s.thn).1);
  }

  lemma {:induction false} ThenKeeps(st: State, s: Stmt, c: CName) returns (choices: seq<bool>)
    requires WellNamed(st) && StmtUnrepeated(s) && StmtFits(st, s) && s.If? && c in Flat(st.order)
    requires var st1 := LowerEffects(st, s.cond).1;
             && BlockOrderly(st1, s.thn) && IsLive(LowerBlock(st1, s.thn).1.live, c)
               && !IsLive(LowerStmt(st, s).1.live, c)
    ensures EndsBadly(LowerStmt(st, s).0, st, LowerStmt(st, s).1, choices)
  {
    hide WellNamed, LowerEffects, LowerBlock, Unrepeated, BlockFits, BlockOrderly, EndsInReturn, Exec, IsLive, AllFall,
      Joined, JoinedOne;
    DeepNamed(st);
    var (cond, st1) := LowerEffects(st, s.cond);
    EffectsKeepNames(st, s.cond);
    var (thn, st2) := LowerBlock(st1, s.thn);
    var els := if s.hasElse then LowerBlock(st2.(live := st1.live), s.els).0 else [];
    if !AllFall(s.thn) {
      BlockTurnsOff(st1, s.thn, c);
      assert false;
    }
    var later := BlockFalls(st1, s.thn, []);
    BlockTracks(st1, s.thn, later);
    BlockKeepsNames(st1, s.thn);
    choices := EffectsFall(st, s.cond, [true] + later);
    assert Tail([true] + later) == later;
    BranchRuns(true, cond, thn, els, Filter(Flat(st.order), st.live), choices);
    FilterLeaks(st.order, st2.live, LowerStmt(st, s).1.live, c);
  }

  lemma {:induction false} ElseKeeps(st: State, s: Stmt, c: CName) returns (choices: seq<bool>)
    requires WellNamed(st) && StmtUnrepeated(s) && StmtFits(st, s) && s.If? && c in Flat(st.order)
    requires var st1 := LowerEffects(st, s.cond).1;
             var other := LowerBlock(st1, s.thn).1.(live := st1.live);
             && (s.hasElse ==> BlockOrderly(other, s.els)) && !IsLive(LowerStmt(st, s).1.live, c)
             && IsLive(if s.hasElse then LowerBlock(other, s.els).1.live else st1.live, c)
    ensures EndsBadly(LowerStmt(st, s).0, st, LowerStmt(st, s).1, choices)
  {
    hide WellNamed, LowerEffects, LowerBlock, Unrepeated, BlockFits, BlockOrderly, EndsInReturn, Exec, IsLive, AllFall,
      Joined, JoinedOne;
    DeepNamed(st);
    var (cond, st1) := LowerEffects(st, s.cond);
    EffectsKeepNames(st, s.cond);
    BlockKeepsNames(st1, s.thn);
    var (thn, st2) := LowerBlock(st1, s.thn);
    OtherBranchNamed(st1, st2);
    var other := st2.(live := st1.live);
    var els := if s.hasElse then LowerBlock(other, s.els).0 else [];
    var later: seq<bool> := [];
    var left := st1.live;
    if s.hasElse {
      left := LowerBlock(other, s.els).1.live;
      if !AllFall(s.els) {
        BlockTurnsOff(other, s.els, c);
        assert false;
      }
      later := BlockFalls(other, s.els, []);
      BlockTracks(other, s.els, later);
      BlockKeepsNames(other, s.els);
    } else {
      NothingRuns(Filter(Flat(st1.order), st1.live), later);
    }
    choices := EffectsFall(st, s.cond, [false] + later);
    assert Tail([false] + later) == later;
    BranchRuns(true, cond, thn, els, Filter(Flat(st.order), st.live), choices);
    FilterLeaks(st.order, left, LowerStmt(st, s).1.live, c);
  }

  lemma {:induction false} AllLeak(st: State, b: seq<Stmt>) returns (choices: seq<bool>)
    requires WellNamed(st) && InnerUnrepeated(b) && NewHere(st, Declared(b)) && AllFits(st, b) && !AllOrderly(st, b)
    ensures EndsBadly(LowerAll(st, b).0, st, LowerAll(st, b).1, choices)
    decreases b, 0
  {
    hide WellNamed, LowerStmt, StmtUnrepeated, StmtFits, StmtOrderly, CanFall, Exec, Bad;
    DeepNamed(st);
    var owned := Filter(Flat(st.order), st.live);
    if !StmtOrderly(st, b[0]) {
      choices := StmtLeaks(st, b[0]);
      RestStaysBad(st, b, owned, choices);
    } else {
      FirstDeclared(st, b);
      StmtKeepsNames(st, b[0]);
      var (first, st1) := LowerStmt(st, b[0]);
      StillNew(st, b, st1);
      var later := AllLeak(st1, b[1..]);
      choices := StmtFalls(st, b[0], later);
      StmtTracks(st, b[0], choices);
      ExecJoin(true, first, LowerAll(st1, b[1..]).0, owned, choices);
    }
  }

  lemma {:induction false} BlockLeaks(st: State, b: seq<Stmt>) returns (choices: seq<bool>)
    requires WellNamed(st) && Unrepeated(b) && BlockFits(st, b) && !BlockOrderly(st, b)
    ensures EndsBadly(LowerBlock(st, b).0, st, LowerBlock(st, b).1, choices)
    decreases b, 1
  {
    hide WellNamed, LowerAll, Exec, Bad;
    DeepNamed(st);
    PushKeepsNames(st);
    choices := AllLeak(Push(st), b);
    ScopeEndStaysBad(st, b, Filter(Flat(st.order), st.live), choices);
  }

  // ---------------------------------------------------------------------------------------------
  // Functions

  /** On this path every owner is moved or dropped exactly once, in reverse order of initialisation. */
  ghost predicate ReleasesAll(params: seq<Param>, body: seq<Stmt>, choices: seq<bool>) {
    var end := Exec(true, LowerFunction(params, body), OwnedParams(params), choices);
    !end.Wrong? && end.owned == []
  }

  lemma DisorderLeaks(params: seq<Param>, body: seq<Stmt>) returns (choices: seq<bool>)
    requires NoRepeatsOfParams(params) && Unrepeated(body) && BlockFits(StartState(params), body)
    requires !BlockOrderly(StartState(params), body)
    ensures !ReleasesAll(params, body, choices)
  {
    hide LowerBlock, WellNamed, Unrepeated, BlockFits, BlockOrderly, Exec, ScopeDrops, Leaky;
    var st := StartState(params);
    StartIsWellNamed(params);
    AllOwnedAtStart(params);
    choices := BlockLeaks(st, body);
    var (code, st1) := LowerBlock(st, body);
    var (drops, live) := ScopeDrops(st1.order[0], st1.live);
    ExecJoin(true, code, drops, OwnedParams(params), choices);
    var mid := Exec(true, code, OwnedParams(params), choices);
    if mid.Fell? {
      DropsStayLeaky(st1.order[0], st1.live, mid.owned, mid.choices);
      var end := Exec(true, drops, mid.owned, mid.choices);
      if end.Fell? {
        LeakyIsOwned(live, end.owned);
      }
    }
  }

  /** Any disagreement that can be reached leaks. */
  lemma DisagreementLeaks(params: seq<Param>, body: seq<Stmt>) returns (choices: seq<bool>)
    requires NoRepeatsOfParams(params) && Unrepeated(body) && BlockFits(StartState(params), body)
    requires !BlockAgrees(StartState(params), body)
    ensures !ReleasesAll(params, body, choices)
  {
    hide BlockFits, BlockOrderly, BlockAgrees, BlockPrompt, Unrepeated, ReleasesAll;
    OrderlyIsBoth(StartState(params), body);
    choices := DisorderLeaks(params, body);
  }

  /** Any failure test that can be reached between a move and its hand-over leaks. */
  lemma LateHandOverLeaks(params: seq<Param>, body: seq<Stmt>) returns (choices: seq<bool>)
    requires NoRepeatsOfParams(params) && Unrepeated(body) && BlockFits(StartState(params), body)
    requires !BlockPrompt(StartState(params), body)
    ensures !ReleasesAll(params, body, choices)
  {
    hide BlockFits, BlockOrderly, BlockAgrees, BlockPrompt, Unrepeated, ReleasesAll;
    OrderlyIsBoth(StartState(params), body);
    choices := DisorderLeaks(params, body);
  }

  lemma OrderReleases(params: seq<Param>, body: seq<Stmt>, choices: seq<bool>)
    requires NoRepeatsOfParams(params) && Unrepeated(body) && BlockFits(StartState(params), body)
    requires BlockAgrees(StartState(params), body) && BlockPrompt(StartState(params), body)
    ensures ReleasesAll(params, body, choices)
  {
    hide BlockFits, BlockAgrees, BlockPrompt, Unrepeated, LowerFunction, Exec;
    EveryOwnerIsReleasedOnce(params, body, choices);
  }

  /**
   Every owner is released exactly once on every path if and only if branches agree on what they move and no
   failure is tested between a move and its hand-over.
   */
  lemma ReleasedOnceIff(params: seq<Param>, body: seq<Stmt>)
    requires NoRepeatsOfParams(params) && Unrepeated(body) && BlockFits(StartState(params), body)
    ensures (forall choices :: ReleasesAll(params, body, choices)) <==>
            BlockAgrees(StartState(params), body) && BlockPrompt(StartState(params), body)
  {
    hide ReleasesAll, BlockFits, BlockAgrees, BlockPrompt, Unrepeated;
    if !BlockAgrees(StartState(params), body) {
      var choices := DisagreementLeaks(params, body);
    } else if !BlockPrompt(StartState(params), body) {
      var choices := LateHandOverLeaks(params, body);
    } else {
      forall choices ensures ReleasesAll(params, body, choices) {
        OrderReleases(params, body, choices);
      }
    }
  }

  /** The prelude of `Consume(move x, F()?)` in a function with the owner `x`. */
  lemma LateHandOverLowers()
    ensures var x := User("x");
            var start := Push(StartState([Param("x", true)]));
            var dead := start.(live := start.live[x := false]);
            LowerEffects(start, [Move("x"), Propagate([])]) == ([IfFailed([Exit]), Take(x)], dead)
  {
    var x := User("x");
    var params, es := [Param("x", true)], [Move("x"), Propagate([])];
    var start := Push(StartState(params));
    assert params[..0] == [] && OwnedParams(params) == [x];
    assert es[1..] == [Propagate([])] && es[1..][1..] == [];
    assert Lookup(start.scopes[..1], "x") == Some(Binding(x, true));
    var dead := start.(live := start.live[x := false]);
    assert LowerPart(start, Move("x")) == Lowered([], [x], dead);
    assert AllDrops(dead.order, dead.live).0 == [] by {
      assert dead.order == [[x], []] && dead.order[..1] == [[x]] && [x][..0] == [];
    }
    var none: seq<Code> := [];
    assert LowerParts(dead, []) == Lowered([], [], dead) && LowerEffects(dead, []) == (none + none, dead);
    var test := IfFailed(none + [Exit]);
    assert none + none + [test] == [test];
    assert LowerPart(dead, Propagate([])) == Lowered([test], [], dead);
    assert none + [test] == [test] && [test] + none == [test];
    assert LowerParts(start, es) == Lowered([test], [x], dead);
    assert [x][1..] == [] && Takes([x]) == [Take(x)];
    assert none + [Exit] == [Exit] && [test] + [Take(x)] == [test, Take(x)];
  }

  lemma LateHandOverFits()
    ensures var params, body := [Param("x", true)], [Do([Move("x"), Propagate([])])];
            && NoRepeatsOfParams(params) && Unrepeated(body) && BlockFits(StartState(params), body)
            && BlockAgrees(StartState(params), body)
  {
    var x := User("x");
    var params, es := [Param("x", true)], [Move("x"), Propagate([])];
    var start := Push(StartState(params));
    assert params[..0] == [] && OwnedParams(params) == [x];
    assert es[1..] == [Propagate([])] && es[1..][1..] == [];
    assert Lookup(start.scopes[..1], "x") == Some(Binding(x, true));
    hide AllDrops;
    assert [Do(es)][1..] == [];
  }

  /** `Consume(move x, F()?)`: no branches, and on a failure of `F` nobody releases `x`. */
  lemma LateHandOverExample()
    ensures var params, body := [Param("x", true)], [Do([Move("x"), Propagate([])])];
            && NoRepeatsOfParams(params) && Unrepeated(body) && BlockFits(StartState(params), body)
            && BlockAgrees(StartState(params), body)
            && Exec(false, LowerFunction(params, body), OwnedParams(params), [true]) == Exited([User("x")])
  {
    LateHandOverFits();
    LateHandOverLowers();
    hide LowerEffects, BlockFits, BlockAgrees, Unrepeated;
    var x := User("x");
    var params, es := [Param("x", true)], [Move("x"), Propagate([])];
    var start := Push(StartState(params));
    var test := IfFailed([Exit]);
    assert [Do(es)][1..] == [] && [test, Take(x)] + [] == [test, Take(x)];
    assert LowerAll(start, [Do(es)]).0 == [test, Take(x)];
    assert params[..0] == [] && OwnedParams(params) == [x];
    assert LowerFunction(params, [Do(es)])[0] == test;
    ExecSingle(false, Exit, [x], []);
    assert [true][1..] == [] && ExecOne(false, test, [x], [true]) == Exited([x]);
  }
}
