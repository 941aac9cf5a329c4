/**
 Which owner a `move` hands over.  In the source every declaration creates an owner of its own and a name means
 the innermost declaration that is visible; the emitted code names storage.  On every path the owners that the
 emitted code takes are those that the source moves, in the same order.
 */
module OwnershipMoves {
  import opened Wrappers
  import opened OwnershipLowering
  import opened OwnershipNames

  // ---------------------------------------------------------------------------------------------
  // The source

  /** A visible declaration, and the owner it created if it owns.  Owners are numbered as they are created. */
  datatype Var = Var(name: string, owner: Option<nat>)

  /** The declaration a name means: the latest that is visible. */
  predicate Means(vars: seq<Var>, x: string, i: nat) {
    i < |vars| && vars[i].name == x && forall j :: i < j < |vars| ==> vars[j].name != x
  }

  /** The owner a name means, if it means one. */
  function OwnerOf(vars: seq<Var>, x: string): Option<nat> {
    if vars == [] then None
    else if vars[|vars| - 1].name == x then vars[|vars| - 1].owner
    else OwnerOf(vars[..|vars| - 1], x)
  }

  lemma {:induction false} OwnerIsMeant(vars: seq<Var>, x: string, i: nat)
    requires Means(vars, x, i)
    ensures OwnerOf(vars, x) == vars[i].owner
  {
    if vars[|vars| - 1].name != x {
      OwnerIsMeant(vars[..|vars| - 1], x, i);
    }
  }

  lemma {:induction false} NoneIsMeant(vars: seq<Var>, x: string)
    requires forall i: nat :: !Means(vars, x, i)
    ensures OwnerOf(vars, x) == None
  {
    if vars != [] {
      var last := |vars| - 1;
      assert !Means(vars, x, last);
      forall i: nat ensures !Means(vars[..last], x, i) {
        assert !Means(vars, x, i);
      }
      NoneIsMeant(vars[..last], x);
    }
  }

  /** Owners that the value hands over when it is used, owners handed over so far, and the choices left. */
  datatype Value = Value(named: seq<nat>, moves: seq<nat>, choices: seq<bool>) | Failed(moves: seq<nat>)

  /** An expression whose value is used: what it names is handed over after all that is evaluated before. */
  function SourceExpr(vars: seq<Var>, es: seq<Effect>, choices: seq<bool>): Value
    decreases es, 1
  {
    match SourceParts(vars, es, choices)
    case Value(named, moves, cs) => Value([], moves + named, cs)
    case Failed(moves) => Failed(moves)
  }

  function SourceParts(vars: seq<Var>, es: seq<Effect>, choices: seq<bool>): Value
    decreases es, 0
  {
    if es == [] then Value([], [], choices)
    else
      match SourcePart(vars, es[0], choices)
      case Failed(moves) => Failed(moves)
      case Value(named, moves, cs) =>
        match SourceParts(vars, es[1..], cs)
        case Failed(more) => Failed(moves + more)
        case Value(others, more, left) => Value(named + others, moves + more, left)
  }

  /** A failed test leaves the function. */
  function SourcePart(vars: seq<Var>, e: Effect, choices: seq<bool>): Value
    decreases e
  {
    match e
    case Move(x) => Value(if OwnerOf(vars, x).Some? then [OwnerOf(vars, x).value] else [], [], choices)
    case Complete(operand) => SourceExpr(vars, operand, choices)
    case Propagate(operand) =>
      match SourceExpr(vars, operand, choices)
      case Failed(moves) => Failed(moves)
      case Value(_, moves, cs) => if Head(cs) then Failed(moves) else Value([], moves, Tail(cs))
  }

  /** The owners handed over, and unless the function was left, what is visible now and the next owner's number. */
  datatype Out = Went(moves: seq<nat>, vars: seq<Var>, next: nat, choices: seq<bool>) | Stopped(moves: seq<nat>)

  function After(moves: seq<nat>, out: Out): Out {
    match out
    case Went(more, vars, next, cs) => Went(moves + more, vars, next, cs)
    case Stopped(more) => Stopped(moves + more)
  }

  function SourceStmt(s: Stmt, vars: seq<Var>, next: nat, choices: seq<bool>): Out
    decreases s
  {
    match s
    case Declare(x, owns, es) =>
      (match SourceExpr(vars, es, choices)
       case Failed(moves) => Stopped(moves)
       case Value(_, moves, cs) =>
         if owns then Went(moves, vars + [Var(x, Some(next))], next + 1, cs)
         else Went(moves, vars + [Var(x, None)], next, cs))
    case Do(es) =>
      (match SourceExpr(vars, es, choices)
       case Failed(moves) => Stopped(moves)
       case Value(_, moves, cs) => Went(moves, vars, next, cs))
    case Return(es) => Stopped(SourceExpr(vars, es, choices).moves)
    case Block(b) => SourceBlock(b, vars, next, choices)
    case If(cond, thn, hasElse, els) =>
      (match SourceExpr(vars, cond, choices)
       case Failed(moves) => Stopped(moves)
       case Value(_, moves, cs) =>
         if Head(cs) then After(moves, SourceBlock(thn, vars, next, Tail(cs)))
         else if hasElse then After(moves, SourceBlock(els, vars, next, Tail(cs)))
         else Went(moves, vars, next, Tail(cs)))
  }

  function SourceAll(b: seq<Stmt>, vars: seq<Var>, next: nat, choices: seq<bool>): Out
    decreases b, 0
  {
    if b == [] then Went([], vars, next, choices)
    else
      match SourceStmt(b[0], vars, next, choices)
      case Stopped(moves) => Stopped(moves)
      case Went(moves, vars1, next1, cs) => After(moves, SourceAll(b[1..], vars1, next1, cs))
  }

  /** At the end of a block its declarations are no longer visible. */
  function SourceBlock(b: seq<Stmt>, vars: seq<Var>, next: nat, choices: seq<bool>): Out
    decreases b, 1
  {
    match SourceAll(b, vars, next, choices)
    case Stopped(moves) => Stopped(moves)
    case Went(moves, _, next1, cs) => Went(moves, vars, next1, cs)
  }

  /** The parameters, each owning one with an owner of its own. */
  function ParamVars(params: seq<Param>): seq<Var> {
    if params == [] then []
    else
      var (before, last) := (ParamVars(params[..|params| - 1]), params[|params| - 1]);
      before + [Var(last.x, if last.owns then Some(|params| - 1) else None)]
  }

  // ---------------------------------------------------------------------------------------------
  // The emitted code

  /** The owner that each storage holds. */
  type Storage = map<CName, nat>

  datatype Trail = Passed(taken: seq<nat>, store: Storage, next: nat, choices: seq<bool>) | Gone(taken: seq<nat>)

  function Prefixed(taken: seq<nat>, t: Trail): Trail {
    match t
    case Passed(more, store, next, cs) => Passed(taken + more, store, next, cs)
    case Gone(more) => Gone(taken + more)
  }

  /** The owners the code takes, from what storage holds. */
  function Trace(code: seq<Code>, store: Storage, next: nat, choices: seq<bool>): Trail {
    if code == [] then Passed([], store, next, choices)
    else
      match TraceOne(code[0], store, next, choices)
      case Gone(taken) => Gone(taken)
      case Passed(taken, store1, next1, cs) => Prefixed(taken, Trace(code[1..], store1, next1, cs))
  }

  function TraceOne(c: Code, store: Storage, next: nat, choices: seq<bool>): Trail {
    match c
    case Init(x) => Passed([], store[x := next], next + 1, choices)
    case Take(x) => Passed(if x in store then [store[x]] else [], store, next, choices)
    case Drop(_) => Passed([], store, next, choices)
    case Exit => Gone([])
    case IfFailed(cleanup) =>
      if Head(choices) then Trace(cleanup, store, next, Tail(choices)) else Passed([], store, next, Tail(choices))
    case Branch(t, f) =>
      if Head(choices) then Trace(t, store, next, Tail(choices)) else Trace(f, store, next, Tail(choices))
  }

  /** The storage of the parameters. */
  function ParamStore(vars: seq<Var>): Storage {
    if vars == [] then map[]
    else
      var (before, last) := (ParamStore(vars[..|vars| - 1]), vars[|vars| - 1]);
      if last.owner.Some? then before[User(last.name) := last.owner.value] else before
  }

  lemma {:induction false} TraceJoin(a: seq<Code>, b: seq<Code>, store: Storage, next: nat, choices: seq<bool>)
    ensures Trace(a + b, store, next, choices) ==
            match Trace(a, store, next, choices)
            case Gone(taken) => Gone(taken)
            case Passed(taken, store1, next1, cs) => Prefixed(taken, Trace(b, store1, next1, cs))
    decreases a
  {
    if a == [] {
      assert a + b == b;
      PrefixedNone(Trace(b, store, next, choices));
    } else {
      assert (a + b)[0] == a[0] && (a + b)[1..] == a[1..] + b;
      var first := TraceOne(a[0], store, next, choices);
      if first.Passed? {
        TraceJoin(a[1..], b, first.store, first.next, first.choices);
        var mid := Trace(a[1..], first.store, first.next, first.choices);
        if mid.Passed? {
          PrefixedTwice(first.taken, mid.taken, Trace(b, mid.store, mid.next, mid.choices));
        }
      }
    }
  }

  lemma PrefixedNone(t: Trail)
    ensures Prefixed([], t) == t
  {
    assert [] + t.taken == t.taken;
  }

  lemma PrefixedTwice(a: seq<nat>, b: seq<nat>, t: Trail)
    ensures Prefixed(a, Prefixed(b, t)) == Prefixed(a + b, t)
  {
    assert a + (b + t.taken) == a + b + t.taken;
  }

  lemma TraceSingle(c: Code, store: Storage, next: nat, choices: seq<bool>)
    ensures Trace([c], store, next, choices) == TraceOne(c, store, next, choices)
  {
    var first := TraceOne(c, store, next, choices);
    assert [c][1..] == [] && first.taken + [] == first.taken;
  }

  /** Drops take nothing. */
  lemma {:induction false} ScopeDropsTrace(names: seq<CName>, live: Live, store: Storage, next: nat, choices: seq<bool>)
    ensures Trace(ScopeDrops(names, live).0, store, next, choices) == Passed([], store, next, choices)
    decreases |names|
  {
    if names != [] {
      var last := |names| - 1;
      var c := names[last];
      if IsLive(live, c) {
        var code := ScopeDrops(names[..last], live[c := false]).0;
        assert ([Drop(c)] + code)[0] == Drop(c) && ([Drop(c)] + code)[1..] == code;
        ScopeDropsTrace(names[..last], live[c := false], store, next, choices);
      } else {
        ScopeDropsTrace(names[..last], live, store, next, choices);
      }
    }
  }

  lemma {:induction false} AllDropsTrace(order: seq<seq<CName>>, live: Live, store: Storage, next: nat,
                                         choices: seq<bool>)
    ensures Trace(AllDrops(order, live).0, store, next, choices) == Passed([], store, next, choices)
    decreases |order|
  {
    if order != [] {
      var (inner, l1) := ScopeDrops(order[|order| - 1], live);
      var outer := AllDrops(order[..|order| - 1], l1).0;
      ScopeDropsTrace(order[|order| - 1], live, store, next, choices);
      AllDropsTrace(order[..|order| - 1], l1, store, next, choices);
      TraceJoin(inner, outer, store, next, choices);
    }
  }

  lemma LeavingTrace(order: seq<seq<CName>>, live: Live, store: Storage, next: nat, choices: seq<bool>)
    ensures Trace(AllDrops(order, live).0 + [Exit], store, next, choices) == Gone([])
  {
    AllDropsTrace(order, live, store, next, choices);
    TraceJoin(AllDrops(order, live).0, [Exit], store, next, choices);
    TraceSingle(Exit, store, next, choices);
  }

  // ---------------------------------------------------------------------------------------------
  // Names and storage

  /** The binding of a name is of the declaration it means, and its storage holds that declaration's owner. */
  ghost predicate Agrees(scopes: seq<Scope>, vars: seq<Var>, store: Storage, x: string) {
    match Lookup(scopes, x)
    case None => forall i: nat :: !Means(vars, x, i)
    case Some(b) =>
      exists i: nat :: Means(vars, x, i) && (b.owns <==> vars[i].owner.Some?)
                       && (b.owns ==> b.c in store && store[b.c] == vars[i].owner.value)
  }

  ghost predicate Stands(scopes: seq<Scope>, vars: seq<Var>, store: Storage) {
    forall x :: Agrees(scopes, vars, store, x)
  }

  /** Every owning binding is registered in its scope. */
  ghost predicate Ordered(st: State) {
    |st.order| == |st.scopes| &&
    forall i, x :: 0 <= i < |st.scopes| && x in st.scopes[i] && st.scopes[i][x].owns ==>
                     st.scopes[i][x].c in st.order[i]
  }

  /** The storages hold what they held. */
  ghost predicate Holds(names: seq<CName>, store: Storage, later: Storage) {
    forall c :: c in names && c in store ==> c in later && later[c] == store[c]
  }

  lemma OwnerAgrees(scopes: seq<Scope>, vars: seq<Var>, store: Storage, x: string)
    requires Agrees(scopes, vars, store, x)
    ensures OwnerOf(vars, x).Some? <==> MovesOwner(scopes, Move(x))
    ensures MovesOwner(scopes, Move(x)) ==>
              var c := Lookup(scopes, x).value.c; c in store && store[c] == OwnerOf(vars, x).value
  {
    if Lookup(scopes, x).None? {
      NoneIsMeant(vars, x);
    } else {
      var b := Lookup(scopes, x).value;
      var i: nat :| Means(vars, x, i) && (b.owns <==> vars[i].owner.Some?)
                    && (b.owns ==> b.c in store && store[b.c] == vars[i].owner.value);
      OwnerIsMeant(vars, x, i);
    }
  }

  lemma {:induction false} FlatIn(order: seq<seq<CName>>, i: nat, c: CName)
    requires i < |order| && c in order[i]
    ensures c in Flat(order)
  {
    var last := |order| - 1;
    if i < last {
      FlatIn(order[..last], i, c);
    }
  }

  /** What a name is bound to is in one of the scopes. */
  lemma BoundOwner(st: State, x: string)
    requires Ordered(st) && Lookup(st.scopes, x).Some? && Lookup(st.scopes, x).value.owns
    ensures Lookup(st.scopes, x).value.c in Flat(st.order)
  {
    LookupIsBound(st.scopes, x);
    var i :| 0 <= i < |st.scopes| && x in st.scopes[i] && st.scopes[i][x] == Lookup(st.scopes, x).value;
    FlatIn(st.order, i, st.scopes[i][x].c);
  }

  /** Visible owners keep their storages. */
  lemma HoldsStands(st: State, vars: seq<Var>, store: Storage, later: Storage)
    requires Ordered(st) && Stands(st.scopes, vars, store) && Holds(Flat(st.order), store, later)
    ensures Stands(st.scopes, vars, later)
  {
    forall x ensures Agrees(st.scopes, vars, later, x) {
      assert Agrees(st.scopes, vars, store, x);
      var b := Lookup(st.scopes, x);
      if b.Some? {
        if b.value.owns {
          BoundOwner(st, x);
        }
        var i: nat :| Means(vars, x, i) && (b.value.owns <==> vars[i].owner.Some?)
                      && (b.value.owns ==> b.value.c in store && store[b.value.c] == vars[i].owner.value);
        assert Means(vars, x, i);
      }
    }
  }

  lemma LookupPush(scopes: seq<Scope>, x: string)
    ensures Lookup(scopes + [map[]], x) == Lookup(scopes, x)
  {
    assert (scopes + [map[]])[..|scopes|] == scopes;
  }

  lemma PushStands(st: State, vars: seq<Var>, store: Storage)
    requires Stands(st.scopes, vars, store) && Ordered(st)
    ensures Stands(Push(st).scopes, vars, store) && Ordered(Push(st))
  {
    forall x ensures Agrees(Push(st).scopes, vars, store, x) {
      LookupPush(st.scopes, x);
      assert Agrees(st.scopes, vars, store, x);
    }
  }

  lemma LookupBind(scopes: seq<Scope>, x: string, b: Binding, y: string)
    requires scopes != []
    ensures Lookup(scopes[|scopes| - 1 := scopes[|scopes| - 1][x := b]], y) ==
            if y == x then Some(b) else Lookup(scopes, y)
  {
    assert scopes[|scopes| - 1 := scopes[|scopes| - 1][x := b]][..|scopes| - 1] == scopes[..|scopes| - 1];
  }

  lemma MeansAfter(vars: seq<Var>, v: Var, x: string)
    ensures v.name == x ==> Means(vars + [v], x, |vars|)
    ensures v.name != x ==> forall i: nat :: Means(vars + [v], x, i) <==> Means(vars, x, i)
  {
    var longer := vars + [v];
    if v.name != x {
      forall i: nat ensures Means(longer, x, i) <==> Means(vars, x, i) {
        if Means(longer, x, i) {
          assert forall j :: i < j < |vars| ==> longer[j] == vars[j];
        }
        if Means(vars, x, i) {
          assert forall j :: i < j < |longer| ==> longer[j].name != x;
        }
      }
    }
  }

  /** A declaration, bound to fresh storage that holds its owner. */
  lemma BindStands(st: State, x: string, owns: bool, vars: seq<Var>, store: Storage, next: nat)
    requires WellNamed(st) && Ordered(st) && Stands(st.scopes, vars, store) && x !in st.scopes[|st.scopes| - 1]
    ensures var r, c := Bind(st, x, owns), NameFor(st, x);
            var later := if owns then store[c := next] else store;
            && Stands(r.scopes, vars + [Var(x, if owns then Some(next) else None)], later)
            && Ordered(r) && Holds(Flat(st.order), store, later)
  {
    hide NameFor, WellNamed, Uses;
    DeepNamed(st);
    var r, c := Bind(st, x, owns), NameFor(st, x);
    var later := if owns then store[c := next] else store;
    NameIsFresh(st, x);
    HoldsStands(st, vars, store, later);
    var v := Var(x, if owns then Some(next) else None);
    forall y ensures Agrees(r.scopes, vars + [v], later, y) {
      LookupBind(st.scopes, x, Binding(c, owns), y);
      MeansAfter(vars, v, y);
      assert Agrees(st.scopes, vars, later, y);
      if y == x {
        assert Means(vars + [v], x, |vars|) && (vars + [v])[|vars|] == v;
      } else if Lookup(st.scopes, y).Some? {
        var b := Lookup(st.scopes, y).value;
        var i: nat :| Means(vars, y, i) && (b.owns <==> vars[i].owner.Some?)
                      && (b.owns ==> b.c in later && later[b.c] == vars[i].owner.value);
        assert Means(vars + [v], y, i) && (vars + [v])[i] == vars[i];
      }
    }
  }

  // ---------------------------------------------------------------------------------------------
  // Expressions

  /** The owners held in these storages. */
  function Held(names: seq<CName>, store: Storage): seq<nat> {
    if names == [] then []
    else (if names[0] in store then [store[names[0]]] else []) + Held(names[1..], store)
  }

  lemma {:induction false} HeldJoin(a: seq<CName>, b: seq<CName>, store: Storage)
    ensures Held(a + b, store) == Held(a, store) + Held(b, store)
  {
    if a == [] {
      assert a + b == b;
    } else {
      assert (a + b)[1..] == a[1..] + b;
      HeldJoin(a[1..], b, store);
    }
  }

  lemma {:induction false} TakesTrace(names: seq<CName>, store: Storage, next: nat, choices: seq<bool>)
    ensures Trace(Takes(names), store, next, choices) == Passed(Held(names, store), store, next, choices)
  {
    if names != [] {
      assert ([Take(names[0])] + Takes(names[1..]))[1..] == Takes(names[1..]);
      TakesTrace(names[1..], store, next, choices);
    }
  }

  /** The prelude takes what was moved, and the storages still named hold what is to be moved. */
  ghost predicate PartFollows(v: Value, low: Lowered, store: Storage, next: nat, choices: seq<bool>) {
    var t := Trace(low.prelude, store, next, choices);
    match v
    case Failed(moves) => t == Gone(moves)
    case Value(named, moves, cs) => t == Passed(moves, store, next, cs) && Held(low.pending, store) == named
  }

  ghost predicate ExprFollows(v: Value, code: seq<Code>, store: Storage, next: nat, choices: seq<bool>) {
    var t := Trace(code, store, next, choices);
    match v
    case Failed(moves) => t == Gone(moves)
    case Value(named, moves, cs) => t == Passed(moves, store, next, cs) && named == []
  }

  lemma {:induction false} ExprTrace(st: State, es: seq<Effect>, vars: seq<Var>, store: Storage, next: nat,
                                     choices: seq<bool>)
    requires Stands(st.scopes, vars, store)
    ensures ExprFollows(SourceExpr(vars, es, choices), LowerEffects(st, es).0, store, next, choices)
    decreases es, 1
  {
    hide Stands, LowerParts, Trace;
    var low := LowerParts(st, es);
    PartsTrace(st, es, vars, store, next, choices);
    TraceJoin(low.prelude, Takes(low.pending), store, next, choices);
    var mid := Trace(low.prelude, store, next, choices);
    if mid.Passed? {
      TakesTrace(low.pending, mid.store, mid.next, mid.choices);
    }
  }

  lemma {:induction false} PartsTrace(st: State, es: seq<Effect>, vars: seq<Var>, store: Storage, next: nat,
                                      choices: seq<bool>)
    requires Stands(st.scopes, vars, store)
    ensures PartFollows(SourceParts(vars, es, choices), LowerParts(st, es), store, next, choices)
    decreases es, 0
  {
    hide Stands, LowerPart, SourcePart, Trace;
    if es == [] {
      NothingTraces(store, next, choices);
    } else {
      var first := LowerPart(st, es[0]);
      var rest := LowerParts(first.st, es[1..]);
      PartTrace(st, es[0], vars, store, next, choices);
      TraceJoin(first.prelude, rest.prelude, store, next, choices);
      var mid := Trace(first.prelude, store, next, choices);
      if mid.Passed? {
        PartsTrace(first.st, es[1..], vars, store, next, mid.choices);
        HeldJoin(first.pending, rest.pending, store);
      }
    }
  }

  lemma NothingTraces(store: Storage, next: nat, choices: seq<bool>)
    ensures Trace([], store, next, choices) == Passed([], store, next, choices)
  {
  }

  lemma {:induction false} PartTrace(st: State, e: Effect, vars: seq<Var>, store: Storage, next: nat,
                                     choices: seq<bool>)
    requires Stands(st.scopes, vars, store)
    ensures PartFollows(SourcePart(vars, e, choices), LowerPart(st, e), store, next, choices)
    decreases e
  {
    hide LowerEffects, SourceExpr, Trace, OwnerOf, AllDrops;
    match e
    case Move(x) =>
      NothingTraces(store, next, choices);
      OwnerAgrees(st.scopes, vars, store, x);
      if MovesOwner(st.scopes, e) {
        var c := Lookup(st.scopes, x).value.c;
        assert [c][1..] == [] && Held([c], store) == [store[c]];
      }
    case Complete(operand) => ExprTrace(st, operand, vars, store, next, choices);
    case Propagate(operand) =>
      ExprTrace(st, operand, vars, store, next, choices);
      var (code, st1) := LowerEffects(st, operand);
      TestTrace(code, st1, store, next, choices);
  }

  /** The test after an operand. */
  lemma TestTrace(code: seq<Code>, st: State, store: Storage, next: nat, choices: seq<bool>)
    ensures var test := IfFailed(AllDrops(st.order, st.live).0 + [Exit]);
            Trace(code + [test], store, next, choices) ==
            match Trace(code, store, next, choices)
            case Gone(taken) => Gone(taken)
            case Passed(taken, store1, next1, cs) =>
              if Head(cs) then Gone(taken) else Passed(taken, store1, next1, Tail(cs))
  {
    hide AllDrops;
    var test := IfFailed(AllDrops(st.order, st.live).0 + [Exit]);
    TraceJoin(code, [test], store, next, choices);
    var mid := Trace(code, store, next, choices);
    if mid.Passed? {
      TraceSingle(test, mid.store, mid.next, mid.choices);
      LeavingTrace(st.order, st.live, mid.store, mid.next, Tail(mid.choices));
      assert mid.taken + [] == mid.taken;
    }
  }

  // ---------------------------------------------------------------------------------------------
  // Statements

  /** The code takes what the source moves and ends as the source does, with the names standing for their owners. */
  ghost predicate Follows(src: Out, code: seq<Code>, st: State, st1: State, store: Storage, next: nat,
                          choices: seq<bool>)
  {
    var t := Trace(code, store, next, choices);
    match src
    case Stopped(moves) => t == Gone(moves)
    case Went(moves, vars, next1, cs) =>
      && t.Passed? && t.taken == moves && t.next == next1 && t.choices == cs
      && Stands(st1.scopes, vars, t.store) && Holds(Flat(st.order), store, t.store)
  }

  lemma EffectsOrdered(st: State, es: seq<Effect>)
    requires Ordered(st)
    ensures Ordered(LowerEffects(st, es).1)
  {
  }

  lemma {:induction false} StmtTrace(st: State, s: Stmt, vars: seq<Var>, store: Storage, next: nat, choices: seq<bool>)
    requires WellNamed(st) && Ordered(st) && StmtUnrepeated(s) && Stands(st.scopes, vars, store)
    requires s.Declare? ==> s.x !in st.scopes[|st.scopes| - 1]
    ensures var (code, st1) := LowerStmt(st, s);
            Ordered(st1) && Follows(SourceStmt(s, vars, next, choices), code, st, st1, store, next, choices)
    decreases s, 1
  {
    hide WellNamed, Stands, LowerEffects, LowerBlock, SourceExpr, SourceBlock, Unrepeated, Trace, NameFor, Bind,
      Ordered, AllDrops;
    DeepNamed(st);
    match s
    case Declare(_, _, _) => DeclareTrace(st, s, vars, store, next, choices);
    case Do(es) =>
      ExprTrace(st, es, vars, store, next, choices);
      EffectsOrdered(st, es);
    case Return(es) =>
      ExprTrace(st, es, vars, store, next, choices);
      EffectsOrdered(st, es);
      ReturnTrace(st, es, store, next, choices);
    case Block(b) => BlockTrace(st, b, vars, store, next, choices);
    case If(_, _, _, _) => IfTrace(st, s, vars, store, next, choices);
  }

  lemma ReturnTrace(st: State, es: seq<Effect>, store: Storage, next: nat, choices: seq<bool>)
    requires Deep(st) && Ordered(LowerEffects(st, es).1)
    ensures Trace(LowerStmt(st, Return(es)).0, store, next, choices) ==
            Gone(Trace(LowerEffects(st, es).0, store, next, choices).taken)
    ensures Ordered(LowerStmt(st, Return(es)).1)
  {
    hide LowerEffects, AllDrops;
    var (code, st1) := LowerEffects(st, es);
    var drops := AllDrops(st1.order, st1.live).0;
    assert code + drops + [Exit] == code + (drops + [Exit]);
    TraceJoin(code, drops + [Exit], store, next, choices);
    var mid := Trace(code, store, next, choices);
    if mid.Passed? {
      LeavingTrace(st1.order, st1.live, mid.store, mid.next, mid.choices);
      assert mid.taken + [] == mid.taken;
    }
  }

  lemma DeclareTrace(st: State, s: Stmt, vars: seq<Var>, store: Storage, next: nat, choices: seq<bool>)
    requires WellNamed(st) && Ordered(st) && s.Declare? && Stands(st.scopes, vars, store)
    requires s.x !in st.scopes[|st.scopes| - 1]
    ensures var (code, st1) := LowerStmt(st, s);
            Ordered(st1) && Follows(SourceStmt(s, vars, next, choices), code, st, st1, store, next, choices)
  {
    hide WellNamed, Stands, LowerEffects, SourceExpr, NameFor, Bind, Ordered;
    DeepNamed(st);
    var (code, st1) := LowerEffects(st, s.init);
    ExprTrace(st, s.init, vars, store, next, choices);
    EffectsOrdered(st, s.init);
    EffectsKeepNames(st, s.init);
    BindStands(st1, s.x, s.owns, vars, store, next);
    var c := NameFor(st1, s.x);
    var tail := if s.owns then [Init(c)] else [];
    TraceJoin(code, tail, store, next, choices);
    var mid := Trace(code, store, next, choices);
    if mid.Passed? {
      TraceSingle(Init(c), mid.store, mid.next, mid.choices);
      NothingTraces(mid.store, mid.next, mid.choices);
      assert mid.taken + [] == mid.taken;
    }
  }

  lemma BranchTrace(cond: seq<Code>, thn: seq<Code>, els: seq<Code>, store: Storage, next: nat, choices: seq<bool>)
    ensures Trace(cond + [Branch(thn, els)], store, next, choices) ==
            match Trace(cond, store, next, choices)
            case Gone(taken) => Gone(taken)
            case Passed(taken, store1, next1, cs) =>
              Prefixed(taken, Trace(if Head(cs) then thn else els, store1, next1, Tail(cs)))
  {
    TraceJoin(cond, [Branch(thn, els)], store, next, choices);
    var mid := Trace(cond, store, next, choices);
    if mid.Passed? {
      TraceSingle(Branch(thn, els), mid.store, mid.next, mid.choices);
    }
  }

  lemma {:induction false} IfTrace(st: State, s: Stmt, vars: seq<Var>, store: Storage, next: nat, choices: seq<bool>)
    requires WellNamed(st) && Ordered(st) && StmtUnrepeated(s) && s.If? && Stands(st.scopes, vars, store)
    ensures var (code, st1) := LowerStmt(st, s);
            Ordered(st1) && Follows(SourceStmt(s, vars, next, choices), code, st, st1, store, next, choices)
    decreases s, 0
  {
    hide WellNamed, Stands, LowerEffects, LowerBlock, SourceExpr, SourceBlock, Unrepeated, Trace, EndsInReturn, Joined,
      JoinedOne;
    DeepNamed(st);
    var (cond, st1) := LowerEffects(st, s.cond);
    ExprTrace(st, s.cond, vars, store, next, choices);
    EffectsKeepNames(st, s.cond);
    BlockKeepsNames(st1, s.thn);
    var (thn, st2) := LowerBlock(st1, s.thn);
    var other := st2.(live := st1.live);
    SameButTemps(st1, st2);
    var els := if s.hasElse then LowerBlock(other, s.els).0 else [];
    BranchTrace(cond, thn, els, store, next, choices);
    var mid := Trace(cond, store, next, choices);
    if mid.Passed? {
      BlockTrace(st1, s.thn, vars, store, next, Tail(mid.choices));
      if s.hasElse {
        BlockTrace(other, s.els, vars, store, next, Tail(mid.choices));
      } else {
        NothingTraces(store, next, Tail(mid.choices));
      }
    }
    IfOrdered(st, s);
  }

  lemma SameButTemps(before: State, after: State)
    requires WellNamed(before) && WellNamed(after) && after.order == before.order && after.scopes == before.scopes
             && after.temps >= before.temps
    ensures WellNamed(after.(live := before.live))
  {
    LaterTemps(before, after.temps);
    assert after.(live := before.live) == before.(temps := after.temps);
  }

  lemma IfOrdered(st: State, s: Stmt)
    requires WellNamed(st) && Ordered(st) && StmtUnrepeated(s) && s.If?
    ensures Deep(st) && Ordered(LowerStmt(st, s).1)
    ensures LowerStmt(st, s).1.scopes == st.scopes
  {
    hide WellNamed, LowerStmt;
    DeepNamed(st);
    IfKeepsNames(st, s);
  }

  lemma {:induction false} AllTrace(st: State, b: seq<Stmt>, vars: seq<Var>, store: Storage, next: nat,
                                    choices: seq<bool>)
    requires WellNamed(st) && Ordered(st) && InnerUnrepeated(b) && NewHere(st, Declared(b))
    requires Stands(st.scopes, vars, store)
    ensures var (code, st1) := LowerAll(st, b);
            Follows(SourceAll(b, vars, next, choices), code, st, st1, store, next, choices)
    decreases b, 0
  {
    hide WellNamed, Stands, LowerStmt, SourceStmt, StmtUnrepeated, Trace, Ordered, NewHere, Declared, Flat;
    DeepNamed(st);
    if b == [] {
      NothingTraces(store, next, choices);
    } else {
      FirstDeclared(st, b);
      StmtKeepsNames(st, b[0]);
      var (first, st1) := LowerStmt(st, b[0]);
      var rest := LowerAll(st1, b[1..]).0;
      StmtTrace(st, b[0], vars, store, next, choices);
      TraceJoin(first, rest, store, next, choices);
      var mid := Trace(first, store, next, choices);
      if mid.Passed? {
        StillNewHere(st, b, st1);
        var src := SourceStmt(b[0], vars, next, choices);
        AllTrace(st1, b[1..], src.vars, mid.store, mid.next, mid.choices);
        StmtKeepsOrder(st, b[0]);
        var end := Trace(rest, mid.store, mid.next, mid.choices);
        if end.Passed? {
          HoldsThen(Flat(st.order), Flat(st1.order), store, mid.store, end.store);
        }
      }
    }
  }

  lemma HoldsThen(names: seq<CName>, more: seq<CName>, a: Storage, b: Storage, c: Storage)
    requires Holds(names, a, b) && Holds(more, b, c) && forall x :: x in names ==> x in more
    ensures Holds(names, a, c)
  {
  }

  lemma StillNewHere(st: State, b: seq<Stmt>, st1: State)
    requires b != [] && NewHere(st, Declared(b)) && st1.scopes != []
    requires st1.scopes[|st1.scopes| - 1].Keys ==
             st.scopes[|st.scopes| - 1].Keys + (if b[0].Declare? then {b[0].x} else {})
    ensures NewHere(st1, Declared(b[1..]))
  {
    hide Declared;
    FirstDeclared(st, b);
  }

  /** No owner in scope is forgotten by a statement. */
  lemma StmtKeepsOrder(st: State, s: Stmt)
    requires WellNamed(st) && StmtUnrepeated(s) && (s.Declare? ==> s.x !in st.scopes[|st.scopes| - 1])
    ensures Deep(st) && forall c :: c in Flat(st.order) ==> c in Flat(LowerStmt(st, s).1.order)
  {
    hide WellNamed, LowerEffects, LowerBlock, NameFor, Unrepeated, Bind;
    DeepNamed(st);
    StmtKeepsNames(st, s);
    if s.Declare? {
      EffectsKeepNames(st, s.init);
      BindKeepsNames(LowerEffects(st, s.init).1, s.x, s.owns);
    }
  }

  lemma {:induction false} BlockTrace(st: State, b: seq<Stmt>, vars: seq<Var>, store: Storage, next: nat,
                                      choices: seq<bool>)
    requires WellNamed(st) && Ordered(st) && Unrepeated(b) && Stands(st.scopes, vars, store)
    ensures Deep(st)
    ensures var (code, st1) := LowerBlock(st, b);
            Ordered(st1) && Follows(SourceBlock(b, vars, next, choices), code, st, st1, store, next, choices)
    decreases b, 1
  {
    hide WellNamed, LowerAll, SourceAll, ScopeDrops, Trace, Stands;
    DeepNamed(st);
    PushKeepsNames(st);
    PushStands(st, vars, store);
    BlockKeepsNames(st, b);
    AllTrace(Push(st), b, vars, store, next, choices);
    var (code, st1) := LowerAll(Push(st), b);
    var names := st1.order[|st1.order| - 1];
    var drops := ScopeDrops(names, st1.live).0;
    TraceJoin(code, drops, store, next, choices);
    var mid := Trace(code, store, next, choices);
    if mid.Passed? {
      ScopeDropsTrace(names, st1.live, mid.store, mid.next, mid.choices);
      assert mid.taken + [] == mid.taken;
      HoldsStands(st, vars, store, mid.store);
    }
  }

  // ---------------------------------------------------------------------------------------------
  // Functions

  function SourceFunction(params: seq<Param>, body: seq<Stmt>, choices: seq<bool>): Out {
    SourceBlock(body, ParamVars(params), |params|, choices)
  }

  lemma {:induction false} ParamVarsNames(params: seq<Param>)
    ensures |ParamVars(params)| == |params|
    ensures forall i :: 0 <= i < |params| ==>
              && ParamVars(params)[i].name == params[i].x && params[i].x in ParamNames(params)
              && ParamVars(params)[i].owner == (if params[i].owns then Some(i) else None)
  {
    if params != [] {
      ParamVarsNames(params[..|params| - 1]);
    }
  }

  lemma {:induction false} ParamsStand(params: seq<Param>)
    requires NoRepeatsOfParams(params)
    ensures Stands([ParamScope(params)], ParamVars(params), ParamStore(ParamVars(params)))
    ensures Ordered(StartState(params))
    ensures forall x :: x in ParamScope(params) ==> ParamScope(params)[x].c == User(x)
  {
    var vars, store := ParamVars(params), ParamStore(ParamVars(params));
    if params == [] {
      forall x ensures Agrees([ParamScope(params)], vars, store, x) {
        assert Lookup([ParamScope(params)][..0], x) == None;
      }
    } else {
      var front, last := params[..|params| - 1], params[|params| - 1];
      ParamsStand(front);
      var before, held := ParamVars(front), ParamStore(ParamVars(front));
      var v := Var(last.x, if last.owns then Some(|params| - 1) else None);
      assert vars == before + [v] && vars[..|vars| - 1] == before;
      forall x ensures Agrees([ParamScope(params)], vars, store, x) {
        ParamAgrees(front, last, v, x);
      }
      var st := StartState(params);
      forall i, x | 0 <= i < |st.scopes| && x in st.scopes[i] && st.scopes[i][x].owns
        ensures st.scopes[i][x].c in st.order[i]
      {
        if x != last.x {
          assert x in StartState(front).scopes[0] && StartState(front).scopes[0][x].c in StartState(front).order[0];
        }
      }
    }
  }

  /** One more parameter. */
  lemma {:induction false} ParamAgrees(front: seq<Param>, last: Param, v: Var, x: string)
    requires Agrees([ParamScope(front)], ParamVars(front), ParamStore(ParamVars(front)), x)
    requires v == Var(last.x, if last.owns then Some(|front|) else None)
    requires forall y :: y in ParamScope(front) ==> ParamScope(front)[y].c == User(y)
    ensures var scope := ParamScope(front)[last.x := Binding(User(last.x), last.owns)];
            var held := ParamStore(ParamVars(front));
            Agrees([scope], ParamVars(front) + [v], if last.owns then held[User(last.x) := |front|] else held, x)
  {
    var before, held := ParamVars(front), ParamStore(ParamVars(front));
    LookupBind([ParamScope(front)], last.x, Binding(User(last.x), last.owns), x);
    MeansAfter(before, v, x);
    if x == last.x {
      assert Means(before + [v], x, |before|) && (before + [v])[|before|] == v;
    }
  }

  /**
   The owners that a run of the emitted function takes are those that the source hands over on the same path, in
   the same order, and both leave the body in the same way.
   */
  lemma TakesAreMoves(params: seq<Param>, body: seq<Stmt>, choices: seq<bool>)
    requires NoRepeatsOfParams(params) && Unrepeated(body)
    ensures var t := Trace(LowerFunction(params, body), ParamStore(ParamVars(params)), |params|, choices);
            match SourceFunction(params, body, choices)
            case Stopped(moves) => t == Gone(moves)
            case Went(moves, _, _, _) => t.Passed? && t.taken == moves
  {
    hide LowerBlock, WellNamed, Unrepeated, Stands, Trace, SourceBlock, Ordered;
    var st, store := StartState(params), ParamStore(ParamVars(params));
    StartIsWellNamed(params);
    ParamsStand(params);
    BlockTrace(st, body, ParamVars(params), store, |params|, choices);
    var (code, st1) := LowerBlock(st, body);
    var drops := ScopeDrops(st1.order[0], st1.live).0;
    TraceJoin(code, drops, store, |params|, choices);
    var mid := Trace(code, store, |params|, choices);
    if mid.Passed? {
      ScopeDropsTrace(st1.order[0], st1.live, mid.store, mid.next, mid.choices);
      assert mid.taken + [] == mid.taken;
    }
  }

  /** `{ Own x = A(); { Own x = B(); Consume(move x); } }` hands over the inner owner. */
  lemma ShadowExample()
    ensures var inner := [Declare("x", true, []), Do([Move("x")])];
            SourceFunction([], [Declare("x", true, []), Block(inner)], []).moves == [1]
  {
    var inner := [Declare("x", true, []), Do([Move("x")])];
    var body := [Declare("x", true, []), Block(inner)];
    var outer, both := [Var("x", Some(0))], [Var("x", Some(0)), Var("x", Some(1))];
    assert body[1..] == [Block(inner)] && body[1..][1..] == [] && inner[1..] == [Do([Move("x")])]
           && inner[1..][1..] == [];
    assert [Move("x")][1..] == [];
    NothingMoves([], []);
    NothingMoves(outer, []);
    assert outer + [Var("x", Some(1))] == both && [] + [Var("x", Some(0))] == outer;
    assert Means(both, "x", 1);
    OwnerIsMeant(both, "x", 1);
    assert SourceParts(both, [Move("x")], []) == Value([1], [], []) by { NothingMoves(both, []); }
    assert SourceStmt(inner[1], both, 2, []) == Went([1], both, 2, []);
    assert SourceAll(inner[1..], both, 2, []) == Went([1], both, 2, []);
    assert SourceAll(inner, outer, 1, []) == Went([1], both, 2, []);
    assert SourceAll(body[1..], outer, 1, []) == Went([1], outer, 2, []);
    assert SourceStmt(body[0], [], 0, []) == Went([], outer, 1, []);
    assert SourceAll(body, [], 0, []).moves == [1];
  }

  lemma NothingMoves(vars: seq<Var>, choices: seq<bool>)
    ensures SourceParts(vars, [], choices) == Value([], [], choices)
    ensures SourceExpr(vars, [], choices) == Value([], [], choices)
  {
    assert SourceParts(vars, [], choices) == Value([], [], choices);
    var none: seq<nat> := [];
    assert none + none == none;
  }
}
