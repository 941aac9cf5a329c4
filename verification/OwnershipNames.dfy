/** Every owner has storage of its own while it is in scope. */
module OwnershipNames {
  import opened Wrappers
  import opened OwnershipLowering

  function Flat(order: seq<seq<CName>>): seq<CName> {
    if order == [] then [] else Flat(order[..|order| - 1]) + order[|order| - 1]
  }

  predicate Distinct(names: seq<CName>) {
    forall i, j :: 0 <= i < j < |names| ==> names[i] != names[j]
  }

  lemma FlatPush(order: seq<seq<CName>>, names: seq<CName>)
    ensures Flat(order + [names]) == Flat(order) + names
  {
    assert (order + [names])[..|order|] == order;
  }

  /** A scope binds a name to storage of that name, or to generated storage. */
  predicate ScopeNames(scope: Scope, temps: nat) {
    forall x :: x in scope ==> scope[x].c == User(x) || (scope[x].c.Temp? && scope[x].c.n < temps)
  }

  /** The owners of a scope are bound in it. */
  predicate Registered(scope: Scope, names: seq<CName>, temps: nat) {
    forall c :: c in names ==>
      if c.User? then c.x in scope && scope[c.x].c == c else c.n < temps
  }

  ghost predicate WellNamed(st: State) {
    && Deep(st) && Distinct(Flat(st.order))
    && (forall i :: 0 <= i < |st.scopes| ==>
                      ScopeNames(st.scopes[i], st.temps) && Registered(st.scopes[i], st.order[i], st.temps))
    && (forall c :: c in Flat(st.order) ==> c in st.live)
    && (forall c :: IsLive(st.live, c) ==> c in Flat(st.order))
  }

  lemma {:induction false} FlatHas(order: seq<seq<CName>>, c: CName) returns (i: nat)
    requires c in Flat(order)
    ensures i < |order| && c in order[i]
  {
    var last := |order| - 1;
    if c in order[last] {
      i := last;
    } else {
      i := FlatHas(order[..last], c);
    }
  }

  /** Storage chosen for a name new to its scope is not in use by any owner. */
  lemma NameIsFresh(st: State, x: string)
    requires WellNamed(st) && x !in st.scopes[|st.scopes| - 1]
    ensures NameFor(st, x) !in Flat(st.order)
  {
    forall d | d in Flat(st.order) ensures d != NameFor(st, x) {
      var i := FlatHas(st.order, d);
      assert Registered(st.scopes[i], st.order[i], st.temps);
      if d == User(x) {
        assert i < |st.scopes| - 1;
        assert st.scopes[..|st.scopes| - 1][i] == st.scopes[i];
        assert Uses(st.scopes[..|st.scopes| - 1], d);
      }
    }
  }

  lemma BindOrder(order: seq<seq<CName>>, c: CName)
    requires order != []
    ensures Flat(order[|order| - 1 := order[|order| - 1] + [c]]) == Flat(order) + [c]
  {
    var last := |order| - 1;
    assert order[last := order[last] + [c]][..last] == order[..last];
  }

  lemma BindKeepsNames(st: State, x: string, owns: bool)
    requires WellNamed(st) && x !in st.scopes[|st.scopes| - 1]
    ensures WellNamed(Bind(st, x, owns))
    ensures owns ==> Flat(Bind(st, x, owns).order) == Flat(st.order) + [NameFor(st, x)]
    ensures !owns ==> Bind(st, x, owns).order == st.order
  {
    hide Uses;
    var r := Bind(st, x, owns);
    NameIsFresh(st, x);
    if owns {
      BindOrder(st.order, NameFor(st, x));
    }
    forall i | 0 <= i < |r.scopes| ensures ScopeNames(r.scopes[i], r.temps)
      && Registered(r.scopes[i], r.order[i], r.temps) {
      assert ScopeNames(st.scopes[i], st.temps) && Registered(st.scopes[i], st.order[i], st.temps);
    }
  }

  lemma PushKeepsNames(st: State)
    requires WellNamed(st)
    ensures WellNamed(Push(st)) && Flat(Push(st).order) == Flat(st.order)
  {
    FlatPush(st.order, []);
  }

  lemma PopKeepsNames(st: State)
    requires WellNamed(st)
    ensures |st.scopes| > 1 ==> WellNamed(Pop(st))
    ensures Flat(st.order) == Flat(Pop(st).order) + st.order[|st.order| - 1]
  {
    var r := Pop(st);
    var last := |st.order| - 1;
    assert st.order == st.order[..last] + [st.order[last]];
    FlatPush(st.order[..last], st.order[last]);
    DistinctParts(Flat(r.order), st.order[last]);
    forall c | IsLive(r.live, c) ensures c in Flat(r.order) {
      assert IsLive(st.live, c) && c !in st.order[last];
    }
  }

  lemma DistinctParts(a: seq<CName>, b: seq<CName>)
    requires Distinct(a + b)
    ensures Distinct(a) && Distinct(b) && forall c :: c in a ==> c !in b
  {
    forall i, j | 0 <= i < j < |a| ensures a[i] != a[j] {
      assert (a + b)[i] == a[i] && (a + b)[j] == a[j];
    }
    forall i, j | 0 <= i < j < |b| ensures b[i] != b[j] {
      assert (a + b)[|a| + i] == b[i] && (a + b)[|a| + j] == b[j];
    }
    forall i, j | 0 <= i < |a| && 0 <= j < |b| ensures a[i] != b[j] {
      assert (a + b)[i] == a[i] && (a + b)[|a| + j] == b[j];
    }
  }

  /** Marking an owner dead. */
  lemma KillKeepsNames(st: State, c: CName)
    requires WellNamed(st)
    ensures WellNamed(st.(live := st.live[c := false]))
  {
    assert Flat(st.(live := st.live[c := false]).order) == Flat(st.order);
  }

  lemma {:induction false} ScopeDropsLive(names: seq<CName>, live: Live)
    ensures var after := ScopeDrops(names, live).1;
            && after.Keys == live.Keys
            && (forall c :: IsLive(after, c) ==> IsLive(live, c) && c !in names)
            && (forall c :: c !in names && IsLive(live, c) ==> IsLive(after, c))
    decreases |names|
  {
    if names != [] {
      var last := |names| - 1;
      var c := names[last];
      assert names == names[..last] + [c];
      ScopeDropsLive(names[..last], if IsLive(live, c) then live[c := false] else live);
    }
  }

  lemma {:induction false} AllDropsLive(order: seq<seq<CName>>, live: Live)
    ensures var after := AllDrops(order, live).1;
            && after.Keys == live.Keys
            && (forall c :: IsLive(after, c) ==> IsLive(live, c) && c !in Flat(order))
    decreases |order|
  {
    if order != [] {
      ScopeDropsLive(order[|order| - 1], live);
      AllDropsLive(order[..|order| - 1], ScopeDrops(order[|order| - 1], live).1);
    }
  }

  /** Changing liveness of known owners only. */
  lemma LiveKeepsNames(st: State, live: Live)
    requires WellNamed(st) && (forall c :: c in Flat(st.order) ==> c in live)
             && (forall c :: IsLive(live, c) ==> c in Flat(st.order))
    ensures WellNamed(st.(live := live))
  {
    assert Flat(st.(live := live).order) == Flat(st.order);
  }

  lemma {:induction false} LookupIsBound(scopes: seq<Scope>, x: string)
    requires Lookup(scopes, x).Some?
    ensures exists i :: 0 <= i < |scopes| && x in scopes[i] && scopes[i][x] == Lookup(scopes, x).value
  {
    var last := |scopes| - 1;
    if x !in scopes[last] {
      LookupIsBound(scopes[..last], x);
      var i :| 0 <= i < |scopes[..last]| && x in scopes[..last][i] && scopes[..last][i][x] == Lookup(scopes, x).value;
      assert scopes[i] == scopes[..last][i];
    }
  }

  lemma {:induction false} EffectsKeepNames(st: State, es: seq<Effect>)
    requires WellNamed(st)
    ensures WellNamed(LowerEffects(st, es).1) && LowerEffects(st, es).1.temps == st.temps
    decreases es, 1
  {
    PartsKeepNames(st, es);
  }

  lemma {:induction false} PartsKeepNames(st: State, es: seq<Effect>)
    requires WellNamed(st)
    ensures WellNamed(LowerParts(st, es).st) && LowerParts(st, es).st.temps == st.temps
    decreases es, 0
  {
    hide WellNamed, LowerPart;
    if es != [] {
      PartKeepsNames(st, es[0]);
      PartsKeepNames(LowerPart(st, es[0]).st, es[1..]);
    }
  }

  lemma {:induction false} PartKeepsNames(st: State, e: Effect)
    requires WellNamed(st)
    ensures WellNamed(LowerPart(st, e).st) && LowerPart(st, e).st.temps == st.temps
    decreases e
  {
    hide WellNamed, LowerEffects;
    match e
    case Move(x) =>
      if MovesOwner(st.scopes, e) {
        KillKeepsNames(st, Lookup(st.scopes, x).value.c);
      }
    case Propagate(operand) => EffectsKeepNames(st, operand);
    case Complete(operand) => EffectsKeepNames(st, operand);
  }

  /** Names of the innermost scope that are still to be declared. */
  predicate NewHere(st: State, names: seq<string>) {
    st.scopes != [] && NoRepeats(names) && forall x :: x in names ==> x !in st.scopes[|st.scopes| - 1]
  }

  /** What lowering a statement of a block leaves of the state around it. */
  predicate Around(st: State, r: State) {
    && |r.scopes| == |st.scopes| && |r.order| == |st.order| && st.scopes != [] && st.order != []
    && r.scopes[..|r.scopes| - 1] == st.scopes[..|st.scopes| - 1]
      && r.order[..|r.order| - 1] == st.order[..|st.order| - 1]
  }

  lemma {:induction false} StmtKeepsNames(st: State, s: Stmt)
    requires WellNamed(st) && StmtUnrepeated(s) && (s.Declare? ==> s.x !in st.scopes[|st.scopes| - 1])
    ensures var r := LowerStmt(st, s).1;
            && WellNamed(r) && Around(st, r) && r.temps >= st.temps
            && r.scopes[|r.scopes| - 1].Keys == st.scopes[|st.scopes| - 1].Keys + (if s.Declare? then {s.x} else {})
            && (!s.Declare? ==> r.order == st.order && r.scopes == st.scopes)
    decreases s, 1
  {
    hide LowerEffects, LowerBlock, Unrepeated, NameFor, WellNamed;
    DeepNamed(st);
    match s
    case Declare(_, _, _) => DeclareKeepsNames(st, s);
    case Do(es) => EffectsKeepNames(st, es);
    case Return(_) => ReturnKeepsNames(st, s);
    case Block(b) => BlockKeepsNames(st, b);
    case If(_, _, _, _) => IfKeepsNames(st, s);
  }

  lemma DeclareKeepsNames(st: State, s: Stmt)
    requires WellNamed(st) && s.Declare? && s.x !in st.scopes[|st.scopes| - 1]
    ensures var r := LowerStmt(st, s).1;
            && WellNamed(r) && Around(st, r) && r.temps >= st.temps
            && r.scopes[|r.scopes| - 1].Keys == st.scopes[|st.scopes| - 1].Keys + {s.x}
  {
    hide LowerEffects, NameFor, WellNamed;
    DeepNamed(st);
    EffectsKeepNames(st, s.init);
    BindKeepsNames(LowerEffects(st, s.init).1, s.x, s.owns);
  }

  lemma ReturnKeepsNames(st: State, s: Stmt)
    requires WellNamed(st) && s.Return?
    ensures var r := LowerStmt(st, s).1;
            WellNamed(r) && r.order == st.order && r.scopes == st.scopes && r.temps >= st.temps
  {
    hide LowerEffects;
    EffectsKeepNames(st, s.es);
    var st1 := LowerEffects(st, s.es).1;
    AllDropsLive(st1.order, st1.live);
    LiveKeepsNames(st1, AllDrops(st1.order, st1.live).1);
  }

  lemma {:induction false} IfKeepsNames(st: State, s: Stmt)
    requires WellNamed(st) && StmtUnrepeated(s) && s.If?
    ensures var r := LowerStmt(st, s).1;
            WellNamed(r) && r.order == st.order && r.scopes == st.scopes && r.temps >= st.temps
    decreases s, 0
  {
    hide LowerEffects, LowerBlock, Unrepeated, EndsInReturn;
    EffectsKeepNames(st, s.cond);
    var st1 := LowerEffects(st, s.cond).1;
    BlockKeepsNames(st1, s.thn);
    var st2 := LowerBlock(st1, s.thn).1;
    if s.hasElse {
      LaterTemps(st1, st2.temps);
      BlockKeepsNames(st2.(live := st1.live), s.els);
      var st3 := LowerBlock(st2.(live := st1.live), s.els).1;
      LiveKeepsNames(st3, Joined(EndsInReturn(s.thn), EndsInReturn(s.els), st2.live, st3.live));
    } else {
      LiveKeepsNames(st2, JoinedOne(EndsInReturn(s.thn), st1.live, st2.live));
    }
  }

  lemma LaterTemps(st: State, temps: nat)
    requires WellNamed(st) && temps >= st.temps
    ensures WellNamed(st.(temps := temps))
  {
    var r := st.(temps := temps);
    forall i | 0 <= i < |r.scopes| ensures ScopeNames(r.scopes[i], r.temps)
      && Registered(r.scopes[i], r.order[i], r.temps) {
      assert ScopeNames(st.scopes[i], st.temps) && Registered(st.scopes[i], st.order[i], st.temps);
    }
  }

  lemma {:induction false} AllKeepNames(st: State, b: seq<Stmt>)
    requires WellNamed(st) && InnerUnrepeated(b) && NewHere(st, Declared(b))
    ensures var r := LowerAll(st, b).1; WellNamed(r) && Around(st, r) && r.temps >= st.temps
    decreases b, 0
  {
    hide WellNamed, LowerStmt, StmtUnrepeated;
    DeepNamed(st);
    if b != [] {
      FirstDeclared(st, b);
      StmtKeepsNames(st, b[0]);
      AllKeepNames(LowerStmt(st, b[0]).1, b[1..]);
    }
  }

  lemma FirstDeclared(st: State, b: seq<Stmt>)
    requires b != [] && NewHere(st, Declared(b))
    ensures b[0].Declare? ==> b[0].x !in st.scopes[|st.scopes| - 1] && b[0].x !in Declared(b[1..])
    ensures NewHere(st, Declared(b[1..]))
  {
    var rest := Declared(b[1..]);
    if b[0].Declare? {
      assert Declared(b) == [b[0].x] + rest;
      RestIsNew(st, b[0].x, rest);
    } else {
      assert Declared(b) == rest;
    }
  }

  lemma RestIsNew(st: State, x: string, rest: seq<string>)
    requires NewHere(st, [x] + rest)
    ensures x !in st.scopes[|st.scopes| - 1] && x !in rest && NewHere(st, rest)
  {
    var names := [x] + rest;
    assert names[0] == x && names[1..] == rest && x in names;
    forall y | y in rest ensures y !in st.scopes[|st.scopes| - 1] {
      assert y in names;
    }
  }

  lemma DeepNamed(st: State)
    requires WellNamed(st)
    ensures Deep(st)
  {
  }

  lemma {:induction false} BlockKeepsNames(st: State, b: seq<Stmt>)
    requires WellNamed(st) && Unrepeated(b)
    ensures var r := LowerBlock(st, b).1;
            WellNamed(r) && r.order == st.order && r.scopes == st.scopes && r.temps >= st.temps
    decreases b, 1
  {
    hide LowerAll;
    PushKeepsNames(st);
    AllKeepNames(Push(st), b);
    var st1 := LowerAll(Push(st), b).1;
    var names := st1.order[|st1.order| - 1];
    ScopeDropsLive(names, st1.live);
    LiveKeepsNames(st1, ScopeDrops(names, st1.live).1);
    PopKeepsNames(st1.(live := ScopeDrops(names, st1.live).1));
    assert Push(st).order[..|st.order|] == st.order && Push(st).scopes[..|st.scopes|] == st.scopes;
  }

  // ---------------------------------------------------------------------------------------------
  // Parameters

  lemma {:induction false} ParamsBound(params: seq<Param>)
    requires NoRepeatsOfParams(params)
    ensures ScopeNames(ParamScope(params), 0) && Distinct(OwnedParams(params))
    ensures Registered(ParamScope(params), OwnedParams(params), 0)
    ensures forall c :: c in OwnedParams(params) ==> c.User? && c.x in ParamNames(params)
  {
    if params != [] {
      ParamsBound(params[..|params| - 1]);
    }
  }

  /** Parameters have different names. */
  predicate NoRepeatsOfParams(params: seq<Param>) {
    params == [] || (params[|params| - 1].x !in ParamNames(params[..|params| - 1])
                     && NoRepeatsOfParams(params[..|params| - 1]))
  }

  /** The owners at the start are the owning parameters, in storage of their own names. */
  lemma {:induction false} OwnedParamsAre(params: seq<Param>, c: CName)
    ensures c in OwnedParams(params) <==>
            exists k :: 0 <= k < |params| && params[k].owns && c == User(params[k].x)
  {
    if params != [] {
      var last := |params| - 1;
      OwnedParamsAre(params[..last], c);
      if k :| 0 <= k < last && params[..last][k].owns && c == User(params[..last][k].x) {
        assert params[k].owns && c == User(params[k].x);
      }
      if k :| 0 <= k < |params| && params[k].owns && c == User(params[k].x) && k != last {
        assert params[..last][k] == params[k];
      }
    }
  }

  lemma StartIsWellNamed(params: seq<Param>)
    requires NoRepeatsOfParams(params)
    ensures WellNamed(StartState(params)) && Flat(StartState(params).order) == OwnedParams(params)
  {
    ParamsBound(params);
    var st := StartState(params);
    assert st.order == [] + [OwnedParams(params)];
    FlatPush([], OwnedParams(params));
  }
}
