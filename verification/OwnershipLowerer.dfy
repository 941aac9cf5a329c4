/** The lowerer as the compiler runs it: one object per function, updated in place. */
module OwnershipLowerer {
  import opened Wrappers
  import opened OwnershipLowering
  import opened OwnershipNames

  lemma AllDropsAt(order: seq<seq<CName>>, i: nat, live: Live)
    requires i < |order|
    ensures var (inner, l1) := ScopeDrops(order[i], live);
            var (outer, l2) := AllDrops(order[..i], l1);
            AllDrops(order[..i + 1], live) == (inner + outer, l2)
  {
    hide ScopeDrops;
    assert order[..i + 1][..i] == order[..i];
  }

  lemma AllDropsNone(live: Live)
    ensures AllDrops([], live) == ([], live)
  {
  }

  lemma LowerAllAt(st: State, b: seq<Stmt>, i: nat)
    requires i < |b| && Deep(st)
    ensures var (first, st1) := LowerStmt(st, b[i]);
            var (rest, st2) := LowerAll(st1, b[i + 1..]);
            LowerAll(st, b[i..]) == (first + rest, st2)
  {
    hide LowerStmt;
    assert b[i..][0] == b[i] && b[i..][1..] == b[i + 1..];
  }

  lemma NoParts(st: State)
    ensures LowerParts(st, []) == Lowered([], [], st)
  {
  }

  lemma LowerPartsAt(st: State, es: seq<Effect>, i: nat)
    requires i < |es|
    ensures var first := LowerPart(st, es[i]);
            var rest := LowerParts(first.st, es[i + 1..]);
            LowerParts(st, es[i..]) == Lowered(first.prelude + rest.prelude, first.pending + rest.pending, rest.st)
  {
    hide LowerPart;
    assert es[i..][0] == es[i] && es[i..][1..] == es[i + 1..];
  }

  lemma TakesJoin(a: seq<CName>, c: CName)
    ensures Takes(a + [c]) == Takes(a) + [Take(c)]
  {
    if a != [] {
      assert (a + [c])[1..] == a[1..] + [c];
      TakesJoin(a[1..], c);
    }
  }

  class FunctionLowerer {
    var scopes: seq<Scope>
    var order: seq<seq<CName>>
    var live: Live
    var temps: nat

    ghost function State(): State
      reads this
    {
      OwnershipLowering.State.State(scopes, order, live, temps)
    }

    /** `newEVT1FunctionLowerer`. */
    constructor (params: seq<Param>)
      ensures State() == StartState(params)
    {
      scopes := [ParamScope(params)];
      order := [OwnedParams(params)];
      live := map c | c in OwnedParams(params) :: true;
      temps := 0;
    }

    method PushScope()
      modifies this
      ensures State() == Push(old(State()))
    {
      scopes := scopes + [map[]];
      order := order + [[]];
    }

    method PopScope()
      requires Deep(State())
      modifies this
      ensures State() == Pop(old(State()))
    {
      live := Without(live, order[|order| - 1]);
      scopes := scopes[..|scopes| - 1];
      order := order[..|order| - 1];
    }

    /** `bindName` and `registerOwner`. */
    method BindName(x: string, owns: bool) returns (c: CName)
      requires Deep(State())
      modifies this
      ensures State() == Bind(old(State()), x, owns) && c == NameFor(old(State()), x)
    {
      var last := |scopes| - 1;
      if x in scopes[last] || Uses(scopes[..last], User(x)) {
        c := Temp(temps);
        temps := temps + 1;
      } else {
        c := User(x);
      }
      scopes := scopes[last := scopes[last][x := Binding(c, owns)]];
      if owns {
        order := order[|order| - 1 := order[|order| - 1] + [c]];
        live := live[c := true];
      }
    }

    /** `lowerScopeDrops`. */
    method EmitScopeDrops(index: nat) returns (code: seq<Code>)
      requires index < |order|
      modifies this`live
      ensures (code, live) == ScopeDrops(order[index], old(live))
    {
      code := [];
      var names := order[index];
      var i := |names|;
      assert names[..i] == names;
      while i > 0
        invariant 0 <= i <= |names|
        invariant ScopeDrops(names, old(live)).0 == code + ScopeDrops(names[..i], live).0
        invariant ScopeDrops(names, old(live)).1 == ScopeDrops(names[..i], live).1
      {
        i := i - 1;
        assert names[..i + 1][..i] == names[..i];
        var c := names[i];
        if c in live && live[c] {
          code := code + [Drop(c)];
          live := live[c := false];
        }
      }
      assert code + [] == code;
    }

    /** `lowerAllScopeDrops`. */
    method EmitAllDrops() returns (code: seq<Code>)
      modifies this`live
      ensures (code, live) == AllDrops(order, old(live))
    {
      hide AllDrops, ScopeDrops;
      code := [];
      var i := |order|;
      assert order[..i] == order;
      while i > 0
        invariant 0 <= i <= |order|
        invariant AllDrops(order, old(live)).0 == code + AllDrops(order[..i], live).0
        invariant AllDrops(order, old(live)).1 == AllDrops(order[..i], live).1
      {
        i := i - 1;
        AllDropsAt(order, i, live);
        var drops := EmitScopeDrops(i);
        code := code + drops;
      }
      AllDropsNone(live);
      assert order[..0] == [] && code + [] == code;
    }

    /** One part of an expression: its prelude, and the owners its value names. */
    method Part(e: Effect) returns (prelude: seq<Code>, pending: seq<CName>)
      modifies this`live
      ensures Lowered(prelude, pending, State()) == LowerPart(old(State()), e)
      decreases e
    {
      prelude, pending := [], [];
      match e
      case Move(x) =>
        var b := Lookup(scopes, x);
        if b.Some? && b.value.owns {
          pending := [b.value.c];
          live := live[b.value.c := false];
        }
      case Propagate(operand) =>
        prelude := Effects(operand);
        var before := live;
        var drops := EmitAllDrops();
        live := before;
        prelude := prelude + [IfFailed(drops + [Exit])];
      case Complete(operand) => prelude := Effects(operand);
    }

    /** The parts in order, and what the value hands over after all their preludes. */
    method Effects(es: seq<Effect>) returns (code: seq<Code>)
      modifies this`live
      ensures (code, State()) == LowerEffects(old(State()), es)
      decreases es
    {
      hide LowerParts, LowerPart;
      code := [];
      var pending := [];
      assert es[0..] == es;
      for i := 0 to |es|
        invariant var all, rest := LowerParts(old(State()), es), LowerParts(State(), es[i..]);
                  all == Lowered(code + rest.prelude, pending + rest.pending, rest.st)
      {
        LowerPartsAt(State(), es, i);
        var more, moved := Part(es[i]);
        code := code + more;
        pending := pending + moved;
      }
      NoParts(State());
      assert es[|es|..] == [] && code + [] == code && pending + [] == pending;
      ghost var prelude, after := code, State();
      for k := 0 to |pending|
        invariant code == prelude + Takes(pending[..k]) && State() == after
      {
        TakesJoin(pending[..k], pending[k]);
        assert pending[..k + 1] == pending[..k] + [pending[k]];
        code := code + [Take(pending[k])];
      }
      assert pending[..|pending|] == pending;
    }

    method Statement(s: Stmt) returns (code: seq<Code>)
      requires Deep(State())
      modifies this
      ensures (code, State()) == LowerStmt(old(State()), s)
      decreases s, 1
    {
      match s
      case Declare(x, owns, es) =>
        code := Effects(es);
        var c := BindName(x, owns);
        code := code + (if owns then [Init(c)] else []);
      case Do(es) => code := Effects(es);
      case Return(es) =>
        code := Effects(es);
        var drops := EmitAllDrops();
        code := code + drops + [Exit];
      case Block(b) => code := BlockOf(b);
      case If(_, _, _, _) => code := Conditional(s);
    }

    /** `lowerIfStmt`. */
    method Conditional(s: Stmt) returns (code: seq<Code>)
      requires Deep(State()) && s.If?
      modifies this
      ensures (code, State()) == LowerStmt(old(State()), s)
      decreases s, 0
    {
      code := Effects(s.cond);
      var before := live;
      var thn := BlockOf(s.thn);
      var thenLive := live;
      live := before;
      if s.hasElse {
        var els := BlockOf(s.els);
        live := Joined(EndsInReturn(s.thn), EndsInReturn(s.els), thenLive, live);
        code := code + [Branch(thn, els)];
      } else {
        live := JoinedOne(EndsInReturn(s.thn), before, thenLive);
        code := code + [Branch(thn, [])];
      }
    }

    /** `lowerBlock`. */
    method BlockOf(b: seq<Stmt>) returns (code: seq<Code>)
      requires Deep(State())
      modifies this
      ensures (code, State()) == LowerBlock(old(State()), b)
      decreases b, 1
    {
      hide LowerStmt, ScopeDrops;
      PushScope();
      ghost var start := State();
      code := [];
      for i := 0 to |b|
        invariant Deep(State()) && SameShape(State(), start)
        invariant LowerAll(start, b).0 == code + LowerAll(State(), b[i..]).0
        invariant LowerAll(start, b).1 == LowerAll(State(), b[i..]).1
      {
        LowerAllAt(State(), b, i);
        var more := Statement(b[i]);
        code := code + more;
      }
      assert code + [] == code;
      var drops := EmitScopeDrops(|order| - 1);
      code := code + drops;
      PopScope();
    }
  }

  /** A whole function: the body, then the parameters' drops. */
  method LowerWhole(params: seq<Param>, body: seq<Stmt>) returns (code: seq<Code>)
    ensures code == LowerFunction(params, body)
  {
    var f := new FunctionLowerer(params);
    code := f.BlockOf(body);
    var drops := f.EmitScopeDrops(0);
    code := code + drops;
  }

  lemma DistinctPlus(names: seq<CName>, c: CName)
    ensures Distinct(names + [c]) <==> Distinct(names) && c !in names
  {
    var longer := names + [c];
    if Distinct(longer) {
      forall i, j | 0 <= i < j < |names| ensures names[i] != names[j] {
        assert longer[i] != longer[j];
      }
      forall i | 0 <= i < |names| ensures names[i] != c {
        assert longer[i] != longer[|names|];
      }
    }
  }

  /**
   Binding an owner keeps the storages of all owners apart exactly when no owner hidden in its own scope has
   the name.
   */
  lemma FreshUnlessHidden(st: State, x: string)
    requires Deep(st) && (forall c :: c in Flat(st.order) && c.Temp? ==> c.n < st.temps)
    ensures Distinct(Flat(Bind(st, x, true).order)) <==>
            Distinct(Flat(st.order)) &&
            (x in st.scopes[|st.scopes| - 1] || Uses(st.scopes[..|st.scopes| - 1], User(x))
             || User(x) !in Flat(st.order))
  {
    hide Uses, Flat, Distinct;
    BindOrder(st.order, NameFor(st, x));
    DistinctPlus(Flat(st.order), NameFor(st, x));
  }
}
