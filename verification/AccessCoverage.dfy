/** The walk records what a body does, and a resolved subject covers the places its expression denotes. */
module AccessCoverage {
  import opened Wrappers
  import opened AccessModel
  import opened AccessSemantics

  type Structs = map<string, seq<Field>>

  // ---------------------------------------------------------------------------------------------
  // Locals keep the parameters

  lemma {:induction false} ParamLocalsAt(fn: nat, params: seq<Param>, x: string)
    ensures x in ParamLocals(fn, params) <==> ParamIndex(params, x).Some?
    ensures ParamIndex(params, x).Some? ==>
              var k := ParamIndex(params, x).value;
              ParamLocals(fn, params)[x] == Plain(Parameter(fn, k, x, params[k].ty), params[k].ty, Exact)
  {
    if params != [] {
      ParamLocalsAt(fn, params[..|params| - 1], x);
    }
  }

  ghost predicate KeepsParams(params: seq<Param>, fn: nat, locals: Locals) {
    forall x :: ParamIndex(params, x).Some? ==>
                  x in locals && x in ParamLocals(fn, params) && locals[x] == ParamLocals(fn, params)[x]
  }

  lemma StartKeepsParams(params: seq<Param>, fn: nat)
    ensures KeepsParams(params, fn, ParamLocals(fn, params))
  {
    forall x | ParamIndex(params, x).Some? ensures x in ParamLocals(fn, params) {
      ParamLocalsAt(fn, params, x);
    }
  }

  /** The subject a parameter-rooted expression resolves to, whatever locals were declared. */
  function Own(structs: Structs, params: seq<Param>, fn: nat, e: Expr): Subject {
    Resolve(structs, ParamLocals(fn, params), fn, e)
  }

  lemma {:induction false} IndexedRoot(base: Subject, indices: seq<Expr>)
    ensures Indexed(base, indices).root == base.root
    decreases indices
  {
    if indices != [] && Fixed(indices[0]) {
      IndexedRoot(base.(path := base.path + [IndexAt(indices[0].n)], offset := base.offset + indices[0].n, extent := 1,
                        resolution := Interval), indices[1..]);
    }
  }

  lemma {:induction false} ResolveRooted(structs: Structs, params: seq<Param>, fn: nat, locals: Locals, e: Expr)
    requires Rooted(params, e) && KeepsParams(params, fn, locals)
    ensures Resolve(structs, locals, fn, e) == Own(structs, params, fn, e)
    ensures var k := RootOf(params, e);
            Own(structs, params, fn, e).root == Parameter(fn, k, params[k].name, params[k].ty)
  {
    match e
    case Name(x, _) => ParamLocalsAt(fn, params, x);
    case FieldOf(r, _, _, _) => ResolveRooted(structs, params, fn, locals, r);
    case IndexOf(b, indices, _) =>
      ResolveRooted(structs, params, fn, locals, b);
      IndexedRoot(Own(structs, params, fn, b), indices);
    case RefTo(x) => ResolveRooted(structs, params, fn, locals, x);
    case Paren(x) => ResolveRooted(structs, params, fn, locals, x);
  }

  // ---------------------------------------------------------------------------------------------
  // What the walk visits

  /** The actions of `e` that the walk looks at: of what lies below the outermost projection, nothing. */
  function Visited(e: Expr): seq<Action>
    decreases e, 1
  {
    match e
    case Name(_, _) => [Touch(Read, e)]
    case FieldOf(_, _, _, _) => [Touch(Read, e)]
    case IndexOf(_, _, _) => [Touch(Read, e)] + VisitedOperands(e)
    case RefTo(x) => VisitedOperands(x)
    case Paren(x) => Visited(x)
    case CallTo(callee, args, _) =>
      VisitedAll(args) + (if args == [] then [] else Touches(AtomicKinds(callee), args[0])) + [Invoke(callee, args)]
    case Compound(es) => VisitedAll(es)
    case Skipped(_) => []
    case Lit(_) => []
  }

  function VisitedAll(es: seq<Expr>): seq<Action>
    decreases es, 0
  {
    if es == [] then [] else Visited(es[0]) + VisitedAll(es[1..])
  }

  function VisitedOperands(e: Expr): seq<Action>
    decreases e, 0
  {
    if e.IndexOf? && e.indices != [] then Visited(e.indices[0]) + VisitedAll(e.indices) else []
  }

  function StmtVisited(st: Stmt): seq<Action> {
    match st
    case Decl(_, _, e) => Visited(e)
    case Assign(target, e, _) => Visited(e) + [Touch(Write, target)] + VisitedOperands(target)
    case Do(e) => Visited(e)
    case If(c, t, f) => Visited(c) + BlockVisited(t) + BlockVisited(f)
    case While(c, b) => Visited(c) + BlockVisited(b)
    case Block(b) => BlockVisited(b)
  }

  function BlockVisited(b: seq<Stmt>): seq<Action> {
    if b == [] then [] else StmtVisited(b[0]) + BlockVisited(b[1..])
  }

  /** No declaration hides a parameter. */
  predicate Unshadowed(params: seq<Param>, st: Stmt) {
    match st
    case Decl(x, _, _) => ParamIndex(params, x).None?
    case If(_, t, f) => UnshadowedAll(params, t) && UnshadowedAll(params, f)
    case While(_, b) => UnshadowedAll(params, b)
    case Block(b) => UnshadowedAll(params, b)
    case _ => true
  }

  predicate UnshadowedAll(params: seq<Param>, b: seq<Stmt>) {
    b == [] || (Unshadowed(params, b[0]) && UnshadowedAll(params, b[1..]))
  }

  /** Parameters are themselves, and other locals are values of the function's own. */
  ghost predicate OwnLocals(params: seq<Param>, fn: nat, locals: Locals) {
    KeepsParams(params, fn, locals) && forall x :: x in locals && ParamIndex(params, x).None? ==> locals[x].root.Value?
  }

  lemma {:induction false} UnrootedValue(structs: Structs, params: seq<Param>, fn: nat, locals: Locals, e: Expr)
    requires OwnLocals(params, fn, locals) && !Rooted(params, e)
    ensures !Resolve(structs, locals, fn, e).root.Parameter?
  {
    match e
    case FieldOf(r, _, _, _) => UnrootedValue(structs, params, fn, locals, r);
    case IndexOf(b, indices, _) =>
      UnrootedValue(structs, params, fn, locals, b);
      IndexedRoot(Resolve(structs, locals, fn, b), indices);
    case RefTo(x) => UnrootedValue(structs, params, fn, locals, x);
    case Paren(x) => UnrootedValue(structs, params, fn, locals, x);
    case _ =>
  }

  /** What a list of actions puts on record: accesses of the function's parameters, and calls. */
  ghost predicate Puts(structs: Structs, params: seq<Param>, fn: nat, acts: seq<Action>, kind: AccessKind, s: Subject) {
    exists e :: Touch(kind, e) in acts && Rooted(params, e) && Own(structs, params, fn, e) == s
  }

  predicate Holds(w: Walk, kind: AccessKind, s: Subject) {
    exists i :: 0 <= i < |w.entries| && w.entries[i].kind == kind && w.entries[i].subject == s
  }

  predicate Calls(w: Walk, callee: string, args: seq<Expr>) {
    exists j :: 0 <= j < |w.calls| && w.calls[j].callee == callee && w.calls[j].args == args
  }

  /** The action has its entry, or its call, in the walk. */
  ghost predicate Recorded(structs: Structs, params: seq<Param>, fn: nat, w: Walk, a: Action) {
    match a
    case Touch(kind, e) => Rooted(params, e) ==> Holds(w, kind, Own(structs, params, fn, e))
    case Invoke(callee, args) => Calls(w, callee, args)
  }

  ghost predicate RecordedAll(structs: Structs, params: seq<Param>, fn: nat, w: Walk, acts: seq<Action>) {
    forall a :: a in acts ==> Recorded(structs, params, fn, w, a)
  }

  /** `r` has on record what `w` has and what the actions put there, and nothing else that could be looked for. */
  ghost predicate Adds(structs: Structs, params: seq<Param>, fn: nat, w: Walk, r: Walk, acts: seq<Action>) {
    && (forall kind: AccessKind, s: Subject | s.root.Parameter? ::
          Holds(r, kind, s) <==> Holds(w, kind, s) || Puts(structs, params, fn, acts, kind, s))
    && forall callee, args :: Calls(r, callee, args) <==> Calls(w, callee, args) || Invoke(callee, args) in acts
  }

  lemma AddsNothing(structs: Structs, params: seq<Param>, fn: nat, w: Walk)
    ensures Adds(structs, params, fn, w, w, [])
  {
  }

  lemma AddsThen(structs: Structs, params: seq<Param>, fn: nat, w: Walk, r: Walk, q: Walk,
                 a: seq<Action>, b: seq<Action>)
    requires Adds(structs, params, fn, w, r, a) && Adds(structs, params, fn, r, q, b)
    ensures Adds(structs, params, fn, w, q, a + b)
  {
    hide Holds, Calls, Rooted, Own;
    forall kind, s ensures Puts(structs, params, fn, a + b, kind, s) <==>
                           Puts(structs, params, fn, a, kind, s) || Puts(structs, params, fn, b, kind, s) {
      PutsJoin(structs, params, fn, a, b, kind, s);
    }
  }

  lemma PutsJoin(structs: Structs, params: seq<Param>, fn: nat, a: seq<Action>, b: seq<Action>, kind: AccessKind,
                 s: Subject)
    ensures Puts(structs, params, fn, a + b, kind, s) <==>
            Puts(structs, params, fn, a, kind, s) || Puts(structs, params, fn, b, kind, s)
  {
    hide Rooted, Own;
    if Puts(structs, params, fn, a, kind, s) {
      var e :| Touch(kind, e) in a && Rooted(params, e) && Own(structs, params, fn, e) == s;
      assert Touch(kind, e) in a + b;
    }
    if Puts(structs, params, fn, b, kind, s) {
      var e :| Touch(kind, e) in b && Rooted(params, e) && Own(structs, params, fn, e) == s;
      assert Touch(kind, e) in a + b;
    }
  }

  lemma AddsRead(structs: Structs, params: seq<Param>, fn: nat, w: Walk, e: Expr, site: nat)
    requires OwnLocals(params, fn, w.locals)
    ensures Adds(structs, params, fn, w, WalkRead(structs, fn, w, e, site), [Touch(Read, e)])
  {
    if Rooted(params, e) {
      ResolveRooted(structs, params, fn, w.locals, e);
      AddsNoted(structs, params, fn, w, Read, e, site);
    } else {
      UnrootedValue(structs, params, fn, w.locals, e);
      hide Resolve, Rooted;
      assert WalkRead(structs, fn, w, e, site) == w;
      assert forall kind, s :: !Puts(structs, params, fn, [Touch(Read, e)], kind, s);
    }
  }

  lemma AddsNoted(structs: Structs, params: seq<Param>, fn: nat, w: Walk, kind: AccessKind, e: Expr, site: nat)
    requires OwnLocals(params, fn, w.locals)
    ensures Adds(structs, params, fn, w, Noted(w, kind, At(structs, fn, w, e), fn, site), [Touch(kind, e)])
  {
    var own := At(structs, fn, w, e);
    var r := Noted(w, kind, own, fn, site);
    if Rooted(params, e) {
      ResolveRooted(structs, params, fn, w.locals, e);
    } else {
      UnrootedValue(structs, params, fn, w.locals, e);
    }
    hide Resolve, Rooted;
    forall k, s: Subject | s.root.Parameter?
      ensures Holds(r, k, s) <==> Holds(w, k, s) || Puts(structs, params, fn, [Touch(kind, e)], k, s)
    {
      HoldsNoted(w, kind, own, fn, site, k, s);
      if Rooted(params, e) && k == kind && s == own {
        assert Touch(k, e) in [Touch(kind, e)];
      }
    }
  }

  lemma HoldsNoted(w: Walk, kind: AccessKind, own: Subject, fn: nat, site: nat, k: AccessKind, s: Subject)
    ensures Holds(Noted(w, kind, own, fn, site), k, s) <==> Holds(w, k, s) || (k == kind && s == own)
  {
    var r := Noted(w, kind, own, fn, site);
    assert r.entries[|w.entries|].kind == kind && r.entries[|w.entries|].subject == own;
    if i :| 0 <= i < |w.entries| && w.entries[i].kind == k && w.entries[i].subject == s {
      assert r.entries[i] == w.entries[i];
    }
  }

  lemma {:induction false} AddsAtomics(structs: Structs, params: seq<Param>, fn: nat, w: Walk,
                                       kinds: seq<AccessKind>, e: Expr, site: nat)
    requires OwnLocals(params, fn, w.locals)
    ensures Adds(structs, params, fn, w, NotedAll(w, kinds, At(structs, fn, w, e), fn, site), Touches(kinds, e))
    ensures NotedAll(w, kinds, At(structs, fn, w, e), fn, site).locals == w.locals
    decreases kinds
  {
    hide Resolve, Adds, OwnLocals;
    if kinds == [] {
      AddsNothing(structs, params, fn, w);
    } else {
      var first := Noted(w, kinds[0], At(structs, fn, w, e), fn, site);
      AddsNoted(structs, params, fn, w, kinds[0], e, site);
      AddsAtomics(structs, params, fn, first, kinds[1..], e, site);
      AddsThen(structs, params, fn, w, first, NotedAll(first, kinds[1..], At(structs, fn, w, e), fn, site),
               [Touch(kinds[0], e)], Touches(kinds[1..], e));
    }
  }

  lemma AddsCall(structs: Structs, params: seq<Param>, fn: nat, w: Walk, callee: string, args: seq<Expr>)
    ensures Adds(structs, params, fn, w,
                 w.(sequence := w.sequence + 1, calls := w.calls + [Call(callee, args, w.sequence + 1)]),
                 [Invoke(callee, args)])
  {
    var r := w.(sequence := w.sequence + 1, calls := w.calls + [Call(callee, args, w.sequence + 1)]);
    forall c, xs ensures Calls(r, c, xs) <==> Calls(w, c, xs) || Invoke(c, xs) == Invoke(callee, args) {
      assert r.calls[|w.calls|] == Call(callee, args, w.sequence + 1);
      if j :| 0 <= j < |w.calls| && w.calls[j].callee == c && w.calls[j].args == xs {
        assert r.calls[j] == w.calls[j];
      }
    }
  }

  /** The walk of an expression records exactly the actions it visits. */
  lemma {:induction false} WalkAdds(structs: Structs, params: seq<Param>, fn: nat, w: Walk, e: Expr)
    requires OwnLocals(params, fn, w.locals)
    ensures Adds(structs, params, fn, w, WalkExpr(structs, fn, w, e), Visited(e))
    ensures OwnLocals(params, fn, WalkExpr(structs, fn, w, e).locals)
    decreases e, 1
  {
    hide Resolve, OwnLocals, Holds, Puts, Calls;
    match e
    case Name(_, site) => AddsRead(structs, params, fn, w, e, site);
    case FieldOf(_, _, _, site) => AddsRead(structs, params, fn, w, e, site);
    case IndexOf(_, _, site) =>
      AddsRead(structs, params, fn, w, e, site);
      var r := WalkRead(structs, fn, w, e, site);
      OperandsAdd(structs, params, fn, r, e);
      AddsThen(structs, params, fn, w, r, WalkOperands(structs, fn, r, e), [Touch(Read, e)], VisitedOperands(e));
    case RefTo(x) => OperandsAdd(structs, params, fn, w, x);
    case Paren(x) => WalkAdds(structs, params, fn, w, x);
    case CallTo(_, _, _) => CallAdds(structs, params, fn, w, e);
    case Compound(es) => AllAdd(structs, params, fn, w, es);
    case Skipped(_) => AddsNothing(structs, params, fn, w);
    case Lit(_) => AddsNothing(structs, params, fn, w);
  }

  lemma {:induction false} CallAdds(structs: Structs, params: seq<Param>, fn: nat, w: Walk, e: Expr)
    requires OwnLocals(params, fn, w.locals) && e.CallTo?
    ensures Adds(structs, params, fn, w, WalkExpr(structs, fn, w, e), Visited(e))
    ensures OwnLocals(params, fn, WalkExpr(structs, fn, w, e).locals)
    decreases e, 0
  {
    hide Resolve, OwnLocals, Holds, Puts, Calls;
    var args := e.args;
    AllAdd(structs, params, fn, w, args);
    var w1 := WalkAll(structs, fn, w, args);
    var w2 := if args == [] then w1 else NotedAll(w1, AtomicKinds(e.callee), At(structs, fn, w1, args[0]), fn, e.site);
    var atomics := if args == [] then [] else Touches(AtomicKinds(e.callee), args[0]);
    if args == [] {
      AddsNothing(structs, params, fn, w1);
    } else {
      AddsAtomics(structs, params, fn, w1, AtomicKinds(e.callee), args[0], e.site);
    }
    AddsThen(structs, params, fn, w, w1, w2, VisitedAll(args), atomics);
    AddsCall(structs, params, fn, w2, e.callee, args);
    AddsThen(structs, params, fn, w, w2, WalkExpr(structs, fn, w, e), VisitedAll(args) + atomics,
             [Invoke(e.callee, args)]);
  }

  lemma {:induction false} AllAdd(structs: Structs, params: seq<Param>, fn: nat, w: Walk, es: seq<Expr>)
    requires OwnLocals(params, fn, w.locals)
    ensures Adds(structs, params, fn, w, WalkAll(structs, fn, w, es), VisitedAll(es))
    ensures OwnLocals(params, fn, WalkAll(structs, fn, w, es).locals)
    decreases es, 0
  {
    hide Resolve, OwnLocals, Holds, Puts, Calls;
    if es == [] {
      AddsNothing(structs, params, fn, w);
    } else {
      var first := WalkExpr(structs, fn, w, es[0]);
      WalkAdds(structs, params, fn, w, es[0]);
      AllAdd(structs, params, fn, first, es[1..]);
      AddsThen(structs, params, fn, w, first, WalkAll(structs, fn, first, es[1..]), Visited(es[0]),
               VisitedAll(es[1..]));
    }
  }

  lemma {:induction false} OperandsAdd(structs: Structs, params: seq<Param>, fn: nat, w: Walk, e: Expr)
    requires OwnLocals(params, fn, w.locals)
    ensures Adds(structs, params, fn, w, WalkOperands(structs, fn, w, e), VisitedOperands(e))
    ensures OwnLocals(params, fn, WalkOperands(structs, fn, w, e).locals)
    decreases e, 0
  {
    hide Resolve, OwnLocals, Holds, Puts, Calls;
    if e.IndexOf? && e.indices != [] {
      var first := WalkExpr(structs, fn, w, e.indices[0]);
      WalkAdds(structs, params, fn, w, e.indices[0]);
      AllAdd(structs, params, fn, first, e.indices);
      AddsThen(structs, params, fn, w, first, WalkAll(structs, fn, first, e.indices), Visited(e.indices[0]),
               VisitedAll(e.indices));
    } else {
      AddsNothing(structs, params, fn, w);
    }
  }

  /** Some visited action leaves the record that `a` would. */
  ghost predicate Stands(structs: Structs, params: seq<Param>, fn: nat, acts: seq<Action>, a: Action) {
    match a
    case Touch(kind, e) => Rooted(params, e) ==> Puts(structs, params, fn, acts, kind, Own(structs, params, fn, e))
    case Invoke(_, _) => a in acts
  }

  lemma {:induction false} StmtAdds(structs: Structs, params: seq<Param>, fn: nat, w: Walk, st: Stmt)
    requires OwnLocals(params, fn, w.locals) && Unshadowed(params, st)
    ensures Adds(structs, params, fn, w, WalkStmt(structs, fn, w, st), StmtVisited(st))
    ensures OwnLocals(params, fn, WalkStmt(structs, fn, w, st).locals)
    decreases st, 1
  {
    hide Resolve, OwnLocals, Adds;
    match st
    case Decl(x, ty, e) =>
      WalkAdds(structs, params, fn, w, e);
      DeclAdds(structs, params, fn, w, WalkExpr(structs, fn, w, e), x, ty, Visited(e));
    case Assign(_, _, _) => AssignAdds(structs, params, fn, w, st);
    case Do(e) => WalkAdds(structs, params, fn, w, e);
    case If(c, t, f) =>
      var w1 := WalkExpr(structs, fn, w, c);
      var w2 := WalkBlock(structs, fn, w1, t);
      WalkAdds(structs, params, fn, w, c);
      BlockAdds(structs, params, fn, w1, t);
      BlockAdds(structs, params, fn, w2, f);
      AddsThen(structs, params, fn, w, w1, w2, Visited(c), BlockVisited(t));
      AddsThen(structs, params, fn, w, w2, WalkBlock(structs, fn, w2, f), Visited(c) + BlockVisited(t),
               BlockVisited(f));
    case While(c, b) =>
      var w1 := WalkExpr(structs, fn, w, c);
      WalkAdds(structs, params, fn, w, c);
      BlockAdds(structs, params, fn, w1, b);
      AddsThen(structs, params, fn, w, w1, WalkBlock(structs, fn, w1, b), Visited(c), BlockVisited(b));
    case Block(b) => BlockAdds(structs, params, fn, w, b);
  }

  lemma DeclAdds(structs: Structs, params: seq<Param>, fn: nat, w: Walk, r: Walk, x: string, ty: Ty, acts: seq<Action>)
    requires Adds(structs, params, fn, w, r, acts) && OwnLocals(params, fn, r.locals) && ParamIndex(params, x).None?
    ensures var q := r.(locals := r.locals[x := Plain(Value(fn, x, ty), ty, Exact)]);
            Adds(structs, params, fn, w, q, acts) && OwnLocals(params, fn, q.locals)
  {
    hide Puts;
  }

  lemma AssignAdds(structs: Structs, params: seq<Param>, fn: nat, w: Walk, st: Stmt)
    requires OwnLocals(params, fn, w.locals) && st.Assign?
    ensures Adds(structs, params, fn, w, WalkStmt(structs, fn, w, st), StmtVisited(st))
    ensures OwnLocals(params, fn, WalkStmt(structs, fn, w, st).locals)
  {
    hide Resolve, OwnLocals, Adds;
    var target := st.target;
    var w1 := WalkExpr(structs, fn, w, st.e);
    WalkAdds(structs, params, fn, w, st.e);
    var s := At(structs, fn, w1, target);
    var w2 := if s.root.Parameter? || s.root.NoRoot? then Noted(w1, Write, s, fn, st.site) else w1;
    AddsWrite(structs, params, fn, w1, target, st.site);
    AddsThen(structs, params, fn, w, w1, w2, Visited(st.e), [Touch(Write, target)]);
    OperandsAdd(structs, params, fn, w2, target);
    AddsThen(structs, params, fn, w, w2, WalkOperands(structs, fn, w2, target), Visited(st.e) + [Touch(Write, target)],
             VisitedOperands(target));
  }

  lemma AddsWrite(structs: Structs, params: seq<Param>, fn: nat, w: Walk, target: Expr, site: nat)
    requires OwnLocals(params, fn, w.locals)
    ensures var s := At(structs, fn, w, target);
            var r := if s.root.Parameter? || s.root.NoRoot? then Noted(w, Write, s, fn, site) else w;
            Adds(structs, params, fn, w, r, [Touch(Write, target)]) && r.locals == w.locals
  {
    AddsNoted(structs, params, fn, w, Write, target, site);
    var s := At(structs, fn, w, target);
    if !s.root.Parameter? && !s.root.NoRoot? {
      if Rooted(params, target) {
        ResolveRooted(structs, params, fn, w.locals, target);
      }
      hide Resolve, Rooted;
      assert forall kind, t :: !Puts(structs, params, fn, [Touch(Write, target)], kind, t);
    }
  }

  lemma {:induction false} BlockAdds(structs: Structs, params: seq<Param>, fn: nat, w: Walk, b: seq<Stmt>)
    requires OwnLocals(params, fn, w.locals) && UnshadowedAll(params, b)
    ensures Adds(structs, params, fn, w, WalkBlock(structs, fn, w, b), BlockVisited(b))
    ensures OwnLocals(params, fn, WalkBlock(structs, fn, w, b).locals)
    decreases b, 0
  {
    hide Resolve, OwnLocals, Adds;
    if b == [] {
      AddsNothing(structs, params, fn, w);
    } else {
      var first := WalkStmt(structs, fn, w, b[0]);
      StmtAdds(structs, params, fn, w, b[0]);
      BlockAdds(structs, params, fn, first, b[1..]);
      AddsThen(structs, params, fn, w, first, WalkBlock(structs, fn, first, b[1..]), StmtVisited(b[0]),
               BlockVisited(b[1..]));
    }
  }

  /** A walk from nothing misses no action of `e` exactly when each leaves the record of one that is visited. */
  lemma WalkMissesNothingIff(structs: Structs, params: seq<Param>, fn: nat, w: Walk, e: Expr)
    requires OwnLocals(params, fn, w.locals) && w.entries == [] && w.calls == []
    ensures RecordedAll(structs, params, fn, WalkExpr(structs, fn, w, e), Actions(e)) <==>
            forall a :: a in Actions(e) ==> Stands(structs, params, fn, Visited(e), a)
  {
    hide WalkExpr, Visited, Actions, Resolve, OwnLocals;
    WalkAdds(structs, params, fn, w, e);
    forall a | a in Actions(e)
      ensures Recorded(structs, params, fn, WalkExpr(structs, fn, w, e), a) <==>
                Stands(structs, params, fn, Visited(e), a)
    {
      RecordedIffStands(structs, params, fn, w, WalkExpr(structs, fn, w, e), Visited(e), a);
    }
  }

  lemma RecordedIffStands(structs: Structs, params: seq<Param>, fn: nat, w: Walk, r: Walk, acts: seq<Action>, a: Action)
    requires OwnLocals(params, fn, w.locals) && w.entries == [] && w.calls == []
             && Adds(structs, params, fn, w, r, acts)
    ensures Recorded(structs, params, fn, r, a) <==> Stands(structs, params, fn, acts, a)
  {
    hide Resolve, Puts, Rooted;
    match a
    case Touch(kind, e) =>
      if Rooted(params, e) {
        ResolveRooted(structs, params, fn, w.locals, e);
        assert Recorded(structs, params, fn, r, a) <==> Holds(r, kind, Own(structs, params, fn, e));
      }
    case Invoke(callee, args) => assert Recorded(structs, params, fn, r, a) <==> Calls(r, callee, args);
  }

  /** Every action of the function leaves the record of one that its walk visits. */
  ghost predicate BodySeen(p: Program, f: nat)
    requires f < |p.fns|
  {
    forall a :: a in BlockActions(p.fns[f].body) ==>
      Stands(p.structs, p.fns[f].params, f, BlockVisited(p.fns[f].body), a)
  }

  /** Everything a function does to shared storage, and every call it makes, is in its walk exactly then. */
  lemma WalkIsCompleteIff(p: Program, f: nat)
    requires f < |p.fns| && UnshadowedAll(p.fns[f].params, p.fns[f].body)
    ensures RecordedAll(p.structs, p.fns[f].params, f, Walked(p, f), BlockActions(p.fns[f].body)) <==> BodySeen(p, f)
    ensures KeepsParams(p.fns[f].params, f, Walked(p, f).locals)
  {
    hide Recorded, Stands, KeepsParams, WalkBlock, BlockActions, BlockVisited;
    var params, body := p.fns[f].params, p.fns[f].body;
    var start := Walk(ParamLocals(f, params), [], [], 0);
    StartOwnLocals(params, f);
    BlockAdds(p.structs, params, f, start, body);
    forall a | a in BlockActions(body)
      ensures Recorded(p.structs, params, f, Walked(p, f), a) <==> Stands(p.structs, params, f, BlockVisited(body), a)
    {
      RecordedIffStands(p.structs, params, f, start, Walked(p, f), BlockVisited(body), a);
    }
  }

  lemma StartOwnLocals(params: seq<Param>, fn: nat)
    ensures OwnLocals(params, fn, ParamLocals(fn, params))
  {
    StartKeepsParams(params, fn);
    forall x ensures x in ParamLocals(fn, params) <==> ParamIndex(params, x).Some? {
      ParamLocalsAt(fn, params, x);
    }
  }

  // ---------------------------------------------------------------------------------------------
  // Bodies of which the walk misses nothing

  /** Naming the storage evaluates nothing. */
  predicate Bare(e: Expr) {
    match e
    case Name(_, _) => true
    case Lit(_) => true
    case FieldOf(r, _, _, _) => Bare(r)
    case IndexOf(b, indices, _) => Bare(b) && forall k :: 0 <= k < |indices| ==> indices[k].Lit?
    case RefTo(x) => Bare(x)
    case Paren(x) => Bare(x)
    case _ => false
  }

  /** No form without a case, and indices in the outermost projection only. */
  predicate Walkable(e: Expr)
    decreases e, 1
  {
    match e
    case Name(_, _) => true
    case Lit(_) => true
    case FieldOf(r, _, _, _) => Bare(r)
    case IndexOf(_, _, _) => WalkableTarget(e)
    case RefTo(x) => WalkableTarget(x)
    case Paren(x) => Walkable(x)
    case CallTo(_, args, _) => WalkableAll(args)
    case Compound(es) => WalkableAll(es)
    case Skipped(es) => es == []
  }

  predicate WalkableAll(es: seq<Expr>)
    decreases es, 0
  {
    es == [] || (Walkable(es[0]) && WalkableAll(es[1..]))
  }

  predicate WalkableTarget(e: Expr)
    decreases e, 0
  {
    Bare(e) || (e.IndexOf? && Bare(e.base) && WalkableAll(e.indices))
  }

  predicate WalkableStmt(st: Stmt) {
    match st
    case Decl(_, _, e) => Walkable(e)
    case Assign(target, e, _) => Walkable(e) && WalkableTarget(target)
    case Do(e) => Walkable(e)
    case If(c, t, f) => Walkable(c) && WalkableBlock(t) && WalkableBlock(f)
    case While(c, b) => Walkable(c) && WalkableBlock(b)
    case Block(b) => WalkableBlock(b)
  }

  predicate WalkableBlock(b: seq<Stmt>) {
    b == [] || (WalkableStmt(b[0]) && WalkableBlock(b[1..]))
  }

  ghost predicate Within(some: seq<Action>, all: seq<Action>) {
    forall a :: a in some ==> a in all
  }

  lemma {:induction false} LiteralsDoNothing(es: seq<Expr>)
    requires forall k :: 0 <= k < |es| ==> es[k].Lit?
    ensures ActionsOf(es) == []
  {
    if es != [] {
      LiteralsDoNothing(es[1..]);
    }
  }

  lemma {:induction false} BareDoesNothing(e: Expr)
    requires Bare(e)
    ensures Addressing(e) == []
  {
    match e
    case FieldOf(r, _, _, _) => BareDoesNothing(r);
    case IndexOf(b, indices, _) =>
      BareDoesNothing(b);
      LiteralsDoNothing(indices);
    case RefTo(x) => BareDoesNothing(x);
    case Paren(x) => BareDoesNothing(x);
    case _ =>
  }

  lemma {:induction false} WalkableIsVisited(e: Expr)
    requires Walkable(e)
    ensures Within(Actions(e), Visited(e))
    decreases e, 1
  {
    match e
    case FieldOf(r, _, _, _) => BareDoesNothing(r);
    case IndexOf(_, _, _) => TargetIsVisited(e);
    case RefTo(x) => TargetIsVisited(x);
    case Paren(x) => WalkableIsVisited(x);
    case CallTo(callee, args, _) =>
      AllAreVisited(args);
      AtomicKindsMean(callee);
    case Compound(es) => AllAreVisited(es);
    case _ =>
  }

  lemma {:induction false} AllAreVisited(es: seq<Expr>)
    requires WalkableAll(es)
    ensures Within(ActionsOf(es), VisitedAll(es))
    decreases es, 0
  {
    if es != [] {
      WalkableIsVisited(es[0]);
      AllAreVisited(es[1..]);
    }
  }

  lemma {:induction false} TargetIsVisited(e: Expr)
    requires WalkableTarget(e)
    ensures Within(Addressing(e), VisitedOperands(e))
    decreases e, 0
  {
    if Bare(e) {
      BareDoesNothing(e);
    } else {
      BareDoesNothing(e.base);
      AllAreVisited(e.indices);
    }
  }

  lemma {:induction false} StmtIsVisited(st: Stmt)
    requires WalkableStmt(st)
    ensures Within(StmtActions(st), StmtVisited(st))
  {
    match st
    case Decl(_, _, e) => WalkableIsVisited(e);
    case Assign(target, e, _) => WalkableIsVisited(e); TargetIsVisited(target);
    case Do(e) => WalkableIsVisited(e);
    case If(c, t, f) => WalkableIsVisited(c); BlockIsVisited(t); BlockIsVisited(f);
    case While(c, b) => WalkableIsVisited(c); BlockIsVisited(b);
    case Block(b) => BlockIsVisited(b);
  }

  lemma {:induction false} BlockIsVisited(b: seq<Stmt>)
    requires WalkableBlock(b)
    ensures Within(BlockActions(b), BlockVisited(b))
  {
    if b != [] {
      StmtIsVisited(b[0]);
      BlockIsVisited(b[1..]);
    }
  }

  /** A body in whose expressions nothing is skipped and no index is below a projection is seen as a whole. */
  lemma WalkableBodiesAreSeen(p: Program, f: nat)
    requires f < |p.fns| && WalkableBlock(p.fns[f].body)
    ensures BodySeen(p, f)
  {
    hide BlockActions, BlockVisited, Rooted, Own;
    BlockIsVisited(p.fns[f].body);
    forall a | a in BlockActions(p.fns[f].body)
      ensures Stands(p.structs, p.fns[f].params, f, BlockVisited(p.fns[f].body), a)
    {
      assert a in BlockVisited(p.fns[f].body);
    }
  }
}
