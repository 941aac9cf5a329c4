/** If synchronised access to a type is proven, no interleaving of the contexts races on it. */
module AccessRaces {
  import opened Wrappers
  import opened AccessModel
  import opened AccessSummary
  import opened AccessVerdict
  import opened AccessSemantics
  import opened AccessCoverage
  import opened AccessPlaces
  import opened AccessRegions
  import opened AccessWalker

  // ---------------------------------------------------------------------------------------------
  // The programs the analysis is sound for

  /**
   A typed expression with the declared regions, one element of each at most, and no literal index above a
   dynamic one.
   */
  predicate Steady(structs: Structs, params: seq<Param>, e: Expr) {
    Rooted(params, e) ==> TypeOf(structs, params, e).Some? && Annotated(structs, params, e) && OneElement(e)
                          && !Resets(e)
  }

  predicate PlainAction(p: Program, f: nat, a: Action)
    requires f < |p.fns|
  {
    match a
    case Touch(_, e) => Steady(p.structs, p.fns[f].params, e)
    case Invoke(callee, args) =>
      forall k :: 0 <= k < |args| ==> Steady(p.structs, p.fns[f].params, args[k])
  }

  /** The callee is the only function of its name and arity, and parameter parts are passed at the parameter's type. */
  ghost predicate CallFits(p: Program, f: nat, callee: string, args: seq<Expr>)
    requires f < |p.fns|
  {
    forall g: nat :: g < |p.fns| && p.fns[g].name == callee && |p.fns[g].params| == |args| ==>
      && (forall h: nat :: h < |p.fns| && p.fns[h].name == callee && |p.fns[h].params| == |args| ==> h == g)
      && forall k :: 0 <= k < |args| && Rooted(p.fns[f].params, args[k]) ==>
           TypeOf(p.structs, p.fns[f].params, args[k]) == Some(p.fns[g].params[k].ty)
  }

  ghost predicate ActionFits(p: Program, f: nat, a: Action)
    requires f < |p.fns|
  {
    PlainAction(p, f, a) && (a.Invoke? ==> CallFits(p, f, a.callee, a.args))
  }

  ghost predicate FnAnalyzable(p: Program, f: nat)
    requires f < |p.fns|
  {
    && UnshadowedAll(p.fns[f].params, p.fns[f].body) && BodySeen(p, f)
    && forall a :: a in BlockActions(p.fns[f].body) ==> ActionFits(p, f, a)
  }

  ghost predicate Analyzable(p: Program) {
    LaidOut(p.structs) && forall f :: 0 <= f < |p.fns| ==> FnAnalyzable(p, f)
  }

  // ---------------------------------------------------------------------------------------------
  // Stacks of calls

  function ParamsOf(p: Program, f: Frame): seq<Param>
    requires FrameOk(p, f)
  {
    p.fns[f.fn].params
  }

  /** Frame `b` was entered from frame `a` by call `j`. */
  ghost predicate LinkedBy(p: Program, ws: Walks, a: Frame, b: Frame, j: nat) {
    && |ws| == |p.fns| && FrameOk(p, a) && FrameOk(p, b) && j < |ws[a.fn].calls|
    && var c := ws[a.fn].calls[j];
       && Callee(p, c) == Some(b.fn) && KeepsParams(ParamsOf(p, a), a.fn, ws[a.fn].locals)
       && forall k :: 0 <= k < |c.args| && b.args[k].Shared? ==>
            && Denotes(ParamsOf(p, a), a.args, c.args[k], b.args[k])
            && TypeOf(p.structs, ParamsOf(p, a), c.args[k]) == Some(ParamsOf(p, b)[k].ty)
            && Annotated(p.structs, ParamsOf(p, a), c.args[k]) && OneElement(c.args[k]) && !Resets(c.args[k])
  }

  ghost predicate Linked(p: Program, ws: Walks, a: Frame, b: Frame) {
    exists j: nat :: LinkedBy(p, ws, a, b, j)
  }

  ghost predicate IsRoot(p: Program, objects: seq<Ty>, c: string, f: Frame) {
    FrameOk(p, f) && p.fns[f.fn].context == Some(c) && WholeObjects(objects, p.fns[f.fn].params, f.args)
  }

  ghost predicate StackOk(p: Program, ws: Walks, objects: seq<Ty>, c: string, stack: seq<Frame>) {
    && (stack != [] ==> IsRoot(p, objects, c, stack[0]))
    && forall i :: 0 < i < |stack| ==> Linked(p, ws, stack[i - 1], stack[i])
  }

  /** An entry of the frame's own summary describes the access. */
  ghost predicate BackedBy(p: Program, ws: Walks, f: Frame, kind: AccessKind, pl: Place, e: Entry, k: nat) {
    && FrameOk(p, f) && pl.Shared? && InLeast(p, ws, f.fn, e) && e.kind == kind
    && k < |f.args| && f.args[k].Shared? && f.args[k].obj == pl.obj && f.args[k].path <= pl.path
    && e.subject.root == Parameter(f.fn, k, ParamsOf(p, f)[k].name, ParamsOf(p, f)[k].ty)
    && Covers(p.structs, ParamsOf(p, f)[k].ty, e.subject, Below(f.args, k, pl))
  }

  ghost predicate Backed(p: Program, ws: Walks, f: Frame, kind: AccessKind, pl: Place) {
    exists e, k: nat :: BackedBy(p, ws, f, kind, pl, e, k)
  }

  /** An access of the callee is described by its caller's summary too. */
  lemma CallerIsBacked(p: Program, ws: Walks, a: Frame, b: Frame, kind: AccessKind, pl: Place)
    requires Linked(p, ws, a, b) && Backed(p, ws, b, kind, pl)
    ensures Backed(p, ws, a, kind, pl)
  {
    hide Covers, Resolve, InLeast, Denotes, TypeOf, Rooted;
    var j: nat :| LinkedBy(p, ws, a, b, j);
    var e, k: nat :| BackedBy(p, ws, b, kind, pl, e, k);
    var c := ws[a.fn].calls[j];
    var params := ParamsOf(p, a);
    var arg := c.args[k];
    ResolveCovers(p.structs, params, a.fn, a.args, arg, b.args[k]);
    var m := RootOf(params, arg);
    ResolveRooted(p.structs, params, a.fn, ws[a.fn].locals, arg);
    var base := Own(p.structs, params, a.fn, arg);
    var above, below := Below(a.args, m, b.args[k]), Below(b.args, k, pl);
    ExtendedCovers(p.structs, params[m].ty, base, above, e.subject, below);
    assert Below(a.args, m, pl) == above + below;
    var outer := Substitute(p, ws, a.fn, c, e);
    assert outer.subject == Extended(base, e.subject);
    assert IsCall(p, ws, a.fn, c, b.fn);
    CallDerives(p, ws, a.fn, c, b.fn, e);
    assert BackedBy(p, ws, a, kind, pl, outer, m);
  }

  lemma {:induction false} RootIsBacked(p: Program, ws: Walks, objects: seq<Ty>, c: string,
                                        stack: seq<Frame>, kind: AccessKind, pl: Place)
    requires stack != [] && StackOk(p, ws, objects, c, stack) && Backed(p, ws, stack[|stack| - 1], kind, pl)
    ensures Backed(p, ws, stack[0], kind, pl)
    decreases |stack|
  {
    hide Linked, Backed, IsRoot;
    if |stack| > 1 {
      var last := |stack| - 1;
      CallerIsBacked(p, ws, stack[last - 1], stack[last], kind, pl);
      RootIsBacked(p, ws, objects, c, stack[..last], kind, pl);
    }
  }

  /** The access a frame makes is described by its summary. */
  lemma AccessIsBacked(p: Program, ws: Walks, f: Frame, kind: AccessKind, e: Expr, pl: Place)
    requires AreWalks(p, ws) && FrameOk(p, f) && FnAnalyzable(p, f.fn)
             && Touch(kind, e) in BlockActions(p.fns[f.fn].body)
    requires Denotes(ParamsOf(p, f), f.args, e, pl) && pl.Shared?
    ensures Backed(p, ws, f, kind, pl)
  {
    hide Covers, Resolve, Denotes, TypeOf, Walked, BlockActions, BodySeen;
    var params := ParamsOf(p, f);
    assert ActionFits(p, f.fn, Touch(kind, e));
    UnrootedIsPrivate(params, f.args, e, pl);
    ResolveCovers(p.structs, params, f.fn, f.args, e, pl);
    WalkIsCompleteIff(p, f.fn);
    assert Recorded(p.structs, params, f.fn, ws[f.fn], Touch(kind, e));
    var i :| 0 <= i < |ws[f.fn].entries| && ws[f.fn].entries[i].kind == kind
      && ws[f.fn].entries[i].subject == Own(p.structs, params, f.fn, e);
    var entry := ws[f.fn].entries[i];
    assert Derived(p, ws, f.fn, entry, 0);
    StartKeepsParams(params, f.fn);
    ResolveRooted(p.structs, params, f.fn, ParamLocals(f.fn, params), e);
    assert BackedBy(p, ws, f, kind, pl, entry, RootOf(params, e));
  }

  /** Entering a function links the new frame to the top one. */
  lemma EnterIsLinked(p: Program, ws: Walks, a: Frame, callee: string, exprs: seq<Expr>, fn: nat, args: seq<Place>)
    requires AreWalks(p, ws) && FrameOk(p, a) && FnAnalyzable(p, a.fn)
             && Invoke(callee, exprs) in BlockActions(p.fns[a.fn].body)
    requires |args| == |exprs| && fn < |p.fns| && p.fns[fn].name == callee && |p.fns[fn].params| == |exprs|
    requires forall k :: 0 <= k < |exprs| ==> Denotes(ParamsOf(p, a), a.args, exprs[k], args[k])
    ensures Linked(p, ws, a, Frame(fn, args))
  {
    hide Resolve, Denotes, TypeOf, Walked, BlockActions, BodySeen, Rooted;
    var params, b := ParamsOf(p, a), Frame(fn, args);
    assert ActionFits(p, a.fn, Invoke(callee, exprs));
    WalkIsCompleteIff(p, a.fn);
    assert Recorded(p.structs, params, a.fn, ws[a.fn], Invoke(callee, exprs));
    var j: nat :| j < |ws[a.fn].calls| && ws[a.fn].calls[j].callee == callee && ws[a.fn].calls[j].args == exprs;
    OnlyCandidate(p, ws[a.fn].calls[j], fn);
    forall k | 0 <= k < |exprs| && args[k].Shared?
      ensures TypeOf(p.structs, params, exprs[k]) == Some(p.fns[fn].params[k].ty)
      ensures Annotated(p.structs, params, exprs[k]) && OneElement(exprs[k]) && !Resets(exprs[k])
    {
      UnrootedIsPrivate(params, a.args, exprs[k], args[k]);
    }
    assert LinkedBy(p, ws, a, b, j);
  }

  lemma OnlyCandidate(p: Program, c: Call, fn: nat)
    requires fn < |p.fns| && p.fns[fn].name == c.callee && |p.fns[fn].params| == |c.args|
    requires forall h: nat :: h < |p.fns| && p.fns[h].name == c.callee && |p.fns[h].params| == |c.args| ==> h == fn
    ensures Callee(p, c) == Some(fn)
  {
    CandidatesOnce(p.fns, c, fn);
  }

  lemma {:induction false} CandidatesOnce(fns: seq<Fn>, c: Call, fn: nat)
    requires forall h: nat :: h < |fns| && fns[h].name == c.callee && |fns[h].params| == |c.args| ==> h == fn
    ensures Candidates(fns, c) ==
            (if fn < |fns| && fns[fn].name == c.callee && |fns[fn].params| == |c.args| then [fn] else [])
  {
    if fns != [] {
      CandidatesOnce(fns[..|fns| - 1], c, fn);
    }
  }

  // ---------------------------------------------------------------------------------------------
  // Runs

  /** A root function of the event's context has an entry for it. */
  ghost predicate Witnessed(p: Program, ws: Walks, objects: seq<Ty>, ev: Event) {
    exists f: Frame :: IsRoot(p, objects, ev.context, f) && Backed(p, ws, f, ev.kind, Shared(ev.obj, ev.path))
  }

  ghost predicate WorldOk(p: Program, ws: Walks, objects: seq<Ty>, w: World) {
    && (forall c :: c in w.stacks ==> StackOk(p, ws, objects, c, w.stacks[c]))
    && forall i :: 0 <= i < |w.history| ==> Witnessed(p, ws, objects, w.history[i])
  }

  lemma MoveKeeps(p: Program, ws: Walks, objects: seq<Ty>, w: World, m: Move)
    requires AreWalks(p, ws) && Analyzable(p) && WorldOk(p, ws, objects, w) && Enabled(p, objects, w, m)
    ensures WorldOk(p, ws, objects, Next(w, m))
  {
    hide Linked, Backed, FnAnalyzable, Denotes, BlockActions, Witnessed;
    var stack := StackOf(w, m.context);
    var r := Next(w, m);
    assert StackOk(p, ws, objects, m.context, stack);
    if m.Perform? && m.pl.Shared? {
      var top := stack[|stack| - 1];
      AccessIsBacked(p, ws, top, m.kind, m.e, m.pl);
      RootIsBacked(p, ws, objects, m.context, stack, m.kind, m.pl);
      WitnessFound(p, ws, objects, Event(m.context, m.kind, m.pl.obj, m.pl.path), stack[0]);
    } else if m.Enter? {
      EnterIsLinked(p, ws, stack[|stack| - 1], m.callee, m.exprs, m.fn, m.args);
    }
  }

  lemma WitnessFound(p: Program, ws: Walks, objects: seq<Ty>, ev: Event, f: Frame)
    requires IsRoot(p, objects, ev.context, f) && Backed(p, ws, f, ev.kind, Shared(ev.obj, ev.path))
    ensures Witnessed(p, ws, objects, ev)
  {
  }

  lemma {:induction false} RunKeeps(p: Program, ws: Walks, objects: seq<Ty>, moves: seq<Move>)
    requires AreWalks(p, ws) && Analyzable(p) && Legal(p, objects, moves)
    ensures WorldOk(p, ws, objects, Play(moves))
  {
    hide AreWalks, Analyzable, Enabled, Next;
    if moves != [] {
      RunKeeps(p, ws, objects, moves[..|moves| - 1]);
      MoveKeeps(p, ws, objects, Play(moves[..|moves| - 1]), moves[|moves| - 1]);
    }
  }

  // ---------------------------------------------------------------------------------------------
  // No data race

  /** The accesses the verdict looks at: every summary entry, with its function's contexts. */
  ghost predicate Represents(all: seq<Access>, s: Summaries, cs: ContextSets) {
    |s| == |cs| && forall f, i :: 0 <= f < |s| && 0 <= i < |s[f]| ==> Access(s[f][i], cs[f]) in all
  }

  /**
   Two accesses conflict when they touch overlapping parts of one object from different contexts and
   one of them writes (C11, section 5.1.2.4); a conflict of atomic accesses is no race.
   */
  predicate Conflicting(a: Event, b: Event) {
    a.context != b.context && a.obj == b.obj && PlacesOverlap(a.path, b.path) && (Modifies(a.kind) || Modifies(b.kind))
  }

  ghost predicate RaceFree(p: Program, subject: Ty) {
    forall objects: seq<Ty>, moves: seq<Move>, i: nat, j: nat ::
      Legal(p, objects, moves) && i < |Play(moves).history| && j < |Play(moves).history| &&
      Play(moves).history[i].obj < |objects| && objects[Play(moves).history[i].obj] == subject &&
      Conflicting(Play(moves).history[i], Play(moves).history[j]) ==>
        Indivisible(Play(moves).history[i].kind) && Indivisible(Play(moves).history[j].kind)
  }

  /** Of two accesses from different contexts to what may be one part, one stores and one is not atomic. */
  ghost predicate Competes(a: Access, b: Access) {
    && a.contexts != b.contexts && SubjectsOverlap(a.entry.subject, b.entry.subject)
    && (Modifies(a.entry.kind) || Modifies(b.entry.kind))
    && !(Indivisible(a.entry.kind) && Indivisible(b.entry.kind))
  }

  /** Access to a type is refuted exactly when all accesses to it are resolved and two of them compete. */
  lemma RefutedIff(all: seq<Access>, subject: Ty)
    ensures Refuted(all, subject) <==>
            && AllResolved(all, subject)
            && exists a, b :: a in all && b in all && About(a, subject) && About(b, subject) && Competes(a, b)
  {
    hide About, Resolved, SubjectsOverlap;
    forall a, b | Conflict(a, b) || Competes(a, b) ensures Conflict(a, b) && Competes(a, b) {
    }
    if !ConflictFree(all, subject) {
      var a, b :| a in all && b in all && About(a, subject) && About(b, subject) && Conflict(a, b);
      assert Competes(a, b);
    }
    if a, b :| a in all && b in all && About(a, subject) && About(b, subject) && Competes(a, b) {
      assert Conflict(a, b);
      assert !Atomic(a.entry.kind) || !Atomic(b.entry.kind);
    }
  }

  /** The access the verdict saw for an event. */
  ghost predicate Seen(all: seq<Access>, structs: Structs, subject: Ty, ev: Event, a: Access) {
    && a in all && About(a, subject) && a.entry.kind == ev.kind && ev.context in a.contexts
    && Covers(structs, subject, a.entry.subject, ev.path)
  }

  lemma EventIsSeen(p: Program, ws: Walks, s: Summaries, cs: ContextSets,
                    all: seq<Access>, objects: seq<Ty>, ev: Event) returns (a: Access)
    requires |ws| == |p.fns| && HasBase(ws, s) && Closed(p, ws, s) && ExactContexts(p, ws, cs) && Represents(all, s, cs)
    requires Witnessed(p, ws, objects, ev)
    ensures ev.obj < |objects| && Seen(all, p.structs, objects[ev.obj], ev, a)
  {
    hide Closed, HasBase, InLeast;
    var f: Frame :| IsRoot(p, objects, ev.context, f) && Backed(p, ws, f, ev.kind, Shared(ev.obj, ev.path));
    var e, k: nat :| BackedBy(p, ws, f, ev.kind, Shared(ev.obj, ev.path), e, k);
    assert Below(f.args, k, Shared(ev.obj, ev.path)) == ev.path;
    SummaryHas(p, ws, s, f.fn, e);
    var i :| 0 <= i < |s[f.fn]| && Key(s[f.fn][i]) == Key(e);
    a := Access(s[f.fn][i], cs[f.fn]);
    assert RunsWithin(p, ws, f.fn, ev.context, 0);
    KeyKeepsCover(p.structs, objects[ev.obj], e, s[f.fn][i], ev.path);
  }

  lemma SummaryHas(p: Program, ws: Walks, s: Summaries, f: nat, e: Entry)
    requires |ws| == |p.fns| && HasBase(ws, s) && Closed(p, ws, s) && InLeast(p, ws, f, e)
    ensures f < |s| && exists i :: 0 <= i < |s[f]| && Key(s[f][i]) == Key(e)
  {
    hide Key, ClosedAt;
    var n: nat :| Derived(p, ws, f, e, n);
    ClosedHasDerived(p, ws, s, f, e, n);
  }

  lemma KeyKeepsCover(structs: Structs, t: Ty, e: Entry, d: Entry, path: seq<Step>)
    requires Key(e) == Key(d)
    ensures e.kind == d.kind && RootType(e.subject.root) == RootType(d.subject.root)
    ensures Covers(structs, t, e.subject, path) == Covers(structs, t, d.subject, path)
  {
    var u, v := e.subject, d.subject;
    assert u.(root := v.root) == v by {
      assert Unnamed(u).(root := v.root) == u.(root := v.root) && Unnamed(v).(root := v.root) == v;
    }
    RegionIgnoresRoot(structs, t, u, v.root, path);
  }

  lemma ConflictIsAtomic(all: seq<Access>, structs: Structs, subject: Ty, x: Event, y: Event, a: Access, b: Access)
    requires Justified(all, subject) && Seen(all, structs, subject, x, a) && Seen(all, structs, subject, y, b)
    requires LaidOut(structs) && Conflicting(x, y)
    ensures Indivisible(x.kind) && Indivisible(y.kind)
  {
    hide Covers, SubjectsOverlap, About, LaidOut;
    assert Resolved(a) && Resolved(b);
    SingletonContexts(a.contexts, x.context);
    SingletonContexts(b.contexts, y.context);
    assert a.contexts != b.contexts by {
      assert x.context in a.contexts && x.context !in b.contexts;
    }
    if ConflictFree(all, subject) {
      OverlapIsSound(structs, subject, a.entry.subject, x.path, b.entry.subject, y.path);
      assert !Conflict(a, b);
    }
  }

  lemma SingletonContexts(s: set<string>, c: string)
    requires |s| == 1 && c in s
    ensures s == {c}
  {
    assert |s - {c}| == 0;
  }

  lemma ProvenIsRaceFree(p: Program, ws: Walks, s: Summaries, cs: ContextSets, all: seq<Access>, subject: Ty)
    requires AreWalks(p, ws) && Analyzable(p) && HasBase(ws, s) && Closed(p, ws, s) && ExactContexts(p, ws, cs)
    requires Represents(all, s, cs) && Justified(all, subject)
    ensures RaceFree(p, subject)
  {
    hide AreWalks, Analyzable, HasBase, Closed, ExactContexts, Represents, Justified, Legal, Play, Witnessed, Seen,
      StackOk;
    forall objects: seq<Ty>, moves: seq<Move>, i: nat, j: nat |
      Legal(p, objects, moves) && i < |Play(moves).history| && j < |Play(moves).history| &&
      Play(moves).history[i].obj < |objects| && objects[Play(moves).history[i].obj] == subject &&
      Conflicting(Play(moves).history[i], Play(moves).history[j])
      ensures Indivisible(Play(moves).history[i].kind) && Indivisible(Play(moves).history[j].kind)
    {
      RunIsRaceFree(p, ws, s, cs, all, subject, objects, moves, i, j);
    }
  }

  lemma RunIsRaceFree(p: Program, ws: Walks, s: Summaries, cs: ContextSets, all: seq<Access>, subject: Ty,
                      objects: seq<Ty>, moves: seq<Move>, i: nat, j: nat)
    requires AreWalks(p, ws) && Analyzable(p) && HasBase(ws, s) && Closed(p, ws, s) && ExactContexts(p, ws, cs)
    requires Represents(all, s, cs) && Justified(all, subject) && Legal(p, objects, moves)
    requires i < |Play(moves).history| && j < |Play(moves).history|
    requires Play(moves).history[i].obj < |objects| && objects[Play(moves).history[i].obj] == subject
    requires Conflicting(Play(moves).history[i], Play(moves).history[j])
    ensures Indivisible(Play(moves).history[i].kind) && Indivisible(Play(moves).history[j].kind)
  {
    hide FnAnalyzable, LaidOut, HasBase, Closed, ExactContexts, Represents, Justified, Legal, Play, Witnessed, Seen,
      StackOk;
    RunKeeps(p, ws, objects, moves);
    var x, y := Play(moves).history[i], Play(moves).history[j];
    var a := EventIsSeen(p, ws, s, cs, all, objects, x);
    var b := EventIsSeen(p, ws, s, cs, all, objects, y);
    ConflictIsAtomic(all, p.structs, subject, x, y, a, b);
  }

  /** Nothing but summary entries is looked at. */
  ghost predicate OnlySummaries(all: seq<Access>, s: Summaries, cs: ContextSets) {
    |s| == |cs| && forall a :: a in all ==>
                                 exists f, i :: 0 <= f < |s| && 0 <= i < |s[f]| && a == Access(s[f][i], cs[f])
  }

  /** Summary entries with their functions' contexts. */
  method Collect(s: Summaries, cs: ContextSets) returns (all: seq<Access>)
    requires |s| == |cs|
    ensures Represents(all, s, cs) && OnlySummaries(all, s, cs)
  {
    all := [];
    for f := 0 to |s|
      invariant forall g, i :: 0 <= g < f && 0 <= i < |s[g]| ==> Access(s[g][i], cs[g]) in all
      invariant OnlySummaries(all, s, cs)
    {
      for i := 0 to |s[f]|
        invariant forall g, k :: 0 <= g < f && 0 <= k < |s[g]| ==> Access(s[g][k], cs[g]) in all
        invariant forall k :: 0 <= k < i ==> Access(s[f][k], cs[f]) in all
        invariant OnlySummaries(all, s, cs)
      {
        all := all + [Access(s[f][i], cs[f])];
      }
    }
  }

  /** `all` is the access set of `p`: the least closed summaries, labelled with the exact contexts. */
  ghost predicate IsAccessSet(p: Program, all: seq<Access>) {
    exists ws: Walks, s: Summaries, cs: ContextSets ::
      && AreWalks(p, ws) && Sound(p, ws, s) && HasBase(ws, s) && Closed(p, ws, s)
      && ExactContexts(p, ws, cs) && Represents(all, s, cs) && OnlySummaries(all, s, cs)
  }

  /**
   The whole analysis: derive the access set, then judge; a type proven synchronised is free of data races in
   every run.
   */
  method SynchronizedAccess(p: Program, subject: Ty) returns (all: seq<Access>, r: Outcome)
    ensures IsAccessSet(p, all)
    ensures r == Proven <==> Justified(all, subject)
    ensures r == Disproven <==> Refuted(all, subject)
    ensures r == Proven && Analyzable(p) ==> RaceFree(p, subject)
  {
    hide Analyzable, RaceFree, Justified, Refuted, ExactContexts;
    var ws := WalkProgram(p);
    var order: seq<nat> := seq(|p.fns|, f requires 0 <= f < |p.fns| => f);
    forall f: nat | f < |ws| ensures f in order {
      assert order[f] == f;
    }
    var s := DeriveSummaries(p, ws, order);
    var cs := AccessContexts(p, ws);
    assert |cs| == |s| by { ContextCount(p, ws, cs); }
    all := Collect(s, cs);
    r := DerivedSynchronizedAccess(all, subject);
    if Justified(all, subject) && Analyzable(p) {
      ProvenIsRaceFree(p, ws, s, cs, all, subject);
    }
  }

  lemma ContextCount(p: Program, ws: Walks, cs: ContextSets)
    requires ExactContexts(p, ws, cs)
    ensures |cs| == |p.fns|
  {
  }
}
