/**
 The frame's local fields, as `evt1AsyncPersistentMap` chooses them, and the proof that for
 well-scoped bodies with unique names they cover every state.
 */
module AsyncPersist {
  import opened Wrappers
  import opened AsyncSyntax
  import opened AsyncDirect
  import opened AsyncGraph
  import opened AsyncMachine
  import opened AsyncNative
  import opened AsyncScope
  import opened AsyncFrame
  import opened AsyncEmit

  // ---------------------------------------------------------------------------------------------
  // Uses, as the graph analysis sees them

  function SourceUses(src: Source): set<string> {
    match src
    case Range(a, b, c, _) => VisibleNames(a) + VisibleNames(b) + VisibleNames(c)
    case Elements(e) => VisibleNames(e)
  }

  /** `addStatement` of `evt1AsyncGraphNameSites`, and `evt1BlockUsesName` for all names at once. */
  function Uses(st: Stmt): set<string> {
    match st
    case Decl(_, e) => VisibleNames(e)
    case Assign(x, e) => {x} + VisibleNames(e)
    case Do(e) => VisibleNames(e)
    case Assert(c) => VisibleNames(c)
    case Return(None) => {}
    case Return(Some(e)) => VisibleNames(e)
    case If(c, t, f) => VisibleNames(c) + UsesAll(t) + UsesAll(f)
    case Match(e, arms) => VisibleNames(e) + UsesArms(arms)
    case While(c, _, b, h, f) => VisibleNames(c) + UsesAll(b) + (if h then UsesAll(f) else {})
    case Foreach(_, src, b) => SourceUses(src) + UsesAll(b)
    case Block(b) => UsesAll(b)
  }

  function UsesAll(b: seq<Stmt>): set<string> {
    if b == [] then {} else Uses(b[0]) + UsesAll(b[1..])
  }

  function UsesArms(arms: seq<Arm>): set<string> {
    if arms == [] then {} else UsesAll(arms[0].body) + UsesArms(arms[1..])
  }

  function StateUses(n: Node): set<string> {
    UsesAll(Statements(n)) +
    match n
    case AwaitSuspend(_, e, _) => VisibleNames(e)
    case AfterAwait(_, st, _) => Uses(st)
    case Branch(_, c, _, _) => VisibleNames(c)
    case MatchDispatch(_, e, _) => VisibleNames(e)
    case LoopHeader(c, _, _, _, _) => VisibleNames(c)
    case ForeachInit(_, src, _) => SourceUses(src)
    case ForeachHeader(_, src, _, _) => SourceUses(src)
    case _ => {}
  }

  /** The node a name is declared at; a later declaration replaces an earlier one. */
  function DeclaredAt(nodes: Nodes, x: string): Option<nat> {
    if nodes == [] then None
    else if x in StateDeclares(nodes[|nodes| - 1]) then Some(|nodes| - 1)
    else DeclaredAt(nodes[..|nodes| - 1], x)
  }

  lemma {:induction false} DeclaredAtFinds(nodes: Nodes, x: string, i: nat)
    requires i < |nodes| && x in StateDeclares(nodes[i])
    ensures DeclaredAt(nodes, x).Some? && DeclaredAt(nodes, x).value < |nodes|
    ensures x in StateDeclares(nodes[DeclaredAt(nodes, x).value])
  {
    if x !in StateDeclares(nodes[|nodes| - 1]) {
      DeclaredAtFinds(nodes[..|nodes| - 1], x, i);
    }
  }

  function AllUses(nodes: Nodes): set<string> {
    if nodes == [] then {} else StateUses(nodes[0]) + AllUses(nodes[1..])
  }

  lemma {:induction false} AllUsesHold(nodes: Nodes, i: nat)
    requires i < |nodes|
    ensures StateUses(nodes[i]) <= AllUses(nodes)
  {
    if i > 0 {
      AllUsesHold(nodes[1..], i - 1);
    }
  }

  /** `evt1AsyncCrossStateNames`. */
  function CrossState(nodes: Nodes): set<string> {
    set x | x in AllUses(nodes) && DeclaredAt(nodes, x).Some? &&
            (exists i :: 0 <= i < |nodes| && i != DeclaredAt(nodes, x).value && x in StateUses(nodes[i]))
  }

  /** The builder's `MatchFields`: bindings of split matches that the arm's block uses. */
  function MatchFields(st: Stmt): set<string> {
    if !Splits(st) then {}
    else
      match st
      case If(_, t, f) => MatchFieldsAll(t) + MatchFieldsAll(f)
      case Match(_, arms) => MatchFieldsArms(arms)
      case While(_, _, b, h, f) => MatchFieldsAll(b) + (if h then MatchFieldsAll(f) else {})
      case Foreach(_, _, b) => MatchFieldsAll(b)
      case _ => {}
  }

  function MatchFieldsAll(b: seq<Stmt>): set<string> {
    if b == [] then {} else MatchFields(b[0]) + MatchFieldsAll(b[1..])
  }

  function MatchFieldsArms(arms: seq<Arm>): set<string> {
    if arms == [] then {}
    else (Elems(arms[0].binds) * UsesAll(arms[0].body)) + MatchFieldsAll(arms[0].body) + MatchFieldsArms(arms[1..])
  }

  /** Items of split iterations. */
  function Items(st: Stmt): set<string> {
    if !Splits(st) then {}
    else
      match st
      case If(_, t, f) => ItemsAll(t) + ItemsAll(f)
      case Match(_, arms) => ItemsArms(arms)
      case While(_, _, b, h, f) => ItemsAll(b) + (if h then ItemsAll(f) else {})
      case Foreach(item, _, b) => {item} + ItemsAll(b)
      case _ => {}
  }

  function ItemsAll(b: seq<Stmt>): set<string> {
    if b == [] then {} else Items(b[0]) + ItemsAll(b[1..])
  }

  function ItemsArms(arms: seq<Arm>): set<string> {
    if arms == [] then {} else ItemsAll(arms[0].body) + ItemsArms(arms[1..])
  }

  /** Names in the sources of split iterations. */
  function Sources(st: Stmt): set<string> {
    if !Splits(st) then {}
    else
      match st
      case If(_, t, f) => SourcesAll(t) + SourcesAll(f)
      case Match(_, arms) => SourcesArms(arms)
      case While(_, _, b, h, f) => SourcesAll(b) + (if h then SourcesAll(f) else {})
      case Foreach(_, src, b) => SourceUses(src) + SourcesAll(b)
      case _ => {}
  }

  function SourcesAll(b: seq<Stmt>): set<string> {
    if b == [] then {} else Sources(b[0]) + SourcesAll(b[1..])
  }

  function SourcesArms(arms: seq<Arm>): set<string> {
    if arms == [] then {} else SourcesAll(arms[0].body) + SourcesArms(arms[1..])
  }

  /** One statement as source-order liveness sees it; statements are numbered in source order. */
  datatype Moment = Moment(declares: set<string>, mentions: set<string>, awaits: bool)

  function MomentOf(st: Stmt): Moment {
    match st
    case If(c, _, _) => Moment({}, Mentions(c), false)
    case Match(e, _) => Moment({}, Mentions(e), false)
    case While(c, _, _, _, _) => Moment({}, Mentions(c), false)
    case Foreach(item, src, _) => Moment({item}, SourceMentions(src), false)
    case Block(_) => Moment({}, {}, false)
    case Decl(x, e) => Moment({x}, Mentions(e), HasAwait(e))
    case Assign(x, e) => Moment({}, {x} + Mentions(e), HasAwait(e))
    case Do(e) => Moment({}, Mentions(e), HasAwait(e))
    case Assert(c) => Moment({}, Mentions(c), false)
    case Return(None) => Moment({}, {}, false)
    case Return(Some(e)) => Moment({}, Mentions(e), HasAwait(e))
  }

  function Timeline(st: Stmt): seq<Moment> {
    [MomentOf(st)] +
    match st
    case If(_, t, f) => TimelineAll(t) + TimelineAll(f)
    case Match(_, arms) => TimelineArms(arms)
    case While(_, _, b, h, f) => TimelineAll(b) + (if h then TimelineAll(f) else [])
    case Foreach(_, _, b) => TimelineAll(b)
    case Block(b) => TimelineAll(b)
    case _ => []
  }

  function TimelineAll(b: seq<Stmt>): seq<Moment> {
    if b == [] then [] else Timeline(b[0]) + TimelineAll(b[1..])
  }

  function TimelineArms(arms: seq<Arm>): seq<Moment> {
    if arms == [] then [] else TimelineAll(arms[0].body) + TimelineArms(arms[1..])
  }

  function MentionedIn(ms: seq<Moment>): set<string> {
    if ms == [] then {} else ms[0].mentions + MentionedIn(ms[1..])
  }

  /** `liveAcross`: declared no later than an await and mentioned by a later statement. */
  function LiveAcross(declared: set<string>, ms: seq<Moment>): set<string>
    decreases ms
  {
    if ms == [] then {}
    else
      var known := declared + ms[0].declares;
      (if ms[0].awaits then known * MentionedIn(ms[1..]) else {}) + LiveAcross(known, ms[1..])
  }

  /** Top-level declarations initialised by an await. */
  function AwaitedDeclarations(b: seq<Stmt>): set<string> {
    if b == [] then {}
    else (if b[0].Decl? && HasAwait(b[0].e) then {b[0].x} else {}) + AwaitedDeclarations(b[1..])
  }

  /** What every covering choice of frame fields has to include. */
  function Required(fn: Fn, nodes: Nodes): set<string> {
    Elems(fn.params) + CrossState(nodes) + MatchFieldsAll(fn.body) + ItemsAll(fn.body) +
    (SourcesAll(fn.body) * (DeclaredAll(fn.body) + BoundAll(fn.body)))
  }

  /** `evt1AsyncPersistentMap` over the emitted states. */
  function Persistent(fn: Fn, nodes: Nodes): set<string> {
    Required(fn, nodes) + LiveAcross(Elems(fn.params), TimelineAll(fn.body)) + AwaitedDeclarations(fn.body)
  }

  // ---------------------------------------------------------------------------------------------
  // Well-scoped bodies

  predicate ScopedSource(src: Source, scope: set<string>) {
    SourceMentions(src) <= scope
  }

  /** Every name is used where a declaration or binding of it is in scope. */
  predicate Scoped(st: Stmt, scope: set<string>) {
    match st
    case Decl(_, e) => Mentions(e) <= scope
    case Assign(x, e) => x in scope && Mentions(e) <= scope
    case Do(e) => Mentions(e) <= scope
    case Assert(c) => Mentions(c) <= scope
    case Return(None) => true
    case Return(Some(e)) => Mentions(e) <= scope
    case If(c, t, f) => Mentions(c) <= scope && ScopedAll(t, scope) && ScopedAll(f, scope)
    case Match(e, arms) => Mentions(e) <= scope && ScopedArms(arms, scope)
    case While(c, _, b, h, f) => Mentions(c) <= scope && ScopedAll(b, scope) && (h ==> ScopedAll(f, scope))
    case Foreach(item, src, b) => ScopedSource(src, scope) && ScopedAll(b, scope + {item})
    case Block(b) => ScopedAll(b, scope)
  }

  predicate ScopedAll(b: seq<Stmt>, scope: set<string>) {
    b == [] || (Scoped(b[0], scope) && ScopedAll(b[1..], scope + Defines(b[0])))
  }

  predicate ScopedArms(arms: seq<Arm>, scope: set<string>) {
    arms == [] || (ScopedAll(arms[0].body, scope + Elems(arms[0].binds)) && ScopedArms(arms[1..], scope))
  }

  function Introduced(b: seq<Stmt>): set<string> {
    DeclaredAll(b) + BoundAll(b)
  }

  function IntroducedArms(arms: seq<Arm>): set<string> {
    DeclaredArms(arms) + BoundArms(arms)
  }

  /** No name is introduced twice. */
  predicate Unique(st: Stmt) {
    match st
    case If(_, t, f) => UniqueAll(t) && UniqueAll(f) && Introduced(t) !! Introduced(f)
    case Match(_, arms) => UniqueArms(arms)
    case While(_, _, b, h, f) => UniqueAll(b) && (h ==> UniqueAll(f) && Introduced(b) !! Introduced(f))
    case Foreach(item, _, b) => UniqueAll(b) && item !in Introduced(b)
    case Block(b) => UniqueAll(b)
    case _ => true
  }

  predicate UniqueAll(b: seq<Stmt>) {
    b == [] || (Unique(b[0]) && UniqueAll(b[1..]) && (Declared(b[0]) + Bound(b[0])) !! Introduced(b[1..]))
  }

  predicate UniqueArms(arms: seq<Arm>) {
    arms == [] ||
    (UniqueAll(arms[0].body) && Elems(arms[0].binds) !! Introduced(arms[0].body) && UniqueArms(arms[1..]) &&
     (Elems(arms[0].binds) + Introduced(arms[0].body)) !! IntroducedArms(arms[1..]))
  }

  /** Expressions whose names the graph analysis sees: no name hides in an `if` or constructor expression. */
  predicate Seen(e: Expr) {
    match e
    case Lit(_) => true
    case Name(_) => true
    case Unary(_, x) => Seen(x)
    case Binary(_, l, r) => Seen(l) && Seen(r)
    case Index(b, i) => Seen(b) && Seen(i)
    case Construct(_, _) => Mentions(e) == {}
    case IfExpr(_, _, _) => Mentions(e) == {}
    case Await(_, _, args) => SeenArgs(args)
  }

  predicate SeenArgs(es: seq<Expr>) {
    es == [] || (Seen(es[0]) && SeenArgs(es[1..]))
  }

  predicate SeenSource(src: Source) {
    match src
    case Range(a, b, c, _) => Seen(a) && Seen(b) && Seen(c)
    case Elements(e) => Seen(e)
  }

  predicate SeenStmt(st: Stmt) {
    match st
    case Decl(_, e) => Seen(e)
    case Assign(_, e) => Seen(e)
    case Do(e) => Seen(e)
    case Assert(c) => Seen(c)
    case Return(None) => true
    case Return(Some(e)) => Seen(e)
    case If(c, t, f) => Seen(c) && SeenAll(t) && SeenAll(f)
    case Match(e, arms) => Seen(e) && SeenArms(arms)
    case While(c, _, b, h, f) => Seen(c) && SeenAll(b) && (h ==> SeenAll(f))
    case Foreach(_, src, b) => SeenSource(src) && SeenAll(b)
    case Block(b) => SeenAll(b)
  }

  predicate SeenAll(b: seq<Stmt>) {
    b == [] || (SeenStmt(b[0]) && SeenAll(b[1..]))
  }

  predicate SeenArms(arms: seq<Arm>) {
    arms == [] || (SeenAll(arms[0].body) && SeenArms(arms[1..]))
  }

  // ---------------------------------------------------------------------------------------------
  // Names the graph analysis does not see

  /** The names mentioned inside the `if` and constructor expressions of an expression. */
  function HiddenNames(e: Expr): set<string> {
    match e
    case Lit(_) => {}
    case Name(_) => {}
    case Unary(_, x) => HiddenNames(x)
    case Binary(_, l, r) => HiddenNames(l) + HiddenNames(r)
    case Index(b, i) => HiddenNames(b) + HiddenNames(i)
    case Construct(_, _) => Mentions(e)
    case IfExpr(_, _, _) => Mentions(e)
    case Await(_, _, args) => AllHidden(args)
  }

  function AllHidden(es: seq<Expr>): set<string> {
    if es == [] then {} else HiddenNames(es[0]) + AllHidden(es[1..])
  }

  function SourceHidden(src: Source): set<string> {
    match src
    case Range(a, b, c, _) => HiddenNames(a) + HiddenNames(b) + HiddenNames(c)
    case Elements(e) => HiddenNames(e)
  }

  function Hidden(st: Stmt): set<string> {
    match st
    case Decl(_, e) => HiddenNames(e)
    case Assign(_, e) => HiddenNames(e)
    case Do(e) => HiddenNames(e)
    case Assert(c) => HiddenNames(c)
    case Return(None) => {}
    case Return(Some(e)) => HiddenNames(e)
    case If(c, t, f) => HiddenNames(c) + HiddenAll(t) + HiddenAll(f)
    case Match(e, arms) => HiddenNames(e) + HiddenArms(arms)
    case While(c, _, b, h, f) => HiddenNames(c) + HiddenAll(b) + (if h then HiddenAll(f) else {})
    case Foreach(_, src, b) => SourceHidden(src) + HiddenAll(b)
    case Block(b) => HiddenAll(b)
  }

  function HiddenAll(b: seq<Stmt>): set<string> {
    if b == [] then {} else Hidden(b[0]) + HiddenAll(b[1..])
  }

  function HiddenArms(arms: seq<Arm>): set<string> {
    if arms == [] then {} else HiddenAll(arms[0].body) + HiddenArms(arms[1..])
  }

  // ---------------------------------------------------------------------------------------------
  // What the conditions give

  lemma {:induction false} SeenNames(e: Expr)
    requires Seen(e)
    ensures VisibleNames(e) == Mentions(e)
  {
    match e
    case Unary(_, x) => SeenNames(x);
    case Binary(_, l, r) => SeenNames(l); SeenNames(r);
    case Index(b, i) => SeenNames(b); SeenNames(i);
    case Await(_, _, args) => SeenArgsNames(args);
    case _ =>
  }

  lemma {:induction false} SeenArgsNames(es: seq<Expr>)
    requires SeenArgs(es)
    ensures AllVisible(es) == AllMentions(es)
  {
    if es != [] {
      SeenNames(es[0]);
      SeenArgsNames(es[1..]);
    }
  }

  /** What is mentioned is seen or hidden. */
  lemma {:induction false} SeenOrHidden(e: Expr)
    ensures Mentions(e) == VisibleNames(e) + HiddenNames(e)
  {
    match e
    case Unary(_, x) => SeenOrHidden(x);
    case Binary(_, l, r) => SeenOrHidden(l); SeenOrHidden(r);
    case Index(b, i) => SeenOrHidden(b); SeenOrHidden(i);
    case Await(_, _, args) => ArgsSeenOrHidden(args);
    case _ =>
  }

  lemma {:induction false} ArgsSeenOrHidden(es: seq<Expr>)
    ensures AllMentions(es) == AllVisible(es) + AllHidden(es)
  {
    if es != [] {
      SeenOrHidden(es[0]);
      ArgsSeenOrHidden(es[1..]);
    }
  }

  lemma SourceSeenOrHidden(src: Source)
    ensures SourceMentions(src) == SourceUses(src) + SourceHidden(src)
  {
    match src
    case Range(a, b, c, _) => SeenOrHidden(a); SeenOrHidden(b); SeenOrHidden(c);
    case Elements(e) => SeenOrHidden(e);
  }

  lemma {:induction false} ReadsAreUses(st: Stmt)
    ensures Reads(st) <= Uses(st) + Hidden(st)
  {
    if SimpleExpr(st).Some? {
      SeenOrHidden(SimpleExpr(st).value);
    }
    match st
    case Assert(c) => SeenOrHidden(c);
    case If(c, t, f) => SeenOrHidden(c); ReadsAreUsesAll(t); ReadsAreUsesAll(f);
    case Match(e, arms) => SeenOrHidden(e); ReadsAreUsesArms(arms);
    case While(c, _, b, h, f) =>
      SeenOrHidden(c);
      ReadsAreUsesAll(b);
      if h {
        ReadsAreUsesAll(f);
      }
    case Foreach(_, src, b) => SourceSeenOrHidden(src); ReadsAreUsesAll(b);
    case Block(b) => ReadsAreUsesAll(b);
    case _ =>
  }

  lemma {:induction false} ReadsAreUsesAll(b: seq<Stmt>)
    ensures ReadsAll(b) <= UsesAll(b) + HiddenAll(b)
  {
    if b != [] {
      ReadsAreUses(b[0]);
      ReadsAreUsesAll(b[1..]);
    }
  }

  lemma {:induction false} ReadsAreUsesArms(arms: seq<Arm>)
    ensures ReadsArms(arms) <= UsesArms(arms) + HiddenArms(arms)
  {
    if arms != [] {
      ReadsAreUsesAll(arms[0].body);
      ReadsAreUsesArms(arms[1..]);
    }
  }

  /** Where the analysis sees every name, none is hidden. */
  lemma {:induction false} SeenHidesNothing(e: Expr)
    requires Seen(e)
    ensures HiddenNames(e) == {}
  {
    match e
    case Unary(_, x) => SeenHidesNothing(x);
    case Binary(_, l, r) => SeenHidesNothing(l); SeenHidesNothing(r);
    case Index(b, i) => SeenHidesNothing(b); SeenHidesNothing(i);
    case Await(_, _, args) => SeenArgsHideNothing(args);
    case _ =>
  }

  lemma {:induction false} SeenArgsHideNothing(es: seq<Expr>)
    requires SeenArgs(es)
    ensures AllHidden(es) == {}
  {
    if es != [] {
      SeenHidesNothing(es[0]);
      SeenArgsHideNothing(es[1..]);
    }
  }

  lemma {:induction false} SeenStmtHidesNothing(st: Stmt)
    requires SeenStmt(st)
    ensures Hidden(st) == {}
  {
    if SimpleExpr(st).Some? {
      SeenHidesNothing(SimpleExpr(st).value);
    }
    match st
    case Assert(c) => SeenHidesNothing(c);
    case If(c, t, f) => SeenHidesNothing(c); SeenAllHidesNothing(t); SeenAllHidesNothing(f);
    case Match(e, arms) => SeenHidesNothing(e); SeenArmsHideNothing(arms);
    case While(c, _, b, h, f) =>
      SeenHidesNothing(c);
      SeenAllHidesNothing(b);
      if h {
        SeenAllHidesNothing(f);
      }
    case Foreach(_, src, b) => SeenSourceHidesNothing(src); SeenAllHidesNothing(b);
    case Block(b) => SeenAllHidesNothing(b);
    case _ =>
  }

  lemma SeenSourceHidesNothing(src: Source)
    requires SeenSource(src)
    ensures SourceHidden(src) == {}
  {
    match src
    case Range(a, b, c, _) => SeenHidesNothing(a); SeenHidesNothing(b); SeenHidesNothing(c);
    case Elements(e) => SeenHidesNothing(e);
  }

  lemma {:induction false} SeenAllHidesNothing(b: seq<Stmt>)
    requires SeenAll(b)
    ensures HiddenAll(b) == {}
  {
    if b != [] {
      SeenStmtHidesNothing(b[0]);
      SeenAllHidesNothing(b[1..]);
    }
  }

  lemma {:induction false} SeenArmsHideNothing(arms: seq<Arm>)
    requires SeenArms(arms)
    ensures HiddenArms(arms) == {}
  {
    if arms != [] {
      SeenAllHidesNothing(arms[0].body);
      SeenArmsHideNothing(arms[1..]);
    }
  }

  lemma {:induction false} ScopedReads(st: Stmt, scope: set<string>)
    requires Scoped(st, scope)
    ensures Reads(st) <= scope
  {
    match st
    case If(_, t, f) => ScopedReadsAll(t, scope); ScopedReadsAll(f, scope);
    case Match(_, arms) => ScopedReadsArms(arms, scope);
    case While(_, _, b, h, f) =>
      ScopedReadsAll(b, scope);
      if h {
        ScopedReadsAll(f, scope);
      }
    case Foreach(item, src, b) => ScopedReadsAll(b, scope + {item});
    case Block(b) => ScopedReadsAll(b, scope);
    case _ =>
  }

  lemma {:induction false} ScopedReadsAll(b: seq<Stmt>, scope: set<string>)
    requires ScopedAll(b, scope)
    ensures ReadsAll(b) <= scope
  {
    if b != [] {
      ScopedReads(b[0], scope);
      ScopedReadsAll(b[1..], scope + Defines(b[0]));
    }
  }

  lemma {:induction false} ScopedReadsArms(arms: seq<Arm>, scope: set<string>)
    requires ScopedArms(arms, scope)
    ensures ReadsArms(arms) <= scope
  {
    if arms != [] {
      ScopedReadsAll(arms[0].body, scope + Elems(arms[0].binds));
      ScopedReadsArms(arms[1..], scope);
    }
  }

  /** With unique names, nothing is both declared and bound. */
  lemma {:induction false} DeclaredNotBound(st: Stmt)
    requires Unique(st)
    ensures Declared(st) !! Bound(st)
  {
    match st
    case If(_, t, f) => DeclaredNotBoundAll(t); DeclaredNotBoundAll(f);
    case Match(_, arms) => DeclaredNotBoundArms(arms);
    case While(_, _, b, h, f) =>
      DeclaredNotBoundAll(b);
      if h {
        DeclaredNotBoundAll(f);
      }
    case Foreach(_, _, b) => DeclaredNotBoundAll(b);
    case Block(b) => DeclaredNotBoundAll(b);
    case _ =>
  }

  lemma {:induction false} DeclaredNotBoundAll(b: seq<Stmt>)
    requires UniqueAll(b)
    ensures DeclaredAll(b) !! BoundAll(b)
  {
    if b != [] {
      DeclaredNotBound(b[0]);
      DeclaredNotBoundAll(b[1..]);
    }
  }

  lemma {:induction false} DeclaredNotBoundArms(arms: seq<Arm>)
    requires UniqueArms(arms)
    ensures DeclaredArms(arms) !! BoundArms(arms)
  {
    if arms != [] {
      DeclaredNotBoundAll(arms[0].body);
      DeclaredNotBoundArms(arms[1..]);
    }
  }

  lemma {:induction false} DefinesAreDeclared(b: seq<Stmt>)
    ensures DefinesAll(b) <= DeclaredAll(b)
  {
    if b != [] {
      DefinesAreDeclared(b[1..]);
    }
  }
}
