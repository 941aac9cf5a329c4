/** When the frame's fields cover every emitted state of a well-scoped body. */
module AsyncCoverage {
  import opened Wrappers
  import opened AsyncSyntax
  import opened AsyncDirect
  import opened AsyncGraph
  import opened AsyncMachine
  import opened AsyncNative
  import opened AsyncScope
  import opened AsyncFrame
  import opened AsyncEmit
  import opened AsyncPersist
  import opened AsyncLiveness

  /** Names a list makes available to the states compiled from it. */
  function Offers(st: Stmt): set<string> {
    Defines(st) + (if !Splits(st) then {}
                   else
                     match st
                     case If(_, t, f) => OffersAll(t) + OffersAll(f)
                     case Match(_, arms) => OffersArms(arms)
                     case While(_, _, b, h, f) => OffersAll(b) + (if h then OffersAll(f) else {})
                     case Foreach(item, _, b) => {item} + OffersAll(b)
                     case _ => {})
  }

  function OffersAll(b: seq<Stmt>): set<string> {
    if b == [] then {} else Offers(b[0]) + OffersAll(b[1..])
  }

  function OffersArms(arms: seq<Arm>): set<string> {
    if arms == [] then {}
    else Elems(arms[0].binds) + OffersAll(arms[0].body) + OffersArms(arms[1..])
  }

  /** Names that split matches and iterations bind for the states of their bodies. */
  function Handed(st: Stmt): set<string> {
    if !Splits(st) then {}
    else
      match st
      case If(_, t, f) => HandedAll(t) + HandedAll(f)
      case Match(_, arms) => HandedArms(arms)
      case While(_, _, b, h, f) => HandedAll(b) + (if h then HandedAll(f) else {})
      case Foreach(item, _, b) => {item} + HandedAll(b)
      case _ => {}
  }

  function HandedAll(b: seq<Stmt>): set<string> {
    if b == [] then {} else Handed(b[0]) + HandedAll(b[1..])
  }

  function HandedArms(arms: seq<Arm>): set<string> {
    if arms == [] then {} else Elems(arms[0].binds) + HandedAll(arms[0].body) + HandedArms(arms[1..])
  }

  /** What is offered is declared somewhere, or handed over. */
  lemma {:induction false} OffersAreNamed(st: Stmt)
    ensures Offers(st) <= Declared(st) + Handed(st)
  {
    match st
    case If(_, t, f) => OffersAllAreNamed(t); OffersAllAreNamed(f);
    case Match(_, arms) => OffersArmsAreNamed(arms);
    case While(_, _, b, h, f) => OffersAllAreNamed(b); OffersAllAreNamed(f);
    case Foreach(_, _, b) => OffersAllAreNamed(b);
    case _ =>
  }

  lemma {:induction false} OffersAllAreNamed(b: seq<Stmt>)
    ensures OffersAll(b) <= DeclaredAll(b) + HandedAll(b)
  {
    if b != [] {
      OffersAreNamed(b[0]);
      OffersAllAreNamed(b[1..]);
    }
  }

  lemma {:induction false} OffersArmsAreNamed(arms: seq<Arm>)
    ensures OffersArms(arms) <= DeclaredArms(arms) + HandedArms(arms)
  {
    if arms != [] {
      OffersAllAreNamed(arms[0].body);
      OffersArmsAreNamed(arms[1..]);
    }
  }

  function IterationSource(n: Node): set<string> {
    match n
    case ForeachInit(_, src, _) => SourceMentions(src)
    case ForeachHeader(_, src, _, _) => SourceMentions(src)
    case _ => {}
  }

  function IterationUses(n: Node): set<string> {
    match n
    case ForeachInit(_, src, _) => SourceUses(src)
    case ForeachHeader(_, src, _, _) => SourceUses(src)
    case _ => {}
  }

  /** Names a state binds for others. */
  function StateHands(n: Node): set<string> {
    if n.MatchDispatch? then CaseBinds(n.cases) else if n.ForeachHeader? then {n.item} else {}
  }

  /** The sets a list of statements contributes; the `hidden` names stand where the analysis does not look. */
  datatype Sets = Sets(hidden: set<string>, declared: set<string>, bound: set<string>, uses: set<string>,
                       sources: set<string>, offers: set<string>, handed: set<string>)

  function SetsOf(b: seq<Stmt>): Sets {
    Sets(HiddenAll(b), DeclaredAll(b), BoundAll(b), UsesAll(b), SourcesAll(b), OffersAll(b), HandedAll(b))
  }

  function SetsOfStmt(st: Stmt): Sets {
    Sets(Hidden(st), Declared(st), Bound(st), Uses(st), Sources(st), Offers(st), Handed(st))
  }

  ghost predicate Within(a: Sets, b: Sets) {
    && a.hidden <= b.hidden && a.declared <= b.declared && a.bound <= b.bound && a.uses <= b.uses
    && a.sources <= b.sources && a.offers <= b.offers && a.handed <= b.handed
  }

  /** A state compiled in scope `scope` from statements with sets `sets`. */
  ghost predicate StateOk(n: Node, scope: set<string>, sets: Sets) {
    && StateReads(n) <= scope + sets.offers && StateUses(n) <= sets.uses + {AWAITED}
    && StateReads(n) <= StateUses(n) + sets.hidden && IterationSource(n) <= IterationUses(n) + sets.hidden
    && (StateReads(n) - IterationSource(n)) !! StateDeclares(n)
    && StateDeclares(n) <= sets.declared && StateBinds(n) <= sets.bound
    && IterationUses(n) <= sets.sources && StateHands(n) <= sets.handed
  }

  ghost predicate StatesOk(g: Nodes, lo: nat, scope: set<string>, sets: Sets) {
    forall i :: lo <= i < |g| ==> StateOk(g[i], scope, sets)
  }

  lemma StatesWider(g: Nodes, lo: nat, scope: set<string>, sets: Sets, scope': set<string>, sets': Sets)
    requires StatesOk(g, lo, scope, sets) && Within(sets, sets') && scope <= scope' + sets'.offers
    ensures StatesOk(g, lo, scope', sets')
  {
  }

  // ---------------------------------------------------------------------------------------------
  // The statements collected for a node

  /** Statements run first in a node: scoped, visible, and introducing nothing already in scope. */
  ghost predicate Prefix(ordinary: seq<Stmt>, scope: set<string>, sets: Sets) {
    && ScopedAll(ordinary, scope) && Introduced(ordinary) !! scope
    && Within(SetsOf(ordinary), sets)
  }

  lemma {:induction false} AppendDeclaredAll(b: seq<Stmt>, st: Stmt)
    ensures DeclaredAll(b + [st]) == DeclaredAll(b) + Declared(st)
  {
    if b == [] {
      assert b + [st] == [st] && [st][1..] == [];
    } else {
      AppendDeclaredAll(b[1..], st);
      assert (b + [st])[1..] == b[1..] + [st];
    }
  }

  lemma {:induction false} AppendBoundAll(b: seq<Stmt>, st: Stmt)
    ensures BoundAll(b + [st]) == BoundAll(b) + Bound(st)
  {
    if b == [] {
      assert b + [st] == [st] && [st][1..] == [];
    } else {
      AppendBoundAll(b[1..], st);
      assert (b + [st])[1..] == b[1..] + [st];
    }
  }

  lemma {:induction false} AppendUsesAll(b: seq<Stmt>, st: Stmt)
    ensures UsesAll(b + [st]) == UsesAll(b) + Uses(st)
  {
    if b == [] {
      assert b + [st] == [st] && [st][1..] == [];
    } else {
      AppendUsesAll(b[1..], st);
      assert (b + [st])[1..] == b[1..] + [st];
    }
  }

  lemma {:induction false} AppendSourcesAll(b: seq<Stmt>, st: Stmt)
    ensures SourcesAll(b + [st]) == SourcesAll(b) + Sources(st)
  {
    if b == [] {
      assert b + [st] == [st] && [st][1..] == [];
    } else {
      AppendSourcesAll(b[1..], st);
      assert (b + [st])[1..] == b[1..] + [st];
    }
  }

  lemma {:induction false} AppendOffersAll(b: seq<Stmt>, st: Stmt)
    ensures OffersAll(b + [st]) == OffersAll(b) + Offers(st)
  {
    if b == [] {
      assert b + [st] == [st] && [st][1..] == [];
    } else {
      AppendOffersAll(b[1..], st);
      assert (b + [st])[1..] == b[1..] + [st];
    }
  }

  lemma {:induction false} AppendHandedAll(b: seq<Stmt>, st: Stmt)
    ensures HandedAll(b + [st]) == HandedAll(b) + Handed(st)
  {
    if b == [] {
      assert b + [st] == [st] && [st][1..] == [];
    } else {
      AppendHandedAll(b[1..], st);
      assert (b + [st])[1..] == b[1..] + [st];
    }
  }

  lemma {:induction false} AppendDefinesAll(b: seq<Stmt>, st: Stmt)
    ensures DefinesAll(b + [st]) == DefinesAll(b) + Defines(st)
  {
    if b == [] {
      assert b + [st] == [st] && [st][1..] == [];
    } else {
      AppendDefinesAll(b[1..], st);
      assert (b + [st])[1..] == b[1..] + [st];
    }
  }

  lemma {:induction false} AppendHiddenAll(b: seq<Stmt>, st: Stmt)
    ensures HiddenAll(b + [st]) == HiddenAll(b) + Hidden(st)
  {
    if b == [] {
      assert b + [st] == [st] && [st][1..] == [];
    } else {
      AppendHiddenAll(b[1..], st);
      assert (b + [st])[1..] == b[1..] + [st];
    }
  }

  lemma AppendSets(b: seq<Stmt>, st: Stmt)
    ensures SetsOf(b + [st]) ==
            Sets(HiddenAll(b) + Hidden(st), DeclaredAll(b) + Declared(st), BoundAll(b) + Bound(st),
                 UsesAll(b) + Uses(st), SourcesAll(b) + Sources(st), OffersAll(b) + Offers(st),
                 HandedAll(b) + Handed(st))
    ensures DefinesAll(b + [st]) == DefinesAll(b) + Defines(st)
  {
    AppendHiddenAll(b, st);
    AppendDeclaredAll(b, st);
    AppendBoundAll(b, st);
    AppendUsesAll(b, st);
    AppendSourcesAll(b, st);
    AppendOffersAll(b, st);
    AppendHandedAll(b, st);
    AppendDefinesAll(b, st);
  }

  lemma {:induction false} AppendScoped(b: seq<Stmt>, st: Stmt, scope: set<string>)
    requires ScopedAll(b, scope) && Scoped(st, scope + DefinesAll(b))
    ensures ScopedAll(b + [st], scope)
  {
    if b == [] {
      assert b + [st] == [st] && [st][1..] == [];
      assert scope + DefinesAll(b) == scope;
    } else {
      assert (b + [st])[1..] == b[1..] + [st];
      assert scope + DefinesAll(b) == (scope + Defines(b[0])) + DefinesAll(b[1..]);
      AppendScoped(b[1..], st, scope + Defines(b[0]));
    }
  }

  lemma PrefixGrows(ordinary: seq<Stmt>, st: Stmt, scope: set<string>, sets: Sets)
    requires Prefix(ordinary, scope, sets) && Scoped(st, scope + DefinesAll(ordinary))
    requires (Declared(st) + Bound(st)) !! scope && Within(SetsOfStmt(st), sets)
    ensures Prefix(ordinary + [st], scope, sets)
  {
    AppendSets(ordinary, st);
    AppendScoped(ordinary, st, scope);
  }

  lemma {:induction false} DefinesAreOffered(b: seq<Stmt>)
    ensures DefinesAll(b) <= OffersAll(b)
  {
    if b != [] {
      DefinesAreOffered(b[1..]);
    }
  }

  /** What a prefix contributes to its node. */
  lemma PrefixFacts(ordinary: seq<Stmt>, scope: set<string>, sets: Sets)
    requires Prefix(ordinary, scope, sets)
    ensures ReadsAll(ordinary) <= scope && UsesAll(ordinary) <= sets.uses
    ensures ReadsAll(ordinary) <= UsesAll(ordinary) + sets.hidden
    ensures scope !! DeclaredAll(ordinary) && DeclaredAll(ordinary) <= sets.declared && BoundAll(ordinary) <= sets.bound
    ensures DefinesAll(ordinary) <= sets.offers && DefinesAll(ordinary) <= DeclaredAll(ordinary)
  {
    ScopedReadsAll(ordinary, scope);
    ReadsAreUsesAll(ordinary);
    DefinesAreOffered(ordinary);
    DefinesAreDeclared(ordinary);
  }

  /** The statement with nodes of its own that follows a prefix. */
  ghost predicate Follows(ordinary: seq<Stmt>, st: Stmt, scope: set<string>, sets: Sets) {
    && Prefix(ordinary, scope, sets) && Scoped(st, scope + DefinesAll(ordinary))
      && Unique(st)
    && (Declared(st) + Bound(st)) !! (scope + Introduced(ordinary)) && Within(SetsOfStmt(st), sets)
  }

  // ---------------------------------------------------------------------------------------------
  // Every compiled state is fine

  lemma {:induction false} RegionBlock(b: seq<Stmt>, next: nat, nodes: Nodes, scope: set<string>)
    requires ScopedAll(b, scope) && UniqueAll(b) && Introduced(b) !! scope
    ensures StatesOk(Compile(b, next, nodes).nodes, |nodes|, scope, SetsOf(b))
    decreases b, 2
  {
    hide CompileFrom;
    if b != [] {
      assert scope + DefinesAll([]) == scope;
      RegionFrom([], b, next, nodes, scope, SetsOf(b));
    }
  }

  /** The statements that follow a prefix. */
  ghost predicate Rest(ordinary: seq<Stmt>, b: seq<Stmt>, scope: set<string>, sets: Sets) {
    && Prefix(ordinary, scope, sets) && Within(SetsOf(b), sets)
    && ScopedAll(b, scope + DefinesAll(ordinary)) && UniqueAll(b)
    && Introduced(b) !! (scope + Introduced(ordinary))
  }

  /** The first statement of the rest, and what follows it. */
  lemma RestParts(ordinary: seq<Stmt>, b: seq<Stmt>, scope: set<string>, sets: Sets)
    requires Rest(ordinary, b, scope, sets) && b != []
    ensures Follows(ordinary, b[0], scope, sets)
    ensures var inner := scope + DefinesAll(ordinary) + Defines(b[0]);
            && ScopedAll(b[1..], inner) && UniqueAll(b[1..])
            && Within(SetsOf(b[1..]), sets) && Defines(b[0]) <= sets.offers
    ensures Introduced(b[1..]) !! (scope + Introduced(ordinary) + Declared(b[0]) + Bound(b[0]))
  {
    hide Prefix, DefinesAll;
    assert Defines(b[0]) <= Offers(b[0]) <= OffersAll(b);
    assert UniqueAll(b[1..]) && Unique(b[0]) && (Declared(b[0]) + Bound(b[0])) !! Introduced(b[1..]);
  }

  lemma RestGrows(ordinary: seq<Stmt>, b: seq<Stmt>, scope: set<string>, sets: Sets)
    requires Rest(ordinary, b, scope, sets) && b != []
    ensures Rest(ordinary + [b[0]], b[1..], scope, sets)
  {
    RestParts(ordinary, b, scope, sets);
    hide *;
    AppendDefinesAll(ordinary, b[0]);
    PrefixAppends(ordinary, b[0], scope, sets);
    assert scope + DefinesAll(ordinary + [b[0]]) == scope + DefinesAll(ordinary) + Defines(b[0]);
    RestMade(ordinary + [b[0]], b[1..], scope, sets);
  }

  lemma PrefixAppends(ordinary: seq<Stmt>, st: Stmt, scope: set<string>, sets: Sets)
    requires Follows(ordinary, st, scope, sets)
    ensures Prefix(ordinary + [st], scope, sets)
    ensures Introduced(ordinary + [st]) == Introduced(ordinary) + Declared(st) + Bound(st)
  {
    PrefixGrows(ordinary, st, scope, sets);
    AppendSets(ordinary, st);
  }

  lemma RestMade(ordinary: seq<Stmt>, b: seq<Stmt>, scope: set<string>, sets: Sets)
    requires Prefix(ordinary, scope, sets) && Within(SetsOf(b), sets)
    requires ScopedAll(b, scope + DefinesAll(ordinary)) && UniqueAll(b)
    requires Introduced(b) !! (scope + Introduced(ordinary))
    ensures Rest(ordinary, b, scope, sets)
  {
  }

  lemma RestSplits(ordinary: seq<Stmt>, b: seq<Stmt>, scope: set<string>, sets: Sets)
    requires Rest(ordinary, b, scope, sets) && b != []
    ensures Follows(ordinary, b[0], scope, sets)
    ensures var inner := scope + DefinesAll(ordinary) + Defines(b[0]);
            && ScopedAll(b[1..], inner) && UniqueAll(b[1..]) && Introduced(b[1..]) !! inner
            && Within(SetsOf(b[1..]), sets)
              && inner <= scope + sets.offers
  {
    RestParts(ordinary, b, scope, sets);
    DefinesAreDeclared(ordinary);
    PrefixFacts(ordinary, scope, sets);
    assert Defines(b[0]) <= Declared(b[0]);
  }

  lemma {:induction false} RegionFrom(ordinary: seq<Stmt>, b: seq<Stmt>, next: nat, nodes: Nodes,
                                      scope: set<string>, sets: Sets)
    requires Rest(ordinary, b, scope, sets)
    ensures StatesOk(CompileFrom(ordinary, b, next, nodes).nodes, |nodes|, scope, sets)
    decreases b, 1
  {
    hide Compile, CompileSplit, StateOk, Splits, Follows, ScopedAll, UniqueAll, Prefix;
    if b == [] {
      OrdinaryStateOk(ordinary, next, scope, sets);
    } else if !Splits(b[0]) {
      RestGrows(ordinary, b, scope, sets);
      RegionFrom(ordinary + [b[0]], b[1..], next, nodes, scope, sets);
    } else {
      RestSplits(ordinary, b, scope, sets);
      var inner := scope + DefinesAll(ordinary) + Defines(b[0]);
      RegionBlock(b[1..], next, nodes, inner);
      var after := Compile(b[1..], next, nodes);
      StatesWider(after.nodes, |nodes|, inner, SetsOf(b[1..]), scope, sets);
      RegionSplit(ordinary, b[0], after.entry, after.nodes, scope, sets);
    }
  }

  lemma OrdinaryStateOk(ordinary: seq<Stmt>, next: nat, scope: set<string>, sets: Sets)
    requires Prefix(ordinary, scope, sets)
    ensures StateOk(BasicBlock(ordinary, next), scope, sets) && StateOk(LoopInit(ordinary, next), scope, sets)
  {
    PrefixFacts(ordinary, scope, sets);
  }

  /** A state that runs the prefix and then evaluates `e`. */
  lemma TestStateOk(ordinary: seq<Stmt>, e: Expr, n: Node, scope: set<string>, sets: Sets)
    requires Test(ordinary, e, scope, sets) && Statements(n) == ordinary
    requires || (n.Branch? && n.cond == e)
             || (n.AwaitSuspend? && n.await == e)
             || (n.MatchDispatch? && n.subject == e && CaseBinds(n.cases) <= sets.bound
                 && CaseBinds(n.cases) <= sets.handed)
    ensures StateOk(n, scope, sets)
  {
    PrefixFacts(ordinary, scope, sets);
    SeenOrHidden(e);
    assert StateReads(n) == ReadsAll(ordinary) + (Mentions(e) - DefinesAll(ordinary));
    assert StateDeclares(n) == DeclaredAll(ordinary) && IterationSource(n) == {};
    assert StateUses(n) == UsesAll(ordinary) + VisibleNames(e);
  }

  lemma PlainStatesOk(scope: set<string>, sets: Sets)
    ensures forall m, next :: StateOk(Join(m, next), scope, sets)
    ensures forall next :: StateOk(LoopBackedge(next), scope, sets) && StateOk(ForeachContinue(next), scope, sets)
  {
  }

  lemma {:induction false} RegionSplit(ordinary: seq<Stmt>, st: Stmt, after: nat, nodes: Nodes,
                                       scope: set<string>, sets: Sets)
    requires Splits(st) && Follows(ordinary, st, scope, sets)
    ensures StatesOk(CompileSplit(ordinary, st, after, nodes).nodes, |nodes|, scope, sets)
    decreases st, 4
  {
    hide CompileSplit, Follows, StatesOk;
    if st.If? {
      RegionIf(ordinary, st, after, nodes, scope, sets);
    } else if st.Match? {
      RegionMatch(ordinary, st, after, nodes, scope, sets);
    } else if st.While? {
      RegionWhile(ordinary, st, after, nodes, scope, sets);
    } else if st.Foreach? {
      RegionForeach(ordinary, st, after, nodes, scope, sets);
    } else {
      RegionAwait(ordinary, st, after, nodes, scope, sets);
    }
  }

  /** A block inside a split statement whose node runs `ordinary`; `extra` names are bound for it. */
  ghost predicate Inner(ordinary: seq<Stmt>, b: seq<Stmt>, extra: set<string>, scope: set<string>, sets: Sets) {
    && Prefix(ordinary, scope, sets)
    && ScopedAll(b, scope + DefinesAll(ordinary) + extra) && UniqueAll(b)
    && Introduced(b) !! (scope + DefinesAll(ordinary) + extra)
    && Within(SetsOf(b), sets) && extra <= sets.offers
  }

  /** An expression evaluated after `ordinary`. */
  ghost predicate Test(ordinary: seq<Stmt>, e: Expr, scope: set<string>, sets: Sets) {
    && Prefix(ordinary, scope, sets) && Mentions(e) <= scope + DefinesAll(ordinary)
    && VisibleNames(e) <= sets.uses && HiddenNames(e) <= sets.hidden
  }

  lemma IfParts(ordinary: seq<Stmt>, st: Stmt, scope: set<string>, sets: Sets)
    requires Splits(st) && Follows(ordinary, st, scope, sets) && st.If?
    ensures Inner(ordinary, st.thn, {}, scope, sets) && Inner(ordinary, st.els, {}, scope, sets)
    ensures Test(ordinary, st.c, scope, sets)
  {
    DefinesAreDeclared(ordinary);
    assert scope + DefinesAll(ordinary) + {} == scope + DefinesAll(ordinary);
  }

  lemma WhileParts(ordinary: seq<Stmt>, st: Stmt, scope: set<string>, sets: Sets)
    requires Splits(st) && Follows(ordinary, st, scope, sets) && st.While?
    ensures Inner(ordinary, st.body, {}, scope, sets) && (st.hasElse ==> Inner(ordinary, st.els, {}, scope, sets))
    ensures Prefix(ordinary, scope, sets)
  {
    DefinesAreDeclared(ordinary);
    assert scope + DefinesAll(ordinary) + {} == scope + DefinesAll(ordinary);
  }

  /** The arms of a split match whose node runs `ordinary`. */
  ghost predicate ArmsFollow(ordinary: seq<Stmt>, arms: seq<Arm>, scope: set<string>, sets: Sets) {
    && Prefix(ordinary, scope, sets)
    && ScopedArms(arms, scope + DefinesAll(ordinary)) && UniqueArms(arms)
    && IntroducedArms(arms) !! (scope + DefinesAll(ordinary))
    && HiddenArms(arms) <= sets.hidden && DeclaredArms(arms) <= sets.declared && BoundArms(arms) <= sets.bound
    && UsesArms(arms) <= sets.uses
    && SourcesArms(arms) <= sets.sources && OffersArms(arms) <= sets.offers && HandedArms(arms) <= sets.handed
  }

  lemma MatchParts(ordinary: seq<Stmt>, st: Stmt, scope: set<string>, sets: Sets)
    requires Splits(st) && Follows(ordinary, st, scope, sets) && st.Match?
    ensures Test(ordinary, st.subject, scope, sets) && ArmsFollow(ordinary, st.arms, scope, sets)
    ensures BoundArms(st.arms) <= sets.bound && HandedArms(st.arms) <= sets.handed
  {
    DefinesAreDeclared(ordinary);
  }

  lemma ForeachParts(ordinary: seq<Stmt>, st: Stmt, scope: set<string>, sets: Sets)
    requires Splits(st) && Follows(ordinary, st, scope, sets) && st.Foreach?
    ensures Inner(ordinary, st.body, {st.item}, scope, sets)
  {
    DefinesAreDeclared(ordinary);
    assert scope + DefinesAll(ordinary) + {st.item} == (scope + DefinesAll(ordinary)) + {st.item};
  }

  /** A block compiled inside a split statement, seen from the statement's own scope. */
  lemma {:induction false} RegionInner(ordinary: seq<Stmt>, b: seq<Stmt>, extra: set<string>, next: nat, nodes: Nodes,
                                       scope: set<string>, sets: Sets)
    requires Inner(ordinary, b, extra, scope, sets)
    ensures StatesOk(Compile(b, next, nodes).nodes, |nodes|, scope, sets)
    decreases b, 3
  {
    hide Compile, StateOk;
    PrefixFacts(ordinary, scope, sets);
    RegionBlock(b, next, nodes, scope + DefinesAll(ordinary) + extra);
    StatesWider(Compile(b, next, nodes).nodes, |nodes|, scope + DefinesAll(ordinary) + extra, SetsOf(b),
                scope, sets);
  }

  lemma {:induction false} RegionIf(ordinary: seq<Stmt>, st: Stmt, after: nat, nodes: Nodes,
                                    scope: set<string>, sets: Sets)
    requires Splits(st) && Follows(ordinary, st, scope, sets) && st.If?
    ensures StatesOk(CompileSplit(ordinary, st, after, nodes).nodes, |nodes|, scope, sets)
    decreases st, 3
  {
    hide Compile, StateOk, Splits, Follows, Inner, Test;
    var n := |nodes|;
    var joined := nodes + [Join(false, after)];
    IfParts(ordinary, st, scope, sets);
    RegionInner(ordinary, st.thn, {}, n, joined, scope, sets);
    var thn := Compile(st.thn, n, joined);
    RegionInner(ordinary, st.els, {}, n, thn.nodes, scope, sets);
    var els := Compile(st.els, n, thn.nodes);
    TestStateOk(ordinary, st.c, Branch(ordinary, st.c, thn.entry, els.entry), scope, sets);
    PlainStatesOk(scope, sets);
    assert joined[n] == thn.nodes[n];
  }

  lemma {:induction false} RegionWhile(ordinary: seq<Stmt>, st: Stmt, after: nat, nodes: Nodes,
                                       scope: set<string>, sets: Sets)
    requires Splits(st) && Follows(ordinary, st, scope, sets) && st.While?
    ensures StatesOk(CompileSplit(ordinary, st, after, nodes).nodes, |nodes|, scope, sets)
    decreases st, 3
  {
    hide Compile, StateOk, Splits, Follows, Inner;
    var n := |nodes|;
    var started := WhileStart(ordinary, st, after, nodes);
    WhileParts(ordinary, st, scope, sets);
    if st.hasElse {
      RegionInner(ordinary, st.els, {}, after, started, scope, sets);
    }
    var exhausted := CompileElse(st, after, started);
    RegionInner(ordinary, st.body, {}, n + 2, exhausted.nodes, scope, sets);
    var inside := Compile(st.body, n + 2, exhausted.nodes);
    HeaderOk(st, ordinary, inside.entry, after, exhausted.entry, scope, sets);
    OrdinaryStateOk(ordinary, n + 1, scope, sets);
    PlainStatesOk(scope, sets);
    LoopStatesOk(n, started, exhausted.nodes, inside.nodes, WhileHeader(st, inside.entry, after, exhausted.entry),
                 scope, sets);
  }

  lemma LoopStatesOk(n: nat, started: Nodes, exhausted: Nodes, inside: Nodes, header: Node,
                     scope: set<string>, sets: Sets)
    requires |started| == n + 3 && started <= exhausted <= inside
    requires StateOk(started[n], scope, sets) && StateOk(started[n + 2], scope, sets) && StateOk(header, scope, sets)
    requires StatesOk(exhausted, n + 3, scope, sets) && StatesOk(inside, |exhausted|, scope, sets)
    ensures StatesOk(inside[n + 1 := header], n, scope, sets)
  {
    hide StateOk;
    var g := inside[n + 1 := header];
    forall i | n <= i < |g| ensures StateOk(g[i], scope, sets) {
      if n + 3 <= i < |exhausted| {
        assert g[i] == exhausted[i];
      } else if i != n + 1 && i < n + 3 {
        assert g[i] == started[i];
      }
    }
  }

  lemma HeaderOk(st: Stmt, ordinary: seq<Stmt>, body: nat, after: nat, exhausted: nat, scope: set<string>, sets: Sets)
    requires Follows(ordinary, st, scope, sets) && st.While?
    ensures StateOk(WhileHeader(st, body, after, exhausted), scope, sets)
  {
    SeenOrHidden(st.c);
    PrefixFacts(ordinary, scope, sets);
  }

  lemma {:induction false} RegionForeach(ordinary: seq<Stmt>, st: Stmt, after: nat, nodes: Nodes,
                                         scope: set<string>, sets: Sets)
    requires Splits(st) && Follows(ordinary, st, scope, sets) && st.Foreach?
    ensures StatesOk(CompileSplit(ordinary, st, after, nodes).nodes, |nodes|, scope, sets)
    decreases st, 3
  {
    hide Compile, StateOk, Splits, Follows, Inner;
    var n := |nodes|;
    var started := ForeachStart(ordinary, st, after, nodes);
    ForeachParts(ordinary, st, scope, sets);
    RegionInner(ordinary, st.body, {st.item}, n + 2, started, scope, sets);
    var inside := Compile(st.body, n + 2, started);
    IterationStatesOk(st, ordinary, inside.entry, after, n + 1, scope, sets);
    PlainStatesOk(scope, sets);
    assert started[n] == inside.nodes[n] && started[n + 2] == inside.nodes[n + 2];
  }

  lemma IterationStatesOk(st: Stmt, ordinary: seq<Stmt>, body: nat, after: nat, next: nat,
                          scope: set<string>, sets: Sets)
    requires Splits(st) && Follows(ordinary, st, scope, sets) && st.Foreach?
    ensures StateOk(ForeachInit(ordinary, st.src, next), scope, sets)
    ensures StateOk(ForeachHeader(st.item, st.src, body, after), scope, sets)
  {
    SourceSeenOrHidden(st.src);
    PrefixFacts(ordinary, scope, sets);
  }

  lemma {:induction false} RegionMatch(ordinary: seq<Stmt>, st: Stmt, after: nat, nodes: Nodes,
                                       scope: set<string>, sets: Sets)
    requires Splits(st) && Follows(ordinary, st, scope, sets) && st.Match?
    ensures StatesOk(CompileSplit(ordinary, st, after, nodes).nodes, |nodes|, scope, sets)
    decreases st, 3
  {
    hide CompileArms, StateOk, Splits, Test, Follows, ArmsFollow;
    var n := |nodes|;
    var started := nodes + [Join(true, after), MatchDispatch(ordinary, st.subject, [])];
    var (cases, inside) := CompileArms(st.arms, n, started);
    MatchParts(ordinary, st, scope, sets);
    RegionArms(ordinary, st.arms, n, started, scope, sets);
    TestStateOk(ordinary, st.subject, MatchDispatch(ordinary, st.subject, cases), scope, sets);
    PlainStatesOk(scope, sets);
    assert started[n] == inside[n];
  }

  lemma {:induction false} RegionArms(ordinary: seq<Stmt>, arms: seq<Arm>, join: nat, nodes: Nodes,
                                      scope: set<string>, sets: Sets)
    requires ArmsFollow(ordinary, arms, scope, sets)
    ensures StatesOk(CompileArms(arms, join, nodes).1, |nodes|, scope, sets)
    ensures CaseBinds(CompileArms(arms, join, nodes).0) <= BoundArms(arms) * HandedArms(arms)
    decreases arms, 0
  {
    hide Compile, StateOk;
    if arms != [] {
      var inner, binds := scope + DefinesAll(ordinary), Elems(arms[0].binds);
      var body := arms[0].body;
      RegionBlock(body, join, nodes, inner + binds);
      var first := Compile(body, join, nodes);
      PrefixFacts(ordinary, scope, sets);
      StatesWider(first.nodes, |nodes|, inner + binds, SetsOf(body), scope, sets);
      RegionArms(ordinary, arms[1..], join, first.nodes, scope, sets);
      var (rest, built) := CompileArms(arms[1..], join, first.nodes);
      var cases := CompileArms(arms, join, nodes).0;
      assert cases[0].binds == arms[0].binds && cases[1..] == rest;
    }
  }

  lemma {:induction false} ReplacedNames(e: Expr)
    ensures Mentions(ReplaceAwait(e)) <= Mentions(e) + {AWAITED}
    ensures VisibleNames(ReplaceAwait(e)) <= VisibleNames(e) + {AWAITED}
    ensures HiddenNames(ReplaceAwait(e)) <= HiddenNames(e)
  {
    match e
    case Unary(_, x) => ReplacedNames(x);
    case Binary(_, l, r) => ReplacedNames(l); ReplacedNames(r);
    case _ =>
  }

  lemma {:induction false} DirectAwaitNames(e: Expr)
    requires DirectAwait(e).Some?
    ensures Mentions(DirectAwait(e).value) <= Mentions(e) && VisibleNames(DirectAwait(e).value) <= VisibleNames(e)
    ensures HiddenNames(DirectAwait(e).value) <= HiddenNames(e)
  {
    match e
    case Unary(_, x) => DirectAwaitNames(x);
    case Binary(_, l, r) =>
      if DirectAwait(l).Some? {
        DirectAwaitNames(l);
      } else {
        DirectAwaitNames(r);
      }
    case _ =>
  }

  lemma {:induction false} RegionAwait(ordinary: seq<Stmt>, st: Stmt, after: nat, nodes: Nodes,
                                       scope: set<string>, sets: Sets)
    requires Splits(st) && Follows(ordinary, st, scope, sets) && SimpleExpr(st).Some?
    ensures StatesOk(CompileSplit(ordinary, st, after, nodes).nodes, |nodes|, scope, sets)
    decreases st, 3
  {
    hide StateOk;
    var e := SimpleExpr(st).value;
    var await := DirectAwait(e).value;
    DirectAwaitNames(e);
    TestStateOk(ordinary, await, AwaitSuspend(ordinary, await, |nodes|), scope, sets);
    ResumeStateOk(ordinary, st, after, scope, sets);
  }

  lemma ResumeStateOk(ordinary: seq<Stmt>, st: Stmt, after: nat, scope: set<string>, sets: Sets)
    requires Follows(ordinary, st, scope, sets) && SimpleExpr(st).Some?
    ensures forall i :: StateOk(AfterAwait(i, ResumeStmt(st), after), scope, sets)
  {
    hide Prefix, ReplaceAwait, Mentions, HiddenNames, VisibleNames;
    var e := SimpleExpr(st).value;
    ReplacedNames(e);
    SeenOrHidden(ReplaceAwait(e));
    PrefixFacts(ordinary, scope, sets);
    assert SimpleExpr(ResumeStmt(st)) == Some(ReplaceAwait(e));
    assert Declared(ResumeStmt(st)) == Declared(st);
  }

  // ---------------------------------------------------------------------------------------------
  // The emitted states are covered

  /** A body whose names are scoped over its parameters and introduced once. */
  ghost predicate WellScoped(fn: Fn) {
    && ScopedAll(fn.body, Elems(fn.params)) && UniqueAll(fn.body)
    && Introduced(fn.body) !! Elems(fn.params) && AWAITED !in Introduced(fn.body)
  }

  lemma {:induction false} EmittedCaseBinds(cases: seq<Case>, order: seq<nat>)
    ensures CaseBinds(EmitCases(cases, order)) == CaseBinds(cases)
  {
    if cases != [] {
      EmittedCaseBinds(cases[1..], order);
    }
  }

  lemma EmittedStateOk(n: Node, order: seq<nat>, scope: set<string>, sets: Sets)
    requires StateOk(n, scope, sets)
    ensures StateOk(EmitNode(n, order), scope, sets)
  {
    if n.MatchDispatch? {
      EmittedCaseBinds(n.cases, order);
    }
  }

  lemma EmittedStatesOk(fn: Fn, i: nat)
    requires WellScoped(fn) && i < |EmitUnit(Normalize(fn.body), All).nodes|
    ensures StateOk(EmitUnit(Normalize(fn.body), All).nodes[i], Elems(fn.params), SetsOf(fn.body))
  {
    hide Compile, StateOk;
    var b := Normalize(fn.body);
    OrderInRange(b);
    var at := Order(b)[i];
    RegionBlock(fn.body, 0, [Complete], Elems(fn.params));
    assert StateOk(b.nodes[at], Elems(fn.params), SetsOf(fn.body)) by {
      if at == 0 {
        assert b.nodes[0] == Complete;
        CompleteOk(Elems(fn.params), SetsOf(fn.body));
      }
    }
    EmittedStateOk(b.nodes[at], Order(b), Elems(fn.params), SetsOf(fn.body));
  }

  lemma CompleteOk(scope: set<string>, sets: Sets)
    ensures StateOk(Complete, scope, sets)
  {
  }

  lemma {:induction false} StoredFrom(params: seq<string>, nodes: Nodes, x: string) returns (i: nat)
    requires x in StoredNames(params, nodes) && x !in params
    ensures i < |nodes| && (x in StateDeclares(nodes[i]) || x in StateBinds(nodes[i]))
  {
    if x in StateDeclares(nodes[0]) || x in StateBinds(nodes[0]) {
      i := 0;
    } else {
      var rest := StoredFrom(params, nodes[1..], x);
      i := rest + 1;
    }
  }

  // ---------------------------------------------------------------------------------------------
  // A name that is used is used where it is in scope

  lemma {:induction false} UsesInScope(st: Stmt, scope: set<string>)
    requires Scoped(st, scope)
    ensures Uses(st) <= scope + Declared(st) + Bound(st)
  {
    if SimpleExpr(st).Some? {
      VisibleAreMentioned(SimpleExpr(st).value);
    }
    match st
    case Assert(c) => VisibleAreMentioned(c);
    case If(c, t, f) => VisibleAreMentioned(c); UsesAllInScope(t, scope); UsesAllInScope(f, scope);
    case Match(e, arms) => VisibleAreMentioned(e); UsesArmsInScope(arms, scope);
    case While(c, _, b, h, f) =>
      VisibleAreMentioned(c);
      UsesAllInScope(b, scope);
      if h {
        UsesAllInScope(f, scope);
      }
    case Foreach(item, src, b) => SourceUsesMentioned(src); UsesAllInScope(b, scope + {item});
    case Block(b) => UsesAllInScope(b, scope);
    case _ =>
  }

  lemma {:induction false} UsesAllInScope(b: seq<Stmt>, scope: set<string>)
    requires ScopedAll(b, scope)
    ensures UsesAll(b) <= scope + Introduced(b)
  {
    if b != [] {
      UsesInScope(b[0], scope);
      UsesAllInScope(b[1..], scope + Defines(b[0]));
    }
  }

  lemma {:induction false} UsesArmsInScope(arms: seq<Arm>, scope: set<string>)
    requires ScopedArms(arms, scope)
    ensures UsesArms(arms) <= scope + IntroducedArms(arms)
  {
    if arms != [] {
      UsesAllInScope(arms[0].body, scope + Elems(arms[0].binds));
      UsesArmsInScope(arms[1..], scope);
    }
  }

  lemma {:induction false} VisibleAreMentioned(e: Expr)
    ensures VisibleNames(e) <= Mentions(e)
  {
    match e
    case Unary(_, x) => VisibleAreMentioned(x);
    case Binary(_, l, r) => VisibleAreMentioned(l); VisibleAreMentioned(r);
    case Index(b, i) => VisibleAreMentioned(b); VisibleAreMentioned(i);
    case Await(_, _, args) => AllVisibleMentioned(args);
    case _ =>
  }

  lemma {:induction false} AllVisibleMentioned(es: seq<Expr>)
    ensures AllVisible(es) <= AllMentions(es)
  {
    if es != [] {
      VisibleAreMentioned(es[0]);
      AllVisibleMentioned(es[1..]);
    }
  }

  lemma SourceUsesMentioned(src: Source)
    ensures SourceUses(src) <= SourceMentions(src)
  {
    match src
    case Range(a, b, c, _) => VisibleAreMentioned(a); VisibleAreMentioned(b); VisibleAreMentioned(c);
    case Elements(e) => VisibleAreMentioned(e);
  }

  lemma {:induction false} HandedIsBound(st: Stmt)
    ensures Handed(st) <= Bound(st)
  {
    match st
    case If(_, t, f) => HandedAllIsBound(t); HandedAllIsBound(f);
    case Match(_, arms) => HandedArmsIsBound(arms);
    case While(_, _, b, h, f) => HandedAllIsBound(b); HandedAllIsBound(f);
    case Foreach(_, _, b) => HandedAllIsBound(b);
    case _ =>
  }

  lemma {:induction false} HandedAllIsBound(b: seq<Stmt>)
    ensures HandedAll(b) <= BoundAll(b)
  {
    if b != [] {
      HandedIsBound(b[0]);
      HandedAllIsBound(b[1..]);
    }
  }

  lemma {:induction false} HandedArmsIsBound(arms: seq<Arm>)
    ensures HandedArms(arms) <= BoundArms(arms)
  {
    if arms != [] {
      HandedAllIsBound(arms[0].body);
      HandedArmsIsBound(arms[1..]);
    }
  }

  /** A name handed over and used anywhere is used in the body it is handed to, so it is a field. */
  lemma {:induction false} HandedUsedIsField(st: Stmt, scope: set<string>, x: string)
    requires Scoped(st, scope) && Unique(st) && (Declared(st) + Bound(st)) !! scope
    requires x in Handed(st) && x in Uses(st)
    ensures x in MatchFields(st) + Items(st)
  {
    HandedIsBound(st);
    match st
    case If(c, t, f) =>
      VisibleAreMentioned(c);
      OwnBlock(t, f, scope, x);
      if x in HandedAll(t) {
        HandedUsedIsFieldAll(t, scope, x);
      } else {
        HandedUsedIsFieldAll(f, scope, x);
      }
    case Match(e, arms) => VisibleAreMentioned(e); HandedUsedInArms(arms, scope, x);
    case While(c, _, b, h, f) =>
      VisibleAreMentioned(c);
      OwnBlock(b, if h then f else [], scope, x);
      if x in HandedAll(b) {
        HandedUsedIsFieldAll(b, scope, x);
      } else {
        HandedUsedIsFieldAll(f, scope, x);
      }
    case Foreach(item, src, b) =>
      SourceUsesMentioned(src);
      if x != item {
        HandedUsedIsFieldAll(b, scope + {item}, x);
      }
    case _ =>
  }

  /** Of two blocks that introduce different names, the one that is handed the name is the one that uses it. */
  lemma OwnBlock(a: seq<Stmt>, b: seq<Stmt>, scope: set<string>, x: string)
    requires ScopedAll(a, scope) && ScopedAll(b, scope) && Introduced(a) !! Introduced(b)
    requires (Introduced(a) + Introduced(b)) !! scope && x in UsesAll(a) + UsesAll(b)
    ensures x in HandedAll(a) ==> x in UsesAll(a)
    ensures x in HandedAll(b) ==> x in UsesAll(b)
  {
    HandedAllIsBound(a);
    HandedAllIsBound(b);
    UsesAllInScope(a, scope);
    UsesAllInScope(b, scope);
  }

  lemma {:induction false} HandedUsedIsFieldAll(b: seq<Stmt>, scope: set<string>, x: string)
    requires ScopedAll(b, scope) && UniqueAll(b) && Introduced(b) !! scope && x in HandedAll(b) && x in UsesAll(b)
    ensures x in MatchFieldsAll(b) + ItemsAll(b)
  {
    HandedIsBound(b[0]);
    HandedAllIsBound(b[1..]);
    UsesInScope(b[0], scope);
    UsesAllInScope(b[1..], scope + Defines(b[0]));
    if x in Handed(b[0]) {
      DeclaredNotBound(b[0]);
      HandedUsedIsField(b[0], scope, x);
    } else {
      HandedUsedIsFieldAll(b[1..], scope + Defines(b[0]), x);
    }
  }

  lemma {:induction false} HandedUsedInArms(arms: seq<Arm>, scope: set<string>, x: string)
    requires ScopedArms(arms, scope) && UniqueArms(arms) && IntroducedArms(arms) !! scope
    requires x in HandedArms(arms) && x in UsesArms(arms)
    ensures x in MatchFieldsArms(arms) + ItemsArms(arms)
  {
    var binds, body := Elems(arms[0].binds), arms[0].body;
    HandedAllIsBound(body);
    HandedArmsIsBound(arms[1..]);
    UsesAllInScope(body, scope + binds);
    UsesArmsInScope(arms[1..], scope);
    if x in HandedAll(body) {
      HandedUsedIsFieldAll(body, scope + binds, x);
    } else if x !in binds {
      HandedUsedInArms(arms[1..], scope, x);
    }
  }

  // ---------------------------------------------------------------------------------------------
  // When the fields cover every state

  /** The state that introduces the name for others, as the analysis takes it. */
  predicate Introduces(nodes: Nodes, m: nat, x: string)
    requires m < |nodes|
  {
    DeclaredAt(nodes, x) == Some(m) || x in StateHands(nodes[m])
  }

  /** Another state than the introducing one uses the name where the analysis sees it. */
  ghost predicate SeenAbroad(nodes: Nodes, x: string) {
    exists i: nat, m: nat :: i < |nodes| && m < |nodes| && i != m && x in StateUses(nodes[i]) && Introduces(nodes, m, x)
  }

  /** A parameter, a binding that its arm uses, or an item or a source of an iteration. */
  ghost predicate KeptAnyway(fn: Fn, x: string) {
    || x in Elems(fn.params) || KeptBySplit(Used, fn.body, x) || KeptBySplit(Item, fn.body, x)
    || (KeptBySplit(Origin, fn.body, x) && x in DeclaredAll(fn.body) + BoundAll(fn.body))
  }

  /** Declared no later than an await and named after it, or declared by one. */
  ghost predicate KeptForAwait(fn: Fn, x: string) {
    LivesAcross(Elems(fn.params), fn.body, x) || AwaitDeclares(fn.body, x)
  }

  /** Every name a state reads from another one is seen by the analysis or kept for another reason. */
  ghost predicate ReadsAreSeen(fn: Fn) {
    var nodes := EmitUnit(Normalize(fn.body), All).nodes;
    forall i, x :: 0 <= i < |nodes| && x in StateReads(nodes[i]) && x in StoredNames(fn.params, nodes) ==>
      SeenAbroad(nodes, x) || KeptAnyway(fn, x) || KeptForAwait(fn, x)
  }

  lemma KeptIff(fn: Fn, x: string)
    ensures KeptAnyway(fn, x) <==>
            || x in Elems(fn.params) || x in MatchFieldsAll(fn.body) || x in ItemsAll(fn.body)
            || (x in SourcesAll(fn.body) && x in DeclaredAll(fn.body) + BoundAll(fn.body))
    ensures KeptForAwait(fn, x) <==>
            x in LiveAcross(Elems(fn.params), TimelineAll(fn.body)) || x in AwaitedDeclarations(fn.body)
  {
    hide KeptBySplit, LivesAcross, AwaitDeclares, LiveAcross, AwaitedDeclarations;
    KeptBySplitIff(Used, fn.body, x);
    KeptBySplitIff(Item, fn.body, x);
    KeptBySplitIff(Origin, fn.body, x);
    LiveAcrossIff(Elems(fn.params), fn.body, x);
    AwaitedDeclarationsIff(fn.body, x);
  }

  lemma SeenAbroadIsKept(fn: Fn, x: string)
    requires WellScoped(fn) && SeenAbroad(EmitUnit(Normalize(fn.body), All).nodes, x)
    ensures x in Required(fn, EmitUnit(Normalize(fn.body), All).nodes)
  {
    hide Normalize, Compile, EmitUnit, ScopedAll, UniqueAll, MatchFieldsAll, ItemsAll, SourcesAll;
    var nodes := EmitUnit(Normalize(fn.body), All).nodes;
    var i: nat, m: nat :| i < |nodes| && m < |nodes| && i != m && x in StateUses(nodes[i]) && Introduces(nodes, m, x);
    EmittedStatesOk(fn, i);
    EmittedStatesOk(fn, m);
    if x in StateHands(nodes[m]) {
      HandedAllIsBound(fn.body);
      HandedUsedIsFieldAll(fn.body, Elems(fn.params), x);
    } else {
      AllUsesHold(nodes, i);
      assert x in CrossState(nodes);
    }
  }

  lemma CrossStateIsSeen(nodes: Nodes, x: string)
    requires x in CrossState(nodes)
    ensures SeenAbroad(nodes, x)
  {
    DeclaredAtIs(nodes, x);
    var m := DeclaredAt(nodes, x).value;
    var i :| 0 <= i < |nodes| && i != m && x in StateUses(nodes[i]);
    assert Introduces(nodes, m, x);
  }

  lemma {:induction false} DeclaredAtIs(nodes: Nodes, x: string)
    requires DeclaredAt(nodes, x).Some?
    ensures DeclaredAt(nodes, x).value < |nodes| && x in StateDeclares(nodes[DeclaredAt(nodes, x).value])
  {
    if x !in StateDeclares(nodes[|nodes| - 1]) {
      DeclaredAtIs(nodes[..|nodes| - 1], x);
    }
  }

  /**
   The chosen fields cover every emitted state exactly when every read of another state's name is seen or kept
   anyway.
   */
  lemma FieldsCoverIff(fn: Fn)
    requires WellScoped(fn)
    ensures var nodes := EmitUnit(Normalize(fn.body), All).nodes;
            Covers(fn.params, nodes, Persistent(fn, nodes)) <==> ReadsAreSeen(fn)
  {
    hide Normalize, EmitUnit, WellScoped, SeenAbroad, LiveAcross, CrossState, KeptAnyway, KeptForAwait;
    var nodes := EmitUnit(Normalize(fn.body), All).nodes;
    forall x ensures x in Persistent(fn, nodes) <==> SeenAbroad(nodes, x) || KeptAnyway(fn, x) || KeptForAwait(fn, x) {
      KeptIff(fn, x);
      if x in CrossState(nodes) {
        CrossStateIsSeen(nodes, x);
      }
      if SeenAbroad(nodes, x) {
        SeenAbroadIsKept(fn, x);
      }
    }
  }

  /** A read where the analysis sees the name needs nothing that is kept for awaits; no other read is of such a name. */
  lemma ReadIsCoveredOrHidden(fn: Fn, i: nat, x: string)
    requires WellScoped(fn)
    requires var nodes := EmitUnit(Normalize(fn.body), All).nodes;
             i < |nodes| && x in StateReads(nodes[i]) && x in StoredNames(fn.params, nodes)
    ensures SeenAbroad(EmitUnit(Normalize(fn.body), All).nodes, x) || KeptAnyway(fn, x) || x in HiddenAll(fn.body)
  {
    hide Normalize, Compile, EmitUnit, ScopedAll, UniqueAll, KeptAnyway;
    var nodes := EmitUnit(Normalize(fn.body), All).nodes;
    EmittedStatesOk(fn, i);
    OffersAllAreNamed(fn.body);
    HandedAllIsBound(fn.body);
    KeptIff(fn, x);
    if !KeptAnyway(fn, x) && x !in HiddenAll(fn.body) {
      if x in HandedAll(fn.body) {
        HandedUsedIsFieldAll(fn.body, Elems(fn.params), x);
      } else {
        var m := StoredFrom(fn.params, nodes, x);
        EmittedStatesOk(fn, m);
        DeclaredNotBoundAll(fn.body);
        assert x in StateDeclares(nodes[m]);
        DeclaredAtFinds(nodes, x, m);
        assert Introduces(nodes, DeclaredAt(nodes, x).value, x);
      }
    }
  }

  lemma SeenBodiesAreSeen(fn: Fn)
    requires WellScoped(fn) && SeenAll(fn.body)
    ensures ReadsAreSeen(fn)
  {
    hide Normalize, EmitUnit, WellScoped, SeenAbroad, KeptAnyway, HiddenAll, SeenAll;
    SeenAllHidesNothing(fn.body);
    var nodes := EmitUnit(Normalize(fn.body), All).nodes;
    forall i, x | 0 <= i < |nodes| && x in StateReads(nodes[i]) && x in StoredNames(fn.params, nodes)
      ensures SeenAbroad(nodes, x) || KeptAnyway(fn, x)
    {
      ReadIsCoveredOrHidden(fn, i, x);
    }
  }

  /** Keeping at least the required names of a body that the analysis sees covers all its emitted states. */
  lemma RequiredCovers(fn: Fn, keep: set<string>)
    requires WellScoped(fn) && SeenAll(fn.body) && Required(fn, EmitUnit(Normalize(fn.body), All).nodes) <= keep
    ensures Covers(fn.params, EmitUnit(Normalize(fn.body), All).nodes, keep)
  {
    hide Normalize, EmitUnit, WellScoped, SeenAbroad, KeptAnyway, HiddenAll, SeenAll;
    SeenAllHidesNothing(fn.body);
    var nodes := EmitUnit(Normalize(fn.body), All).nodes;
    forall i, x | 0 <= i < |nodes| && x in StateReads(nodes[i]) && x in StoredNames(fn.params, nodes)
      ensures x in keep
    {
      ReadIsCoveredOrHidden(fn, i, x);
      KeptIff(fn, x);
      if SeenAbroad(nodes, x) {
        SeenAbroadIsKept(fn, x);
      }
    }
  }

  // ---------------------------------------------------------------------------------------------
  // Reads the analysis does not see

  /** A state reads the name from another one. */
  ghost predicate ReadAbroad(fn: Fn, x: string) {
    var nodes := EmitUnit(Normalize(fn.body), All).nodes;
    x in StoredNames(fn.params, nodes) && exists i :: 0 <= i < |nodes| && x in StateReads(nodes[i])
  }

  /** An earlier statement awaits, and the name is a parameter or declared no later than it. */
  ghost predicate FollowsAwait(fn: Fn, u: Path, x: string) {
    exists a: Path ::
      AwaitedAt(fn.body, a) && Precedes(a, u) && (x in Elems(fn.params) || DeclaredNoLater(fn.body, a, x))
  }

  /**
   The names live across an await are what hidden reads need: where each hidden read of another state's name follows
   an await that follows the declaration, the fields cover every state.
   */
  lemma HiddenReadsAfterAwaitsAreCovered(fn: Fn)
    requires WellScoped(fn)
    requires forall u: Path, x :: HiddenAt(fn.body, u, x) && ReadAbroad(fn, x) ==> FollowsAwait(fn, u, x)
    ensures var nodes := EmitUnit(Normalize(fn.body), All).nodes;
            Covers(fn.params, nodes, Persistent(fn, nodes))
    ensures ReadsAreSeen(fn)
  {
    hide Normalize, EmitUnit, WellScoped, SeenAbroad, KeptAnyway, Covers, HiddenAt, AwaitedAt, Precedes;
    var nodes := EmitUnit(Normalize(fn.body), All).nodes;
    forall i, x | 0 <= i < |nodes| && x in StateReads(nodes[i]) && x in StoredNames(fn.params, nodes)
      ensures SeenAbroad(nodes, x) || KeptAnyway(fn, x) || KeptForAwait(fn, x)
    {
      ReadIsCoveredOrHidden(fn, i, x);
      if x in HiddenAll(fn.body) {
        var u := HiddenPosition(fn.body, x);
        assert FollowsAwait(fn, u, x);
        HiddenIsNamed(fn.body, u, x);
      }
    }
    FieldsCoverIff(fn);
  }
}
