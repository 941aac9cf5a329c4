/**
 What the frame keeps, by positions in the body.  A position is a path of indices into nested blocks, and source
 order is the order of paths.  Names live across an await, and names kept for a split `match` or `foreach`, are
 characterised here without the traversals that collect them.
 */
module AsyncLiveness {
  import opened Wrappers
  import opened AsyncSyntax
  import opened AsyncDirect
  import opened AsyncGraph
  import opened AsyncScope
  import opened AsyncPersist

  // ---------------------------------------------------------------------------------------------
  // Positions

  function ArmBodies(arms: seq<Arm>): seq<seq<Stmt>> {
    if arms == [] then [] else [arms[0].body] + ArmBodies(arms[1..])
  }

  /** The blocks of a statement in source order. */
  function Blocks(st: Stmt): seq<seq<Stmt>> {
    match st
    case If(_, t, f) => [t, f]
    case Match(_, arms) => ArmBodies(arms)
    case While(_, _, b, h, f) => if h then [b, f] else [b]
    case Foreach(_, _, b) => [b]
    case Block(b) => [b]
    case _ => []
  }

  /** Statement, then block of it and statement of that block, and so on. */
  type Path = seq<nat>

  function StmtAt(b: seq<Stmt>, p: Path): Option<Stmt>
    decreases |p|
  {
    if p == [] || p[0] >= |b| then None
    else if |p| == 1 then Some(b[p[0]])
    else
      var inner := Blocks(b[p[0]]);
      if p[1] < |inner| then StmtAt(inner[p[1]], p[2..]) else None
  }

  /** The order in which statements stand in the source: a statement comes before what is nested in it. */
  predicate Precedes(p: Path, q: Path)
    decreases |p|
  {
    q != [] && (p == [] || p[0] < q[0] || (p[0] == q[0] && Precedes(p[1..], q[1..])))
  }

  /** The expressions a statement evaluates itself. */
  function OwnExprs(st: Stmt): seq<Expr> {
    match st
    case Decl(_, e) => [e]
    case Assign(_, e) => [e]
    case Do(e) => [e]
    case Assert(c) => [c]
    case Return(None) => []
    case Return(Some(e)) => [e]
    case If(c, _, _) => [c]
    case Match(e, _) => [e]
    case While(c, _, _, _, _) => [c]
    case Foreach(_, Range(a, z, k, _), _) => [a, z, k]
    case Foreach(_, Elements(e), _) => [e]
    case Block(_) => []
  }

  predicate NamesIt(st: Stmt, x: string) {
    (st.Assign? && st.x == x) || exists k :: 0 <= k < |OwnExprs(st)| && x in Mentions(OwnExprs(st)[k])
  }

  predicate DeclaresIt(st: Stmt, x: string) {
    (st.Decl? && st.x == x) || (st.Foreach? && st.item == x)
  }

  predicate AwaitsItself(st: Stmt) {
    SimpleExpr(st).Some? && HasAwait(SimpleExpr(st).value)
  }

  ghost predicate AwaitedAt(b: seq<Stmt>, p: Path) {
    StmtAt(b, p).Some? && AwaitsItself(StmtAt(b, p).value)
  }

  ghost predicate NamedAt(b: seq<Stmt>, p: Path, x: string) {
    StmtAt(b, p).Some? && NamesIt(StmtAt(b, p).value, x)
  }

  ghost predicate DeclaredNoLater(b: seq<Stmt>, p: Path, x: string) {
    exists d: Path :: (d == p || Precedes(d, p)) && StmtAt(b, d).Some? && DeclaresIt(StmtAt(b, d).value, x)
  }

  /** Some await has the name declared no later and named in a later statement. */
  ghost predicate LivesAcross(params: set<string>, b: seq<Stmt>, x: string) {
    exists a: Path, u: Path ::
      AwaitedAt(b, a) && NamedAt(b, u, x) && Precedes(a, u) && (x in params || DeclaredNoLater(b, a, x))
  }

  // ---------------------------------------------------------------------------------------------
  // Positions and moments

  function TimelineOf(blocks: seq<seq<Stmt>>): seq<Moment> {
    if blocks == [] then [] else TimelineAll(blocks[0]) + TimelineOf(blocks[1..])
  }

  lemma {:induction false} ArmsTimeline(arms: seq<Arm>)
    ensures TimelineArms(arms) == TimelineOf(ArmBodies(arms))
  {
    if arms != [] {
      ArmsTimeline(arms[1..]);
      assert ArmBodies(arms)[1..] == ArmBodies(arms[1..]);
    }
  }

  lemma StmtTimeline(st: Stmt)
    ensures Timeline(st) == [MomentOf(st)] + TimelineOf(Blocks(st))
  {
    hide TimelineAll;
    match st
    case If(_, t, f) => TimelineTwo(t, f);
    case Match(_, arms) => ArmsTimeline(arms);
    case While(_, _, b, h, f) =>
      TimelineTwo(b, f);
      TimelineOne(b);
    case Foreach(_, _, b) => TimelineOne(b);
    case Block(b) => TimelineOne(b);
    case _ =>
  }

  lemma TimelineOne(b: seq<Stmt>)
    ensures TimelineOf([b]) == TimelineAll(b)
  {
    var blocks := [b];
    assert blocks[1..] == [] && TimelineAll(b) + [] == TimelineAll(b);
  }

  lemma TimelineTwo(a: seq<Stmt>, b: seq<Stmt>)
    ensures TimelineOf([a, b]) == TimelineAll(a) + TimelineAll(b)
  {
    var blocks := [a, b];
    assert blocks[1..] == [b];
    TimelineOne(b);
  }

  lemma {:induction false} TimelineSplit(b: seq<Stmt>, i: nat)
    requires i < |b|
    ensures TimelineAll(b) == TimelineAll(b[..i]) + Timeline(b[i]) + TimelineAll(b[i + 1..])
    ensures TimelineAll(b[..i + 1]) == TimelineAll(b[..i]) + Timeline(b[i])
  {
    TimelineJoin(b[..i], b[i..]);
    assert b == b[..i] + b[i..] && b[i..][0] == b[i] && b[i..][1..] == b[i + 1..];
    TimelineJoin(b[..i], [b[i]]);
    assert b[..i + 1] == b[..i] + [b[i]] && [b[i]][1..] == [];
    assert TimelineAll([b[i]]) == Timeline(b[i]) + [];
  }

  lemma {:induction false} TimelineJoin(a: seq<Stmt>, b: seq<Stmt>)
    ensures TimelineAll(a + b) == TimelineAll(a) + TimelineAll(b)
  {
    if a == [] {
      assert a + b == b;
    } else {
      assert (a + b)[1..] == a[1..] + b;
      TimelineJoin(a[1..], b);
    }
  }

  lemma {:induction false} TimelineOfSplit(blocks: seq<seq<Stmt>>, i: nat)
    requires i < |blocks|
    ensures TimelineOf(blocks) == TimelineOf(blocks[..i]) + TimelineAll(blocks[i]) + TimelineOf(blocks[i + 1..])
    ensures TimelineOf(blocks[..i + 1]) == TimelineOf(blocks[..i]) + TimelineAll(blocks[i])
  {
    hide TimelineAll;
    TimelineOfJoin(blocks[..i], blocks[i..]);
    assert blocks == blocks[..i] + blocks[i..] && blocks[i..][0] == blocks[i] && blocks[i..][1..] == blocks[i + 1..];
    TimelineOfJoin(blocks[..i], [blocks[i]]);
    assert blocks[..i + 1] == blocks[..i] + [blocks[i]];
    TimelineOne(blocks[i]);
  }

  lemma {:induction false} TimelineOfJoin(a: seq<seq<Stmt>>, b: seq<seq<Stmt>>)
    ensures TimelineOf(a + b) == TimelineOf(a) + TimelineOf(b)
  {
    if a == [] {
      assert a + b == b;
    } else {
      assert (a + b)[1..] == a[1..] + b;
      TimelineOfJoin(a[1..], b);
    }
  }

  /** The number of the moment of a statement. */
  function IndexOf(b: seq<Stmt>, p: Path): nat
    requires StmtAt(b, p).Some?
    decreases |p|
  {
    |TimelineAll(b[..p[0]])| +
    if |p| == 1 then 0
    else
      var inner := Blocks(b[p[0]]);
      1 + |TimelineOf(inner[..p[1]])| + IndexOf(inner[p[1]], p[2..])
  }

  lemma {:induction false} IndexIsMoment(b: seq<Stmt>, p: Path)
    requires StmtAt(b, p).Some?
    ensures |TimelineAll(b[..p[0]])| <= IndexOf(b, p) < |TimelineAll(b[..p[0] + 1])| <= |TimelineAll(b)|
    ensures TimelineAll(b)[IndexOf(b, p)] == MomentOf(StmtAt(b, p).value)
    decreases |p|
  {
    hide TimelineAll, Timeline, TimelineOf;
    var st, inner := b[p[0]], Blocks(b[p[0]]);
    TimelineSplit(b, p[0]);
    StmtTimeline(st);
    if |p| > 1 {
      IndexIsMoment(inner[p[1]], p[2..]);
      TimelineOfSplit(inner, p[1]);
    }
  }

  lemma {:induction false} TimelineGrows(b: seq<Stmt>, i: nat, j: nat)
    requires i <= j <= |b|
    ensures |TimelineAll(b[..i])| <= |TimelineAll(b[..j])|
  {
    assert b[..j] == b[..i] + b[i..j];
    TimelineJoin(b[..i], b[i..j]);
  }

  lemma {:induction false} BlocksGrow(blocks: seq<seq<Stmt>>, i: nat, j: nat)
    requires i <= j <= |blocks|
    ensures |TimelineOf(blocks[..i])| <= |TimelineOf(blocks[..j])|
  {
    assert blocks[..j] == blocks[..i] + blocks[i..j];
    TimelineOfJoin(blocks[..i], blocks[i..j]);
  }

  /** The order of paths is the order of moments. */
  lemma {:induction false} IndexOrders(b: seq<Stmt>, p: Path, q: Path)
    requires StmtAt(b, p).Some? && StmtAt(b, q).Some? && Precedes(p, q)
    ensures IndexOf(b, p) < IndexOf(b, q)
    decreases |p|
  {
    hide TimelineAll, TimelineOf;
    IndexIsMoment(b, p);
    IndexIsMoment(b, q);
    if p[0] < q[0] {
      TimelineGrows(b, p[0] + 1, q[0]);
    } else if |p| > 1 {
      var inner := Blocks(b[p[0]]);
      assert |q| > 1 && p[1..][0] == p[1] && q[1..][0] == q[1] && p[1..][1..] == p[2..] && q[1..][1..] == q[2..];
      IndexIsMoment(inner[p[1]], p[2..]);
      IndexIsMoment(inner[q[1]], q[2..]);
      if p[1] < q[1] {
        BlocksGrow(inner, p[1] + 1, q[1]);
        TimelineOfSplit(inner, p[1]);
      } else {
        IndexOrders(inner[p[1]], p[2..], q[2..]);
      }
    }
  }

  lemma {:induction false} EitherPrecedes(p: Path, q: Path)
    ensures p == q || Precedes(p, q) || Precedes(q, p)
    decreases |p|
  {
    if p != [] && q != [] && p[0] == q[0] {
      EitherPrecedes(p[1..], q[1..]);
      if p[1..] == q[1..] {
        assert p == [p[0]] + p[1..] && q == [q[0]] + q[1..];
      }
    }
  }

  /** Every moment is of a statement. */
  lemma {:induction false} PathTo(b: seq<Stmt>, n: nat) returns (p: Path)
    requires n < |TimelineAll(b)|
    ensures StmtAt(b, p).Some? && IndexOf(b, p) == n
    decreases |TimelineAll(b)|, 1
  {
    var i := StmtOfMoment(b, n);
    var st := b[i];
    var k := n - |TimelineAll(b[..i])|;
    StmtTimeline(st);
    if k == 0 {
      p := [i];
    } else {
      p := PathInside(b, i, k);
    }
  }

  lemma {:induction false} StmtOfMoment(b: seq<Stmt>, n: nat) returns (i: nat)
    requires n < |TimelineAll(b)|
    ensures i < |b| && |TimelineAll(b[..i])| <= n < |TimelineAll(b[..i])| + |Timeline(b[i])|
  {
    hide Timeline;
    if n < |Timeline(b[0])| {
      i := 0;
      assert b[..0] == [];
    } else {
      var j := StmtOfMoment(b[1..], n - |Timeline(b[0])|);
      i := j + 1;
      assert b[..i] == [b[0]] + b[1..][..j];
      TimelineJoin([b[0]], b[1..][..j]);
      assert [b[0]][1..] == [] && TimelineAll([b[0]]) == Timeline(b[0]) + [];
    }
  }

  lemma {:induction false} BlockOfMoment(blocks: seq<seq<Stmt>>, n: nat) returns (i: nat)
    requires n < |TimelineOf(blocks)|
    ensures i < |blocks| && |TimelineOf(blocks[..i])| <= n < |TimelineOf(blocks[..i])| + |TimelineAll(blocks[i])|
  {
    hide TimelineAll;
    if n < |TimelineAll(blocks[0])| {
      i := 0;
      assert blocks[..0] == [];
    } else {
      var j := BlockOfMoment(blocks[1..], n - |TimelineAll(blocks[0])|);
      i := j + 1;
      assert blocks[..i] == [blocks[0]] + blocks[1..][..j];
      TimelineOfJoin([blocks[0]], blocks[1..][..j]);
      TimelineOne(blocks[0]);
    }
  }

  lemma {:induction false} PathInside(b: seq<Stmt>, i: nat, k: nat) returns (p: Path)
    requires i < |b| && 0 < k < |Timeline(b[i])|
    ensures StmtAt(b, p).Some? && IndexOf(b, p) == |TimelineAll(b[..i])| + k
    decreases |TimelineAll(b)|, 0
  {
    hide TimelineAll, Timeline, TimelineOf;
    var st, inner := b[i], Blocks(b[i]);
    StmtTimeline(st);
    var j := BlockOfMoment(inner, k - 1);
    TimelineSplit(b, i);
    TimelineOfSplit(inner, j);
    var q := PathTo(inner[j], k - 1 - |TimelineOf(inner[..j])|);
    p := [i, j] + q;
    assert p[2..] == q;
  }

  // ---------------------------------------------------------------------------------------------
  // Names live across an await

  lemma MomentMeans(st: Stmt, x: string)
    ensures MomentOf(st).awaits <==> AwaitsItself(st)
    ensures x in MomentOf(st).declares <==> DeclaresIt(st, x)
    ensures x in MomentOf(st).mentions <==> NamesIt(st, x)
  {
    var es := OwnExprs(st);
    if |es| > 0 {
      assert x in Mentions(es[0]) ==> NamesIt(st, x);
    }
    if |es| > 2 {
      assert x in Mentions(es[1]) || x in Mentions(es[2]) ==> NamesIt(st, x);
    }
  }

  /** On a timeline: some moment awaits, the name is declared no later and mentioned later. */
  ghost predicate SpansAt(declared: set<string>, ms: seq<Moment>, x: string, i: nat, k: nat) {
    && i < k < |ms| && ms[i].awaits && x in ms[k].mentions
    && (x in declared || exists j :: 0 <= j <= i && x in ms[j].declares)
  }

  lemma {:induction false} MentionedIff(ms: seq<Moment>, x: string)
    ensures x in MentionedIn(ms) <==> exists k :: 0 <= k < |ms| && x in ms[k].mentions
  {
    if ms != [] {
      MentionedIff(ms[1..], x);
      if k :| 0 <= k < |ms[1..]| && x in ms[1..][k].mentions {
        assert ms[k + 1] == ms[1..][k];
      }
      if k :| 0 < k < |ms| && x in ms[k].mentions {
        assert ms[1..][k - 1] == ms[k];
      }
    }
  }

  lemma {:induction false} SpansIff(declared: set<string>, ms: seq<Moment>, x: string)
    ensures x in LiveAcross(declared, ms) <==> exists i: nat, k: nat :: SpansAt(declared, ms, x, i, k)
    decreases ms
  {
    if ms != [] {
      var known, rest := declared + ms[0].declares, ms[1..];
      SpansIff(known, rest, x);
      MentionedIff(rest, x);
      if i: nat, k: nat :| SpansAt(known, rest, x, i, k) {
        if j :| 0 <= j <= i && x in rest[j].declares {
          assert ms[j + 1] == rest[j];
        } else if x in ms[0].declares {
          assert 0 <= 0 <= i + 1;
        }
        assert ms[i + 1] == rest[i] && ms[k + 1] == rest[k];
        assert SpansAt(declared, ms, x, i + 1, k + 1);
      }
      if ms[0].awaits && x in known && x in MentionedIn(rest) {
        var k :| 0 <= k < |rest| && x in rest[k].mentions;
        assert ms[k + 1] == rest[k] && SpansAt(declared, ms, x, 0, k + 1);
      }
      forall i: nat, k: nat | SpansAt(declared, ms, x, i, k) ensures x in LiveAcross(declared, ms) {
        if i == 0 {
          assert rest[k - 1] == ms[k];
        } else {
          assert rest[i - 1] == ms[i] && rest[k - 1] == ms[k];
          if x !in known {
            var j :| 0 <= j <= i && x in ms[j].declares;
            assert rest[j - 1] == ms[j];
          }
          assert SpansAt(known, rest, x, i - 1, k - 1);
        }
      }
    }
  }

  /** A name is kept as live across an await exactly when it is: declared no later, and named after it. */
  lemma LiveAcrossIff(params: set<string>, b: seq<Stmt>, x: string)
    ensures x in LiveAcross(params, TimelineAll(b)) <==> LivesAcross(params, b, x)
  {
    hide LiveAcross, IndexOf;
    var ms := TimelineAll(b);
    SpansIff(params, ms, x);
    if a: Path, u: Path :| AwaitedAt(b, a) && NamedAt(b, u, x) && Precedes(a, u)
                           && (x in params || DeclaredNoLater(b, a, x)) {
      PositionsSpan(params, b, x, a, u);
    }
    if i: nat, k: nat :| SpansAt(params, ms, x, i, k) {
      SpanHasPositions(params, b, x, i, k);
    }
  }

  lemma PositionsSpan(params: set<string>, b: seq<Stmt>, x: string, a: Path, u: Path)
    requires AwaitedAt(b, a) && NamedAt(b, u, x) && Precedes(a, u) && (x in params || DeclaredNoLater(b, a, x))
    ensures SpansAt(params, TimelineAll(b), x, IndexOf(b, a), IndexOf(b, u))
  {
    hide IndexOf, TimelineAll, MomentOf, NamesIt, DeclaresIt, AwaitsItself, StmtAt;
    IndexIsMoment(b, a);
    IndexIsMoment(b, u);
    IndexOrders(b, a, u);
    MomentMeans(StmtAt(b, a).value, x);
    MomentMeans(StmtAt(b, u).value, x);
    if x !in params {
      var d: Path :| (d == a || Precedes(d, a)) && StmtAt(b, d).Some? && DeclaresIt(StmtAt(b, d).value, x);
      IndexIsMoment(b, d);
      MomentMeans(StmtAt(b, d).value, x);
      if d != a {
        IndexOrders(b, d, a);
      }
      assert 0 <= IndexOf(b, d) <= IndexOf(b, a) && x in TimelineAll(b)[IndexOf(b, d)].declares;
    }
  }

  lemma SpanHasPositions(params: set<string>, b: seq<Stmt>, x: string, i: nat, k: nat)
    requires SpansAt(params, TimelineAll(b), x, i, k)
    ensures LivesAcross(params, b, x)
  {
    hide IndexOf, TimelineAll, MomentOf, NamesIt, DeclaresIt, AwaitsItself, StmtAt, Precedes;
    var a := PathTo(b, i);
    var u := PathTo(b, k);
    IndexIsMoment(b, a);
    IndexIsMoment(b, u);
    MomentMeans(StmtAt(b, a).value, x);
    MomentMeans(StmtAt(b, u).value, x);
    InOrder(b, a, u);
    if x !in params {
      var j :| 0 <= j <= i && x in TimelineAll(b)[j].declares;
      var d := PathTo(b, j);
      IndexIsMoment(b, d);
      MomentMeans(StmtAt(b, d).value, x);
      if d != a {
        SameOrInOrder(b, d, a);
      }
      assert DeclaredNoLater(b, a, x);
    }
  }

  lemma InOrder(b: seq<Stmt>, p: Path, q: Path)
    requires StmtAt(b, p).Some? && StmtAt(b, q).Some? && IndexOf(b, p) < IndexOf(b, q)
    ensures Precedes(p, q)
  {
    hide IndexOf;
    EitherPrecedes(p, q);
    if Precedes(q, p) {
      IndexOrders(b, q, p);
    }
  }

  lemma SameOrInOrder(b: seq<Stmt>, p: Path, q: Path)
    requires StmtAt(b, p).Some? && StmtAt(b, q).Some? && IndexOf(b, p) <= IndexOf(b, q)
    ensures p == q || Precedes(p, q)
  {
    hide IndexOf;
    EitherPrecedes(p, q);
    if Precedes(q, p) {
      IndexOrders(b, q, p);
    }
  }

  // ---------------------------------------------------------------------------------------------
  // Reads the graph analysis does not see

  /** A statement that names it inside an `if` or constructor expression. */
  ghost predicate HiddenAt(b: seq<Stmt>, p: Path, x: string) {
    && StmtAt(b, p).Some?
    && var es := OwnExprs(StmtAt(b, p).value);
       exists k :: 0 <= k < |es| && x in HiddenNames(es[k])
  }

  lemma HiddenIsNamed(b: seq<Stmt>, p: Path, x: string)
    requires HiddenAt(b, p, x)
    ensures NamedAt(b, p, x)
  {
    var es := OwnExprs(StmtAt(b, p).value);
    var k :| 0 <= k < |es| && x in HiddenNames(es[k]);
    SeenOrHidden(es[k]);
  }

  lemma {:induction false} HiddenPosition(b: seq<Stmt>, x: string) returns (p: Path)
    requires x in HiddenAll(b)
    ensures HiddenAt(b, p, x)
    decreases b
  {
    if x in Hidden(b[0]) {
      if HiddenAt(b, [0], x) {
        p := [0];
      } else {
        var j, q := HiddenInBlock(b[0], x);
        assert StmtAt(b, [0]) == Some(b[0]);
        p := [0, j] + q;
        assert p[2..] == q;
      }
    } else {
      var q := HiddenPosition(b[1..], x);
      p := [q[0] + 1] + q[1..];
      assert p[1..] == q[1..] && b[p[0]] == b[1..][q[0]] && StmtAt(b, p) == StmtAt(b[1..], q) by {
        if |q| > 1 {
          assert p[2..] == q[2..];
        }
      }
    }
  }

  lemma {:induction false} HiddenInBlock(st: Stmt, x: string) returns (j: nat, q: Path)
    requires x in Hidden(st) && forall k :: 0 <= k < |OwnExprs(st)| ==> x !in HiddenNames(OwnExprs(st)[k])
    ensures j < |Blocks(st)| && HiddenAt(Blocks(st)[j], q, x)
    decreases st
  {
    if |OwnExprs(st)| > 0 {
      assert x !in HiddenNames(OwnExprs(st)[0]);
    }
    match st
    case If(c, t, f) =>
      if x in HiddenAll(t) {
        q := HiddenPosition(t, x);
        j := 0;
      } else {
        q := HiddenPosition(f, x);
        j := 1;
      }
    case Match(e, arms) =>
      j, q := HiddenInArms(arms, x);
    case While(c, _, b, h, f) =>
      if x in HiddenAll(b) {
        q := HiddenPosition(b, x);
        j := 0;
      } else {
        q := HiddenPosition(f, x);
        j := 1;
      }
    case Foreach(_, src, b) =>
      if x in SourceHidden(src) {
        SourceHiddenIsOwn(st, x);
        assert false;
      }
      q := HiddenPosition(b, x);
      j := 0;
    case Block(b) => q := HiddenPosition(b, x); j := 0;
    case _ => assert false;
  }

  lemma {:induction false} HiddenInArms(arms: seq<Arm>, x: string) returns (j: nat, q: Path)
    requires x in HiddenArms(arms)
    ensures j < |ArmBodies(arms)| && HiddenAt(ArmBodies(arms)[j], q, x)
    decreases arms
  {
    if x in HiddenAll(arms[0].body) {
      q := HiddenPosition(arms[0].body, x);
      j := 0;
    } else {
      var rest, p := HiddenInArms(arms[1..], x);
      j, q := rest + 1, p;
    }
  }

  lemma SourceHiddenIsOwn(st: Stmt, x: string)
    requires st.Foreach? && x in SourceHidden(st.src)
    ensures exists k :: 0 <= k < |OwnExprs(st)| && x in HiddenNames(OwnExprs(st)[k])
  {
    var es := OwnExprs(st);
    if x in HiddenNames(es[0]) {
    } else if x in HiddenNames(es[1]) {
    } else {
      assert x in HiddenNames(es[2]);
    }
  }

  /** A top-level declaration initialised by an await. */
  predicate AwaitDeclares(b: seq<Stmt>, x: string) {
    exists i :: 0 <= i < |b| && b[i].Decl? && b[i].x == x && HasAwait(b[i].e)
  }

  lemma {:induction false} AwaitedDeclarationsIff(b: seq<Stmt>, x: string)
    ensures x in AwaitedDeclarations(b) <==> AwaitDeclares(b, x)
  {
    if b != [] {
      AwaitedDeclarationsIff(b[1..], x);
      if i :| 0 <= i < |b[1..]| && b[1..][i].Decl? && b[1..][i].x == x && HasAwait(b[1..][i].e) {
        assert b[i + 1] == b[1..][i];
      }
      if i :| 0 < i < |b| && b[i].Decl? && b[i].x == x && HasAwait(b[i].e) {
        assert b[1..][i - 1] == b[i];
      }
    }
  }

  // ---------------------------------------------------------------------------------------------
  // Names kept for a split statement

  /** A binding that its arm uses, the item of a `foreach`, or a name in its source. */
  datatype Field = Used | Item | Origin

  predicate Keeps(k: Field, st: Stmt, x: string) {
    match k
    case Used => st.Match? && exists i :: 0 <= i < |st.arms| && x in st.arms[i].binds && x in UsesAll(st.arms[i].body)
    case Item => st.Foreach? && st.item == x
    case Origin => st.Foreach? && x in SourceUses(st.src)
  }

  /** A statement that is split and stands in no statement that is not. */
  function SplitAt(b: seq<Stmt>, p: Path): Option<Stmt>
    decreases |p|
  {
    if p == [] || p[0] >= |b| || !Splits(b[p[0]]) then None
    else if |p| == 1 then Some(b[p[0]])
    else
      var inner := Blocks(b[p[0]]);
      if p[1] < |inner| then SplitAt(inner[p[1]], p[2..]) else None
  }

  ghost predicate KeptAt(k: Field, b: seq<Stmt>, p: Path, x: string) {
    SplitAt(b, p).Some? && Keeps(k, SplitAt(b, p).value, x)
  }

  ghost predicate KeptBySplit(k: Field, b: seq<Stmt>, x: string) {
    exists p: Path :: KeptAt(k, b, p, x)
  }

  function GatheredAll(k: Field, b: seq<Stmt>): set<string> {
    match k
    case Used => MatchFieldsAll(b)
    case Item => ItemsAll(b)
    case Origin => SourcesAll(b)
  }

  function Gathered(k: Field, st: Stmt): set<string> {
    match k
    case Used => MatchFields(st)
    case Item => Items(st)
    case Origin => Sources(st)
  }

  lemma {:induction false} ItemsOfArms(arms: seq<Arm>, x: string)
    ensures x in ItemsArms(arms) <==> exists j :: 0 <= j < |ArmBodies(arms)| && x in ItemsAll(ArmBodies(arms)[j])
  {
    if arms != [] {
      var rest, bodies := arms[1..], ArmBodies(arms);
      ItemsOfArms(rest, x);
      hide ItemsAll;
      assert bodies[0] == arms[0].body && bodies[1..] == ArmBodies(rest);
      forall j | 0 <= j < |ArmBodies(rest)| ensures bodies[j + 1] == ArmBodies(rest)[j] {
      }
      forall j | 0 < j < |bodies| ensures bodies[j] == ArmBodies(rest)[j - 1] {
      }
    }
  }

  lemma {:induction false} SourcesOfArms(arms: seq<Arm>, x: string)
    ensures x in SourcesArms(arms) <==> exists j :: 0 <= j < |ArmBodies(arms)| && x in SourcesAll(ArmBodies(arms)[j])
  {
    if arms != [] {
      var rest, bodies := arms[1..], ArmBodies(arms);
      SourcesOfArms(rest, x);
      hide SourcesAll;
      assert bodies[0] == arms[0].body && bodies[1..] == ArmBodies(rest);
      forall j | 0 <= j < |ArmBodies(rest)| ensures bodies[j + 1] == ArmBodies(rest)[j] {
      }
      forall j | 0 < j < |bodies| ensures bodies[j] == ArmBodies(rest)[j - 1] {
      }
    }
  }

  lemma {:induction false} FieldsOfArms(arms: seq<Arm>, x: string)
    ensures x in MatchFieldsArms(arms) <==>
            || (exists i :: 0 <= i < |arms| && x in arms[i].binds && x in UsesAll(arms[i].body))
            || (exists j :: 0 <= j < |ArmBodies(arms)| && x in MatchFieldsAll(ArmBodies(arms)[j]))
  {
    if arms != [] {
      var rest, bodies := arms[1..], ArmBodies(arms);
      FieldsOfArms(rest, x);
      hide MatchFieldsAll, UsesAll;
      assert bodies[0] == arms[0].body && bodies[1..] == ArmBodies(rest);
      forall j | 0 <= j < |ArmBodies(rest)| ensures bodies[j + 1] == ArmBodies(rest)[j] {
      }
      forall j | 0 < j < |bodies| ensures bodies[j] == ArmBodies(rest)[j - 1] {
      }
      forall i | 0 <= i < |rest| ensures arms[i + 1] == rest[i] {
      }
      forall i | 0 < i < |arms| ensures arms[i] == rest[i - 1] {
      }
    }
  }

  /** What a split statement contributes: its own names and those of its blocks. */
  lemma GatheredIn(k: Field, st: Stmt, x: string)
    requires Splits(st)
    ensures x in Gathered(k, st) <==>
            Keeps(k, st, x) || exists j :: 0 <= j < |Blocks(st)| && x in GatheredAll(k, Blocks(st)[j])
  {
    hide MatchFieldsAll, ItemsAll, SourcesAll, UsesAll;
    var inner := Blocks(st);
    match st
    case If(_, t, f) => assert inner[0] == t && inner[1] == f;
    case Match(_, arms) => FieldsOfArms(arms, x); ItemsOfArms(arms, x); SourcesOfArms(arms, x);
    case While(_, _, b, h, f) => assert inner[0] == b && (h ==> inner[1] == f);
    case Foreach(_, _, b) => assert inner[0] == b;
    case _ =>
  }

  lemma GatheredAllIff(k: Field, b: seq<Stmt>, x: string)
    ensures x in GatheredAll(k, b) <==> exists i :: 0 <= i < |b| && x in Gathered(k, b[i])
  {
    hide MatchFields, Items, Sources;
    if b != [] {
      GatheredAllIff(k, b[1..], x);
      assert x in GatheredAll(k, b) <==> x in Gathered(k, b[0]) || x in GatheredAll(k, b[1..]);
      if i :| 0 <= i < |b[1..]| && x in Gathered(k, b[1..][i]) {
        assert b[i + 1] == b[1..][i];
      }
      if i :| 0 < i < |b| && x in Gathered(k, b[i]) {
        assert b[1..][i - 1] == b[i];
      }
    }
  }

  lemma {:induction false} KeptIsGathered(k: Field, b: seq<Stmt>, p: Path, x: string)
    requires KeptAt(k, b, p, x)
    ensures x in GatheredAll(k, b)
    decreases |p|
  {
    hide GatheredAll, Gathered, Keeps, Splits, Blocks;
    GatheredAllIff(k, b, x);
    GatheredIn(k, b[p[0]], x);
    if |p| > 1 {
      KeptIsGathered(k, Blocks(b[p[0]])[p[1]], p[2..], x);
    }
  }

  lemma {:induction false} GatheredIsKept(k: Field, b: seq<Stmt>, x: string) returns (p: Path)
    requires x in GatheredAll(k, b)
    ensures KeptAt(k, b, p, x)
    decreases |TimelineAll(b)|
  {
    hide GatheredAll, Gathered, Keeps, Splits, TimelineAll, Timeline, TimelineOf;
    GatheredAllIff(k, b, x);
    var i :| 0 <= i < |b| && x in Gathered(k, b[i]);
    OnlySplitsGather(k, b[i], x);
    GatheredIn(k, b[i], x);
    if Keeps(k, b[i], x) {
      p := [i];
    } else {
      var inner := Blocks(b[i]);
      var j :| 0 <= j < |inner| && x in GatheredAll(k, inner[j]);
      TimelineSplit(b, i);
      StmtTimeline(b[i]);
      TimelineOfSplit(inner, j);
      var q := GatheredIsKept(k, inner[j], x);
      p := [i, j] + q;
      assert p[2..] == q;
    }
  }

  lemma OnlySplitsGather(k: Field, st: Stmt, x: string)
    requires x in Gathered(k, st)
    ensures Splits(st)
  {
  }

  /** The names collected for split statements are those that some split statement keeps. */
  lemma KeptBySplitIff(k: Field, b: seq<Stmt>, x: string)
    ensures x in GatheredAll(k, b) <==> KeptBySplit(k, b, x)
  {
    if x in GatheredAll(k, b) {
      var p := GatheredIsKept(k, b, x);
    }
    if p: Path :| KeptAt(k, b, p, x) {
      KeptIsGathered(k, b, p, x);
    }
  }
}
