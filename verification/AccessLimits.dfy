/**
 Four families of programs for which the verdict is wrong, outside the fragment of `AccessRaces`: a
 literal index above a dynamic one, an index operand below the outermost projection, an element of an
 element of a declared region, and an operand of an expression form that the walk does not visit.
 */
module AccessLimits {
  import opened Wrappers
  import opened AccessModel
  import opened AccessSummary
  import opened AccessVerdict
  import opened AccessSemantics
  import opened AccessCoverage
  import opened AccessPlaces
  import opened AccessRegions
  import opened AccessRaces

  const INT: Ty := Named("int")

  // ---------------------------------------------------------------------------------------------
  // Programs of two functions that call nothing

  /** The access set of two call-free functions of different contexts. */
  lemma TwoFunctions(p: Program, c0: string, c1: string, all: seq<Access>)
    requires |p.fns| == 2 && p.fns[0].context == Some(c0) && p.fns[1].context == Some(c1)
    requires Walked(p, 0).calls == [] && Walked(p, 1).calls == []
    requires Labelled(Walked(p, 0).entries, c0) + Labelled(Walked(p, 1).entries, c1) == all
    ensures IsAccessSet(p, all)
  {
    hide Walked, Key, Sound, HasBase, Closed, ExactContexts, Represents, OnlySummaries;
    var ws: Walks := [Walked(p, 0), Walked(p, 1)];
    var s: Summaries := [ws[0].entries, ws[1].entries];
    var cs: ContextSets := [{c0}, {c1}];
    CallFreeSummaries(p, ws, s);
    CallFreeContexts(p, ws, cs);
    PairCollected(ws[0].entries, ws[1].entries, c0, c1, all);
    assert AreWalks(p, ws);
  }

  lemma PairCollected(first: seq<Entry>, second: seq<Entry>, c0: string, c1: string, all: seq<Access>)
    requires Labelled(first, c0) + Labelled(second, c1) == all
    ensures Represents(all, [first, second], [{c0}, {c1}]) && OnlySummaries(all, [first, second], [{c0}, {c1}])
  {
    var s, cs := [first, second], [{c0}, {c1}];
    forall f, i | 0 <= f < |s| && 0 <= i < |s[f]| ensures Access(s[f][i], cs[f]) in all {
      if f == 0 {
        assert all[i] == Access(s[f][i], cs[f]);
      } else {
        assert all[|first| + i] == Access(s[f][i], cs[f]);
      }
    }
    forall a | a in all ensures exists f, i :: 0 <= f < |s| && 0 <= i < |s[f]| && a == Access(s[f][i], cs[f]) {
      var k :| 0 <= k < |all| && all[k] == a;
      if k < |first| {
        assert a == Access(s[0][k], cs[0]);
      } else {
        assert a == Access(s[1][k - |first|], cs[1]);
      }
    }
  }

  lemma CallFreeSummaries(p: Program, ws: Walks, s: Summaries)
    requires |ws| == |s| && forall f :: 0 <= f < |ws| ==> ws[f].calls == [] && s[f] == ws[f].entries
    ensures Sound(p, ws, s) && HasBase(ws, s) && Closed(p, ws, s)
  {
    forall f, i | 0 <= f < |s| && 0 <= i < |s[f]| ensures InLeast(p, ws, f, s[f][i]) {
      assert Derived(p, ws, f, s[f][i], 0);
    }
  }

  lemma CallFreeContexts(p: Program, ws: Walks, cs: ContextSets)
    requires |ws| == |cs| == |p.fns| && forall f :: 0 <= f < |ws| ==> ws[f].calls == []
    requires forall f :: 0 <= f < |cs| ==> p.fns[f].context.Some? && cs[f] == {p.fns[f].context.value}
    ensures ExactContexts(p, ws, cs)
  {
    forall f, c | 0 <= f < |cs| ensures c in cs[f] <==> RunsIn(p, ws, f, c) {
      if c in cs[f] {
        assert RunsWithin(p, ws, f, c, 0);
      }
      if RunsIn(p, ws, f, c) {
        var n: nat :| RunsWithin(p, ws, f, c, n);
      }
    }
  }

  function Labelled(entries: seq<Entry>, c: string): (r: seq<Access>)
    ensures |r| == |entries| && forall i :: 0 <= i < |r| ==> r[i] == Access(entries[i], {c})
  {
    seq(|entries|, i requires 0 <= i < |entries| => Access(entries[i], {c}))
  }

  /** Each context starts its function on the same objects and performs one access. */
  function TwoAccesses(a: Action, x: Place, b: Action, y: Place, args: seq<Place>): seq<Move>
    requires a.Touch? && b.Touch?
  {
    [Start("A", 0, args), Start("B", 1, args), Perform("A", a.kind, a.e, x), Perform("B", b.kind, b.e, y)]
  }

  lemma TwoAccessesRun(p: Program, objects: seq<Ty>, a: Action, x: Place, b: Action, y: Place, args: seq<Place>)
    requires |p.fns| == 2 && p.fns[0].context == Some("A") && p.fns[1].context == Some("B")
    requires a.Touch? && b.Touch? && x.Shared? && y.Shared?
    requires WholeObjects(objects, p.fns[0].params, args) && WholeObjects(objects, p.fns[1].params, args)
    requires a in BlockActions(p.fns[0].body) && Denotes(p.fns[0].params, args, a.e, x)
    requires b in BlockActions(p.fns[1].body) && Denotes(p.fns[1].params, args, b.e, y)
    ensures var moves := TwoAccesses(a, x, b, y, args);
            Legal(p, objects, moves) && Play(moves).history ==
            [Event("A", a.kind, x.obj, x.path), Event("B", b.kind, y.obj, y.path)]
  {
    assert |args| == |p.fns[0].params| == |p.fns[1].params|;
    hide BlockActions, Denotes, WholeObjects;
    var moves := TwoAccesses(a, x, b, y, args);
    var w1 := World(map["A" := [Frame(0, args)]], []);
    var w2 := World(map["A" := [Frame(0, args)], "B" := [Frame(1, args)]], []);
    assert moves[..1] == [moves[0]] && moves[..1][..0] == [];
    assert Play(moves[..1]) == w1 && Legal(p, objects, moves[..1]);
    assert moves[..2][..1] == moves[..1] && moves[..2][1] == moves[1];
    assert Play(moves[..2]) == w2 && Legal(p, objects, moves[..2]);
    assert moves[..3][..2] == moves[..2] && moves[..3][2] == moves[2];
    var w3 := w2.(history := [Event("A", a.kind, x.obj, x.path)]);
    assert Play(moves[..3]) == w3 && Legal(p, objects, moves[..3]);
    assert moves[..4] == moves;
  }

  lemma RacesOn(p: Program, subject: Ty, objects: seq<Ty>, moves: seq<Move>)
    requires Legal(p, objects, moves) && |Play(moves).history| == 2
    requires var x, y := Play(moves).history[0], Play(moves).history[1];
             x.obj < |objects| && objects[x.obj] == subject && Conflicting(x, y)
             && !(Indivisible(x.kind) && Indivisible(y.kind))
    ensures !RaceFree(p, subject)
  {
    hide Legal, Play;
  }

  // ---------------------------------------------------------------------------------------------
  // A literal index above a dynamic one

  const Grid: Ty := ArrayOf(Named("S"), 1)

  const GridStructs: map<string, seq<Field>> :=
    map["S" := [Field("y", INT, None), Field("x", ArrayOf(Named("X"), 1), None)],
        "X" := [Field("pad", INT, None), Field("y", INT, None)]]

  function Cell(index: Expr): Expr {
    FieldOf(IndexOf(FieldOf(IndexOf(Name("p", 0), [index], 0), "x", None, 0), [Lit(2)], 0), "y", None, 0)
  }

  const GridParams: seq<Param> := [Param("p", Grid)]

  /** One context writes `p[i].x[2].y`, the other `p[0].x[2].y`. */
  function GridProgram(): Program {
    Program(GridStructs,
            [Fn("f", GridParams, Some("A"), [Assign(Cell(Name("i", 0)), Lit(1), 1)]),
             Fn("g", GridParams, Some("B"), [Assign(Cell(Lit(0)), Lit(2), 2)])])
  }

  function GridSubject(fn: nat, path: seq<Element>, offset: int): Subject {
    Subject(Parameter(fn, 0, "p", Grid), path, INT, "", offset, 1, Interval)
  }

  const Reset: seq<Element> := [DynamicIndex, FieldAt("x", -1), IndexAt(2), FieldAt("y", 0)]

  const Literal: seq<Element> := [IndexAt(0), FieldAt("x", 1), IndexAt(2), FieldAt("y", 1)]

  lemma GridResolved(fn: nat)
    ensures Own(GridStructs, GridParams, fn, Cell(Name("i", 0))) == GridSubject(fn, Reset, 2)
    ensures Own(GridStructs, GridParams, fn, Cell(Lit(0))) == GridSubject(fn, Literal, 2)
  {
    ParamLocalsAt(fn, GridParams, "p");
    var own := ParamLocals(fn, GridParams);
    var p := Plain(Parameter(fn, 0, "p", Grid), Grid, Exact);
    assert Resolve(GridStructs, own, fn, Name("p", 0)) == p;
    assert FieldIndex(GridStructs["S"], "x") == 1 && FieldIndex(GridStructs["S"], "y") == 0;
    assert FieldIndex(GridStructs["X"], "y") == 1 by { assert GridStructs["X"][1..] == [Field("y", INT, None)]; }
    // Dynamic: the array type is kept, so the field is not found and the next literal index misreads the element type.
    var d1 := p.(path := [DynamicIndex], resolution := Opaque);
    var d2 := d1.(path := [DynamicIndex, FieldAt("x", -1)]);
    var d3 := d2.(path := [DynamicIndex, FieldAt("x", -1), IndexAt(2)], ty := Named("S"), offset := 2, extent := 1,
                  resolution := Interval);
    CellResolved(own, fn, Name("i", 0), d1, d2, d3, GridSubject(fn, Reset, 2));
    // Literal: exact.
    var e1 := p.(path := [IndexAt(0)], ty := Named("S"), extent := 1, resolution := Interval);
    var e2 := e1.(path := [IndexAt(0), FieldAt("x", 1)], ty := ArrayOf(Named("X"), 1));
    var e3 := e2.(path := [IndexAt(0), FieldAt("x", 1), IndexAt(2)], ty := Named("X"), offset := 2);
    CellResolved(own, fn, Lit(0), e1, e2, e3, GridSubject(fn, Literal, 2));
  }

  lemma CellResolved(own: Locals, fn: nat, index: Expr, s1: Subject, s2: Subject, s3: Subject, s4: Subject)
    requires Indexed(Resolve(GridStructs, own, fn, Name("p", 0)), [index]) == s1
    requires Projected(GridStructs, s1, "x") == s2 && Indexed(s2, [Lit(2)]) == s3
             && Projected(GridStructs, s3, "y") == s4
    ensures Resolve(GridStructs, own, fn, Cell(index)) == s4
  {
    hide Indexed, Projected;
    var e1 := IndexOf(Name("p", 0), [index], 0);
    assert Resolve(GridStructs, own, fn, e1) == s1;
    var e2 := FieldOf(e1, "x", None, 0);
    assert Resolve(GridStructs, own, fn, e2) == s2;
    var e3 := IndexOf(e2, [Lit(2)], 0);
    assert Resolve(GridStructs, own, fn, e3) == s3;
  }

  lemma OneWrite(p: Program, f: nat, target: Expr, value: int, site: nat)
    requires f < |p.fns| && p.fns[f].body == [Assign(target, Lit(value), site)]
    requires target.FieldOf? || (target.IndexOf? && |target.indices| == 1 && target.indices[0].Lit?)
    requires Own(p.structs, p.fns[f].params, f, target).root.Parameter?
    ensures Walked(p, f).calls == [] && Walked(p, f).entries ==
            [Entry(Write, Own(p.structs, p.fns[f].params, f, target), f, 1, site)]
  {
    hide Resolve;
    var st := Assign(target, Lit(value), site);
    var w := Walk(ParamLocals(f, p.fns[f].params), [], [], 0);
    var r := Noted(w, Write, Own(p.structs, p.fns[f].params, f, target), f, site);
    assert WalkOperands(p.structs, f, r, target) == r by {
      if target.IndexOf? {
        LiteralOperands(p.structs, f, r, target);
      }
    }
    assert WalkStmt(p.structs, f, w, st) == r;
    OneStatement(p, f, st);
  }

  lemma LiteralOperands(structs: Structs, f: nat, w: Walk, target: Expr)
    requires target.IndexOf? && |target.indices| == 1 && target.indices[0].Lit?
    ensures WalkOperands(structs, f, w, target) == w
  {
    var one := target.indices;
    assert one[1..] == [];
    assert WalkAll(structs, f, w, one) == WalkAll(structs, f, WalkExpr(structs, f, w, one[0]), one[1..]);
  }

  lemma OneStatement(p: Program, f: nat, st: Stmt)
    requires f < |p.fns| && p.fns[f].body == [st]
    ensures Walked(p, f) == WalkStmt(p.structs, f, Walk(ParamLocals(f, p.fns[f].params), [], [], 0), st)
  {
    hide WalkStmt;
    var body := p.fns[f].body;
    assert body[0] == st && body[1..] == [];
    var w := Walk(ParamLocals(f, p.fns[f].params), [], [], 0);
    assert WalkBlock(p.structs, f, w, body) == WalkBlock(p.structs, f, WalkStmt(p.structs, f, w, st), body[1..]);
  }

  lemma GridClash(a: Subject, b: Subject)
    requires a == GridSubject(0, Reset, 2) && b == GridSubject(1, Literal, 2)
    ensures !SubjectsOverlap(a, b)
  {
    ClashAt(a.path, b.path);
    assert ElementsClash(a.path[3], b.path[3]);
  }

  /** The two writes can hit the same field, yet the verdict is Proven. */
  lemma ResetIndexRaces()
    ensures exists all :: IsAccessSet(GridProgram(), all) && Justified(all, Grid)
    ensures !RaceFree(GridProgram(), Grid)
  {
    var p := GridProgram();
    GridResolved(0);
    GridResolved(1);
    OneWrite(p, 0, Cell(Name("i", 0)), 1, 1);
    OneWrite(p, 1, Cell(Lit(0)), 2, 2);
    var a := Access(Entry(Write, GridSubject(0, Reset, 2), 0, 1, 1), {"A"});
    var b := Access(Entry(Write, GridSubject(1, Literal, 2), 1, 1, 2), {"B"});
    var all := [a, b];
    assert Labelled(Walked(p, 0).entries, "A") == [a] && Labelled(Walked(p, 1).entries, "B") == [b];
    TwoFunctions(p, "A", "B", all);
    GridClash(a.entry.subject, b.entry.subject);
    DisjointPair(a, b, Grid);
    GridRace();
  }

  lemma DisjointPair(a: Access, b: Access, subject: Ty)
    requires About(a, subject) && About(b, subject) && Resolved(a) && Resolved(b)
    requires !SubjectsOverlap(a.entry.subject, b.entry.subject)
    ensures Justified([a, b], subject)
  {
    hide SubjectsOverlap;
    OverlapIsSymmetric(a.entry.subject, b.entry.subject);
    assert a in [a, b];
    NoSelfConflict(a);
    NoSelfConflict(b);
  }

  lemma GridRace()
    ensures !RaceFree(GridProgram(), Grid)
  {
    hide Denotes, RaceFree, Legal, Cell, BlockActions;
    var p := GridProgram();
    var x := Shared(0, [IndexStep(0), FieldStep("x"), IndexStep(2), FieldStep("y")]);
    var args := [Shared(0, [])];
    GridDenotes(Name("i", 0), args, x);
    GridDenotes(Lit(0), args, x);
    var a, b := Touch(Write, Cell(Name("i", 0))), Touch(Write, Cell(Lit(0)));
    GridWrites();
    TwoAccessesRun(p, [Grid], a, x, b, x, args);
    RacesOn(p, Grid, [Grid], TwoAccesses(a, x, b, x, args));
  }

  lemma GridWrites()
    ensures Touch(Write, Cell(Name("i", 0))) in BlockActions(GridProgram().fns[0].body)
    ensures Touch(Write, Cell(Lit(0))) in BlockActions(GridProgram().fns[1].body)
  {
    hide Cell;
    var p := GridProgram();
    assert p.fns[0].body[1..] == [] && p.fns[1].body[1..] == [];
    assert StmtActions(p.fns[0].body[0])[0] == Touch(Write, Cell(Name("i", 0)));
    assert StmtActions(p.fns[1].body[0])[0] == Touch(Write, Cell(Lit(0)));
    assert BlockActions(p.fns[0].body)[0] == Touch(Write, Cell(Name("i", 0)));
    assert BlockActions(p.fns[1].body)[0] == Touch(Write, Cell(Lit(0)));
  }

  lemma GridDenotes(index: Expr, args: seq<Place>, x: Place)
    requires args == [Shared(0, [])] && x == Shared(0, [IndexStep(0), FieldStep("x"), IndexStep(2), FieldStep("y")])
    requires index == Name("i", 0) || index == Lit(0)
    ensures Denotes(GridParams, args, Cell(index), x)
  {
    var base := Name("p", 0);
    assert Denotes(GridParams, args, base, Shared(0, []));
    hide Denotes, GridParams;
    var p1 := [] + [IndexStep(0)];
    var p2 := p1 + [FieldStep("x")];
    var p3 := p2 + [IndexStep(2)];
    var e1 := IndexOf(base, [index], 0);
    var e2 := FieldOf(e1, "x", None, 0);
    var e3 := IndexOf(e2, [Lit(2)], 0);
    DenotesIndex(GridParams, args, base, index, 0, [], 0);
    DenotesField(GridParams, args, e1, "x", None, 0, p1);
    DenotesIndex(GridParams, args, e2, Lit(2), 0, p2, 2);
    DenotesField(GridParams, args, e3, "y", None, 0, p3);
    GridPath(p1, p2, p3, x.path);
  }

  lemma GridPath(p1: seq<Step>, p2: seq<Step>, p3: seq<Step>, path: seq<Step>)
    requires p1 == [] + [IndexStep(0)] && p2 == p1 + [FieldStep("x")] && p3 == p2 + [IndexStep(2)]
    requires path == [IndexStep(0), FieldStep("x"), IndexStep(2), FieldStep("y")]
    ensures path == p3 + [FieldStep("y")]
  {
  }

  lemma DenotesField(params: seq<Param>, args: seq<Place>, r: Expr, f: string, region: Option<Region>, o: nat,
                     path: seq<Step>)
    requires |args| == |params| && Denotes(params, args, r, Shared(o, path))
    ensures Denotes(params, args, FieldOf(r, f, region, 0), Shared(o, path + [FieldStep(f)]))
  {
    assert Without(path + [FieldStep(f)], 1) == path;
  }

  lemma DenotesIndex(params: seq<Param>, args: seq<Place>, b: Expr, index: Expr, o: nat, path: seq<Step>, i: int)
    requires |args| == |params| && Denotes(params, args, b, Shared(o, path)) && StepFits(index, IndexStep(i))
    ensures Denotes(params, args, IndexOf(b, [index], 0), Shared(o, path + [IndexStep(i)]))
  {
    var longer := path + [IndexStep(i)];
    assert Without(longer, 1) == path && longer[|longer| - 1..] == [IndexStep(i)];
  }

  // ---------------------------------------------------------------------------------------------
  // An index operand below the outermost projection

  const Queue: Ty := Named("Q")

  const QueueStructs: map<string, seq<Field>> := map["Q" := [Field("k", INT, None)], "S" := [Field("x", INT, None)]]

  const QueueParams: seq<Param> := [Param("p", ArrayOf(Named("S"), 1)), Param("q", Queue)]

  const Slot: Expr := FieldOf(Name("q", 0), "k", None, 0)

  const Deep: Expr := FieldOf(IndexOf(Name("p", 0), [Slot], 0), "x", None, 0)

  /** One context reads `p[q.k].x`, and with it `q.k`; the other writes `q.k`. */
  function QueueProgram(): Program {
    Program(QueueStructs,
            [Fn("f", QueueParams, Some("A"), [Do(Deep)]), Fn("g", QueueParams, Some("B"), [Assign(Slot, Lit(2), 2)])])
  }

  lemma QueueResolved(fn: nat)
    ensures Own(QueueStructs, QueueParams, fn, Deep).root == Parameter(fn, 0, "p", ArrayOf(Named("S"), 1))
    ensures Own(QueueStructs, QueueParams, fn, Deep).ty == ArrayOf(Named("S"), 1)
    ensures Own(QueueStructs, QueueParams, fn, Slot).root == Parameter(fn, 1, "q", Queue)
    ensures !Own(QueueStructs, QueueParams, fn, Slot).resolution.Opaque?
  {
    ParamLocalsAt(fn, QueueParams, "p");
    ParamLocalsAt(fn, QueueParams, "q");
    assert QueueParams[..1] == [QueueParams[0]];
    assert ParamIndex(QueueParams, "p") == Some(0) && ParamIndex(QueueParams, "q") == Some(1);
    var own := ParamLocals(fn, QueueParams);
    var p := Plain(Parameter(fn, 0, "p", ArrayOf(Named("S"), 1)), ArrayOf(Named("S"), 1), Exact);
    assert Resolve(QueueStructs, own, fn, Name("p", 0)) == p;
    assert Resolve(QueueStructs, own, fn, IndexOf(Name("p", 0), [Slot], 0)) ==
           p.(path := [DynamicIndex], resolution := Opaque);
    var q := Plain(Parameter(fn, 1, "q", Queue), Queue, Exact);
    assert Resolve(QueueStructs, own, fn, Name("q", 0)) == q;
    assert Own(QueueStructs, QueueParams, fn, Slot) == Projected(QueueStructs, q, "k");
  }

  /** The read of `q.k` is never recorded, so `Q` seems confined to one context. */
  lemma HiddenOperandRaces()
    ensures exists all :: IsAccessSet(QueueProgram(), all) && Justified(all, Queue)
    ensures !RaceFree(QueueProgram(), Queue)
  {
    var p := QueueProgram();
    QueueResolved(0);
    QueueResolved(1);
    OneWrite(p, 1, Slot, 2, 2);
    var w := Walk(ParamLocals(0, QueueParams), [], [], 0);
    var r := Noted(w, Read, Own(QueueStructs, QueueParams, 0, Deep), 0, 0);
    assert WalkExpr(QueueStructs, 0, w, Deep) == r by { hide Resolve; }
    OneStatement(p, 0, Do(Deep));
    var a := Access(Entry(Read, Own(QueueStructs, QueueParams, 0, Deep), 0, 1, 0), {"A"});
    var b := Access(Entry(Write, Own(QueueStructs, QueueParams, 1, Slot), 1, 1, 2), {"B"});
    var all := [a, b];
    assert Labelled(Walked(p, 0).entries, "A") == [a] && Labelled(Walked(p, 1).entries, "B") == [b];
    TwoFunctions(p, "A", "B", all);
    OnlyOne(a, b, Queue);
    QueueRace();
  }

  lemma OnlyOne(a: Access, b: Access, subject: Ty)
    requires !About(a, subject) && About(b, subject) && Resolved(b)
    ensures Justified([a, b], subject)
  {
    hide SubjectsOverlap;
    assert b in [a, b];
  }

  lemma QueueRace()
    ensures !RaceFree(QueueProgram(), Queue)
  {
    hide Denotes, RaceFree, Legal, BlockActions;
    var p := QueueProgram();
    var x := Shared(0, [FieldStep("k")]);
    var args := [Private, Shared(0, [])];
    assert QueueParams[..1] == [QueueParams[0]];
    SlotDenotes(args, x);
    var a, b := Touch(Read, Slot), Touch(Write, Slot);
    QueueTouches();
    TwoAccessesRun(p, [Queue], a, x, b, x, args);
    RacesOn(p, Queue, [Queue], TwoAccesses(a, x, b, x, args));
  }

  lemma SlotDenotes(args: seq<Place>, x: Place)
    requires args == [Private, Shared(0, [])] && x == Shared(0, [FieldStep("k")])
    ensures Denotes(QueueParams, args, Slot, x)
  {
    assert QueueParams[..1] == [QueueParams[0]];
    assert Without(x.path, 1) == [];
    assert Denotes(QueueParams, args, Name("q", 0), Shared(0, []));
  }

  lemma QueueTouches()
    ensures Touch(Read, Slot) in BlockActions(QueueProgram().fns[0].body)
    ensures Touch(Write, Slot) in BlockActions(QueueProgram().fns[1].body)
  {
    var p := QueueProgram();
    var a, b := Touch(Read, Slot), Touch(Write, Slot);
    assert p.fns[0].body[1..] == [] && p.fns[1].body[1..] == [];
    assert Actions(Slot) == [a] + Addressing(Slot);
    assert ActionsOf([Slot]) == Actions(Slot) + ActionsOf([Slot][1..]);
    assert Addressing(Deep) == Addressing(Name("p", 0)) + ActionsOf([Slot]);
    assert Actions(Deep) == [Touch(Read, Deep)] + Addressing(Deep);
    assert StmtActions(p.fns[0].body[0]) == Actions(Deep);
    assert BlockActions(p.fns[0].body)[1] == a;
    assert StmtActions(p.fns[1].body[0])[0] == b && BlockActions(p.fns[1].body)[0] == b;
  }

  // ---------------------------------------------------------------------------------------------
  // An element of an element of a declared region

  const Rack: Ty := Named("L")

  const Bytes: Region := Region("r", 0, 64)

  const RackStructs: map<string, seq<Field>> :=
    map["L" := [Field("f", ArrayOf(Named("Row"), 1), Some(Bytes))], "Row" := [Field("g", ArrayOf(INT, 1), None)]]

  const RackParams: seq<Param> := [Param("p", Rack)]

  const Shelves: Expr := FieldOf(Name("p", 0), "f", Some(Bytes), 0)

  const Shelf: Expr := IndexOf(Shelves, [Lit(2)], 0)

  const Bin: Expr := IndexOf(FieldOf(Shelf, "g", None, 0), [Lit(3)], 0)

  /** One context writes `p.f[2]`, the other the part `p.f[2].g[3]` of it. */
  function RackProgram(): Program {
    Program(RackStructs,
            [Fn("f", RackParams, Some("A"), [Assign(Shelf, Lit(1), 1)]),
             Fn("g", RackParams, Some("B"), [Assign(Bin, Lit(2), 2)])])
  }

  function RackSubject(fn: nat, path: seq<Element>, ty: Ty, offset: int): Subject {
    Subject(Parameter(fn, 0, "p", Rack), path, ty, "r", offset, 1, Interval)
  }

  const ShelfPath: seq<Element> := [FieldAt("f", 0), IndexAt(2)]

  const BinPath: seq<Element> := [FieldAt("f", 0), IndexAt(2), FieldAt("g", 0), IndexAt(3)]

  lemma RackResolved(fn: nat)
    ensures Own(RackStructs, RackParams, fn, Shelf) == RackSubject(fn, ShelfPath, Named("Row"), 2)
    ensures Own(RackStructs, RackParams, fn, Bin) == RackSubject(fn, BinPath, INT, 5)
  {
    ParamLocalsAt(fn, RackParams, "p");
    var own := ParamLocals(fn, RackParams);
    var p := Plain(Parameter(fn, 0, "p", Rack), Rack, Exact);
    assert Resolve(RackStructs, own, fn, Name("p", 0)) == p;
    var f := Projected(RackStructs, p, "f");
    var s := Resolve(RackStructs, own, fn, Shelves);
    assert s == Placed(f, Some(Bytes)) == f.(region := "r", offset := 0, extent := 64, resolution := Interval);
    var row := Resolve(RackStructs, own, fn, Shelf);
    assert row == Indexed(s, [Lit(2)]) == RackSubject(fn, ShelfPath, Named("Row"), 2);
    var g := Projected(RackStructs, row, "g");
    assert Resolve(RackStructs, own, fn, Bin) == Indexed(g, [Lit(3)]);
  }

  /** The second write is to a part of what the first writes, yet the verdict is Proven. */
  lemma NestedElementRaces()
    ensures exists all :: IsAccessSet(RackProgram(), all) && Justified(all, Rack)
    ensures !RaceFree(RackProgram(), Rack)
  {
    hide RackProgram;
    var a := Access(Entry(Write, RackSubject(0, ShelfPath, Named("Row"), 2), 0, 1, 1), {"A"});
    var b := Access(Entry(Write, RackSubject(1, BinPath, INT, 5), 1, 1, 2), {"B"});
    RackAccesses(a, b);
    assert !SubjectsOverlap(a.entry.subject, b.entry.subject);
    DisjointPair(a, b, Rack);
    RackRace();
  }

  lemma RackAccesses(a: Access, b: Access)
    requires a == Access(Entry(Write, RackSubject(0, ShelfPath, Named("Row"), 2), 0, 1, 1), {"A"})
    requires b == Access(Entry(Write, RackSubject(1, BinPath, INT, 5), 1, 1, 2), {"B"})
    ensures IsAccessSet(RackProgram(), [a, b])
  {
    hide Shelf, Bin, RackStructs;
    var p := RackProgram();
    RackResolved(0);
    RackResolved(1);
    OneWrite(p, 0, Shelf, 1, 1) by { RackTargets(); }
    OneWrite(p, 1, Bin, 2, 2) by { RackTargets(); }
    assert Labelled(Walked(p, 0).entries, "A") == [a] && Labelled(Walked(p, 1).entries, "B") == [b];
    TwoFunctions(p, "A", "B", [a, b]);
  }

  lemma RackTargets()
    ensures Shelf.IndexOf? && |Shelf.indices| == 1 && Shelf.indices[0].Lit?
    ensures Bin.IndexOf? && |Bin.indices| == 1 && Bin.indices[0].Lit?
  {
  }

  lemma RackRace()
    ensures !RaceFree(RackProgram(), Rack)
  {
    hide Denotes, RaceFree, Legal, BlockActions, Shelf, Bin;
    var p := RackProgram();
    var args := [Shared(0, [])];
    var x := Shared(0, [FieldStep("f"), IndexStep(2)]);
    var y := Shared(0, [FieldStep("f"), IndexStep(2), FieldStep("g"), IndexStep(3)]);
    RackDenotes(args, x, y);
    var a, b := Touch(Write, Shelf), Touch(Write, Bin);
    RackWrites();
    TwoAccessesRun(p, [Rack], a, x, b, y, args);
    assert x.path <= y.path;
    RacesOn(p, Rack, [Rack], TwoAccesses(a, x, b, y, args));
  }

  lemma RackWrites()
    ensures Touch(Write, Shelf) in BlockActions(RackProgram().fns[0].body)
    ensures Touch(Write, Bin) in BlockActions(RackProgram().fns[1].body)
  {
    hide Shelf, Bin;
    var p := RackProgram();
    assert p.fns[0].body[1..] == [] && p.fns[1].body[1..] == [];
    assert StmtActions(p.fns[0].body[0])[0] == Touch(Write, Shelf) == BlockActions(p.fns[0].body)[0];
    assert StmtActions(p.fns[1].body[0])[0] == Touch(Write, Bin) == BlockActions(p.fns[1].body)[0];
  }

  lemma RackDenotes(args: seq<Place>, x: Place, y: Place)
    requires args == [Shared(0, [])] && x == Shared(0, [FieldStep("f"), IndexStep(2)])
    requires y == Shared(0, [FieldStep("f"), IndexStep(2), FieldStep("g"), IndexStep(3)])
    ensures Denotes(RackParams, args, Shelf, x) && Denotes(RackParams, args, Bin, y)
  {
    assert Denotes(RackParams, args, Name("p", 0), Shared(0, []));
    hide Denotes, RackParams;
    var p1 := [] + [FieldStep("f")];
    var p2 := p1 + [IndexStep(2)];
    var p3 := p2 + [FieldStep("g")];
    DenotesField(RackParams, args, Name("p", 0), "f", Some(Bytes), 0, []);
    DenotesIndex(RackParams, args, Shelves, Lit(2), 0, p1, 2);
    assert p2 == x.path;
    DenotesField(RackParams, args, Shelf, "g", None, 0, p2);
    DenotesIndex(RackParams, args, FieldOf(Shelf, "g", None, 0), Lit(3), 0, p3, 3);
    assert p3 + [IndexStep(3)] == y.path;
  }

  // ---------------------------------------------------------------------------------------------
  // Operands of a cast, `interpret`, `?` or `!`

  const Cast: Expr := Skipped([Slot])

  /** One context reads `q.k as long`, the other writes `q.k`. */
  function CastProgram(): Program {
    Program(QueueStructs,
            [Fn("f", QueueParams, Some("A"), [Do(Cast)]), Fn("g", QueueParams, Some("B"), [Assign(Slot, Lit(2), 2)])])
  }

  /** The read is not recorded at all, so `Q` seems confined to one context. */
  lemma SkippedOperandRaces()
    ensures exists all :: IsAccessSet(CastProgram(), all) && Justified(all, Queue)
    ensures !RaceFree(CastProgram(), Queue)
  {
    hide RaceFree, IsAccessSet;
    var p := CastProgram();
    QueueResolved(1);
    var b := Access(Entry(Write, Own(QueueStructs, QueueParams, 1, Slot), 1, 1, 2), {"B"});
    CastAccesses(b);
    OnlyThat(b, Queue);
    CastRace();
  }

  lemma CastAccesses(b: Access)
    requires b == Access(Entry(Write, Own(QueueStructs, QueueParams, 1, Slot), 1, 1, 2), {"B"})
    ensures IsAccessSet(CastProgram(), [b])
  {
    hide Own, IsAccessSet;
    var p := CastProgram();
    QueueResolved(1);
    OneWrite(p, 1, Slot, 2, 2);
    var w := Walk(ParamLocals(0, QueueParams), [], [], 0);
    OneStatement(p, 0, Do(Cast));
    assert Walked(p, 0) == w;
    hide Walked;
    assert Labelled(Walked(p, 0).entries, "A") == [] && Labelled(Walked(p, 1).entries, "B") == [b];
    TwoFunctions(p, "A", "B", [b]);
  }

  lemma OnlyThat(b: Access, subject: Ty)
    requires About(b, subject) && Resolved(b)
    ensures Justified([b], subject)
  {
    hide SubjectsOverlap;
    assert b in [b];
  }

  lemma CastRace()
    ensures !RaceFree(CastProgram(), Queue)
  {
    hide Denotes, RaceFree, Legal, BlockActions;
    var p := CastProgram();
    var x := Shared(0, [FieldStep("k")]);
    var args := [Private, Shared(0, [])];
    assert QueueParams[..1] == [QueueParams[0]];
    SlotDenotes(args, x);
    var a, b := Touch(Read, Slot), Touch(Write, Slot);
    CastTouches();
    TwoAccessesRun(p, [Queue], a, x, b, x, args);
    RacesOn(p, Queue, [Queue], TwoAccesses(a, x, b, x, args));
  }

  lemma CastTouches()
    ensures Touch(Read, Slot) in BlockActions(CastProgram().fns[0].body)
    ensures Touch(Write, Slot) in BlockActions(CastProgram().fns[1].body)
  {
    var p := CastProgram();
    var a, b := Touch(Read, Slot), Touch(Write, Slot);
    assert p.fns[0].body[1..] == [] && p.fns[1].body[1..] == [];
    assert Actions(Slot) == [a] + Addressing(Slot);
    assert ActionsOf([Slot]) == Actions(Slot) + ActionsOf([Slot][1..]);
    assert StmtActions(p.fns[0].body[0]) == ActionsOf([Slot]);
    assert BlockActions(p.fns[0].body)[0] == a;
    assert StmtActions(p.fns[1].body[0])[0] == b && BlockActions(p.fns[1].body)[0] == b;
  }

  /** The walk of such a form misses nothing exactly when its operands touch no parameter and call nothing. */
  lemma SkippedMissesNothingIff(structs: Structs, params: seq<Param>, fn: nat, w: Walk, e: Expr)
    requires e.Skipped? && OwnLocals(params, fn, w.locals) && w.entries == [] && w.calls == []
    ensures RecordedAll(structs, params, fn, WalkExpr(structs, fn, w, e), Actions(e)) <==>
            forall a :: a in ActionsOf(e.operands) ==> a.Touch? && !Rooted(params, a.e)
  {
    hide Resolve, Own, Rooted, OwnLocals, RecordedAll;
    WalkMissesNothingIff(structs, params, fn, w, e);
    assert Actions(e) == ActionsOf(e.operands) && Visited(e) == [];
    forall a: Action ensures Stands(structs, params, fn, [], a) <==> a.Touch? && !Rooted(params, a.e) {
      NothingStands(structs, params, fn, a);
    }
  }

  lemma NothingStands(structs: Structs, params: seq<Param>, fn: nat, a: Action)
    ensures Stands(structs, params, fn, [], a) <==> a.Touch? && !Rooted(params, a.e)
  {
  }

  // ---------------------------------------------------------------------------------------------
  // What lies below a field projection

  /** The action reads what the projection itself denotes, or nothing another context could see. */
  ghost predicate Rereads(structs: Structs, params: seq<Param>, fn: nat, e: Expr, a: Action) {
    a.Touch? && (Rooted(params, a.e) ==>
                   a.kind == Read && Rooted(params, e) && Own(structs, params, fn, a.e) == Own(structs, params, fn, e))
  }

  /** The walk of a field projection misses nothing exactly when the indices below it only read the projection again. */
  lemma FieldMissesNothingIff(structs: Structs, params: seq<Param>, fn: nat, w: Walk, e: Expr)
    requires e.FieldOf? && OwnLocals(params, fn, w.locals) && w.entries == [] && w.calls == []
    ensures RecordedAll(structs, params, fn, WalkExpr(structs, fn, w, e), Actions(e)) <==>
            forall a :: a in Addressing(e.receiver) ==> Rereads(structs, params, fn, e, a)
  {
    hide Resolve, WalkExpr, Rooted, Own, Addressing, OwnLocals, RecordedAll, Rereads, Stands;
    WalkMissesNothingIff(structs, params, fn, w, e);
    FieldActions(e);
    forall a | a in Actions(e)
      ensures Stands(structs, params, fn, Visited(e), a) <==> Rereads(structs, params, fn, e, a)
    {
      StandsIfRereads(structs, params, fn, e, a);
    }
    assert Rereads(structs, params, fn, e, Touch(Read, e)) by { ItselfRereads(structs, params, fn, e); }
  }

  lemma ItselfRereads(structs: Structs, params: seq<Param>, fn: nat, e: Expr)
    ensures Rereads(structs, params, fn, e, Touch(Read, e))
  {
  }

  lemma StandsIfRereads(structs: Structs, params: seq<Param>, fn: nat, e: Expr, a: Action)
    requires e.FieldOf?
    ensures Stands(structs, params, fn, Visited(e), a) <==> Rereads(structs, params, fn, e, a)
  {
    hide Rooted, Own;
    assert Visited(e) == [Touch(Read, e)];
    if a.Touch? && a.kind == Read {
      assert Touch(a.kind, e) in [Touch(Read, e)];
    }
  }

  lemma FieldActions(e: Expr)
    requires e.FieldOf?
    ensures Actions(e) == [Touch(Read, e)] + Addressing(e.receiver)
  {
  }
}
