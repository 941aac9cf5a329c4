/**
 Subjects with the byte intervals of declared layouts: what a subject covers, and the proof that subjects
 covering overlapping places are found to overlap.
 */
module AccessRegions {
  import opened Wrappers
  import opened AccessModel
  import opened AccessSummary
  import opened AccessVerdict
  import opened AccessSemantics
  import opened AccessCoverage
  import opened AccessPlaces

  // ---------------------------------------------------------------------------------------------
  // Layouts

  /** The region declared for a field. */
  function RegionOf(structs: Structs, owner: Ty, field: string): Option<Region> {
    var k := OrdinalIn(structs, owner, field);
    if k < 0 then None
    else
      FieldIndexBounds(structs[owner.name], field);
      structs[owner.name][k].region
  }

  function BaseName(t: Ty): string {
    match t
    case Named(n) => n
    case ArrayOf(elem, _) => BaseName(elem)
  }

  ghost predicate Heights(structs: Structs, h: map<string, nat>) {
    && structs.Keys <= h.Keys && "" !in structs
    && forall n, i :: n in structs && 0 <= i < |structs[n]| && BaseName(structs[n][i].ty) in structs ==>
         h[BaseName(structs[n][i].ty)] < h[n]
  }

  /** No struct holds itself by value. */
  ghost predicate Finite(structs: Structs) {
    exists h :: Heights(structs, h)
  }

  /** A region belongs to one field of one struct. */
  ghost predicate DistinctRegions(structs: Structs) {
    forall a, f, b, g :: SharedRegion(RegionOf(structs, a, f), RegionOf(structs, b, g)) ==> a == b && f == g
  }

  /** The structs are finite and a region names one field. */
  ghost predicate LaidOut(structs: Structs) {
    Finite(structs) && DistinctRegions(structs)
  }

  predicate SharedRegion(a: Option<Region>, b: Option<Region>) {
    a.Some? && b.Some? && a.value.id == b.value.id != ""
  }

  /** Every field projection carries the region declared for it. */
  predicate Annotated(structs: Structs, params: seq<Param>, e: Expr) {
    match e
    case FieldOf(r, f, region, _) =>
      && Annotated(structs, params, r)
      && (TypeOf(structs, params, r).Some? ==> region == RegionOf(structs, TypeOf(structs, params, r).value, f))
    case IndexOf(b, _, _) => Annotated(structs, params, b)
    case RefTo(x) => Annotated(structs, params, x)
    case Paren(x) => Annotated(structs, params, x)
    case _ => true
  }

  /** The region the expression lies in, set by its outermost field that has one. */
  function RegionIn(e: Expr): Option<Region> {
    match e
    case FieldOf(r, _, region, _) => if region.Some? && region.value.id != "" then region else RegionIn(r)
    case IndexOf(b, _, _) => RegionIn(b)
    case RefTo(x) => RegionIn(x)
    case Paren(x) => RegionIn(x)
    case _ => None
  }

  function Literals(indices: seq<Expr>): int {
    if indices == [] then 0 else (if indices[0].Lit? then indices[0].n else 0) + Literals(indices[1..])
  }

  /** Index operations since that field, and the sum of their literals. */
  function Since(e: Expr): (nat, int) {
    match e
    case FieldOf(r, _, region, _) => if region.Some? && region.value.id != "" then (0, 0) else Since(r)
    case IndexOf(b, indices, _) => (Since(b).0 + 1, Since(b).1 + Literals(indices))
    case RefTo(x) => Since(x)
    case Paren(x) => Since(x)
    case _ => (0, 0)
  }

  /** In a region at most one element is selected, within the region's bytes. */
  predicate OneElement(e: Expr) {
    RegionIn(e).Some? ==> Since(e).0 == 0 || (Since(e).0 == 1 && Since(e).1 < RegionIn(e).value.extent)
  }

  // ---------------------------------------------------------------------------------------------
  // What an interval stands for

  function RankOf(t: Ty): nat {
    if t.ArrayOf? then t.rank else 0
  }

  predicate AllIndexSteps(steps: seq<Step>) {
    forall i :: 0 <= i < |steps| ==> steps[i].IndexStep?
  }

  predicate AllFieldSteps(steps: seq<Step>) {
    forall i :: 0 <= i < |steps| ==> steps[i].FieldStep?
  }

  function Total(steps: seq<Step>): int {
    if steps == [] then 0 else (if steps[0].IndexStep? then steps[0].index else 0) + Total(steps[1..])
  }

  predicate Whole(s: Subject, r: Region) {
    s.offset == r.offset && s.extent == r.extent
  }

  /** The first array below the region's field starts at place `m` of the path, and one of its elements is meant. */
  ghost predicate ElementFrom(structs: Structs, t: Ty, s: Subject, path: seq<Step>, k: nat, m: nat, r: Region) {
    && k < m < |path| && AllFieldSteps(path[k + 1..m])
    && var c := RankOf(TypeAt(structs, t, path[..m]));
       && 0 < c && m + c <= |path| && AllIndexSteps(path[m..m + c])
       && s.offset == r.offset + Total(path[m..m + c]) && s.extent == 1
       && r.offset <= s.offset < r.offset + r.extent
  }

  ghost predicate OneOf(structs: Structs, t: Ty, s: Subject, path: seq<Step>, k: nat, r: Region) {
    exists m: nat :: ElementFrom(structs, t, s, path, k, m, r)
  }

  /** Step `k` of the path is the field the subject's region belongs to. */
  predicate FieldAtStep(structs: Structs, t: Ty, id: string, path: seq<Step>, k: nat) {
    && k < |path| && path[k].FieldStep?
    && RegionOf(structs, TypeAt(structs, t, path[..k]), path[k].name).Some?
    && RegionOf(structs, TypeAt(structs, t, path[..k]), path[k].name).value.id == id
  }

  ghost predicate RegionAt(structs: Structs, t: Ty, s: Subject, path: seq<Step>, k: nat) {
    && FieldAtStep(structs, t, s.region, path, k)
    && var r := RegionOf(structs, TypeAt(structs, t, path[..k]), path[k].name).value;
       Whole(s, r) || OneOf(structs, t, s, path, k, r)
  }

  ghost predicate RegionFits(structs: Structs, t: Ty, s: Subject, path: seq<Step>) {
    s.region == "" || exists k: nat :: RegionAt(structs, t, s, path, k)
  }

  /** The subject may stand for the part at `path` of an object part of type `t`. */
  ghost predicate Covers(structs: Structs, t: Ty, s: Subject, path: seq<Step>) {
    s.resolution.Opaque? || (PathFits(structs, t, s.path, path) && RegionFits(structs, t, s, path))
  }

  // ---------------------------------------------------------------------------------------------
  // Resolution

  lemma {:induction false} IndexedInterval(base: Subject, indices: seq<Expr>)
    requires AllFixed(indices) && indices != []
    ensures var s := Indexed(base, indices);
            s.offset == base.offset + Literals(indices) && s.extent == 1 && s.region == base.region
    decreases indices
  {
    var b := base.(path := base.path + [IndexAt(indices[0].n)], offset := base.offset + indices[0].n, extent := 1,
                   resolution := Interval);
    if indices[1..] != [] {
      IndexedInterval(b, indices[1..]);
    }
  }

  lemma {:induction false} TotalIsLiterals(indices: seq<Expr>, steps: seq<Step>)
    requires AllFixed(indices) && StepsFit(indices, steps)
    ensures Total(steps) == Literals(indices) >= 0 && AllIndexSteps(steps)
    decreases |indices|
  {
    if indices != [] {
      TotalIsLiterals(indices[1..], steps[1..]);
    }
  }

  /** The subject's region and interval, as the expression set them. */
  ghost predicate HeldAt(structs: Structs, t: Ty, s: Subject, path: seq<Step>, e: Expr, k: nat)
    requires RegionIn(e).Some?
  {
    var r := RegionIn(e).value;
    && s.region == r.id && k < |path| && path[k].FieldStep?
    && RegionOf(structs, TypeAt(structs, t, path[..k]), path[k].name) == Some(r)
    && (Since(e).0 == 0 ==> Whole(s, r) && AllFieldSteps(path[k + 1..]))
    && (Since(e).0 == 1 ==> OneOf(structs, t, s, path, k, r))
  }

  ghost predicate Held(structs: Structs, t: Ty, s: Subject, path: seq<Step>, e: Expr) {
    if RegionIn(e).None? then s.region == "" else exists k: nat :: HeldAt(structs, t, s, path, e, k)
  }

  lemma {:induction false} RegionIsHeld(structs: Structs, params: seq<Param>, fn: nat, args: seq<Place>, e: Expr,
                                        pl: Place)
    requires |args| == |params| && Denotes(params, args, e, pl) && pl.Shared? && TypeOf(structs, params, e).Some?
    requires Annotated(structs, params, e) && !HasDynamic(e) && OneElement(e)
    ensures Rooted(params, e) && args[RootOf(params, e)].Shared? && args[RootOf(params, e)].path <= pl.path
    ensures var k := RootOf(params, e); Held(structs, params[k].ty, Own(structs, params, fn, e), Below(args, k, pl), e)
    decreases e, 1
  {
    hide Held;
    UnrootedIsPrivate(params, args, e, pl);
    match e
    case Name(x, _) => NameIsHeld(structs, params, fn, args, e, pl);
    case RefTo(x) =>
      RegionIsHeld(structs, params, fn, args, x, pl);
      SameHeld(structs, params[RootOf(params, e)].ty, Own(structs, params, fn, e), Below(args, RootOf(params, e), pl),
               x, e);
    case Paren(x) =>
      RegionIsHeld(structs, params, fn, args, x, pl);
      SameHeld(structs, params[RootOf(params, e)].ty, Own(structs, params, fn, e), Below(args, RootOf(params, e), pl),
               x, e);
    case FieldOf(_, _, _, _) => FieldIsHeld(structs, params, fn, args, e, pl);
    case IndexOf(_, _, _) => IndexIsHeld(structs, params, fn, args, e, pl);
    case _ =>
  }

  lemma NameIsHeld(structs: Structs, params: seq<Param>, fn: nat, args: seq<Place>, e: Expr, pl: Place)
    requires |args| == |params| && Denotes(params, args, e, pl) && pl.Shared? && e.Name?
    ensures Rooted(params, e) && args[RootOf(params, e)].Shared? && args[RootOf(params, e)].path <= pl.path
    ensures var k := RootOf(params, e); Held(structs, params[k].ty, Own(structs, params, fn, e), Below(args, k, pl), e)
  {
    UnrootedIsPrivate(params, args, e, pl);
    ParamLocalsAt(fn, params, e.x);
  }

  lemma SameHeld(structs: Structs, t: Ty, s: Subject, path: seq<Step>, x: Expr, e: Expr)
    requires Held(structs, t, s, path, x) && RegionIn(e) == RegionIn(x) && Since(e) == Since(x)
    ensures Held(structs, t, s, path, e)
  {
    if RegionIn(x).Some? {
      var k: nat :| HeldAt(structs, t, s, path, x, k);
      assert HeldAt(structs, t, s, path, e, k);
    }
  }

  /** The path and type of a projection's receiver. */
  lemma Receiver(structs: Structs, params: seq<Param>, fn: nat, args: seq<Place>, e: Expr,
                 pl: Place) returns (above: seq<Step>)
    requires |args| == |params| && Denotes(params, args, e, pl) && pl.Shared? && TypeOf(structs, params, e).Some?
             && e.FieldOf?
    ensures Rooted(params, e) && args[RootOf(params, e)].Shared? && args[RootOf(params, e)].path <= pl.path
    ensures pl.path != []
    ensures var inner := Shared(pl.obj, Without(pl.path, 1));
            && Denotes(params, args, e.receiver, inner) && RootOf(params, e) == RootOf(params, e.receiver)
            && args[RootOf(params, e)].path <= inner.path && above == Below(args, RootOf(params, e), inner)
    ensures Below(args, RootOf(params, e), pl) == above + [FieldStep(e.field)]
    ensures TypeOf(structs, params, e.receiver) == Some(TypeAt(structs, params[RootOf(params, e)].ty, above))
  {
    var inner := Shared(pl.obj, Without(pl.path, 1));
    UnrootedIsPrivate(params, args, e, pl);
    UnrootedIsPrivate(params, args, e.receiver, inner);
    ResolveTracks(structs, params, fn, args, e.receiver, inner);
    above := Below(args, RootOf(params, e), inner);
    assert Below(args, RootOf(params, e), pl) == above + [FieldStep(e.field)];
  }

  lemma {:induction false} FieldIsHeld(structs: Structs, params: seq<Param>, fn: nat, args: seq<Place>, e: Expr,
                                       pl: Place)
    requires |args| == |params| && Denotes(params, args, e, pl) && pl.Shared? && TypeOf(structs, params, e).Some?
    requires Annotated(structs, params, e) && !HasDynamic(e) && OneElement(e) && e.FieldOf?
    ensures Rooted(params, e) && args[RootOf(params, e)].Shared? && args[RootOf(params, e)].path <= pl.path
    ensures var k := RootOf(params, e); Held(structs, params[k].ty, Own(structs, params, fn, e), Below(args, k, pl), e)
    decreases e, 0
  {
    hide Held, Own, Denotes, Rooted, TypeAt, PathFits;
    var above := Receiver(structs, params, fn, args, e, pl);
    var inner := Shared(pl.obj, Without(pl.path, 1));
    var t := params[RootOf(params, e)].ty;
    OwnField(structs, params, fn, e);
    if e.region.Some? && e.region.value.id != "" {
      NewRegionHeld(structs, t, Own(structs, params, fn, e), above, e);
    } else {
      RegionIsHeld(structs, params, fn, args, e.receiver, inner);
      OldRegionHeld(structs, t, Own(structs, params, fn, e.receiver), Own(structs, params, fn, e), above, e);
    }
  }

  lemma NewRegionHeld(structs: Structs, t: Ty, s: Subject, above: seq<Step>, e: Expr)
    requires e.FieldOf? && e.region.Some? && e.region.value.id != ""
    requires e.region == RegionOf(structs, TypeAt(structs, t, above), e.field)
    requires s.region == e.region.value.id && Whole(s, e.region.value)
    ensures Held(structs, t, s, above + [FieldStep(e.field)], e)
  {
    var path := above + [FieldStep(e.field)];
    assert path[..|above|] == above && path[|above| + 1..] == [];
    assert HeldAt(structs, t, s, path, e, |above|);
  }

  lemma OldRegionHeld(structs: Structs, t: Ty, base: Subject, s: Subject, above: seq<Step>, e: Expr)
    requires e.FieldOf? && (e.region.None? || e.region.value.id == "")
    requires Held(structs, t, base, above, e.receiver)
    requires s.region == base.region && s.offset == base.offset && s.extent == base.extent
    ensures Held(structs, t, s, above + [FieldStep(e.field)], e)
  {
    var path := above + [FieldStep(e.field)];
    if RegionIn(e).Some? {
      var k: nat :| HeldAt(structs, t, base, above, e.receiver, k);
      var r := RegionIn(e).value;
      assert path[..k] == above[..k];
      if Since(e).0 == 0 {
        assert path[k + 1..] == above[k + 1..] + [FieldStep(e.field)];
      } else if Since(e).0 == 1 {
        OneOfLonger(structs, t, base, s, above, [FieldStep(e.field)], k, r);
      }
      assert HeldAt(structs, t, s, path, e, k);
    }
  }

  lemma OneOfLonger(structs: Structs, t: Ty, base: Subject, s: Subject, above: seq<Step>, below: seq<Step>, k: nat,
                    r: Region)
    requires OneOf(structs, t, base, above, k, r) && s.offset == base.offset && s.extent == base.extent
    ensures OneOf(structs, t, s, above + below, k, r)
  {
    hide TypeAt;
    var m: nat :| ElementFrom(structs, t, base, above, k, m, r);
    var c := RankOf(TypeAt(structs, t, above[..m]));
    var path := above + below;
    assert path[..m] == above[..m] && path[k + 1..m] == above[k + 1..m] && path[m..m + c] == above[m..m + c];
    assert ElementFrom(structs, t, s, path, k, m, r);
  }

  lemma BelowSplits(args: seq<Place>, k: nat, pl: Place, n: nat)
    requires k < |args| && args[k].Shared? && pl.Shared? && n <= |pl.path| && args[k].path <= Without(pl.path, n)
    ensures args[k].path <= pl.path
    ensures Below(args, k, pl) == Below(args, k, Shared(pl.obj, Without(pl.path, n))) + pl.path[|pl.path| - n..]
  {
    assert pl.path == Without(pl.path, n) + pl.path[|pl.path| - n..];
  }

  lemma {:induction false} IndexIsHeld(structs: Structs, params: seq<Param>, fn: nat, args: seq<Place>, e: Expr,
                                       pl: Place)
    requires |args| == |params| && Denotes(params, args, e, pl) && pl.Shared? && TypeOf(structs, params, e).Some?
    requires Annotated(structs, params, e) && !HasDynamic(e) && OneElement(e) && e.IndexOf?
    ensures Rooted(params, e) && args[RootOf(params, e)].Shared? && args[RootOf(params, e)].path <= pl.path
    ensures var k := RootOf(params, e); Held(structs, params[k].ty, Own(structs, params, fn, e), Below(args, k, pl), e)
    decreases e, 0
  {
    hide Held, Own, TypeAt, PathFits, Indexed;
    var n := |e.indices|;
    var inner := Shared(pl.obj, Without(pl.path, n));
    UnrootedIsPrivate(params, args, e, pl);
    UnrootedIsPrivate(params, args, e.base, inner);
    ResolveTracks(structs, params, fn, args, e.base, inner);
    RegionIsHeld(structs, params, fn, args, e.base, inner);
    var k := RootOf(params, e);
    var above, steps := Below(args, k, inner), pl.path[|pl.path| - n..];
    BelowSplits(args, k, pl, n);
    OwnIndex(structs, params, fn, e);
    ElementHeld(structs, params[k].ty, Own(structs, params, fn, e.base), above, steps, e);
  }

  lemma {:induction false} NoneSince(e: Expr)
    ensures Since(e).0 == 0 ==> Since(e).1 == 0
  {
    match e
    case FieldOf(r, _, _, _) => NoneSince(r);
    case IndexOf(b, _, _) => NoneSince(b);
    case RefTo(x) => NoneSince(x);
    case Paren(x) => NoneSince(x);
    case _ =>
  }

  lemma ElementHeld(structs: Structs, t: Ty, base: Subject, above: seq<Step>, steps: seq<Step>, e: Expr)
    requires e.IndexOf? && AllFixed(e.indices) && StepsFit(e.indices, steps) && e.indices != [] && OneElement(e)
    requires RankOf(TypeAt(structs, t, above)) == |e.indices|
    requires Held(structs, t, base, above, e.base)
    ensures Held(structs, t, Indexed(base, e.indices), above + steps, e)
  {
    hide TypeAt, Indexed;
    var s := Indexed(base, e.indices);
    NoneSince(e.base);
    IndexedInterval(base, e.indices);
    TotalIsLiterals(e.indices, steps);
    if RegionIn(e).Some? {
      var k: nat :| HeldAt(structs, t, base, above, e.base, k);
      var r := RegionIn(e).value;
      var path, m := above + steps, |above|;
      assert path[..k] == above[..k] && path[..m] == above && path[k + 1..m] == above[k + 1..]
             && path[m..m + |steps|] == steps;
      assert ElementFrom(structs, t, s, path, k, m, r);
      assert HeldAt(structs, t, s, path, e, k);
    }
  }

  lemma HeldFits(structs: Structs, t: Ty, s: Subject, path: seq<Step>, e: Expr)
    requires Held(structs, t, s, path, e) && OneElement(e)
    ensures RegionFits(structs, t, s, path)
  {
    if RegionIn(e).Some? {
      var k: nat :| HeldAt(structs, t, s, path, e, k);
      assert RegionAt(structs, t, s, path, k);
    }
  }

  /** A resolved expression covers every place it can denote, unless a literal index reset it. */
  lemma ResolveCovers(structs: Structs, params: seq<Param>, fn: nat, args: seq<Place>, e: Expr, pl: Place)
    requires |args| == |params| && Denotes(params, args, e, pl) && pl.Shared?
    requires TypeOf(structs, params, e).Some? && Annotated(structs, params, e) && OneElement(e) && !Resets(e)
    ensures Rooted(params, e) && args[RootOf(params, e)].Shared? && args[RootOf(params, e)].obj == pl.obj
    ensures args[RootOf(params, e)].path <= pl.path
    ensures Covers(structs, params[RootOf(params, e)].ty, Own(structs, params, fn, e),
                   Below(args, RootOf(params, e), pl))
    ensures TypeOf(structs, params, e).value ==
            TypeAt(structs, params[RootOf(params, e)].ty, Below(args, RootOf(params, e), pl))
  {
    hide PathFits, Own, RegionFits, Held;
    UnrootedIsPrivate(params, args, e, pl);
    ResolveTracks(structs, params, fn, args, e, pl);
    OpaqueUnlessReset(structs, params, fn, e);
    if !HasDynamic(e) {
      var k := RootOf(params, e);
      RegionIsHeld(structs, params, fn, args, e, pl);
      HeldFits(structs, params[k].ty, Own(structs, params, fn, e), Below(args, k, pl), e);
    }
  }

  // ---------------------------------------------------------------------------------------------
  // Overlap

  /** Below a field of a struct, types only get smaller. */
  lemma {:induction false} HeightDown(structs: Structs, h: map<string, nat>, t: Ty, path: seq<Step>, i: nat, j: nat)
    requires Heights(structs, h) && i < j <= |path| && path[i].FieldStep?
    requires BaseName(TypeAt(structs, t, path[..j])) in structs
    ensures BaseName(TypeAt(structs, t, path[..i])) in structs
    ensures h[BaseName(TypeAt(structs, t, path[..j]))] < h[BaseName(TypeAt(structs, t, path[..i]))]
    decreases j
  {
    var before := path[..j - 1];
    assert path[..j][..j - 1] == before && path[..j][j - 1] == path[j - 1];
    var owner := TypeAt(structs, t, before);
    assert TypeAt(structs, t, path[..j]) == StepType(structs, owner, path[j - 1]);
    if path[j - 1].FieldStep? {
      assert owner.Named? && owner.name in structs;
      FieldIndexBounds(structs[owner.name], path[j - 1].name);
    }
    if j - 1 > i {
      HeightDown(structs, h, t, path, i, j - 1);
    }
  }

  /** The region of a place's field does not occur a second time on its path. */
  lemma OneField(structs: Structs, t: Ty, path: seq<Step>, id: string, i: nat, j: nat)
    requires LaidOut(structs) && id != ""
    requires FieldAtStep(structs, t, id, path, i) && FieldAtStep(structs, t, id, path, j)
    ensures i == j
  {
    hide TypeAt;
    var h :| Heights(structs, h);
    var a, b := TypeAt(structs, t, path[..i]), TypeAt(structs, t, path[..j]);
    assert a == b && a.Named? && a.name in structs;
    if i < j {
      HeightDown(structs, h, t, path, i, j);
    } else if j < i {
      HeightDown(structs, h, t, path, j, i);
    }
  }

  predicate IntervalsMeet(a: Subject, b: Subject) {
    a.offset < b.offset + b.extent && b.offset < a.offset + a.extent
  }

  /** Two elements on one path are the same element. */
  lemma SameElement(structs: Structs, t: Ty, a: Subject, p: seq<Step>, b: Subject, q: seq<Step>, k: nat, m: nat, n: nat,
                    r: Region)
    requires ElementFrom(structs, t, a, p, k, m, r) && ElementFrom(structs, t, b, q, k, n, r) && p <= q
    ensures a.offset == b.offset && a.extent == b.extent == 1
  {
    hide TypeAt;
    var c := RankOf(TypeAt(structs, t, p[..m]));
    assert p[m..m + c][0] == p[m] == q[m];
    var d := RankOf(TypeAt(structs, t, q[..n]));
    assert q[n..n + d][0] == q[n];
    assert m == n && p[..m] == q[..m] && c == d && p[m..m + c] == q[m..m + c];
  }

  /** Intervals of one region meet where the places overlap. */
  lemma RegionsMeet(structs: Structs, t: Ty, a: Subject, p: seq<Step>, b: Subject, q: seq<Step>)
    requires LaidOut(structs) && p <= q
    requires RegionFits(structs, t, a, p) && RegionFits(structs, t, b, q)
    requires a.region == b.region != "" && a.extent > 0 && b.extent > 0
    ensures IntervalsMeet(a, b)
  {
    hide TypeAt, LaidOut, ElementFrom;
    var i: nat :| RegionAt(structs, t, a, p, i);
    var j: nat :| RegionAt(structs, t, b, q, j);
    assert p[..i] == q[..i] && p[i] == q[i];
    OneField(structs, t, q, a.region, i, j);
    var r := RegionOf(structs, TypeAt(structs, t, q[..i]), q[i].name).value;
    if OneOf(structs, t, a, p, i, r) {
      var m: nat :| ElementFrom(structs, t, a, p, i, m, r);
      ElementInside(structs, t, a, p, i, m, r);
      if OneOf(structs, t, b, q, i, r) {
        var n: nat :| ElementFrom(structs, t, b, q, i, n, r);
        SameElement(structs, t, a, p, b, q, i, m, n, r);
      }
    } else if OneOf(structs, t, b, q, i, r) {
      var n: nat :| ElementFrom(structs, t, b, q, i, n, r);
      ElementInside(structs, t, b, q, i, n, r);
    }
  }

  lemma ElementInside(structs: Structs, t: Ty, s: Subject, path: seq<Step>, k: nat, m: nat, r: Region)
    requires ElementFrom(structs, t, s, path, k, m, r)
    ensures s.extent == 1 && r.offset <= s.offset < r.offset + r.extent
  {
  }

  /** Subjects that cover overlapping parts of one object are found to overlap. */
  lemma OverlapIsSound(structs: Structs, t: Ty, a: Subject, p: seq<Step>, b: Subject, q: seq<Step>)
    requires LaidOut(structs)
    requires Covers(structs, t, a, p) && Covers(structs, t, b, q) && PlacesOverlap(p, q)
    ensures SubjectsOverlap(a, b)
  {
    hide LaidOut, RegionFits;
    if !a.resolution.Opaque? && !b.resolution.Opaque? {
      ClashAt(a.path, b.path);
      forall i | 0 <= i < |a.path| && i < |b.path| ensures !ElementsClash(a.path[i], b.path[i]) {
        assert p[..i] == q[..i] && p[i] == q[i];
      }
      if SameRegion(a, b) {
        if p <= q {
          RegionsMeet(structs, t, a, p, b, q);
        } else {
          RegionsMeet(structs, t, b, q, a, p);
        }
      }
    }
  }

  /** A callee's subject extended by its argument covers the same place from the caller's side. */
  lemma ExtendedCovers(structs: Structs, t: Ty, base: Subject, above: seq<Step>, s: Subject, below: seq<Step>)
    requires Covers(structs, t, base, above) && Covers(structs, TypeAt(structs, t, above), s, below)
    ensures Covers(structs, t, Extended(base, s), above + below)
    ensures Extended(base, s).root == base.root
  {
    hide RegionFits, PathFits, TypeAt;
    if |base.path| + |s.path| <= PATH_CAP && !base.resolution.Opaque? && !s.resolution.Opaque? {
      PathFitsJoin(structs, t, base.path, above, s.path, below);
      RegionLonger(structs, t, base, Extended(base, s), above, below);
    }
  }

  lemma RegionLonger(structs: Structs, t: Ty, base: Subject, s: Subject, above: seq<Step>, below: seq<Step>)
    requires RegionFits(structs, t, base, above)
    requires s.region == base.region && s.offset == base.offset && s.extent == base.extent
    ensures RegionFits(structs, t, s, above + below)
  {
    hide TypeAt, OneOf;
    if base.region != "" {
      var k: nat :| RegionAt(structs, t, base, above, k);
      var path := above + below;
      assert path[..k] == above[..k] && path[k] == above[k];
      var r := RegionOf(structs, TypeAt(structs, t, above[..k]), above[k].name).value;
      if OneOf(structs, t, base, above, k, r) {
        OneOfLonger(structs, t, base, s, above, below, k, r);
      }
      assert RegionAt(structs, t, s, path, k);
    }
  }

  /** What a subject covers does not depend on its root. */
  lemma RegionIgnoresRoot(structs: Structs, t: Ty, s: Subject, root: Root, path: seq<Step>)
    ensures Covers(structs, t, s, path) <==> Covers(structs, t, s.(root := root), path)
  {
    hide PathFits;
    var other := s.(root := root);
    if RegionFits(structs, t, s, path) {
      RegionMoves(structs, t, s, other, path);
    }
    if RegionFits(structs, t, other, path) {
      RegionMoves(structs, t, other, s, path);
    }
  }

  lemma RegionMoves(structs: Structs, t: Ty, a: Subject, b: Subject, path: seq<Step>)
    requires RegionFits(structs, t, a, path) && a.region == b.region && a.offset == b.offset && a.extent == b.extent
    ensures RegionFits(structs, t, b, path)
  {
    assert path + [] == path;
    RegionLonger(structs, t, a, b, path, []);
  }

  // ---------------------------------------------------------------------------------------------
  // Elements of elements

  function ProjectedAll(structs: Structs, base: Subject, fields: seq<string>): Subject
    decreases fields
  {
    if fields == [] then base else ProjectedAll(structs, Projected(structs, base, fields[0]), fields[1..])
  }

  lemma {:induction false} ProjectionsExtend(structs: Structs, base: Subject, fields: seq<string>)
    ensures var s := ProjectedAll(structs, base, fields);
            base.path <= s.path && s == base.(path := s.path, ty := s.ty)
    decreases fields
  {
    if fields != [] {
      ProjectionsExtend(structs, Projected(structs, base, fields[0]), fields[1..]);
    }
  }

  lemma OneIndex(base: Subject, n: nat)
    requires n < 0x8000_0000_0000_0000
    ensures var s := Indexed(base, [Lit(n)]);
            s == base.(path := base.path + [IndexAt(n)], offset := base.offset + n, extent := 1, resolution := Interval,
                       ty := s.ty)
  {
    var one := [Lit(n)];
    assert one[1..] == [];
  }

  /**
   In a region, element `j` of any field below an element is found to overlap that element exactly when
   it is the first one.
   */
  lemma NestedElementOverlapsIff(structs: Structs, base: Subject, i: nat, fields: seq<string>, j: nat)
    requires base.region != "" && !base.resolution.Opaque? && i < 0x8000_0000_0000_0000 && j < 0x8000_0000_0000_0000
    ensures var row := Indexed(base, [Lit(i)]);
            SubjectsOverlap(row, Indexed(ProjectedAll(structs, row, fields), [Lit(j)])) <==> j == 0
  {
    var row := Indexed(base, [Lit(i)]);
    var part := ProjectedAll(structs, row, fields);
    var cell := Indexed(part, [Lit(j)]);
    OneIndex(base, i);
    OneIndex(part, j);
    ProjectionsExtend(structs, row, fields);
    assert row.path <= part.path <= cell.path;
    ClashAt(row.path, cell.path);
  }
}
