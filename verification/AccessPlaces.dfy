/** Resolved subjects cover the places they stand for, and subjects that do not overlap cover disjoint places. */
module AccessPlaces {
  import opened Wrappers
  import opened AccessModel
  import opened AccessSummary
  import opened AccessVerdict
  import opened AccessSemantics
  import opened AccessCoverage

  // ---------------------------------------------------------------------------------------------
  // Types of places

  function StepType(structs: Structs, t: Ty, s: Step): Ty {
    match s
    case FieldStep(f) => FieldType(structs, t, f)
    case IndexStep(_) =>
      if t.ArrayOf? && t.rank > 1 then ArrayOf(t.elem, t.rank - 1)
      else if t.ArrayOf? && t.rank == 1 then t.elem
      else UNTYPED
  }

  function TypeAt(structs: Structs, t: Ty, path: seq<Step>): Ty {
    if path == [] then t else StepType(structs, TypeAt(structs, t, path[..|path| - 1]), path[|path| - 1])
  }

  /** The declared type of a parameter-rooted expression; fields must exist and arrays be fully indexed. */
  function TypeOf(structs: Structs, params: seq<Param>, e: Expr): Option<Ty> {
    match e
    case Name(x, _) => (match ParamIndex(params, x) case Some(k) => Some(params[k].ty) case None => None)
    case FieldOf(r, f, _, _) =>
      (match TypeOf(structs, params, r)
       case Some(t) => if FieldType(structs, t, f) == UNTYPED then None else Some(FieldType(structs, t, f))
       case None => None)
    case IndexOf(b, indices, _) =>
      (match TypeOf(structs, params, b)
       case Some(t) => if t.ArrayOf? && t.rank == |indices| && t.rank > 0 then Some(t.elem) else None
       case None => None)
    case RefTo(x) => TypeOf(structs, params, x)
    case Paren(x) => TypeOf(structs, params, x)
    case _ => None
  }

  lemma {:induction false} TypeAtJoin(structs: Structs, t: Ty, a: seq<Step>, b: seq<Step>)
    ensures TypeAt(structs, t, a + b) == TypeAt(structs, TypeAt(structs, t, a), b)
  {
    if b == [] {
      assert a + b == a;
    } else {
      assert (a + b)[..|a + b| - 1] == a + b[..|b| - 1];
      TypeAtJoin(structs, t, a, b[..|b| - 1]);
    }
  }

  lemma {:induction false} IndexedType(structs: Structs, t: Ty, steps: seq<Step>)
    requires t.ArrayOf? && t.rank == |steps| && t.rank > 0 && forall i :: 0 <= i < |steps| ==> steps[i].IndexStep?
    ensures TypeAt(structs, t, steps) == t.elem
    decreases |steps|
  {
    if |steps| == 1 {
      assert steps[..0] == [];
    } else {
      var front := steps[..|steps| - 1];
      PartlyIndexed(structs, t, front);
    }
  }

  lemma {:induction false} PartlyIndexed(structs: Structs, t: Ty, steps: seq<Step>)
    requires t.ArrayOf? && |steps| < t.rank && forall i :: 0 <= i < |steps| ==> steps[i].IndexStep?
    ensures TypeAt(structs, t, steps) == ArrayOf(t.elem, t.rank - |steps|)
    decreases |steps|
  {
    if steps != [] {
      PartlyIndexed(structs, t, steps[..|steps| - 1]);
    }
  }

  // ---------------------------------------------------------------------------------------------
  // Elements and steps

  predicate ElementFits(structs: Structs, t: Ty, a: Element, s: Step) {
    match a
    case FieldAt(f, k) => s == FieldStep(f) && (k < 0 || k == OrdinalIn(structs, t, f))
    case IndexAt(i) => s == IndexStep(i)
    case DynamicIndex => s.IndexStep?
  }

  /** `elems` describes the path `steps` inside an object part of type `t`. */
  ghost predicate PathFits(structs: Structs, t: Ty, elems: seq<Element>, steps: seq<Step>) {
    |elems| == |steps| && forall i :: 0 <= i < |elems| ==>
                                        ElementFits(structs, TypeAt(structs, t, steps[..i]), elems[i], steps[i])
  }

  lemma PathFitsJoin(structs: Structs, t: Ty, a: seq<Element>, p: seq<Step>, b: seq<Element>, q: seq<Step>)
    requires PathFits(structs, t, a, p) && PathFits(structs, TypeAt(structs, t, p), b, q)
    ensures PathFits(structs, t, a + b, p + q)
  {
    hide ElementFits, TypeAt;
    forall i | 0 <= i < |a + b| ensures ElementFits(structs, TypeAt(structs, t, (p + q)[..i]), (a + b)[i], (p + q)[i]) {
      if i < |a| {
        assert (p + q)[..i] == p[..i];
      } else {
        assert (p + q)[..i] == p + q[..i - |a|];
        TypeAtJoin(structs, t, p, q[..i - |a|]);
      }
    }
  }

  // ---------------------------------------------------------------------------------------------
  // Dynamic indices

  predicate AllFixed(indices: seq<Expr>) {
    forall i :: 0 <= i < |indices| ==> Fixed(indices[i])
  }

  predicate HasDynamic(e: Expr) {
    match e
    case FieldOf(r, _, _, _) => HasDynamic(r)
    case IndexOf(b, indices, _) => !AllFixed(indices) || HasDynamic(b)
    case RefTo(x) => HasDynamic(x)
    case Paren(x) => HasDynamic(x)
    case _ => false
  }

  /** A literal index, or a region, is applied above a dynamic index and no dynamic one above it. */
  predicate Resets(e: Expr) {
    match e
    case FieldOf(r, _, region, _) => if region.Some? && region.value.id != "" then HasDynamic(r) else Resets(r)
    case IndexOf(b, indices, _) => AllFixed(indices) && (if indices == [] then Resets(b) else HasDynamic(b))
    case RefTo(x) => Resets(x)
    case Paren(x) => Resets(x)
    case _ => false
  }

  lemma {:induction false} IndexedResolution(base: Subject, indices: seq<Expr>)
    ensures Indexed(base, indices).resolution ==
            (if indices == [] then base.resolution else if AllFixed(indices) then Interval else Opaque)
    ensures Indexed(base, indices).region == base.region
    decreases indices
  {
    if indices != [] && Fixed(indices[0]) {
      var b := base.(path := base.path + [IndexAt(indices[0].n)], offset := base.offset + indices[0].n, extent := 1,
                     resolution := Interval);
      IndexedResolution(b, indices[1..]);
      if AllFixed(indices[1..]) {
        forall i | 0 <= i < |indices| ensures Fixed(indices[i]) {
          if i > 0 {
            assert indices[i] == indices[1..][i - 1];
          }
        }
      } else {
        var i :| 0 <= i < |indices[1..]| && !Fixed(indices[1..][i]);
        assert indices[i + 1] == indices[1..][i];
      }
    }
  }

  /** A subject with a dynamic index is opaque exactly when nothing above that index resets it. */
  lemma {:induction false} OpaqueUnlessReset(structs: Structs, params: seq<Param>, fn: nat, e: Expr)
    requires Rooted(params, e)
    ensures Own(structs, params, fn, e).resolution.Opaque? <==> HasDynamic(e) && !Resets(e)
  {
    match e
    case Name(x, _) => ParamLocalsAt(fn, params, x);
    case FieldOf(r, _, _, _) => OpaqueUnlessReset(structs, params, fn, r);
    case IndexOf(b, indices, _) =>
      OpaqueUnlessReset(structs, params, fn, b);
      IndexedResolution(Own(structs, params, fn, b), indices);
    case RefTo(x) => OpaqueUnlessReset(structs, params, fn, x);
    case Paren(x) => OpaqueUnlessReset(structs, params, fn, x);
  }

  // ---------------------------------------------------------------------------------------------
  // Without dynamic indices the subject is exact

  lemma {:induction false} IndexedFits(structs: Structs, t: Ty, base: Subject,
                                       indices: seq<Expr>, path: seq<Step>, steps: seq<Step>)
    requires AllFixed(indices) && StepsFit(indices, steps) && PathFits(structs, t, base.path, path)
    ensures PathFits(structs, t, Indexed(base, indices).path, path + steps)
    ensures Indexed(base, indices).ty == (if base.ty.ArrayOf? then base.ty.elem else base.ty)
    decreases indices
  {
    if indices == [] {
      assert path + steps == path;
    } else {
      var b := base.(path := base.path + [IndexAt(indices[0].n)], offset := base.offset + indices[0].n, extent := 1,
                     resolution := Interval);
      assert steps == [steps[0]] + steps[1..] && path + steps == (path + [steps[0]]) + steps[1..];
      assert PathFits(structs, TypeAt(structs, t, path), [IndexAt(indices[0].n)], [steps[0]]);
      PathFitsJoin(structs, t, base.path, path, [IndexAt(indices[0].n)], [steps[0]]);
      assert AllFixed(indices[1..]) && StepsFit(indices[1..], steps[1..]);
      IndexedFits(structs, t, b, indices[1..], path + [steps[0]], steps[1..]);
    }
  }

  /** The path of the place below the argument. */
  function Below(args: seq<Place>, k: nat, pl: Place): seq<Step>
    requires k < |args| && args[k].Shared? && pl.Shared? && args[k].path <= pl.path
  {
    pl.path[|args[k].path|..]
  }

  ghost predicate Tracks(structs: Structs, params: seq<Param>, fn: nat, args: seq<Place>, e: Expr, pl: Place)
    requires Rooted(params, e) && |args| == |params| && Denotes(params, args, e, pl) && pl.Shared?
  {
    UnrootedIsPrivate(params, args, e, pl);
    var k := RootOf(params, e);
    var s := Own(structs, params, fn, e);
    && TypeOf(structs, params, e) == Some(TypeAt(structs, params[k].ty, Below(args, k, pl)))
    && (!HasDynamic(e) ==> PathFits(structs, params[k].ty, s.path, Below(args, k, pl))
                           && TypeOf(structs, params, e) == Some(s.ty))
  }

  lemma {:induction false} ResolveTracks(structs: Structs, params: seq<Param>, fn: nat, args: seq<Place>, e: Expr,
                                         pl: Place)
    requires |args| == |params| && Denotes(params, args, e, pl) && pl.Shared? && TypeOf(structs, params, e).Some?
    ensures Rooted(params, e) && Tracks(structs, params, fn, args, e, pl)
    decreases e, 1
  {
    UnrootedIsPrivate(params, args, e, pl);
    match e
    case Name(x, _) => ParamLocalsAt(fn, params, x);
    case RefTo(x) => ResolveTracks(structs, params, fn, args, x, pl);
    case Paren(x) => ResolveTracks(structs, params, fn, args, x, pl);
    case FieldOf(_, _, _, _) => FieldTracks(structs, params, fn, args, e, pl);
    case IndexOf(_, _, _) => IndexTracks(structs, params, fn, args, e, pl);
    case _ =>
  }

  lemma {:induction false} FieldTracks(structs: Structs, params: seq<Param>, fn: nat, args: seq<Place>, e: Expr,
                                       pl: Place)
    requires |args| == |params| && Denotes(params, args, e, pl) && pl.Shared? && TypeOf(structs, params, e).Some?
    requires e.FieldOf?
    ensures Rooted(params, e) && Tracks(structs, params, fn, args, e, pl)
    decreases e, 0
  {
    hide Resolve;
    var r := e.receiver;
    var inner := Shared(pl.obj, Without(pl.path, 1));
    UnrootedIsPrivate(params, args, e, pl);
    UnrootedIsPrivate(params, args, r, inner);
    ResolveTracks(structs, params, fn, args, r, inner);
    var k := RootOf(params, e);
    var base := Own(structs, params, fn, r);
    var t := params[k].ty;
    var above := Below(args, k, inner);
    assert Below(args, k, pl) == above + [FieldStep(e.field)];
    TypeAtJoin(structs, t, above, [FieldStep(e.field)]);
    assert TypeAt(structs, TypeAt(structs, t, above), [FieldStep(e.field)]) ==
           StepType(structs, TypeAt(structs, t, above), FieldStep(e.field)) by {
      assert [FieldStep(e.field)][..0] == [];
    }
    OwnField(structs, params, fn, e);
    if !HasDynamic(e) {
      var ordinal := OrdinalIn(structs, base.ty, e.field);
      assert PathFits(structs, TypeAt(structs, t, above), [FieldAt(e.field, ordinal)], [FieldStep(e.field)]) by {
        assert [FieldStep(e.field)][..0] == [];
      }
      PathFitsJoin(structs, t, base.path, above, [FieldAt(e.field, ordinal)], [FieldStep(e.field)]);
    }
  }

  lemma OwnField(structs: Structs, params: seq<Param>, fn: nat, e: Expr)
    requires e.FieldOf?
    ensures Own(structs, params, fn, e) ==
            Placed(Projected(structs, Own(structs, params, fn, e.receiver), e.field), e.region)
  {
  }

  lemma OwnIndex(structs: Structs, params: seq<Param>, fn: nat, e: Expr)
    requires e.IndexOf?
    ensures Own(structs, params, fn, e) == Indexed(Own(structs, params, fn, e.base), e.indices)
  {
  }

  lemma {:induction false} IndexTracks(structs: Structs, params: seq<Param>, fn: nat, args: seq<Place>, e: Expr,
                                       pl: Place)
    requires |args| == |params| && Denotes(params, args, e, pl) && pl.Shared? && TypeOf(structs, params, e).Some?
    requires e.IndexOf?
    ensures Rooted(params, e) && Tracks(structs, params, fn, args, e, pl)
    decreases e, 0
  {
    hide Resolve, Indexed;
    var b, n := e.base, |e.indices|;
    var inner := Shared(pl.obj, Without(pl.path, n));
    UnrootedIsPrivate(params, args, e, pl);
    UnrootedIsPrivate(params, args, b, inner);
    ResolveTracks(structs, params, fn, args, b, inner);
    var k := RootOf(params, e);
    var base := Own(structs, params, fn, b);
    var t := params[k].ty;
    var above, steps := Below(args, k, inner), pl.path[|pl.path| - n..];
    assert Below(args, k, pl) == above + steps;
    TypeAtJoin(structs, t, above, steps);
    IndexedType(structs, TypeAt(structs, t, above), steps);
    OwnIndex(structs, params, fn, e);
    if !HasDynamic(e) {
      IndexedFits(structs, t, base, e.indices, above, steps);
    }
  }

  // ---------------------------------------------------------------------------------------------
  // Overlap

  /** One path runs through the other: the parts share storage. */
  predicate PlacesOverlap(a: seq<Step>, b: seq<Step>) {
    a <= b || b <= a
  }

  lemma {:induction false} ClashAt(a: seq<Element>, b: seq<Element>)
    ensures PathsClash(a, b) <==> exists i :: 0 <= i < |a| && i < |b| && ElementsClash(a[i], b[i])
  {
    if a != [] && b != [] {
      ClashAt(a[1..], b[1..]);
      if ElementsClash(a[0], b[0]) {
      } else if PathsClash(a[1..], b[1..]) {
        var i :| 0 <= i < |a[1..]| && i < |b[1..]| && ElementsClash(a[1..][i], b[1..][i]);
        assert ElementsClash(a[i + 1], b[i + 1]);
      } else if i :| 0 <= i < |a| && i < |b| && ElementsClash(a[i], b[i]) {
        assert ElementsClash(a[1..][i - 1], b[1..][i - 1]);
      }
    }
  }
}
