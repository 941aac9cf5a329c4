/** Bit fields over an unsigned word: which declarations are accepted, and how fields are read and updated. */
module Bits {
  import opened Wrappers
  import opened Words

  // ---------------------------------------------------------------------------------------------
  // Ranges

  /** `^uint64(0)`. */
  function AllOnes(): (r: nat)
    ensures r == Pow(WIDTH) - 1
  {
    Pow(WIDTH) - 1
  }

  /** `(1 << n) - 1`. */
  function LowOnes(n: nat): (r: nat)
    requires n < WIDTH
    ensures r == Pow(n) - 1
  {
    ShlOne(n);
    Shl(1, n) - 1
  }

  /** `bitRangeMask`. */
  function Mask(start: nat, end: nat): nat
    requires start <= end < WIDTH
  {
    if end - start == 63 then AllOnes() else Shl(LowOnes(end - start + 1), start)
  }

  lemma MaskBit(start: nat, end: nat, i: nat)
    requires start <= end < WIDTH && i < WIDTH
    ensures Bit(Mask(start, end), i) <==> start <= i <= end
  {
    hide Bit, Shl, Pow, AllOnes, LowOnes;
    if end - start == 63 {
      BitOnes(WIDTH, i);
    } else {
      var n := end - start + 1;
      ShlOne(n);
      PowGrows(n, WIDTH);
      BitShl(Pow(n) - 1, start, i);
      if start <= i {
        BitOnes(n, i - start);
      }
    }
  }

  lemma MaskIsWord(start: nat, end: nat)
    requires start <= end < WIDTH
    ensures IsWord(Mask(start, end))
    ensures start == 0 ==> Mask(start, end) == Pow(end + 1) - 1
  {
    hide Bit, Shl, Pow, AllOnes, LowOnes;
    if end - start < 63 {
      ShlOne(end - start + 1);
      PowGrows(end - start + 1, WIDTH);
      ShlIsWord(Pow(end - start + 1) - 1, start);
      if start == 0 {
        ShlNothing(Pow(end + 1) - 1);
      }
    }
  }

  lemma ShlNothing(x: nat)
    ensures Shl(x, 0) == x
  {
  }

  /** Positions `start` to `end`, both included. */
  datatype Field = Field(name: string, start: nat, end: nat)

  predicate InWidth(f: Field, width: nat) {
    f.start <= f.end < width <= WIDTH
  }

  predicate Covers(f: Field, i: nat) {
    f.start <= i <= f.end
  }

  /** The ranges share no position. */
  predicate Apart(a: Field, b: Field) {
    a.end < b.start || b.end < a.start
  }

  // ---------------------------------------------------------------------------------------------
  // Declarations

  datatype BitsError = DuplicateName | RangeInvalid | Overlap

  /** An accepted declaration. */
  ghost predicate Accepted(fields: seq<Field>, width: nat) {
    && (forall i :: 0 <= i < |fields| ==> fields[i].name != "raw" && InWidth(fields[i], width))
    && (forall i, j :: 0 <= i < j < |fields| ==> fields[i].name != fields[j].name && Apart(fields[i], fields[j]))
  }

  /** The first field that cannot be accepted after those before it, and what is wrong with it. */
  ghost predicate AtFault(fields: seq<Field>, width: nat, i: nat, e: BitsError)
    requires i < |fields|
  {
    && Accepted(fields[..i], width)
    && match e
       case DuplicateName => Reused(fields, i)
       case RangeInvalid => !Reused(fields, i) && !InWidth(fields[i], width)
       case Overlap => !Reused(fields, i) && InWidth(fields[i], width) && exists k ::
                         0 <= k < i && !Apart(fields[k], fields[i])
  }

  ghost predicate Reused(fields: seq<Field>, i: nat)
    requires i < |fields|
  {
    fields[i].name == "raw" || exists k :: 0 <= k < i && fields[k].name == fields[i].name
  }

  /** The union of the masks. */
  ghost predicate Occupies(occupied: nat, fields: seq<Field>) {
    IsWord(occupied) &&
    forall i :: 0 <= i < WIDTH ==> (Bit(occupied, i) <==> exists k :: 0 <= k < |fields| && Covers(fields[k], i))
  }

  /** A new range is free exactly when it is apart from all the others. */
  lemma FreeIsApart(occupied: nat, fields: seq<Field>, f: Field)
    requires Occupies(occupied, fields) && InWidth(f, WIDTH)
    requires forall k :: 0 <= k < |fields| ==> InWidth(fields[k], WIDTH)
    ensures Both(occupied, Mask(f.start, f.end)) == 0 <==> forall k :: 0 <= k < |fields| ==> Apart(fields[k], f)
  {
    hide Bit, Mask, Both, Pow;
    var m := Mask(f.start, f.end);
    if forall k :: 0 <= k < |fields| ==> Apart(fields[k], f) {
      forall i | 0 <= i < WIDTH ensures Bit(Both(occupied, m), i) <==> Bit(0, i) {
        BitBoth(occupied, m, i);
        MaskBit(f.start, f.end, i);
        BitZero(i);
      }
      BothIsSmall(occupied, m);
      SameBits(Both(occupied, m), 0, WIDTH);
    } else {
      var k :| 0 <= k < |fields| && !Apart(fields[k], f);
      var i := if f.start < fields[k].start then fields[k].start else f.start;
      assert Covers(fields[k], i);
      BitBoth(occupied, m, i);
      MaskBit(f.start, f.end, i);
      BitZero(i);
    }
  }

  lemma OccupiesMore(occupied: nat, fields: seq<Field>, f: Field)
    requires Occupies(occupied, fields) && InWidth(f, WIDTH)
    ensures Occupies(Either(occupied, Mask(f.start, f.end)), fields + [f])
  {
    hide Bit, Mask, Either, Pow;
    var m, more := Mask(f.start, f.end), fields + [f];
    MaskIsWord(f.start, f.end);
    EitherIsBelow(occupied, m, WIDTH);
    forall i | 0 <= i < WIDTH ensures Bit(Either(occupied, m), i) <==>
      exists k :: 0 <= k < |more| && Covers(more[k], i) {
      BitEither(occupied, m, i);
      MaskBit(f.start, f.end, i);
      if k :| 0 <= k < |fields| && Covers(fields[k], i) {
        assert Covers(more[k], i);
      }
      if Covers(f, i) {
        assert Covers(more[|fields|], i);
      }
    }
  }

  lemma NoneOccupied()
    ensures Occupies(0, [])
  {
    hide Bit;
    forall i | 0 <= i < WIDTH ensures !Bit(0, i) {
      BitZero(i);
    }
  }

  /** The field loop of `parseBitsDecl`. */
  method ParseFields(fields: seq<Field>, width: nat) returns (r: Option<BitsError>)
    requires width == 8 || width == 16 || width == 32 || width == 64
    ensures r == None <==> Accepted(fields, width)
    ensures r.Some? ==> exists i :: 0 <= i < |fields| && AtFault(fields, width, i, r.value)
  {
    hide Mask, Both, Either, Occupies;
    var seen := {"raw"};
    var occupied := 0;
    NoneOccupied();
    assert fields[..0] == [];
    for i := 0 to |fields|
      invariant Accepted(fields[..i], width) && Occupies(occupied, fields[..i])
      invariant forall x :: x in seen <==> x == "raw" || exists k :: 0 <= k < i && fields[k].name == x
    {
      var f := fields[i];
      if f.name in seen {
        assert AtFault(fields, width, i, DuplicateName);
        return Some(DuplicateName);
      }
      seen := seen + {f.name};
      if f.start > f.end || f.end >= width {
        assert AtFault(fields, width, i, RangeInvalid);
        return Some(RangeInvalid);
      }
      FreeIsApart(occupied, fields[..i], f);
      if Both(occupied, Mask(f.start, f.end)) != 0 {
        ghost var k :| 0 <= k < i && !Apart(fields[..i][k], f);
        assert !Apart(fields[k], fields[i]);
        assert AtFault(fields, width, i, Overlap);
        return Some(Overlap);
      }
      OccupiesMore(occupied, fields[..i], f);
      occupied := Either(occupied, Mask(f.start, f.end));
      assert fields[..i + 1] == fields[..i] + [f];
    }
    assert fields[..|fields|] == fields;
    r := None;
  }

  // ---------------------------------------------------------------------------------------------
  // Reading and updating

  /** The projection of a field. */
  function Read(raw: nat, f: Field): nat
    requires InWidth(f, WIDTH)
  {
    Both(Shr(raw, f.start), Mask(0, f.end - f.start))
  }

  /** The cast to the representation type keeps the low bits. */
  function Cast(x: nat, width: nat): nat
    requires 0 < width <= WIDTH
  {
    Both(x, Mask(0, width - 1))
  }

  /** A `with` update; `None` is the panic for a value that does not fit. */
  function Update(raw: nat, f: Field, v: nat, width: nat): Option<nat>
    requires InWidth(f, width)
  {
    if f.end - f.start < 63 && v > Mask(0, f.end - f.start) then None
    else
      var mask := Mask(f.start, f.end);
      MaskIsWord(f.start, f.end);
      Some(Cast(Either(Both(raw, Flip(mask)), Both(Shl(v, f.start), mask)), width))
  }

  lemma ReadBit(raw: nat, f: Field, i: nat)
    requires InWidth(f, WIDTH) && i < WIDTH
    ensures Bit(Read(raw, f), i) <==> i <= f.end - f.start && Bit(raw, f.start + i)
  {
    hide Bit, Mask, Both, Shr;
    BitBoth(Shr(raw, f.start), Mask(0, f.end - f.start), i);
    MaskBit(0, f.end - f.start, i);
    BitShr(raw, f.start, i);
  }

  lemma ReadIsSmall(raw: nat, f: Field)
    requires InWidth(f, WIDTH)
    ensures IsWord(Read(raw, f))
  {
    hide Mask, Both, Shr, Pow;
    MaskIsWord(0, f.end - f.start);
    BothIsSmall(Shr(raw, f.start), Mask(0, f.end - f.start));
  }

  lemma CastBit(x: nat, width: nat, i: nat)
    requires 0 < width <= WIDTH && i < WIDTH
    ensures Bit(Cast(x, width), i) <==> i < width && Bit(x, i)
  {
    hide Bit, Mask, Both;
    BitBoth(x, Mask(0, width - 1), i);
    MaskBit(0, width - 1, i);
  }

  lemma CastIsBelow(x: nat, width: nat)
    requires 0 < width <= WIDTH
    ensures Cast(x, width) < Pow(width) && IsWord(Cast(x, width))
  {
    hide Mask, Both, Pow;
    MaskIsWord(0, width - 1);
    BothIsSmall(x, Mask(0, width - 1));
  }

  /** Bit by bit, an update replaces the field and keeps the rest. */
  lemma UpdateBit(raw: nat, f: Field, v: nat, width: nat, i: nat)
    requires InWidth(f, width) && IsWord(raw) && IsWord(v) && Update(raw, f, v, width).Some? && i < WIDTH
    ensures Bit(Update(raw, f, v, width).value, i) <==>
            i < width && (if Covers(f, i) then Bit(v, i - f.start) else Bit(raw, i))
  {
    hide Bit, Mask, Both, Either, Shl, Cast, Pow;
    var mask := Mask(f.start, f.end);
    MaskIsWord(f.start, f.end);
    CastBit(Either(Both(raw, Flip(mask)), Both(Shl(v, f.start), mask)), width, i);
    BitEither(Both(raw, Flip(mask)), Both(Shl(v, f.start), mask), i);
    BitBoth(raw, Flip(mask), i);
    BitComplement(mask, WIDTH, i);
    BitBoth(Shl(v, f.start), mask, i);
    BitShl(v, f.start, i);
    MaskBit(f.start, f.end, i);
  }

  /** A value that passes the check has no bit above the field's width. */
  lemma AcceptedValue(raw: nat, f: Field, v: nat, width: nat, i: nat)
    requires InWidth(f, width) && IsWord(v) && Update(raw, f, v, width).Some? && f.end - f.start < i < WIDTH
    ensures !Bit(v, i)
  {
    hide Bit, Mask, Pow, Both, Either, Shl, Cast;
    MaskIsWord(0, f.end - f.start);
    BitAbove(v, f.end - f.start + 1, i);
  }

  /** The check refuses exactly the values that do not fit the field. */
  lemma UpdatePanicsIff(raw: nat, f: Field, v: nat, width: nat)
    requires InWidth(f, width) && IsWord(v)
    ensures Update(raw, f, v, width).None? <==> v >= Pow(f.end - f.start + 1)
  {
    hide Mask, Pow, Both, Either, Shl, Cast;
    MaskIsWord(0, f.end - f.start);
  }

  /** The word stays within its representation. */
  lemma UpdateFits(raw: nat, f: Field, v: nat, width: nat)
    requires InWidth(f, width) && Update(raw, f, v, width).Some?
    ensures Update(raw, f, v, width).value < Pow(width) && IsWord(Update(raw, f, v, width).value)
  {
    hide Mask, Pow, Both, Either, Shl, Cast, Flip;
    MaskIsWord(f.start, f.end);
    var mask := Mask(f.start, f.end);
    CastIsBelow(Either(Both(raw, Flip(mask)), Both(Shl(v, f.start), mask)), width);
  }

  /** An accepted value reads back exactly. */
  lemma UpdateReadsBack(raw: nat, f: Field, v: nat, width: nat)
    requires InWidth(f, width) && IsWord(raw) && IsWord(v) && Update(raw, f, v, width).Some?
    ensures Read(Update(raw, f, v, width).value, f) == v
  {
    hide Bit, Read, Update, Pow;
    var after := Update(raw, f, v, width).value;
    forall i | 0 <= i < WIDTH ensures Bit(Read(after, f), i) <==> Bit(v, i) {
      ReadBit(after, f, i);
      if i <= f.end - f.start {
        UpdateBit(raw, f, v, width, f.start + i);
      } else {
        AcceptedValue(raw, f, v, width, i);
      }
    }
    ReadIsSmall(after, f);
    SameBits(Read(after, f), v, WIDTH);
  }

  /** Every other field is unchanged. */
  lemma UpdateKeepsOthers(raw: nat, f: Field, v: nat, width: nat, g: Field)
    requires InWidth(f, width) && InWidth(g, width) && Apart(f, g)
    requires IsWord(raw) && IsWord(v) && Update(raw, f, v, width).Some?
    ensures Read(Update(raw, f, v, width).value, g) == Read(raw, g)
  {
    hide Bit, Read, Update, Pow;
    var after := Update(raw, f, v, width).value;
    forall i | 0 <= i < WIDTH ensures Bit(Read(after, g), i) <==> Bit(Read(raw, g), i) {
      ReadBit(after, g, i);
      ReadBit(raw, g, i);
      if i <= g.end - g.start {
        UpdateBit(raw, f, v, width, g.start + i);
      }
    }
    ReadIsSmall(after, g);
    ReadIsSmall(raw, g);
    SameBits(Read(after, g), Read(raw, g), WIDTH);
  }

  /** Updates of different fields commute. */
  lemma UpdatesCommute(raw: nat, f: Field, v: nat, g: Field, u: nat, width: nat)
    requires InWidth(f, width) && InWidth(g, width) && Apart(f, g) && IsWord(raw) && IsWord(v) && IsWord(u)
    requires Update(raw, f, v, width).Some? && Update(raw, g, u, width).Some?
    ensures var a := Update(Update(raw, f, v, width).value, g, u, width);
            var b := Update(Update(raw, g, u, width).value, f, v, width);
            a.Some? && a == b
  {
    hide Bit, Update, Pow;
    var x, y := Update(raw, f, v, width).value, Update(raw, g, u, width).value;
    UpdatePanicsIff(raw, f, v, width);
    UpdatePanicsIff(raw, g, u, width);
    UpdatePanicsIff(x, g, u, width);
    UpdatePanicsIff(y, f, v, width);
    UpdateFits(raw, f, v, width);
    UpdateFits(raw, g, u, width);
    UpdateFits(x, g, u, width);
    UpdateFits(y, f, v, width);
    var a, b := Update(x, g, u, width).value, Update(y, f, v, width).value;
    forall i | 0 <= i < WIDTH ensures Bit(a, i) <==> Bit(b, i) {
      UpdateBit(x, g, u, width, i);
      UpdateBit(raw, f, v, width, i);
      UpdateBit(y, f, v, width, i);
      UpdateBit(raw, g, u, width, i);
    }
    SameBits(a, b, WIDTH);
  }

  /** Fields of an accepted declaration update independently: each reads back, the others keep their values. */
  lemma AcceptedFieldsAreIndependent(fields: seq<Field>, width: nat, raw: nat, i: nat, v: nat)
    requires width <= WIDTH && Accepted(fields, width) && i < |fields| && IsWord(raw) && IsWord(v)
    ensures Update(raw, fields[i], v, width).None? <==> v >= Pow(fields[i].end - fields[i].start + 1)
    ensures Update(raw, fields[i], v, width).Some? ==>
              var after := Update(raw, fields[i], v, width).value;
              && after < Pow(width) && Read(after, fields[i]) == v
              && forall j :: 0 <= j < |fields| && j != i ==> Read(after, fields[j]) == Read(raw, fields[j])
  {
    hide Read, Update, Pow;
    UpdatePanicsIff(raw, fields[i], v, width);
    if Update(raw, fields[i], v, width).Some? {
      UpdateReadsBack(raw, fields[i], v, width);
      UpdateFits(raw, fields[i], v, width);
      forall j | 0 <= j < |fields| && j != i
        ensures Read(Update(raw, fields[i], v, width).value, fields[j]) == Read(raw, fields[j])
      {
        UpdateKeepsOthers(raw, fields[i], v, width, fields[j]);
      }
    }
  }
}
