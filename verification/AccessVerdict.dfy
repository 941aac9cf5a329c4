/** Execution contexts, overlap of subjects, and the verdict on synchronised access to a type. */
module AccessVerdict {
  import opened Wrappers
  import opened AccessModel
  import opened AccessSummary

  // ---------------------------------------------------------------------------------------------
  // Contexts

  /** A context reaches `f` through at most `n` calls. */
  ghost predicate RunsWithin(p: Program, ws: Walks, f: nat, c: string, n: nat)
    decreases n
  {
    && f < |p.fns|
    && (|| p.fns[f].context == Some(c)
        || (n > 0 && exists g: nat, j: nat :: MayCall(p, ws, g, j, f) && RunsWithin(p, ws, g, c, n - 1)))
  }

  predicate MayCall(p: Program, ws: Walks, g: nat, j: nat, f: nat) {
    g < |ws| && j < |ws[g].calls| && f in Candidates(p.fns, ws[g].calls[j])
  }

  ghost predicate RunsIn(p: Program, ws: Walks, f: nat, c: string) {
    exists n: nat :: RunsWithin(p, ws, f, c, n)
  }

  type ContextSets = seq<set<string>>

  ghost predicate ContextsSound(p: Program, ws: Walks, s: ContextSets) {
    |s| == |p.fns| && forall f, c :: 0 <= f < |s| && c in s[f] ==> RunsIn(p, ws, f, c)
  }

  ghost predicate HasOwn(p: Program, s: ContextSets) {
    |s| == |p.fns| && forall f :: 0 <= f < |s| && p.fns[f].context.Some? ==> p.fns[f].context.value in s[f]
  }

  ghost predicate Passed(p: Program, ws: Walks, s: ContextSets, g: nat)
    requires g < |s| && |s| == |p.fns|
  {
    forall j: nat, f: nat :: MayCall(p, ws, g, j, f) ==> s[g] <= s[f]
  }

  /** The sets hold exactly the contexts that reach each function. */
  ghost predicate ExactContexts(p: Program, ws: Walks, s: ContextSets) {
    |s| == |p.fns| && forall f, c :: 0 <= f < |s| ==> (c in s[f] <==> RunsIn(p, ws, f, c))
  }

  lemma {:induction false} PassedHas(p: Program, ws: Walks, s: ContextSets, f: nat, c: string, n: nat)
    requires |ws| == |p.fns| && HasOwn(p, s) && (forall g :: 0 <= g < |s| ==> Passed(p, ws, s, g))
             && RunsWithin(p, ws, f, c, n)
    ensures c in s[f]
    decreases n
  {
    hide MayCall;
    if p.fns[f].context != Some(c) {
      var g: nat, j: nat :| MayCall(p, ws, g, j, f) && RunsWithin(p, ws, g, c, n - 1);
      PassedHas(p, ws, s, g, c, n - 1);
      assert Passed(p, ws, s, g);
    }
  }

  ghost function AllNames(p: Program): set<string> {
    set f | 0 <= f < |p.fns| && p.fns[f].context.Some? :: p.fns[f].context.value
  }

  /** Contexts still to be added, over all functions. */
  ghost function Room(all: set<string>, s: ContextSets): nat {
    if s == [] then 0 else Room(all, s[..|s| - 1]) + |all - s[|s| - 1]|
  }

  lemma {:induction false} RoomShrinks(all: set<string>, s: ContextSets, f: nat, more: set<string>)
    requires f < |s| && s[f] < more <= all
    ensures Room(all, s[f := more]) < Room(all, s)
  {
    var last := |s| - 1;
    if f == last {
      assert s[f := more][..last] == s[..last];
      assert all - more < all - s[f];
      SmallerNames(all - more, all - s[f]);
    } else {
      assert s[f := more][..last] == s[..last][f := more];
      RoomShrinks(all, s[..last], f, more);
    }
  }

  lemma {:induction false} SmallerNames(a: set<string>, b: set<string>)
    requires a < b
    ensures |a| < |b|
  {
    var x :| x in b && x !in a;
    if a != {} {
      var y :| y in a;
      SmallerNames(a - {y}, b - {y});
    }
  }

  ghost predicate ContextInvariant(p: Program, ws: Walks, s: ContextSets) {
    ContextsSound(p, ws, s) && HasOwn(p, s) && forall f :: 0 <= f < |s| ==> s[f] <= AllNames(p)
  }

  lemma PassKeeps(p: Program, ws: Walks, s: ContextSets, g: nat, j: nat, f: nat)
    requires ContextInvariant(p, ws, s) && |ws| == |s| && MayCall(p, ws, g, j, f) && f < |s|
    ensures ContextInvariant(p, ws, s[f := s[f] + s[g]])
  {
    var t := s[f := s[f] + s[g]];
    forall h, c | 0 <= h < |t| && c in t[h] ensures RunsIn(p, ws, h, c) {
      if c !in s[h] {
        var n: nat :| RunsWithin(p, ws, g, c, n);
        assert RunsWithin(p, ws, f, c, n + 1);
      }
    }
  }

  /** One caller passes its contexts on. */
  method PassOn(p: Program, ws: Walks, s: ContextSets, g: nat) returns (t: ContextSets, changed: bool)
    requires |ws| == |p.fns| && |s| == |ws| && ContextInvariant(p, ws, s) && g < |ws|
    ensures |t| == |s| && ContextInvariant(p, ws, t)
    ensures !changed ==> t == s && Passed(p, ws, s, g)
    ensures changed ==> Room(AllNames(p), t) < Room(AllNames(p), s)
  {
    hide ContextsSound, Room;
    t, changed := s, false;
    for j := 0 to |ws[g].calls|
      invariant |t| == |s| && ContextInvariant(p, ws, t)
      invariant !changed ==> t == s && forall k: nat, f: nat :: k < j && MayCall(p, ws, g, k, f) ==> s[g] <= s[f]
      invariant changed ==> Room(AllNames(p), t) < Room(AllNames(p), s)
    {
      var callees := Candidates(p.fns, ws[g].calls[j]);
      for i := 0 to |callees|
        invariant |t| == |s| && ContextInvariant(p, ws, t)
        invariant !changed ==> t == s && (forall k: nat, f: nat :: k < j && MayCall(p, ws, g, k, f) ==> s[g] <= s[f])
        invariant !changed ==> forall k :: 0 <= k < i ==> callees[k] < |s| && s[g] <= s[callees[k]]
        invariant changed ==> Room(AllNames(p), t) < Room(AllNames(p), s)
      {
        var f := callees[i];
        assert f in callees && MayCall(p, ws, g, j, f);
        if !(t[g] <= t[f]) {
          PassKeeps(p, ws, t, g, j, f);
          RoomShrinks(AllNames(p), t, f, t[f] + t[g]);
          t := t[f := t[f] + t[g]];
          changed := true;
        }
      }
    }
  }

  /** One round over all callers. */
  method ContextRound(p: Program, ws: Walks, s: ContextSets) returns (t: ContextSets, changed: bool)
    requires |ws| == |p.fns| && |s| == |ws| && ContextInvariant(p, ws, s)
    ensures |t| == |s| && ContextInvariant(p, ws, t)
    ensures !changed ==> t == s && forall g :: 0 <= g < |s| ==> Passed(p, ws, s, g)
    ensures changed ==> Room(AllNames(p), t) < Room(AllNames(p), s)
  {
    hide ContextInvariant, Passed, Room;
    t, changed := s, false;
    for g := 0 to |ws|
      invariant |t| == |s| && ContextInvariant(p, ws, t)
      invariant !changed ==> t == s && forall h :: 0 <= h < g ==> Passed(p, ws, s, h)
      invariant changed ==> Room(AllNames(p), t) < Room(AllNames(p), s)
    {
      var more;
      t, more := PassOn(p, ws, t, g);
      changed := changed || more;
    }
  }

  function OwnContexts(p: Program): (s: ContextSets)
    ensures |s| == |p.fns|
  {
    seq(|p.fns|, f requires 0 <= f < |p.fns| => if p.fns[f].context.Some? then {p.fns[f].context.value} else {})
  }

  lemma OwnInvariant(p: Program, ws: Walks)
    ensures ContextInvariant(p, ws, OwnContexts(p))
  {
    var s := OwnContexts(p);
    forall f, c | 0 <= f < |s| && c in s[f] ensures RunsIn(p, ws, f, c) {
      assert RunsWithin(p, ws, f, c, 0);
    }
  }

  lemma PassedIsExact(p: Program, ws: Walks, s: ContextSets)
    requires |ws| == |p.fns| && |s| == |ws| && ContextInvariant(p, ws, s) && forall g ::
               0 <= g < |s| ==> Passed(p, ws, s, g)
    ensures ExactContexts(p, ws, s)
  {
    hide Passed;
    forall f, c | 0 <= f < |s| && RunsIn(p, ws, f, c) ensures c in s[f] {
      var n: nat :| RunsWithin(p, ws, f, c, n);
      PassedHas(p, ws, s, f, c, n);
    }
  }

  /** `evt1AccessContexts`. */
  method AccessContexts(p: Program, ws: Walks) returns (s: ContextSets)
    requires |ws| == |p.fns|
    ensures ExactContexts(p, ws, s)
  {
    hide ContextInvariant, Passed, ExactContexts, Room;
    s := OwnContexts(p);
    OwnInvariant(p, ws);
    var changed := true;
    while changed
      invariant |s| == |ws| && ContextInvariant(p, ws, s)
      invariant !changed ==> forall g :: 0 <= g < |s| ==> Passed(p, ws, s, g)
      decreases Room(AllNames(p), s), changed
    {
      s, changed := ContextRound(p, ws, s);
    }
    PassedIsExact(p, ws, s);
  }

  // ---------------------------------------------------------------------------------------------
  // Overlap

  /** Two path elements that cannot name the same part. */
  predicate ElementsClash(a: Element, b: Element) {
    || (a.FieldAt? && b.FieldAt? && a.ordinal >= 0 && b.ordinal >= 0 && a.ordinal != b.ordinal)
    || (a.IndexAt? && b.IndexAt? && a.index != b.index)
  }

  predicate PathsClash(a: seq<Element>, b: seq<Element>) {
    a != [] && b != [] && (ElementsClash(a[0], b[0]) || PathsClash(a[1..], b[1..]))
  }

  predicate SameRegion(a: Subject, b: Subject) {
    a.resolution.Interval? && b.resolution.Interval? && a.region != "" && a.region == b.region && a.extent > 0
      && b.extent > 0
  }

  /** `evt1AccessSubjectsOverlap`. */
  predicate SubjectsOverlap(a: Subject, b: Subject) {
    if a.resolution.Opaque? || b.resolution.Opaque? then true
    else if PathsClash(a.path, b.path) then false
    else if SameRegion(a, b) then a.offset < b.offset + b.extent && b.offset < a.offset + a.extent
    else true
  }

  lemma {:induction false} ClashIsSymmetric(a: seq<Element>, b: seq<Element>)
    ensures PathsClash(a, b) == PathsClash(b, a)
  {
    if a != [] && b != [] {
      ClashIsSymmetric(a[1..], b[1..]);
    }
  }

  lemma OverlapIsSymmetric(a: Subject, b: Subject)
    ensures SubjectsOverlap(a, b) == SubjectsOverlap(b, a)
  {
    ClashIsSymmetric(a.path, b.path);
  }

  /** At position `k` the paths take two different known fields, or two different literal indices. */
  ghost predicate PartAt(a: seq<Element>, b: seq<Element>, k: nat) {
    && k < |a| && k < |b|
    && match (a[k], b[k])
       case (FieldAt(_, i), FieldAt(_, j)) => 0 <= i && 0 <= j && i != j
       case (IndexAt(i), IndexAt(j)) => i != j
       case _ => false
  }

  lemma {:induction false} ClashIff(a: seq<Element>, b: seq<Element>)
    ensures PathsClash(a, b) <==> exists k: nat :: PartAt(a, b, k)
  {
    if a != [] && b != [] {
      ClashIff(a[1..], b[1..]);
      if PartAt(a, b, 0) {
        assert ElementsClash(a[0], b[0]);
      } else if k: nat :| PartAt(a[1..], b[1..], k) {
        assert PartAt(a, b, k + 1);
      } else if k: nat :| PartAt(a, b, k) {
        assert PartAt(a[1..], b[1..], k - 1);
      }
    }
  }

  /** A unit of the region lies within the subject's interval. */
  ghost predicate Holds(s: Subject, n: int) {
    s.offset <= n < s.offset + s.extent
  }

  /**
   Subjects are taken to overlap unless both are resolved and they part on their paths, or are intervals of one region
   without a common unit.
   */
  lemma OverlapIff(a: Subject, b: Subject)
    ensures SubjectsOverlap(a, b) <==>
            || a.resolution.Opaque? || b.resolution.Opaque?
            || (&& (forall k: nat :: !PartAt(a.path, b.path, k))
                && (SameRegion(a, b) ==> exists n :: Holds(a, n) && Holds(b, n)))
  {
    ClashIff(a.path, b.path);
    if SameRegion(a, b) {
      if a.offset < b.offset + b.extent && b.offset < a.offset + a.extent {
        var n := if a.offset < b.offset then b.offset else a.offset;
        assert Holds(a, n) && Holds(b, n);
      }
    }
  }

  // ---------------------------------------------------------------------------------------------
  // The verdict

  /** An entry with the contexts its function runs in: one, several (shared) or none (ordinary). */
  datatype Access = Access(entry: Entry, contexts: set<string>)

  datatype Outcome = Proven | Disproven | Unknown

  function RootType(r: Root): Ty {
    match r
    case Parameter(_, _, _, ty) => ty
    case Value(_, _, ty) => ty
    case NoRoot(_) => UNTYPED
  }

  predicate About(a: Access, subject: Ty) {
    a.entry.subject.ty == subject || RootType(a.entry.subject.root) == subject
  }

  predicate Resolved(a: Access) {
    |a.contexts| == 1 && !a.entry.subject.resolution.Opaque?
  }

  predicate Atomic(k: AccessKind) { k == AtomicRead || k == AtomicWrite }

  predicate Writes(k: AccessKind) { k == Write || k == AtomicWrite }

  predicate Conflict(a: Access, b: Access) {
    && a.contexts != b.contexts && SubjectsOverlap(a.entry.subject, b.entry.subject)
    && (Writes(a.entry.kind) || Writes(b.entry.kind)) && (!Atomic(a.entry.kind) || !Atomic(b.entry.kind))
  }

  ghost predicate AllResolved(all: seq<Access>, subject: Ty) {
    forall a :: a in all && About(a, subject) ==> Resolved(a)
  }

  ghost predicate Confined(all: seq<Access>, subject: Ty) {
    forall a, b :: a in all && b in all && About(a, subject) && About(b, subject) ==> a.contexts == b.contexts
  }

  ghost predicate AllAtomic(all: seq<Access>, subject: Ty) {
    forall a :: a in all && About(a, subject) ==> Atomic(a.entry.kind)
  }

  ghost predicate ConflictFree(all: seq<Access>, subject: Ty) {
    forall a, b :: a in all && b in all && About(a, subject) && About(b, subject) ==> !Conflict(a, b)
  }

  ghost predicate Accessed(all: seq<Access>, subject: Ty) {
    exists a :: a in all && About(a, subject)
  }

  /** When the analysis claims that access to `subject` is synchronised. */
  ghost predicate Justified(all: seq<Access>, subject: Ty) {
    && Accessed(all, subject) && AllResolved(all, subject)
    && (Confined(all, subject) || AllAtomic(all, subject) || ConflictFree(all, subject))
  }

  ghost predicate Refuted(all: seq<Access>, subject: Ty) {
    && Accessed(all, subject) && AllResolved(all, subject)
    && !Confined(all, subject) && !AllAtomic(all, subject) && !ConflictFree(all, subject)
  }

  lemma ConflictIsSymmetric(a: Access, b: Access)
    ensures Conflict(a, b) == Conflict(b, a)
  {
    OverlapIsSymmetric(a.entry.subject, b.entry.subject);
  }

  /** `chosen` lists the accesses about `subject`. */
  ghost predicate Selects(chosen: seq<Access>, all: seq<Access>, subject: Ty) {
    forall a :: a in chosen <==> a in all && About(a, subject)
  }

  /** The first loop: the matching accesses, their contexts, and whether all are atomic. */
  method Select(all: seq<Access>, subject: Ty)
    returns (ok: bool, chosen: seq<Access>, contexts: set<set<string>>, allAtomic: bool)
    ensures ok <==> AllResolved(all, subject)
    ensures ok ==> Selects(chosen, all, subject) && contexts == (set a | a in chosen :: a.contexts)
    ensures ok ==> (allAtomic <==> AllAtomic(all, subject))
  {
    hide About, Resolved, Atomic;
    chosen, contexts, allAtomic := [], {}, true;
    for i := 0 to |all|
      invariant AllResolved(all[..i], subject) && Selects(chosen, all[..i], subject)
      invariant contexts == (set a | a in chosen :: a.contexts)
      invariant allAtomic <==> AllAtomic(all[..i], subject)
    {
      assert all[..i + 1] == all[..i] + [all[i]];
      if About(all[i], subject) {
        if !Resolved(all[i]) {
          ok := false;
          return;
        }
        chosen := chosen + [all[i]];
        contexts := contexts + {all[i].contexts};
        allAtomic := allAtomic && Atomic(all[i].entry.kind);
      }
    }
    assert all[..|all|] == all;
    ok := true;
  }

  /** The pairwise loop. */
  method FindConflict(chosen: seq<Access>) returns (found: bool)
    ensures found <==> exists a, b :: a in chosen && b in chosen && Conflict(a, b)
  {
    hide Conflict;
    for i := 0 to |chosen|
      invariant forall k, l :: 0 <= k < i && k < l < |chosen| ==> !Conflict(chosen[k], chosen[l])
    {
      for j := i + 1 to |chosen|
        invariant forall l :: i < l < j ==> !Conflict(chosen[i], chosen[l])
      {
        if Conflict(chosen[i], chosen[j]) {
          return true;
        }
      }
    }
    forall a, b | a in chosen && b in chosen ensures !Conflict(a, b) {
      var k :| 0 <= k < |chosen| && chosen[k] == a;
      var l :| 0 <= l < |chosen| && chosen[l] == b;
      if k > l {
        ConflictIsSymmetric(chosen[k], chosen[l]);
      } else if k == l {
        NoSelfConflict(a);
      }
    }
    found := false;
  }

  lemma NoSelfConflict(a: Access)
    ensures !Conflict(a, a)
  {
  }

  lemma ContextsTell(all: seq<Access>, subject: Ty, chosen: seq<Access>, contexts: set<set<string>>)
    requires Selects(chosen, all, subject) && contexts == (set a | a in chosen :: a.contexts)
    ensures |contexts| == 1 <==> Accessed(all, subject) && Confined(all, subject)
  {
    hide About;
    if Accessed(all, subject) && Confined(all, subject) {
      var a :| a in all && About(a, subject);
      assert contexts == {a.contexts};
    }
    if |contexts| == 1 {
      var c :| c in contexts;
      forall a | a in chosen ensures a.contexts == c {
        assert {a.contexts, c} <= contexts;
        if a.contexts != c {
          SmallerOrEqual({a.contexts, c}, contexts);
        }
      }
      var a :| a in chosen;
    }
  }

  lemma {:induction false} SmallerOrEqual(a: set<set<string>>, b: set<set<string>>)
    requires a <= b
    ensures |a| <= |b|
  {
    if a != {} {
      var x :| x in a;
      SmallerOrEqual(a - {x}, b - {x});
    }
  }

  /** `evt1DerivedSynchronizedAccess`. */
  method DerivedSynchronizedAccess(all: seq<Access>, subject: Ty) returns (r: Outcome)
    ensures r == Proven <==> Justified(all, subject)
    ensures r == Disproven <==> Refuted(all, subject)
  {
    hide Conflict, About, Resolved, Atomic, Confined;
    var ok, chosen, contexts, allAtomic := Select(all, subject);
    if !ok {
      return Unknown;
    }
    ContextsTell(all, subject, chosen, contexts);
    if |chosen| == 0 {
      return Unknown;
    }
    assert chosen[0] in chosen;
    if |contexts| == 1 {
      return Proven;
    }
    if allAtomic {
      return Proven;
    }
    var found := FindConflict(chosen);
    r := if found then Disproven else Proven;
  }
}
