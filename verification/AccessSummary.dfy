/**
 The summary fixpoint: a caller takes over its callees' entries, with argument paths substituted for
 parameters.  The loop ends on every call graph, and whatever the visiting order its canonical result
 is the least closed summary, each entry at its earliest sequence.
 */
module AccessSummary {
  import opened Wrappers
  import opened AccessModel

  const PATH_CAP := 16

  type Walks = seq<Walk>

  ghost predicate AreWalks(p: Program, ws: Walks) {
    |ws| == |p.fns| && forall f :: 0 <= f < |ws| ==> ws[f] == Walked(p, f)
  }

  // ---------------------------------------------------------------------------------------------
  // One substitution

  function Candidates(fns: seq<Fn>, c: Call): (r: seq<nat>)
    ensures forall k :: k in r <==> 0 <= k < |fns| && fns[k].name == c.callee && |fns[k].params| == |c.args|
  {
    if fns == [] then []
    else
      var last := |fns| - 1;
      Candidates(fns[..last], c) + (if fns[last].name == c.callee && |fns[last].params| == |c.args| then [last] else [])
  }

  /** The one function a call can mean, by name and arity. */
  function Callee(p: Program, c: Call): (r: Option<nat>)
    ensures r.Some? ==> r.value < |p.fns| && |p.fns[r.value].params| == |c.args|
  {
    var all := Candidates(p.fns, c);
    if |all| == 1 then assert all[0] in all; Some(all[0]) else None
  }

  /** A callee's subject seen through the argument `base`. */
  function Extended(base: Subject, s: Subject): Subject {
    if |base.path| + |s.path| > PATH_CAP then base.(path := [], resolution := Opaque)
    else
      base.(path := base.path + s.path, ty := if s.ty == Named("T") then base.ty else s.ty,
            resolution := if s.resolution.Opaque? then Opaque else base.resolution)
  }

  function Argument(p: Program, ws: Walks, f: nat, c: Call, k: nat): Subject
    requires f < |ws| && k < |c.args|
  {
    Resolve(p.structs, ws[f].locals, f, c.args[k])
  }

  function Substitute(p: Program, ws: Walks, f: nat, c: Call, e: Entry): Entry
    requires f < |ws|
  {
    var moved := e.(fn := f, sequence := c.sequence);
    if e.subject.root.Parameter? && e.subject.root.ordinal < |c.args|
    then moved.(subject := Extended(Argument(p, ws, f, c, e.subject.root.ordinal), e.subject))
    else moved
  }

  /** `evt1AccessEntryKey`: everything but the sequence and the spelling of the root. */
  function Key(e: Entry): Entry {
    e.(sequence := 0, subject := Unnamed(e.subject))
  }

  function Unnamed(s: Subject): Subject {
    match s.root
    case Parameter(fn, k, _, ty) => s.(root := Parameter(fn, k, "", ty))
    case Value(fn, _, ty) => s.(root := Value(fn, "", ty))
    case NoRoot(_) => s
  }

  /** Substitution depends on the callee's entry through its key only. */
  lemma SubstituteByKey(p: Program, ws: Walks, f: nat, c: Call, a: Entry, b: Entry)
    requires f < |ws| && Key(a) == Key(b)
    ensures Key(Substitute(p, ws, f, c, a)) == Key(Substitute(p, ws, f, c, b))
    ensures Substitute(p, ws, f, c, a).sequence == Substitute(p, ws, f, c, b).sequence == c.sequence
  {
  }

  // ---------------------------------------------------------------------------------------------
  // The least closed summary

  /** `e` reaches `f`'s summary through a chain of at most `n` calls. */
  ghost predicate Derived(p: Program, ws: Walks, f: nat, e: Entry, n: nat)
    decreases n
  {
    && f < |ws|
    && (|| e in ws[f].entries
        || (n > 0 &&
            exists c, g: nat, inner ::
              IsCall(p, ws, f, c, g) && Derived(p, ws, g, inner, n - 1) && e == Substitute(p, ws, f, c, inner)))
  }

  ghost predicate IsCall(p: Program, ws: Walks, f: nat, c: Call, g: nat) {
    f < |ws| && c in ws[f].calls && Callee(p, c) == Some(g)
  }

  ghost predicate InLeast(p: Program, ws: Walks, f: nat, e: Entry) {
    exists n: nat :: Derived(p, ws, f, e, n)
  }

  /** An entry with the same key, no later. */
  ghost predicate Has(list: seq<Entry>, e: Entry) {
    exists i :: 0 <= i < |list| && Key(list[i]) == Key(e) && list[i].sequence <= e.sequence
  }

  type Summaries = seq<seq<Entry>>

  ghost predicate Sound(p: Program, ws: Walks, s: Summaries) {
    |s| == |ws| && forall f, i :: 0 <= f < |s| && 0 <= i < |s[f]| ==> InLeast(p, ws, f, s[f][i])
  }

  ghost predicate HasBase(ws: Walks, s: Summaries) {
    |s| == |ws| && forall f, i :: 0 <= f < |s| && 0 <= i < |ws[f].entries| ==> Has(s[f], ws[f].entries[i])
  }

  ghost predicate Absorbed(p: Program, ws: Walks, s: Summaries, f: nat, c: Call)
    requires |s| == |ws| && f < |s|
  {
    Callee(p, c).Some? && Callee(p, c).value < |s| ==>
      forall i :: 0 <= i < |s[Callee(p, c).value]| ==> Has(s[f], Substitute(p, ws, f, c, s[Callee(p, c).value][i]))
  }

  ghost predicate ClosedAt(p: Program, ws: Walks, s: Summaries, f: nat)
    requires |s| == |ws| && f < |s|
  {
    forall j :: 0 <= j < |ws[f].calls| ==> Absorbed(p, ws, s, f, ws[f].calls[j])
  }

  ghost predicate Closed(p: Program, ws: Walks, s: Summaries) {
    |s| == |ws| && forall f :: 0 <= f < |s| ==> ClosedAt(p, ws, s, f)
  }

  /** A closed summary that has the base entries has everything derived: it is no smaller than the least. */
  lemma {:induction false} ClosedHasDerived(p: Program, ws: Walks, s: Summaries, f: nat, e: Entry, n: nat)
    requires |ws| == |p.fns| && HasBase(ws, s) && Closed(p, ws, s) && Derived(p, ws, f, e, n)
    ensures Has(s[f], e)
    decreases n
  {
    hide Substitute, Key, ClosedAt, Has;
    if e in ws[f].entries {
      var i :| 0 <= i < |ws[f].entries| && ws[f].entries[i] == e;
    } else {
      var c, g: nat, inner :| IsCall(p, ws, f, c, g) && Derived(p, ws, g, inner, n - 1)
        && e == Substitute(p, ws, f, c, inner);
      ClosedHasDerived(p, ws, s, g, inner, n - 1);
      AbsorbedHas(p, ws, s, f, c, g, inner);
    }
  }

  lemma AbsorbedHas(p: Program, ws: Walks, s: Summaries, f: nat, c: Call, g: nat, inner: Entry)
    requires |ws| == |p.fns| && Closed(p, ws, s) && IsCall(p, ws, f, c, g) && Has(s[g], inner)
    ensures Has(s[f], Substitute(p, ws, f, c, inner))
  {
    hide Substitute, Key;
    var i :| 0 <= i < |s[g]| && Key(s[g][i]) == Key(inner) && s[g][i].sequence <= inner.sequence;
    var j :| 0 <= j < |ws[f].calls| && ws[f].calls[j] == c;
    assert ClosedAt(p, ws, s, f);
    assert Absorbed(p, ws, s, f, ws[f].calls[j]);
    SubstituteByKey(p, ws, f, c, s[g][i], inner);
  }

  // ---------------------------------------------------------------------------------------------
  // The finite universe of keys

  function Words(alphabet: set<Element>, n: nat): set<seq<Element>> {
    if n == 0 then {[]} else Words(alphabet, n - 1) + set w, a | w in Words(alphabet, n - 1) && a in alphabet :: w + [a]
  }

  lemma {:induction false} WordsHave(alphabet: set<Element>, n: nat, w: seq<Element>)
    requires |w| <= n && forall a :: a in w ==> a in alphabet
    ensures w in Words(alphabet, n)
    decreases n
  {
    if w == [] {
      if n > 0 {
        WordsHave(alphabet, n - 1, w);
      }
    } else {
      WordsHave(alphabet, n - 1, w[..|w| - 1]);
      assert w == w[..|w| - 1] + [w[|w| - 1]];
    }
  }

  lemma {:induction false} WordsOver(alphabet: set<Element>, n: nat, w: seq<Element>)
    requires w in Words(alphabet, n)
    ensures forall a :: a in w ==> a in alphabet
    decreases n
  {
    if n > 0 && w !in Words(alphabet, n - 1) {
      var v, a :| v in Words(alphabet, n - 1) && a in alphabet && w == v + [a];
      WordsOver(alphabet, n - 1, v);
    } else if n > 0 {
      WordsOver(alphabet, n - 1, w);
    }
  }

  /** The subjects entries and arguments start from. */
  ghost function Bases(p: Program, ws: Walks): set<Subject> {
    (set f, i | 0 <= f < |ws| && 0 <= i < |ws[f].entries| :: ws[f].entries[i].subject) +
    (set f, j, k | 0 <= f < |ws| && 0 <= j < |ws[f].calls| && 0 <= k < |ws[f].calls[j].args| ::
       Argument(p, ws, f, ws[f].calls[j], k))
  }

  ghost function Alphabet(bases: set<Subject>): set<Element> {
    set s, i | s in bases && 0 <= i < |s.path| :: s.path[i]
  }

  ghost function Paths(bases: set<Subject>): set<seq<Element>> {
    Words(Alphabet(bases), PATH_CAP) + set s | s in bases :: s.path
  }

  ghost function Types(bases: set<Subject>): set<Ty> {
    set s | s in bases :: s.ty
  }

  /** A subject whose parts all occur in the program, its path no longer than the cap unless written so. */
  ghost predicate Known(bases: set<Subject>, s: Subject) {
    && s.path in Paths(bases) && s.ty in Types(bases)
    && exists b :: b in bases && s == b.(path := s.path, ty := s.ty, resolution := s.resolution)
  }

  ghost function KnownSubjects(bases: set<Subject>): set<Subject> {
    set b, w, t, r | b in bases && w in Paths(bases) && t in Types(bases) && r in {Exact, Interval, Opaque} ::
      b.(path := w, ty := t, resolution := r)
  }

  lemma KnownIsMember(bases: set<Subject>, s: Subject)
    requires Known(bases, s)
    ensures s in KnownSubjects(bases)
  {
    var b :| b in bases && s == b.(path := s.path, ty := s.ty, resolution := s.resolution);
    assert s.resolution == Exact || s.resolution == Interval || s.resolution == Opaque;
  }

  ghost function Sites(ws: Walks): set<nat> {
    set f, i | 0 <= f < |ws| && 0 <= i < |ws[f].entries| :: ws[f].entries[i].site
  }

  ghost function Universe(p: Program, ws: Walks): set<Entry> {
    set k, s, f, x | k in {Read, Write, AtomicRead, AtomicWrite} && s in KnownSubjects(Bases(p, ws)) && 0 <= f < |ws|
      && x in Sites(ws) ::
      Key(Entry(k, s, f, 0, x))
  }

  ghost predicate InUniverse(p: Program, ws: Walks, e: Entry) {
    Known(Bases(p, ws), e.subject) && e.fn < |ws| && e.site in Sites(ws)
  }

  lemma KeyInUniverse(p: Program, ws: Walks, e: Entry)
    requires InUniverse(p, ws, e)
    ensures Key(e) in Universe(p, ws)
  {
    KnownIsMember(Bases(p, ws), e.subject);
    assert e.kind == Read || e.kind == Write || e.kind == AtomicRead || e.kind == AtomicWrite;
    assert Key(e) == Key(Entry(e.kind, e.subject, e.fn, 0, e.site));
  }

  lemma BaseIsKnown(bases: set<Subject>, s: Subject)
    requires s in bases
    ensures Known(bases, s)
  {
  }

  lemma PathOver(bases: set<Subject>, w: seq<Element>)
    requires w in Paths(bases)
    ensures forall a :: a in w ==> a in Alphabet(bases)
  {
    if w in Words(Alphabet(bases), PATH_CAP) {
      WordsOver(Alphabet(bases), PATH_CAP, w);
    } else {
      var s :| s in bases && w == s.path;
    }
  }

  lemma ExtendedIsKnown(bases: set<Subject>, base: Subject, s: Subject)
    requires base in bases && Known(bases, s)
    ensures Known(bases, Extended(base, s))
  {
    var r := Extended(base, s);
    BaseIsKnown(bases, base);
    PathOver(bases, base.path);
    PathOver(bases, s.path);
    WordsHave(Alphabet(bases), PATH_CAP, r.path);
    assert r == base.(path := r.path, ty := r.ty, resolution := r.resolution);
  }

  lemma SubstituteStaysInUniverse(p: Program, ws: Walks, f: nat, j: nat, e: Entry)
    requires f < |ws| && j < |ws[f].calls| && InUniverse(p, ws, e)
    ensures InUniverse(p, ws, Substitute(p, ws, f, ws[f].calls[j], e))
  {
    hide Known;
    var c := ws[f].calls[j];
    if e.subject.root.Parameter? && e.subject.root.ordinal < |c.args| {
      var k := e.subject.root.ordinal;
      assert Argument(p, ws, f, ws[f].calls[j], k) in Bases(p, ws);
      ExtendedIsKnown(Bases(p, ws), Argument(p, ws, f, c, k), e.subject);
    }
  }

  ghost predicate Within(p: Program, ws: Walks, s: Summaries) {
    |s| == |ws| && forall f, i :: 0 <= f < |s| && 0 <= i < |s[f]| ==> InUniverse(p, ws, s[f][i]) && s[f][i].fn == f
  }

  // ---------------------------------------------------------------------------------------------
  // The measure

  ghost function Keys(list: seq<Entry>): set<Entry> {
    set i | 0 <= i < |list| :: Key(list[i])
  }

  ghost function Present(s: Summaries): set<Entry> {
    set f, i | 0 <= f < |s| && 0 <= i < |s[f]| :: Key(s[f][i])
  }

  ghost function Missing(p: Program, ws: Walks, s: Summaries): nat {
    |Universe(p, ws) - Present(s)|
  }

  ghost function Sum(list: seq<Entry>): nat {
    if list == [] then 0 else Sum(list[..|list| - 1]) + list[|list| - 1].sequence
  }

  ghost function Total(s: Summaries): nat {
    if s == [] then 0 else Total(s[..|s| - 1]) + Sum(s[|s| - 1])
  }

  lemma {:induction false} SumUpdate(list: seq<Entry>, i: nat, e: Entry)
    requires i < |list|
    ensures Sum(list[i := e]) + list[i].sequence == Sum(list) + e.sequence
  {
    var last := |list| - 1;
    if i == last {
      assert list[i := e][..last] == list[..last];
    } else {
      assert list[i := e][..last] == list[..last][i := e];
      SumUpdate(list[..last], i, e);
    }
  }

  lemma {:induction false} TotalUpdate(s: Summaries, f: nat, list: seq<Entry>)
    requires f < |s|
    ensures Total(s[f := list]) + Sum(s[f]) == Total(s) + Sum(list)
  {
    var last := |s| - 1;
    if f == last {
      assert s[f := list][..last] == s[..last];
    } else {
      assert s[f := list][..last] == s[..last][f := list];
      TotalUpdate(s[..last], f, list);
    }
  }

  /** Progress: a key more, or the same keys at an earlier sequence. */
  ghost predicate Improves(p: Program, ws: Walks, a: Summaries, b: Summaries) {
    Missing(p, ws, b) < Missing(p, ws, a) || (Missing(p, ws, b) == Missing(p, ws, a) && Total(b) < Total(a))
  }

  lemma {:induction false} SmallerSet(a: set<Entry>, b: set<Entry>)
    requires a < b
    ensures |a| < |b|
  {
    var x :| x in b && x !in a;
    if a != {} {
      var y :| y in a;
      SmallerSet(a - {y}, b - {y});
    }
  }

  lemma AppendImproves(p: Program, ws: Walks, s: Summaries, f: nat, e: Entry)
    requires Within(p, ws, s) && f < |s| && InUniverse(p, ws, e) && e.fn == f
    requires Key(e) !in Keys(s[f])
    ensures Improves(p, ws, s, s[f := s[f] + [e]])
  {
    hide InUniverse, Universe, Key;
    var t := s[f := s[f] + [e]];
    KeyInUniverse(p, ws, e);
    forall g, i | 0 <= g < |s| && 0 <= i < |s[g]| ensures Key(s[g][i]) in Present(t) && Key(s[g][i]) != Key(e) {
      assert t[g][i] == s[g][i];
      KeyKeepsFn(s[g][i]);
      KeyKeepsFn(e);
      if g == f {
        assert Key(s[g][i]) in Keys(s[f]);
      }
    }
    assert Key(e) in Present(t) by { assert t[f][|s[f]|] == e; }
    assert Present(s) <= Present(t);
    assert Key(e) !in Present(s);
    assert Universe(p, ws) - Present(t) < Universe(p, ws) - Present(s);
    SmallerSet(Universe(p, ws) - Present(t), Universe(p, ws) - Present(s));
  }

  lemma KeyKeepsFn(e: Entry)
    ensures Key(e).fn == e.fn
  {
  }

  lemma ReplaceImproves(p: Program, ws: Walks, s: Summaries, f: nat, i: nat, e: Entry)
    requires f < |s| && i < |s[f]| && Key(s[f][i]) == Key(e) && e.sequence < s[f][i].sequence
    ensures Improves(p, ws, s, s[f := s[f][i := e]])
  {
    hide Universe, Key;
    var t := s[f := s[f][i := e]];
    forall g, k | 0 <= g < |s| && 0 <= k < |s[g]| ensures Key(t[g][k]) == Key(s[g][k]) {
    }
    assert Present(s) == Present(t);
    SumUpdate(s[f], i, e);
    TotalUpdate(s, f, s[f][i := e]);
  }

  // ---------------------------------------------------------------------------------------------
  // The loop

  /** What every step of the loop keeps. */
  ghost predicate Invariant(p: Program, ws: Walks, s: Summaries) {
    Within(p, ws, s) && Sound(p, ws, s) && HasBase(ws, s)
  }

  ghost predicate Indexes(seen: map<Entry, nat>, list: seq<Entry>) {
    && (forall k :: k in seen ==> seen[k] < |list| && Key(list[seen[k]]) == k)
    && (forall i :: 0 <= i < |list| ==> Key(list[i]) in seen)
  }

  lemma HasMonotone(list: seq<Entry>, longer: seq<Entry>, e: Entry)
    requires Has(list, e)
    requires GrownList(list, longer)
    ensures Has(longer, e)
  {
    var i :| 0 <= i < |list| && Key(list[i]) == Key(e) && list[i].sequence <= e.sequence;
    assert Key(longer[i]) == Key(e);
  }

  /** `b` has every entry of `a`, in place and no later. */
  ghost predicate GrownList(a: seq<Entry>, b: seq<Entry>) {
    |a| <= |b| && forall i :: 0 <= i < |a| ==> Key(b[i]) == Key(a[i]) && b[i].sequence <= a[i].sequence
  }

  ghost predicate Grown(a: Summaries, b: Summaries) {
    |a| == |b| && forall f :: 0 <= f < |a| ==> GrownList(a[f], b[f])
  }

  /** The two branches at the heart of the loop: keep the earlier of two entries, or append a new one. */
  lemma StepKeeps(p: Program, ws: Walks, s: Summaries, f: nat, list: seq<Entry>, e: Entry)
    requires Invariant(p, ws, s) && f < |s| && InLeast(p, ws, f, e) && InUniverse(p, ws, e) && e.fn == f
    requires list == s[f] + [e] || exists i ::
               0 <= i < |s[f]| && Key(s[f][i]) == Key(e) && e.sequence < s[f][i].sequence && list == s[f][i := e]
    ensures Invariant(p, ws, s[f := list]) && Grown(s, s[f := list]) && Has(list, e)
  {
    hide InLeast, InUniverse, Key;
    var t := s[f := list];
    assert Grown(s, t);
    forall g, i | 0 <= g < |t| && 0 <= i < |ws[g].entries| ensures Has(t[g], ws[g].entries[i]) {
      HasMonotone(s[g], t[g], ws[g].entries[i]);
    }
    if list == s[f] + [e] {
      assert list[|s[f]|] == e;
    }
  }

  lemma CallDerives(p: Program, ws: Walks, f: nat, c: Call, g: nat, inner: Entry)
    requires IsCall(p, ws, f, c, g) && InLeast(p, ws, g, inner)
    ensures InLeast(p, ws, f, Substitute(p, ws, f, c, inner))
  {
    var n: nat :| Derived(p, ws, g, inner, n);
    assert Derived(p, ws, f, Substitute(p, ws, f, c, inner), n + 1);
  }

  method IndexOfKeys(list: seq<Entry>) returns (seen: map<Entry, nat>)
    ensures Indexes(seen, list)
  {
    seen := map[];
    for i := 0 to |list|
      invariant forall k :: k in seen ==> seen[k] < i && Key(list[seen[k]]) == k
      invariant forall j :: 0 <= j < i ==> Key(list[j]) in seen
    {
      seen := seen[Key(list[i]) := i];
    }
  }

  /** One incoming entry: the earlier of two, or a new one. */
  method Merge(p: Program, ws: Walks, s: Summaries, f: nat, seen: map<Entry, nat>,
               e: Entry) returns (t: Summaries, found: map<Entry, nat>, changed: bool)
    requires Invariant(p, ws, s) && f < |s| && Indexes(seen, s[f]) && InLeast(p, ws, f, e) && InUniverse(p, ws, e)
             && e.fn == f
    ensures Invariant(p, ws, t) && Grown(s, t) && Indexes(found, t[f])
    ensures !changed ==> t == s && Has(s[f], e)
    ensures changed ==> Improves(p, ws, s, t)
  {
    hide Improves, Invariant, InUniverse, InLeast, Key;
    t, found, changed := s, seen, false;
    if Key(e) in seen {
      var prior := seen[Key(e)];
      if e.sequence < s[f][prior].sequence {
        StepKeeps(p, ws, s, f, s[f][prior := e], e);
        ReplaceImproves(p, ws, s, f, prior, e);
        t := s[f := s[f][prior := e]];
        changed := true;
      }
    } else {
      StepKeeps(p, ws, s, f, s[f] + [e], e);
      NotIn(seen, s[f], e);
      InvariantIsWithin(p, ws, s);
      AppendImproves(p, ws, s, f, e);
      found := seen[Key(e) := |s[f]|];
      t := s[f := s[f] + [e]];
      changed := true;
    }
  }

  lemma GrownMore(a: Summaries, b: Summaries, c: Summaries)
    requires Grown(a, b) && Grown(b, c)
    ensures Grown(a, c)
  {
    hide Key;
    forall f | 0 <= f < |a| ensures GrownList(a[f], c[f]) {
      assert GrownList(a[f], b[f]) && GrownList(b[f], c[f]);
    }
  }

  /** One caller takes over the entries of one callee. */
  method TakeOver(p: Program, ws: Walks, s: Summaries, f: nat, j: nat,
                  seen: map<Entry, nat>) returns (t: Summaries, found: map<Entry, nat>, changed: bool)
    requires AreWalks(p, ws) && Invariant(p, ws, s) && |s| == |ws| && f < |s| && j < |ws[f].calls|
             && Indexes(seen, s[f])
    ensures Invariant(p, ws, t) && Grown(s, t) && Indexes(found, t[f])
    ensures !changed ==> t == s && Absorbed(p, ws, s, f, ws[f].calls[j])
    ensures changed ==> Improves(p, ws, s, t)
  {
    hide Improves, Invariant, InLeast, InUniverse, Indexes, Has, Key, Substitute;
    var c := ws[f].calls[j];
    t, found, changed := s, seen, false;
    var callee := Callee(p, c);
    if callee.None? {
      return;
    }
    var incoming := s[callee.value];
    for i := 0 to |incoming|
      invariant |t| == |s| && Invariant(p, ws, t) && Grown(s, t) && Indexes(found, t[f])
      invariant !changed ==> t == s && forall k :: 0 <= k < i ==> Has(s[f], Substitute(p, ws, f, c, incoming[k]))
      invariant changed ==> Improves(p, ws, s, t)
    {
      var e := Substitute(p, ws, f, c, incoming[i]);
      IncomingFits(p, ws, s, f, j, i);
      ghost var before := t;
      var more;
      t, found, more := Merge(p, ws, t, f, found, e);
      GrownMore(s, before, t);
      if more {
        changed := true;
        ImprovesMore(p, ws, s, before, t);
      }
    }
  }

  lemma NotIn(seen: map<Entry, nat>, list: seq<Entry>, e: Entry)
    requires Key(e) !in seen && forall i :: 0 <= i < |list| ==> Key(list[i]) in seen
    ensures Key(e) !in Keys(list)
  {
  }

  lemma InvariantIsWithin(p: Program, ws: Walks, s: Summaries)
    requires Invariant(p, ws, s)
    ensures Within(p, ws, s)
  {
  }

  lemma ImprovesMore(p: Program, ws: Walks, a: Summaries, b: Summaries, c: Summaries)
    requires a == b || Improves(p, ws, a, b)
    requires Improves(p, ws, b, c)
    ensures Improves(p, ws, a, c)
  {
  }

  lemma IncomingFits(p: Program, ws: Walks, s: Summaries, f: nat, j: nat, i: nat)
    requires AreWalks(p, ws) && Invariant(p, ws, s) && f < |s| && j < |ws[f].calls|
    requires Callee(p, ws[f].calls[j]).Some? && i < |s[Callee(p, ws[f].calls[j]).value]|
    ensures var e := Substitute(p, ws, f, ws[f].calls[j], s[Callee(p, ws[f].calls[j]).value][i]);
            InLeast(p, ws, f, e) && InUniverse(p, ws, e) && e.fn == f && e.sequence == ws[f].calls[j].sequence
  {
    hide InLeast, InUniverse, Has;
    var c := ws[f].calls[j];
    var g := Callee(p, c).value;
    assert IsCall(p, ws, f, c, g);
    CallDerives(p, ws, f, c, g, s[g][i]);
    SubstituteStaysInUniverse(p, ws, f, j, s[g][i]);
  }

  /** One caller takes over from all its callees. */
  method VisitCaller(p: Program, ws: Walks, s: Summaries, f: nat) returns (t: Summaries, changed: bool)
    requires AreWalks(p, ws) && Invariant(p, ws, s) && |s| == |ws| && f < |s|
    ensures Invariant(p, ws, t) && Grown(s, t)
    ensures !changed ==> t == s && ClosedAt(p, ws, s, f)
    ensures changed ==> Improves(p, ws, s, t)
  {
    hide Improves, Invariant, Indexes, Has, Absorbed;
    t, changed := s, false;
    GrownNot(s);
    var seen := IndexOfKeys(s[f]);
    for j := 0 to |ws[f].calls|
      invariant |t| == |s| && Invariant(p, ws, t) && Grown(s, t) && Indexes(seen, t[f])
      invariant !changed ==> t == s && forall k :: 0 <= k < j ==> Absorbed(p, ws, s, f, ws[f].calls[k])
      invariant changed ==> Improves(p, ws, s, t)
    {
      ghost var before := t;
      var more;
      t, seen, more := TakeOver(p, ws, t, f, j, seen);
      GrownMore(s, before, t);
      if more {
        changed := true;
        ImprovesMore(p, ws, s, before, t);
      }
    }
  }

  lemma GrownNot(s: Summaries)
    ensures Grown(s, s)
  {
  }

  lemma BaseInvariant(p: Program, ws: Walks, s: Summaries)
    requires AreWalks(p, ws) && |s| == |ws| && forall f :: 0 <= f < |s| ==> s[f] == ws[f].entries
    ensures Invariant(p, ws, s)
  {
    hide Walked, Known;
    forall f, i | 0 <= f < |s| && 0 <= i < |s[f]| ensures InUniverse(p, ws, s[f][i]) && s[f][i].fn == f {
      assert ws[f].entries[i].subject in Bases(p, ws);
      BaseIsKnown(Bases(p, ws), s[f][i].subject);
      assert ws[f].entries[i].site in Sites(ws);
      WalkKeepsOwner(p, f, i);
    }
    forall f, i | 0 <= f < |s| && 0 <= i < |s[f]| ensures InLeast(p, ws, f, s[f][i]) {
      assert Derived(p, ws, f, s[f][i], 0);
    }
  }

  // Entries of a walk belong to the function walked.

  ghost predicate Owned(w: Walk, fn: nat) {
    forall i :: 0 <= i < |w.entries| ==> w.entries[i].fn == fn
  }

  lemma {:induction false} NotedAllOwned(w: Walk, kinds: seq<AccessKind>, s: Subject, fn: nat, site: nat)
    requires Owned(w, fn)
    ensures Owned(NotedAll(w, kinds, s, fn, site), fn)
    decreases kinds
  {
    if kinds != [] {
      NotedAllOwned(Noted(w, kinds[0], s, fn, site), kinds[1..], s, fn, site);
    }
  }

  lemma {:induction false} ExprOwned(structs: map<string, seq<Field>>, fn: nat, w: Walk, e: Expr)
    requires Owned(w, fn)
    ensures Owned(WalkExpr(structs, fn, w, e), fn)
    decreases e, 1
  {
    match e
    case IndexOf(_, _, site) => OperandsOwned(structs, fn, WalkRead(structs, fn, w, e, site), e);
    case RefTo(x) => OperandsOwned(structs, fn, w, x);
    case Paren(x) => ExprOwned(structs, fn, w, x);
    case CallTo(callee, args, site) =>
      AllOwned(structs, fn, w, args);
      if args != [] {
        var w1 := WalkAll(structs, fn, w, args);
        NotedAllOwned(w1, AtomicKinds(callee), At(structs, fn, w1, args[0]), fn, site);
      }
    case Compound(es) => AllOwned(structs, fn, w, es);
    case _ =>
  }

  lemma {:induction false} AllOwned(structs: map<string, seq<Field>>, fn: nat, w: Walk, es: seq<Expr>)
    requires Owned(w, fn)
    ensures Owned(WalkAll(structs, fn, w, es), fn)
    decreases es, 0
  {
    if es != [] {
      ExprOwned(structs, fn, w, es[0]);
      AllOwned(structs, fn, WalkExpr(structs, fn, w, es[0]), es[1..]);
    }
  }

  lemma {:induction false} OperandsOwned(structs: map<string, seq<Field>>, fn: nat, w: Walk, e: Expr)
    requires Owned(w, fn)
    ensures Owned(WalkOperands(structs, fn, w, e), fn)
    decreases e, 0
  {
    if e.IndexOf? && e.indices != [] {
      ExprOwned(structs, fn, w, e.indices[0]);
      AllOwned(structs, fn, WalkExpr(structs, fn, w, e.indices[0]), e.indices);
    }
  }

  lemma {:induction false} StmtOwned(structs: map<string, seq<Field>>, fn: nat, w: Walk, st: Stmt)
    requires Owned(w, fn)
    ensures Owned(WalkStmt(structs, fn, w, st), fn)
    decreases st, 1
  {
    match st
    case Decl(_, _, e) => ExprOwned(structs, fn, w, e);
    case Assign(target, e, site) =>
      ExprOwned(structs, fn, w, e);
      var w1 := WalkExpr(structs, fn, w, e);
      var s := At(structs, fn, w1, target);
      var w2 := if s.root.Parameter? || s.root.NoRoot? then Noted(w1, Write, s, fn, site) else w1;
      OperandsOwned(structs, fn, w2, target);
    case Do(e) => ExprOwned(structs, fn, w, e);
    case If(c, t, f) =>
      ExprOwned(structs, fn, w, c);
      BlockOwned(structs, fn, WalkExpr(structs, fn, w, c), t);
      BlockOwned(structs, fn, WalkBlock(structs, fn, WalkExpr(structs, fn, w, c), t), f);
    case While(c, b) =>
      ExprOwned(structs, fn, w, c);
      BlockOwned(structs, fn, WalkExpr(structs, fn, w, c), b);
    case Block(b) => BlockOwned(structs, fn, w, b);
  }

  lemma {:induction false} BlockOwned(structs: map<string, seq<Field>>, fn: nat, w: Walk, b: seq<Stmt>)
    requires Owned(w, fn)
    ensures Owned(WalkBlock(structs, fn, w, b), fn)
    decreases b, 0
  {
    if b != [] {
      StmtOwned(structs, fn, w, b[0]);
      BlockOwned(structs, fn, WalkStmt(structs, fn, w, b[0]), b[1..]);
    }
  }

  lemma WalkKeepsOwner(p: Program, f: nat, i: nat)
    requires f < |p.fns| && i < |Walked(p, f).entries|
    ensures Walked(p, f).entries[i].fn == f
  {
    BlockOwned(p.structs, f, Walk(ParamLocals(f, p.fns[f].params), [], [], 0), p.fns[f].body);
  }

  /** One round over all functions. */
  method Round(p: Program, ws: Walks, s: Summaries, order: seq<nat>) returns (t: Summaries, changed: bool)
    requires AreWalks(p, ws) && Invariant(p, ws, s) && |s| == |ws|
    requires forall k :: 0 <= k < |order| ==> order[k] < |ws|
    ensures |t| == |ws| && Invariant(p, ws, t)
    ensures !changed ==> t == s && forall k :: 0 <= k < |order| ==> ClosedAt(p, ws, s, order[k])
    ensures changed ==> Improves(p, ws, s, t)
  {
    hide Improves, Invariant, ClosedAt, Grown;
    t, changed := s, false;
    for i := 0 to |order|
      invariant |t| == |ws| && Invariant(p, ws, t)
      invariant !changed ==> t == s && forall k :: 0 <= k < i ==> ClosedAt(p, ws, s, order[k])
      invariant changed ==> Improves(p, ws, s, t)
    {
      ghost var before := t;
      var more;
      t, more := VisitCaller(p, ws, t, order[i]);
      InvariantIsWithin(p, ws, t);
      if more {
        changed := true;
        ImprovesMore(p, ws, s, before, t);
      }
    }
  }

  lemma RoundCloses(p: Program, ws: Walks, s: Summaries, order: seq<nat>)
    requires |s| == |ws| && (forall k :: 0 <= k < |order| ==> order[k] < |ws|) && forall f: nat ::
               f < |ws| ==> f in order
    requires forall k :: 0 <= k < |order| ==> ClosedAt(p, ws, s, order[k])
    ensures Closed(p, ws, s)
  {
    hide ClosedAt;
    forall f: nat | f < |ws| ensures ClosedAt(p, ws, s, f) {
      assert f in order;
      var k :| 0 <= k < |order| && order[k] == f;
    }
  }

  /** The `changed` loop of `evt1DeriveAccessSummaries`, for any order of visiting the functions. */
  method DeriveSummaries(p: Program, ws: Walks, order: seq<nat>) returns (s: Summaries)
    requires AreWalks(p, ws) && (forall k :: 0 <= k < |order| ==> order[k] < |ws|) && forall f: nat ::
               f < |ws| ==> f in order
    ensures Sound(p, ws, s) && HasBase(ws, s) && Closed(p, ws, s)
  {
    s := seq(|ws|, f requires 0 <= f < |ws| => ws[f].entries);
    BaseInvariant(p, ws, s);
    var changed := true;
    while changed
      invariant |s| == |ws| && Invariant(p, ws, s)
      invariant !changed ==> Closed(p, ws, s)
      decreases Missing(p, ws, s), Total(s), changed
    {
      hide Invariant, Closed, ClosedAt, Missing, Total, AreWalks;
      ghost var before := s;
      s, changed := Round(p, ws, s, order);
      if changed {
        ImprovementDescends(p, ws, before, s);
      } else {
        RoundCloses(p, ws, s, order);
      }
    }
  }

  lemma ImprovementDescends(p: Program, ws: Walks, a: Summaries, b: Summaries)
    requires Improves(p, ws, a, b)
    ensures Missing(p, ws, b) < Missing(p, ws, a) || (Missing(p, ws, b) == Missing(p, ws, a) && Total(b) < Total(a))
  {
  }

  // ---------------------------------------------------------------------------------------------
  // The canonical result

  /** One sequence per key, the earliest in the list. */
  ghost predicate IsCanonical(list: seq<Entry>, m: map<Entry, nat>) {
    && (forall i :: 0 <= i < |list| ==> Key(list[i]) in m && m[Key(list[i])] <= list[i].sequence)
    && (forall k :: k in m ==> exists i :: 0 <= i < |list| && Key(list[i]) == k && list[i].sequence == m[k])
  }

  /** `evt1CanonicalizeAccessEntries`. */
  method Canonicalize(list: seq<Entry>) returns (m: map<Entry, nat>)
    ensures IsCanonical(list, m)
  {
    hide Key;
    m := map[];
    for i := 0 to |list|
      invariant IsCanonical(list[..i], m)
    {
      ghost var before := m;
      var key := Key(list[i]);
      if key !in m || list[i].sequence < m[key] {
        m := m[key := list[i].sequence];
      }
      assert list[..i + 1] == list[..i] + [list[i]];
      ghost var part := list[..i + 1];
      forall k | k in m ensures exists j :: 0 <= j < |part| && Key(part[j]) == k && part[j].sequence == m[k] {
        if k in before && m[k] == before[k] {
          var j :| 0 <= j < |list[..i]| && Key(list[..i][j]) == k && list[..i][j].sequence == before[k];
          assert part[j] == list[..i][j];
        } else {
          assert part[i] == list[i];
        }
      }
    }
    assert list[..|list|] == list;
  }

  /** The least closed summary of `f`, with the earliest sequence of each key. */
  ghost predicate IsEarliest(p: Program, ws: Walks, f: nat, m: map<Entry, nat>) {
    && (forall e :: InLeast(p, ws, f, e) ==> Key(e) in m && m[Key(e)] <= e.sequence)
    && (forall k :: k in m ==> exists e :: InLeast(p, ws, f, e) && Key(e) == k && e.sequence == m[k])
  }

  /** The summary loop computes the least closed summary. */
  lemma CanonicalIsEarliest(p: Program, ws: Walks, s: Summaries, f: nat, m: map<Entry, nat>)
    requires |ws| == |p.fns| && Sound(p, ws, s) && HasBase(ws, s) && Closed(p, ws, s) && f < |s| && IsCanonical(s[f], m)
    ensures IsEarliest(p, ws, f, m)
  {
    hide Key, Closed, HasBase;
    forall e | InLeast(p, ws, f, e) ensures Key(e) in m && m[Key(e)] <= e.sequence {
      var n: nat :| Derived(p, ws, f, e, n);
      ClosedHasDerived(p, ws, s, f, e, n);
    }
  }

  /** No other map is the least closed summary with earliest sequences. */
  lemma EarliestIsUnique(p: Program, ws: Walks, f: nat, a: map<Entry, nat>, b: map<Entry, nat>)
    requires IsEarliest(p, ws, f, a) && IsEarliest(p, ws, f, b)
    ensures a == b
  {
    hide Key, InLeast;
    forall k | k in a ensures k in b && a[k] == b[k] {
      var e :| InLeast(p, ws, f, e) && Key(e) == k && e.sequence == a[k];
      var d :| InLeast(p, ws, f, d) && Key(d) == k && d.sequence == b[k];
    }
    forall k | k in b ensures k in a {
      var d :| InLeast(p, ws, f, d) && Key(d) == k && d.sequence == b[k];
    }
  }

  /** Two runs of the loop agree once canonicalised, whatever order each visited the functions in. */
  lemma OrderDoesNotMatter(p: Program, ws: Walks, s: Summaries, t: Summaries, f: nat, a: map<Entry, nat>,
                           b: map<Entry, nat>)
    requires |s| == |t| == |ws| == |p.fns| && f < |ws|
    requires Sound(p, ws, s) && HasBase(ws, s) && Closed(p, ws, s) && IsCanonical(s[f], a)
    requires Sound(p, ws, t) && HasBase(ws, t) && Closed(p, ws, t) && IsCanonical(t[f], b)
    ensures a == b
  {
    hide Sound, HasBase, Closed, IsCanonical, IsEarliest;
    CanonicalIsEarliest(p, ws, s, f, a);
    CanonicalIsEarliest(p, ws, t, f, b);
    EarliestIsUnique(p, ws, f, a, b);
  }
}
