/** Header declarations are emitted after the declarations they depend on. */
module HeaderOrder {
  import opened Wrappers

  datatype Decl = Decl(key: string, deps: seq<string>)

  function KeysOf(decls: seq<Decl>): set<string> {
    set i | 0 <= i < |decls| :: decls[i].key
  }

  function SetOf(order: seq<string>): set<string> {
    set i | 0 <= i < |order| :: order[i]
  }

  ghost predicate DistinctKeys(decls: seq<Decl>) {
    forall i, j :: 0 <= i < j < |decls| ==> decls[i].key != decls[j].key
  }

  ghost predicate KnownDependencies(decls: seq<Decl>) {
    forall i, k :: 0 <= i < |decls| && 0 <= k < |decls[i].deps| ==> decls[i].deps[k] in KeysOf(decls)
  }

  ghost predicate Closed(decls: seq<Decl>) {
    DistinctKeys(decls) && KnownDependencies(decls)
  }

  /** A declaration of key `a` depends on `b`. */
  predicate Needs(decls: seq<Decl>, a: string, b: string) {
    exists i :: 0 <= i < |decls| && decls[i].key == a && b in decls[i].deps
  }

  /** Each declaration of the walk needs the next. */
  ghost predicate Walk(decls: seq<Decl>, w: seq<string>) {
    w != [] && forall i, j :: 0 <= i && j == i + 1 < |w| ==> Needs(decls, w[i], w[j])
  }

  ghost predicate Cyclic(decls: seq<Decl>) {
    exists w :: Walk(decls, w) && |w| > 1 && w[0] == w[|w| - 1]
  }

  ghost predicate Distinct(order: seq<string>) {
    forall i, j :: 0 <= i < j < |order| ==> order[i] != order[j]
  }

  /** Whatever an emitted declaration needs was emitted before it. */
  ghost predicate DependenciesFirst(decls: seq<Decl>, order: seq<string>) {
    forall p, b :: 0 <= p < |order| && Needs(decls, order[p], b) ==> b in order[..p]
  }

  // ---------------------------------------------------------------------------------------------
  // Counting

  lemma {:induction false} DistinctCount(order: seq<string>)
    requires Distinct(order)
    ensures |SetOf(order)| == |order|
  {
    if order != [] {
      var last := |order| - 1;
      DistinctCount(order[..last]);
      assert SetOf(order) == SetOf(order[..last]) + {order[last]};
      assert order[last] !in SetOf(order[..last]);
    }
  }

  lemma {:induction false} SubsetCount(a: set<string>, b: set<string>)
    requires a <= b
    ensures |a| <= |b|
    ensures |a| == |b| ==> a == b
  {
    if a != {} {
      var x :| x in a;
      SubsetCount(a - {x}, b - {x});
      assert b == (b - {x}) + {x};
    } else if b != {} {
      var y :| y in b;
      assert |b - {y}| + 1 == |b|;
    }
  }

  /** As many keys as declarations means that no key repeats. */
  lemma {:induction false} KeyCount(decls: seq<Decl>)
    ensures |KeysOf(decls)| <= |decls|
    ensures |KeysOf(decls)| == |decls| <==> DistinctKeys(decls)
  {
    if decls != [] {
      var last := |decls| - 1;
      var init := decls[..last];
      KeyCount(init);
      assert KeysOf(decls) == KeysOf(init) + {decls[last].key};
      if decls[last].key in KeysOf(init) {
        assert KeysOf(decls) == KeysOf(init);
        var i :| 0 <= i < last && init[i].key == decls[last].key;
        assert decls[i].key == decls[last].key;
      }
      assert DistinctKeys(decls) ==> DistinctKeys(init);
    }
  }

  // ---------------------------------------------------------------------------------------------
  // A complete order rules out cycles

  /** Along a walk, places in the order go down. */
  lemma {:induction false} WalkDescends(decls: seq<Decl>, order: seq<string>, w: seq<string>, p: nat)
    requires DependenciesFirst(decls, order) && Walk(decls, w) && |w| > 1 && p < |order| && order[p] == w[0]
    ensures w[|w| - 1] in order[..p]
    decreases |w|
  {
    hide Needs;
    assert Needs(decls, w[0], w[1]);
    var q :| 0 <= q < p && order[q] == w[1];
    if |w| > 2 {
      var rest := w[1..];
      WalkDescends(decls, order, rest, q);
      var r :| 0 <= r < q && order[..q][r] == rest[|rest| - 1];
      assert order[..p][r] == w[|w| - 1];
    } else {
      assert order[..p][q] == w[1];
    }
  }

  lemma NoWayBack(decls: seq<Decl>, order: seq<string>, w: seq<string>)
    requires DependenciesFirst(decls, order) && Distinct(order) && SetOf(order) == KeysOf(decls)
    requires Walk(decls, w) && |w| > 1
    ensures w[0] != w[|w| - 1]
  {
    assert Needs(decls, w[0], w[1]);
    assert w[0] in SetOf(order);
    var p :| 0 <= p < |order| && order[p] == w[0];
    WalkDescends(decls, order, w, p);
  }

  lemma OrderedIsAcyclic(decls: seq<Decl>, order: seq<string>)
    requires DependenciesFirst(decls, order) && Distinct(order) && SetOf(order) == KeysOf(decls)
    ensures !Cyclic(decls)
  {
    hide Needs, DependenciesFirst, SetOf, KeysOf, Walk;
    forall w | Walk(decls, w) && |w| > 1 ensures w[0] != w[|w| - 1] {
      NoWayBack(decls, order, w);
    }
  }

  // ---------------------------------------------------------------------------------------------
  // Declarations that block one another hold a cycle

  ghost predicate NeedsOneOf(decls: seq<Decl>, a: string, blocked: set<string>) {
    exists b :: b in blocked && Needs(decls, a, b)
  }

  ghost predicate AllBlocked(decls: seq<Decl>, blocked: set<string>) {
    blocked != {} && forall a :: a in blocked ==> NeedsOneOf(decls, a, blocked)
  }

  lemma {:induction false} LongWalk(decls: seq<Decl>, blocked: set<string>, n: nat) returns (w: seq<string>)
    requires AllBlocked(decls, blocked)
    ensures Walk(decls, w) && |w| == n + 1 && SetOf(w) <= blocked
    decreases n
  {
    hide Needs;
    if n == 0 {
      var a :| a in blocked;
      w := [a];
    } else {
      var shorter := LongWalk(decls, blocked, n - 1);
      var last := shorter[|shorter| - 1];
      assert last in SetOf(shorter);
      assert NeedsOneOf(decls, last, blocked);
      var b :| b in blocked && Needs(decls, last, b);
      w := shorter + [b];
      forall i | 0 <= i < |w| ensures w[i] in blocked {
        assert i < |shorter| ==> w[i] in SetOf(shorter);
      }
    }
  }

  /** A stretch of a walk between two visits of one declaration is a cycle. */
  lemma ReturnIsCycle(decls: seq<Decl>, w: seq<string>, i: nat, j: nat)
    requires Walk(decls, w) && i < j < |w| && w[i] == w[j]
    ensures Cyclic(decls)
  {
    hide Needs;
    var loop := w[i..j + 1];
    assert Walk(decls, loop);
    assert loop[0] == loop[|loop| - 1];
  }

  /** A walk longer than the number of blocked declarations comes back to one of them. */
  lemma BlockedIsCyclic(decls: seq<Decl>, blocked: set<string>)
    requires AllBlocked(decls, blocked)
    ensures Cyclic(decls)
  {
    hide Needs, Walk, AllBlocked, Cyclic;
    var w := LongWalk(decls, blocked, |blocked|);
    SubsetCount(SetOf(w), blocked);
    if Distinct(w) {
      DistinctCount(w);
      assert false;
    } else {
      var i, j :| 0 <= i < j < |w| && w[i] == w[j];
      ReturnIsCycle(decls, w, i, j);
    }
  }

  // ---------------------------------------------------------------------------------------------
  // Emission

  /** Some declaration of the key at place `p` has all its dependencies before that place. */
  ghost predicate Supported(decls: seq<Decl>, order: seq<string>, p: nat)
    requires p < |order|
  {
    exists i :: 0 <= i < |decls| && decls[i].key == order[p] && forall d :: d in decls[i].deps ==> d in order[..p]
  }

  ghost predicate Sound(decls: seq<Decl>, order: seq<string>) {
    Distinct(order) && forall p :: 0 <= p < |order| ==> Supported(decls, order, p)
  }

  predicate Waits(d: Decl, order: seq<string>) {
    exists k :: 0 <= k < |d.deps| && d.deps[k] !in order
  }

  /** Every declaration not yet emitted waits for another. */
  ghost predicate Stuck(decls: seq<Decl>, order: seq<string>) {
    forall i :: 0 <= i < |decls| && decls[i].key !in order ==> Waits(decls[i], order)
  }

  lemma SupportedInKeys(decls: seq<Decl>, order: seq<string>)
    requires Sound(decls, order)
    ensures SetOf(order) <= KeysOf(decls)
  {
    forall p | 0 <= p < |order| ensures order[p] in KeysOf(decls) {
      assert Supported(decls, order, p);
    }
  }

  lemma Appended(decls: seq<Decl>, order: seq<string>, i: nat)
    requires Sound(decls, order) && i < |decls| && decls[i].key !in order && !Waits(decls[i], order)
    ensures Sound(decls, order + [decls[i].key])
  {
    var longer := order + [decls[i].key];
    forall p | 0 <= p < |longer| ensures Supported(decls, longer, p) {
      if p < |order| {
        assert Supported(decls, order, p);
        assert longer[..p] == order[..p];
      } else {
        assert longer[..p] == order;
      }
    }
  }

  /** All dependencies of one declaration have been emitted. */
  method Ready(d: Decl, order: seq<string>) returns (ready: bool)
    ensures ready <==> !Waits(d, order)
  {
    for k := 0 to |d.deps|
      invariant forall m :: 0 <= m < k ==> d.deps[m] in order
    {
      if d.deps[k] !in order {
        return false;
      }
    }
    ready := true;
  }

  /** One pass over the declarations. */
  method Pass(decls: seq<Decl>, order: seq<string>) returns (longer: seq<string>, progress: bool)
    requires Sound(decls, order)
    ensures Sound(decls, longer) && order <= longer
    ensures progress <==> |longer| > |order|
    ensures !progress ==> longer == order && Stuck(decls, order)
  {
    hide Sound, Waits;
    longer, progress := order, false;
    for i := 0 to |decls|
      invariant Sound(decls, longer) && order <= longer && (progress <==> |longer| > |order|)
      invariant !progress ==> longer == order
      invariant !progress ==> forall j :: 0 <= j < i && decls[j].key !in order ==> Waits(decls[j], order)
    {
      if decls[i].key in longer {
        continue;
      }
      var ready := Ready(decls[i], longer);
      if !ready {
        continue;
      }
      Appended(decls, longer, i);
      longer := longer + [decls[i].key];
      progress := true;
    }
  }

  lemma BlockedNeedsBlocked(decls: seq<Decl>, order: seq<string>, i: nat)
    requires KnownDependencies(decls) && i < |decls| && Waits(decls[i], order)
    ensures NeedsOneOf(decls, decls[i].key, KeysOf(decls) - SetOf(order))
  {
    var k :| 0 <= k < |decls[i].deps| && decls[i].deps[k] !in order;
    var b := decls[i].deps[k];
    assert Needs(decls, decls[i].key, b);
    assert b in KeysOf(decls) - SetOf(order);
  }

  lemma SomeBlocked(decls: seq<Decl>, order: seq<string>)
    requires Closed(decls) && Sound(decls, order) && |order| < |decls|
    ensures KeysOf(decls) - SetOf(order) != {}
  {
    hide Supported;
    DistinctCount(order);
    KeyCount(decls);
    SupportedInKeys(decls, order);
    assert SetOf(order) != KeysOf(decls);
    assert KeysOf(decls) == SetOf(order) + (KeysOf(decls) - SetOf(order));
  }

  lemma StuckIsCyclic(decls: seq<Decl>, order: seq<string>)
    requires Closed(decls) && Sound(decls, order) && |order| < |decls| && Stuck(decls, order)
    ensures Cyclic(decls)
  {
    hide Waits, Sound, Cyclic, NeedsOneOf, Needs;
    var blocked := KeysOf(decls) - SetOf(order);
    SomeBlocked(decls, order);
    forall a | a in blocked ensures NeedsOneOf(decls, a, blocked) {
      var i :| 0 <= i < |decls| && decls[i].key == a;
      BlockedNeedsBlocked(decls, order, i);
    }
    BlockedIsCyclic(decls, blocked);
  }

  lemma CompleteKeys(decls: seq<Decl>, order: seq<string>)
    requires Sound(decls, order) && |order| >= |decls|
    ensures DistinctKeys(decls) && SetOf(order) == KeysOf(decls) && |order| == |decls|
  {
    hide Supported;
    DistinctCount(order);
    KeyCount(decls);
    SupportedInKeys(decls, order);
    SubsetCount(SetOf(order), KeysOf(decls));
  }

  /** With distinct keys the supporting declaration is the one that needs. */
  lemma SupportedFirst(decls: seq<Decl>, order: seq<string>)
    requires Sound(decls, order) && DistinctKeys(decls)
    ensures DependenciesFirst(decls, order)
  {
    forall p, b | 0 <= p < |order| && Needs(decls, order[p], b) ensures b in order[..p] {
      assert Supported(decls, order, p);
    }
  }

  lemma CompleteDependencies(decls: seq<Decl>, order: seq<string>)
    requires DependenciesFirst(decls, order) && SetOf(order) == KeysOf(decls)
    ensures KnownDependencies(decls)
  {
    forall i, k | 0 <= i < |decls| && 0 <= k < |decls[i].deps| ensures decls[i].deps[k] in KeysOf(decls) {
      assert decls[i].key in SetOf(order);
      var p :| 0 <= p < |order| && order[p] == decls[i].key;
      assert Needs(decls, order[p], decls[i].deps[k]);
      assert decls[i].deps[k] in order[..p];
      assert decls[i].deps[k] in SetOf(order);
    }
  }

  lemma Complete(decls: seq<Decl>, order: seq<string>)
    requires Sound(decls, order) && |order| >= |decls|
    ensures Closed(decls) && !Cyclic(decls) && Distinct(order) && DependenciesFirst(decls, order)
    ensures SetOf(order) == KeysOf(decls) && |order| == |decls|
  {
    hide Supported, DependenciesFirst, SetOf, KeysOf, Cyclic, KnownDependencies, DistinctKeys;
    CompleteKeys(decls, order);
    SupportedFirst(decls, order);
    CompleteDependencies(decls, order);
    OrderedIsAcyclic(decls, order);
  }

  /**
   * The emission loop: an order of all the keys, each once and after what it needs, or `None`.
   * It fails exactly for a repeated key, an undeclared dependency or a dependency cycle.
   */
  method Emit(decls: seq<Decl>) returns (r: Option<seq<string>>)
    ensures r.Some? ==> Distinct(r.value) && SetOf(r.value) == KeysOf(decls) && |r.value| == |decls|
    ensures r.Some? ==> DependenciesFirst(decls, r.value)
    ensures r.None? <==> !Closed(decls) || Cyclic(decls)
  {
    hide *;
    var order: seq<string> := [];
    NothingIsSound(decls);
    while |order| < |decls|
      invariant Sound(decls, order)
      decreases |decls| - |order|
    {
      var longer, progress := Pass(decls, order);
      if !progress {
        if Closed(decls) {
          StuckIsCyclic(decls, order);
        }
        return None;
      }
      order := longer;
    }
    Complete(decls, order);
    r := Some(order);
  }

  lemma NothingIsSound(decls: seq<Decl>)
    ensures Sound(decls, [])
  {
  }
}
