/** The three-valued search for a proof that a function allocates nothing. */
module NoAllocation {
  import opened Wrappers

  datatype Outcome = Proven | Disproven | Unknown

  datatype Effect = NoAllocation | UnknownEffect | Allocates

  /** What the search looks at in a body; module `AllocationCalls` says which calls those are. */
  datatype Item =
    | Inspection            // an atomic intrinsic, a storage inspection or an assembly statement
    | Unresolved            // a call without a candidate
    | Call(targets: seq<nat>)
    | Contract              // a template instance with an allocating contract
    | Instance(target: nat)

  datatype Op =
    | Primitive
    | Summary(effect: Effect)
    | External
    | Body(items: seq<Item>)

  /** Operations by key; a target outside the graph has no declaration. */
  type Graph = seq<Op>

  // ---------------------------------------------------------------------------------------------
  // The search

  /** Functions that are not on the current path. */
  function Rest(g: Graph, visiting: set<nat>): set<nat> {
    set i: nat | i < |g| && i !in visiting
  }

  /** `evt1ProjectNoAllocation`, with the functions on the current path. */
  function Search(g: Graph, f: nat, visiting: set<nat>): Outcome
    decreases Rest(g, visiting), 1, 0
  {
    if f >= |g| then Unknown
    else
      match g[f]
      case Primitive => Proven
      case Summary(NoAllocation) => Proven
      case Summary(UnknownEffect) => Unknown
      case Summary(Allocates) => Disproven
      case External => Unknown
      case Body(items) =>
        if f in visiting then Unknown
        else
          assert f in Rest(g, visiting) && f !in Rest(g, visiting + {f});
          Items(g, items, visiting + {f}, Proven)
  }

  /** The loop over the items: a later unresolved call or instance replaces the outcome so far. */
  function Items(g: Graph, items: seq<Item>, visiting: set<nat>, so: Outcome): Outcome
    decreases Rest(g, visiting), 3, items
  {
    if items == [] then so
    else
      match items[0]
      case Inspection => Items(g, items[1..], visiting, so)
      case Unresolved => Items(g, items[1..], visiting, Unknown)
      case Call(targets) => Items(g, items[1..], visiting, Targets(g, targets, visiting, so))
      case Contract => Items(g, items[1..], visiting, Disproven)
      case Instance(t) =>
        var child := Search(g, t, visiting);
        Items(g, items[1..], visiting, if child != Proven then child else so)
  }

  function Targets(g: Graph, targets: seq<nat>, visiting: set<nat>, so: Outcome): Outcome
    decreases Rest(g, visiting), 2, targets
  {
    if targets == [] then so else Targets(g, targets[1..], visiting, Combined(so, Search(g, targets[0], visiting)))
  }

  function Combined(so: Outcome, child: Outcome): Outcome {
    if child == Disproven then Disproven else if child == Unknown && so == Proven then Unknown else so
  }

  // ---------------------------------------------------------------------------------------------
  // Paths

  function SuccessorsOf(items: seq<Item>): seq<nat> {
    if items == [] then []
    else
      (match items[0] case Call(ts) => ts case Instance(t) => [t] case _ => []) + SuccessorsOf(items[1..])
  }

  /** Only bodies are expanded. */
  function Successors(g: Graph, f: nat): seq<nat> {
    if f < |g| && g[f].Body? then SuccessorsOf(g[f].items) else []
  }

  predicate IsPath(g: Graph, path: seq<nat>) {
    path != [] && forall i :: 0 < i < |path| ==> path[i] in Successors(g, path[i - 1])
  }

  predicate NoRepeat(path: seq<nat>) {
    forall i, j :: 0 <= i < j < |path| ==> path[i] != path[j]
  }

  /** A primitive, a summary without allocation, or a body whose calls are all resolved. */
  predicate NodeOk(g: Graph, f: nat) {
    && f < |g|
    && match g[f]
       case Primitive => true
       case Summary(e) => e == NoAllocation
       case External => false
       case Body(items) => forall item :: item in items ==> item != Unresolved && item != Contract
  }

  /** Every path from `f` meets acceptable operations only and comes back to none of them, nor to `visiting`. */
  ghost predicate Clean(g: Graph, f: nat, visiting: set<nat>) {
    forall path :: IsPath(g, path) && path[0] == f ==>
      NodeOk(g, path[|path| - 1]) && NoRepeat(path) && !(g[path[|path| - 1]].Body? && path[|path| - 1] in visiting)
  }

  // ---------------------------------------------------------------------------------------------
  // Proven

  ghost predicate AllProven(g: Graph, targets: seq<nat>, visiting: set<nat>) {
    forall t :: t in targets ==> Search(g, t, visiting) == Proven
  }

  lemma AllProvenJoin(g: Graph, a: seq<nat>, b: seq<nat>, visiting: set<nat>)
    ensures AllProven(g, a + b, visiting) <==> AllProven(g, a, visiting) && AllProven(g, b, visiting)
  {
    hide Search;
    if AllProven(g, a + b, visiting) {
      forall t | t in a ensures Search(g, t, visiting) == Proven { assert t in a + b; }
      forall t | t in b ensures Search(g, t, visiting) == Proven { assert t in a + b; }
    }
  }

  lemma {:induction false} TargetsProven(g: Graph, targets: seq<nat>, visiting: set<nat>, so: Outcome)
    ensures Targets(g, targets, visiting, so) == Proven <==> so == Proven && AllProven(g, targets, visiting)
    decreases |targets|
  {
    hide Search;
    if targets != [] {
      TargetsProven(g, targets[1..], visiting, Combined(so, Search(g, targets[0], visiting)));
      assert targets == [targets[0]] + targets[1..];
      AllProvenJoin(g, [targets[0]], targets[1..], visiting);
      assert AllProven(g, [targets[0]], visiting) <==> Search(g, targets[0], visiting) == Proven by {
        assert targets[0] in [targets[0]];
      }
    }
  }

  predicate AllResolved(items: seq<Item>) {
    forall item :: item in items ==> item != Unresolved && item != Contract
  }

  lemma ResolvedFirst(items: seq<Item>)
    requires items != []
    ensures AllResolved(items) <==> items[0] != Unresolved && items[0] != Contract && AllResolved(items[1..])
  {
    assert items[0] in items;
    if AllResolved(items) {
      forall item | item in items[1..] ensures item != Unresolved && item != Contract { assert item in items; }
    }
    if items[0] != Unresolved && items[0] != Contract && AllResolved(items[1..]) {
      forall item | item in items ensures item != Unresolved && item != Contract {
        if item != items[0] {
          assert items == [items[0]] + items[1..];
          assert item in items[1..];
        }
      }
    }
  }

  /** The outcome never comes back to Proven. */
  lemma {:induction false} ItemsProven(g: Graph, items: seq<Item>, visiting: set<nat>, so: Outcome)
    ensures Items(g, items, visiting, so) == Proven <==>
            so == Proven && AllResolved(items) && AllProven(g, SuccessorsOf(items), visiting)
    decreases |items|
  {
    hide Search;
    if items != [] {
      var next := AfterItem(g, items[0], visiting, so);
      assert Items(g, items, visiting, so) == Items(g, items[1..], visiting, next);
      ItemsProven(g, items[1..], visiting, next);
      ResolvedFirst(items);
      var own := match items[0] case Call(ts) => ts case Instance(t) => [t] case _ => [];
      assert SuccessorsOf(items) == own + SuccessorsOf(items[1..]);
      AllProvenJoin(g, own, SuccessorsOf(items[1..]), visiting);
      hide AllProven;
      if items[0].Call? {
        TargetsProven(g, items[0].targets, visiting, so);
      } else {
        OwnProven(g, items[0], visiting);
      }
    }
  }

  lemma OwnProven(g: Graph, item: Item, visiting: set<nat>)
    ensures item.Instance? ==> (AllProven(g, [item.target], visiting) <==> Search(g, item.target, visiting) == Proven)
    ensures AllProven(g, [], visiting)
  {
    if item.Instance? {
      assert item.target in [item.target];
    }
  }

  function AfterItem(g: Graph, item: Item, visiting: set<nat>, so: Outcome): Outcome {
    match item
    case Inspection => so
    case Unresolved => Unknown
    case Call(targets) => Targets(g, targets, visiting, so)
    case Contract => Disproven
    case Instance(t) => if Search(g, t, visiting) != Proven then Search(g, t, visiting) else so
  }

  lemma PathTail(g: Graph, path: seq<nat>)
    requires IsPath(g, path) && |path| > 1
    ensures IsPath(g, path[1..]) && path[1] in Successors(g, path[0])
  {
    var rest := path[1..];
    forall i | 0 < i < |rest| ensures rest[i] in Successors(g, rest[i - 1]) {
      assert path[i + 1] in Successors(g, path[i]);
    }
    assert path[1] in Successors(g, path[0]);
  }

  lemma PathFront(g: Graph, path: seq<nat>, n: nat)
    requires IsPath(g, path) && 0 < n <= |path|
    ensures IsPath(g, path[..n])
  {
    var front := path[..n];
    forall i | 0 < i < |front| ensures front[i] in Successors(g, front[i - 1]) {
      assert path[i] in Successors(g, path[i - 1]);
    }
  }

  lemma PathOnto(g: Graph, f: nat, path: seq<nat>)
    requires IsPath(g, path) && path[0] in Successors(g, f)
    ensures IsPath(g, [f] + path)
  {
    var longer := [f] + path;
    forall i | 0 < i < |longer| ensures longer[i] in Successors(g, longer[i - 1]) {
      if i > 1 {
        assert path[i - 1] in Successors(g, path[i - 2]);
      }
    }
  }

  /** A clean expansion of `f` expands its successors cleanly without coming back to `f`. */
  lemma CleanSuccessor(g: Graph, f: nat, visiting: set<nat>, t: nat)
    requires Clean(g, f, visiting) && t in Successors(g, f)
    ensures Clean(g, t, visiting + {f})
  {
    forall path | IsPath(g, path) && path[0] == t
      ensures NodeOk(g, path[|path| - 1]) && NoRepeat(path)
              && !(g[path[|path| - 1]].Body? && path[|path| - 1] in visiting + {f})
    {
      PathOnto(g, f, path);
      LongerIsClean(g, f, visiting, path);
    }
  }

  lemma LongerIsClean(g: Graph, f: nat, visiting: set<nat>, path: seq<nat>)
    requires Clean(g, f, visiting) && path != [] && IsPath(g, [f] + path)
    ensures NodeOk(g, path[|path| - 1]) && NoRepeat(path)
            && !(g[path[|path| - 1]].Body? && path[|path| - 1] in visiting + {f})
  {
    hide IsPath, NodeOk;
    var longer := [f] + path;
    assert longer[|longer| - 1] == path[|path| - 1] && longer[0] == f;
    forall i, j | 0 <= i < j < |path| ensures path[i] != path[j] {
      assert longer[i + 1] != longer[j + 1];
    }
    assert longer[0] != longer[|path|];
  }

  /** A body whose successors are all clean is clean. */
  lemma CleanBody(g: Graph, f: nat, visiting: set<nat>)
    requires NodeOk(g, f) && (g[f].Body? ==> f !in visiting)
    requires forall t :: t in Successors(g, f) ==> Clean(g, t, visiting + {f})
    ensures Clean(g, f, visiting)
  {
    forall path | IsPath(g, path) && path[0] == f
      ensures NodeOk(g, path[|path| - 1]) && NoRepeat(path)
              && !(g[path[|path| - 1]].Body? && path[|path| - 1] in visiting)
    {
      if |path| > 1 {
        PathTail(g, path);
        var rest := path[1..];
        assert Clean(g, rest[0], visiting + {f});
        assert rest[|rest| - 1] == path[|path| - 1];
        forall i, j | 0 <= i < j < |path| ensures path[i] != path[j] {
          if i > 0 {
            assert rest[i - 1] != rest[j - 1];
          } else {
            PathFront(g, rest, j);
            var front := rest[..j];
            assert front[0] == rest[0] && front[|front| - 1] == path[j];
            assert !(g[path[j]].Body? && path[j] in visiting + {f});
            assert g[f].Body?;
          }
        }
      }
    }
  }

  lemma ItselfIsPath(g: Graph, f: nat, visiting: set<nat>)
    requires Clean(g, f, visiting)
    ensures NodeOk(g, f) && !(g[f].Body? && f in visiting)
  {
    assert IsPath(g, [f]) && [f][0] == f;
    assert [f][|[f]| - 1] == f;
  }

  /** The search proves exactly what is clean from the functions on its path. */
  lemma {:induction false} SearchIsExact(g: Graph, f: nat, visiting: set<nat>)
    ensures Search(g, f, visiting) == Proven <==> Clean(g, f, visiting)
    decreases Rest(g, visiting)
  {
    hide Clean, Items;
    if f >= |g| {
      if Clean(g, f, visiting) {
        ItselfIsPath(g, f, visiting);
      }
    } else if !g[f].Body? {
      if Clean(g, f, visiting) {
        ItselfIsPath(g, f, visiting);
      }
      if NodeOk(g, f) {
        CleanBody(g, f, visiting);
      }
    } else if f in visiting {
      if Clean(g, f, visiting) {
        ItselfIsPath(g, f, visiting);
        assert false;
      }
    } else {
      assert f in Rest(g, visiting) && f !in Rest(g, visiting + {f});
      forall t | t in Successors(g, f) ensures Search(g, t, visiting + {f}) == Proven <==> Clean(g, t, visiting + {f}) {
        SearchIsExact(g, t, visiting + {f});
      }
      ItemsProven(g, g[f].items, visiting + {f}, Proven);
      assert Successors(g, f) == SuccessorsOf(g[f].items);
      if Clean(g, f, visiting) {
        ItselfIsPath(g, f, visiting);
        forall t | t in Successors(g, f) ensures Clean(g, t, visiting + {f}) {
          CleanSuccessor(g, f, visiting, t);
        }
      }
      if NodeOk(g, f) && forall t :: t in Successors(g, f) ==> Clean(g, t, visiting + {f}) {
        CleanBody(g, f, visiting);
      }
    }
  }

  // ---------------------------------------------------------------------------------------------
  // Disproven

  /** A contract that allocates. */
  predicate Allocating(g: Graph, f: nat) {
    f < |g| && (g[f] == Summary(Allocates) || (g[f].Body? && Contract in g[f].items))
  }

  ghost predicate ReachesAllocation(g: Graph, f: nat) {
    exists path :: IsPath(g, path) && path[0] == f && Allocating(g, path[|path| - 1])
  }

  lemma ReachesOn(g: Graph, f: nat, t: nat)
    requires t in Successors(g, f) && ReachesAllocation(g, t)
    ensures ReachesAllocation(g, f)
  {
    var path :| IsPath(g, path) && path[0] == t && Allocating(g, path[|path| - 1]);
    PathOnto(g, f, path);
    assert ([f] + path)[|[f] + path| - 1] == path[|path| - 1];
  }

  ghost predicate SomeDisproven(g: Graph, targets: seq<nat>, visiting: set<nat>) {
    exists i :: 0 <= i < |targets| && Search(g, targets[i], visiting) == Disproven
  }

  lemma SomeDisprovenJoin(g: Graph, a: seq<nat>, b: seq<nat>, visiting: set<nat>)
    requires SomeDisproven(g, a, visiting) || SomeDisproven(g, b, visiting)
    ensures SomeDisproven(g, a + b, visiting)
  {
    hide Search;
    if i :| 0 <= i < |a| && Search(g, a[i], visiting) == Disproven {
      assert (a + b)[i] == a[i];
    } else {
      var i :| 0 <= i < |b| && Search(g, b[i], visiting) == Disproven;
      assert (a + b)[|a| + i] == b[i];
    }
  }

  lemma {:induction false} TargetsDisproven(g: Graph, targets: seq<nat>, visiting: set<nat>, so: Outcome)
    requires Targets(g, targets, visiting, so) == Disproven
    ensures so == Disproven || SomeDisproven(g, targets, visiting)
    decreases |targets|
  {
    hide Search;
    if targets != [] {
      TargetsDisproven(g, targets[1..], visiting, Combined(so, Search(g, targets[0], visiting)));
      if SomeDisproven(g, targets[1..], visiting) {
        SomeDisprovenJoin(g, [targets[0]], targets[1..], visiting);
        assert targets == [targets[0]] + targets[1..];
      }
    }
  }

  lemma {:induction false} ItemsDisproven(g: Graph, items: seq<Item>, visiting: set<nat>, so: Outcome)
    requires Items(g, items, visiting, so) == Disproven
    ensures so == Disproven || Contract in items || SomeDisproven(g, SuccessorsOf(items), visiting)
    decreases |items|
  {
    hide Search;
    if items != [] {
      var next := AfterItem(g, items[0], visiting, so);
      assert Items(g, items, visiting, so) == Items(g, items[1..], visiting, next);
      ItemsDisproven(g, items[1..], visiting, next);
      var own := match items[0] case Call(ts) => ts case Instance(t) => [t] case _ => [];
      assert SuccessorsOf(items) == own + SuccessorsOf(items[1..]);
      if next == Disproven && so != Disproven {
        if items[0].Call? {
          TargetsDisproven(g, items[0].targets, visiting, so);
        } else if items[0].Instance? {
          assert Search(g, own[0], visiting) == Disproven;
        }
      }
      if SomeDisproven(g, own, visiting) || SomeDisproven(g, SuccessorsOf(items[1..]), visiting) {
        SomeDisprovenJoin(g, own, SuccessorsOf(items[1..]), visiting);
      } else if Contract in items[1..] {
        assert items == [items[0]] + items[1..];
      }
    }
  }

  /** A refutation is backed by an allocating contract the function can reach. */
  lemma {:induction false} DisprovenIsReal(g: Graph, f: nat, visiting: set<nat>)
    requires Search(g, f, visiting) == Disproven
    ensures ReachesAllocation(g, f)
    decreases Rest(g, visiting)
  {
    hide Items;
    assert IsPath(g, [f]) && [f][|[f]| - 1] == f;
    if !Allocating(g, f) {
      assert f in Rest(g, visiting) && f !in Rest(g, visiting + {f});
      ItemsDisproven(g, g[f].items, visiting + {f}, Proven);
      var i :| 0 <= i < |Successors(g, f)| && Search(g, Successors(g, f)[i], visiting + {f}) == Disproven;
      var t := Successors(g, f)[i];
      DisprovenIsReal(g, t, visiting + {f});
      ReachesOn(g, f, t);
    }
  }

  // ---------------------------------------------------------------------------------------------
  // Which reachable contracts the search reports

  function TargetsOf(item: Item): seq<nat> {
    match item case Call(ts) => ts case Instance(t) => [t] case _ => []
  }

  /** A function on the way to a contract, and the item of its body that leads on. */
  datatype Hop = Hop(fn: nat, item: nat)

  /**
   The hops lead from one body to the next and end at an allocating contract, they come back to no
   function on the path, and in no body on the way something later hides what the search has found.
   */
  ghost predicate Refutes(g: Graph, hops: seq<Hop>, visiting: set<nat>)
    decreases Rest(g, visiting), 0, |hops|
  {
    hops != [] && hops[0].fn < |g| &&
    match g[hops[0].fn]
    case Summary(e) => e == Allocates && |hops| == 1
    case Body(items) =>
      var (f, i) := (hops[0].fn, hops[0].item);
      && f !in visiting && i < |items|
      && assert f in Rest(g, visiting) && f !in Rest(g, visiting + {f});
         Undisturbed(g, items[i + 1..], visiting + {f})
      && (if |hops| == 1 then items[i] == Contract
          else hops[1].fn in TargetsOf(items[i]) && Refutes(g, hops[1..], visiting + {f}))
    case _ => false
  }

  /** No call is unresolved, and every template instance is proven or refuted itself. */
  ghost predicate Undisturbed(g: Graph, items: seq<Item>, visiting: set<nat>)
    decreases Rest(g, visiting), 1, 1
  {
    forall k :: 0 <= k < |items| ==>
      items[k] != Unresolved && (items[k].Instance? ==> Settled(g, items[k].target, visiting))
  }

  ghost predicate Settled(g: Graph, f: nat, visiting: set<nat>)
    decreases Rest(g, visiting), 1, 0
  {
    Clean(g, f, visiting) || exists hops: seq<Hop> :: hops != [] && hops[0].fn == f && Refutes(g, hops, visiting)
  }

  ghost predicate Refuted(g: Graph, f: nat, visiting: set<nat>) {
    exists hops: seq<Hop> :: hops != [] && hops[0].fn == f && Refutes(g, hops, visiting)
  }

  /** What one item adds to the outcome: a refutation, */
  ghost predicate Starts(g: Graph, item: Item, visiting: set<nat>) {
    item == Contract || SomeDisproven(g, TargetsOf(item), visiting)
  }

  /** or nothing that replaces one. */
  predicate Keeps(g: Graph, item: Item, visiting: set<nat>) {
    item != Unresolved && (item.Instance? ==> Search(g, item.target, visiting) != Unknown)
  }

  ghost predicate KeepsAll(g: Graph, items: seq<Item>, visiting: set<nat>) {
    forall k :: 0 <= k < |items| ==> Keeps(g, items[k], visiting)
  }

  lemma {:induction false} TargetsRefute(g: Graph, targets: seq<nat>, visiting: set<nat>, so: Outcome)
    ensures Targets(g, targets, visiting, so) == Disproven <==> so == Disproven || SomeDisproven(g, targets, visiting)
    decreases |targets|
  {
    hide Search;
    if Targets(g, targets, visiting, so) == Disproven {
      TargetsDisproven(g, targets, visiting, so);
    } else if targets != [] {
      TargetsRefute(g, targets[1..], visiting, Combined(so, Search(g, targets[0], visiting)));
      if i :| 0 <= i < |targets| && Search(g, targets[i], visiting) == Disproven {
        assert i > 0 ==> targets[1..][i - 1] == targets[i];
      }
    }
  }

  lemma AfterRefutes(g: Graph, item: Item, visiting: set<nat>, so: Outcome)
    ensures AfterItem(g, item, visiting, so) == Disproven <==>
            Starts(g, item, visiting) || (so == Disproven && Keeps(g, item, visiting))
  {
    hide Search;
    if item.Call? {
      TargetsRefute(g, item.targets, visiting, so);
    } else if item.Instance? {
      assert TargetsOf(item)[0] == item.target;
    }
  }

  /** The refutation of one item, with nothing later to replace it. */
  ghost predicate Lasts(g: Graph, items: seq<Item>, i: nat, visiting: set<nat>) {
    i < |items| && Starts(g, items[i], visiting) && KeepsAll(g, items[i + 1..], visiting)
  }

  lemma {:induction false} ItemsRefute(g: Graph, items: seq<Item>, visiting: set<nat>, so: Outcome)
    ensures Items(g, items, visiting, so) == Disproven <==>
            (so == Disproven && KeepsAll(g, items, visiting)) || exists i: nat :: Lasts(g, items, i, visiting)
    decreases |items|
  {
    hide Search, Starts, Keeps;
    if items != [] {
      var next, rest := AfterItem(g, items[0], visiting, so), items[1..];
      assert Items(g, items, visiting, so) == Items(g, rest, visiting, next);
      AfterRefutes(g, items[0], visiting, so);
      ItemsRefute(g, rest, visiting, next);
      assert KeepsAll(g, items, visiting) <==> Keeps(g, items[0], visiting) && KeepsAll(g, rest, visiting) by {
        assert forall k :: 0 <= k < |rest| ==> items[k + 1] == rest[k];
      }
      if i: nat :| Lasts(g, rest, i, visiting) {
        assert rest[i + 1..] == items[i + 2..];
        assert Lasts(g, items, i + 1, visiting);
      }
      if next == Disproven && KeepsAll(g, rest, visiting) && Starts(g, items[0], visiting) {
        assert Lasts(g, items, 0, visiting);
      }
      forall i: nat | Lasts(g, items, i, visiting) ensures i == 0 || Lasts(g, rest, i - 1, visiting) {
        if i > 0 {
          assert rest[i..] == items[i + 1..] && rest[i - 1] == items[i];
        }
      }
    }
  }

  ghost predicate Same(g: Graph, items: seq<Item>, i: nat, visiting: set<nat>)
    requires i < |items|
  {
    Undisturbed(g, items[i + 1..], visiting) <==> KeepsAll(g, items[i + 1..], visiting)
  }

  lemma SettledIff(g: Graph, items: seq<Item>, visiting: set<nat>)
    requires forall k :: 0 <= k < |items| && items[k].Instance? ==>
               (Search(g, items[k].target, visiting) == Disproven <==> Refuted(g, items[k].target, visiting))
    ensures Undisturbed(g, items, visiting) <==> KeepsAll(g, items, visiting)
  {
    hide Search, Clean, Refutes;
    forall k | 0 <= k < |items| && items[k].Instance?
      ensures Settled(g, items[k].target, visiting) <==> Search(g, items[k].target, visiting) != Unknown
    {
      SearchIsExact(g, items[k].target, visiting);
    }
  }

  lemma HopOnto(g: Graph, f: nat, i: nat, t: nat, visiting: set<nat>)
    requires f < |g| && g[f].Body? && f !in visiting && i < |g[f].items| && t in TargetsOf(g[f].items[i])
    requires Refuted(g, t, visiting + {f}) && Undisturbed(g, g[f].items[i + 1..], visiting + {f})
    ensures Refuted(g, f, visiting)
  {
    hide Undisturbed;
    var hops: seq<Hop> :| hops != [] && hops[0].fn == t && Refutes(g, hops, visiting + {f});
    var longer := [Hop(f, i)] + hops;
    assert longer[1..] == hops;
    assert Refutes(g, longer, visiting);
  }

  lemma HereRefuted(g: Graph, f: nat, i: nat, visiting: set<nat>)
    requires f < |g| && g[f].Body? && f !in visiting && i < |g[f].items| && g[f].items[i] == Contract
    requires Undisturbed(g, g[f].items[i + 1..], visiting + {f})
    ensures Refuted(g, f, visiting)
  {
    hide Undisturbed;
    assert Refutes(g, [Hop(f, i)], visiting);
  }

  /** The search refutes exactly what an undisturbed path leads from to an allocating contract. */
  lemma {:induction false} DisprovenIff(g: Graph, f: nat, visiting: set<nat>)
    ensures Search(g, f, visiting) == Disproven <==> Refuted(g, f, visiting)
    decreases Rest(g, visiting)
  {
    hide Items, Starts, Undisturbed;
    if f < |g| && g[f].Body? && f !in visiting {
      BodyDisproven(g, f, visiting);
    } else if f < |g| && g[f] == Summary(Allocates) {
      assert Refutes(g, [Hop(f, 0)], visiting);
    }
  }

  lemma {:induction false} BodyDisproven(g: Graph, f: nat, visiting: set<nat>)
    requires f < |g| && g[f].Body? && f !in visiting
    ensures Search(g, f, visiting) == Disproven <==> Refuted(g, f, visiting)
    decreases Rest(g, visiting), 0
  {
    hide Undisturbed, Refuted, KeepsAll, Search;
    assert f in Rest(g, visiting) && f !in Rest(g, visiting + {f});
    var items, inner := g[f].items, visiting + {f};
    ItemsRefute(g, items, inner, Proven);
    forall t: nat ensures Search(g, t, inner) == Disproven <==> Refuted(g, t, inner) {
      DisprovenIff(g, t, inner);
    }
    forall i: nat | i < |items| ensures Same(g, items, i, inner) {
      SettledIff(g, items[i + 1..], inner);
    }
    if i: nat :| Lasts(g, items, i, inner) {
      assert Same(g, items, i, inner);
      if items[i] == Contract {
        HereRefuted(g, f, i, visiting);
      } else {
        var k :| 0 <= k < |TargetsOf(items[i])| && Search(g, TargetsOf(items[i])[k], inner) == Disproven;
        HopOnto(g, f, i, TargetsOf(items[i])[k], visiting);
      }
    }
    if Refuted(g, f, visiting) {
      FirstHop(g, f, visiting);
    }
    assert Search(g, f, visiting) == Items(g, items, inner, Proven) by { SearchBody(g, f, visiting); }
  }

  lemma SearchBody(g: Graph, f: nat, visiting: set<nat>)
    requires f < |g| && g[f].Body? && f !in visiting
    ensures Search(g, f, visiting) == Items(g, g[f].items, visiting + {f}, Proven)
  {
  }

  lemma FirstHop(g: Graph, f: nat, visiting: set<nat>)
    requires f < |g| && g[f].Body? && Refuted(g, f, visiting)
    requires forall t: nat :: Search(g, t, visiting + {f}) == Disproven <==> Refuted(g, t, visiting + {f})
    requires forall i: nat :: i < |g[f].items| ==> Same(g, g[f].items, i, visiting + {f})
    ensures exists i: nat :: Lasts(g, g[f].items, i, visiting + {f})
  {
    hide Undisturbed, KeepsAll, Search;
    var hops: seq<Hop> :| hops != [] && hops[0].fn == f && Refutes(g, hops, visiting);
    var i := hops[0].item;
    if |hops| > 1 {
      var t := hops[1].fn;
      assert hops[1..][0] == hops[1];
      assert Refuted(g, t, visiting + {f});
      var k :| 0 <= k < |TargetsOf(g[f].items[i])| && TargetsOf(g[f].items[i])[k] == t;
      assert Search(g, TargetsOf(g[f].items[i])[k], visiting + {f}) == Disproven;
    }
    assert Same(g, g[f].items, i, visiting + {f});
    assert Lasts(g, g[f].items, i, visiting + {f});
  }

  /** An unresolved call seen later hides the contract, */
  lemma UnresolvedHides()
    ensures var g := [Body([Call([1]), Unresolved]), Summary(Allocates)];
            ReachesAllocation(g, 0) && Search(g, 0, {}) == Unknown
  {
    var g := [Body([Call([1]), Unresolved]), Summary(Allocates)];
    LaterHides(g, Unresolved);
  }

  /** and so does a template instance about which nothing is known. */
  lemma InstanceHides()
    ensures var g := [Body([Call([1]), Instance(2)]), Summary(Allocates), External];
            ReachesAllocation(g, 0) && Search(g, 0, {}) == Unknown
  {
    var g := [Body([Call([1]), Instance(2)]), Summary(Allocates), External];
    LaterHides(g, Instance(2));
  }

  /** An item after the call of an allocating function that makes the outcome unknown. */
  lemma {:induction false} LaterHides(g: Graph, later: Item)
    requires |g| > 1 && g[0] == Body([Call([1]), later]) && g[1] == Summary(Allocates)
    requires AfterItem(g, later, {0}, Disproven) == Unknown
    ensures ReachesAllocation(g, 0) && Search(g, 0, {}) == Unknown
  {
    CallReaches(g, later);
    OneCall(g, 1, {0});
    hide AfterItem, Search, Targets;
    var items := g[0].items;
    ItemsFirst(g, items, {0}, Proven);
    ItemsFirst(g, items[1..], {0}, Disproven);
    assert items[1..] == [later] && items[1..][1..] == [];
    SearchBody(g, 0, {});
    assert {} + {0} == {0};
  }

  lemma {:induction false} CallReaches(g: Graph, later: Item)
    requires |g| > 1 && g[0] == Body([Call([1]), later]) && g[1] == Summary(Allocates)
    ensures ReachesAllocation(g, 0)
  {
    var items := g[0].items;
    assert Successors(g, 0) == [1] + SuccessorsOf(items[1..]);
    assert IsPath(g, [0, 1]) && Allocating(g, [0, 1][1]);
  }

  lemma OneCall(g: Graph, t: nat, visiting: set<nat>)
    requires Search(g, t, visiting) == Disproven
    ensures AfterItem(g, Call([t]), visiting, Proven) == Disproven
  {
    assert [t][1..] == [];
    assert Combined(Proven, Disproven) == Disproven;
    assert Targets(g, [t], visiting, Proven) == Targets(g, [t][1..], visiting, Disproven);
  }

  lemma ItemsFirst(g: Graph, items: seq<Item>, visiting: set<nat>, so: Outcome)
    requires items != []
    ensures Items(g, items, visiting, so) == Items(g, items[1..], visiting, AfterItem(g, items[0], visiting, so))
  {
  }

  // ---------------------------------------------------------------------------------------------
  // The search as the compiler runs it

  class ProofSearch {
    const g: Graph
    var visiting: set<nat>

    constructor (g: Graph)
      ensures this.g == g && visiting == {}
    {
      this.g := g;
      visiting := {};
    }

    /** Marks the function while its calls are examined, and unmarks it on the way out. */
    method Project(f: nat) returns (outcome: Outcome)
      modifies this
      ensures outcome == Search(g, f, old(visiting)) && visiting == old(visiting)
      decreases Rest(g, visiting), 1, 0
    {
      if f >= |g| {
        return Unknown;
      }
      match g[f]
      case Primitive => outcome := Proven;
      case Summary(e) =>
        outcome := if e == NoAllocation then Proven else if e == UnknownEffect then Unknown else Disproven;
      case External =>
        outcome := Unknown;
      case Body(items) =>
        if f in visiting {
          return Unknown;
        }
        assert f in Rest(g, visiting) && f !in Rest(g, visiting + {f});
        ghost var before := visiting;
        visiting := visiting + {f};
        outcome := Proven;
        for i := 0 to |items|
          invariant visiting == before + {f}
          invariant Items(g, items, visiting, Proven) == Items(g, items[i..], visiting, outcome)
        {
          assert items[i..][0] == items[i] && items[i..][1..] == items[i + 1..];
          outcome := Examine(items[i], outcome);
        }
        visiting := visiting - {f};
        assert visiting == before;
    }

    method Examine(item: Item, so: Outcome) returns (outcome: Outcome)
      modifies this
      ensures outcome == AfterItem(g, item, old(visiting), so) && visiting == old(visiting)
      decreases Rest(g, visiting), 2, 0
    {
      outcome := so;
      match item
      case Inspection =>
      case Unresolved => outcome := Unknown;
      case Contract => outcome := Disproven;
      case Instance(t) =>
        var child := Project(t);
        if child != Proven {
          outcome := child;
        }
      case Call(targets) =>
        for i := 0 to |targets|
          invariant visiting == old(visiting)
          invariant Targets(g, targets, visiting, so) == Targets(g, targets[i..], visiting, outcome)
        {
          assert targets[i..][0] == targets[i] && targets[i..][1..] == targets[i + 1..];
          var child := Project(targets[i]);
          if child == Disproven {
            outcome := Disproven;
          } else if child == Unknown && outcome == Proven {
            outcome := Unknown;
          }
        }
    }
  }
}
