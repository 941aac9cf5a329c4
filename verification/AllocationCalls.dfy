/**
 Which calls of a body the proof of `NoAllocation` looks at.  The collection walks some statement and
 expression forms and passes over others with all that is below them, so a proof is about the calls collected.
 It is right about all calls exactly when the calls passed over are harmless.
 */
module AllocationCalls {
  import opened Wrappers
  import opened NoAllocation

  /**
   `MemberCall` has its arguments walked, but is not recorded and its receiver is passed over.  `Walked` stands
   for casts, constructions, array literals, operators, `?`, `move`, `ref`, indexing and `if` expressions, and
   `Passed` for field accesses and `match` and `with` expressions.
   */
  datatype Expr =
    | Leaf
    | CallTo(name: nat, args: seq<Expr>)
    | MemberCall(name: nat, receiver: Expr, args: seq<Expr>)
    | TemplateCall(key: nat, args: seq<Expr>)
    | Walked(parts: seq<Expr>)
    | Passed(parts: seq<Expr>)

  /**
   `Evaluate` is an expression statement, a declaration or a return, and `Other` a `foreach`, `match`, `try` or
   assertion statement.
   */
  datatype Stmt =
    | Evaluate(e: Expr)
    | Assign(target: Expr, value: Expr)
    | If(cond: Expr, thn: seq<Stmt>, els: seq<Stmt>)
    | While(cond: Expr, body: seq<Stmt>, els: seq<Stmt>)
    | Block(stmts: seq<Stmt>)
    | Other(exprs: seq<Expr>, arms: seq<Arm>)

  datatype Arm = Arm(block: seq<Stmt>)

  /** A call of a function by name and signature, numbered as they are sorted, or of a template instance. */
  datatype Site = Direct(name: nat) | OfTemplate(key: nat)

  // ---------------------------------------------------------------------------------------------
  // All calls

  function AllIn(e: Expr): seq<Site> {
    match e
    case Leaf => []
    case CallTo(name, args) => [Direct(name)] + AllOf(args)
    case MemberCall(name, receiver, args) => [Direct(name)] + AllIn(receiver) + AllOf(args)
    case TemplateCall(key, args) => [OfTemplate(key)] + AllOf(args)
    case Walked(parts) => AllOf(parts)
    case Passed(parts) => AllOf(parts)
  }

  function AllOf(es: seq<Expr>): seq<Site> {
    if es == [] then [] else AllIn(es[0]) + AllOf(es[1..])
  }

  function AllAt(s: Stmt): seq<Site> {
    match s
    case Evaluate(e) => AllIn(e)
    case Assign(target, value) => AllIn(target) + AllIn(value)
    case If(cond, thn, els) => AllIn(cond) + AllCalls(thn) + AllCalls(els)
    case While(cond, body, els) => AllIn(cond) + AllCalls(body) + AllCalls(els)
    case Block(b) => AllCalls(b)
    case Other(exprs, arms) => AllOf(exprs) + AllArms(arms)
  }

  function AllCalls(b: seq<Stmt>): seq<Site> {
    if b == [] then [] else AllAt(b[0]) + AllCalls(b[1..])
  }

  function AllArms(arms: seq<Arm>): seq<Site> {
    if arms == [] then [] else AllCalls(arms[0].block) + AllArms(arms[1..])
  }

  // ---------------------------------------------------------------------------------------------
  // Calls that are collected

  function SeenIn(e: Expr): seq<Site> {
    match e
    case Leaf => []
    case CallTo(name, args) => [Direct(name)] + SeenOf(args)
    case MemberCall(_, _, args) => SeenOf(args)
    case TemplateCall(key, args) => [OfTemplate(key)] + SeenOf(args)
    case Walked(parts) => SeenOf(parts)
    case Passed(_) => []
  }

  function SeenOf(es: seq<Expr>): seq<Site> {
    if es == [] then [] else SeenIn(es[0]) + SeenOf(es[1..])
  }

  function SeenAt(s: Stmt): seq<Site> {
    match s
    case Evaluate(e) => SeenIn(e)
    case Assign(_, value) => SeenIn(value)
    case If(cond, thn, els) => SeenIn(cond) + SeenCalls(thn) + SeenCalls(els)
    case While(cond, body, els) => SeenIn(cond) + SeenCalls(body) + SeenCalls(els)
    case Block(b) => SeenCalls(b)
    case Other(_, _) => []
  }

  function SeenCalls(b: seq<Stmt>): seq<Site> {
    if b == [] then [] else SeenAt(b[0]) + SeenCalls(b[1..])
  }

  // ---------------------------------------------------------------------------------------------
  // Calls below a form that is passed over

  function HiddenIn(e: Expr): seq<Site> {
    match e
    case Leaf => []
    case CallTo(_, args) => HiddenOf(args)
    case MemberCall(name, receiver, args) => [Direct(name)] + AllIn(receiver) + HiddenOf(args)
    case TemplateCall(_, args) => HiddenOf(args)
    case Walked(parts) => HiddenOf(parts)
    case Passed(parts) => AllOf(parts)
  }

  function HiddenOf(es: seq<Expr>): seq<Site> {
    if es == [] then [] else HiddenIn(es[0]) + HiddenOf(es[1..])
  }

  function HiddenAt(s: Stmt): seq<Site> {
    match s
    case Evaluate(e) => HiddenIn(e)
    case Assign(target, value) => AllIn(target) + HiddenIn(value)
    case If(cond, thn, els) => HiddenIn(cond) + HiddenCalls(thn) + HiddenCalls(els)
    case While(cond, body, els) => HiddenIn(cond) + HiddenCalls(body) + HiddenCalls(els)
    case Block(b) => HiddenCalls(b)
    case Other(exprs, arms) => AllOf(exprs) + AllArms(arms)
  }

  function HiddenCalls(b: seq<Stmt>): seq<Site> {
    if b == [] then [] else HiddenAt(b[0]) + HiddenCalls(b[1..])
  }

  // ---------------------------------------------------------------------------------------------
  // Every call is collected or hidden

  predicate Splits(all: seq<Site>, seen: seq<Site>, hidden: seq<Site>) {
    multiset(all) == multiset(seen) + multiset(hidden) && (hidden == [] ==> all == seen)
  }

  lemma SplitsJoin(all: seq<Site>, seen: seq<Site>, hidden: seq<Site>, all1: seq<Site>, seen1: seq<Site>,
                   hidden1: seq<Site>)
    requires Splits(all, seen, hidden) && Splits(all1, seen1, hidden1)
    ensures Splits(all + all1, seen + seen1, hidden + hidden1)
  {
    if hidden + hidden1 == [] {
      assert |hidden| + |hidden1| == |hidden + hidden1|;
    }
  }

  lemma SplitsWhole(all: seq<Site>)
    ensures Splits(all, all, []) && Splits(all, [], all)
  {
  }

  lemma {:induction false} ExprSplits(e: Expr)
    ensures Splits(AllIn(e), SeenIn(e), HiddenIn(e))
    decreases e
  {
    hide Splits;
    match e
    case Leaf => SplitsWhole([]);
    case CallTo(name, args) =>
      SplitsWhole([Direct(name)]);
      ExprsSplit(args);
      SplitsJoin([Direct(name)], [Direct(name)], [], AllOf(args), SeenOf(args), HiddenOf(args));
      assert [] + HiddenOf(args) == HiddenOf(args);
    case MemberCall(name, receiver, args) =>
      var own := [Direct(name)] + AllIn(receiver);
      SplitsWhole(own);
      ExprsSplit(args);
      SplitsJoin(own, [], own, AllOf(args), SeenOf(args), HiddenOf(args));
      assert [] + SeenOf(args) == SeenOf(args);
    case TemplateCall(key, args) =>
      SplitsWhole([OfTemplate(key)]);
      ExprsSplit(args);
      SplitsJoin([OfTemplate(key)], [OfTemplate(key)], [], AllOf(args), SeenOf(args), HiddenOf(args));
      assert [] + HiddenOf(args) == HiddenOf(args);
    case Walked(parts) => ExprsSplit(parts);
    case Passed(parts) => SplitsWhole(AllOf(parts));
  }

  lemma {:induction false} ExprsSplit(es: seq<Expr>)
    ensures Splits(AllOf(es), SeenOf(es), HiddenOf(es))
    decreases es
  {
    hide Splits;
    if es == [] {
      SplitsWhole([]);
    } else {
      ExprSplits(es[0]);
      ExprsSplit(es[1..]);
      SplitsJoin(AllIn(es[0]), SeenIn(es[0]), HiddenIn(es[0]), AllOf(es[1..]), SeenOf(es[1..]), HiddenOf(es[1..]));
    }
  }

  lemma {:induction false} StmtSplits(s: Stmt)
    ensures Splits(AllAt(s), SeenAt(s), HiddenAt(s))
    decreases s
  {
    hide Splits;
    match s
    case Evaluate(e) => ExprSplits(e);
    case Assign(target, value) =>
      SplitsWhole(AllIn(target));
      ExprSplits(value);
      SplitsJoin(AllIn(target), [], AllIn(target), AllIn(value), SeenIn(value), HiddenIn(value));
      assert [] + SeenIn(value) == SeenIn(value);
    case If(cond, thn, els) =>
      CallsSplit(thn);
      CallsSplit(els);
      PartsSplit(cond, thn, els);
    case While(cond, body, els) =>
      CallsSplit(body);
      CallsSplit(els);
      PartsSplit(cond, body, els);
    case Block(b) => CallsSplit(b);
    case Other(exprs, arms) => SplitsWhole(AllOf(exprs) + AllArms(arms));
  }

  lemma PartsSplit(cond: Expr, a: seq<Stmt>, b: seq<Stmt>)
    requires Splits(AllCalls(a), SeenCalls(a), HiddenCalls(a)) && Splits(AllCalls(b), SeenCalls(b), HiddenCalls(b))
    ensures Splits(AllIn(cond) + AllCalls(a) + AllCalls(b), SeenIn(cond) + SeenCalls(a) + SeenCalls(b),
                   HiddenIn(cond) + HiddenCalls(a) + HiddenCalls(b))
  {
    hide Splits;
    ExprSplits(cond);
    SplitsJoin(AllIn(cond), SeenIn(cond), HiddenIn(cond), AllCalls(a), SeenCalls(a), HiddenCalls(a));
    SplitsJoin(AllIn(cond) + AllCalls(a), SeenIn(cond) + SeenCalls(a), HiddenIn(cond) + HiddenCalls(a),
               AllCalls(b), SeenCalls(b), HiddenCalls(b));
  }

  /** Each call of a body is collected or hidden, once, and collected in order where none is hidden. */
  lemma {:induction false} CallsSplit(b: seq<Stmt>)
    ensures Splits(AllCalls(b), SeenCalls(b), HiddenCalls(b))
    decreases b
  {
    hide Splits;
    if b == [] {
      SplitsWhole([]);
    } else {
      StmtSplits(b[0]);
      CallsSplit(b[1..]);
      SplitsJoin(AllAt(b[0]), SeenAt(b[0]), HiddenAt(b[0]),
                 AllCalls(b[1..]), SeenCalls(b[1..]), HiddenCalls(b[1..]));
    }
  }

  /** The collection is complete exactly when no call lies below a form that is passed over. */
  lemma CollectionIsCompleteIff(b: seq<Stmt>)
    ensures multiset(SeenCalls(b)) == multiset(AllCalls(b)) <==> HiddenCalls(b) == []
  {
    CallsSplit(b);
    if HiddenCalls(b) != [] {
      var s := HiddenCalls(b)[0];
      assert s in multiset(HiddenCalls(b));
    }
  }

  // ---------------------------------------------------------------------------------------------
  // What the search looks at

  /** The names in ascending order, each once. */
  function Names(sites: seq<Site>): seq<nat> {
    if sites == [] then []
    else if sites[0].Direct? then Insert(sites[0].name, Names(sites[1..]))
    else Names(sites[1..])
  }

  function Insert(n: nat, names: seq<nat>): seq<nat> {
    if names == [] || n < names[0] then [n] + names
    else if n == names[0] then names
    else [names[0]] + Insert(n, names[1..])
  }

  /** The template instances in the order in which they are first met. */
  function Keys(sites: seq<Site>): seq<nat> {
    Met([], sites)
  }

  function Met(keys: seq<nat>, sites: seq<Site>): seq<nat>
    decreases |sites|
  {
    if sites == [] then keys
    else Met(if sites[0].OfTemplate? && sites[0].key !in keys then keys + [sites[0].key] else keys, sites[1..])
  }

  /** What is known of a called name: whether it is an atomic or an inspecting intrinsic, and its candidates. */
  datatype Callee = Callee(atomic: bool, inspects: bool, candidates: seq<nat>)

  /** An instance of a template with an allocating contract, or of one whose generated function is examined. */
  datatype Template = MayAllocate | Generated(target: nat)

  /** A template without an instance is the compiler's own. */
  datatype Tables = Tables(calls: map<nat, Callee>, instances: map<nat, Template>)

  function CallItem(t: Tables, name: nat): Item {
    var c := if name in t.calls then t.calls[name] else Callee(false, false, []);
    if c.atomic then Inspection
    else if c.candidates == [] then (if c.inspects then Inspection else Unresolved)
    else Call(c.candidates)
  }

  function TemplateItem(t: Template): Item {
    match t
    case MayAllocate => Contract
    case Generated(f) => Instance(f)
  }

  function CallItems(t: Tables, names: seq<nat>): seq<Item> {
    if names == [] then [] else [CallItem(t, names[0])] + CallItems(t, names[1..])
  }

  function InstanceItems(t: Tables, keys: seq<nat>): seq<Item> {
    if keys == [] then []
    else (if keys[0] in t.instances then [TemplateItem(t.instances[keys[0]])] else []) + InstanceItems(t, keys[1..])
  }

  /** Calls by name first, then template instances. */
  function ItemsOf(t: Tables, sites: seq<Site>): seq<Item> {
    CallItems(t, Names(sites)) + InstanceItems(t, Keys(sites))
  }

  /** A name that is neither an intrinsic nor has a candidate. */
  predicate Missing(t: Tables, name: nat) {
    name !in t.calls || (!t.calls[name].atomic && !t.calls[name].inspects && t.calls[name].candidates == [])
  }

  /** What a call means to the search, from the tables alone. */
  predicate Resolves(t: Tables, s: Site, item: Item) {
    match (s, item)
    case (Direct(name), Unresolved) => Missing(t, name)
    case (Direct(name), Call(ts)) => name in t.calls && !t.calls[name].atomic && ts == t.calls[name].candidates != []
    case (Direct(name), Inspection) =>
      name in t.calls && (t.calls[name].atomic || (t.calls[name].inspects && t.calls[name].candidates == []))
    case (OfTemplate(key), Contract) => key in t.instances && t.instances[key].MayAllocate?
    case (OfTemplate(key), Instance(f)) => key in t.instances && t.instances[key] == Generated(f)
    case _ => false
  }

  lemma {:induction false} InsertHas(n: nat, names: seq<nat>, k: nat)
    ensures k in Insert(n, names) <==> k == n || k in names
  {
    if names != [] && n > names[0] {
      InsertHas(n, names[1..], k);
      assert names == [names[0]] + names[1..];
    }
  }

  lemma {:induction false} NamesHas(sites: seq<Site>, k: nat)
    ensures k in Names(sites) <==> Direct(k) in sites
  {
    if sites != [] {
      NamesHas(sites[1..], k);
      assert sites == [sites[0]] + sites[1..];
      if sites[0].Direct? {
        InsertHas(sites[0].name, Names(sites[1..]), k);
      }
    }
  }

  lemma {:induction false} MetHas(keys: seq<nat>, sites: seq<Site>, k: nat)
    ensures k in Met(keys, sites) <==> k in keys || OfTemplate(k) in sites
    decreases |sites|
  {
    if sites != [] {
      MetHas(if sites[0].OfTemplate? && sites[0].key !in keys then keys + [sites[0].key] else keys, sites[1..], k);
      assert sites == [sites[0]] + sites[1..];
    }
  }

  lemma {:induction false} CallItemsHas(t: Tables, names: seq<nat>, item: Item)
    ensures item in CallItems(t, names) <==> exists k: nat :: k in names && CallItem(t, k) == item
  {
    if names != [] {
      CallItemsHas(t, names[1..], item);
      assert names == [names[0]] + names[1..];
    }
  }

  lemma {:induction false} InstanceItemsHas(t: Tables, keys: seq<nat>, item: Item)
    ensures item in InstanceItems(t, keys) <==>
            exists k: nat :: k in keys && k in t.instances && TemplateItem(t.instances[k]) == item
  {
    if keys != [] {
      InstanceItemsHas(t, keys[1..], item);
      assert keys == [keys[0]] + keys[1..];
    }
  }

  /** The items are what the calls resolve to. */
  lemma ItemsOfHas(t: Tables, sites: seq<Site>, item: Item)
    ensures item in ItemsOf(t, sites) <==> exists s :: s in sites && Resolves(t, s, item)
  {
    CallItemsHas(t, Names(sites), item);
    InstanceItemsHas(t, Keys(sites), item);
    forall k: nat
      ensures (k in Names(sites) <==> Direct(k) in sites) && (k in Keys(sites) <==> OfTemplate(k) in sites)
    {
      NamesHas(sites, k);
      MetHas([], sites, k);
    }
    if item in CallItems(t, Names(sites)) {
      var k: nat :| k in Names(sites) && CallItem(t, k) == item;
      assert Resolves(t, Direct(k), item);
    }
    if item in InstanceItems(t, Keys(sites)) {
      var k: nat :| k in Keys(sites) && k in t.instances && TemplateItem(t.instances[k]) == item;
      assert Resolves(t, OfTemplate(k), item);
    }
    if s :| s in sites && Resolves(t, s, item) {
      if s.Direct? {
        assert s.name in Names(sites);
      } else {
        assert s.key in Keys(sites);
      }
    }
  }

  // ---------------------------------------------------------------------------------------------
  // The collection as the compiler runs it

  function DirectNames(sites: seq<Site>): set<nat> {
    set s | s in sites && s.Direct? :: s.name
  }

  predicate Ascending(names: seq<nat>) {
    forall i, j :: 0 <= i < j < |names| ==> names[i] < names[j]
  }

  /** Names and template instances met so far. */
  datatype Notes = Notes(names: set<nat>, keys: seq<nat>)

  function Noted(notes: Notes, sites: seq<Site>): Notes {
    Notes(notes.names + DirectNames(sites), Met(notes.keys, sites))
  }

  lemma {:induction false} MetJoin(keys: seq<nat>, a: seq<Site>, b: seq<Site>)
    ensures Met(keys, a + b) == Met(Met(keys, a), b)
    decreases |a|
  {
    if a == [] {
      assert a + b == b;
    } else {
      assert (a + b)[1..] == a[1..] + b;
      MetJoin(if a[0].OfTemplate? && a[0].key !in keys then keys + [a[0].key] else keys, a[1..], b);
    }
  }

  lemma NotedJoin(notes: Notes, a: seq<Site>, b: seq<Site>)
    ensures Noted(notes, a + b) == Noted(Noted(notes, a), b)
  {
    MetJoin(notes.keys, a, b);
  }

  lemma NotedNone(notes: Notes)
    ensures Noted(notes, []) == notes
  {
  }

  lemma SeenOfAt(notes: Notes, es: seq<Expr>, i: nat)
    requires i < |es|
    ensures Noted(notes, SeenOf(es[i..])) == Noted(Noted(notes, SeenIn(es[i])), SeenOf(es[i + 1..]))
  {
    hide Noted;
    assert es[i..][0] == es[i] && es[i..][1..] == es[i + 1..];
    NotedJoin(notes, SeenIn(es[i]), SeenOf(es[i + 1..]));
  }

  lemma SeenCallsAt(notes: Notes, b: seq<Stmt>, i: nat)
    requires i < |b|
    ensures Noted(notes, SeenCalls(b[i..])) == Noted(Noted(notes, SeenAt(b[i])), SeenCalls(b[i + 1..]))
  {
    hide Noted;
    assert b[i..][0] == b[i] && b[i..][1..] == b[i + 1..];
    NotedJoin(notes, SeenAt(b[i]), SeenCalls(b[i + 1..]));
  }

  lemma {:induction false} InsertAscends(n: nat, names: seq<nat>)
    requires Ascending(names)
    ensures Ascending(Insert(n, names))
  {
    if names != [] && n > names[0] {
      var rest := Insert(n, names[1..]);
      InsertAscends(n, names[1..]);
      forall k | 0 <= k < |rest| ensures names[0] < rest[k] {
        InsertHas(n, names[1..], rest[k]);
        assert rest[k] in rest;
      }
    }
  }

  lemma {:induction false} NamesAscend(sites: seq<Site>)
    ensures Ascending(Names(sites))
  {
    if sites != [] {
      NamesAscend(sites[1..]);
      if sites[0].Direct? {
        InsertAscends(sites[0].name, Names(sites[1..]));
      }
    }
  }

  lemma HasFirst(names: seq<nat>)
    requires names != []
    ensures exists k :: k in names
  {
    assert names[0] in names;
  }

  lemma {:induction false} AscendingUnique(a: seq<nat>, b: seq<nat>)
    requires Ascending(a) && Ascending(b) && forall k :: k in a <==> k in b
    ensures a == b
  {
    if a != [] {
      HasFirst(a);
    }
    if b != [] {
      HasFirst(b);
    }
    if a != [] && b != [] {
      assert a[0] in b && b[0] in a;
      assert a[0] == b[0];
      assert a == [a[0]] + a[1..] && b == [b[0]] + b[1..];
      assert a[0] !in a[1..] && b[0] !in b[1..];
      forall k ensures k in a[1..] <==> k in b[1..] {
        assert k in a <==> k == a[0] || k in a[1..];
        assert k in b <==> k == b[0] || k in b[1..];
      }
      AscendingUnique(a[1..], b[1..]);
    }
  }

  /** `evt1DirectCallTargets` and `evt1DirectTemplateInstances`: what both have met so far. */
  class CallCollector {
    var names: set<nat>
    var keys: seq<nat>

    ghost function SoFar(): Notes
      reads this
    {
      Notes(names, keys)
    }

    constructor ()
      ensures SoFar() == Notes({}, [])
    {
      names, keys := {}, [];
    }

    method Add(s: Site)
      modifies this
      ensures SoFar() == Noted(old(SoFar()), [s])
    {
      if s.Direct? {
        names := names + {s.name};
      } else if s.key !in keys {
        keys := keys + [s.key];
      }
      assert DirectNames([s]) == (if s.Direct? then {s.name} else {}) by {
        assert s in [s];
      }
      assert [s][1..] == [] && Met(old(keys), [s]) == Met(keys, []);
    }

    method VisitExpr(e: Expr)
      modifies this
      ensures SoFar() == Noted(old(SoFar()), SeenIn(e))
      decreases e
    {
      hide Noted;
      NotedNone(SoFar());
      match e
      case Leaf =>
      case CallTo(name, args) =>
        Add(Direct(name));
        VisitExprs(args);
        NotedJoin(old(SoFar()), [Direct(name)], SeenOf(args));
      case MemberCall(_, _, args) => VisitExprs(args);
      case TemplateCall(key, args) =>
        Add(OfTemplate(key));
        VisitExprs(args);
        NotedJoin(old(SoFar()), [OfTemplate(key)], SeenOf(args));
      case Walked(parts) => VisitExprs(parts);
      case Passed(_) =>
    }

    method VisitExprs(es: seq<Expr>)
      modifies this
      ensures SoFar() == Noted(old(SoFar()), SeenOf(es))
      decreases es
    {
      hide Noted;
      for i := 0 to |es|
        invariant Noted(old(SoFar()), SeenOf(es)) == Noted(SoFar(), SeenOf(es[i..]))
      {
        SeenOfAt(SoFar(), es, i);
        VisitExpr(es[i]);
      }
      NotedNone(SoFar());
    }

    method VisitStmt(s: Stmt)
      modifies this
      ensures SoFar() == Noted(old(SoFar()), SeenAt(s))
      decreases s
    {
      hide Noted;
      NotedNone(SoFar());
      match s
      case Evaluate(e) => VisitExpr(e);
      case Assign(_, value) => VisitExpr(value);
      case If(cond, thn, els) =>
        VisitExpr(cond);
        VisitBlock(thn);
        VisitBlock(els);
        NotedJoin(old(SoFar()), SeenIn(cond), SeenCalls(thn));
        NotedJoin(old(SoFar()), SeenIn(cond) + SeenCalls(thn), SeenCalls(els));
      case While(cond, body, els) =>
        VisitExpr(cond);
        VisitBlock(body);
        VisitBlock(els);
        NotedJoin(old(SoFar()), SeenIn(cond), SeenCalls(body));
        NotedJoin(old(SoFar()), SeenIn(cond) + SeenCalls(body), SeenCalls(els));
      case Block(b) => VisitBlock(b);
      case Other(_, _) =>
    }

    method VisitBlock(b: seq<Stmt>)
      modifies this
      ensures SoFar() == Noted(old(SoFar()), SeenCalls(b))
      decreases b
    {
      hide Noted;
      for i := 0 to |b|
        invariant Noted(old(SoFar()), SeenCalls(b)) == Noted(SoFar(), SeenCalls(b[i..]))
      {
        SeenCallsAt(SoFar(), b, i);
        VisitStmt(b[i]);
      }
      NotedNone(SoFar());
    }

    /** The names sorted, whatever order the map gives them in. */
    method SortedNames() returns (sorted: seq<nat>)
      ensures Ascending(sorted) && forall k :: k in sorted <==> k in names
    {
      sorted := [];
      var rest := names;
      while rest != {}
        invariant rest <= names && Ascending(sorted) && forall k :: k in sorted <==> k in names - rest
        decreases |rest|
      {
        var n :| n in rest;
        InsertAscends(n, sorted);
        forall k: nat ensures k in Insert(n, sorted) <==> k == n || k in sorted {
          InsertHas(n, sorted, k);
        }
        sorted := Insert(n, sorted);
        rest := rest - {n};
      }
    }
  }

  /** The items the search of a body looks at. */
  method CollectItems(t: Tables, body: seq<Stmt>) returns (items: seq<Item>)
    ensures items == ItemsOf(t, SeenCalls(body))
  {
    var c := new CallCollector();
    c.VisitBlock(body);
    var names := c.SortedNames();
    forall k: nat ensures k in names <==> k in Names(SeenCalls(body)) {
      NamesHas(SeenCalls(body), k);
    }
    NamesAscend(SeenCalls(body));
    AscendingUnique(names, Names(SeenCalls(body)));
    items := CallItems(t, names) + InstanceItems(t, c.keys);
  }

  // ---------------------------------------------------------------------------------------------
  // Programs

  datatype Unit = Known(effect: Effect) | Foreign | Compiled(body: seq<Stmt>)

  datatype Program = Program(units: seq<Unit>, tables: Tables)

  function OpOf(p: Program, u: Unit, complete: bool): Op {
    match u
    case Known(effect) => Summary(effect)
    case Foreign => External
    case Compiled(body) => Body(ItemsOf(p.tables, if complete then AllCalls(body) else SeenCalls(body)))
  }

  /** The operations with the calls collected from them, or with all their calls. */
  function GraphOf(p: Program, complete: bool): (g: Graph)
    ensures |g| == |p.units|
    ensures forall f :: 0 <= f < |g| ==> g[f] == OpOf(p, p.units[f], complete)
  {
    seq(|p.units|, f requires 0 <= f < |p.units| => OpOf(p, p.units[f], complete))
  }

  function Collected(p: Program): Graph { GraphOf(p, false) }

  function Complete(p: Program): Graph { GraphOf(p, true) }

  /** The same operations, with at least the same items. */
  ghost predicate Extends(g: Graph, r: Graph) {
    |g| == |r| && forall f :: 0 <= f < |g| ==> OpExtends(g[f], r[f])
  }

  predicate OpExtends(a: Op, b: Op) {
    if a.Body? then b.Body? && forall item :: item in a.items ==> item in b.items else a == b
  }

  lemma CompleteExtends(p: Program)
    ensures Extends(Collected(p), Complete(p))
  {
    hide ItemsOf;
    forall f | 0 <= f < |p.units| ensures OpExtends(Collected(p)[f], Complete(p)[f]) {
      if p.units[f].Compiled? {
        var b := p.units[f].body;
        CallsSplit(b);
        forall item | item in ItemsOf(p.tables, SeenCalls(b)) ensures item in ItemsOf(p.tables, AllCalls(b)) {
          ItemsOfHas(p.tables, SeenCalls(b), item);
          ItemsOfHas(p.tables, AllCalls(b), item);
          var s :| s in SeenCalls(b) && Resolves(p.tables, s, item);
          assert s in multiset(AllCalls(b));
        }
      }
    }
  }

  // ---------------------------------------------------------------------------------------------
  // Calls that are missing from a graph

  lemma {:induction false} SuccessorsHas(items: seq<Item>, t: nat)
    ensures t in SuccessorsOf(items) <==> exists item :: item in items && t in TargetsOf(item)
  {
    if items != [] {
      SuccessorsHas(items[1..], t);
      assert items == [items[0]] + items[1..];
      assert SuccessorsOf(items) == TargetsOf(items[0]) + SuccessorsOf(items[1..]);
    }
  }

  lemma MoreSuccessors(g: Graph, r: Graph, f: nat, t: nat)
    requires Extends(g, r) && t in Successors(g, f)
    ensures t in Successors(r, f)
  {
    assert OpExtends(g[f], r[f]);
    SuccessorsHas(g[f].items, t);
    SuccessorsHas(r[f].items, t);
  }

  lemma PathInMore(g: Graph, r: Graph, path: seq<nat>)
    requires Extends(g, r) && IsPath(g, path)
    ensures IsPath(r, path)
  {
    hide Extends, Successors;
    forall i | 0 < i < |path| ensures path[i] in Successors(r, path[i - 1]) {
      MoreSuccessors(g, r, path[i - 1], path[i]);
    }
  }

  /** What is clean with all calls is clean with fewer. */
  lemma CleanInLess(g: Graph, r: Graph, f: nat, visiting: set<nat>)
    requires Extends(g, r) && Clean(r, f, visiting)
    ensures Clean(g, f, visiting)
  {
    hide IsPath;
    forall path | IsPath(g, path) && path != [] && path[0] == f
      ensures NodeOk(g, path[|path| - 1]) && NoRepeat(path)
              && !(g[path[|path| - 1]].Body? && path[|path| - 1] in visiting)
    {
      PathInMore(g, r, path);
      var last := path[|path| - 1];
      assert NodeOk(r, last) && OpExtends(g[last], r[last]);
    }
    NoEmptyPath(g);
  }

  lemma NoEmptyPath(g: Graph)
    ensures !IsPath(g, [])
  {
  }

  function Members(path: seq<nat>): set<nat> {
    set f | f in path
  }

  /** A call that `r` has and `g` lacks is resolved, and what it leads to is clean with all calls. */
  ghost predicate Harmless(r: Graph, item: Item, visiting: set<nat>) {
    && item != Unresolved && item != Contract
    && forall t :: t in TargetsOf(item) ==> Clean(r, t, visiting)
  }

  /** The calls missing from the last body of a path are harmless. */
  ghost predicate HarmlessAfter(g: Graph, r: Graph, path: seq<nat>, visiting: set<nat>)
    requires path != [] && Extends(g, r)
  {
    var last := path[|path| - 1];
    last < |g| && g[last].Body? ==>
      forall item :: item in r[last].items && item !in g[last].items ==> Harmless(r, item, visiting + Members(path))
  }

  ghost predicate MissingAreHarmless(g: Graph, r: Graph, f: nat, visiting: set<nat>)
    requires Extends(g, r)
  {
    forall path :: path != [] && IsPath(g, path) && path[0] == f ==> HarmlessAfter(g, r, path, visiting)
  }

  lemma {:induction false} CleanAlong(r: Graph, path: seq<nat>, visiting: set<nat>)
    requires IsPath(r, path) && Clean(r, path[0], visiting)
    ensures Clean(r, path[|path| - 1], visiting + Members(path[..|path| - 1]))
    decreases |path|
  {
    hide Clean, Successors;
    if |path| == 1 {
      assert visiting + Members(path[..0]) == visiting;
    } else {
      PathTail(r, path);
      CleanSuccessor(r, path[0], visiting, path[1]);
      CleanAlong(r, path[1..], visiting + {path[0]});
      assert path[..|path| - 1] == [path[0]] + path[1..][..|path| - 2];
      assert visiting + {path[0]} + Members(path[1..][..|path| - 2]) == visiting + Members(path[..|path| - 1]);
    }
  }

  lemma MissingFromClean(g: Graph, r: Graph, f: nat, visiting: set<nat>)
    requires Extends(g, r) && Clean(r, f, visiting)
    ensures MissingAreHarmless(g, r, f, visiting)
  {
    hide Clean, IsPath, Extends;
    forall path | path != [] && IsPath(g, path) && path[0] == f ensures HarmlessAfter(g, r, path, visiting) {
      var last := path[|path| - 1];
      PathInMore(g, r, path);
      CleanAlong(r, path, visiting);
      var before := visiting + Members(path[..|path| - 1]);
      ItselfIsPath(r, last, before);
      assert path == path[..|path| - 1] + [last];
      assert before + {last} == visiting + Members(path);
      if last < |g| && g[last].Body? {
        SameBodies(g, r, last);
        forall item | item in r[last].items ensures Harmless(r, item, visiting + Members(path)) {
          forall t | t in TargetsOf(item) ensures Clean(r, t, visiting + Members(path)) {
            SuccessorsHas(r[last].items, t);
            CleanSuccessor(r, last, before, t);
          }
        }
      }
    }
  }

  lemma SameBodies(g: Graph, r: Graph, f: nat)
    requires Extends(g, r) && f < |g|
    ensures f < |r| && OpExtends(g[f], r[f])
  {
  }

  lemma MissingOnward(g: Graph, r: Graph, f: nat, visiting: set<nat>, t: nat)
    requires Extends(g, r) && MissingAreHarmless(g, r, f, visiting) && t in Successors(g, f)
    ensures MissingAreHarmless(g, r, t, visiting + {f})
  {
    hide Clean, IsPath, Extends, Harmless, Successors;
    forall path | path != [] && IsPath(g, path) && path[0] == t ensures HarmlessAfter(g, r, path, visiting + {f}) {
      PathOnto(g, f, path);
      var longer := [f] + path;
      assert longer[|longer| - 1] == path[|path| - 1] && longer[0] == f;
      assert HarmlessAfter(g, r, longer, visiting);
      assert visiting + Members(longer) == visiting + {f} + Members(path);
    }
  }

  lemma {:induction false} CleanWithMissing(g: Graph, r: Graph, f: nat, visiting: set<nat>)
    requires Extends(g, r) && Clean(g, f, visiting) && MissingAreHarmless(g, r, f, visiting)
    ensures Clean(r, f, visiting)
    decreases Rest(g, visiting)
  {
    hide Clean, MissingAreHarmless, Extends;
    ItselfIsPath(g, f, visiting);
    SameBodies(g, r, f);
    if g[f].Body? {
      assert f in Rest(g, visiting) && f !in Rest(g, visiting + {f});
      MissingHere(g, r, f, visiting);
      forall t | t in Successors(r, f) ensures Clean(r, t, visiting + {f}) {
        SuccessorsHas(r[f].items, t);
        var item :| item in r[f].items && t in TargetsOf(item);
        if item in g[f].items {
          SuccessorsHas(g[f].items, t);
          CleanSuccessor(g, f, visiting, t);
          MissingOnward(g, r, f, visiting, t);
          CleanWithMissing(g, r, t, visiting + {f});
        } else {
          assert Harmless(r, item, visiting + {f});
        }
      }
      assert NodeOk(r, f) by {
        forall item | item in r[f].items ensures item != Unresolved && item != Contract {
          if item !in g[f].items {
            assert Harmless(r, item, visiting + {f});
          }
        }
      }
    }
    CleanBody(r, f, visiting);
  }

  lemma MissingHere(g: Graph, r: Graph, f: nat, visiting: set<nat>)
    requires Extends(g, r) && MissingAreHarmless(g, r, f, visiting) && f < |g| && g[f].Body? && f < |r| && r[f].Body?
    ensures forall item :: item in r[f].items && item !in g[f].items ==> Harmless(r, item, visiting + {f})
  {
    hide Harmless, Extends;
    assert IsPath(g, [f]) && [f][0] == f;
    assert HarmlessAfter(g, r, [f], visiting);
    assert Members([f]) == {f};
  }

  // ---------------------------------------------------------------------------------------------
  // Proofs about all calls

  /** The compiler's outcome for an operation. */
  function Verdict(p: Program, f: nat): Outcome {
    Search(Collected(p), f, {})
  }

  /** A call stands in the body, whatever form it is under. */
  predicate CallsAt(p: Program, f: nat, s: Site) {
    f < |p.units| && p.units[f].Compiled? && s in AllCalls(p.units[f].body)
  }

  /** A call of the name in the body of `f` has candidate `t`. */
  predicate CallsByName(p: Program, f: nat, name: nat, t: nat) {
    && CallsAt(p, f, Direct(name)) && name in p.tables.calls
    && !p.tables.calls[name].atomic && t in p.tables.calls[name].candidates
  }

  /** A template call in the body of `f` is of the instance generated as `t`. */
  predicate CallsInstance(p: Program, f: nat, key: nat, t: nat) {
    CallsAt(p, f, OfTemplate(key)) && key in p.tables.instances && p.tables.instances[key] == Generated(t)
  }

  ghost predicate CanCall(p: Program, f: nat, t: nat) {
    (exists name :: CallsByName(p, f, name, t)) || exists key :: CallsInstance(p, f, key, t)
  }

  /** An operation known to allocate nothing, or a body that calls no missing name and no allocating template. */
  ghost predicate Acceptable(p: Program, f: nat) {
    && f < |p.units|
    && match p.units[f]
       case Known(effect) => effect == Effect.NoAllocation
       case Foreign => false
       case Compiled(_) =>
         && (forall name :: CallsAt(p, f, Direct(name)) ==> !Missing(p.tables, name))
         && forall key :: CallsAt(p, f, OfTemplate(key)) && key in p.tables.instances ==>
              p.tables.instances[key] != MayAllocate
  }

  ghost predicate CallPath(p: Program, path: seq<nat>) {
    path != [] && forall i :: 0 < i < |path| ==> CanCall(p, path[i - 1], path[i])
  }

  /** Every path of calls from `f` meets acceptable operations only and is not cyclic. */
  ghost predicate NeverAllocates(p: Program, f: nat) {
    forall path :: CallPath(p, path) && path[0] == f ==> Acceptable(p, path[|path| - 1]) && NoRepeat(path)
  }

  lemma CanCallIff(p: Program, f: nat, t: nat)
    ensures CanCall(p, f, t) <==> t in Successors(Complete(p), f)
  {
    hide ItemsOf, Missing;
    if f < |p.units| && p.units[f].Compiled? {
      var sites := AllCalls(p.units[f].body);
      var items := ItemsOf(p.tables, sites);
      SuccessorsHas(items, t);
      if item :| item in items && t in TargetsOf(item) {
        ItemsOfHas(p.tables, sites, item);
        var s :| s in sites && Resolves(p.tables, s, item);
        assert if s.Direct? then CallsByName(p, f, s.name, t) else CallsInstance(p, f, s.key, t);
      }
      if name :| CallsByName(p, f, name, t) {
        var item := Call(p.tables.calls[name].candidates);
        ItemsOfHas(p.tables, sites, item);
        assert Resolves(p.tables, Direct(name), item) && t in TargetsOf(item);
      }
      if key :| CallsInstance(p, f, key, t) {
        ItemsOfHas(p.tables, sites, Instance(t));
        assert Resolves(p.tables, OfTemplate(key), Instance(t)) && t in TargetsOf(Instance(t));
      }
    }
  }

  lemma AcceptableIff(p: Program, f: nat)
    ensures Acceptable(p, f) <==> NodeOk(Complete(p), f)
  {
    hide ItemsOf, Missing;
    if f < |p.units| && p.units[f].Compiled? {
      var sites := AllCalls(p.units[f].body);
      ItemsOfHas(p.tables, sites, Unresolved);
      ItemsOfHas(p.tables, sites, Contract);
      forall name | CallsAt(p, f, Direct(name)) && Missing(p.tables, name)
        ensures Unresolved in ItemsOf(p.tables, sites)
      {
        assert Resolves(p.tables, Direct(name), Unresolved);
      }
      forall key | CallsAt(p, f, OfTemplate(key)) && key in p.tables.instances && p.tables.instances[key] == MayAllocate
        ensures Contract in ItemsOf(p.tables, sites)
      {
        assert Resolves(p.tables, OfTemplate(key), Contract);
      }
    }
  }

  /** With all calls in the graph, clean means just that. */
  lemma NeverAllocatesIsClean(p: Program, f: nat)
    ensures NeverAllocates(p, f) <==> Clean(Complete(p), f, {})
  {
    hide Acceptable, CanCall, Successors;
    var r := Complete(p);
    forall path: seq<nat> ensures CallPath(p, path) <==> IsPath(r, path) {
      forall i | 0 < i < |path| ensures CanCall(p, path[i - 1], path[i]) <==> path[i] in Successors(r, path[i - 1]) {
        CanCallIff(p, path[i - 1], path[i]);
      }
    }
    forall g: nat ensures Acceptable(p, g) <==> NodeOk(r, g) {
      AcceptableIff(p, g);
    }
    if Clean(r, f, {}) {
      forall path | CallPath(p, path) && path[0] == f ensures Acceptable(p, path[|path| - 1]) && NoRepeat(path) {
        assert IsPath(r, path);
      }
    }
    if NeverAllocates(p, f) {
      forall path | IsPath(r, path) && path[0] == f
        ensures NodeOk(r, path[|path| - 1]) && NoRepeat(path)
                && !(r[path[|path| - 1]].Body? && path[|path| - 1] in {})
      {
        assert CallPath(p, path) && Acceptable(p, path[|path| - 1]);
      }
    }
  }

  /** The calls that the collection misses are resolved and lead to operations that never allocate. */
  ghost predicate HiddenAreHarmless(p: Program, f: nat) {
    CompleteExtends(p);
    MissingAreHarmless(Collected(p), Complete(p), f, {})
  }

  /** An operation never allocates exactly when it is proven and the calls missed on the way are harmless. */
  lemma NeverAllocatesIff(p: Program, f: nat)
    ensures NeverAllocates(p, f) <==> Verdict(p, f) == Proven && HiddenAreHarmless(p, f)
  {
    hide Clean, Search, MissingAreHarmless, Extends, NeverAllocates;
    var g, r := Collected(p), Complete(p);
    NeverAllocatesIsClean(p, f);
    CompleteExtends(p);
    SearchIsExact(g, f, {});
    if Clean(r, f, {}) {
      CleanInLess(g, r, f, {});
      MissingFromClean(g, r, f, {});
    }
    if Clean(g, f, {}) && MissingAreHarmless(g, r, f, {}) {
      CleanWithMissing(g, r, f, {});
    }
  }

  /** No body that collected calls lead to has a call below a form that is passed over. */
  ghost predicate NothingHidden(p: Program, f: nat) {
    forall path :: path != [] && IsPath(Collected(p), path) && path[0] == f ==> HidesNothing(p, path[|path| - 1])
  }

  predicate HidesNothing(p: Program, f: nat) {
    f < |p.units| && p.units[f].Compiled? ==> HiddenCalls(p.units[f].body) == []
  }

  /** Where no call is hidden, the verdict is about all calls. */
  lemma ProvenIsReal(p: Program, f: nat)
    requires NothingHidden(p, f)
    ensures Verdict(p, f) == Proven <==> NeverAllocates(p, f)
  {
    hide Clean, Search, IsPath, Extends, NeverAllocates;
    var g, r := Collected(p), Complete(p);
    CompleteExtends(p);
    forall path | path != [] && IsPath(g, path) && path[0] == f ensures HarmlessAfter(g, r, path, {}) {
      var last := path[|path| - 1];
      if last < |g| && g[last].Body? {
        assert HidesNothing(p, last);
        CallsSplit(p.units[last].body);
        assert g[last] == r[last];
      }
    }
    NeverAllocatesIff(p, f);
  }

  /** A refutation has a path of calls to an allocating contract, found among the collected ones. */
  lemma DisprovenIsRealCall(p: Program, f: nat)
    requires Verdict(p, f) == Disproven
    ensures ReachesAllocation(Complete(p), f)
  {
    hide Search, Extends, Successors;
    var g, r := Collected(p), Complete(p);
    CompleteExtends(p);
    DisprovenIsReal(g, f, {});
    var path :| IsPath(g, path) && path[0] == f && Allocating(g, path[|path| - 1]);
    PathInMore(g, r, path);
    SameBodies(g, r, path[|path| - 1]);
  }

  /** A body that calls a missing name, reached through collected calls, keeps the operation from being proven. */
  lemma MissingIsNotProven(p: Program, f: nat, path: seq<nat>, name: nat)
    requires IsPath(Collected(p), path) && path[0] == f && path[|path| - 1] < |p.units|
    requires var u := p.units[path[|path| - 1]];
             u.Compiled? && Direct(name) in SeenCalls(u.body) && name !in p.tables.calls
    ensures Verdict(p, f) != Proven
  {
    hide Search, ItemsOf, Successors;
    var g, last := Collected(p), path[|path| - 1];
    SearchIsExact(g, f, {});
    ItemsOfHas(p.tables, SeenCalls(p.units[last].body), Unresolved);
    assert Resolves(p.tables, Direct(name), Unresolved);
    assert !NodeOk(g, last);
  }

  /**
   Calls come first and templates after them: a missing call does not hide an allocating template met last.
   */
  lemma AllocatingTemplateLast(p: Program, f: nat)
    requires f < |p.units| && p.units[f].Compiled?
    requires var keys := Keys(SeenCalls(p.units[f].body));
             keys != [] && keys[|keys| - 1] in p.tables.instances
             && p.tables.instances[keys[|keys| - 1]] == MayAllocate
    ensures Verdict(p, f) == Disproven
  {
    hide Search, Names, Keys;
    var g, sites := Collected(p), SeenCalls(p.units[f].body);
    var items := ItemsOf(p.tables, sites);
    InstanceItemsLast(p.tables, Keys(sites));
    assert items[|items| - 1] == Contract;
    SearchBody(g, f, {});
    LastContractRefutes(g, items, {} + {f}, Proven);
  }

  lemma {:induction false} InstanceItemsLast(t: Tables, keys: seq<nat>)
    requires keys != [] && keys[|keys| - 1] in t.instances && t.instances[keys[|keys| - 1]] == MayAllocate
    ensures InstanceItems(t, keys) != []
    ensures InstanceItems(t, keys)[|InstanceItems(t, keys)| - 1] == Contract
  {
    if |keys| > 1 {
      assert keys[1..][|keys| - 2] == keys[|keys| - 1];
      InstanceItemsLast(t, keys[1..]);
    }
  }

  lemma {:induction false} LastContractRefutes(g: Graph, items: seq<Item>, visiting: set<nat>, so: Outcome)
    requires items != [] && items[|items| - 1] == Contract
    ensures Items(g, items, visiting, so) == Disproven
    decreases |items|
  {
    hide Search, Targets;
    ItemsFirst(g, items, visiting, so);
    var next := AfterItem(g, items[0], visiting, so);
    if |items| > 1 {
      assert items[1..][|items| - 2] == items[|items| - 1];
      LastContractRefutes(g, items[1..], visiting, next);
    } else {
      assert items[1..] == [] && next == Disproven;
    }
  }

  /** A call that is missing is no proof: `void F() { Missing(); }` is unknown. */
  lemma MissingCallExample()
    ensures var p := Program([Compiled([Evaluate(CallTo(0, []))])], Tables(map[], map[]));
            Verdict(p, 0) != Proven && !NeverAllocates(p, 0)
  {
    var body := [Evaluate(CallTo(0, []))];
    var p := Program([Compiled(body)], Tables(map[], map[]));
    assert body[1..] == [] && SeenCalls(body) == [Direct(0)] && AllCalls(body) == [Direct(0)];
    assert Direct(0) in SeenCalls(body);
    assert IsPath(Collected(p), [0]) && [0][0] == 0;
    MissingIsNotProven(p, 0, [0], 0);
    assert CallPath(p, [0]) && CallsAt(p, 0, Direct(0)) && !Acceptable(p, 0);
  }

  /** `void F() { foreach (...) { Allocate(); } }` is proven, though it calls an allocating contract. */
  lemma HiddenCallExample()
    ensures var body := [Other([], [Arm([Evaluate(CallTo(0, []))])])];
            var p := Program([Compiled(body), Known(Allocates)], Tables(map[0 := Callee(false, false, [1])], map[]));
            Verdict(p, 0) == Proven && ReachesAllocation(Complete(p), 0)
  {
    var inner := [Evaluate(CallTo(0, []))];
    var arms := [Arm(inner)];
    var body := [Other([], arms)];
    var p := Program([Compiled(body), Known(Allocates)], Tables(map[0 := Callee(false, false, [1])], map[]));
    var g, r := Collected(p), Complete(p);
    assert body[1..] == [] && inner[1..] == [] && arms[1..] == [];
    assert SeenCalls(body) == [] && AllCalls(inner) == [Direct(0)] && AllArms(arms) == [Direct(0)];
    assert AllCalls(body) == [Direct(0)] by {
      assert AllAt(body[0]) == AllOf([]) + AllArms(arms);
    }
    assert g[0] == Body([]);
    SearchBody(g, 0, {});
    ItemsOfHas(p.tables, [Direct(0)], Call([1]));
    assert Direct(0) in [Direct(0)] && Resolves(p.tables, Direct(0), Call([1]));
    OneCallReaches(r, Call([1]));
  }

  lemma OneCallReaches(r: Graph, item: Item)
    requires |r| == 2 && r[0].Body? && item in r[0].items && 1 in TargetsOf(item) && r[1] == Summary(Allocates)
    ensures ReachesAllocation(r, 0)
  {
    SuccessorsHas(r[0].items, 1);
    assert IsPath(r, [0, 1]) && Allocating(r, [0, 1][1]);
  }
}
