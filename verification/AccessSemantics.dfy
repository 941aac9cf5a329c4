/**
 What running code does to shared storage.  A function may perform the actions of its body in any
 order and any number of times, which includes every path control can take; contexts interleave freely.
 */
module AccessSemantics {
  import opened Wrappers
  import opened AccessModel
  import opened AccessSummary

  // ---------------------------------------------------------------------------------------------
  // Places

  datatype Step = FieldStep(name: string) | IndexStep(index: int)

  /** Part of a shared object, or storage of the running context alone. */
  datatype Place = Shared(obj: nat, path: seq<Step>) | Private

  /** The parameter a name denotes, the last one of that name. */
  function ParamIndex(params: seq<Param>, x: string): (r: Option<nat>)
    ensures r.Some? ==> r.value < |params| && params[r.value].name == x
  {
    if params == [] then None
    else if params[|params| - 1].name == x then Some(|params| - 1)
    else ParamIndex(params[..|params| - 1], x)
  }

  predicate StepFits(index: Expr, s: Step) {
    s.IndexStep? && (Fixed(index) ==> s.index == index.n)
  }

  predicate StepsFit(indices: seq<Expr>, steps: seq<Step>) {
    |indices| == |steps| && forall i :: 0 <= i < |indices| ==> StepFits(indices[i], steps[i])
  }

  predicate Ends(path: seq<Step>, s: Step)
    requires path != []
  {
    path[|path| - 1] == s
  }

  function Without(path: seq<Step>, n: nat): seq<Step>
    requires n <= |path|
  {
    path[..|path| - n]
  }

  /** `e`, evaluated in a frame with these arguments, can denote this place. */
  predicate Denotes(params: seq<Param>, args: seq<Place>, e: Expr, pl: Place)
    requires |args| == |params|
  {
    match e
    case Name(x, _) => pl == (match ParamIndex(params, x) case Some(k) => args[k] case None => Private)
    case FieldOf(r, f, _, _) =>
      if pl.Private? then Denotes(params, args, r, Private)
      else (0 < |pl.path| && Ends(pl.path, FieldStep(f))
            && Denotes(params, args, r, Shared(pl.obj, Without(pl.path, 1))))
    case IndexOf(b, indices, _) =>
      if pl.Private? then Denotes(params, args, b, Private)
      else
        && |indices| <= |pl.path| && StepsFit(indices, pl.path[|pl.path| - |indices|..])
        && Denotes(params, args, b, Shared(pl.obj, Without(pl.path, |indices|)))
    case RefTo(x) => Denotes(params, args, x, pl)
    case Paren(x) => Denotes(params, args, x, pl)
    case _ => pl.Private?
  }

  /** The expression names a parameter or a part of one. */
  predicate Rooted(params: seq<Param>, e: Expr) {
    match e
    case Name(x, _) => ParamIndex(params, x).Some?
    case FieldOf(r, _, _, _) => Rooted(params, r)
    case IndexOf(b, _, _) => Rooted(params, b)
    case RefTo(x) => Rooted(params, x)
    case Paren(x) => Rooted(params, x)
    case _ => false
  }

  /** The parameter it names. */
  function RootOf(params: seq<Param>, e: Expr): (k: nat)
    requires Rooted(params, e)
    ensures k < |params|
  {
    match e
    case Name(x, _) => ParamIndex(params, x).value
    case FieldOf(r, _, _, _) => RootOf(params, r)
    case IndexOf(b, _, _) => RootOf(params, b)
    case RefTo(x) => RootOf(params, x)
    case Paren(x) => RootOf(params, x)
  }

  lemma {:induction false} UnrootedIsPrivate(params: seq<Param>, args: seq<Place>, e: Expr, pl: Place)
    requires |args| == |params| && Denotes(params, args, e, pl) && pl.Shared?
    ensures Rooted(params, e)
    ensures args[RootOf(params, e)].Shared? && args[RootOf(params, e)].obj == pl.obj
    ensures args[RootOf(params, e)].path <= pl.path
  {
    match e
    case FieldOf(r, _, _, _) => UnrootedIsPrivate(params, args, r, Shared(pl.obj, Without(pl.path, 1)));
    case IndexOf(b, indices, _) => UnrootedIsPrivate(params, args, b, Shared(pl.obj, Without(pl.path, |indices|)));
    case RefTo(x) => UnrootedIsPrivate(params, args, x, pl);
    case Paren(x) => UnrootedIsPrivate(params, args, x, pl);
    case _ =>
  }

  // ---------------------------------------------------------------------------------------------
  // Atomic operations on a cell

  datatype AtomicOp = Load | Store | Exchange | CompareExchange | FetchAdd

  /** The operation an intrinsic performs on the cell its first argument names. */
  function OperationOf(callee: string): Option<AtomicOp> {
    match callee
    case "AtomicLoadIntrinsic" => Some(Load)
    case "AtomicStoreIntrinsic" => Some(Store)
    case "AtomicExchangeIntrinsic" => Some(Exchange)
    case "AtomicCompareExchangeIntrinsic" => Some(CompareExchange)
    case "AtomicFetchAddIntrinsic" => Some(FetchAdd)
    case _ => None
  }

  /** Result and new contents of the cell (C11, section 7.17.7); a compare exchange reports success and the contents. */
  datatype Effect = Effect(result: seq<int>, cell: int)

  function Performed(op: AtomicOp, a: int, b: int, cell: int): Effect {
    match op
    case Load => Effect([cell], cell)
    case Store => Effect([], a)
    case Exchange => Effect([cell], a)
    case CompareExchange => Effect([if cell == a then 1 else 0, cell], if cell == a then b else cell)
    case FetchAdd => Effect([cell], cell + a)
  }

  ghost predicate CanChange(op: AtomicOp) {
    exists a: int, b: int, cell: int :: Performed(op, a, b, cell).cell != cell
  }

  ghost predicate ResultDepends(op: AtomicOp) {
    exists a: int, b: int, x: int, y: int :: Performed(op, a, b, x).result != Performed(op, a, b, y).result
  }

  /** What a call does to the cell its first argument names. */
  ghost function AtomicTouches(callee: string, e: Expr): seq<Action> {
    match OperationOf(callee)
    case None => []
    case Some(op) =>
      (if ResultDepends(op) then [Touch(AtomicRead, e)] else [])
      + (if CanChange(op) then [Touch(AtomicWrite, e)] else [])
  }

  /** The kinds that are recorded: reads where the result depends on the cell, writes where the cell can change. */
  lemma AtomicKindsMean(callee: string)
    ensures OperationOf(callee).None? ==> AtomicKinds(callee) == []
    ensures OperationOf(callee).Some? ==>
              && (AtomicWrite in AtomicKinds(callee) <==> CanChange(OperationOf(callee).value))
              && (AtomicRead in AtomicKinds(callee) <==> ResultDepends(OperationOf(callee).value))
    ensures forall e :: Touches(AtomicKinds(callee), e) == AtomicTouches(callee, e)
  {
    assert Performed(Store, 1, 0, 0).cell == 1 && Performed(Exchange, 1, 0, 0).cell == 1;
    assert Performed(CompareExchange, 0, 1, 0).cell == 1 && Performed(FetchAdd, 1, 0, 0).cell == 1;
    assert Performed(Load, 0, 0, 0).result[0] != Performed(Load, 0, 0, 1).result[0];
    assert Performed(Exchange, 0, 0, 0).result[0] != Performed(Exchange, 0, 0, 1).result[0];
    assert Performed(CompareExchange, 0, 0, 0).result[1] != Performed(CompareExchange, 0, 0, 1).result[1];
    assert Performed(FetchAdd, 0, 0, 0).result[0] != Performed(FetchAdd, 0, 0, 1).result[0];
    forall e ensures Touches(AtomicKinds(callee), e) == AtomicTouches(callee, e) {
      TouchesOf(AtomicKinds(callee), e);
    }
  }

  lemma TouchesOf(kinds: seq<AccessKind>, e: Expr)
    ensures |kinds| == 0 ==> Touches(kinds, e) == []
    ensures |kinds| == 1 ==> Touches(kinds, e) == [Touch(kinds[0], e)]
    ensures |kinds| == 2 ==> Touches(kinds, e) == [Touch(kinds[0], e), Touch(kinds[1], e)]
  {
    if |kinds| == 2 {
      assert kinds[1..] == [kinds[1]] && kinds[1..][1..] == [];
    }
  }

  // ---------------------------------------------------------------------------------------------
  // Actions

  datatype Action = Touch(kind: AccessKind, e: Expr) | Invoke(callee: string, args: seq<Expr>)

  function Touches(kinds: seq<AccessKind>, e: Expr): seq<Action> {
    if kinds == [] then [] else [Touch(kinds[0], e)] + Touches(kinds[1..], e)
  }

  /** Everything evaluating `e` for its value does. */
  ghost function Actions(e: Expr): seq<Action>
    decreases e, 1
  {
    match e
    case Name(_, _) => [Touch(Read, e)]
    case FieldOf(_, _, _, _) => [Touch(Read, e)] + Addressing(e)
    case IndexOf(_, _, _) => [Touch(Read, e)] + Addressing(e)
    case RefTo(x) => Addressing(x)
    case Paren(x) => Actions(x)
    case CallTo(callee, args, _) =>
      ActionsOf(args) + (if args == [] then [] else AtomicTouches(callee, args[0])) + [Invoke(callee, args)]
    case Compound(es) => ActionsOf(es)
    case Skipped(es) => ActionsOf(es)
    case Lit(_) => []
  }

  ghost function ActionsOf(es: seq<Expr>): seq<Action>
    decreases es, 2
  {
    if es == [] then [] else Actions(es[0]) + ActionsOf(es[1..])
  }

  /** What computing the address of `e` does: every index is evaluated, at any depth. */
  ghost function Addressing(e: Expr): seq<Action>
    decreases e, 0
  {
    match e
    case Name(_, _) => []
    case FieldOf(r, _, _, _) => Addressing(r)
    case IndexOf(b, indices, _) => Addressing(b) + ActionsOf(indices)
    case RefTo(x) => Addressing(x)
    case Paren(x) => Addressing(x)
    case CallTo(callee, args, _) =>
      ActionsOf(args) + (if args == [] then [] else AtomicTouches(callee, args[0])) + [Invoke(callee, args)]
    case Compound(es) => ActionsOf(es)
    case Skipped(es) => ActionsOf(es)
    case Lit(_) => []
  }

  ghost function StmtActions(st: Stmt): seq<Action> {
    match st
    case Decl(_, _, e) => Actions(e)
    case Assign(target, e, _) => Actions(e) + [Touch(Write, target)] + Addressing(target)
    case Do(e) => Actions(e)
    case If(c, t, f) => Actions(c) + BlockActions(t) + BlockActions(f)
    case While(c, b) => Actions(c) + BlockActions(b)
    case Block(b) => BlockActions(b)
  }

  ghost function BlockActions(b: seq<Stmt>): seq<Action> {
    if b == [] then [] else StmtActions(b[0]) + BlockActions(b[1..])
  }

  // ---------------------------------------------------------------------------------------------
  // Interleaved contexts

  /** A running function and the places its parameters stand for. */
  datatype Frame = Frame(fn: nat, args: seq<Place>)

  datatype Event = Event(context: string, kind: AccessKind, obj: nat, path: seq<Step>)

  /** The access stores a value (C11, section 3.1). */
  predicate Modifies(k: AccessKind) {
    match k
    case Write => true
    case AtomicWrite => true
    case _ => false
  }

  /** The access is part of an atomic operation. */
  predicate Indivisible(k: AccessKind) {
    match k
    case AtomicRead => true
    case AtomicWrite => true
    case _ => false
  }

  /** The call stacks of all contexts, outermost frame first, and the shared accesses so far. */
  datatype World = World(stacks: map<string, seq<Frame>>, history: seq<Event>)

  datatype Move =
    | Start(context: string, fn: nat, args: seq<Place>)
    | Perform(context: string, kind: AccessKind, e: Expr, pl: Place)
    | Enter(context: string, callee: string, exprs: seq<Expr>, fn: nat, args: seq<Place>)
    | Leave(context: string)

  function StackOf(w: World, c: string): seq<Frame> {
    if c in w.stacks then w.stacks[c] else []
  }

  predicate FrameOk(p: Program, f: Frame) {
    f.fn < |p.fns| && |f.args| == |p.fns[f.fn].params|
  }

  /** A context starts in a function declared for it, on whole objects of the parameters' types. */
  predicate WholeObjects(objects: seq<Ty>, params: seq<Param>, args: seq<Place>) {
    && |args| == |params|
    && forall k :: 0 <= k < |args| && args[k].Shared? ==>
                     args[k].path == [] && args[k].obj < |objects| && objects[args[k].obj] == params[k].ty
  }

  ghost predicate Enabled(p: Program, objects: seq<Ty>, w: World, m: Move) {
    var stack := StackOf(w, m.context);
    match m
    case Start(c, fn, args) =>
      stack == [] && fn < |p.fns| && p.fns[fn].context == Some(c) && WholeObjects(objects, p.fns[fn].params, args)
    case Perform(c, kind, e, pl) =>
      && stack != [] && FrameOk(p, stack[|stack| - 1])
      && var top := stack[|stack| - 1];
         Touch(kind, e) in BlockActions(p.fns[top.fn].body) && Denotes(p.fns[top.fn].params, top.args, e, pl)
    case Enter(c, callee, exprs, fn, args) =>
      && stack != [] && FrameOk(p, stack[|stack| - 1]) && |args| == |exprs|
      && var top := stack[|stack| - 1];
         && Invoke(callee, exprs) in BlockActions(p.fns[top.fn].body)
         && fn < |p.fns| && p.fns[fn].name == callee && |p.fns[fn].params| == |exprs|
         && forall k :: 0 <= k < |exprs| ==> Denotes(p.fns[top.fn].params, top.args, exprs[k], args[k])
    case Leave(c) => stack != []
  }

  function Next(w: World, m: Move): World {
    var stack := StackOf(w, m.context);
    match m
    case Start(c, fn, args) => w.(stacks := w.stacks[c := [Frame(fn, args)]])
    case Perform(c, kind, _, pl) =>
      if pl.Shared? then w.(history := w.history + [Event(c, kind, pl.obj, pl.path)]) else w
    case Enter(c, _, _, fn, args) => w.(stacks := w.stacks[c := stack + [Frame(fn, args)]])
    case Leave(c) => w.(stacks := w.stacks[c := if stack == [] then [] else stack[..|stack| - 1]])
  }

  /** The world after these moves, from one in which nothing has run. */
  function Play(moves: seq<Move>): World {
    if moves == [] then World(map[], []) else Next(Play(moves[..|moves| - 1]), moves[|moves| - 1])
  }

  /** A run: each move is possible when it is made. */
  ghost predicate Legal(p: Program, objects: seq<Ty>, moves: seq<Move>) {
    moves != [] ==> Legal(p, objects, moves[..|moves| - 1])
                    && Enabled(p, objects, Play(moves[..|moves| - 1]), moves[|moves| - 1])
  }
}
