/**
 The state graph of an async function.  A node is named by its position in `created`; the builder
 only appends nodes and fills in the fields of nodes it appended itself.
 */
module AsyncGraph {
  import opened Wrappers
  import opened AsyncSyntax

  datatype Case = Case(tag: string, binds: seq<string>, target: nat)

  datatype Node =
    | Complete
    | BasicBlock(stmts: seq<Stmt>, next: nat)
    | AwaitSuspend(stmts: seq<Stmt>, await: Expr, next: nat)
    | AfterAwait(index: nat, resume: Stmt, next: nat)
    | Branch(stmts: seq<Stmt>, cond: Expr, onTrue: nat, onFalse: nat)
    | Join(ofMatch: bool, next: nat)
    | MatchDispatch(stmts: seq<Stmt>, subject: Expr, cases: seq<Case>)
    | LoopInit(stmts: seq<Stmt>, next: nat)
    | LoopHeader(cond: Expr, bound: Option<int>, onTrue: nat, onFalse: nat, exhausted: Option<nat>)
    | LoopBackedge(next: nat)
    | ForeachInit(stmts: seq<Stmt>, src: Source, next: nat)
    | ForeachHeader(item: string, src: Source, body: nat, exit: nat)
    | ForeachContinue(next: nat)

  type Nodes = seq<Node>

  /** The statement is given nodes of its own instead of being run inside one. */
  predicate Splits(st: Stmt) {
    match st
    case Decl(_, e) => DirectAwait(e).Some?
    case Assign(_, e) => DirectAwait(e).Some?
    case Do(e) => DirectAwait(e).Some?
    case Return(r) => r.Some? && DirectAwait(r.value).Some?
    case If(_, t, f) => StmtHasAwait(st) || BlockReturns(t) || BlockReturns(f)
    case Match(_, arms) => StmtHasAwait(st) || ArmsReturn(arms)
    case While(_, _, b, h, f) => BlockHasAwait(b) || (h && BlockHasAwait(f))
    case Foreach(_, _, b) => BlockHasAwait(b)
    case _ => false
  }

  function AwaitId(st: Stmt): nat {
    match StmtAwait(st)
    case Some(Await(id, _, _)) => id
    case _ => 0
  }

  /** The builder's result: where control enters, and all nodes created so far. */
  datatype Built = Built(entry: nat, nodes: Nodes)

  /** `compile(statements, next)`, on the nodes created before, none of which it changes. */
  function Compile(b: seq<Stmt>, next: nat, nodes: Nodes): (r: Built)
    ensures nodes <= r.nodes
    decreases b, 2
  {
    if b == [] then Built(next, nodes) else CompileFrom([], b, next, nodes)
  }

  /** The loop of `compile`: `ordinary` collects the statements of the node being formed. */
  function CompileFrom(ordinary: seq<Stmt>, b: seq<Stmt>, next: nat, nodes: Nodes): (r: Built)
    ensures nodes <= r.nodes
    decreases b, 1
  {
    if b == [] then Built(|nodes|, nodes + [BasicBlock(ordinary, next)])
    else if !Splits(b[0]) then CompileFrom(ordinary + [b[0]], b[1..], next, nodes)
    else
      var after := Compile(b[1..], next, nodes);
      CompileSplit(ordinary, b[0], after.entry, after.nodes)
  }

  /** A statement with nodes of its own; control continues at `after`. */
  function CompileSplit(ordinary: seq<Stmt>, st: Stmt, after: nat, nodes: Nodes): (r: Built)
    requires Splits(st)
    ensures nodes <= r.nodes && |nodes| < |r.nodes|
    decreases st, 3
  {
    var n := |nodes|;
    if st.If? then
      var thn := Compile(st.thn, n, nodes + [Join(false, after)]);
      var els := Compile(st.els, n, thn.nodes);
      Built(|els.nodes|, els.nodes + [Branch(ordinary, st.c, thn.entry, els.entry)])
    else if st.Match? then
      var (cases, built) := CompileArms(st.arms, n,
                                        nodes + [Join(true, after), MatchDispatch(ordinary, st.subject, [])]);
      Built(n + 1, built[n + 1 := MatchDispatch(ordinary, st.subject, cases)])
    else if st.While? then
      var exhausted := CompileElse(st, after, WhileStart(ordinary, st, after, nodes));
      var inside := Compile(st.body, n + 2, exhausted.nodes);
      Built(n, inside.nodes[n + 1 := WhileHeader(st, inside.entry, after, exhausted.entry)])
    else if st.Foreach? then
      var inside := Compile(st.body, n + 2, ForeachStart(ordinary, st, after, nodes));
      Built(n, inside.nodes[n + 1 := ForeachHeader(st.item, st.src, inside.entry, after)])
    else
      Built(n + 1, nodes + [AfterAwait(AwaitId(st), ResumeStmt(st), after),
                            AwaitSuspend(ordinary, StmtAwait(st).value, n)])
  }

  /** The three nodes of a loop, before its header is completed. */
  function WhileStart(ordinary: seq<Stmt>, st: Stmt, after: nat, nodes: Nodes): Nodes
    requires st.While?
  {
    var n := |nodes|;
    nodes + [LoopInit(ordinary, n + 1), LoopHeader(st.c, None, 0, after, None), LoopBackedge(n + 1)]
  }

  function WhileHeader(st: Stmt, body: nat, after: nat, exhausted: nat): Node
    requires st.While?
  {
    LoopHeader(st.c, st.bound, body, after, if st.hasElse then Some(exhausted) else None)
  }

  function CompileElse(st: Stmt, after: nat, nodes: Nodes): (r: Built)
    requires st.While?
    ensures nodes <= r.nodes
    decreases st, 0
  {
    if st.hasElse then Compile(st.els, after, nodes) else Built(0, nodes)
  }

  function ForeachStart(ordinary: seq<Stmt>, st: Stmt, after: nat, nodes: Nodes): Nodes
    requires st.Foreach?
  {
    var n := |nodes|;
    nodes + [ForeachInit(ordinary, st.src, n + 1), ForeachHeader(st.item, st.src, 0, after), ForeachContinue(n + 1)]
  }

  function CompileArms(arms: seq<Arm>, join: nat, nodes: Nodes): (r: (seq<Case>, Nodes))
    ensures nodes <= r.1
    decreases arms, 0
  {
    if arms == [] then ([], nodes)
    else
      var first := Compile(arms[0].body, join, nodes);
      var (rest, built) := CompileArms(arms[1..], join, first.nodes);
      ([Case(arms[0].tag, arms[0].binds, first.entry)] + rest, built)
  }

  /** `evt1NormalizeAsyncCFG`: the completion node comes first. */
  function Normalize(body: seq<Stmt>): Built {
    Compile(body, 0, [Complete])
  }
}
