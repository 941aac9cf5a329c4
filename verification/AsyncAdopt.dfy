/**
 Adoption: awaiting an operation that was started earlier moves its frames onto the awaiting stack.
 The adopted frames then run in step with the operation on its own, above the parent's frames, until one of
 them reads through an address into the storage it was moved out of.
 */
module AsyncAdopt {
  import opened Wrappers
  import opened AsyncSyntax
  import opened AsyncDirect
  import opened AsyncGraph
  import opened AsyncMachine
  import opened AsyncEmit
  import opened AsyncFrame
  import opened AsyncAccepted
  import opened AsyncNormalize
  import opened AsyncEndToEnd

  // ---------------------------------------------------------------------------------------------
  // Only a suspension leads to a continuation

  /** The targets are nodes, and only a suspension targets the node that reads the awaited result. */
  ghost predicate Leads(g: Nodes, n: Node) {
    forall t :: t in Targets(n) ==> t < |g| && (n.AwaitSuspend? || !g[t].AfterAwait?)
  }

  ghost predicate Orderly(g: Nodes, lo: nat) {
    forall i :: lo <= i < |g| ==> Leads(g, g[i])
  }

  ghost predicate OrderlyBut(g: Nodes, lo: nat, at: nat) {
    forall i :: lo <= i < |g| && i != at ==> Leads(g, g[i])
  }

  predicate Plain(g: Nodes, n: nat) {
    n < |g| && !g[n].AfterAwait?
  }

  lemma OrderlyTogether(g: Nodes, mid: nat, lo: nat)
    requires lo <= mid <= |g| && Orderly(g[..mid], lo) && Orderly(g, mid)
    ensures Orderly(g, lo)
  {
    hide Targets;
    forall i | lo <= i < |g| ensures Leads(g, g[i]) {
      if i < mid {
        assert Leads(g[..mid], g[..mid][i]);
      }
    }
  }

  lemma OrderlyPush(g: Nodes, lo: nat, n: Node)
    requires lo <= |g| && Orderly(g, lo) && Leads(g, n)
    ensures Orderly(g + [n], lo)
  {
    hide Targets;
    var longer := g + [n];
    forall i | lo <= i < |longer| ensures Leads(longer, longer[i]) {
      if i < |g| {
        assert Leads(g, g[i]);
      }
    }
  }

  /** A header is filled in after the nodes it leads to. */
  lemma OrderlyUpdate(g: Nodes, lo: nat, at: nat, n: Node)
    requires lo <= at < |g| && !g[at].AfterAwait? && !n.AfterAwait? && OrderlyBut(g, lo, at) && Leads(g, n)
    ensures Orderly(g[at := n], lo)
  {
    hide Targets;
    var filled := g[at := n];
    forall i | lo <= i < |filled| ensures Leads(filled, filled[i]) {
      if i != at {
        assert Leads(g, g[i]);
      }
    }
  }

  lemma PlainStays(g: Nodes, longer: Nodes, n: nat)
    requires g <= longer && Plain(g, n)
    ensures Plain(longer, n)
  {
  }

  lemma OrderlyNone(nodes: Nodes)
    ensures Orderly(nodes, |nodes|)
  {
  }

  lemma {:induction false} OrderlyBlock(b: seq<Stmt>, next: nat, nodes: Nodes)
    requires Plain(nodes, next)
    ensures var r := Compile(b, next, nodes); Orderly(r.nodes, |nodes|) && Plain(r.nodes, r.entry)
    decreases b, 2
  {
    if b != [] {
      OrderlyFrom([], b, next, nodes);
    }
  }

  lemma {:induction false} OrderlyFrom(ordinary: seq<Stmt>, b: seq<Stmt>, next: nat, nodes: Nodes)
    requires Plain(nodes, next)
    ensures var r := CompileFrom(ordinary, b, next, nodes); Orderly(r.nodes, |nodes|) && Plain(r.nodes, r.entry)
    decreases b, 1
  {
    hide Compile, CompileSplit, Orderly;
    if b == [] {
      OrderlyNone(nodes);
      OrderlyPush(nodes, |nodes|, BasicBlock(ordinary, next));
    } else if !Splits(b[0]) {
      OrderlyFrom(ordinary + [b[0]], b[1..], next, nodes);
    } else {
      var after := Compile(b[1..], next, nodes);
      OrderlyBlock(b[1..], next, nodes);
      OrderlySplit(ordinary, b[0], after.entry, after.nodes);
      var built := CompileSplit(ordinary, b[0], after.entry, after.nodes);
      assert built.nodes[..|after.nodes|] == after.nodes;
      OrderlyTogether(built.nodes, |after.nodes|, |nodes|);
    }
  }

  lemma {:induction false} OrderlySplit(ordinary: seq<Stmt>, st: Stmt, after: nat, nodes: Nodes)
    requires Splits(st) && Plain(nodes, after)
    ensures var r := CompileSplit(ordinary, st, after, nodes); Orderly(r.nodes, |nodes|) && Plain(r.nodes, r.entry)
    decreases st, 3
  {
    hide Orderly, OrderlyBut, Compile, CompileArms;
    if st.If? {
      OrderlyIf(ordinary, st, after, nodes);
    } else if st.Match? {
      OrderlyMatch(ordinary, st, after, nodes);
    } else if st.While? {
      OrderlyWhile(ordinary, st, after, nodes);
    } else if st.Foreach? {
      OrderlyForeach(ordinary, st, after, nodes);
    } else {
      var resume := AfterAwait(AwaitId(st), ResumeStmt(st), after);
      OrderlyNone(nodes);
      OrderlyPush(nodes, |nodes|, resume);
      var suspend := AwaitSuspend(ordinary, StmtAwait(st).value, |nodes|);
      OrderlyPush(nodes + [resume], |nodes|, suspend);
      assert nodes + [resume] + [suspend] == nodes + [resume, suspend];
    }
  }

  lemma {:induction false} OrderlyIf(ordinary: seq<Stmt>, st: Stmt, after: nat, nodes: Nodes)
    requires Splits(st) && Plain(nodes, after) && st.If?
    ensures var r := CompileSplit(ordinary, st, after, nodes); Orderly(r.nodes, |nodes|) && Plain(r.nodes, r.entry)
    decreases st, 2
  {
    hide Orderly, OrderlyBut, Compile;
    var n := |nodes|;
    var joined := nodes + [Join(false, after)];
    var thn := Compile(st.thn, n, joined);
    var els := Compile(st.els, n, thn.nodes);
    OrderlyNone(nodes);
    OrderlyPush(nodes, n, Join(false, after));
    OrderlyBlock(st.thn, n, joined);
    assert thn.nodes[..n + 1] == joined;
    OrderlyTogether(thn.nodes, n + 1, n);
    PlainStays(joined, thn.nodes, n);
    OrderlyBlock(st.els, n, thn.nodes);
    assert els.nodes[..|thn.nodes|] == thn.nodes;
    OrderlyTogether(els.nodes, |thn.nodes|, n);
    PlainStays(thn.nodes, els.nodes, thn.entry);
    OrderlyPush(els.nodes, n, Branch(ordinary, st.c, thn.entry, els.entry));
  }

  lemma {:induction false} OrderlyMatch(ordinary: seq<Stmt>, st: Stmt, after: nat, nodes: Nodes)
    requires Splits(st) && Plain(nodes, after) && st.Match?
    ensures var r := CompileSplit(ordinary, st, after, nodes); Orderly(r.nodes, |nodes|) && Plain(r.nodes, r.entry)
    decreases st, 2
  {
    hide CompileArms, Orderly, OrderlyBut;
    var n := |nodes|;
    var started := nodes + [Join(true, after), MatchDispatch(ordinary, st.subject, [])];
    var (cases, inside) := CompileArms(st.arms, n, started);
    MatchStarts(ordinary, st.subject, after, nodes);
    OrderlyArms(st.arms, n, started);
    assert inside[..n + 2] == started;
    OrderlyTogether(inside, n + 2, n);
    OrderlyElsewhere(inside, n, n + 1);
    assert inside[n + 1] == started[n + 1];
    CasesLead(inside, MatchDispatch(ordinary, st.subject, cases));
    OrderlyUpdate(inside, n, n + 1, MatchDispatch(ordinary, st.subject, cases));
  }

  lemma MatchStarts(ordinary: seq<Stmt>, subject: Expr, after: nat, nodes: Nodes)
    requires Plain(nodes, after)
    ensures var started := nodes + [Join(true, after), MatchDispatch(ordinary, subject, [])];
            Orderly(started, |nodes|) && Plain(started, |nodes|)
  {
    hide Orderly;
    var joined := nodes + [Join(true, after)];
    OrderlyNone(nodes);
    OrderlyPush(nodes, |nodes|, Join(true, after));
    OrderlyPush(joined, |nodes|, MatchDispatch(ordinary, subject, []));
    assert joined + [MatchDispatch(ordinary, subject, [])] ==
           nodes + [Join(true, after), MatchDispatch(ordinary, subject, [])];
  }

  lemma CasesLead(g: Nodes, n: Node)
    requires n.MatchDispatch? && forall k :: 0 <= k < |n.cases| ==> Plain(g, n.cases[k].target)
    ensures Leads(g, n)
  {
    forall t | t in Targets(n) ensures Plain(g, t) {
      var k :| 0 <= k < |n.cases| && n.cases[k].target == t;
    }
  }

  lemma OrderlyElsewhere(g: Nodes, lo: nat, at: nat)
    requires Orderly(g, lo)
    ensures OrderlyBut(g, lo, at)
  {
  }

  lemma {:induction false} OrderlyArms(arms: seq<Arm>, join: nat, nodes: Nodes)
    requires Plain(nodes, join)
    ensures var (cases, built) := CompileArms(arms, join, nodes);
            Orderly(built, |nodes|) && forall k :: 0 <= k < |cases| ==> Plain(built, cases[k].target)
    decreases arms, 0
  {
    hide Compile, Orderly, OrderlyBut;
    if arms == [] {
      OrderlyNone(nodes);
    } else {
      var first := Compile(arms[0].body, join, nodes);
      var (rest, built) := CompileArms(arms[1..], join, first.nodes);
      OrderlyBlock(arms[0].body, join, nodes);
      PlainStays(nodes, first.nodes, join);
      OrderlyArms(arms[1..], join, first.nodes);
      assert built[..|first.nodes|] == first.nodes;
      OrderlyTogether(built, |first.nodes|, |nodes|);
      PlainStays(first.nodes, built, first.entry);
    }
  }

  /** The first and last of the three nodes that open a loop lead to the middle one. */
  lemma OrderlyLoop(g: Nodes, n: nat, started: Nodes)
    requires started <= g && |started| == n + 3 && Orderly(g, n + 3)
    requires forall i :: n <= i < n + 3 ==> !started[i].AfterAwait?
    requires Targets(started[n]) == [n + 1] && Targets(started[n + 2]) == [n + 1]
    ensures !g[n + 1].AfterAwait? && OrderlyBut(g, n, n + 1)
  {
    hide Targets;
    assert g[n] == started[n] && g[n + 1] == started[n + 1] && g[n + 2] == started[n + 2];
    forall i | n <= i < |g| && i != n + 1 ensures Leads(g, g[i]) {
      if i < n + 3 {
        assert i == n || i == n + 2;
      }
    }
  }

  lemma {:induction false} OrderlyWhile(ordinary: seq<Stmt>, st: Stmt, after: nat, nodes: Nodes)
    requires Splits(st) && Plain(nodes, after) && st.While?
    ensures var r := CompileSplit(ordinary, st, after, nodes); Orderly(r.nodes, |nodes|) && Plain(r.nodes, r.entry)
    decreases st, 2
  {
    hide Compile, Orderly, OrderlyBut;
    var n := |nodes|;
    var started := WhileStart(ordinary, st, after, nodes);
    var exhausted := CompileElse(st, after, started);
    var inside := Compile(st.body, n + 2, exhausted.nodes);
    PlainStays(nodes, started, after);
    if st.hasElse {
      OrderlyBlock(st.els, after, started);
      PlainStays(exhausted.nodes, inside.nodes, exhausted.entry);
    } else {
      OrderlyNone(started);
    }
    PlainStays(started, exhausted.nodes, n + 2);
    OrderlyBlock(st.body, n + 2, exhausted.nodes);
    assert inside.nodes[..|exhausted.nodes|] == exhausted.nodes;
    OrderlyTogether(inside.nodes, |exhausted.nodes|, n + 3);
    PlainStays(started, inside.nodes, after);
    OrderlyLoop(inside.nodes, n, started);
    OrderlyUpdate(inside.nodes, n, n + 1, WhileHeader(st, inside.entry, after, exhausted.entry));
  }

  lemma {:induction false} OrderlyForeach(ordinary: seq<Stmt>, st: Stmt, after: nat, nodes: Nodes)
    requires Splits(st) && Plain(nodes, after) && st.Foreach?
    ensures var r := CompileSplit(ordinary, st, after, nodes); Orderly(r.nodes, |nodes|) && Plain(r.nodes, r.entry)
    decreases st, 2
  {
    hide Compile, Orderly, OrderlyBut;
    var n := |nodes|;
    var started := ForeachStart(ordinary, st, after, nodes);
    var inside := Compile(st.body, n + 2, started);
    PlainStays(nodes, started, after);
    OrderlyBlock(st.body, n + 2, started);
    PlainStays(started, inside.nodes, after);
    OrderlyLoop(inside.nodes, n, started);
    OrderlyUpdate(inside.nodes, n, n + 1, ForeachHeader(st.item, st.src, inside.entry, after));
  }

  /** Code in which an awaited result is read only after a suspension. */
  ghost predicate Disciplined(code: Code) {
    forall f :: f in code ==> Orderly(code[f].nodes, 0) && Plain(code[f].nodes, code[f].entry)
  }

  lemma CreatedIsOrderly(body: seq<Stmt>)
    ensures var b := Normalize(body); Orderly(b.nodes, 0) && Plain(b.nodes, b.entry)
  {
    OrderlyBlock(body, 0, [Complete]);
    var g := Normalize(body).nodes;
    assert g[..1] == [Complete];
    OrderlyTogether(g, 1, 0);
  }

  lemma EmittedLeads(g: Nodes, order: seq<nat>, i: nat, t: nat)
    requires GoodOrder(g, order) && Orderly(g, 0) && (forall i :: 0 <= i < |order| ==> order[i] < |g|)
    requires i < |order| && t in Targets(EmitNodes(g, order)[i])
    ensures var e := EmitNodes(g, order); t < |e| && (e[i].AwaitSuspend? || !e[t].AfterAwait?)
  {
    hide EmitNode, Targets;
    var e, n := EmitNodes(g, order), order[i];
    EmittedTargets(g[n], order);
    var k :| 0 <= k < |Targets(e[i])| && Targets(e[i])[k] == t;
    var m := Targets(g[n])[k];
    assert m in Targets(g[n]) && n in order && Leads(g, g[n]);
    PlaceFinds(order, m);
    KeepsKind(g[n], order);
    KeepsKind(g[m], order);
  }

  lemma EmittedIsOrderly(p: Program, f: string)
    requires f in p.fns
    ensures var u := EmitUnit(Normalize(p.fns[f].body), All); Orderly(u.nodes, 0) && Plain(u.nodes, u.entry)
  {
    hide Normalize, Order, EmitNode, Targets;
    var b := Normalize(p.fns[f].body);
    var g, order := b.nodes, Order(b);
    CreatedIsOrderly(p.fns[f].body);
    OrderIsGood(p, f);
    OrderInRange(b);
    var e := EmitNodes(g, order);
    forall i | 0 <= i < |e| ensures Leads(e, e[i]) {
      forall t | t in Targets(e[i]) ensures t < |e| && (e[i].AwaitSuspend? || !e[t].AfterAwait?) {
        EmittedLeads(g, order, i, t);
      }
    }
    PlaceFinds(order, b.entry);
    KeepsKind(g[b.entry], order);
  }

  lemma KeepsKind(n: Node, order: seq<nat>)
    ensures EmitNode(n, order).AfterAwait? == n.AfterAwait? && EmitNode(n, order).AwaitSuspend? == n.AwaitSuspend?
  {
  }

  lemma GeneratedIsDisciplined(p: Program)
    ensures Disciplined(Generated(p))
  {
    hide Orderly, Plain, Fields, EmitUnit;
    forall f | f in Generated(p) ensures Orderly(Generated(p)[f].nodes, 0)
      && Plain(Generated(p)[f].nodes, Generated(p)[f].entry) {
      EmittedIsOrderly(p, f);
    }
  }

  // ---------------------------------------------------------------------------------------------
  // Moved frames

  /** Moving copies the bytes, so an address into the frame's storage keeps naming the old place. */
  function MovedSlot(s: Slot): Slot {
    if s.Iterate? && s.c.NameAt? then Iterate(LostAt(s.c.variable, s.c.index)) else s
  }

  function Moved(f: Frame): Frame {
    f.(slots := map n | n in f.slots :: MovedSlot(f.slots[n]))
  }

  function AllMoved(fs: seq<Frame>): (r: seq<Frame>)
    ensures |r| == |fs| && forall i :: 0 <= i < |fs| ==> r[i] == Moved(fs[i])
  {
    seq(|fs|, i requires 0 <= i < |fs| => Moved(fs[i]))
  }

  /** `g` is `f`, except that it may still hold addresses from before a move. */
  predicate Copies(f: Frame, g: Frame) {
    && g == f.(slots := g.slots) && g.slots.Keys == f.slots.Keys
    && forall n :: n in f.slots ==> g.slots[n] == f.slots[n] || g.slots[n] == MovedSlot(f.slots[n])
  }

  predicate AllCopy(fs: seq<Frame>, gs: seq<Frame>) {
    |gs| == |fs| && forall i :: 0 <= i < |fs| ==> Copies(fs[i], gs[i])
  }

  lemma MovedAreCopies(fs: seq<Frame>)
    ensures AllCopy(fs, AllMoved(fs))
  {
  }

  /** The frame's next state reads an element through a lost address. */
  predicate ReadsLost(env: Env, f: Frame) {
    && f.fn in env.code && f.fn in env.p.fns && f.node < |env.code[f.fn].nodes|
    && env.code[f.fn].nodes[f.node].ForeachHeader?
    && f.node in f.slots && f.slots[f.node].Iterate? && Dangles(f.slots[f.node].c, f.locals)
  }

  /** The copy reads through an address from before the move, where the frame itself reads its own storage. */
  predicate Strands(env: Env, f: Frame, g: Frame) {
    ReadsLost(env, g) && !ReadsLost(env, f)
  }

  predicate ActionsCopy(a: Action, b: Action) {
    match a
    case Goto(f) => b.Goto? && Copies(f, b.f)
    case Push(f, child) => b.Push? && Copies(f, b.f) && child == b.child
    case Leave(f) => b.Leave? && Copies(f, b.f)
    case _ => a == b
  }

  lemma CopyItself(f: Frame)
    ensures Copies(f, f)
  {
  }

  lemma CopySlot(f: Frame, g: Frame, n: nat, s: Slot)
    requires Copies(f, g)
    ensures Copies(f.(slots := f.slots[n := s]), g.(slots := g.slots[n := s]))
  {
  }

  lemma CopyNext(f: Frame, g: Frame, n: nat)
    requires Copies(f, g) && n in f.slots && f.slots[n].Iterate?
    ensures g.slots[n].Iterate?
    ensures Copies(f.(slots := f.slots[n := Iterate(CursorNext(f.slots[n].c))]),
                   g.(slots := g.slots[n := Iterate(CursorNext(g.slots[n].c))]))
  {
  }

  lemma CopyPlace(f: Frame, g: Frame, node: nat, locals: Store)
    requires Copies(f, g)
    ensures Copies(f.(node := node, locals := locals), g.(node := node, locals := locals))
  {
  }

  lemma CopyCount(f: Frame, g: Frame, header: nat)
    requires Copies(f, g)
    ensures CountAt(f.slots, header) == CountAt(g.slots, header)
  {
  }

  lemma CopyFields(f: Frame, g: Frame)
    requires Copies(f, g)
    ensures g.fn == f.fn && g.node == f.node && g.locals == f.locals
    ensures forall n :: n in f.slots <==> n in g.slots
    ensures forall n :: n in f.slots ==> (f.slots[n].Iterate? <==> g.slots[n].Iterate?)
  {
    forall n ensures n in f.slots <==> n in g.slots {
      assert n in f.slots.Keys <==> n in g.slots.Keys;
    }
  }

  lemma {:induction false} SelectCopies(cases: seq<Case>, tag: string, payload: seq<Value>, f: Frame, g: Frame)
    requires Copies(f, g)
    ensures ActionsCopy(Select(cases, tag, payload, f), Select(cases, tag, payload, g))
  {
    hide Copies;
    CopyFields(f, g);
    if cases != [] && cases[0].tag == tag {
      if |cases[0].binds| == |payload| {
        CopyPlace(f, g, cases[0].target, f.locals + Bind(cases[0].binds, payload));
      }
    } else if cases != [] {
      SelectCopies(cases[1..], tag, payload, f, g);
    }
  }

  lemma DispatchCopies(env: Env, nodes: Nodes, f: Frame, g: Frame, outcome: Value)
    requires Copies(f, g) && f.fn in env.p.fns && f.node < |nodes| && !nodes[f.node].ForeachHeader?
    ensures g.fn in env.p.fns && g.node < |nodes|
    ensures ActionsCopy(Dispatch(env, nodes, f, outcome), Dispatch(env, nodes, g, outcome))
  {
    hide Pure, PureAll, RunResumed, OpenCursor, CursorNext, Copies, Bounded, CountAt, Select, ActionsCopy;
    CopyFields(f, g);
    var n := nodes[f.node];
    if n.ForeachInit? || n.ForeachContinue? {
      EachCopies(env, nodes, f, g, outcome);
    } else if n.LoopInit? || n.LoopBackedge? {
      LoopCopies(env, nodes, f, g, outcome);
    } else {
      JumpCopies(env, nodes, f, g, outcome);
    }
  }

  lemma EachCopies(env: Env, nodes: Nodes, f: Frame, g: Frame, outcome: Value)
    requires Copies(f, g) && f.fn in env.p.fns && g.fn in env.p.fns && f.node < |nodes| && g.node < |nodes|
    requires nodes[f.node].ForeachInit? || nodes[f.node].ForeachContinue?
    ensures ActionsCopy(Dispatch(env, nodes, f, outcome), Dispatch(env, nodes, g, outcome))
  {
    hide Pure, OpenCursor, CursorNext, Copies;
    CopyFields(f, g);
    var n := nodes[f.node];
    CopyPlace(f, g, n.next, f.locals);
    var f1, g1 := f.(node := n.next), g.(node := n.next);
    if n.ForeachInit? {
      if OpenCursor(n.src, f.locals).Some? {
        CopySlot(f1, g1, n.next, Iterate(OpenCursor(n.src, f.locals).value));
      }
    } else if n.next in f.slots && f.slots[n.next].Iterate? {
      CopyNext(f1, g1, n.next);
    }
  }

  lemma LoopCopies(env: Env, nodes: Nodes, f: Frame, g: Frame, outcome: Value)
    requires Copies(f, g) && f.fn in env.p.fns && g.fn in env.p.fns && f.node < |nodes| && g.node < |nodes|
    requires nodes[f.node].LoopInit? || nodes[f.node].LoopBackedge?
    ensures ActionsCopy(Dispatch(env, nodes, f, outcome), Dispatch(env, nodes, g, outcome))
  {
    hide Copies, Bounded, CountAt;
    CopyFields(f, g);
    var n := nodes[f.node];
    CopyPlace(f, g, n.next, f.locals);
    CopyCount(f, g, n.next);
    var f1, g1 := f.(node := n.next), g.(node := n.next);
    CopySlot(f1, g1, n.next, Count(0));
    CopySlot(f1, g1, n.next, Count(CountAt(f.slots, n.next) + 1));
  }

  /** States that change no iteration state, other than by storing an awaited result. */
  lemma JumpCopies(env: Env, nodes: Nodes, f: Frame, g: Frame, outcome: Value)
    requires Copies(f, g) && f.fn in env.p.fns && g.fn in env.p.fns && f.node < |nodes| && g.node < |nodes|
    requires var n := nodes[f.node];
             !n.ForeachHeader? && !n.ForeachInit? && !n.ForeachContinue? && !n.LoopInit? && !n.LoopBackedge?
    ensures ActionsCopy(Dispatch(env, nodes, f, outcome), Dispatch(env, nodes, g, outcome))
  {
    hide Pure, PureAll, RunResumed, Copies, CountAt, Select, Started;
    CopyFields(f, g);
    var at := f.node;
    CopyCount(f, g, at);
    forall node, locals ensures Copies(f.(node := node, locals := locals), g.(node := node, locals := locals)) {
      CopyPlace(f, g, node, locals);
    }
    match nodes[at]
    case AfterAwait(_, resume, next) =>
      var r := RunResumed(resume, f.locals, outcome);
      if r.Ran? {
        CopySlot(f.(node := next, locals := r.s), g.(node := next, locals := r.s), at, Awaited(outcome));
      }
    case MatchDispatch(_, subject, cases) =>
      match Pure(subject, f.locals) {
        case Some(Variant(tag, payload)) => SelectCopies(cases, tag, payload, f, g);
        case _ =>
      }
    case AwaitSuspend(_, call, next) => CopyPlace(f, g, next, f.locals);
    case _ =>
  }

  /** The header of a `foreach`: alike unless the copy is stranded. */
  lemma HeaderCopies(env: Env, nodes: Nodes, f: Frame, g: Frame, outcome: Value)
    requires Copies(f, g) && f.fn in env.p.fns && g.fn in env.p.fns && f.node < |nodes| && g.node < |nodes|
    requires nodes[f.node].ForeachHeader?
    ensures var at := f.node;
            var lost := at in g.slots && g.slots[at].Iterate? && Dangles(g.slots[at].c, g.locals);
            if lost then
              && Dispatch(env, nodes, g, outcome) == Abort
              && if at in f.slots && f.slots[at].Iterate? && Dangles(f.slots[at].c, f.locals)
                 then Dispatch(env, nodes, f, outcome) == Abort
                 else Dispatch(env, nodes, f, outcome).Goto?
            else ActionsCopy(Dispatch(env, nodes, f, outcome), Dispatch(env, nodes, g, outcome))
  {
    var at := f.node;
    CopyFields(f, g);
    forall node, locals ensures Copies(f.(node := node, locals := locals), g.(node := node, locals := locals)) {
      CopyPlace(f, g, node, locals);
    }
    hide Copies;
    if at in f.slots && f.slots[at].Iterate? {
      CursorCopies(f, g, at);
    }
  }

  lemma CursorCopies(f: Frame, g: Frame, at: nat)
    requires Copies(f, g) && at in f.slots && f.slots[at].Iterate?
    ensures at in g.slots && g.slots[at].Iterate?
    ensures var a, b := f.slots[at].c, g.slots[at].c;
            && (Dangles(b, g.locals) ==> Dangles(a, f.locals) || CursorItem(a, f.locals).Some?)
            && (!Dangles(b, g.locals) ==> !Dangles(a, f.locals) && CursorItem(b, g.locals) == CursorItem(a, f.locals))
  {
  }

  lemma KeptCopies(keep: Keep, a: Action, b: Action)
    requires ActionsCopy(a, b)
    ensures ActionsCopy(Kept(keep, a), Kept(keep, b))
  {
    hide Trim, Copies;
    if a.Goto? || a.Push? || a.Leave? {
      CopyFields(a.f, b.f);
      CopyPlace(a.f, b.f, a.f.node, Trim(keep, a.f.locals));
    }
  }

  /** A state of a frame and of its copy: alike unless the copy is stranded, which ends it. */
  lemma StepCopies(env: Env, f: Frame, g: Frame, outcome: Value)
    requires Copies(f, g)
    ensures !Strands(env, f, g) ==> ActionsCopy(StepFrame(env, f, outcome), StepFrame(env, g, outcome))
    ensures Strands(env, f, g) ==> StepFrame(env, g, outcome) == Abort && StepFrame(env, f, outcome).Goto?
  {
    hide Copies, Dispatch, RunOrdinary, Dangles, Interrupted;
    CopyFields(f, g);
    if f.fn in env.code && f.fn in env.p.fns && f.node < |env.code[f.fn].nodes| {
      var unit := env.code[f.fn];
      var r := RunOrdinary(env.p, Statements(unit.nodes[f.node]), f.locals, env.fuel);
      if unit.nodes[f.node].ForeachHeader? {
        NoStatements(env, f);
      }
      if r.Ran? {
        CopyPlace(f, g, f.node, r.s);
        if unit.nodes[f.node].ForeachHeader? {
          HeaderCopies(env, unit.nodes, f, g, outcome);
          if !Strands(env, f, g) {
            KeptCopies(unit.keep, Dispatch(env, unit.nodes, f, outcome), Dispatch(env, unit.nodes, g, outcome));
          }
        } else {
          var f1, g1 := f.(locals := r.s), g.(locals := r.s);
          DispatchCopies(env, unit.nodes, f1, g1, outcome);
          KeptCopies(unit.keep, Dispatch(env, unit.nodes, f1, outcome), Dispatch(env, unit.nodes, g1, outcome));
        }
      } else {
        InterruptedCopies(r, f, g);
        KeptCopies(unit.keep, Interrupted(r, f), Interrupted(r, g));
      }
    }
  }

  lemma NoStatements(env: Env, f: Frame)
    requires f.fn in env.code && f.node < |env.code[f.fn].nodes| && env.code[f.fn].nodes[f.node].ForeachHeader?
    ensures RunOrdinary(env.p, Statements(env.code[f.fn].nodes[f.node]), f.locals, env.fuel) == Ran(f.locals)
  {
  }

  lemma InterruptedCopies(r: NativeOut, f: Frame, g: Frame)
    requires Copies(f, g) && !r.Ran?
    ensures ActionsCopy(Interrupted(r, f), Interrupted(r, g))
  {
    if r.RawReturn? {
      CopyPlace(f, g, f.node, r.s);
    }
  }

  // ---------------------------------------------------------------------------------------------
  // Adopted frames run in step

  /** The frame's next state reads the result delivered last. */
  predicate Waiting(code: Code, f: Frame) {
    f.fn in code && f.node < |code[f.fn].nodes| && code[f.fn].nodes[f.node].AfterAwait?
  }

  /**
   Copies of the operation's frames, and either both stacks hold the same result or the top frame does not
   read it.
   */
  predicate Related(env: Env, fs: seq<Frame>, gs: seq<Frame>, outcome: Value, adopted: Value) {
    fs != [] && AllCopy(fs, gs) && (outcome == adopted || !Waiting(env.code, fs[|fs| - 1]))
  }

  /** A result that is not read does not matter. */
  lemma OutcomeUnread(env: Env, f: Frame, a: Value, b: Value)
    requires a == b || !Waiting(env.code, f)
    ensures StepFrame(env, f, a) == StepFrame(env, f, b)
  {
  }

  predicate StaysUnread(env: Env, a: Action) {
    match a
    case Goto(f) => !Waiting(env.code, f)
    case Leave(f) => !Waiting(env.code, f)
    case Push(_, child) => !Waiting(env.code, child)
    case _ => true
  }

  lemma {:induction false} SelectTarget(cases: seq<Case>, tag: string, payload: seq<Value>, f: Frame)
    ensures var a := Select(cases, tag, payload, f);
            a.Abort? || (a.Goto? && a.f.fn == f.fn && a.f.node in CaseTargets(cases))
  {
    if cases != [] && cases[0].tag != tag {
      SelectTarget(cases[1..], tag, payload, f);
    }
  }

  lemma DispatchTarget(env: Env, nodes: Nodes, f: Frame, outcome: Value)
    requires f.fn in env.p.fns && f.node < |nodes| && !nodes[f.node].AwaitSuspend?
    ensures var a := Dispatch(env, nodes, f, outcome);
            && !a.Push? && (a.Goto? ==> a.f.fn == f.fn && a.f.node in Targets(nodes[f.node]))
            && (a.Leave? ==> a.f.fn == f.fn && a.f.node == f.node)
  {
    if nodes[f.node].MatchDispatch? {
      var s := Pure(nodes[f.node].subject, f.locals);
      if s.Some? && s.value.Variant? {
        SelectTarget(nodes[f.node].cases, s.value.name, s.value.payload, f);
      }
    }
  }

  lemma StepKeepsUnread(env: Env, f: Frame, outcome: Value)
    requires Disciplined(env.code) && !Waiting(env.code, f)
    ensures StaysUnread(env, StepFrame(env, f, outcome))
  {
    hide Dispatch, RunOrdinary, Targets, Statements;
    if f.fn in env.code && f.fn in env.p.fns && f.node < |env.code[f.fn].nodes| {
      var unit := env.code[f.fn];
      var r := RunOrdinary(env.p, Statements(unit.nodes[f.node]), f.locals, env.fuel);
      assert Orderly(unit.nodes, 0);
      if r.Ran? {
        var at := f.(locals := r.s);
        if unit.nodes[f.node].AwaitSuspend? {
          SuspendedUnread(env, at, outcome);
        } else {
          DispatchTarget(env, unit.nodes, at, outcome);
        }
      }
    }
  }

  /** A pushed frame starts at its entry, which reads no result. */
  lemma SuspendedUnread(env: Env, f: Frame, outcome: Value)
    requires Disciplined(env.code) && f.fn in env.code && f.fn in env.p.fns && f.node < |env.code[f.fn].nodes|
    requires env.code[f.fn].nodes[f.node].AwaitSuspend?
    ensures var a := Dispatch(env, env.code[f.fn].nodes, f, outcome);
            a.Abort? || (a.Push? && !Waiting(env.code, a.child))
  {
    hide Orderly;
  }

  /** The stack holds copies of the operation's frames above `base`. */
  predicate OnTop(base: seq<Frame>, fs: seq<Frame>, m: Machine) {
    && m.Running? && |m.frames| == |base| + |fs|
    && m.frames[..|base|] == base && AllCopy(fs, m.frames[|base|..])
  }

  /** The stack above `base` is that of the operation alone. */
  predicate InStep(env: Env, base: seq<Frame>, alone: Machine, above: Machine) {
    match alone
    case Running(fs, o) =>
      && OnTop(base, fs, above) && fs != []
      && (o == above.outcome || !Waiting(env.code, fs[|fs| - 1]))
    case Completed(v) => above == Running(base, v)
    case Aborted => above == Aborted
    case Stalled => above == Stalled
  }

  lemma InStepRelates(env: Env, base: seq<Frame>, fs: seq<Frame>, outcome: Value, m: Machine) returns (gs: seq<Frame>)
    requires InStep(env, base, Running(fs, outcome), m)
    ensures m == Running(base + gs, m.outcome) && Related(env, fs, gs, outcome, m.outcome)
  {
    gs := m.frames[|base|..];
    assert m.frames == m.frames[..|base|] + gs;
  }

  lemma OnTopOf(base: seq<Frame>, fs: seq<Frame>, gs: seq<Frame>, outcome: Value)
    requires AllCopy(fs, gs)
    ensures OnTop(base, fs, Running(base + gs, outcome))
  {
    assert (base + gs)[..|base|] == base && (base + gs)[|base|..] == gs;
  }

  /** The action of the top frame and of its copy, performed on both stacks. */
  lemma PerformedInStep(env: Env, base: seq<Frame>, fs: seq<Frame>, gs: seq<Frame>, a: Action, b: Action,
                        outcome: Value, adopted: Value)
    requires base != [] && AllCopy(fs, gs) && |base| + |fs| < CAPACITY && ActionsCopy(a, b)
    requires outcome == adopted || StaysUnread(env, a)
    ensures var alone, above := Perform(fs, a, outcome), Perform(base + gs, b, adopted);
            if alone.Running? && |base| + |alone.frames| > CAPACITY then above == Aborted
            else InStep(env, base, alone, above)
  {
    hide Copies, Waiting;
    match a
    case Goto(f) => OneMore(base, fs, gs, f, b.f, adopted);
    case Leave(f) => OneMore(base, fs, gs, f, b.f, adopted);
    case Push(f, child) =>
      CopyItself(child);
      OneMore(base, fs, gs, f, b.f, adopted);
      OneMore(base, fs + [f], gs + [b.f], child, child, adopted);
      assert fs + [f] + [child] == fs + [f, child];
      assert base + (gs + [b.f] + [child]) == base + gs + [b.f, child];
    case Finish(v) =>
      if fs == [] {
        assert base + gs == base;
      } else {
        OnTopOf(base, fs, gs, v);
      }
    case _ =>
  }

  lemma OneMore(base: seq<Frame>, fs: seq<Frame>, gs: seq<Frame>, f: Frame, g: Frame, outcome: Value)
    requires AllCopy(fs, gs) && Copies(f, g)
    ensures AllCopy(fs + [f], gs + [g]) && OnTop(base, fs + [f], Running(base + gs + [g], outcome))
  {
    hide Copies;
    OnTopOf(base, fs + [f], gs + [g], outcome);
    assert base + (gs + [g]) == base + gs + [g];
  }

  /** One state of the operation alone and of the stack that adopted it. */
  lemma AdoptedStep(env: Env, base: seq<Frame>, fs: seq<Frame>, gs: seq<Frame>, outcome: Value, adopted: Value)
    requires Disciplined(env.code) && base != [] && Related(env, fs, gs, outcome, adopted)
    requires |base| + |fs| <= CAPACITY
    ensures var alone, above := Step(env, Running(fs, outcome)), Step(env, Running(base + gs, adopted));
            if Strands(env, fs[|fs| - 1], gs[|gs| - 1]) then alone.Running? && above == Aborted
            else if alone.Running? && |base| + |alone.frames| > CAPACITY then above == Aborted
            else InStep(env, base, alone, above)
  {
    hide StepFrame, Disciplined, Waiting, InStep, Copies, Strands, ActionsCopy;
    var last := |fs| - 1;
    assert (base + gs)[..|base + gs| - 1] == base + gs[..last] && (base + gs)[|base + gs| - 1] == gs[last];
    CopyFields(fs[last], gs[last]);
    StepCopies(env, fs[last], gs[last], outcome);
    SameWait(env, fs[last], gs[last]);
    OutcomeUnread(env, gs[last], outcome, adopted);
    if outcome != adopted {
      StepKeepsUnread(env, fs[last], outcome);
    }
    if !Strands(env, fs[last], gs[last]) {
      PerformedInStep(env, base, fs[..last], gs[..last], StepFrame(env, fs[last], outcome),
                      StepFrame(env, gs[last], adopted), outcome, adopted);
    }
  }

  lemma SameWait(env: Env, f: Frame, g: Frame)
    requires g.fn == f.fn && g.node == f.node
    ensures Waiting(env.code, g) == Waiting(env.code, f)
  {
  }

  /** The stack below leaves room for every frame the operation pushes within `n` states. */
  predicate Room(env: Env, m: Machine, below: nat, n: nat)
    decreases n
  {
    m.Running? ==> below + |m.frames| <= CAPACITY && (n > 0 ==> Room(env, Step(env, m), below, n - 1))
  }

  /** Within `n` states no frame reads through an address from before the adoption. */
  predicate KeepsPlace(env: Env, alone: Machine, above: Machine, n: nat)
    decreases n
  {
    n > 0 && alone.Running? && above.Running? && alone.frames != [] && above.frames != [] ==>
      && !Strands(env, alone.frames[|alone.frames| - 1], above.frames[|above.frames| - 1])
      && KeepsPlace(env, Step(env, alone), Step(env, above), n - 1)
  }

  /**
   While the operation alone runs, the adopting stack holds copies of its frames above its own, which it leaves
   as they were.
   */
  lemma {:induction false} AdoptedRuns(env: Env, base: seq<Frame>, fs: seq<Frame>, gs: seq<Frame>, outcome: Value,
                                       adopted: Value, n: nat)
    returns (k: nat)
    requires Disciplined(env.code) && base != [] && Related(env, fs, gs, outcome, adopted)
    requires Room(env, Running(fs, outcome), |base|, n)
    requires KeepsPlace(env, Running(fs, outcome), Running(base + gs, adopted), n)
    ensures k <= n && (Run(env, Running(fs, outcome), n).Running? ==> k == n)
    ensures InStep(env, base, Run(env, Running(fs, outcome), n), Run(env, Running(base + gs, adopted), k))
    decreases n
  {
    hide Step, Disciplined, Copies, Strands, Waiting;
    if n == 0 {
      k := 0;
      OnTopOf(base, fs, gs, adopted);
    } else {
      assert (base + gs)[|base + gs| - 1] == gs[|gs| - 1];
      AdoptedStep(env, base, fs, gs, outcome, adopted);
      var alone, above := Step(env, Running(fs, outcome)), Step(env, Running(base + gs, adopted));
      if alone.Running? {
        var next := InStepRelates(env, base, alone.frames, alone.outcome, above);
        var rest := AdoptedRuns(env, base, alone.frames, next, alone.outcome, above.outcome, n - 1);
        k := rest + 1;
      } else {
        StoppedStaysPut(env, alone, n - 1);
        k := 1;
        assert Run(env, Running(base + gs, adopted), 1) == Run(env, above, 0);
      }
    }
  }

  lemma {:induction false} StoppedStaysPut(env: Env, m: Machine, n: nat)
    requires !m.Running?
    ensures Run(env, m, n) == m
    decreases n
  {
    if n > 0 {
      StoppedStaysPut(env, m, n - 1);
    }
  }

  /** Without room, or with a read through an address from before the adoption, the adopting stack aborts. */
  lemma {:induction false} AdoptedAborts(env: Env, base: seq<Frame>, fs: seq<Frame>, gs: seq<Frame>, outcome: Value,
                                         adopted: Value, n: nat)
    requires Disciplined(env.code) && base != [] && Related(env, fs, gs, outcome, adopted)
    requires |base| + |fs| <= CAPACITY
    requires !Room(env, Running(fs, outcome), |base|, n)
             || !KeepsPlace(env, Running(fs, outcome), Running(base + gs, adopted), n)
    ensures Run(env, Running(base + gs, adopted), n) == Aborted
    decreases n
  {
    hide Step, Disciplined, Copies, Strands, Waiting;
    assert (base + gs)[|base + gs| - 1] == gs[|gs| - 1];
    AdoptedStep(env, base, fs, gs, outcome, adopted);
    var alone, above := Step(env, Running(fs, outcome)), Step(env, Running(base + gs, adopted));
    if above == Aborted {
      StoppedStaysPut(env, Aborted, n - 1);
    } else {
      assert alone.Running?;
      var next := InStepRelates(env, base, alone.frames, alone.outcome, above);
      AdoptedAborts(env, base, alone.frames, next, alone.outcome, above.outcome, n - 1);
    }
  }

  /**
   An operation that alone completes with `v` leaves, once adopted, the parent's own frames with `v` as the
   delivered result.  It does so exactly when the stack has room for it and no frame reads through an address
   from before the adoption.
   */
  lemma AdoptedCompletes(env: Env, base: seq<Frame>, fs: seq<Frame>, gs: seq<Frame>, outcome: Value, adopted: Value,
                         n: nat, v: Value)
    requires Disciplined(env.code) && base != [] && Related(env, fs, gs, outcome, adopted)
    requires |base| + |fs| <= CAPACITY && Run(env, Running(fs, outcome), n) == Completed(v)
    ensures if Room(env, Running(fs, outcome), |base|, n)
               && KeepsPlace(env, Running(fs, outcome), Running(base + gs, adopted), n)
            then exists k: nat :: k <= n && Run(env, Running(base + gs, adopted), k) == Running(base, v)
            else Run(env, Running(base + gs, adopted), n) == Aborted
  {
    hide Run, Room, KeepsPlace, Related, Disciplined;
    if Room(env, Running(fs, outcome), |base|, n)
       && KeepsPlace(env, Running(fs, outcome), Running(base + gs, adopted), n)
    {
      var k := AdoptedRuns(env, base, fs, gs, outcome, adopted, n);
      assert Run(env, Running(base + gs, adopted), k) == Running(base, v);
    } else {
      AdoptedAborts(env, base, fs, gs, outcome, adopted, n);
    }
  }

  /** No frame holds an address into its own storage. */
  predicate NoneInPlace(fs: seq<Frame>) {
    forall i :: 0 <= i < |fs| ==> forall n :: n in fs[i].slots && fs[i].slots[n].Iterate? ==> !fs[i].slots[n].c.NameAt?
  }

  lemma NoneInPlaceMoves(fs: seq<Frame>)
    requires NoneInPlace(fs)
    ensures AllMoved(fs) == fs
  {
    forall i | 0 <= i < |fs| ensures Moved(fs[i]) == fs[i] {
      assert Moved(fs[i]).slots == fs[i].slots;
    }
  }

  /** The same action on both stacks. */
  lemma PerformedAlike(env: Env, base: seq<Frame>, fs: seq<Frame>, a: Action, outcome: Value, adopted: Value)
    requires base != [] && (outcome == adopted || StaysUnread(env, a))
    ensures var alone, above := Perform(fs, a, outcome), Perform(base + fs, a, adopted);
            alone.Running? && above.Running? ==>
              && above.frames == base + alone.frames
              && Related(env, alone.frames, alone.frames, alone.outcome, above.outcome)
  {
    hide Copies, Waiting, AllCopy;
    var alone := Perform(fs, a, outcome);
    if alone.Running? {
      AllCopyThemselves(alone.frames);
    }
    match a
    case Goto(f) => assert base + fs + [f] == base + (fs + [f]);
    case Leave(f) => assert base + fs + [f] == base + (fs + [f]);
    case Push(f, child) => assert base + fs + [f, child] == base + (fs + [f, child]);
    case _ =>
  }

  lemma SameStep(env: Env, base: seq<Frame>, fs: seq<Frame>, outcome: Value, adopted: Value)
    requires Disciplined(env.code) && base != [] && Related(env, fs, fs, outcome, adopted)
    ensures var alone, above := Step(env, Running(fs, outcome)), Step(env, Running(base + fs, adopted));
            alone.Running? && above.Running? ==>
              && above.frames == base + alone.frames
              && Related(env, alone.frames, alone.frames, alone.outcome, above.outcome)
  {
    hide StepFrame, Disciplined, AllCopy, Waiting, Perform, StaysUnread;
    var last := |fs| - 1;
    assert (base + fs)[..|base + fs| - 1] == base + fs[..last] && (base + fs)[|base + fs| - 1] == fs[last];
    OutcomeUnread(env, fs[last], outcome, adopted);
    if outcome != adopted {
      StepKeepsUnread(env, fs[last], outcome);
    }
    PerformedAlike(env, base, fs[..last], StepFrame(env, fs[last], outcome), outcome, adopted);
  }

  /** Equal frames stay equal. */
  lemma {:induction false} SameKeep(env: Env, base: seq<Frame>, fs: seq<Frame>, outcome: Value, adopted: Value, n: nat)
    requires Disciplined(env.code) && base != [] && Related(env, fs, fs, outcome, adopted)
    ensures KeepsPlace(env, Running(fs, outcome), Running(base + fs, adopted), n)
    decreases n
  {
    hide Step, Disciplined, AllCopy, Waiting;
    if n > 0 {
      assert (base + fs)[|base + fs| - 1] == fs[|fs| - 1];
      SameStep(env, base, fs, outcome, adopted);
      var alone, above := Step(env, Running(fs, outcome)), Step(env, Running(base + fs, adopted));
      if alone.Running? && above.Running? {
        SameKeep(env, base, alone.frames, alone.outcome, above.outcome, n - 1);
      }
    }
  }

  lemma AllCopyThemselves(fs: seq<Frame>)
    ensures AllCopy(fs, fs)
  {
  }

  /** Frames that hold no such address when they are moved never read a lost one later. */
  lemma NoneInPlaceKeeps(env: Env, base: seq<Frame>, fs: seq<Frame>, outcome: Value, adopted: Value, n: nat)
    requires Disciplined(env.code) && base != [] && NoneInPlace(fs)
    requires Related(env, fs, AllMoved(fs), outcome, adopted)
    ensures KeepsPlace(env, Running(fs, outcome), Running(base + AllMoved(fs), adopted), n)
  {
    NoneInPlaceMoves(fs);
    SameKeep(env, base, fs, outcome, adopted, n);
  }

  /** What the top frame, which reads a result next, does with it. */
  function Reading(env: Env, f: Frame, outcome: Value): NativeOut
    requires Waiting(env.code, f)
  {
    RunResumed(env.code[f.fn].nodes[f.node].resume, f.locals, outcome)
  }

  /**
   Both results make the state abort, or finish with the same value; a different value may only be
   delivered to a frame that does not read it.
   */
  predicate ReadsAlike(env: Env, fs: seq<Frame>, a: Value, b: Value)
    requires fs != [] && Waiting(env.code, fs[|fs| - 1])
  {
    if fs[|fs| - 1].fn !in env.p.fns then true
    else
      match (Reading(env, fs[|fs| - 1], a), Reading(env, fs[|fs| - 1], b))
      case (Panicked, Panicked) => true
      case (Finished(v), Finished(w)) => v == w || (|fs| > 1 && !Waiting(env.code, fs[|fs| - 2]))
      case _ => false
  }

  lemma ReadingStep(env: Env, f: Frame, outcome: Value)
    requires Waiting(env.code, f)
    ensures f.fn !in env.p.fns ==> StepFrame(env, f, outcome) == Abort
    ensures f.fn in env.p.fns ==>
            match Reading(env, f, outcome)
            case Ran(_) =>
              var a := StepFrame(env, f, outcome);
              a.Goto? && a.f.slots == f.slots[f.node := Awaited(outcome)]
            case Finished(v) => StepFrame(env, f, outcome) == Finish(v)
            case _ => StepFrame(env, f, outcome) == Abort
    ensures !Reading(env, f, outcome).RawReturn? && !Reading(env, f, outcome).OutOfFuel?
    ensures Reading(env, f, outcome).Finished? ==> env.code[f.fn].nodes[f.node].resume.Return?
    ensures Reading(env, f, outcome).Ran? ==> !env.code[f.fn].nodes[f.node].resume.Return?
  {
  }

  /**
   The adopted frames take a step with the operation alone exactly when there is room for it, the top frame
   does not read through an address from before the adoption, and both stacks hold the same result, the top
   frame does not read it, or it reads both alike.
   */
  lemma InStepIffRead(env: Env, base: seq<Frame>, fs: seq<Frame>, gs: seq<Frame>, outcome: Value, adopted: Value)
    requires Disciplined(env.code) && base != [] && fs != [] && AllCopy(fs, gs) && |base| + |fs| <= CAPACITY
    ensures InStep(env, base, Step(env, Running(fs, outcome)), Step(env, Running(base + gs, adopted))) <==>
            && Room(env, Running(fs, outcome), |base|, 1)
            && !Strands(env, fs[|fs| - 1], gs[|gs| - 1])
            && (outcome == adopted || !Waiting(env.code, fs[|fs| - 1]) || ReadsAlike(env, fs, outcome, adopted))
  {
    hide StepFrame, Disciplined, Step, InStep, ReadsAlike, AllCopy;
    if outcome == adopted || !Waiting(env.code, fs[|fs| - 1]) {
      UnreadStep(env, base, fs, gs, outcome, adopted);
    } else {
      ReadStep(env, base, fs, gs, outcome, adopted);
    }
  }

  lemma UnreadStep(env: Env, base: seq<Frame>, fs: seq<Frame>, gs: seq<Frame>, outcome: Value, adopted: Value)
    requires Disciplined(env.code) && base != [] && fs != [] && AllCopy(fs, gs) && |base| + |fs| <= CAPACITY
    requires outcome == adopted || !Waiting(env.code, fs[|fs| - 1])
    ensures InStep(env, base, Step(env, Running(fs, outcome)), Step(env, Running(base + gs, adopted))) <==>
            Room(env, Running(fs, outcome), |base|, 1) && !Strands(env, fs[|fs| - 1], gs[|gs| - 1])
  {
    hide StepFrame, Disciplined, Step, Strands, Copies;
    AdoptedStep(env, base, fs, gs, outcome, adopted);
    assert Room(env, Step(env, Running(fs, outcome)), |base|, 0) <==> Room(env, Running(fs, outcome), |base|, 1);
  }

  lemma ReadStep(env: Env, base: seq<Frame>, fs: seq<Frame>, gs: seq<Frame>, outcome: Value, adopted: Value)
    requires base != [] && fs != [] && AllCopy(fs, gs) && |base| + |fs| <= CAPACITY
    requires outcome != adopted && Waiting(env.code, fs[|fs| - 1])
    ensures Room(env, Running(fs, outcome), |base|, 1) && !Strands(env, fs[|fs| - 1], gs[|gs| - 1])
    ensures InStep(env, base, Step(env, Running(fs, outcome)), Step(env, Running(base + gs, adopted))) <==>
            ReadsAlike(env, fs, outcome, adopted)
  {
    hide StepFrame, Reading, InStep, Waiting, Copies;
    var last := |fs| - 1;
    var f, g := fs[last], gs[last];
    CopyFields(f, g);
    SameWait(env, f, g);
    ReadingStep(env, f, outcome);
    ReadingStep(env, g, adopted);
    NoHeader(env, f, g);
    assert Reading(env, g, adopted) == Reading(env, f, adopted) by { SameReading(env, f, g, adopted); }
    var a, b := StepFrame(env, f, outcome), StepFrame(env, g, adopted);
    SlotsDiffer(f, g, a, b, outcome, adopted);
    assert (base + gs)[..|base + gs| - 1] == base + gs[..last] && (base + gs)[|base + gs| - 1] == g;
    assert Step(env, Running(fs, outcome)) == Perform(fs[..last], a, outcome);
    assert Step(env, Running(base + gs, adopted)) == Perform(base + gs[..last], b, adopted);
    BothPerformed(env, base, fs[..last], gs[..last], a, b, outcome, adopted);
  }

  lemma NoHeader(env: Env, f: Frame, g: Frame)
    requires Waiting(env.code, g)
    ensures !Strands(env, f, g)
  {
  }

  lemma SameReading(env: Env, f: Frame, g: Frame, outcome: Value)
    requires Waiting(env.code, f) && g.fn == f.fn && g.node == f.node && g.locals == f.locals
    ensures Waiting(env.code, g) && Reading(env, g, outcome) == Reading(env, f, outcome)
  {
  }

  /** Two actions of a resumed frame, on the stack alone and on the stack that adopted it. */
  lemma BothPerformed(env: Env, base: seq<Frame>, fs: seq<Frame>, gs: seq<Frame>, a: Action, b: Action, outcome: Value,
                      adopted: Value)
    requires base != [] && AllCopy(fs, gs)
    requires (a.Goto? || a.Finish? || a.Abort?) && (b.Goto? || b.Finish? || b.Abort?)
    requires a.Goto? && b.Goto? ==> !Copies(a.f, b.f)
    requires !(a.Finish? && b.Goto?) && !(a.Goto? && b.Finish?)
    ensures InStep(env, base, Perform(fs, a, outcome), Perform(base + gs, b, adopted)) <==>
            || (a.Abort? && b.Abort?)
            || (a.Finish? && b.Finish? && (a.v == b.v || (fs != [] && !Waiting(env.code, fs[|fs| - 1]))))
  {
    hide Copies, Waiting;
    if a.Goto? && b.Goto? {
      var above := base + gs + [b.f];
      assert above[|base|..][|gs|] == b.f && (fs + [a.f])[|gs|] == a.f;
    } else if a.Finish? && b.Finish? {
      if fs == [] {
        assert base + gs == base;
      } else {
        OnTopOf(base, fs, gs, b.v);
      }
    }
  }

  /** Storing different results leaves different frames. */
  lemma SlotsDiffer(f: Frame, g: Frame, a: Action, b: Action, outcome: Value, adopted: Value)
    requires outcome != adopted && g.node == f.node
    requires a.Goto? ==> a.f.slots == f.slots[f.node := Awaited(outcome)]
    requires b.Goto? ==> b.f.slots == g.slots[g.node := Awaited(adopted)]
    ensures a.Goto? && b.Goto? ==> !Copies(a.f, b.f)
  {
    if a.Goto? && b.Goto? {
      assert a.f.slots[f.node] == Awaited(outcome) && b.f.slots[f.node] == Awaited(adopted);
    }
  }

  // ---------------------------------------------------------------------------------------------
  // An unread result is lost

  const Forwarding: seq<Stmt> := [Return(Some(Await(0, "g", [])))]

  function ForwardingProgram(): Program {
    Program(map["f" := Fn([], false, Forwarding)], false)
  }

  /**
   The operation holds the result 7 but has not read it.  Alone it completes with 7; adopted onto a
   stack whose last result was 9, it delivers 9.
   */
  lemma UnreadResultExample(base: seq<Frame>, native: nat)
    requires base != []
    ensures var env := Env(ForwardingProgram(), Created(ForwardingProgram()), native);
            var waiting := [Frame("f", 1, map[], map[])];
            && Step(env, Running(waiting, Int(7))) == Completed(Int(7))
            && Step(env, Running(base + waiting, Int(9))) == Running(base, Int(9))
            && Waiting(env.code, waiting[0]) && !ReadsAlike(env, waiting, Int(7), Int(9))
  {
    var st := Forwarding[0];
    assert Forwarding[1..] == [];
    assert Compile(Forwarding, 0, [Complete]) == CompileSplit([], st, 0, [Complete]);
    var waiting := [Frame("f", 1, map[], map[])];
    assert (base + waiting)[..|base + waiting| - 1] == base;
    assert waiting[..0] == [];
  }

  // ---------------------------------------------------------------------------------------------
  // A cursor that stays behind

  /** `Sum(xs) { foreach x in xs { await Id(x); } }` */
  const Summing: seq<Stmt> := [Foreach("x", Elements(Name("xs")), [Do(Await(0, "id", [Name("x")]))])]

  function SummingProgram(): Program {
    Program(map["sum" := Fn(["xs"], true, Summing), "id" := Fn(["x"], false, [Return(Some(Name("x")))])], false)
  }

  lemma IdNodes()
    ensures Normalize([Return(Some(Name("x")))]) ==
            Built(1, [Complete, BasicBlock([Return(Some(Name("x")))], 0)])
  {
    var id := [Return(Some(Name("x")))];
    assert id[1..] == [] && [] + id == id;
    assert Compile(id, 0, [Complete]) == CompileFrom([] + id, [], 0, [Complete]);
  }

  lemma SumNodes()
    ensures Normalize(Summing) == Built(1, [
              Complete, ForeachInit([], Elements(Name("xs")), 2), ForeachHeader("x", Elements(Name("xs")), 5, 0),
              ForeachContinue(2), AfterAwait(0, Do(Name(AWAITED)), 3), AwaitSuspend([], Await(0, "id", [Name("x")]), 4)
            ])
  {
    assert Summing[1..] == [];
    var body := Summing[0].body;
    assert body[1..] == [];
    var started := ForeachStart([], Summing[0], 0, [Complete]);
    assert Compile(body, 3, started) == CompileSplit([], body[0], 3, started);
    assert Compile(Summing, 0, [Complete]) == CompileSplit([], Summing[0], 0, [Complete]);
  }

  /** The nodes of `sum` and of `id`. */
  lemma SummingNodes(env: Env)
    requires env.p == SummingProgram() && env.code == Created(env.p)
    ensures "sum" in env.code && "id" in env.code
    ensures env.code["sum"] == Unit(1, [
              Complete, ForeachInit([], Elements(Name("xs")), 2), ForeachHeader("x", Elements(Name("xs")), 5, 0),
              ForeachContinue(2), AfterAwait(0, Do(Name(AWAITED)), 3), AwaitSuspend([], Await(0, "id", [Name("x")]), 4)
            ], All)
    ensures env.code["id"] == Unit(1, [Complete, BasicBlock([Return(Some(Name("x")))], 0)], All)
  {
    hide Normalize;
    SumNodes();
    IdNodes();
  }

  /** The frame of `sum` in front of a node, in the iteration over `x`, with its cursor at `c`. */
  function InLoop(node: nat, x: int, c: Cursor, awaited: Slots): Frame {
    Frame("sum", node, map["xs" := Arr([Int(1), Int(2)]), "x" := Int(x)], map[2 := Iterate(c)] + awaited)
  }

  /** A state without statements of its own, over locals that all live in the frame. */
  lemma BareState(env: Env, f: Frame, outcome: Value)
    requires f.fn in env.code && f.fn in env.p.fns && f.node < |env.code[f.fn].nodes| && env.code[f.fn].keep == All
    requires Statements(env.code[f.fn].nodes[f.node]) == []
    ensures StepFrame(env, f, outcome) == Dispatch(env, env.code[f.fn].nodes, f, outcome)
  {
    hide Dispatch;
  }

  /** The loop opens its cursor */
  lemma SummingOpens(env: Env)
    requires env.p == SummingProgram() && env.code == Created(env.p)
    ensures var xs := map["xs" := Arr([Int(1), Int(2)])];
            StepFrame(env, Frame("sum", 1, xs, map[]), Void) ==
            Goto(Frame("sum", 2, xs, map[2 := Iterate(NameAt("xs", 0))]))
  {
    SummingNodes(env);
    hide Created, StepFrame;
    var f := Frame("sum", 1, map["xs" := Arr([Int(1), Int(2)])], map[]);
    BareState(env, f, Void);
    assert f.slots[2 := Iterate(NameAt("xs", 0))] == map[2 := Iterate(NameAt("xs", 0))];
  }

  /** and takes the first element. */
  lemma SummingTakes(env: Env)
    requires env.p == SummingProgram() && env.code == Created(env.p)
    ensures var xs := map["xs" := Arr([Int(1), Int(2)])];
            StepFrame(env, Frame("sum", 2, xs, map[2 := Iterate(NameAt("xs", 0))]), Void) ==
            Goto(InLoop(5, 1, NameAt("xs", 0), map[]))
  {
    SummingNodes(env);
    hide Created, StepFrame, Normalize, Pure, RunResumed, OpenCursor, Select, Suspend, CountAt;
    var f := Frame("sum", 2, map["xs" := Arr([Int(1), Int(2)])], map[2 := Iterate(NameAt("xs", 0))]);
    BareState(env, f, Void);
    var g := InLoop(5, 1, NameAt("xs", 0), map[]);
    assert g.locals == f.locals["x" := Int(1)] && g.slots == f.slots;
  }

  lemma SummingPushes(env: Env)
    requires env.p == SummingProgram() && env.code == Created(env.p)
    ensures StepFrame(env, InLoop(5, 1, NameAt("xs", 0), map[]), Void) ==
            Push(InLoop(4, 1, NameAt("xs", 0), map[]), Frame("id", 1, map["x" := Int(1)], map[]))
  {
    SummingNodes(env);
    hide Created, StepFrame;
    var f := InLoop(5, 1, NameAt("xs", 0), map[]);
    BareState(env, f, Void);
    var operands := [Name("x")];
    assert operands[1..] == [] && PureAll(operands[1..], f.locals) == Some([]);
    assert [Int(1)] + [] == [Int(1)] && PureAll(operands, f.locals) == Some([Int(1)]);
    OneParam("x", Int(1));
  }

  lemma SummingStarts(env: Env)
    requires env.p == SummingProgram() && env.code == Created(env.p)
    ensures var xs := Arr([Int(1), Int(2)]);
            Run(env, Operation(env, "sum", [xs]), 3) ==
            Running([InLoop(4, 1, NameAt("xs", 0), map[]), Frame("id", 1, map["x" := Int(1)], map[])], Void)
  {
    SummingNodes(env);
    SummingOpens(env);
    SummingTakes(env);
    SummingPushes(env);
    var xs := Arr([Int(1), Int(2)]);
    OneParam("xs", xs);
    hide Created, Run, StepFrame, Step;
    var f0 := Frame("sum", 1, map["xs" := xs], map[]);
    var f1 := Frame("sum", 2, map["xs" := xs], map[2 := Iterate(NameAt("xs", 0))]);
    var f2 := InLoop(5, 1, NameAt("xs", 0), map[]);
    OneStep(env, [], f0, Void);
    OneStep(env, [], f1, Void);
    OneStep(env, [], f2, Void);
    ThreeSteps(env, Running([f0], Void));
  }

  lemma OneParam(x: string, v: Value)
    ensures Bind([x], [v]) == map[x := v]
  {
    assert [x][..0] == [] && [v][..0] == [];
  }

  lemma OneStep(env: Env, below: seq<Frame>, f: Frame, outcome: Value)
    ensures Step(env, Running(below + [f], outcome)) == Perform(below, StepFrame(env, f, outcome), outcome)
    ensures below == [] ==> Step(env, Running([f], outcome)) == Perform([], StepFrame(env, f, outcome), outcome)
  {
    assert (below + [f])[..|below + [f]| - 1] == below;
    assert [f][..0] == [];
  }

  lemma ThreeSteps(env: Env, m: Machine)
    ensures Run(env, m, 3) == Step(env, Step(env, Step(env, m)))
    ensures Run(env, m, 4) == Step(env, Step(env, Step(env, Step(env, m))))
  {
    hide Step;
    assert Run(env, m, 3) == Run(env, Step(env, m), 2);
    assert Run(env, Step(env, m), 2) == Run(env, Step(env, Step(env, m)), 1);
    var next := Step(env, m);
    assert Run(env, m, 4) == Run(env, next, 3);
    assert Run(env, next, 3) == Run(env, Step(env, next), 2);
    assert Run(env, Step(env, next), 2) == Run(env, Step(env, Step(env, next)), 1);
  }

  lemma IdFinishes(env: Env)
    requires env.p == SummingProgram() && env.code == Created(env.p)
    ensures StepFrame(env, Frame("id", 1, map["x" := Int(1)], map[]), Void) == Finish(Int(1))
  {
    SummingNodes(env);
    hide Created;
  }

  lemma SummingResumes(env: Env, c: Cursor)
    requires env.p == SummingProgram() && env.code == Created(env.p)
    ensures StepFrame(env, InLoop(4, 1, c, map[]), Int(1)) == Goto(InLoop(3, 1, c, map[4 := Awaited(Int(1))]))
  {
    SummingNodes(env);
    var f := InLoop(4, 1, c, map[]);
    BareState(env, f, Int(1));
    assert RunResumed(Do(Name(AWAITED)), f.locals, Int(1)) == Ran(f.locals);
    InLoopSlots(c);
    hide Created, StepFrame, RunResumed;
  }

  lemma SummingContinues(env: Env, c: Cursor)
    requires env.p == SummingProgram() && env.code == Created(env.p)
    ensures StepFrame(env, InLoop(3, 1, c, map[4 := Awaited(Int(1))]), Int(1)) ==
            Goto(InLoop(2, 1, CursorNext(c), map[4 := Awaited(Int(1))]))
  {
    hide Created, StepFrame, CursorNext;
    SummingNodes(env);
    var f := InLoop(3, 1, c, map[4 := Awaited(Int(1))]);
    BareState(env, f, Int(1));
    InLoopSlots(c);
  }

  lemma InLoopSlots(c: Cursor)
    ensures InLoop(4, 1, c, map[]).slots[4 := Awaited(Int(1))] == InLoop(3, 1, c, map[4 := Awaited(Int(1))]).slots
    ensures InLoop(3, 1, c, map[4 := Awaited(Int(1))]).slots[2 := Iterate(CursorNext(c))] ==
            InLoop(2, 1, CursorNext(c), map[4 := Awaited(Int(1))]).slots
  {
    hide CursorNext;
  }

  /** The header reads the second element in place, */
  lemma SummingReads(env: Env)
    requires env.p == SummingProgram() && env.code == Created(env.p)
    ensures StepFrame(env, InLoop(2, 1, NameAt("xs", 1), map[4 := Awaited(Int(1))]), Int(1)).Goto?
  {
    SummingNodes(env);
    hide Created, StepFrame, Normalize, Pure, RunResumed, OpenCursor, Select, Suspend, CountAt;
    BareState(env, InLoop(2, 1, NameAt("xs", 1), map[4 := Awaited(Int(1))]), Int(1));
  }

  /** or not at all. */
  lemma SummingStrands(env: Env)
    requires env.p == SummingProgram() && env.code == Created(env.p)
    ensures StepFrame(env, InLoop(2, 1, LostAt("xs", 1), map[4 := Awaited(Int(1))]), Int(1)) == Abort
  {
    SummingNodes(env);
    hide Created, StepFrame, Normalize, Pure, RunResumed, OpenCursor, Select, Suspend, CountAt;
    BareState(env, InLoop(2, 1, LostAt("xs", 1), map[4 := Awaited(Int(1))]), Int(1));
  }

  /** The result of `id` is delivered, and the loop comes back to its header and leaves it. */
  lemma SummingGoesOn(env: Env, below: seq<Frame>, c: Cursor)
    requires env.p == SummingProgram() && env.code == Created(env.p)
    ensures var end := InLoop(2, 1, CursorNext(c), map[4 := Awaited(Int(1))]);
            Run(env, Running(below + [InLoop(4, 1, c, map[]), Frame("id", 1, map["x" := Int(1)], map[])], Void), 4) ==
            Perform(below, StepFrame(env, end, Int(1)), Int(1))
  {
    IdFinishes(env);
    SummingResumes(env, c);
    SummingContinues(env, c);
    var f, id := InLoop(4, 1, c, map[]), Frame("id", 1, map["x" := Int(1)], map[]);
    var f1, f2 := InLoop(3, 1, c, map[4 := Awaited(Int(1))]), InLoop(2, 1, CursorNext(c), map[4 := Awaited(Int(1))]);
    hide Created, Run, StepFrame, Step, InLoop, CursorNext;
    assert below + [f, id] == below + [f] + [id];
    OneStep(env, below + [f], id, Void);
    OneStep(env, below, f, Int(1));
    OneStep(env, below, f1, Int(1));
    OneStep(env, below, f2, Int(1));
    ThreeSteps(env, Running(below + [f, id], Void));
  }

  lemma MovedLoop()
    ensures var id := Frame("id", 1, map["x" := Int(1)], map[]);
            AllMoved([InLoop(4, 1, NameAt("xs", 0), map[]), id]) == [InLoop(4, 1, LostAt("xs", 0), map[]), id]
  {
    var f, id := InLoop(4, 1, NameAt("xs", 0), map[]), Frame("id", 1, map["x" := Int(1)], map[]);
    assert Moved(f).slots == InLoop(4, 1, LostAt("xs", 0), map[]).slots && Moved(id).slots == map[];
  }

  /**
   `op = Sum(a); Step(op); await move op`: alone the operation goes on to the second element; adopted, it reads
   that element through an address into the storage it has left.
   */
  lemma StrandedCursorExample(env: Env, base: seq<Frame>)
    requires env.p == SummingProgram() && env.code == Created(env.p) && base != []
    ensures var stepped := Run(env, Operation(env, "sum", [Arr([Int(1), Int(2)])]), 3);
            && stepped.Running? && Run(env, stepped, 4).Running?
            && Run(env, Running(base + AllMoved(stepped.frames), stepped.outcome), 4) == Aborted
  {
    hide Run, Step, StepFrame, Created, Operation, InLoop, AllMoved;
    SummingStarts(env);
    SummingReads(env);
    SummingStrands(env);
    SummingGoesOn(env, [], NameAt("xs", 0));
    SummingGoesOn(env, base, LostAt("xs", 0));
    MovedLoop();
    var stepped := [InLoop(4, 1, NameAt("xs", 0), map[]), Frame("id", 1, map["x" := Int(1)], map[])];
    assert [] + stepped == stepped;
  }
}
