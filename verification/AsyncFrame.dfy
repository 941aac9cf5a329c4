/**
 Frame sufficiency: discarding, at every state change, the locals that do not live in the frame
 never alters a run, provided the frame holds every name a state reads from outside itself.
 */
module AsyncFrame {
  import opened Wrappers
  import opened AsyncSyntax
  import opened AsyncDirect
  import opened AsyncGraph
  import opened AsyncMachine
  import opened AsyncScope

  /** Names a state reads before it declares them. */
  function StateReads(n: Node): set<string> {
    match n
    case BasicBlock(b, _) => ReadsAll(b)
    case AwaitSuspend(b, e, _) => ReadsAll(b) + (Mentions(e) - DefinesAll(b))
    case AfterAwait(_, st, _) => ResumeReads(st)
    case Branch(b, c, _, _) => ReadsAll(b) + (Mentions(c) - DefinesAll(b))
    case MatchDispatch(b, e, _) => ReadsAll(b) + (Mentions(e) - DefinesAll(b))
    case LoopInit(b, _) => ReadsAll(b)
    case LoopHeader(c, _, _, _, _) => Mentions(c)
    case ForeachInit(b, src, _) => ReadsAll(b) + SourceMentions(src)
    case ForeachHeader(_, src, _, _) => SourceMentions(src)
    case _ => {}
  }

  function ResumeReads(st: Stmt): set<string> {
    (Reads(st) - {AWAITED}) + (if st.Assign? then {st.x} else {})
  }

  /** Names a state declares. */
  function StateDeclares(n: Node): set<string> {
    DeclaredAll(Statements(n)) + (if n.AfterAwait? then Declared(n.resume) else {})
  }

  /** Names a state binds: items and payload bindings, its own statements' included. */
  function StateBinds(n: Node): set<string> {
    BoundAll(Statements(n)) +
    (if n.MatchDispatch? then CaseBinds(n.cases) else if n.ForeachHeader? then {n.item} else {})
  }

  function CaseBinds(cases: seq<Case>): set<string> {
    if cases == [] then {} else Elems(cases[0].binds) + CaseBinds(cases[1..])
  }

  /** Every name the operation's own store can ever hold. */
  function StoredNames(params: seq<string>, nodes: Nodes): set<string> {
    if nodes == [] then Elems(params)
    else StateDeclares(nodes[0]) + StateBinds(nodes[0]) + StoredNames(params, nodes[1..])
  }

  lemma {:induction false} StoredNamesHold(params: seq<string>, nodes: Nodes, i: nat)
    requires i < |nodes|
    ensures StateDeclares(nodes[i]) + StateBinds(nodes[i]) <= StoredNames(params, nodes)
  {
    if i > 0 {
      StoredNamesHold(params, nodes[1..], i - 1);
    }
  }

  lemma {:induction false} StoredParams(params: seq<string>, nodes: Nodes)
    ensures Elems(params) <= StoredNames(params, nodes)
  {
    if nodes != [] {
      StoredParams(params, nodes[1..]);
    }
  }

  /** Names that exist but do not survive a state change. */
  function Lost(params: seq<string>, nodes: Nodes, keep: set<string>): set<string> {
    StoredNames(params, nodes) - keep
  }

  /** The frame holds the parameters and whatever a state reads from outside itself. */
  ghost predicate Covers(params: seq<string>, nodes: Nodes, keep: set<string>) {
    && Elems(params) <= keep
    && forall i :: 0 <= i < |nodes| ==> StateReads(nodes[i]) !! Lost(params, nodes, keep)
  }

  /** The same code with the locals outside `kept` discarded at every state change. */
  function Trimmed(code: Code, kept: map<string, set<string>>): Code {
    map f | f in code :: Unit(code[f].entry, code[f].nodes, if f in kept then Only(kept[f]) else All)
  }

  /** All of `code` is untrimmed and covered by `kept`. */
  ghost predicate Sufficient(p: Program, code: Code, kept: map<string, set<string>>) {
    && code.Keys == p.fns.Keys == kept.Keys
    && (forall f :: f in code ==> code[f].keep == All)
    && forall f :: f in code ==> Covers(p.fns[f].params, code[f].nodes, kept[f])
  }

  // ---------------------------------------------------------------------------------------------
  // The two machines

  function LostIn(p: Program, code: Code, kept: map<string, set<string>>, f: string): set<string>
    requires f in p.fns && f in code && f in kept
  {
    Lost(p.fns[f].params, code[f].nodes, kept[f])
  }

  /** The cursor steps through a named array. */
  predicate Named(c: Cursor) {
    c.NameAt? || c.LostAt?
  }

  ghost predicate CursorsNamed(slots: Slots, lost: set<string>) {
    forall n {:trigger slots[n]} :: n in slots && slots[n].Iterate? && Named(slots[n].c) ==>
                                      slots[n].c.variable !in lost
  }

  /** `b` is `a` with the locals outside the frame discarded. */
  ghost predicate FrameTrims(p: Program, code: Code, kept: map<string, set<string>>, a: Frame, b: Frame)
    requires code.Keys == p.fns.Keys == kept.Keys
  {
    && a.fn in code && b == a.(locals := Trim(Only(kept[a.fn]), a.locals))
    && a.locals.Keys <= StoredNames(p.fns[a.fn].params, code[a.fn].nodes)
    && CursorsNamed(a.slots, LostIn(p, code, kept, a.fn))
  }

  /** Before trimming: `b` agrees with `a` on everything but lost names. */
  ghost predicate FrameAgrees(p: Program, code: Code, kept: map<string, set<string>>, a: Frame, b: Frame)
    requires code.Keys == p.fns.Keys == kept.Keys
  {
    && a.fn in code && b == a.(locals := b.locals)
    && Agree(a.locals, b.locals, LostIn(p, code, kept, a.fn))
    && a.locals.Keys <= StoredNames(p.fns[a.fn].params, code[a.fn].nodes)
    && CursorsNamed(a.slots, LostIn(p, code, kept, a.fn))
  }

  ghost predicate ActionAgrees(p: Program, code: Code, kept: map<string, set<string>>, a: Action, b: Action)
    requires code.Keys == p.fns.Keys == kept.Keys
  {
    match a
    case Goto(f) => b.Goto? && FrameAgrees(p, code, kept, f, b.f)
    case Push(f, child) => b.Push? && FrameAgrees(p, code, kept, f, b.f) && b.child == child
                           && FrameTrims(p, code, kept, child, child)
    case Leave(f) => b.Leave? && FrameAgrees(p, code, kept, f, b.f)
    case _ => a == b
  }

  ghost predicate ActionTrims(p: Program, code: Code, kept: map<string, set<string>>, a: Action, b: Action)
    requires code.Keys == p.fns.Keys == kept.Keys
  {
    match a
    case Goto(f) => b.Goto? && FrameTrims(p, code, kept, f, b.f)
    case Push(f, child) => b.Push? && FrameTrims(p, code, kept, f, b.f) && FrameTrims(p, code, kept, child, b.child)
    case Leave(f) => b.Leave? && FrameTrims(p, code, kept, f, b.f)
    case _ => a == b
  }

  ghost predicate MachineTrims(p: Program, code: Code, kept: map<string, set<string>>, a: Machine, b: Machine)
    requires code.Keys == p.fns.Keys == kept.Keys
  {
    match a
    case Running(frames, outcome) =>
      && b.Running? && b.outcome == outcome && |b.frames| == |frames|
      && forall i :: 0 <= i < |frames| ==> FrameTrims(p, code, kept, frames[i], b.frames[i])
    case _ => a == b
  }

  lemma TrimAgrees(p: Program, code: Code, kept: map<string, set<string>>, a: Frame, b: Frame)
    requires Sufficient(p, code, kept) && FrameTrims(p, code, kept, a, b)
    ensures FrameAgrees(p, code, kept, a, b)
  {
  }

  lemma AgreeTrims(p: Program, code: Code, kept: map<string, set<string>>, a: Frame, b: Frame)
    requires Sufficient(p, code, kept) && FrameAgrees(p, code, kept, a, b)
    ensures FrameTrims(p, code, kept, a, b.(locals := Trim(Only(kept[a.fn]), b.locals)))
  {
    assert Trim(Only(kept[a.fn]), b.locals) == Trim(Only(kept[a.fn]), a.locals);
  }

  lemma ActionIsTrimmed(p: Program, code: Code, kept: map<string, set<string>>, f: string, a: Action, b: Action)
    requires Sufficient(p, code, kept) && f in code && ActionAgrees(p, code, kept, a, b)
    requires (a.Goto? || a.Push? || a.Leave?) ==> a.f.fn == f
    ensures ActionTrims(p, code, kept, a, Kept(Only(kept[f]), b))
  {
    if a.Goto? || a.Push? || a.Leave? {
      AgreeTrims(p, code, kept, a.f, b.f);
    }
  }

  // ---------------------------------------------------------------------------------------------
  // One state

  ghost predicate NativeAgrees(a: NativeOut, b: NativeOut, except: set<string>, after: set<string>) {
    match a
    case Ran(s) => b.Ran? && Agree(s, b.s, except - after)
    case RawReturn(s) => b.RawReturn? && Agree(s, b.s, except)
    case _ => a == b
  }

  ghost predicate NativeKeys(a: NativeOut, names: set<string>) {
    match a
    case Ran(s) => s.Keys <= names
    case RawReturn(s) => s.Keys <= names
    case _ => true
  }

  lemma {:induction false} OrdinaryTrims(p: Program, b: seq<Stmt>, s: Store, t: Store, native: nat,
                                         except: set<string>, names: set<string>)
    requires Agree(s, t, except) && ReadsAll(b) !! except
    requires s.Keys <= names && DeclaredAll(b) + BoundAll(b) <= names
    ensures NativeAgrees(RunOrdinary(p, b, s, native), RunOrdinary(p, b, t, native), except, DefinesAll(b))
    ensures NativeKeys(RunOrdinary(p, b, s, native), names)
    decreases |b|
  {
    hide ExecStmt, Pure;
    if b != [] {
      if b[0].Return? {
        match b[0].result {
          case Some(e) => PureAgrees(e, s, t, except);
          case None =>
        }
      } else {
        StmtAgrees(p, b[0], s, t, CAPACITY, native, except);
        StmtKeys(p, b[0], s, CAPACITY, native, names);
        match ExecStmt(p, b[0], s, CAPACITY, native) {
          case Normal(s1) =>
            var t1 := ExecStmt(p, b[0], t, CAPACITY, native).s;
            OrdinaryTrims(p, b[1..], s1, t1, native, except - Defines(b[0]), names);
            assert (except - Defines(b[0])) - DefinesAll(b[1..]) == except - DefinesAll(b);
          case _ =>
        }
      }
    }
  }

  lemma ResumedTrims(resume: Stmt, s: Store, t: Store, awaited: Value, except: set<string>, names: set<string>)
    requires Agree(s, t, except) && ResumeReads(resume) !! except
    requires s.Keys <= names && Declared(resume) <= names
    ensures NativeAgrees(RunResumed(resume, s, awaited), RunResumed(resume, t, awaited), except, {})
    ensures NativeKeys(RunResumed(resume, s, awaited), names)
  {
    hide Pure;
    if SimpleExpr(resume).Some? {
      var e := SimpleExpr(resume).value;
      PureAgrees(e, s[AWAITED := awaited], t[AWAITED := awaited], except - {AWAITED});
    }
  }

  lemma StoredBinds(cases: seq<Case>, i: nat)
    requires i < |cases|
    ensures Elems(cases[i].binds) <= CaseBinds(cases)
  {
    if i > 0 {
      StoredBinds(cases[1..], i - 1);
    }
  }

  lemma {:induction false} SelectTrims(p: Program, code: Code, kept: map<string, set<string>>, cases: seq<Case>,
                                       tag: string, payload: seq<Value>, a: Frame, b: Frame)
    requires Sufficient(p, code, kept) && FrameAgrees(p, code, kept, a, b)
    requires CaseBinds(cases) <= StoredNames(p.fns[a.fn].params, code[a.fn].nodes)
    ensures ActionAgrees(p, code, kept, Select(cases, tag, payload, a), Select(cases, tag, payload, b))
  {
    hide LostIn, StoredNames;
    if cases != [] {
      if cases[0].tag == tag {
        if |cases[0].binds| == |payload| {
          BindAgrees(cases[0].binds, payload);
          var more := Bind(cases[0].binds, payload);
          AgreeBound(a.locals, b.locals, more, LostIn(p, code, kept, a.fn), more.Keys);
        }
      } else {
        SelectTrims(p, code, kept, cases[1..], tag, payload, a, b);
      }
    }
  }

  lemma StartedTrims(p: Program, code: Code, kept: map<string, set<string>>, env1: Env, env2: Env, f: string,
                     args: seq<Value>)
    requires Sufficient(p, code, kept) && env1.p == p == env2.p && env1.code == code && env2.code == Trimmed(code, kept)
    requires f in p.fns && |p.fns[f].params| == |args|
    ensures Started(env1, f, args) == Started(env2, f, args)
    ensures FrameTrims(p, code, kept, Started(env1, f, args), Started(env1, f, args))
  {
    BindAgrees(p.fns[f].params, args);
    StoredParams(p.fns[f].params, code[f].nodes);
    var s := Bind(p.fns[f].params, args);
    assert Trim(Only(kept[f]), s) == s;
  }

  /** The setting of one dispatched state in both machines. */
  ghost predicate Dispatched(p: Program, code: Code, kept: map<string, set<string>>, env1: Env, env2: Env, a: Frame,
                             b: Frame) {
    && Sufficient(p, code, kept) && env1.p == p == env2.p && env1.code == code && env2.code == Trimmed(code, kept)
    && env1.fuel == env2.fuel && FrameAgrees(p, code, kept, a, b) && a.node < |code[a.fn].nodes|
  }

  /** What is left of a state's reads once its own statements ran cannot be lost. */
  ghost predicate Leftover(p: Program, code: Code, kept: map<string, set<string>>, a: Frame, b: Frame,
                           except: set<string>)
    requires code.Keys == p.fns.Keys == kept.Keys && a.fn in code && a.node < |code[a.fn].nodes|
  {
    && except == LostIn(p, code, kept, a.fn) - DefinesAll(Statements(code[a.fn].nodes[a.node]))
    && Agree(a.locals, b.locals, except)
  }

  lemma SuspendDispatchTrims(p: Program, code: Code, kept: map<string, set<string>>, env1: Env, env2: Env, a: Frame,
                             b: Frame, outcome: Value, except: set<string>)
    requires Dispatched(p, code, kept, env1, env2, a, b) && Leftover(p, code, kept, a, b, except)
    requires code[a.fn].nodes[a.node].AwaitSuspend?
    ensures ActionAgrees(p, code, kept, Dispatch(env1, code[a.fn].nodes, a, outcome),
                         Dispatch(env2, code[a.fn].nodes, b, outcome))
  {
    hide LostIn, StoredNames, Pure, PureAll, RunResumed, CursorItem, CursorNext, OpenCursor, Started, Trimmed,
      CursorsNamed;
    var n := code[a.fn].nodes[a.node];
    StateNames(p, code, kept, a);
    if n.await.Await? {
      PureAllAgrees(n.await.operands, a.locals, b.locals, except);
      SuspendTrims(p, code, kept, env1, env2, a.(node := n.next), b.(node := n.next), n.await);
    }
  }

  lemma ResumeDispatchTrims(p: Program, code: Code, kept: map<string, set<string>>, env1: Env, env2: Env, a: Frame,
                            b: Frame, outcome: Value, except: set<string>)
    requires Dispatched(p, code, kept, env1, env2, a, b) && Leftover(p, code, kept, a, b, except)
    requires code[a.fn].nodes[a.node].AfterAwait?
    ensures ActionAgrees(p, code, kept, Dispatch(env1, code[a.fn].nodes, a, outcome),
                         Dispatch(env2, code[a.fn].nodes, b, outcome))
  {
    hide LostIn, StoredNames, Pure, PureAll, RunResumed, CursorItem, CursorNext, OpenCursor, Started, Trimmed,
      CursorsNamed;
    var n := code[a.fn].nodes[a.node];
    StateNames(p, code, kept, a);
    var lost := LostIn(p, code, kept, a.fn);
    ResumedTrims(n.resume, a.locals, b.locals, outcome, lost, StoredNames(p.fns[a.fn].params, code[a.fn].nodes));
    AwaitedKeepsCursors(a.slots, a.node, outcome, lost);
  }

  lemma MatchDispatchTrims(p: Program, code: Code, kept: map<string, set<string>>, env1: Env, env2: Env, a: Frame,
                           b: Frame, outcome: Value, except: set<string>)
    requires Dispatched(p, code, kept, env1, env2, a, b) && Leftover(p, code, kept, a, b, except)
    requires code[a.fn].nodes[a.node].MatchDispatch?
    ensures ActionAgrees(p, code, kept, Dispatch(env1, code[a.fn].nodes, a, outcome),
                         Dispatch(env2, code[a.fn].nodes, b, outcome))
  {
    hide LostIn, StoredNames, Pure, PureAll, RunResumed, CursorItem, CursorNext, OpenCursor, Started, Trimmed,
      CursorsNamed;
    var n := code[a.fn].nodes[a.node];
    StateNames(p, code, kept, a);
    PureAgrees(n.subject, a.locals, b.locals, except);
    match Pure(n.subject, a.locals) {
      case Some(Variant(tag, payload)) => SelectTrims(p, code, kept, n.cases, tag, payload, a, b);
      case _ =>
    }
  }

  lemma LoopDispatchTrims(p: Program, code: Code, kept: map<string, set<string>>, env1: Env, env2: Env, a: Frame,
                          b: Frame, outcome: Value, except: set<string>)
    requires Dispatched(p, code, kept, env1, env2, a, b) && Leftover(p, code, kept, a, b, except)
    requires var n := code[a.fn].nodes[a.node]; n.LoopInit? || n.LoopHeader? || n.LoopBackedge?
    ensures ActionAgrees(p, code, kept, Dispatch(env1, code[a.fn].nodes, a, outcome),
                         Dispatch(env2, code[a.fn].nodes, b, outcome))
  {
    hide LostIn, StoredNames, Pure, PureAll, RunResumed, CursorItem, CursorNext, OpenCursor, Started, Trimmed,
      CursorsNamed;
    var n := code[a.fn].nodes[a.node];
    StateNames(p, code, kept, a);
    if n.LoopHeader? {
      PureAgrees(n.cond, a.locals, b.locals, except);
    } else {
      var lost := LostIn(p, code, kept, a.fn);
      CountKeepsCursors(a.slots, n.next, if n.LoopInit? then 0 else CountAt(a.slots, n.next) + 1, lost);
    }
  }

  lemma OpenDispatchTrims(p: Program, code: Code, kept: map<string, set<string>>, env1: Env, env2: Env, a: Frame,
                          b: Frame,
                             outcome: Value, except: set<string>)
    requires Dispatched(p, code, kept, env1, env2, a, b) && Leftover(p, code, kept, a, b, except)
    requires code[a.fn].nodes[a.node].ForeachInit?
    ensures ActionAgrees(p, code, kept, Dispatch(env1, code[a.fn].nodes, a, outcome),
                         Dispatch(env2, code[a.fn].nodes, b, outcome))
  {
    hide LostIn, StoredNames, Pure, PureAll, RunResumed, CursorItem, CursorNext, OpenCursor, Started, Trimmed,
      CursorsNamed;
    var n := code[a.fn].nodes[a.node];
    StateNames(p, code, kept, a);
    var lost := LostIn(p, code, kept, a.fn);
    OpenAgrees(n.src, a.locals, b.locals, lost);
    if OpenCursor(n.src, a.locals).Some? {
      IterateKeepsCursors(a.slots, n.next, OpenCursor(n.src, a.locals).value, lost);
    }
  }

  lemma ContinueDispatchTrims(p: Program, code: Code, kept: map<string, set<string>>, env1: Env, env2: Env, a: Frame,
                              b: Frame, outcome: Value, except: set<string>)
    requires Dispatched(p, code, kept, env1, env2, a, b) && Leftover(p, code, kept, a, b, except)
    requires code[a.fn].nodes[a.node].ForeachContinue?
    ensures ActionAgrees(p, code, kept, Dispatch(env1, code[a.fn].nodes, a, outcome),
                         Dispatch(env2, code[a.fn].nodes, b, outcome))
  {
    hide LostIn, StoredNames, Pure, PureAll, RunResumed, CursorItem, CursorNext, OpenCursor, Started, Trimmed,
      CursorsNamed;
    var n := code[a.fn].nodes[a.node];
    StateNames(p, code, kept, a);
    var lost := LostIn(p, code, kept, a.fn);
    if n.next in a.slots && a.slots[n.next].Iterate? {
      NextKeepsName(a.slots[n.next].c);
      NamedAt(a.slots, n.next, lost);
      IterateKeepsCursors(a.slots, n.next, CursorNext(a.slots[n.next].c), lost);
    }
  }

  lemma ForeachDispatchTrims(p: Program, code: Code, kept: map<string, set<string>>, env1: Env, env2: Env, a: Frame,
                             b: Frame, outcome: Value, except: set<string>)
    requires Dispatched(p, code, kept, env1, env2, a, b) && Leftover(p, code, kept, a, b, except)
    requires code[a.fn].nodes[a.node].ForeachHeader?
    ensures ActionAgrees(p, code, kept, Dispatch(env1, code[a.fn].nodes, a, outcome),
                         Dispatch(env2, code[a.fn].nodes, b, outcome))
  {
    hide LostIn, StoredNames, Pure, PureAll, RunResumed, CursorItem, CursorNext, OpenCursor, Started, Trimmed,
      CursorsNamed;
    StateNames(p, code, kept, a);
    ItemTrims(p, code, kept, a, b);
  }

  lemma JumpDispatchTrims(p: Program, code: Code, kept: map<string, set<string>>, env1: Env, env2: Env, a: Frame,
                          b: Frame, outcome: Value, except: set<string>)
    requires Dispatched(p, code, kept, env1, env2, a, b) && Leftover(p, code, kept, a, b, except)
    requires var n := code[a.fn].nodes[a.node]; n.Complete? || n.BasicBlock? || n.Branch? || n.Join?
    ensures ActionAgrees(p, code, kept, Dispatch(env1, code[a.fn].nodes, a, outcome),
                         Dispatch(env2, code[a.fn].nodes, b, outcome))
  {
    hide LostIn, StoredNames, Pure, PureAll, RunResumed, CursorItem, CursorNext, OpenCursor, Started, Trimmed,
      CursorsNamed;
    var n := code[a.fn].nodes[a.node];
    StateNames(p, code, kept, a);
    if n.Branch? {
      PureAgrees(n.cond, a.locals, b.locals, except);
    }
  }

  lemma AwaitedKeepsCursors(slots: Slots, at: nat, v: Value, lost: set<string>)
    requires CursorsNamed(slots, lost)
    ensures CursorsNamed(slots[at := Awaited(v)], lost)
  {
  }

  lemma CountKeepsCursors(slots: Slots, at: nat, n: nat, lost: set<string>)
    requires CursorsNamed(slots, lost)
    ensures CursorsNamed(slots[at := Count(n)], lost)
  {
  }

  lemma IterateKeepsCursors(slots: Slots, at: nat, c: Cursor, lost: set<string>)
    requires CursorsNamed(slots, lost) && (Named(c) ==> c.variable !in lost)
    ensures CursorsNamed(slots[at := Iterate(c)], lost)
  {
  }

  lemma NamedAt(slots: Slots, at: nat, lost: set<string>)
    requires CursorsNamed(slots, lost) && at in slots && slots[at].Iterate?
    ensures Named(slots[at].c) ==> slots[at].c.variable !in lost
  {
  }

  lemma DispatchTrims(p: Program, code: Code, kept: map<string, set<string>>, env1: Env, env2: Env, a: Frame, b: Frame,
                      outcome: Value, except: set<string>)
    requires Dispatched(p, code, kept, env1, env2, a, b) && Leftover(p, code, kept, a, b, except)
    ensures ActionAgrees(p, code, kept, Dispatch(env1, code[a.fn].nodes, a, outcome),
                         Dispatch(env2, code[a.fn].nodes, b, outcome))
  {
    hide Dispatched, Leftover, ActionAgrees, Dispatch;
    assert a.fn in code && a.node < |code[a.fn].nodes| by { DispatchedNode(p, code, kept, env1, env2, a, b); }
    match code[a.fn].nodes[a.node]
    case AwaitSuspend(_, _, _) => SuspendDispatchTrims(p, code, kept, env1, env2, a, b, outcome, except);
    case AfterAwait(_, _, _) => ResumeDispatchTrims(p, code, kept, env1, env2, a, b, outcome, except);
    case MatchDispatch(_, _, _) => MatchDispatchTrims(p, code, kept, env1, env2, a, b, outcome, except);
    case LoopInit(_, _) => LoopDispatchTrims(p, code, kept, env1, env2, a, b, outcome, except);
    case LoopHeader(_, _, _, _, _) => LoopDispatchTrims(p, code, kept, env1, env2, a, b, outcome, except);
    case LoopBackedge(_) => LoopDispatchTrims(p, code, kept, env1, env2, a, b, outcome, except);
    case ForeachInit(_, _, _) => OpenDispatchTrims(p, code, kept, env1, env2, a, b, outcome, except);
    case ForeachHeader(_, _, _, _) => ForeachDispatchTrims(p, code, kept, env1, env2, a, b, outcome, except);
    case ForeachContinue(_) => ContinueDispatchTrims(p, code, kept, env1, env2, a, b, outcome, except);
    case _ => JumpDispatchTrims(p, code, kept, env1, env2, a, b, outcome, except);
  }

  lemma DispatchedNode(p: Program, code: Code, kept: map<string, set<string>>, env1: Env, env2: Env, a: Frame, b: Frame)
    requires Dispatched(p, code, kept, env1, env2, a, b)
    ensures a.fn in code && a.node < |code[a.fn].nodes|
  {
  }

  lemma NextKeepsName(c: Cursor)
    ensures Named(CursorNext(c)) <==> Named(c)
    ensures Named(c) ==> CursorNext(c).variable == c.variable
  {
  }

  lemma ItemTrims(p: Program, code: Code, kept: map<string, set<string>>, a: Frame, b: Frame)
    requires Sufficient(p, code, kept) && FrameAgrees(p, code, kept, a, b) && a.node < |code[a.fn].nodes|
    ensures a.node in a.slots && a.slots[a.node].Iterate? ==>
              && CursorItem(a.slots[a.node].c, a.locals) == CursorItem(a.slots[a.node].c, b.locals)
              && Dangles(a.slots[a.node].c, a.locals) == Dangles(a.slots[a.node].c, b.locals)
  {
    hide LostIn, StoredNames;
  }

  /** The names of a state, located among the stored and lost names of its function. */
  lemma StateNames(p: Program, code: Code, kept: map<string, set<string>>, a: Frame)
    requires Sufficient(p, code, kept) && a.fn in code && a.node < |code[a.fn].nodes|
    ensures var n := code[a.fn].nodes[a.node];
            && StateReads(n) !! LostIn(p, code, kept, a.fn)
            && StateDeclares(n) + StateBinds(n) <= StoredNames(p.fns[a.fn].params, code[a.fn].nodes)
  {
    StoredNamesHold(p.fns[a.fn].params, code[a.fn].nodes, a.node);
  }

  lemma SuspendTrims(p: Program, code: Code, kept: map<string, set<string>>, env1: Env, env2: Env, a: Frame, b: Frame,
                     call: Expr)
    requires Sufficient(p, code, kept) && env1.p == p == env2.p && env1.code == code && env2.code == Trimmed(code, kept)
    requires FrameAgrees(p, code, kept, a, b) && call.Await?
    requires PureAll(call.operands, a.locals) == PureAll(call.operands, b.locals)
    ensures ActionAgrees(p, code, kept, Suspend(env1, call, a), Suspend(env2, call, b))
  {
    hide PureAll, Started, LostIn, StoredNames;
    match PureAll(call.operands, a.locals)
    case None =>
    case Some(args) =>
      if call.callee in p.fns && |p.fns[call.callee].params| == |args| {
        StartedTrims(p, code, kept, env1, env2, call.callee, args);
      }
  }

  lemma DispatchKeepsFunction(env: Env, nodes: Nodes, f: Frame, outcome: Value)
    requires f.fn in env.p.fns && f.node < |nodes|
    ensures var a := Dispatch(env, nodes, f, outcome); (a.Goto? || a.Push? || a.Leave?) ==> a.f.fn == f.fn
  {
    hide Pure, PureAll, RunResumed, CursorItem, CursorNext, OpenCursor, Started;
    match nodes[f.node]
    case MatchDispatch(_, subject, cases) =>
      match Pure(subject, f.locals) {
        case Some(Variant(tag, payload)) => SelectKeepsFunction(cases, tag, payload, f);
        case _ =>
      }
    case _ =>
  }

  lemma {:induction false} SelectKeepsFunction(cases: seq<Case>, tag: string, payload: seq<Value>, f: Frame)
    ensures var a := Select(cases, tag, payload, f); a.Abort? || (a.Goto? && a.f.fn == f.fn)
  {
    if cases != [] {
      SelectKeepsFunction(cases[1..], tag, payload, f);
    }
  }

  lemma StepFrameTrims(p: Program, code: Code, kept: map<string, set<string>>, env1: Env, env2: Env, a: Frame, b: Frame,
                       outcome: Value)
    requires Sufficient(p, code, kept) && env1.p == p == env2.p && env1.code == code && env2.code == Trimmed(code, kept)
    requires env1.fuel == env2.fuel && FrameTrims(p, code, kept, a, b)
    ensures ActionTrims(p, code, kept, StepFrame(env1, a, outcome), StepFrame(env2, b, outcome))
  {
    hide Dispatch, RunOrdinary, LostIn, StoredNames, Agree, CursorsNamed, Trim;
    TrimAgrees(p, code, kept, a, b);
    if a.node < |code[a.fn].nodes| {
      var nodes := code[a.fn].nodes;
      var n := nodes[a.node];
      var lost := LostIn(p, code, kept, a.fn);
      StateNames(p, code, kept, a);
      ReadsOfStatements(n);
      OrdinaryTrims(p, Statements(n), a.locals, b.locals, env1.fuel, lost, StoredNames(p.fns[a.fn].params, nodes));
      var ra := RunOrdinary(p, Statements(n), a.locals, env1.fuel);
      var rb := RunOrdinary(p, Statements(n), b.locals, env1.fuel);
      var act, bct;
      if ra.Ran? {
        var a1, b1 := a.(locals := ra.s), b.(locals := rb.s);
        AgreeWeaker(ra.s, rb.s, lost - DefinesAll(Statements(n)), lost);
        DispatchTrims(p, code, kept, env1, env2, a1, b1, outcome, lost - DefinesAll(Statements(n)));
        act, bct := Dispatch(env1, nodes, a1, outcome), Dispatch(env2, nodes, b1, outcome);
        DispatchKeepsFunction(env1, nodes, a1, outcome);
      } else {
        act, bct := Interrupted(ra, a), Interrupted(rb, b);
      }
      ActionIsTrimmed(p, code, kept, a.fn, act, bct);
      assert Kept(All, act) == act by {
        assert forall s :: Trim(All, s) == s by { TrimAll(); }
      }
    }
  }

  lemma TrimAll()
    ensures forall s :: Trim(All, s) == s
  {
  }

  lemma AgreeWeaker(s: Store, t: Store, except: set<string>, more: set<string>)
    requires Agree(s, t, except) && except <= more
    ensures Agree(s, t, more)
  {
  }

  lemma ReadsOfStatements(n: Node)
    ensures ReadsAll(Statements(n)) <= StateReads(n)
  {
  }

  lemma StepTrims(p: Program, code: Code, kept: map<string, set<string>>, env1: Env, env2: Env, a: Machine, b: Machine)
    requires Sufficient(p, code, kept) && env1.p == p == env2.p && env1.code == code && env2.code == Trimmed(code, kept)
    requires env1.fuel == env2.fuel && MachineTrims(p, code, kept, a, b)
    ensures MachineTrims(p, code, kept, Step(env1, a), Step(env2, b))
  {
    hide StepFrame, FrameTrims, Covers;
    if a.Running? && a.frames != [] {
      StepFrameTrims(p, code, kept, env1, env2, a.frames[|a.frames| - 1], b.frames[|b.frames| - 1], a.outcome);
    }
  }

  lemma {:induction false} RunTrims(p: Program, code: Code, kept: map<string, set<string>>, env1: Env, env2: Env,
                                    a: Machine, b: Machine, n: nat)
    requires Sufficient(p, code, kept) && env1.p == p == env2.p && env1.code == code && env2.code == Trimmed(code, kept)
    requires env1.fuel == env2.fuel && MachineTrims(p, code, kept, a, b)
    ensures MachineTrims(p, code, kept, Run(env1, a, n), Run(env2, b, n))
    decreases n
  {
    hide Step, MachineTrims, Sufficient;
    if n > 0 {
      StepTrims(p, code, kept, env1, env2, a, b);
      RunTrims(p, code, kept, env1, env2, Step(env1, a), Step(env2, b), n - 1);
    }
  }

  /** Discarding what the frame does not hold changes no run. */
  lemma DiscardingPreservesRuns(p: Program, code: Code, kept: map<string, set<string>>, f: string, args: seq<Value>,
                                native: nat, n: nat, v: Value)
    requires Sufficient(p, code, kept) && f in p.fns && |p.fns[f].params| == |args|
    ensures var full, trimmed := Env(p, code, native), Env(p, Trimmed(code, kept), native);
            Run(full, Operation(full, f, args), n) == Completed(v) <==>
            Run(trimmed, Operation(trimmed, f, args), n) == Completed(v)
  {
    hide Step, FrameTrims, Started, Covers;
    var full, trimmed := Env(p, code, native), Env(p, Trimmed(code, kept), native);
    StartedTrims(p, code, kept, full, trimmed, f, args);
    RunTrims(p, code, kept, full, trimmed, Operation(full, f, args), Operation(trimmed, f, args), n);
  }
}
