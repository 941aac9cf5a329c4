/**
 The generated step function and the runtime stack of machine frames.

 One `Step` runs one dispatched state of the top frame.  `concept_async_step` runs such states until
 the frame suspends or finishes; see module `AsyncDriver`.
 */
module AsyncMachine {
  import opened Wrappers
  import opened AsyncSyntax
  import opened AsyncDirect
  import opened AsyncGraph
  import RangeCursor

  // ---------------------------------------------------------------------------------------------
  // Frames

  /**
   Iteration state kept in a frame: the range cursor, or an index into a copied or a named array.  A named array
   is held by its address in the storage of the frame itself (`NameAt`).  When the frame is moved the address
   stays what it was, in storage that is gone (`LostAt`).
   */
  datatype Cursor =
    | RangeAt(cursor: int, end: int, step: int, descending: bool)
    | CopyAt(elements: seq<Value>, index: nat)
    | NameAt(variable: string, index: nat)
    | LostAt(variable: string, index: nat)

  /** The generated fields of one node: loop counter, foreach cursor or await result. */
  datatype Slot = Count(n: nat) | Iterate(c: Cursor) | Awaited(v: Value)

  type Slots = map<nat, Slot>

  datatype Frame = Frame(fn: string, node: nat, locals: Store, slots: Slots)

  /** Which locals live in the frame; the others last for one dispatched state only. */
  datatype Keep = All | Only(names: set<string>)

  datatype Unit = Unit(entry: nat, nodes: Nodes, keep: Keep)

  type Code = map<string, Unit>

  /** `fuel` bounds the loops that run natively inside one state. */
  datatype Env = Env(p: Program, code: Code, fuel: nat)

  /** The graphs as the builder creates them, with every local in the frame. */
  function Created(p: Program): Code {
    map f | f in p.fns :: Unit(Normalize(p.fns[f].body).entry, Normalize(p.fns[f].body).nodes, All)
  }

  function Trim(keep: Keep, s: Store): Store {
    match keep
    case All => s
    case Only(names) => map x | x in s && x in names :: s[x]
  }

  datatype Machine =
    | Running(frames: seq<Frame>, outcome: Value)
    | Completed(result: Value)
    | Aborted
    | Stalled

  // ---------------------------------------------------------------------------------------------
  // Statements that run inside one state

  datatype NativeOut =
    | Ran(s: Store)
    | Finished(v: Value)
    | RawReturn(s: Store)
    | Panicked
    | OutOfFuel

  /**
   A `return` at the top of a node completes the operation.  A `return` any deeper was lowered as a
   plain C return, which leaves the step function with the operation unfinished.  (With a value it is not
   even valid in a void function, section 6.8.6.4 of C11; it is given the same meaning.)
   */
  function RunOrdinary(p: Program, b: seq<Stmt>, s: Store, fuel: nat): NativeOut {
    if b == [] then Ran(s)
    else if b[0].Return? then
      match b[0].result
      case None => Finished(Void)
      case Some(e) => (match Pure(e, s)
                       case Some(v) => Finished(v)
                       case None => Panicked)
    else
      match ExecStmt(p, b[0], s, CAPACITY, fuel)
      case Normal(s1) => RunOrdinary(p, b[1..], s1, fuel)
      case Ret(_, s1) => RawReturn(s1)
      case Fail => Panicked
      case Timeout => OutOfFuel
  }

  /** The statement that held the await, with the await replaced by its result. */
  function RunResumed(resume: Stmt, s: Store, awaited: Value): NativeOut {
    match SimpleExpr(resume)
    case None => Panicked
    case Some(e) =>
      match Pure(e, s[AWAITED := awaited])
      case None => Panicked
      case Some(v) =>
        if resume.Return? then Finished(v)
        else if resume.Do? then Ran(s)
        else if resume.Decl? || (resume.Assign? && resume.x in s) then Ran(s[resume.x := v])
        else Panicked
  }

  function OpenCursor(src: Source, s: Store): Option<Cursor> {
    match src
    case Range(_, _, _, descending) =>
      (match RangeBounds(src, s)
       case Some((a, b, c)) => Some(RangeAt(a, b, c, descending))
       case None => None)
    case Elements(Name(x)) => if ItemsOf(s, x).Some? then Some(NameAt(x, 0)) else None
    case Elements(e) =>
      (match Pure(e, s)
       case Some(Arr(items)) => Some(CopyAt(items, 0))
       case _ => None)
  }

  function CursorItem(c: Cursor, s: Store): Option<Value> {
    match c
    case RangeAt(cursor, end, _, descending) =>
      if RangeCursor.Before(cursor, end, descending) then Some(Int(cursor)) else None
    case CopyAt(elements, i) => if i < |elements| then Some(elements[i]) else None
    case NameAt(x, i) =>
      if ItemsOf(s, x).Some? && i < |ItemsOf(s, x).value| then Some(ItemsOf(s, x).value[i]) else None
    case LostAt(_, _) => None
  }

  /** The next element would be read through a lost address.  The end test needs none: the length is in the type. */
  predicate Dangles(c: Cursor, s: Store) {
    c.LostAt? && ItemsOf(s, c.variable).Some? && c.index < |ItemsOf(s, c.variable).value|
  }

  function CursorNext(c: Cursor): Cursor {
    match c
    case RangeAt(cursor, end, step, descending) =>
      RangeAt(RangeCursor.Advance(cursor, end, step, descending), end, step, descending)
    case CopyAt(elements, i) => CopyAt(elements, i + 1)
    case NameAt(x, i) => NameAt(x, i + 1)
    case LostAt(x, i) => LostAt(x, i + 1)
  }

  // ---------------------------------------------------------------------------------------------
  // One state of one frame

  datatype Action =
    | Goto(f: Frame)
    | Push(f: Frame, child: Frame)
    | Finish(v: Value)
    | Leave(f: Frame)
    | Abort
    | Stall

  function Statements(n: Node): seq<Stmt> {
    match n
    case BasicBlock(b, _) => b
    case AwaitSuspend(b, _, _) => b
    case Branch(b, _, _, _) => b
    case MatchDispatch(b, _, _) => b
    case LoopInit(b, _) => b
    case ForeachInit(b, _, _) => b
    case _ => []
  }

  function StepFrame(env: Env, f: Frame, outcome: Value): Action {
    if f.fn !in env.code || f.fn !in env.p.fns || f.node >= |env.code[f.fn].nodes| then Abort
    else
      var unit := env.code[f.fn];
      var r := RunOrdinary(env.p, Statements(unit.nodes[f.node]), f.locals, env.fuel);
      Kept(unit.keep, if r.Ran? then Dispatch(env, unit.nodes, f.(locals := r.s), outcome) else Interrupted(r, f))
  }

  function Interrupted(r: NativeOut, f: Frame): Action
    requires !r.Ran?
  {
    match r
    case Finished(v) => Finish(v)
    case RawReturn(s) => Leave(f.(locals := s))
    case Panicked => Abort
    case OutOfFuel => Stall
  }

  function Kept(keep: Keep, a: Action): Action {
    match a
    case Goto(f) => Goto(f.(locals := Trim(keep, f.locals)))
    case Push(f, child) => Push(f.(locals := Trim(keep, f.locals)), child)
    case Leave(f) => Leave(f.(locals := Trim(keep, f.locals)))
    case _ => a
  }

  predicate Bounded(nodes: Nodes, header: nat) {
    header < |nodes| && nodes[header].LoopHeader? && nodes[header].bound.Some?
  }

  function CountAt(slots: Slots, header: nat): nat {
    if header in slots && slots[header].Count? then slots[header].n else 0
  }

  /** What the state does after its own statements ran.  A read through a lost address has no meaning. */
  function Dispatch(env: Env, nodes: Nodes, f: Frame, outcome: Value): Action
    requires f.fn in env.p.fns && f.node < |nodes|
  {
    var at := f.node;
    match nodes[at]
    case Complete => if env.p.fns[f.fn].isVoid then Finish(Void) else Abort
    case BasicBlock(_, next) => Goto(f.(node := next))
    case AwaitSuspend(_, call, next) => Suspend(env, call, f.(node := next))
    case AfterAwait(_, resume, next) =>
      var r := RunResumed(resume, f.locals, outcome);
      if r.Ran? then Goto(f.(node := next, locals := r.s, slots := f.slots[at := Awaited(outcome)]))
      else Interrupted(r, f)
    case Branch(_, cond, onTrue, onFalse) =>
      (match Pure(cond, f.locals)
       case Some(Bool(b)) => Goto(f.(node := if b then onTrue else onFalse))
       case _ => Abort)
    case Join(_, next) => Goto(f.(node := next))
    case MatchDispatch(_, subject, cases) =>
      (match Pure(subject, f.locals)
       case Some(Variant(tag, payload)) => Select(cases, tag, payload, f)
       case _ => Abort)
    case LoopInit(_, next) =>
      Goto(f.(node := next, slots := if Bounded(nodes, next) then f.slots[next := Count(0)] else f.slots))
    case LoopHeader(cond, bound, onTrue, onFalse, exhausted) =>
      (match Pure(cond, f.locals)
       case Some(Bool(false)) => Goto(f.(node := onFalse))
       case Some(Bool(true)) =>
         if bound.Some? && CountAt(f.slots, at) >= bound.value then
           if exhausted.Some? then Goto(f.(node := exhausted.value))
           else if env.p.verify then Abort else Goto(f.(node := onFalse))
         else Goto(f.(node := onTrue))
       case _ => Abort)
    case LoopBackedge(next) =>
      Goto(f.(node := next,
              slots := if Bounded(nodes, next) then f.slots[next := Count(CountAt(f.slots, next) + 1)] else f.slots))
    case ForeachInit(_, src, next) =>
      (match OpenCursor(src, f.locals)
       case Some(c) => Goto(f.(node := next, slots := f.slots[next := Iterate(c)]))
       case None => Abort)
    case ForeachHeader(item, _, body, exit) =>
      if at in f.slots && f.slots[at].Iterate? && !Dangles(f.slots[at].c, f.locals) then
        match CursorItem(f.slots[at].c, f.locals)
        case Some(v) => Goto(f.(node := body, locals := f.locals[item := v]))
        case None => Goto(f.(node := exit))
      else Abort
    case ForeachContinue(next) =>
      if next in f.slots && f.slots[next].Iterate?
      then Goto(f.(node := next, slots := f.slots[next := Iterate(CursorNext(f.slots[next].c))]))
      else Abort
  }

  function Select(cases: seq<Case>, tag: string, payload: seq<Value>, f: Frame): Action {
    if cases == [] then Abort
    else if cases[0].tag == tag then
      if |cases[0].binds| == |payload|
      then Goto(f.(node := cases[0].target, locals := f.locals + Bind(cases[0].binds, payload)))
      else Abort
    else Select(cases[1..], tag, payload, f)
  }

  /** Evaluates the operands and pushes the initialised child frame; `f` is already at its resume state. */
  function Suspend(env: Env, call: Expr, f: Frame): Action {
    if !call.Await? then Abort
    else
      match PureAll(call.operands, f.locals)
      case None => Abort
      case Some(args) =>
        if call.callee !in env.p.fns || call.callee !in env.code || |env.p.fns[call.callee].params| != |args| then Abort
        else Push(f, Started(env, call.callee, args))
  }

  function Started(env: Env, fn: string, args: seq<Value>): Frame
    requires fn in env.p.fns && fn in env.code && |env.p.fns[fn].params| == |args|
  {
    Frame(fn, env.code[fn].entry, Bind(env.p.fns[fn].params, args), map[])
  }

  // ---------------------------------------------------------------------------------------------
  // The runtime stack

  /** `concept_async_finish`. */
  function Popped(below: seq<Frame>, v: Value): Machine {
    if below == [] then Completed(v) else Running(below, v)
  }

  /** The effect of the top frame's action on the stack above `below`. */
  function Perform(below: seq<Frame>, a: Action, outcome: Value): Machine {
    match a
    case Goto(f) => Running(below + [f], outcome)
    case Leave(f) => Running(below + [f], outcome)
    case Push(f, child) => if |below| + 1 >= CAPACITY then Aborted else Running(below + [f, child], outcome)
    case Finish(v) => Popped(below, v)
    case Abort => Aborted
    case Stall => Stalled
  }

  function Step(env: Env, m: Machine): Machine {
    if !m.Running? then m
    else if m.frames == [] then Aborted
    else Perform(m.frames[..|m.frames| - 1], StepFrame(env, m.frames[|m.frames| - 1], m.outcome), m.outcome)
  }

  function Run(env: Env, m: Machine, n: nat): Machine
    decreases n
  {
    if n == 0 then m else Run(env, Step(env, m), n - 1)
  }

  /** A freshly constructed operation. */
  function Operation(env: Env, fn: string, args: seq<Value>): Machine
    requires fn in env.p.fns && fn in env.code && |env.p.fns[fn].params| == |args|
  {
    Running([Started(env, fn, args)], Void)
  }
}
