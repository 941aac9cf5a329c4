/**
 Where cleanup is emitted.  The lowerer walks a function once with a map of live owners, and emits
 drops at the end of every scope, before every return and on every propagated failure.
 */
module OwnershipLowering {
  import opened Wrappers

  /**
   What an expression does to owners as it is evaluated.  `Propagate` tests the value of its operand and leaves
   the function on a failure; `Complete` is an operand put into a temporary ahead of what follows it.
   */
  datatype Effect = Move(x: string) | Propagate(operand: seq<Effect>) | Complete(operand: seq<Effect>)

  datatype Stmt =
    | Declare(x: string, owns: bool, init: seq<Effect>)
    | Do(es: seq<Effect>)
    | Return(es: seq<Effect>)
    | If(cond: seq<Effect>, thn: seq<Stmt>, hasElse: bool, els: seq<Stmt>)
    | Block(stmts: seq<Stmt>)

  /** C storage: a source name, or a generated one. */
  datatype CName = User(x: string) | Temp(n: nat)

  datatype Code =
    | Init(c: CName)
    | Take(c: CName)
    | Drop(c: CName)
    | Exit
    | IfFailed(cleanup: seq<Code>)
    | Branch(thn: seq<Code>, els: seq<Code>)

  datatype Binding = Binding(c: CName, owns: bool)

  type Scope = map<string, Binding>

  type Live = map<CName, bool>

  /** The lowerer's fields: scopes and owners innermost last. */
  datatype State = State(scopes: seq<Scope>, order: seq<seq<CName>>, live: Live, temps: nat)

  predicate IsLive(live: Live, c: CName) {
    c in live && live[c]
  }

  function Lookup(scopes: seq<Scope>, x: string): Option<Binding> {
    if scopes == [] then None
    else if x in scopes[|scopes| - 1] then Some(scopes[|scopes| - 1][x])
    else Lookup(scopes[..|scopes| - 1], x)
  }

  // ---------------------------------------------------------------------------------------------
  // Drops

  /** `lowerScopeDrops`: the live names of one scope, latest declared first. */
  function ScopeDrops(names: seq<CName>, live: Live): (r: (seq<Code>, Live))
    decreases |names|
  {
    if names == [] then ([], live)
    else
      var c := names[|names| - 1];
      if IsLive(live, c) then
        var (code, after) := ScopeDrops(names[..|names| - 1], live[c := false]);
        ([Drop(c)] + code, after)
      else ScopeDrops(names[..|names| - 1], live)
  }

  /** `lowerAllScopeDrops`: innermost scope first. */
  function AllDrops(order: seq<seq<CName>>, live: Live): (r: (seq<Code>, Live))
    decreases |order|
  {
    if order == [] then ([], live)
    else
      var (inner, l1) := ScopeDrops(order[|order| - 1], live);
      var (outer, l2) := AllDrops(order[..|order| - 1], l1);
      (inner + outer, l2)
  }

  // ---------------------------------------------------------------------------------------------
  // Scopes and names

  function Push(st: State): State {
    st.(scopes := st.scopes + [map[]], order := st.order + [[]])
  }

  function Without(live: Live, names: seq<CName>): Live {
    map c | c in live && c !in names :: live[c]
  }

  function Pop(st: State): State
    requires st.scopes != [] && st.order != []
  {
    State(st.scopes[..|st.scopes| - 1], st.order[..|st.order| - 1], Without(st.live, st.order[|st.order| - 1]),
          st.temps)
  }

  /** Some binding of these scopes already uses the storage name. */
  predicate Uses(scopes: seq<Scope>, c: CName) {
    exists i, x :: 0 <= i < |scopes| && x in scopes[i] && scopes[i][x].c == c
  }

  /** The storage `bindName` chooses. */
  function NameFor(st: State, x: string): CName
    requires st.scopes != []
  {
    var last := |st.scopes| - 1;
    if x in st.scopes[last] || Uses(st.scopes[..last], User(x)) then Temp(st.temps) else User(x)
  }

  function Bind(st: State, x: string, owns: bool): State
    requires st.scopes != [] && st.order != []
  {
    var last := |st.scopes| - 1;
    var c := NameFor(st, x);
    var bound := st.(scopes := st.scopes[last := st.scopes[last][x := Binding(c, owns)]],
                     temps := if c.Temp? then st.temps + 1 else st.temps);
    if owns then
      bound.(order := st.order[|st.order| - 1 := st.order[|st.order| - 1] + [c]], live := st.live[c := true])
    else bound
  }

  // ---------------------------------------------------------------------------------------------
  // Lowering

  /**
   Prelude, the owners that the value expression names and so hands over when it is evaluated, and the state.
   */
  datatype Lowered = Lowered(prelude: seq<Code>, pending: seq<CName>, st: State)

  function Takes(names: seq<CName>): seq<Code> {
    if names == [] then [] else [Take(names[0])] + Takes(names[1..])
  }

  /** An expression that is evaluated once its prelude has run. */
  function LowerEffects(st: State, es: seq<Effect>): (r: (seq<Code>, State))
    ensures r.1.scopes == st.scopes && r.1.order == st.order
    decreases es, 1
  {
    var low := LowerParts(st, es);
    (low.prelude + Takes(low.pending), low.st)
  }

  function LowerParts(st: State, es: seq<Effect>): (r: Lowered)
    ensures r.st.scopes == st.scopes && r.st.order == st.order
    decreases es, 0
  {
    if es == [] then Lowered([], [], st)
    else
      var first := LowerPart(st, es[0]);
      var rest := LowerParts(first.st, es[1..]);
      Lowered(first.prelude + rest.prelude, first.pending + rest.pending, rest.st)
  }

  /** A move names its owner and takes it for dead at once; the value is handed over later. */
  function LowerPart(st: State, e: Effect): (r: Lowered)
    ensures r.st.scopes == st.scopes && r.st.order == st.order
    decreases e
  {
    match e
    case Move(x) =>
      if MovesOwner(st.scopes, e) then
        var c := Lookup(st.scopes, x).value.c;
        Lowered([], [c], st.(live := st.live[c := false]))
      else Lowered([], [], st)
    case Propagate(operand) =>
      var (code, st1) := LowerEffects(st, operand);
      Lowered(code + [IfFailed(AllDrops(st1.order, st1.live).0 + [Exit])], [], st1)
    case Complete(operand) =>
      var (code, st1) := LowerEffects(st, operand);
      Lowered(code, [], st1)
  }

  predicate MovesOwner(scopes: seq<Scope>, e: Effect) {
    e.Move? && Lookup(scopes, e.x).Some? && Lookup(scopes, e.x).value.owns
  }

  /** `evt1BlockEndsInReturn`. */
  predicate EndsInReturn(b: seq<Stmt>) {
    b != [] && StmtReturns(b[|b| - 1])
  }

  predicate StmtReturns(s: Stmt) {
    match s
    case Return(_) => true
    case Block(b) => EndsInReturn(b)
    case If(_, t, h, f) => h && EndsInReturn(t) && EndsInReturn(f)
    case _ => false
  }

  /** The map after an `if` with two branches. */
  function Joined(thenReturns: bool, elseReturns: bool, thenLive: Live, elseLive: Live): Live {
    map c | c in elseLive ::
      if elseReturns && !thenReturns then IsLive(thenLive, c)
      else if !thenReturns then IsLive(thenLive, c) && elseLive[c]
      else elseLive[c]
  }

  /** The map after an `if` without `else`. */
  function JoinedOne(thenReturns: bool, before: Live, thenLive: Live): Live {
    if thenReturns then before
    else before + map c | c in thenLive :: thenLive[c] && IsLive(before, c)
  }

  predicate SameShape(a: State, b: State) {
    |a.scopes| == |b.scopes| && |a.order| == |b.order|
  }

  predicate Deep(st: State) {
    st.scopes != [] && |st.order| == |st.scopes|
  }

  function LowerStmt(st: State, s: Stmt): (r: (seq<Code>, State))
    requires Deep(st)
    ensures SameShape(r.1, st)
    decreases s, 1
  {
    match s
    case Declare(x, owns, es) =>
      var (code, st1) := LowerEffects(st, es);
      (code + (if owns then [Init(NameFor(st1, x))] else []), Bind(st1, x, owns))
    case Do(es) => LowerEffects(st, es)
    case Return(es) =>
      var (code, st1) := LowerEffects(st, es);
      var (drops, live) := AllDrops(st1.order, st1.live);
      (code + drops + [Exit], st1.(live := live))
    case Block(b) => LowerBlock(st, b)
    case If(_, t, h, f) =>
      var (cond, st1) := LowerEffects(st, s.cond);
      var (thn, st2) := LowerBlock(st1, t);
      if h then
        var (els, st3) := LowerBlock(st2.(live := st1.live), f);
        (cond + [Branch(thn, els)], st3.(live := Joined(EndsInReturn(t), EndsInReturn(f), st2.live, st3.live)))
      else (cond + [Branch(thn, [])], st2.(live := JoinedOne(EndsInReturn(t), st1.live, st2.live)))
  }

  function LowerAll(st: State, b: seq<Stmt>): (r: (seq<Code>, State))
    requires Deep(st)
    ensures SameShape(r.1, st)
    decreases b, 0
  {
    if b == [] then ([], st)
    else
      var (first, st1) := LowerStmt(st, b[0]);
      var (rest, st2) := LowerAll(st1, b[1..]);
      (first + rest, st2)
  }

  /** `lowerBlock`. */
  function LowerBlock(st: State, b: seq<Stmt>): (r: (seq<Code>, State))
    requires Deep(st)
    ensures SameShape(r.1, st)
    decreases b, 1
  {
    var (code, st1) := LowerAll(Push(st), b);
    var (drops, live) := ScopeDrops(st1.order[|st1.order| - 1], st1.live);
    (code + drops, Pop(st1.(live := live)))
  }

  // ---------------------------------------------------------------------------------------------
  // Functions

  datatype Param = Param(x: string, owns: bool)

  function ParamScope(params: seq<Param>): Scope {
    if params == [] then map[]
    else
      var last := params[|params| - 1];
      ParamScope(params[..|params| - 1])[last.x := Binding(User(last.x), last.owns)]
  }

  function OwnedParams(params: seq<Param>): seq<CName> {
    if params == [] then []
    else
      var last := params[|params| - 1];
      OwnedParams(params[..|params| - 1]) + (if last.owns then [User(last.x)] else [])
  }

  function StartState(params: seq<Param>): State {
    State([ParamScope(params)], [OwnedParams(params)], map c | c in OwnedParams(params) :: true, 0)
  }

  /** The body of a function, followed by the drops of its parameters. */
  function LowerFunction(params: seq<Param>, body: seq<Stmt>): seq<Code> {
    var (code, st) := LowerBlock(StartState(params), body);
    code + ScopeDrops(st.order[0], st.live).0
  }

  // ---------------------------------------------------------------------------------------------
  // Names

  /** The names a block declares itself, in order. */
  function Declared(b: seq<Stmt>): seq<string> {
    if b == [] then []
    else (if b[0].Declare? then [b[0].x] else []) + Declared(b[1..])
  }

  predicate NoRepeats(names: seq<string>) {
    names == [] || (names[0] !in names[1..] && NoRepeats(names[1..]))
  }

  /** No scope declares a name twice. */
  predicate Unrepeated(b: seq<Stmt>)
    decreases b, 1
  {
    NoRepeats(Declared(b)) && InnerUnrepeated(b)
  }

  predicate InnerUnrepeated(b: seq<Stmt>)
    decreases b, 0
  {
    b == [] || (StmtUnrepeated(b[0]) && InnerUnrepeated(b[1..]))
  }

  predicate StmtUnrepeated(s: Stmt)
    decreases s
  {
    match s
    case If(_, t, h, f) => Unrepeated(t) && (h ==> Unrepeated(f))
    case Block(b) => Unrepeated(b)
    case _ => true
  }

  function ParamNames(params: seq<Param>): seq<string> {
    if params == [] then [] else ParamNames(params[..|params| - 1]) + [params[|params| - 1].x]
  }

  // ---------------------------------------------------------------------------------------------
  // Running the emitted code

  /** How a run ends, with the storage still owned, earliest initialised first. */
  datatype End = Fell(owned: seq<CName>, choices: seq<bool>) | Exited(owned: seq<CName>) | Wrong(c: CName)

  function Head(choices: seq<bool>): bool { choices != [] && choices[0] }

  function Tail(choices: seq<bool>): seq<bool> { if choices == [] then [] else choices[1..] }

  /** Without the latest occurrence of `c`. */
  function Released(owned: seq<CName>, c: CName): seq<CName> {
    if owned == [] then []
    else if owned[|owned| - 1] == c then owned[..|owned| - 1]
    else Released(owned[..|owned| - 1], c) + [owned[|owned| - 1]]
  }

  /**
   `choices` decides each branch and whether each fallible value failed.  An owner stays owned until the value
   that names it is handed over (`Take`).  Dropping storage that is not
   owned is wrong.  In the strict reading it is also wrong to drop anything but the storage initialised
   last among what is owned, and to move storage that is not owned.
   */
  function Exec(strict: bool, code: seq<Code>, owned: seq<CName>, choices: seq<bool>): End {
    if code == [] then Fell(owned, choices)
    else
      match ExecOne(strict, code[0], owned, choices)
      case Fell(o, cs) => Exec(strict, code[1..], o, cs)
      case end => end
  }

  function ExecOne(strict: bool, c: Code, owned: seq<CName>, choices: seq<bool>): End {
    match c
    case Init(x) => Fell(owned + [x], choices)
    case Take(x) => if strict && x !in owned then Wrong(x) else Fell(Released(owned, x), choices)
    case Drop(x) =>
      if x !in owned || (strict && owned[|owned| - 1] != x) then Wrong(x) else Fell(Released(owned, x), choices)
    case Exit => Exited(owned)
    case IfFailed(cleanup) =>
      if Head(choices) then Exec(strict, cleanup, owned, Tail(choices)) else Fell(owned, Tail(choices))
    case Branch(t, f) =>
      if Head(choices) then Exec(strict, t, owned, Tail(choices)) else Exec(strict, f, owned, Tail(choices))
  }
}
