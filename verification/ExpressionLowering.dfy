/**
 Lowering of pure expressions to a statement prelude and a C value.  Bounds checks live in the prelude,
 so the prelude of a guarded operand must run only when the guard lets the operand run.
 */
module ExpressionLowering {
  import opened Wrappers

  /** A string value is the address of its text, as `const char*` is. */
  datatype Value = Int(n: int) | Bool(b: bool) | Str(at: int)

  datatype Op = Less | LessEq | Same

  datatype Expr =
    | Lit(v: Value)
    | Var(x: string)
    | Not(e: Expr)
    | Compare(op: Op, l: Expr, r: Expr)
    | And(l: Expr, r: Expr)
    | Or(l: Expr, r: Expr)
    | IfExpr(c: Expr, t: Expr, f: Expr)
    | At(base: Expr, index: Expr, signed: bool, site: nat)

  /** Values of the variables, and the text at each address. */
  datatype Store = Store(vars: map<string, Value>, texts: map<int, seq<int>>)

  /** The language compares the texts of strings; the emitted `==` compares their addresses. */
  datatype Equality = Texts | Addresses

  /** `Stuck` marks an ill-typed expression, which type checking rejects. */
  datatype Outcome = Val(v: Value) | Panic(site: nat) | Stuck

  const TWO63: int := 0x8000_0000_0000_0000
  const TWO64: int := 0x1_0000_0000_0000_0000

  predicate InType(signed: bool, n: int) {
    if signed then -TWO63 <= n < TWO63 else 0 <= n < TWO64
  }

  function Compared(op: Op, a: Value, b: Value, s: Store, eq: Equality): Option<Value> {
    match op
    case Same =>
      if a.Str? && b.Str? && eq.Texts? then
        if a.at in s.texts && b.at in s.texts then Some(Bool(s.texts[a.at] == s.texts[b.at])) else None
      else if a.Int? == b.Int? && a.Bool? == b.Bool? then Some(Bool(a == b))
      else None
    case Less => if a.Int? && b.Int? then Some(Bool(a.n < b.n)) else None
    case LessEq => if a.Int? && b.Int? then Some(Bool(a.n <= b.n)) else None
  }

  // ---------------------------------------------------------------------------------------------
  // The source meaning: left to right, with short circuits

  function Eval(e: Expr, s: Store, eq: Equality): Outcome {
    match e
    case Lit(v) => Val(v)
    case Var(x) => if x in s.vars then Val(s.vars[x]) else Stuck
    case Not(x) =>
      (match Eval(x, s, eq)
       case Val(v) => if v.Bool? then Val(Bool(!v.b)) else Stuck
       case o => o)
    case Compare(op, l, r) =>
      (match Eval(l, s, eq)
       case Val(a) =>
         (match Eval(r, s, eq)
          case Val(b) => (match Compared(op, a, b, s, eq) case Some(v) => Val(v) case None => Stuck)
          case o => o)
       case o => o)
    case And(l, r) =>
      (match Eval(l, s, eq)
       case Val(a) => if a == Bool(false) then Val(a) else if a == Bool(true) then Boolean(Eval(r, s, eq)) else Stuck
       case o => o)
    case Or(l, r) =>
      (match Eval(l, s, eq)
       case Val(a) => if a == Bool(true) then Val(a) else if a == Bool(false) then Boolean(Eval(r, s, eq)) else Stuck
       case o => o)
    case IfExpr(c, t, f) =>
      (match Eval(c, s, eq)
       case Val(a) => if a == Bool(true) then Eval(t, s, eq) else if a == Bool(false) then Eval(f, s, eq) else Stuck
       case o => o)
    case At(base, index, signed, site) =>
      (match Eval(base, s, eq)
       case Val(a) =>
         (match Eval(index, s, eq)
          case Val(i) => Element(a, i, signed, site, s)
          case o => o)
       case o => o)
  }

  function Boolean(o: Outcome): Outcome {
    if o.Val? && !o.v.Bool? then Stuck else o
  }

  /** A byte of a string, or a panic when the index is out of bounds. */
  function Element(a: Value, i: Value, signed: bool, site: nat, s: Store): Outcome {
    if !a.Str? || a.at !in s.texts || !i.Int? || !InType(signed, i.n) || |s.texts[a.at]| >= TWO63 then Stuck
    else if 0 <= i.n < |s.texts[a.at]| then Val(Int(s.texts[a.at][i.n])) else Panic(site)
  }

  // ---------------------------------------------------------------------------------------------
  // C

  datatype CExpr =
    | CLit(v: Value)
    | CVar(x: string)
    | CTemp(t: nat)
    | CNot(e: CExpr)
    | CCompare(op: Op, l: CExpr, r: CExpr)
    | CAnd(l: CExpr, r: CExpr)
    | COr(l: CExpr, r: CExpr)
    | CByte(base: nat, index: nat)

  datatype CStmt =
    | Declare(t: nat, e: CExpr)
    | Uninitialised(t: nat)
    | Set(t: nat, e: CExpr)
    | When(cond: CExpr, body: seq<CStmt>)
    | Choose(cond: CExpr, thn: seq<CStmt>, els: seq<CStmt>)
    | Guard(index: nat, base: nat, signed: bool, site: nat)

  /** Declared temporaries; one without a value yet maps to `None`. */
  type Temps = map<nat, Option<Value>>

  function Read(ts: Temps, t: nat): Option<Value> {
    if t in ts then ts[t] else None
  }

  /** The relational and equality operators (C11, sections 6.5.8 and 6.5.9); pointers are equal at one address. */
  function CCompared(op: Op, a: Value, b: Value): Option<Value> {
    match (op, a, b)
    case (Less, Int(m), Int(n)) => Some(Bool(m < n))
    case (LessEq, Int(m), Int(n)) => Some(Bool(m < n || m == n))
    case (Same, Int(m), Int(n)) => Some(Bool(m == n))
    case (Same, Bool(m), Bool(n)) => Some(Bool(m == n))
    case (Same, Str(m), Str(n)) => Some(Bool(m == n))
    case _ => None
  }

  /** `None` is undefined behaviour: an unknown or unset temporary, a type error, or a byte outside the string. */
  function CEval(e: CExpr, s: Store, ts: Temps): Option<Value> {
    match e
    case CLit(v) => Some(v)
    case CVar(x) => if x in s.vars then Some(s.vars[x]) else None
    case CTemp(t) => Read(ts, t)
    case CNot(x) =>
      (match CEval(x, s, ts)
       case Some(v) => if v.Bool? then Some(Bool(!v.b)) else None
       case None => None)
    case CCompare(op, l, r) =>
      (match (CEval(l, s, ts), CEval(r, s, ts))
       case (Some(a), Some(b)) => CCompared(op, a, b)
       case _ => None)
    case CAnd(l, r) =>
      (match CEval(l, s, ts)
       case Some(a) => if a == Bool(false) then Some(a) else if a == Bool(true) then CEval(r, s, ts) else None
       case None => None)
    case COr(l, r) =>
      (match CEval(l, s, ts)
       case Some(a) => if a == Bool(true) then Some(a) else if a == Bool(false) then CEval(r, s, ts) else None
       case None => None)
    case CByte(base, index) =>
      (match (Read(ts, base), Read(ts, index))
       case (Some(a), Some(i)) =>
         if a.Str? && a.at in s.texts && i.Int? && 0 <= i.n < |s.texts[a.at]| then Some(Int(s.texts[a.at][i.n]))
         else None
       case _ => None)
  }

  /** A cast to `uint64_t` (C11, section 6.3.1.3). */
  function ToU64(n: int): int { n % TWO64 }

  /** `evt1IndexGuard`. */
  predicate GuardHolds(index: int, extent: nat, signed: bool) {
    (signed && index < 0) || ToU64(index) >= ToU64(extent)
  }

  datatype CEnd = Done(ts: Temps) | Panicked(site: nat) | Undefined

  /** Temporaries declared in a block end with it. */
  function Leave(outer: Temps, inner: Temps): Temps {
    map t | t in outer && t in inner :: inner[t]
  }

  function Run(code: seq<CStmt>, s: Store, ts: Temps): CEnd
    decreases code, 0
  {
    if code == [] then Done(ts)
    else
      match RunOne(code[0], s, ts)
      case Done(ts1) => Run(code[1..], s, ts1)
      case end => end
  }

  function RunBlock(code: seq<CStmt>, s: Store, ts: Temps): CEnd
    decreases code, 1
  {
    match Run(code, s, ts)
    case Done(inner) => Done(Leave(ts, inner))
    case end => end
  }

  function RunOne(c: CStmt, s: Store, ts: Temps): CEnd
    decreases c, 0
  {
    match c
    case Declare(t, e) => (match CEval(e, s, ts) case Some(v) => Done(ts[t := Some(v)]) case None => Undefined)
    case Uninitialised(t) => Done(ts[t := None])
    case Set(t, e) =>
      (match CEval(e, s, ts)
       case Some(v) => if t in ts then Done(ts[t := Some(v)]) else Undefined
       case None => Undefined)
    case When(cond, body) =>
      (match CEval(cond, s, ts)
       case Some(v) =>
         if v == Bool(true) then RunBlock(body, s, ts) else if v == Bool(false) then Done(ts) else Undefined
       case None => Undefined)
    case Choose(cond, thn, els) =>
      (match CEval(cond, s, ts)
       case Some(v) =>
         if v == Bool(true) then RunBlock(thn, s, ts) else if v == Bool(false) then RunBlock(els, s, ts) else Undefined
       case None => Undefined)
    case Guard(index, base, signed, site) =>
      (match (Read(ts, index), Read(ts, base))
       case (Some(i), Some(a)) =>
         if !i.Int? || !a.Str? || a.at !in s.texts then Undefined
         else if GuardHolds(i.n, |s.texts[a.at]|, signed) then Panicked(site)
         else Done(ts)
       case _ => Undefined)
  }

  // ---------------------------------------------------------------------------------------------
  // Lowering

  /** `expressionMayBranch`, which does not look into an index. */
  predicate MayBranch(e: Expr) {
    match e
    case And(_, _) => true
    case Or(_, _) => true
    case IfExpr(_, _, _) => true
    case Not(x) => MayBranch(x)
    case Compare(_, l, r) => MayBranch(l) || MayBranch(r)
    case _ => false
  }

  /** Prelude, value, and the number of the next temporary. */
  datatype Lowered = Lowered(prelude: seq<CStmt>, value: CExpr, next: nat)

  function Lower(e: Expr, n: nat): (r: Lowered)
    ensures r.next >= n
  {
    match e
    case Lit(v) => Lowered([], CLit(v), n)
    case Var(x) => Lowered([], CVar(x), n)
    case Not(x) =>
      var a := Lower(x, n);
      Lowered(a.prelude, CNot(a.value), a.next)
    case Compare(op, l, r) =>
      var a := Lower(l, n);
      var b := Lower(r, a.next);
      if MayBranch(l) || MayBranch(r) then
        Lowered(a.prelude + [Declare(b.next, a.value)] + (b.prelude + [Declare(b.next + 1, b.value)]),
                CCompare(op, CTemp(b.next), CTemp(b.next + 1)), b.next + 2)
      else Lowered(a.prelude + b.prelude, CCompare(op, a.value, b.value), b.next)
    case And(l, r) => ShortCircuit(Lower(l, n), Lower(r, Lower(l, n).next), true)
    case Or(l, r) => ShortCircuit(Lower(l, n), Lower(r, Lower(l, n).next), false)
    case IfExpr(c, t, f) =>
      var a := Lower(c, n);
      var k := a.next;
      var b := Lower(t, k + 1);
      var d := Lower(f, b.next);
      Lowered(a.prelude + [Uninitialised(k),
                           Choose(a.value, b.prelude + [Set(k, b.value)], d.prelude + [Set(k, d.value)])],
              CTemp(k), d.next)
    case At(base, index, signed, site) =>
      var a := Lower(base, n);
      var b := Lower(index, a.next);
      Lowered(a.prelude + b.prelude + [Declare(b.next, a.value), Declare(b.next + 1, b.value),
                                       Guard(b.next + 1, b.next, signed, site)],
              CByte(b.next, b.next + 1), b.next + 2)
  }

  /** Without a right prelude the C operator does; otherwise the right operand runs under the left value. */
  function ShortCircuit(a: Lowered, b: Lowered, isAnd: bool): (r: Lowered)
    ensures r.next >= b.next
  {
    if b.prelude == [] then Lowered(a.prelude, if isAnd then CAnd(a.value, b.value) else COr(a.value, b.value), b.next)
    else
      var t := b.next;
      Lowered(a.prelude + [Declare(t, a.value),
                           When(if isAnd then CTemp(t) else CNot(CTemp(t)), b.prelude + [Set(t, b.value)])],
              CTemp(t), t + 1)
  }

  // ---------------------------------------------------------------------------------------------
  // The guard

  /** The guard is true exactly when the index is out of bounds. */
  lemma GuardIsExact(index: int, extent: nat, signed: bool)
    requires InType(signed, index) && extent < TWO63
    ensures GuardHolds(index, extent, signed) <==> !(0 <= index < extent)
  {
    assert ToU64(extent) == extent;
    if index >= 0 {
      assert ToU64(index) == index;
    }
  }

  // ---------------------------------------------------------------------------------------------
  // Correctness

  lemma {:induction false} RunJoin(a: seq<CStmt>, b: seq<CStmt>, s: Store, ts: Temps)
    ensures Run(a + b, s, ts) ==
            match Run(a, s, ts)
            case Done(ts1) => Run(b, s, ts1)
            case end => end
    decreases a
  {
    if a == [] {
      assert a + b == b;
    } else {
      assert (a + b)[0] == a[0] && (a + b)[1..] == a[1..] + b;
      var first := RunOne(a[0], s, ts);
      if first.Done? {
        RunJoin(a[1..], b, s, first.ts);
      }
    }
  }

  lemma RunSingle(c: CStmt, s: Store, ts: Temps)
    ensures Run([c], s, ts) == RunOne(c, s, ts)
  {
    assert [c][1..] == [];
  }

  /** No temporary is numbered from `lo` up to `hi`. */
  predicate Free(ts: Temps, lo: nat, hi: nat) {
    forall t :: t in ts ==> !(lo <= t < hi)
  }

  /** `b` has what `a` has, and otherwise only temporaries numbered from `lo` up to `hi`. */
  predicate Grows(a: Temps, b: Temps, lo: nat, hi: nat) {
    Extends(a, b) && forall t :: t in b && t !in a ==> lo <= t < hi
  }

  /** `b` has the temporaries of `a` and more. */
  predicate Extends(a: Temps, b: Temps) {
    forall t :: t in a ==> t in b && b[t] == a[t]
  }

  lemma {:induction false} ValueStays(e: CExpr, s: Store, a: Temps, b: Temps)
    requires Extends(a, b) && CEval(e, s, a).Some?
    ensures CEval(e, s, b) == CEval(e, s, a)
  {
    match e
    case CNot(x) => ValueStays(x, s, a, b);
    case CCompare(_, l, r) => ValueStays(l, s, a, b); ValueStays(r, s, a, b);
    case CAnd(l, r) =>
      ValueStays(l, s, a, b);
      if CEval(l, s, a) == Some(Bool(true)) {
        ValueStays(r, s, a, b);
      }
    case COr(l, r) =>
      ValueStays(l, s, a, b);
      if CEval(l, s, a) == Some(Bool(false)) {
        ValueStays(r, s, a, b);
      }
    case _ =>
  }

  /** Running the prelude and then reading the value does what the source expression does. */
  ghost predicate Matches(o: Outcome, low: Lowered, n: nat, s: Store, ts: Temps) {
    match o
    case Val(v) =>
      && Run(low.prelude, s, ts).Done?
      && var after := Run(low.prelude, s, ts).ts;
         CEval(low.value, s, after) == Some(v) && Grows(ts, after, n, low.next)
    case Panic(site) => Run(low.prelude, s, ts) == Panicked(site)
    case Stuck => true
  }

  /** The code follows the evaluation that compares strings by address. */
  lemma {:induction false} LoweringFollowsAddresses(e: Expr, n: nat, s: Store, ts: Temps)
    requires Free(ts, n, Lower(e, n).next)
    ensures Matches(Eval(e, s, Addresses), Lower(e, n), n, s, ts)
    decreases e, 1
  {
    match e
    case Lit(_) =>
    case Var(_) =>
    case Not(x) => LoweringFollowsAddresses(x, n, s, ts);
    case Compare(_, _, _) => CompareIsCorrect(e, n, s, ts);
    case And(_, _) => ShortCircuitIsCorrect(e, n, s, ts);
    case Or(_, _) => ShortCircuitIsCorrect(e, n, s, ts);
    case IfExpr(_, _, _) => IfIsCorrect(e, n, s, ts);
    case At(_, _, _, _) => AtIsCorrect(e, n, s, ts);
  }

  lemma GrowsTwice(a: Temps, b: Temps, c: Temps, lo: nat, mid: nat, hi: nat)
    requires Grows(a, b, lo, mid) && Grows(b, c, mid, hi) && lo <= mid <= hi
    ensures Grows(a, c, lo, hi)
  {
  }

  lemma FreeAfter(a: Temps, b: Temps, lo: nat, mid: nat, hi: nat)
    requires Free(a, lo, hi) && Grows(a, b, lo, mid) && lo <= mid <= hi
    ensures Free(b, mid, hi)
  {
  }

  /** Declaring a temporary that is free. */
  lemma DeclareRuns(ts: Temps, t: nat, e: CExpr, v: Value, s: Store)
    requires t !in ts && CEval(e, s, ts) == Some(v)
    ensures Run([Declare(t, e)], s, ts) == Done(ts[t := Some(v)]) && Extends(ts, ts[t := Some(v)])
  {
    RunSingle(Declare(t, e), s, ts);
  }

  lemma {:induction false} CompareIsCorrect(e: Expr, n: nat, s: Store, ts: Temps)
    requires e.Compare? && Free(ts, n, Lower(e, n).next)
    ensures Matches(Eval(e, s, Addresses), Lower(e, n), n, s, ts)
    decreases e, 0
  {
    hide Run, RunOne;
    var a := Lower(e.l, n);
    var b := Lower(e.r, a.next);
    LoweringFollowsAddresses(e.l, n, s, ts);
    var branches := MayBranch(e.l) || MayBranch(e.r);
    var second :=
      if branches then [Declare(b.next, a.value)] + (b.prelude + [Declare(b.next + 1, b.value)]) else b.prelude;
    RunJoin(a.prelude, second, s, ts);
    assert branches ==> a.prelude + [Declare(b.next, a.value)] + (b.prelude + [Declare(b.next + 1, b.value)]) ==
                        a.prelude + second;
    if Eval(e.l, s, Addresses).Val? {
      var mid := Run(a.prelude, s, ts).ts;
      var x := Eval(e.l, s, Addresses).v;
      FreeAfter(ts, mid, n, a.next, Lower(e, n).next);
      if branches {
        FreeWithHeld(mid, a.next, b.next, b.next + 2, x);
        LoweringFollowsAddresses(e.r, a.next, s, mid[b.next := Some(x)]);
        var end := TwoTempsRun(e.op, a.value, b, a.next, s, mid, x, Eval(e.r, s, Addresses));
        if Eval(e.r, s, Addresses).Val? {
          GrowsTwice(ts, mid, end, n, a.next, b.next + 2);
        }
      } else {
        LoweringFollowsAddresses(e.r, a.next, s, mid);
        if Eval(e.r, s, Addresses).Val? {
          var end := Run(b.prelude, s, mid).ts;
          ValueStays(a.value, s, mid, end);
          GrowsTwice(ts, mid, end, n, a.next, b.next);
        }
      }
    }
  }

  /** Each operand is completed into a temporary before the next one starts. */
  lemma TwoTempsRun(op: Op, l: CExpr, b: Lowered, lo: nat, s: Store, mid: Temps, x: Value,
                    right: Outcome) returns (end: Temps)
    requires lo <= b.next && Free(mid, lo, b.next + 2) && CEval(l, s, mid) == Some(x)
    requires Matches(right, b, lo, s, mid[b.next := Some(x)])
    ensures var code := [Declare(b.next, l)] + (b.prelude + [Declare(b.next + 1, b.value)]);
            && (right.Panic? ==> Run(code, s, mid) == Panicked(right.site))
            && (right.Val? ==>
                  && Run(code, s, mid) == Done(end) && Grows(mid, end, lo, b.next + 2)
                  && CEval(CCompare(op, CTemp(b.next), CTemp(b.next + 1)), s, end) ==
                     CCompared(op, x, right.v))
  {
    hide Run, RunOne;
    var first, last := Declare(b.next, l), Declare(b.next + 1, b.value);
    DeclareRuns(mid, b.next, l, x, s);
    var held := mid[b.next := Some(x)];
    RunJoin([first], b.prelude + [last], s, mid);
    RunJoin(b.prelude, [last], s, held);
    end := held;
    if right.Val? {
      var after := Run(b.prelude, s, held).ts;
      DeclareRuns(after, b.next + 1, b.value, right.v, s);
      end := after[b.next + 1 := Some(right.v)];
      assert Read(end, b.next) == Some(x) && Read(end, b.next + 1) == Some(right.v);
    }
  }

  /** An operand's temporaries are free whatever the other one holds. */
  lemma FreeWithHeld(mid: Temps, lo: nat, t: nat, hi: nat, x: Value)
    requires Free(mid, lo, hi) && lo <= t < hi
    ensures Free(mid[t := Some(x)], lo, t)
  {
  }

  /** A block over what is declared: its own temporaries end with it, an assigned one keeps its value. */
  lemma BlockSets(body: seq<CStmt>, t: nat, value: CExpr, v: Value, s: Store, ts: Temps, lo: nat, hi: nat)
    requires t in ts && !(lo <= t < hi) && Run(body, s, ts).Done?
    requires Grows(ts, Run(body, s, ts).ts, lo, hi) && CEval(value, s, Run(body, s, ts).ts) == Some(v)
    ensures RunBlock(body + [Set(t, value)], s, ts) == Done(ts[t := Some(v)])
  {
    RunJoin(body, [Set(t, value)], s, ts);
    var inner := Run(body, s, ts).ts;
    RunSingle(Set(t, value), s, inner);
    assert Leave(ts, inner[t := Some(v)]) == ts[t := Some(v)];
  }

  lemma BlockPanics(body: seq<CStmt>, last: CStmt, site: nat, s: Store, ts: Temps)
    requires Run(body, s, ts) == Panicked(site)
    ensures RunBlock(body + [last], s, ts) == Panicked(site)
  {
    RunJoin(body, [last], s, ts);
  }

  lemma LowerLogic(e: Expr, n: nat)
    requires e.And? || e.Or?
    ensures Lower(e, n) == ShortCircuit(Lower(e.l, n), Lower(e.r, Lower(e.l, n).next), e.And?)
  {
  }

  lemma EvalLogic(e: Expr, s: Store)
    requires e.And? || e.Or?
    ensures Eval(e, s, Addresses) ==
            match Eval(e.l, s, Addresses)
            case Val(a) =>
              if a == Bool(!e.And?) then Val(a)
              else if a == Bool(e.And?) then Boolean(Eval(e.r, s, Addresses))
              else Stuck
            case o => o
  {
  }

  lemma {:induction false} ShortCircuitIsCorrect(e: Expr, n: nat, s: Store, ts: Temps)
    requires (e.And? || e.Or?) && Free(ts, n, Lower(e, n).next)
    ensures Matches(Eval(e, s, Addresses), Lower(e, n), n, s, ts)
    decreases e, 0
  {
    hide Run, RunOne, RunBlock, Lower, Eval;
    LowerLogic(e, n);
    EvalLogic(e, s);
    var a := Lower(e.l, n);
    var b := Lower(e.r, a.next);
    LoweringFollowsAddresses(e.l, n, s, ts);
    if b.prelude == [] {
      if Eval(e.l, s, Addresses).Val? {
        var mid := Run(a.prelude, s, ts).ts;
        FreeAfter(ts, mid, n, a.next, b.next);
        LoweringFollowsAddresses(e.r, a.next, s, mid);
        assert Run([], s, mid) == Done(mid) by { RunNothing(s, mid); }
        assert Grows(ts, mid, n, b.next);
      }
    } else {
      var t := b.next;
      var c := if e.And? then CTemp(t) else CNot(CTemp(t));
      var body := b.prelude + [Set(t, b.value)];
      RunJoin(a.prelude, [Declare(t, a.value), When(c, body)], s, ts);
      if Eval(e.l, s, Addresses).Val? && Eval(e.l, s, Addresses).v.Bool? {
        var mid := Run(a.prelude, s, ts).ts;
        var x := Eval(e.l, s, Addresses).v;
        FreeAfter(ts, mid, n, a.next, t + 1);
        FreeWithHeld(mid, a.next, t, t + 1, x);
        LoweringFollowsAddresses(e.r, a.next, s, mid[t := Some(x)]);
        var end := GuardedRun(e.And?, a.value, b, a.next, s, mid, x.b, Eval(e.r, s, Addresses));
        if x.b != e.And? || Eval(e.r, s, Addresses).Val? {
          GrowsTwice(ts, mid, end, n, a.next, t + 1);
        }
      }
    }
  }

  /** The right operand runs, checks and all, exactly when the left one does not decide. */
  lemma GuardedRun(isAnd: bool, l: CExpr, b: Lowered, lo: nat, s: Store, mid: Temps, x: bool,
                   right: Outcome) returns (end: Temps)
    requires lo <= b.next && Free(mid, lo, b.next + 1) && CEval(l, s, mid) == Some(Bool(x))
    requires x == isAnd ==> Matches(right, b, lo, s, mid[b.next := Some(Bool(x))])
    ensures var c := if isAnd then CTemp(b.next) else CNot(CTemp(b.next));
            var code := [Declare(b.next, l), When(c, b.prelude + [Set(b.next, b.value)])];
            && (x == isAnd && right.Panic? ==> Run(code, s, mid) == Panicked(right.site))
            && (x == isAnd && right.Val? ==>
                  Run(code, s, mid) == Done(end) && Read(end, b.next) == Some(right.v)
                    && Grows(mid, end, lo, b.next + 1))
            && (x != isAnd ==> Run(code, s, mid) == Done(end) && Read(end, b.next) == Some(Bool(x))
                               && Grows(mid, end, lo, b.next + 1))
  {
    hide Run, RunOne, RunBlock;
    var t := b.next;
    var c := if isAnd then CTemp(t) else CNot(CTemp(t));
    var body := b.prelude + [Set(t, b.value)];
    DeclareRuns(mid, t, l, Bool(x), s);
    var held := mid[t := Some(Bool(x))];
    assert [Declare(t, l), When(c, body)] == [Declare(t, l)] + [When(c, body)];
    RunJoin([Declare(t, l)], [When(c, body)], s, mid);
    WhenRuns(c, body, s, held);
    assert CEval(c, s, held) == Some(Bool(x == isAnd));
    end := held;
    if x == isAnd && right.Val? {
      BlockSets(b.prelude, t, b.value, right.v, s, held, lo, t);
      end := held[t := Some(right.v)];
    } else if x == isAnd && right.Panic? {
      BlockPanics(b.prelude, Set(t, b.value), right.site, s, held);
    }
  }

  lemma RunNothing(s: Store, ts: Temps)
    ensures Run([], s, ts) == Done(ts)
  {
  }

  lemma WhenRuns(c: CExpr, body: seq<CStmt>, s: Store, ts: Temps)
    ensures CEval(c, s, ts) == Some(Bool(true)) ==> Run([When(c, body)], s, ts) == RunBlock(body, s, ts)
    ensures CEval(c, s, ts) == Some(Bool(false)) ==> Run([When(c, body)], s, ts) == Done(ts)
  {
    RunSingle(When(c, body), s, ts);
  }

  lemma LowerIf(e: Expr, n: nat)
    requires e.IfExpr?
    ensures var a := Lower(e.c, n);
            var k := a.next;
            var b := Lower(e.t, k + 1);
            var d := Lower(e.f, b.next);
            Lower(e, n) ==
            Lowered(a.prelude + [Uninitialised(k),
                                 Choose(a.value, b.prelude + [Set(k, b.value)], d.prelude + [Set(k, d.value)])],
                    CTemp(k), d.next)
  {
  }

  lemma EvalIf(e: Expr, s: Store)
    requires e.IfExpr?
    ensures Eval(e, s, Addresses) ==
            match Eval(e.c, s, Addresses)
            case Val(a) =>
              if a == Bool(true) then Eval(e.t, s, Addresses)
              else if a == Bool(false) then Eval(e.f, s, Addresses)
              else Stuck
            case o => o
  {
  }

  lemma {:induction false} IfIsCorrect(e: Expr, n: nat, s: Store, ts: Temps)
    requires e.IfExpr? && Free(ts, n, Lower(e, n).next)
    ensures Matches(Eval(e, s, Addresses), Lower(e, n), n, s, ts)
    decreases e, 0
  {
    hide Run, RunOne, RunBlock, Lower, Eval;
    LowerIf(e, n);
    EvalIf(e, s);
    var a := Lower(e.c, n);
    var k := a.next;
    var b := Lower(e.t, k + 1);
    var d := Lower(e.f, b.next);
    LoweringFollowsAddresses(e.c, n, s, ts);
    var thn, els := b.prelude + [Set(k, b.value)], d.prelude + [Set(k, d.value)];
    var choice := Choose(a.value, thn, els);
    RunJoin(a.prelude, [Uninitialised(k), choice], s, ts);
    if Eval(e.c, s, Addresses).Val? && Eval(e.c, s, Addresses).v.Bool? {
      var mid := Run(a.prelude, s, ts).ts;
      FreeAfter(ts, mid, n, k, d.next);
      var open := mid[k := None];
      assert [Uninitialised(k), choice] == [Uninitialised(k)] + [choice];
      RunJoin([Uninitialised(k)], [choice], s, mid);
      UninitialisedRuns(k, s, mid);
      ValueStays(a.value, s, mid, open);
      ChooseRuns(a.value, thn, els, s, open);
      var taken := if Eval(e.c, s, Addresses).v.b then e.t else e.f;
      var low := if Eval(e.c, s, Addresses).v.b then b else d;
      var from := if Eval(e.c, s, Addresses).v.b then k + 1 else b.next;
      LoweringFollowsAddresses(taken, from, s, open);
      var o := Eval(taken, s, Addresses);
      if o.Val? {
        BlockSets(low.prelude, k, low.value, o.v, s, open, from, low.next);
        assert open[k := Some(o.v)] == mid[k := Some(o.v)];
        assert Grows(ts, mid[k := Some(o.v)], n, d.next);
      } else if o.Panic? {
        BlockPanics(low.prelude, Set(k, low.value), o.site, s, open);
      }
    }
  }

  lemma UninitialisedRuns(k: nat, s: Store, ts: Temps)
    requires k !in ts
    ensures Run([Uninitialised(k)], s, ts) == Done(ts[k := None]) && Extends(ts, ts[k := None])
  {
    RunSingle(Uninitialised(k), s, ts);
  }

  lemma ChooseRuns(c: CExpr, thn: seq<CStmt>, els: seq<CStmt>, s: Store, ts: Temps)
    requires CEval(c, s, ts).Some? && CEval(c, s, ts).value.Bool?
    ensures Run([Choose(c, thn, els)], s, ts) ==
            (if CEval(c, s, ts).value.b then RunBlock(thn, s, ts) else RunBlock(els, s, ts))
  {
    RunSingle(Choose(c, thn, els), s, ts);
  }

  lemma {:induction false} AtIsCorrect(e: Expr, n: nat, s: Store, ts: Temps)
    requires e.At? && Free(ts, n, Lower(e, n).next)
    ensures Matches(Eval(e, s, Addresses), Lower(e, n), n, s, ts)
    decreases e, 0
  {
    hide Run, RunOne;
    var a := Lower(e.base, n);
    var b := Lower(e.index, a.next);
    var t := b.next;
    LoweringFollowsAddresses(e.base, n, s, ts);
    var tail := [Declare(t, a.value), Declare(t + 1, b.value), Guard(t + 1, t, e.signed, e.site)];
    assert a.prelude + b.prelude + tail == a.prelude + (b.prelude + tail);
    RunJoin(a.prelude, b.prelude + tail, s, ts);
    if Eval(e.base, s, Addresses).Val? {
      var mid := Run(a.prelude, s, ts).ts;
      FreeAfter(ts, mid, n, a.next, t + 2);
      LoweringFollowsAddresses(e.index, a.next, s, mid);
      RunJoin(b.prelude, tail, s, mid);
      if Eval(e.index, s, Addresses).Val? {
        var end := Run(b.prelude, s, mid).ts;
        ValueStays(a.value, s, mid, end);
        GrowsTwice(ts, mid, end, n, a.next, t);
        GuardRuns(e, a.value, b.value, t, Eval(e.base, s, Addresses).v, Eval(e.index, s, Addresses).v, n, s, ts, end);
      }
    }
  }

  /** The index is fixed in a temporary, checked, and only then used. */
  lemma GuardRuns(e: Expr, base: CExpr, index: CExpr, t: nat, a: Value, i: Value, n: nat, s: Store, ts: Temps,
                  end: Temps)
    requires e.At? && CEval(base, s, end) == Some(a) && CEval(index, s, end) == Some(i)
    requires Grows(ts, end, n, t) && Free(ts, n, t + 2) && n <= t
    ensures var tail := [Declare(t, base), Declare(t + 1, index), Guard(t + 1, t, e.signed, e.site)];
            match Element(a, i, e.signed, e.site, s)
            case Val(v) =>
              && Run(tail, s, end).Done?
              && CEval(CByte(t, t + 1), s, Run(tail, s, end).ts) == Some(v) && Grows(ts, Run(tail, s, end).ts, n, t + 2)
            case Panic(site) => Run(tail, s, end) == Panicked(site)
            case Stuck => true
  {
    var guard := Guard(t + 1, t, e.signed, e.site);
    var one := end[t := Some(a)];
    var two := one[t + 1 := Some(i)];
    assert [Declare(t, base), Declare(t + 1, index), guard] == [Declare(t, base)] + ([Declare(t + 1, index)] + [guard]);
    RunJoin([Declare(t, base)], [Declare(t + 1, index)] + [guard], s, end);
    DeclareRuns(end, t, base, a, s);
    ValueStays(index, s, end, one);
    RunJoin([Declare(t + 1, index)], [guard], s, one);
    DeclareRuns(one, t + 1, index, i, s);
    RunSingle(guard, s, two);
    if !Element(a, i, e.signed, e.site, s).Stuck? {
      GuardIsExact(i.n, |s.texts[a.at]|, e.signed);
    }
  }

  // ---------------------------------------------------------------------------------------------
  // The lowerer's own form

  /** `lowerExpr` with its counter of temporaries. */
  class ExpressionLowerer {
    var temps: nat

    constructor ()
      ensures temps == 0
    {
      temps := 0;
    }

    method NextTemp() returns (t: nat)
      modifies this
      ensures t == old(temps) && temps == t + 1
    {
      t := temps;
      temps := temps + 1;
    }

    method LowerExpr(e: Expr) returns (prelude: seq<CStmt>, value: CExpr)
      modifies this
      ensures Lowered(prelude, value, temps) == Lower(e, old(temps))
      decreases e
    {
      match e
      case Lit(v) => prelude, value := [], CLit(v);
      case Var(x) => prelude, value := [], CVar(x);
      case Not(x) =>
        prelude, value := LowerExpr(x);
        value := CNot(value);
      case Compare(op, l, r) =>
        var leftPrelude, left := LowerExpr(l);
        var rightPrelude, right := LowerExpr(r);
        if MayBranch(l) || MayBranch(r) {
          var leftTemp := NextTemp();
          var rightTemp := NextTemp();
          leftPrelude := leftPrelude + [Declare(leftTemp, left)];
          rightPrelude := rightPrelude + [Declare(rightTemp, right)];
          left, right := CTemp(leftTemp), CTemp(rightTemp);
        }
        prelude, value := leftPrelude + rightPrelude, CCompare(op, left, right);
      case And(l, r) => prelude, value := LowerLogical(l, r, true);
      case Or(l, r) => prelude, value := LowerLogical(l, r, false);
      case IfExpr(c, t, f) =>
        var condPrelude, cond := LowerExpr(c);
        var k := NextTemp();
        var thenPrelude, thenValue := LowerExpr(t);
        var elsePrelude, elseValue := LowerExpr(f);
        prelude := condPrelude + [Uninitialised(k),
                                  Choose(cond, thenPrelude + [Set(k, thenValue)], elsePrelude + [Set(k, elseValue)])];
        value := CTemp(k);
      case At(base, index, signed, site) =>
        var basePrelude, baseValue := LowerExpr(base);
        var indexPrelude, indexValue := LowerExpr(index);
        var baseTemp := NextTemp();
        var indexTemp := NextTemp();
        prelude := basePrelude + indexPrelude +
          [Declare(baseTemp, baseValue), Declare(indexTemp, indexValue), Guard(indexTemp, baseTemp, signed, site)];
        value := CByte(baseTemp, indexTemp);
    }

    method LowerLogical(l: Expr, r: Expr, isAnd: bool) returns (prelude: seq<CStmt>, value: CExpr)
      modifies this
      ensures var a := Lower(l, old(temps)); Lowered(prelude, value, temps) == ShortCircuit(a, Lower(r, a.next), isAnd)
      decreases if isAnd then And(l, r) else Or(l, r), 0
    {
      hide Lower;
      var leftPrelude, left := LowerExpr(l);
      var rightPrelude, right := LowerExpr(r);
      if |rightPrelude| == 0 {
        prelude, value := leftPrelude, if isAnd then CAnd(left, right) else COr(left, right);
        return;
      }
      var t := NextTemp();
      var condition := if isAnd then CTemp(t) else CNot(CTemp(t));
      prelude := leftPrelude + [Declare(t, left), When(condition, rightPrelude + [Set(t, right)])];
      value := CTemp(t);
    }
  }
}
