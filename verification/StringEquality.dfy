/**
 The language compares strings by text, the emitted C by address.  The lowering of an expression is right
 about everything that is evaluated exactly when no two strings compared have one text at two addresses.
 */
module StringEquality {
  import opened Wrappers
  import opened ExpressionLowering

  /** The subexpressions that are evaluated, the expression itself among them. */
  function Reached(e: Expr, s: Store): set<Expr> {
    match e
    case Lit(_) => {e}
    case Var(_) => {e}
    case Not(x) => {e} + Reached(x, s)
    case Compare(_, l, r) => {e} + Reached(l, s) + (if Eval(l, s, Texts).Val? then Reached(r, s) else {})
    case And(l, r) => {e} + Reached(l, s) + (if Eval(l, s, Texts) == Val(Bool(true)) then Reached(r, s) else {})
    case Or(l, r) => {e} + Reached(l, s) + (if Eval(l, s, Texts) == Val(Bool(false)) then Reached(r, s) else {})
    case IfExpr(c, t, f) =>
      {e} + Reached(c, s)
      + (if Eval(c, s, Texts) == Val(Bool(true)) then Reached(t, s) else {})
      + (if Eval(c, s, Texts) == Val(Bool(false)) then Reached(f, s) else {})
    case At(base, index, _, _) =>
      {e} + Reached(base, s) + (if Eval(base, s, Texts).Val? then Reached(index, s) else {})
  }

  /** Strings of one text at two addresses. */
  predicate Twins(a: Value, b: Value, s: Store) {
    && a.Str? && b.Str? && a.at != b.at
    && a.at in s.texts && b.at in s.texts && s.texts[a.at] == s.texts[b.at]
  }

  /** An `==` of two such strings. */
  predicate Clashes(e: Expr, s: Store) {
    && e.Compare? && e.op.Same?
    && Eval(e.l, s, Texts).Val? && Eval(e.r, s, Texts).Val?
    && Twins(Eval(e.l, s, Texts).v, Eval(e.r, s, Texts).v, s)
  }

  predicate ClashFree(e: Expr, s: Store) {
    forall d :: d in Reached(e, s) ==> !Clashes(d, s)
  }

  lemma {:induction false} ClashFreeAgrees(e: Expr, s: Store)
    requires ClashFree(e, s) && !Eval(e, s, Texts).Stuck?
    ensures Eval(e, s, Addresses) == Eval(e, s, Texts)
  {
    assert e in Reached(e, s);
    match e
    case Lit(_) =>
    case Var(_) =>
    case Not(x) => ClashFreeAgrees(x, s);
    case Compare(_, l, r) => ClashFreeAgrees(l, s); if Eval(l, s, Texts).Val? { ClashFreeAgrees(r, s); }
    case And(l, r) => ClashFreeAgrees(l, s); if Eval(l, s, Texts) == Val(Bool(true)) { ClashFreeAgrees(r, s); }
    case Or(l, r) => ClashFreeAgrees(l, s); if Eval(l, s, Texts) == Val(Bool(false)) { ClashFreeAgrees(r, s); }
    case IfExpr(c, t, f) =>
      ClashFreeAgrees(c, s);
      if Eval(c, s, Texts).Val? { ClashFreeAgrees(if Eval(c, s, Texts).v.b then t else f, s); }
    case At(base, index, _, _) =>
      ClashFreeAgrees(base, s);
      if Eval(base, s, Texts).Val? { ClashFreeAgrees(index, s); }
  }

  /** Without a clash the prelude and the value do what the source expression does. */
  lemma LoweringIsCorrect(e: Expr, n: nat, s: Store, ts: Temps)
    requires Free(ts, n, Lower(e, n).next) && ClashFree(e, s)
    ensures Matches(Eval(e, s, Texts), Lower(e, n), n, s, ts)
  {
    if !Eval(e, s, Texts).Stuck? {
      ClashFreeAgrees(e, s);
      LoweringFollowsAddresses(e, n, s, ts);
    }
  }

  /** The lowering is right from every number of the next temporary and over all temporaries so far. */
  ghost predicate Right(e: Expr, s: Store) {
    forall n: nat, ts: Temps | Free(ts, n, Lower(e, n).next) :: Matches(Eval(e, s, Texts), Lower(e, n), n, s, ts)
  }

  /** A comparison of operands without clashes is right exactly when it is none itself. */
  lemma ComparisonIsRightIff(e: Expr, n: nat, s: Store, ts: Temps)
    requires e.Compare? && ClashFree(e.l, s) && (Eval(e.l, s, Texts).Val? ==> ClashFree(e.r, s))
    requires Free(ts, n, Lower(e, n).next)
    ensures Matches(Eval(e, s, Texts), Lower(e, n), n, s, ts) <==> !Clashes(e, s)
  {
    if Clashes(e, s) {
      ClashFreeAgrees(e.l, s);
      ClashFreeAgrees(e.r, s);
      LoweringFollowsAddresses(e, n, s, ts);
    } else {
      LoweringIsCorrect(e, n, s, ts);
    }
  }

  /** What a subexpression reaches is reached. */
  lemma {:induction false} ReachedTransitive(e: Expr, d: Expr, s: Store)
    requires d in Reached(e, s)
    ensures Reached(d, s) <= Reached(e, s)
  {
    if d != e {
      match e
      case Not(x) => ReachedTransitive(x, d, s);
      case Compare(_, l, r) => ReachedTransitive(if d in Reached(l, s) then l else r, d, s);
      case And(l, r) => ReachedTransitive(if d in Reached(l, s) then l else r, d, s);
      case Or(l, r) => ReachedTransitive(if d in Reached(l, s) then l else r, d, s);
      case IfExpr(c, t, f) =>
        var taken := if Eval(c, s, Texts) == Val(Bool(true)) then t else f;
        ReachedTransitive(if d in Reached(c, s) then c else taken, d, s);
      case At(base, index, _, _) => ReachedTransitive(if d in Reached(base, s) then base else index, d, s);
    }
  }

  lemma {:induction false} RightIsClashFree(e: Expr, s: Store)
    requires forall d :: d in Reached(e, s) ==> Right(d, s)
    ensures ClashFree(e, s)
  {
    assert Right(e, s);
    match e
    case Lit(_) =>
    case Var(_) =>
    case Not(x) => RightIsClashFree(x, s);
    case Compare(_, l, r) =>
      RightIsClashFree(l, s);
      if Eval(l, s, Texts).Val? { RightIsClashFree(r, s); }
      ComparisonIsRightIff(e, 0, s, map[]);
    case And(l, r) => RightIsClashFree(l, s); if Eval(l, s, Texts) == Val(Bool(true)) { RightIsClashFree(r, s); }
    case Or(l, r) => RightIsClashFree(l, s); if Eval(l, s, Texts) == Val(Bool(false)) { RightIsClashFree(r, s); }
    case IfExpr(c, t, f) =>
      RightIsClashFree(c, s);
      if Eval(c, s, Texts) == Val(Bool(true)) { RightIsClashFree(t, s); }
      if Eval(c, s, Texts) == Val(Bool(false)) { RightIsClashFree(f, s); }
    case At(base, index, _, _) =>
      RightIsClashFree(base, s);
      if Eval(base, s, Texts).Val? { RightIsClashFree(index, s); }
  }

  /** The lowering is right about all that is evaluated exactly when nothing evaluated clashes. */
  lemma LoweringIsRightIff(e: Expr, s: Store)
    ensures (forall d :: d in Reached(e, s) ==> Right(d, s)) <==> ClashFree(e, s)
  {
    if ClashFree(e, s) {
      forall d | d in Reached(e, s) ensures Right(d, s) {
        ReachedTransitive(e, d, s);
        forall n: nat, ts: Temps | Free(ts, n, Lower(d, n).next)
          ensures Matches(Eval(d, s, Texts), Lower(d, n), n, s, ts)
        {
          LoweringIsCorrect(d, n, s, ts);
        }
      }
    } else if forall d :: d in Reached(e, s) ==> Right(d, s) {
      RightIsClashFree(e, s);
    }
  }

  /** Two variables of one text: the source's `true` is a C `false`. */
  lemma EqualTextsExample()
    ensures var s := Store(map["a" := Str(1), "b" := Str(2)], map[1 := [104], 2 := [104]]);
            var low := Lower(Compare(Same, Var("a"), Var("b")), 0);
            && Eval(Compare(Same, Var("a"), Var("b")), s, Texts) == Val(Bool(true))
            && Run(low.prelude, s, map[]) == Done(map[])
            && CEval(low.value, s, map[]) == Some(Bool(false))
  {
    var s := Store(map["a" := Str(1), "b" := Str(2)], map[1 := [104], 2 := [104]]);
    var e := Compare(Same, Var("a"), Var("b"));
    assert Eval(Var("a"), s, Texts) == Val(Str(1)) && Eval(Var("b"), s, Texts) == Val(Str(2));
    assert Lower(e, 0) == Lowered([], CCompare(Same, CVar("a"), CVar("b")), 0);
  }

  // ---------------------------------------------------------------------------------------------
  // A condition on the expression alone

  /** An expression of string type, given the variables of that type. */
  predicate OfText(e: Expr, names: set<string>) {
    match e
    case Lit(v) => v.Str?
    case Var(x) => x in names
    case IfExpr(_, t, f) => OfText(t, names) || OfText(f, names)
    case _ => false
  }

  /** No operand of an `==` has string type. */
  predicate ComparesNoText(e: Expr, names: set<string>) {
    match e
    case Lit(_) => true
    case Var(_) => true
    case Not(x) => ComparesNoText(x, names)
    case Compare(op, l, r) =>
      (op.Same? ==> !OfText(l, names) || !OfText(r, names)) && ComparesNoText(l, names) && ComparesNoText(r, names)
    case And(l, r) => ComparesNoText(l, names) && ComparesNoText(r, names)
    case Or(l, r) => ComparesNoText(l, names) && ComparesNoText(r, names)
    case IfExpr(c, t, f) => ComparesNoText(c, names) && ComparesNoText(t, names) && ComparesNoText(f, names)
    case At(base, index, _, _) => ComparesNoText(base, names) && ComparesNoText(index, names)
  }

  /** The variables that hold strings are among those of string type. */
  predicate Typed(s: Store, names: set<string>) {
    forall x :: x in s.vars && s.vars[x].Str? ==> x in names
  }

  lemma {:induction false} StringsAreOfText(e: Expr, s: Store, names: set<string>)
    requires Typed(s, names) && Eval(e, s, Texts).Val? && Eval(e, s, Texts).v.Str?
    ensures OfText(e, names)
  {
    match e
    case IfExpr(c, t, f) => StringsAreOfText(if Eval(c, s, Texts) == Val(Bool(true)) then t else f, s, names);
    case _ =>
  }

  lemma {:induction false} ComparesNoTextReached(e: Expr, d: Expr, s: Store, names: set<string>)
    requires ComparesNoText(e, names) && d in Reached(e, s)
    ensures ComparesNoText(d, names)
  {
    if d != e {
      match e
      case Not(x) => ComparesNoTextReached(x, d, s, names);
      case Compare(_, l, r) => ComparesNoTextReached(if d in Reached(l, s) then l else r, d, s, names);
      case And(l, r) => ComparesNoTextReached(if d in Reached(l, s) then l else r, d, s, names);
      case Or(l, r) => ComparesNoTextReached(if d in Reached(l, s) then l else r, d, s, names);
      case IfExpr(c, t, f) =>
        var taken := if Eval(c, s, Texts) == Val(Bool(true)) then t else f;
        ComparesNoTextReached(if d in Reached(c, s) then c else taken, d, s, names);
      case At(base, index, _, _) => ComparesNoTextReached(if d in Reached(base, s) then base else index, d, s, names);
    }
  }

  /** Where no string is compared the lowering is right, whatever the variables hold. */
  lemma LoweringWithoutTextsIsCorrect(e: Expr, n: nat, s: Store, ts: Temps, names: set<string>)
    requires Free(ts, n, Lower(e, n).next) && ComparesNoText(e, names) && Typed(s, names)
    ensures Matches(Eval(e, s, Texts), Lower(e, n), n, s, ts)
  {
    forall d | d in Reached(e, s) ensures !Clashes(d, s) {
      if Clashes(d, s) {
        ComparesNoTextReached(e, d, s, names);
        StringsAreOfText(d.l, s, names);
        StringsAreOfText(d.r, s, names);
      }
    }
    LoweringIsCorrect(e, n, s, ts);
  }

  /** A false guard without clashes keeps the right operand, and every check in it, from running. */
  lemma FalseGuardRunsNothing(guard: Expr, e: Expr, s: Store)
    requires Eval(guard, s, Texts) == Val(Bool(false)) && ClashFree(guard, s)
    ensures var low := Lower(And(guard, e), 0);
            Run(low.prelude, s, map[]).Done? && CEval(low.value, s, Run(low.prelude, s, map[]).ts) == Some(Bool(false))
  {
    ClashFreeAgrees(guard, s);
    LoweringFollowsAddresses(And(guard, e), 0, s, map[]);
  }
}
