/**
 Counted ranges `start .. end`, `step` and `descend`.

 `Items` is the mathematical meaning of a range.  `Visit` is the loop that generated C code
 runs, whose cursor update works on 64-bit machine integers, and `ComptimeRangeValues` is the
 compile-time evaluator's loop, whose additions wrap like Go's `int`.
 */
module RangeCursor {
  import opened Wrappers

  const TWO63: int := 0x8000_0000_0000_0000
  const TWO64: int := 0x1_0000_0000_0000_0000
  const LOOP_LIMIT: int := 256

  /** The element types: signed or unsigned 64-bit representations. */
  predicate InElement(signed: bool, x: int) {
    if signed then -TWO63 <= x < TWO63 else 0 <= x < TWO64
  }

  /** Conversion to an unsigned 64-bit value, section 6.3.1.3 of C11. */
  function ToU64(x: int): (u: int)
    ensures 0 <= u < TWO64
  {
    x % TWO64
  }

  /** The cursor has not reached the end. */
  predicate Before(cursor: int, end: int, descending: bool) {
    if descending then cursor > end else cursor < end
  }

  function Moved(cursor: int, step: int, descending: bool): int {
    if descending then cursor - step else cursor + step
  }

  /** The check made when a range value is built. */
  predicate ValidRange(start: int, end: int, step: int, descending: bool) {
    step > 0 && (if descending then start >= end else start <= end)
  }

  function Distance(cursor: int, end: int, descending: bool): nat {
    if !Before(cursor, end, descending) then 0
    else if descending then cursor - end else end - cursor
  }

  /** What a range means: every `cursor`, `cursor +- step`, ... strictly before `end`. */
  function Items(cursor: int, end: int, step: int, descending: bool): seq<int>
    requires step > 0
    decreases Distance(cursor, end, descending)
  {
    if Before(cursor, end, descending)
    then [cursor] + Items(Moved(cursor, step, descending), end, step, descending)
    else []
  }

  /** `remaining` of the generated code: an unsigned 64-bit subtraction. */
  function Remaining(cursor: int, end: int, descending: bool): int {
    if descending then ToU64(ToU64(cursor) - ToU64(end)) else ToU64(ToU64(end) - ToU64(cursor))
  }

  /** The generated cursor update. */
  function Advance(cursor: int, end: int, step: int, descending: bool): int {
    if ToU64(step) >= Remaining(cursor, end, descending) then end else Moved(cursor, step, descending)
  }

  lemma RemainingIsDistance(signed: bool, cursor: int, end: int, descending: bool)
    requires InElement(signed, cursor) && InElement(signed, end)
    requires Before(cursor, end, descending)
    ensures Remaining(cursor, end, descending) == Distance(cursor, end, descending)
  {
    var a, b := if descending then cursor else end, if descending then end else cursor;
    ModDifference(a, b);
  }

  lemma ModDifference(a: int, b: int)
    requires 0 <= a - b < TWO64
    requires -TWO63 <= a < TWO64 && -TWO63 <= b < TWO64
    ensures ToU64(ToU64(a) - ToU64(b)) == a - b
  {
    assert ToU64(a) == if a < 0 then a + TWO64 else a;
    assert ToU64(b) == if b < 0 then b + TWO64 else b;
    var d := ToU64(a) - ToU64(b);
    if d < 0 {
      assert d + TWO64 == a - b;
      assert ToU64(d) == d + TWO64;
    }
  }

  /** The update never overflows, never passes `end`, and moves by exactly one step or stops at `end`. */
  lemma AdvanceIsExact(signed: bool, cursor: int, end: int, step: int, descending: bool)
    requires InElement(signed, cursor) && InElement(signed, end) && InElement(signed, step)
    requires step > 0 && Before(cursor, end, descending)
    ensures var next := Advance(cursor, end, step, descending);
            && InElement(signed, next)
            && !Before(end, next, descending)
            && Distance(next, end, descending) < Distance(cursor, end, descending)
            && (if Before(Moved(cursor, step, descending), end, descending)
                then next == Moved(cursor, step, descending) else next == end)
            && Items(cursor, end, step, descending) == [cursor] + Items(next, end, step, descending)
  {
    RemainingIsDistance(signed, cursor, end, descending);
    assert ToU64(step) == step;
    if !Before(Moved(cursor, step, descending), end, descending) {
      assert Items(Moved(cursor, step, descending), end, step, descending) == [];
      assert Items(end, end, step, descending) == [];
    }
  }

  /** A range of positive steps is accepted unless it has nothing to visit although it does not start at its end. */
  lemma ValidIff(start: int, end: int, step: int, descending: bool)
    requires step > 0
    ensures ValidRange(start, end, step, descending) <==> start == end || Items(start, end, step, descending) != []
  {
  }

  /** The k-th visited item is `start +- k * step`; it is before `end`, and the next one would not be. */
  lemma {:induction false} ItemsAreMultiples(start: int, end: int, step: int, descending: bool, k: nat)
    requires step > 0
    ensures k < |Items(start, end, step, descending)| ==>
              Items(start, end, step, descending)[k] == (if descending then start - k * step else start + k * step)
    ensures k < |Items(start, end, step, descending)| <==>
              Before(if descending then start - k * step else start + k * step, end, descending)
    decreases k
  {
    if k > 0 {
      var next := Moved(start, step, descending);
      assert k * step == step + (k - 1) * step;
      if Before(start, end, descending) {
        ItemsAreMultiples(next, end, step, descending, k - 1);
      } else {
        assert k * step > 0;
      }
    }
  }

  /** The loop of generated code, over a cursor that starts at `start`. */
  method Visit(signed: bool, start: int, end: int, step: int, descending: bool) returns (visited: seq<int>)
    requires InElement(signed, start) && InElement(signed, end) && InElement(signed, step)
    requires ValidRange(start, end, step, descending)
    ensures visited == Items(start, end, step, descending)
    ensures forall k :: 0 <= k < |visited| ==> InElement(signed, visited[k])
  {
    visited := [];
    var cursor := start;
    while Before(cursor, end, descending)
      invariant InElement(signed, cursor)
      invariant forall k :: 0 <= k < |visited| ==> InElement(signed, visited[k])
      invariant visited + Items(cursor, end, step, descending) == Items(start, end, step, descending)
      decreases Distance(cursor, end, descending)
    {
      AdvanceIsExact(signed, cursor, end, step, descending);
      ghost var tail := Items(Advance(cursor, end, step, descending), end, step, descending);
      assert (visited + [cursor]) + tail == visited + ([cursor] + tail);
      visited := visited + [cursor];
      cursor := Advance(cursor, end, step, descending);
    }
  }

  // ---------------------------------------------------------------------------------------------
  // The compile-time evaluator

  /** Go's 64-bit `int` addition. */
  function WrapInt(x: int): (w: int)
    ensures InElement(true, w)
    ensures InElement(true, x) ==> w == x
  {
    (x + TWO63) % TWO64 - TWO63
  }

  datatype RangeError = StepInvalid | LimitExceeded

  /** Functional form of the collecting loop: `count` values were collected so far. */
  function Collect(cursor: int, end: int, step: int, descending: bool, count: int): seq<int>
    decreases LOOP_LIMIT + 1 - count
  {
    if Before(cursor, end, descending) && count <= LOOP_LIMIT
    then [cursor] + Collect(WrapInt(Moved(cursor, step, descending)), end, step, descending, count + 1)
    else []
  }

  function ComptimeResult(start: int, end: int, step: int, descending: bool): Result<seq<int>, RangeError> {
    if !ValidRange(start, end, step, descending) then Err(StepInvalid)
    else
      var values := Collect(start, end, step, descending, 0);
      if |values| > LOOP_LIMIT then Err(LimitExceeded) else Ok(values)
  }

  /** `evt1ComptimeRangeValues` followed by the limit check of its caller. */
  method ComptimeRangeValues(start: int, end: int, step: int, descending: bool)
    returns (r: Result<seq<int>, RangeError>)
    ensures r == ComptimeResult(start, end, step, descending)
  {
    if !ValidRange(start, end, step, descending) {
      return Err(StepInvalid);
    }
    var values, cursor := [], start;
    while Before(cursor, end, descending) && |values| <= LOOP_LIMIT
      invariant values + Collect(cursor, end, step, descending, |values|) == Collect(start, end, step, descending, 0)
      decreases LOOP_LIMIT + 1 - |values|
    {
      ghost var tail := Collect(WrapInt(Moved(cursor, step, descending)), end, step, descending, |values| + 1);
      assert (values + [cursor]) + tail == values + ([cursor] + tail);
      values := values + [cursor];
      cursor := WrapInt(Moved(cursor, step, descending));
    }
    assert values + [] == values;
    r := if |values| > LOOP_LIMIT then Err(LimitExceeded) else Ok(values);
  }

  /** No cursor value the evaluator computes leaves the 64-bit range. */
  predicate AdditionsFit(start: int, end: int, step: int, descending: bool)
    requires step > 0
  {
    var items := Items(start, end, step, descending);
    items == [] || InElement(true, Moved(items[|items| - 1], step, descending))
  }

  lemma {:induction false} CollectBound(cursor: int, end: int, step: int, descending: bool, count: nat)
    requires count <= LOOP_LIMIT + 1
    ensures |Collect(cursor, end, step, descending, count)| <= LOOP_LIMIT + 1 - count
    decreases LOOP_LIMIT + 1 - count
  {
    if Before(cursor, end, descending) && count <= LOOP_LIMIT {
      CollectBound(WrapInt(Moved(cursor, step, descending)), end, step, descending, count + 1);
    }
  }

  /** Where the additions fit the evaluator collects the items in order, up to its cut-off. */
  lemma {:induction false} CollectWithoutOverflow(cursor: int, end: int, step: int, descending: bool, count: nat)
    requires step > 0 && InElement(true, cursor) && InElement(true, end) && InElement(true, step)
    requires count <= LOOP_LIMIT + 1 && AdditionsFit(cursor, end, step, descending)
    ensures var items := Items(cursor, end, step, descending);
            var room := LOOP_LIMIT + 1 - count;
            Collect(cursor, end, step, descending, count) == if |items| <= room then items else items[..room]
    decreases LOOP_LIMIT + 1 - count
  {
    if Before(cursor, end, descending) && count <= LOOP_LIMIT {
      var next := Moved(cursor, step, descending);
      var items := Items(cursor, end, step, descending);
      var rest := Items(next, end, step, descending);
      if Before(next, end, descending) {
        assert items[|items| - 1] == rest[|rest| - 1];
        CollectWithoutOverflow(next, end, step, descending, count + 1);
      } else {
        assert rest == [] && items == [cursor];
        assert WrapInt(next) == next;
      }
    }
  }

  /** Where the last addition overflows, the wrapped cursor is again before `end`: a wrong item follows. */
  lemma {:induction false} CollectAfterOverflow(cursor: int, end: int, step: int, descending: bool, count: nat)
    requires step > 0 && InElement(true, cursor) && InElement(true, end) && InElement(true, step)
    requires !AdditionsFit(cursor, end, step, descending)
    requires count + |Items(cursor, end, step, descending)| <= LOOP_LIMIT
    ensures |Collect(cursor, end, step, descending, count)| > |Items(cursor, end, step, descending)|
    decreases LOOP_LIMIT + 1 - count
  {
    var next := Moved(cursor, step, descending);
    var items := Items(cursor, end, step, descending);
    var rest := Items(next, end, step, descending);
    assert Before(cursor, end, descending) && items == [cursor] + rest;
    if Before(next, end, descending) {
      assert items[|items| - 1] == rest[|rest| - 1];
      assert WrapInt(next) == next;
      CollectAfterOverflow(next, end, step, descending, count + 1);
    } else {
      assert rest == [] && items == [cursor];
      assert !InElement(true, next);
      WrapCrossesEnd(cursor, end, step, descending);
      assert Collect(WrapInt(next), end, step, descending, count + 1) != [];
    }
  }

  lemma WrapCrossesEnd(cursor: int, end: int, step: int, descending: bool)
    requires step > 0 && InElement(true, cursor) && InElement(true, end) && InElement(true, step)
    requires Before(cursor, end, descending) && !InElement(true, Moved(cursor, step, descending))
    ensures Before(WrapInt(Moved(cursor, step, descending)), end, descending)
  {
    var next := Moved(cursor, step, descending);
    if descending {
      assert WrapInt(next) == next + TWO64;
    } else {
      assert WrapInt(next) == next - TWO64;
    }
  }

  /** The two loops agree exactly when the evaluator's additions fit and the item limit is not exceeded. */
  lemma ComptimeAgreesWithRuntime(start: int, end: int, step: int, descending: bool)
    requires InElement(true, start) && InElement(true, end) && InElement(true, step)
    requires ValidRange(start, end, step, descending)
    ensures ComptimeResult(start, end, step, descending) == Ok(Items(start, end, step, descending)) <==>
            AdditionsFit(start, end, step, descending) && |Items(start, end, step, descending)| <= LOOP_LIMIT
  {
    CollectBound(start, end, step, descending, 0);
    if AdditionsFit(start, end, step, descending) {
      CollectWithoutOverflow(start, end, step, descending, 0);
    } else if |Items(start, end, step, descending)| <= LOOP_LIMIT {
      CollectAfterOverflow(start, end, step, descending, 0);
    }
  }

  /** A range the generated code visits once and for which the evaluator silently yields three items. */
  lemma ComptimeOverflowExample()
    ensures var start, end, step := TWO63 - 3, TWO63 - 2, 0x5555_5555_5555_5556;
            && ValidRange(start, end, step, false)
            && Items(start, end, step, false) == [start]
            && ComptimeResult(start, end, step, false).Ok?
            && |ComptimeResult(start, end, step, false).value| == 3
  {
    var start, end, step := TWO63 - 3, TWO63 - 2, 0x5555_5555_5555_5556;
    assert Items(start + step, end, step, false) == [];
    var c1 := WrapInt(start + step);
    var c2 := WrapInt(c1 + step);
    var c3 := WrapInt(c2 + step);
    assert c1 == start + step - TWO64 && c2 == c1 + step && c3 == c2 + step;
    assert Collect(c3, end, step, false, 3) == [];
    assert Collect(c2, end, step, false, 2) == [c2];
    assert Collect(c1, end, step, false, 1) == [c1] + [c2];
  }
}
