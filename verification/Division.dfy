/** Division that truncates toward zero, as in Go and C. */
module Division {
  function Magnitude(a: int): nat { if a < 0 then -a else a }

  function Quotient(a: int, b: int): int
    requires b != 0
  {
    if (a >= 0) == (b > 0) then Magnitude(a) / Magnitude(b) else -(Magnitude(a) / Magnitude(b))
  }

  /** The quotient leaves a remainder smaller than the divisor and not of the other sign than the dividend. */
  ghost predicate Divides(a: int, b: int, q: int) {
    var r := a - q * b;
    (-b < r < b || b < r < -b) && (r > 0 ==> a > 0) && (r < 0 ==> a < 0)
  }

  lemma QuotientOnce(a: int, b: int, q: int, q': int)
    requires b != 0 && Divides(a, b, q) && Divides(a, b, q')
    ensures q == q'
  {
    var r, r' := a - q * b, a - q' * b;
    assert (q - q') * b == r' - r;
    if q != q' {
      FarMultiple(q - q', b);
    }
  }

  lemma FarMultiple(d: int, b: int)
    requires d != 0
    ensures b >= 0 ==> d * b >= b || d * b <= -b
    ensures b < 0 ==> d * b <= b || d * b >= -b
  {
  }

  lemma QuotientDivides(a: int, b: int)
    requires b != 0
    ensures Divides(a, b, Quotient(a, b))
  {
    hide Divides;
    var k, r := DivMod(Magnitude(a), Magnitude(b));
    SignedQuotient(a, b, k, r);
  }

  lemma DivMod(m: nat, n: nat) returns (k: int, r: int)
    requires n > 0
    ensures k == m / n && k >= 0 && m == k * n + r && 0 <= r < n
  {
    k, r := m / n, m % n;
  }

  lemma SignedQuotient(a: int, b: int, k: int, r: int)
    requires k >= 0 && Magnitude(a) == k * Magnitude(b) + r && 0 <= r < Magnitude(b)
    ensures Divides(a, b, if (a >= 0) == (b > 0) then k else -k)
  {
    var n := Magnitude(b);
    var t := k * n;
    assert t >= 0;
    SignedProduct(k, b);
  }

  lemma SignedProduct(k: int, b: int)
    ensures k * b == if b < 0 then -(k * Magnitude(b)) else k * Magnitude(b)
    ensures -k * b == -(k * b)
  {
  }

  /** The quotient is the one number that leaves such a remainder. */
  lemma QuotientIff(a: int, b: int, q: int)
    requires b != 0
    ensures Divides(a, b, q) <==> q == Quotient(a, b)
  {
    hide Divides, Quotient;
    QuotientDivides(a, b);
    if Divides(a, b, q) {
      QuotientOnce(a, b, q, Quotient(a, b));
    }
  }
}
