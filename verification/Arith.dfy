/** The few facts about integer and real arithmetic that several components rest on. */
module Arith {

  lemma AtLeastOnce(k: int, d: int)
    requires k >= 1 && d >= 0
    ensures k * d >= d
  {
  }

  lemma {:induction false} SameDecomposition(d: int, q: int, r: int, q': int, r': int)
    requires q * d + r == q' * d + r'
    requires 0 <= r < d && 0 <= r' < d
    ensures q == q' && r == r'
  {
    if q < q' {
      AtLeastOnce(q' - q, d);
    } else if q' < q {
      AtLeastOnce(q - q', d);
    }
  }

  lemma Decompose(n: int, d: int)
    requires d >= 1
    ensures n == n / d * d + n % d && 0 <= n % d < d
  {
    assert n / d * d == d * (n / d);
  }

  /** Quotient and remainder are unique. */
  lemma RemainderIs(n: int, d: int, q: int, r: int)
    requires 0 <= r < d && n == q * d + r
    ensures n % d == r && n / d == q
  {
    Decompose(n, d);
    SameDecomposition(d, q, r, n / d, n % d);
  }

  lemma NextCursor(n: nat, capacity: nat)
    requires capacity >= 1
    ensures (n + 1) % capacity == (n % capacity + 1) % capacity
    ensures (n + 1) % capacity == if n % capacity + 1 == capacity then 0 else n % capacity + 1
    ensures n < capacity ==> n % capacity == n
  {
    var q, p := n / capacity, n % capacity;
    Decompose(n, capacity);
    if p + 1 == capacity {
      assert n + 1 == (q + 1) * capacity + 0;
      RemainderIs(n + 1, capacity, q + 1, 0);
      RemainderIs(p + 1, capacity, 1, 0);
    } else {
      RemainderIs(n + 1, capacity, q, p + 1);
      RemainderIs(p + 1, capacity, 0, p + 1);
    }
    if n < capacity {
      RemainderIs(n, capacity, 0, n);
    }
  }

  // ---- reals ----

  function Abs(x: real): (r: real)
    ensures r >= 0.0 && (r == x || r == -x)
  {
    if x < 0.0 then -x else x
  }

  predicate NonNegative(ws: seq<real>) {
    forall i | 0 <= i < |ws| :: ws[i] >= 0.0
  }

  // ---- products and quotients of reals ----

  /** A product, named so that proofs can keep it closed. */
  function Times(a: real, b: real): real {
    a * b
  }

  /** A quotient, named for the same reason. */
  function Quotient(a: real, d: real): real
    requires d > 0.0
  {
    a / d
  }

  lemma QuotientTimes(a: real, d: real)
    requires d > 0.0
    ensures Times(Quotient(a, d), d) == a && Quotient(Times(a, d), d) == a
    ensures Quotient(a, d) == Times(1.0 / d, a) && 1.0 / d > 0.0
  {
    QuotientIsProduct(a, d);
    QuotientIsProduct(Times(a, d), d);
    CancelUnit(a, 1.0 / d, d);
    assert Times(a, d) * (1.0 / d) == a;
  }

  lemma QuotientMonotone(a: real, b: real, d: real)
    requires a <= b && d > 0.0
    ensures Quotient(a, d) <= Quotient(b, d)
  {
    QuotientsOrdered(a, b, d);
  }

  lemma TimesDistributes(a: real, b: real, k: real)
    ensures Times(a + b, k) == Times(a, k) + Times(b, k)
    ensures Times(a - b, k) == Times(a, k) - Times(b, k)
    ensures Times(0.0, k) == 0.0 && Times(1.0, k) == k && Times(a, k) == Times(k, a)
  {
  }

  lemma TimesAssociates(a: real, b: real, c: real)
    ensures Times(Times(a, b), c) == Times(a, Times(b, c))
  {
  }

  lemma ScaleMonotone(a: real, b: real, k: real)
    requires a <= b && k >= 0.0
    ensures a * k <= b * k
    ensures k > 0.0 && a > 0.0 ==> a * k > 0.0
  {
  }

  lemma QuotientIsProduct(a: real, d: real)
    requires d > 0.0
    ensures a / d == a * (1.0 / d) && 1.0 / d > 0.0
  {
    var q, k := a / d, 1.0 / d;
    assert q * d == a && k * d == 1.0;
    CancelUnit(q, k, d);
  }

  lemma CancelUnit(q: real, k: real, d: real)
    requires k * d == 1.0
    ensures q == (q * d) * k
  {
    assert (q * d) * k == q * (k * d);
  }

  lemma QuotientsOrdered(a: real, b: real, d: real)
    requires a <= b && d > 0.0
    ensures a / d <= b / d
    ensures a > 0.0 ==> a / d > 0.0
  {
    QuotientIsProduct(a, d);
    QuotientIsProduct(b, d);
    ScaleMonotone(a, b, 1.0 / d);
  }

  lemma FractionOf(k: real, d: real)
    requires 0.0 <= k <= 1.0 && d >= 0.0
    ensures 0.0 <= Times(k, d) <= d && Times(k, -d) == -Times(k, d)
  {
    ScaleMonotone(0.0, k, d);
    ScaleMonotone(k, 1.0, d);
  }
}
