/** Money arithmetic: quantity times price, and the conversion of a C `double` to an `int`. */
module Rounding {

  // ---------- Products ----------

  /**
   * `n` units at price `p`. Written as repeated addition, which keeps every proof below linear;
   * `TimesIsProduct` says that it is the product.
   */
  function Times(n: int, p: real): real
    decreases if n >= 0 then n else -n
  {
    if n == 0 then 0.0
    else if n > 0 then Times(n - 1, p) + p
    else Times(n + 1, p) - p
  }

  lemma {:induction false} TimesIsProduct(n: int, p: real)
    ensures Times(n, p) == n as real * p
    decreases if n >= 0 then n else -n
  {
    if n > 0 {
      TimesIsProduct(n - 1, p);
      assert n as real == (n - 1) as real + 1.0;
    } else if n < 0 {
      TimesIsProduct(n + 1, p);
      assert n as real == (n + 1) as real - 1.0;
    }
  }

  lemma {:induction false} TimesSplit(q: int, n: int, p: real)
    requires 0 <= n <= q
    ensures Times(q - n, p) == Times(q, p) - Times(n, p)
  {
    if n < q {
      TimesSplit(q - 1, n, p);
    }
  }

  lemma {:induction false} TimesNonNegative(n: int, p: real)
    requires n >= 0 && p >= 0.0
    ensures Times(n, p) >= 0.0
  {
    if n > 0 {
      TimesNonNegative(n - 1, p);
    }
  }

  lemma {:induction false} TimesMonotone(n: int, p: real, p': real)
    requires n >= 0 && p <= p'
    ensures Times(n, p) <= Times(n, p')
  {
    if n > 0 {
      TimesMonotone(n - 1, p, p');
    }
  }

  // ---------- Rounding ----------

  /** Rounds toward zero. */
  function Trunc(x: real): (n: int)
    ensures 0.0 <= x ==> 0 <= n && n as real <= x < n as real + 1.0
    ensures x <= 0.0 ==> n <= 0 && n as real - 1.0 < x <= n as real
  {
    if x >= 0.0 then x.Floor else -((-x).Floor)
  }

  /** Rounds up. */
  function Ceil(x: real): (n: int)
    ensures n as real - 1.0 < x <= n as real
  {
    -((-x).Floor)
  }

  predicate Whole(x: real) {
    x == x.Floor as real
  }

  lemma WholeWitness(x: real, k: int)
    requires x == k as real
    ensures Whole(x)
  {
    assert (k as real).Floor == k;
  }

  lemma WholeSum(x: real, y: real)
    requires Whole(x) && Whole(y)
    ensures Whole(x + y) && Whole(x - y)
  {
    var j, k := x.Floor, y.Floor;
    WholeWitness(x + y, j + k);
    WholeWitness(x - y, j - k);
  }

  lemma TruncOfWhole(x: real, k: int)
    requires x == k as real
    ensures Trunc(x) == k
  {
    var n := Trunc(x);
    assert n as real - 1.0 < k as real < n as real + 1.0;
    assert (n - 1) as real < k as real < (n + 1) as real;
  }

  lemma {:induction false} WholeTimes(n: int, p: real)
    requires n >= 0 && Whole(p)
    ensures Whole(Times(n, p))
  {
    if n == 0 {
      WholeWitness(Times(n, p), 0);
    } else {
      WholeTimes(n - 1, p);
      WholeSum(Times(n - 1, p), p);
    }
  }

  lemma TruncMonotone(x: real, y: real)
    requires 0.0 <= x <= y
    ensures Trunc(x) <= Trunc(y)
  {
    assert Trunc(x) as real < (Trunc(y) + 1) as real;
  }

  lemma CeilMonotone(x: real, y: real)
    requires x <= y
    ensures Ceil(x) <= Ceil(y)
  {
    assert (Ceil(x) - 1) as real < Ceil(y) as real;
  }

  /** A payment is rounded up, or down when the balance is negative after it. */
  lemma RoundedPayment(omg: int, cost: real)
    requires 0.0 <= cost
    ensures omg - Trunc(omg as real - cost) == if omg as real - cost >= 0.0 then Ceil(cost) else Trunc(cost)
  {
    var k := omg - Trunc(omg as real - cost);
    assert k as real == omg as real - Trunc(omg as real - cost) as real;
    if omg as real - cost >= 0.0 {
      assert (k - 1) as real < cost <= k as real;
      assert (k - 1) as real < Ceil(cost) as real && (Ceil(cost) - 1) as real < k as real;
    } else {
      assert k as real <= cost < (k + 1) as real;
      assert k as real < (Trunc(cost) + 1) as real && Trunc(cost) as real < (k + 1) as real;
    }
  }

  /** A receipt is rounded down, or up when the balance stays negative. */
  lemma RoundedReceipt(omg: int, cost: real)
    requires 0.0 <= cost
    ensures Trunc(omg as real + cost) - omg == if omg as real + cost >= 0.0 then Trunc(cost) else Ceil(cost)
    ensures Trunc(cost) <= Ceil(cost)
  {
    var k := Trunc(omg as real + cost) - omg;
    assert k as real == Trunc(omg as real + cost) as real - omg as real;
    if omg as real + cost >= 0.0 {
      assert k as real <= cost < (k + 1) as real;
      assert k as real < (Trunc(cost) + 1) as real && Trunc(cost) as real < (k + 1) as real;
    } else {
      assert (k - 1) as real < cost <= k as real;
      assert (k - 1) as real < Ceil(cost) as real && (Ceil(cost) - 1) as real < k as real;
    }
    assert Trunc(cost) as real <= Ceil(cost) as real;
  }

  /** Paying a price and reserving the rest of a total never costs more than the total, rounded up. */
  lemma RoundedDebits(omg: int, total: real, paid: real, rest: real)
    requires omg as real >= total && 0.0 <= paid && 0.0 <= rest && paid + rest <= total
    ensures var left := Trunc(omg as real - paid);
            && Trunc(rest) <= left
            && omg - left + Trunc(rest) <= Ceil(total)
  {
    var due := omg as real - paid;
    var left, r := Trunc(due), Trunc(rest);
    assert r as real <= rest <= due < left as real + 1.0;
    assert (omg - left + r) as real == omg as real - left as real + r as real;
    assert (omg - left + r) as real < total + 1.0;
    assert (omg - left + r) as real < (Ceil(total) + 1) as real;
  }

  /**
   * The rounding fact behind `buy`. A buyer who can pay `q` units at `limit` buys `n` of them at the
   * resting price `p`; what is left still covers the reservation of the rest, and both debits
   * together stay within the cost at the limit, rounded up.
   */
  lemma RemainderAffordable(omg: int, q: int, n: int, limit: real, p: real)
    requires 0 <= n <= q && 0.0 <= p <= limit
    requires omg as real >= Times(q, limit)
    ensures var left := Trunc(omg as real - Times(n, p));
            && Trunc(Times(q - n, limit)) <= left
            && omg - left + Trunc(Times(q - n, limit)) <= Ceil(Times(q, limit))
  {
    TimesSplit(q, n, limit);
    TimesMonotone(n, p, limit);
    TimesNonNegative(n, p);
    TimesNonNegative(q - n, limit);
    RoundedDebits(omg, Times(q, limit), Times(n, p), Times(q - n, limit));
  }
}
