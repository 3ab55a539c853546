/** Named products and quotients of real numbers: equal operands give equal results
    by name alone, which keeps the proofs about long products short. */
module Reals {

  function Times(a: real, b: real): (r: real)
    ensures a >= 0.0 && b >= 0.0 ==> r >= 0.0
    ensures a > 0.0 && b > 0.0 ==> r > 0.0
  {
    a * b
  }

  function Over(a: real, b: real): real
    requires b != 0.0
  {
    a / b
  }

  lemma TimesOne(a: real)
    ensures Times(1.0, a) == a && Times(a, 1.0) == a && Times(a, 0.0) == 0.0 && Times(0.0, a) == 0.0
  {
  }

  lemma TimesCommutes(a: real, b: real)
    ensures Times(a, b) == Times(b, a)
  {
  }

  lemma TimesAssociates(a: real, b: real, c: real)
    ensures Times(Times(a, b), c) == Times(a, Times(b, c))
  {
  }

  /** The two last factors change places. */
  lemma TimesSwaps(a: real, b: real, c: real)
    ensures Times(Times(a, b), c) == Times(Times(a, c), b)
  {
    TimesAssociates(a, b, c);
    TimesAssociates(a, c, b);
    TimesCommutes(b, c);
  }

  lemma TimesOfDifference(a: real, b: real, c: real)
    ensures Times(b - a, c) == Times(b, c) - Times(a, c)
  {
  }

  lemma TimesOrder(a: real, b: real, c: real)
    requires c > 0.0
    ensures Times(a, c) <= Times(b, c) <==> a <= b
    ensures Times(c, a) <= Times(c, b) <==> a <= b
  {
    TimesCommutes(a, c);
    TimesCommutes(b, c);
    TimesOfDifference(a, b, c);
    TimesOfDifference(b, a, c);
  }

  lemma TimesMonotone(a: real, b: real, c: real, d: real)
    requires 0.0 <= a <= b && 0.0 <= c <= d
    ensures 0.0 <= Times(a, c) <= Times(b, d)
  {
    TimesOfDifference(a, b, c);
    TimesOfDifference(c, d, b);
    TimesCommutes(b, c);
    TimesCommutes(b, d);
  }

  lemma OverTimes(a: real, b: real)
    requires b != 0.0
    ensures Times(Over(a, b), b) == a
  {
  }

  /** A quotient is known by its product with the divisor. */
  lemma OverIs(a: real, b: real, q: real)
    requires b > 0.0 && Times(q, b) == a
    ensures Over(a, b) == q
  {
    OverTimes(a, b);
    TimesOrder(q, Over(a, b), b);
    TimesOrder(Over(a, b), q, b);
  }

  lemma OverOfTimes(n: real, a: real, b: real)
    requires b > 0.0
    ensures Over(Times(n, a), b) == Times(n, Over(a, b))
  {
    OverTimes(a, b);
    TimesAssociates(n, Over(a, b), b);
    OverIs(Times(n, a), b, Times(n, Over(a, b)));
  }

  lemma OverAtMost(a: real, c: real, r: real)
    requires c > 0.0 && 0.0 <= a <= Times(r, c)
    ensures 0.0 <= Over(a, c) <= r
  {
    OverTimes(a, c);
    TimesOrder(Over(a, c), r, c);
    TimesOrder(0.0, Over(a, c), c);
    TimesOne(c);
  }

  lemma OverMonotone(a: real, b: real, c: real, d: real)
    requires 0.0 <= a <= b && c >= d > 0.0
    ensures 0.0 <= Over(a, c) <= Over(b, d)
  {
    var r := Over(b, d);
    OverTimes(b, d);
    TimesOrder(0.0, r, d);
    TimesOne(d);
    TimesMonotone(r, r, d, c);
    OverAtMost(a, c, r);
  }

  lemma OverPositive(a: real, b: real)
    requires a > 0.0 && b > 0.0
    ensures Over(a, b) > 0.0
  {
    OverTimes(a, b);
    TimesOrder(Over(a, b), 0.0, b);
    TimesOne(b);
  }

  /** Of two products the order is that of the factors across. */
  lemma CrossOrder(base: real, p: real, q: real, a: real, b: real, x: real, y: real)
    requires base > 0.0 && a > 0.0 && b > 0.0
    requires Times(p, a) == Times(base, x) && Times(q, b) == Times(base, y)
    ensures q <= p <==> Times(y, a) <= Times(x, b)
  {
    var left, right := Times(Times(q, b), a), Times(Times(p, b), a);
    TimesOrder(q, p, b);
    TimesOrder(Times(q, b), Times(p, b), a);
    assert left == Times(base, Times(y, a)) by {
      TimesAssociates(base, y, a);
    }
    assert right == Times(base, Times(x, b)) by {
      TimesSwaps(p, b, a);
      TimesAssociates(base, x, b);
    }
    TimesOrder(Times(y, a), Times(x, b), base);
  }
}
