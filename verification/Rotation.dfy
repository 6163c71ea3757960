/** Walking round a list from an arbitrary start: (start + k) % n. */
module Rotation {

  function Around(start: nat, k: nat, n: nat): (i: nat)
    requires n > 0
    ensures i < n
  {
    (start + k) % n
  }

  lemma MultiplesAreApart(d: int, n: int)
    requires n > 0 && d != 0
    ensures d * n >= n || d * n <= -n
  {
    if d > 0 {
      assert (d - 1) * n >= 0;
    } else {
      assert (-d - 1) * n >= 0;
    }
  }

  lemma RemainderIsUnique(x: int, n: int, q: int, r: int)
    requires n > 0 && 0 <= r < n && x == q * n + r
    ensures x % n == r
  {
    var d := q - x / n;
    assert x == (x / n) * n + x % n;
    assert d * n == x % n - r;
    if d != 0 {
      MultiplesAreApart(d, n);
    }
  }

  /** The walk, one lap at a time. */
  lemma AroundWraps(start: nat, k: nat, n: nat)
    requires n > 0 && k < n
    ensures var m := start % n; Around(start, k, n) == if m + k < n then m + k else m + k - n
  {
    var q, m := start / n, start % n;
    assert start == q * n + m;
    if m + k < n {
      RemainderIsUnique(start + k, n, q, m + k);
    } else {
      assert start + k == (q + 1) * n + (m + k - n);
      RemainderIsUnique(start + k, n, q + 1, m + k - n);
    }
  }

  /** How many steps lead from `start` to position `i`. */
  function StepsTo(start: nat, i: nat, n: nat): (k: nat)
    requires i < n
    ensures k < n
  {
    var m := start % n;
    if m <= i then i - m else i + n - m
  }

  /** One lap visits every position exactly once. */
  lemma LapVisitsOnce(start: nat, i: nat, k: nat, n: nat)
    requires i < n && k < n
    ensures Around(start, k, n) == i <==> k == StepsTo(start, i, n)
  {
    AroundWraps(start, k, n);
  }
}
