/** Remainders, and going around in a circle of places. */
module Modular {
  lemma {:induction false} ModShift(y: int, k: int, m: nat)
    requires m > 0
    ensures (y + k * m) % m == y % m
  {
    var q, r := y / m, y % m;
    assert y + k * m == (q + k) * m + r;
    ModUnique(y + k * m, q + k, r, m);
  }

  lemma {:induction false} ModUnique(x: int, q: int, r: int, m: nat)
    requires m > 0 && 0 <= r < m && x == q * m + r
    ensures x % m == r
  {
    var q', r' := x / m, x % m;
    assert x == q' * m + r';
    Spread(q - q', m);
    assert (q - q') * m == q * m - q' * m;
  }

  lemma {:induction false} Spread(k: int, m: nat)
    ensures k == 0 || k * m >= m || k * m + m <= 0
    decreases if k < 0 then -k else k
  {
    if k > 1 {
      Spread(k - 1, m);
      assert k * m == (k - 1) * m + m;
    } else if k < -1 {
      Spread(k + 1, m);
      assert k * m == (k + 1) * m - m;
    }
  }

  lemma {:induction false} ModOnce(x: nat, m: nat)
    requires 0 < m && x < 2 * m
    ensures x % m == if x < m then x else x - m
  {
    if x >= m {
      assert x == m + (x - m);
    }
  }

  lemma {:induction false} DivMod(x: nat, q: nat, r: nat, k: nat)
    requires r < k && x == q * k + r
    ensures x / k == q && x % k == r
  {
    ModUnique(x, q, r, k);
    assert x == (x / k) * k + r;
    Spread(x / k - q, k);
    assert (x / k - q) * k == (x / k) * k - q * k;
  }

  /** One place further around n places. */
  function Around(i: nat, n: nat): (j: nat)
    requires i < n
    ensures j < n
  {
    if i + 1 < n then i + 1 else 0
  }

  lemma {:induction false} AroundIsInjective(i: nat, j: nat, n: nat)
    requires i < n && j < n
    ensures Around(i, n) == Around(j, n) <==> i == j
  {
  }

  lemma {:induction false} AdvanceOne(x: nat, n: nat)
    requires n > 0
    ensures (x + 1) % n == Around(x % n, n)
  {
    var q, r := x / n, x % n;
    assert x + 1 == (r + 1) + q * n;
    ModShift(r + 1, q, n);
    ModOnce(r + 1, n);
  }
}
