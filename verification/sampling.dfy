/** Deterministic 1-in-N election: the arithmetic both samplers share. */
module Sampling {
  /** ceil(n / rate). */
  function CeilDiv(n: nat, rate: nat): nat
    requires rate > 0
  {
    (n + rate - 1) / rate
  }

  /** Whether call number `n` (from 0) is the first of a group of `rate`. */
  predicate StartsGroup(n: nat, rate: nat)
    requires rate > 0
  {
    n % rate == 0
  }

  /** The next call is elected exactly when it starts a new group of `rate`. */
  lemma CeilStep(n: nat, rate: nat)
    requires rate > 0
    ensures CeilDiv(n + 1, rate) == CeilDiv(n, rate) + if StartsGroup(n, rate) then 1 else 0
  {
    var q, r := n / rate, n % rate;
    assert n == q * rate + r;
    if r == 0 {
      DivIs(n + rate - 1, rate, q, rate - 1);
      DivIs(n + 1 + rate - 1, rate, q + 1, 0);
    } else {
      DivIs(n + rate - 1, rate, q + 1, r - 1);
      DivIs(n + 1 + rate - 1, rate, q + 1, r);
    }
  }

  lemma DivIs(n: nat, d: nat, q: nat, r: nat)
    requires d > 0 && r < d && n == q * d + r
    ensures n / d == q
  {
    var q', r' := n / d, n % d;
    assert (q - q') * d == r' - r;
    if q != q' {
      assert false by {
        if q > q' { MulAtLeast(q - q', d); } else { MulAtLeast(q' - q, d); }
      }
    }
  }

  lemma MulAtLeast(k: nat, d: nat)
    requires k >= 1
    ensures k * d >= d
  {}

  lemma CeilZero(rate: nat)
    requires rate > 0
    ensures CeilDiv(0, rate) == 0
  {
    DivIs(rate - 1, rate, 0, rate - 1);
  }

  lemma CeilOne(n: nat)
    ensures CeilDiv(n, 1) == n
  {}

  /** Scaling the elected calls back up over-counts by less than one group. */
  lemma CeilBound(n: nat, rate: nat)
    requires rate > 0
    ensures n <= rate * CeilDiv(n, rate) < n + rate
  {
    assert n + rate - 1 == rate * CeilDiv(n, rate) + (n + rate - 1) % rate;
  }

  lemma OneStartsAll(n: nat)
    ensures StartsGroup(n, 1)
  {}

  lemma Distribute(k: int, a: int, b: int)
    ensures k * (a + b) == k * a + k * b
  {}
}
