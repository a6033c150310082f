/** Counting the trials in which something happens. */
module Counting {
  ghost function CountTrue(p: nat -> bool, n: nat): nat {
    if n == 0 then 0 else CountTrue(p, n - 1) + if p(n - 1) then 1 else 0
  }

  lemma {:induction false} CountMonotone(p: nat -> bool, q: nat -> bool, n: nat)
    requires forall m: nat | m < n :: p(m) ==> q(m)
    ensures CountTrue(p, n) <= CountTrue(q, n)
  {
    if n > 0 {
      CountMonotone(p, q, n - 1);
    }
  }

  lemma {:induction false} CountBounded(p: nat -> bool, n: nat)
    ensures CountTrue(p, n) <= n
  {
    if n > 0 {
      CountBounded(p, n - 1);
    }
  }

  lemma {:induction false} CountNone(p: nat -> bool, n: nat)
    requires forall m: nat | m < n :: !p(m)
    ensures CountTrue(p, n) == 0
  {
    if n > 0 {
      CountNone(p, n - 1);
    }
  }

  lemma {:induction false} WinCounts(p: nat -> bool, m: nat, n: nat)
    requires m < n && p(m)
    ensures CountTrue(p, n) > 0
  {
    if m < n - 1 {
      WinCounts(p, m, n - 1);
    }
  }

  /** Counts add up over a case split that covers p exactly once. */
  lemma {:induction false} CountSum(p: nat -> bool, q: nat -> bool, r: nat -> bool, n: nat)
    requires forall m: nat | m < n :: (p(m) <==> q(m) || r(m)) && !(q(m) && r(m))
    ensures CountTrue(p, n) == CountTrue(q, n) + CountTrue(r, n)
  {
    if n > 0 {
      CountSum(p, q, r, n - 1);
    }
  }

  ghost function SumOver(f: nat -> nat, n: nat): nat {
    if n == 0 then 0 else SumOver(f, n - 1) + f(n - 1)
  }

  lemma {:induction false} SumBounded(f: nat -> nat, bound: nat, n: nat)
    requires forall t: nat | t < n :: f(t) <= bound
    ensures SumOver(f, n) <= n * bound
  {
    if n > 0 {
      SumBounded(f, bound, n - 1);
      assert n * bound == (n - 1) * bound + bound;
    }
  }

  /** Adding a fixed amount whenever p holds adds up to that many times its count. */
  lemma {:induction false} SumIsMultiple(f: nat -> nat, p: nat -> bool, m: nat, n: nat)
    requires forall t: nat | t < n :: f(t) == if p(t) then m else 0
    ensures SumOver(f, n) == m * CountTrue(p, n)
  {
    if n > 0 {
      SumIsMultiple(f, p, m, n - 1);
      var w := CountTrue(p, n - 1);
      assert m * (w + 1) == m * w + m;
    }
  }

  lemma {:induction false} SumOfTwo(f: nat -> nat, n: nat, a: nat, b: nat)
    requires a < n && b < n && a != b
    ensures SumOver(f, n) >= f(a) + f(b)
  {
    if a < n - 1 && b < n - 1 {
      SumOfTwo(f, n - 1, a, b);
    } else {
      SumHas(f, n - 1, if a < n - 1 then a else b);
    }
  }

  lemma {:induction false} SumHas(f: nat -> nat, n: nat, a: nat)
    requires a < n
    ensures SumOver(f, n) >= f(a)
  {
    if a < n - 1 {
      SumHas(f, n - 1, a);
    }
  }

  lemma {:induction false} SumOfOne(f: nat -> nat, n: nat, a: nat)
    requires a < n && forall b: nat | b < n && b != a :: f(b) == 0
    ensures SumOver(f, n) == f(a)
  {
    if a < n - 1 {
      SumOfOne(f, n - 1, a);
    } else {
      SumOfNone(f, n - 1);
    }
  }

  lemma {:induction false} SumOfNone(f: nat -> nat, n: nat)
    requires forall b: nat | b < n :: f(b) == 0
    ensures SumOver(f, n) == 0
  {
    if n > 0 {
      SumOfNone(f, n - 1);
    }
  }

  lemma {:induction false} SumAdds(f: nat -> nat, g: nat -> nat, h: nat -> nat, n: nat)
    requires forall e: nat | e < n :: h(e) == f(e) + g(e)
    ensures SumOver(h, n) == SumOver(f, n) + SumOver(g, n)
  {
    if n > 0 {
      SumAdds(f, g, h, n - 1);
    }
  }

  /** Sequences of counts that start equal and grow by the same amounts stay equal. */
  lemma {:induction false} SameSteps(f: nat -> nat, g: nat -> nat, n: nat)
    requires f(0) == g(0) && forall k: nat | k < n :: f(k + 1) - f(k) == g(k + 1) - g(k)
    ensures f(n) == g(n)
  {
    if n > 0 {
      SameSteps(f, g, n - 1);
      assert f((n - 1) + 1) - f(n - 1) == g((n - 1) + 1) - g(n - 1);
    }
  }
}
