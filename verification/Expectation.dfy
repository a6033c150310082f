/** Means over independent events with given probabilities, and conditioning such a mean on a group of them. */
module Expectation {
  import opened Probability

  type Bits = seq<bool>

  /** What a function of the bits becomes once the first ones are known. */
  ghost function After(f: Bits -> real, first: Bits): Bits -> real {
    (rest: Bits) => f(first + rest)
  }

  /** The mean of `f` over bits that are independently true with the given rates. */
  ghost function Expect(rates: seq<real>, f: Bits -> real): real
    decreases |rates|
  {
    if rates == [] then f([])
    else Mix(rates[0], Expect(rates[1..], After(f, [true])), Expect(rates[1..], After(f, [false])))
  }

  /** 1 where the event happens. */
  ghost function Indicator(event: Bits -> bool): Bits -> real {
    (bits: Bits) => if event(bits) then 1.0 else 0.0
  }

  /** The probability of an event. */
  ghost function Chance(rates: seq<real>, event: Bits -> bool): real {
    Expect(rates, Indicator(event))
  }

  lemma {:induction false} SameExpect(rates: seq<real>, f: Bits -> real, g: Bits -> real)
    requires forall bits | |bits| == |rates| :: f(bits) == g(bits)
    ensures Expect(rates, f) == Expect(rates, g)
    decreases |rates|
  {
    if rates != [] {
      SameExpect(rates[1..], After(f, [true]), After(g, [true]));
      SameExpect(rates[1..], After(f, [false]), After(g, [false]));
    }
  }

  lemma {:induction false} ConstantExpect(rates: seq<real>, f: Bits -> real, c: real)
    requires forall bits | |bits| == |rates| :: f(bits) == c
    ensures Expect(rates, f) == c
    decreases |rates|
  {
    if rates != [] {
      ConstantExpect(rates[1..], After(f, [true]), c);
      ConstantExpect(rates[1..], After(f, [false]), c);
      MixOfSame(rates[0], c);
    }
  }

  lemma MixOfSame(rate: real, c: real)
    ensures Mix(rate, c, c) == c
  {
  }

  lemma MixesSwap(rate: real, q: real, a: real, b: real, c: real, d: real)
    ensures Mix(rate, Mix(q, a, b), Mix(q, c, d)) == Mix(q, Mix(rate, a, c), Mix(rate, b, d))
  {
    var s, t := 1.0 - rate, 1.0 - q;
    assert rate * (q * a + t * b) == rate * (q * a) + rate * (t * b);
    assert s * (q * c + t * d) == s * (q * c) + s * (t * d);
    assert q * (rate * a + s * c) == q * (rate * a) + q * (s * c);
    assert t * (rate * b + s * d) == t * (rate * b) + t * (s * d);
    assert rate * (q * a) == q * (rate * a) && rate * (t * b) == t * (rate * b);
    assert s * (q * c) == q * (s * c) && s * (t * d) == t * (s * d);
  }

  lemma MixesNest(rate: real, p: real, q: real, u: real, d: real)
    ensures Mix(rate, Mix(p, u, d), Mix(q, u, d)) == Mix(Mix(rate, p, q), u, d)
  {
    var s := 1.0 - rate;
    assert rate * (p * u + (1.0 - p) * d) == (rate * p) * u + rate * d - (rate * p) * d;
    assert s * (q * u + (1.0 - q) * d) == (s * q) * u + s * d - (s * q) * d;
    assert rate * d + s * d == d;
    assert Mix(rate, p, q) * u == (rate * p) * u + (s * q) * u;
    assert (1.0 - Mix(rate, p, q)) * d == d - (rate * p) * d - (s * q) * d;
  }

  /** The mean of a mixture is the mixture of the means. */
  lemma {:induction false} MixtureExpect(rates: seq<real>, h: Bits -> real, q: real, f: Bits -> real, g: Bits -> real)
    requires forall bits | |bits| == |rates| :: h(bits) == Mix(q, f(bits), g(bits))
    ensures Expect(rates, h) == Mix(q, Expect(rates, f), Expect(rates, g))
    decreases |rates|
  {
    if rates != [] {
      var rest := rates[1..];
      MixtureExpect(rest, After(h, [true]), q, After(f, [true]), After(g, [true]));
      MixtureExpect(rest, After(h, [false]), q, After(f, [false]), After(g, [false]));
      MixesSwap(rates[0], q, Expect(rest, After(f, [true])), Expect(rest, After(g, [true])),
                Expect(rest, After(f, [false])), Expect(rest, After(g, [false])));
    }
  }

  lemma MixesAdd(rate: real, a: real, b: real, c: real, d: real)
    ensures Mix(rate, a + b, c + d) == Mix(rate, a, c) + Mix(rate, b, d)
  {
    var s := 1.0 - rate;
    assert rate * (a + b) == rate * a + rate * b && s * (c + d) == s * c + s * d;
  }

  lemma {:induction false} AdditiveExpect(rates: seq<real>, h: Bits -> real, f: Bits -> real, g: Bits -> real)
    requires forall bits | |bits| == |rates| :: h(bits) == f(bits) + g(bits)
    ensures Expect(rates, h) == Expect(rates, f) + Expect(rates, g)
    decreases |rates|
  {
    if rates != [] {
      var rest := rates[1..];
      AdditiveExpect(rest, After(h, [true]), After(f, [true]), After(g, [true]));
      AdditiveExpect(rest, After(h, [false]), After(f, [false]), After(g, [false]));
      MixesAdd(rates[0], Expect(rest, After(f, [true])), Expect(rest, After(g, [true])),
               Expect(rest, After(f, [false])), Expect(rest, After(g, [false])));
    }
  }

  /** A two-valued function has the mean that mixes its values with the probability of the deciding event. */
  lemma {:induction false} TwoValuedExpect(rates: seq<real>, h: Bits -> real, event: Bits -> bool, u: real, d: real)
    requires forall bits | |bits| == |rates| :: h(bits) == if event(bits) then u else d
    ensures Expect(rates, h) == Mix(Chance(rates, event), u, d)
    decreases |rates|
  {
    if rates != [] {
      var rest := rates[1..];
      Branch(rates, h, event, u, d, true);
      Branch(rates, h, event, u, d, false);
      MixesNest(rates[0], Chance(rest, Given(event, true)), Chance(rest, Given(event, false)), u, d);
      ChanceUnfolds(rates, event);
    }
  }

  ghost function Given(event: Bits -> bool, bit: bool): Bits -> bool {
    (rest: Bits) => event([bit] + rest)
  }

  lemma ChanceUnfolds(rates: seq<real>, event: Bits -> bool)
    requires rates != []
    ensures Chance(rates, event) == Mix(rates[0], Chance(rates[1..], Given(event, true)),
        Chance(rates[1..], Given(event, false)))
  {
    SameExpect(rates[1..], After(Indicator(event), [true]), Indicator(Given(event, true)));
    SameExpect(rates[1..], After(Indicator(event), [false]), Indicator(Given(event, false)));
  }

  lemma Branch(rates: seq<real>, h: Bits -> real, event: Bits -> bool, u: real, d: real, bit: bool)
    requires rates != [] && forall bits | |bits| == |rates| :: h(bits) == if event(bits) then u else d
    ensures Expect(rates[1..], After(h, [bit])) == Mix(Chance(rates[1..], Given(event, bit)), u, d)
    decreases |rates|, 0
  {
    forall rest: Bits | |rest| == |rates[1..]|
      ensures After(h, [bit])(rest) == if Given(event, bit)(rest) then u else d
    {
      assert |[bit] + rest| == |rates|;
    }
    TwoValuedExpect(rates[1..], After(h, [bit]), Given(event, bit), u, d);
  }

  /** The mean over the bits that follow, as a function of those that come first. */
  ghost function Inner(rates: seq<real>, f: Bits -> real): Bits -> real {
    (first: Bits) => Expect(rates, After(f, first))
  }

  /** Means over independent groups of bits nest. */
  lemma {:induction false} NestedExpect(first: seq<real>, rest: seq<real>, f: Bits -> real)
    ensures Expect(first + rest, f) == Expect(first, Inner(rest, f))
    decreases |first|
  {
    if first == [] {
      assert first + rest == rest;
      assert Inner(rest, f)([]) == Expect(rest, After(f, []));
      forall bits: Bits
        ensures f(bits) == After(f, [])(bits)
      {
        assert [] + bits == bits;
      }
      SameExpect(rest, f, After(f, []));
    } else {
      assert (first + rest)[1..] == first[1..] + rest && (first + rest)[0] == first[0];
      NestedBranch(first, rest, f, true);
      NestedBranch(first, rest, f, false);
    }
  }

  lemma NestedBranch(first: seq<real>, rest: seq<real>, f: Bits -> real, bit: bool)
    requires first != []
    ensures Expect(first[1..] + rest, After(f, [bit])) == Expect(first[1..], After(Inner(rest, f), [bit]))
    decreases |first|, 0
  {
    NestedExpect(first[1..], rest, After(f, [bit]));
    forall bits: Bits
      ensures Inner(rest, After(f, [bit]))(bits) == After(Inner(rest, f), [bit])(bits)
    {
      forall more: Bits
        ensures After(After(f, [bit]), bits)(more) == After(f, [bit] + bits)(more)
      {
        assert [bit] + (bits + more) == ([bit] + bits) + more;
      }
      SameExpect(rest, After(After(f, [bit]), bits), After(f, [bit] + bits));
    }
    SameExpect(first[1..], Inner(rest, After(f, [bit])), After(Inner(rest, f), [bit]));
  }

  // ----- conditioning on a group in the middle

  /** Bits outside the positions from `lo` to `hi` are the same. */
  ghost predicate SameOutside(x: Bits, y: Bits, lo: nat, hi: nat) {
    |x| == |y| && forall p | 0 <= p < |x| && (p < lo || p >= hi) :: x[p] == y[p]
  }

  /** The function does not depend on the bits from `lo` to `hi`. */
  ghost predicate Ignores(f: Bits -> real, lo: nat, hi: nat, n: nat) {
    forall x: Bits, y: Bits {:trigger SameOutside(x, y, lo, hi)} | |x| == n && SameOutside(x, y, lo, hi) :: f(x) == f(y)
  }

  /** The middle bits decide between two functions that do not depend on them. */
  ghost predicate Decides(h: Bits -> real, event: Bits -> bool, up: Bits -> real, down: Bits -> real, a: nat, b: nat,
      n: nat)
    requires a + b <= n
  {
    forall bits: Bits | |bits| == n :: h(bits) == if event(bits[a..a + b]) then up(bits) else down(bits)
  }

  ghost function Blank(n: nat): Bits {
    seq(n, _ => false)
  }

  /** The mean over the last group, the middle one blanked out. */
  ghost function Outer(middle: seq<real>, last: seq<real>, f: Bits -> real): Bits -> real {
    (first: Bits) => Expect(last, After(f, first + Blank(|middle|)))
  }

  lemma MiddleReplaced(x: Bits, y: Bits, w: Bits, z: Bits)
    requires |y| == |w|
    ensures SameOutside((x + y) + z, (x + w) + z, |x|, |x| + |y|)
  {
    var left, right := x + y, x + w;
    forall p | 0 <= p < |left + z| && (p < |x| || p >= |x| + |y|)
      ensures (left + z)[p] == (right + z)[p]
    {
      if p < |x| {
        assert left[p] == right[p];
      }
    }
  }

  lemma MiddleOf(x: Bits, y: Bits, z: Bits)
    ensures ((x + y) + z)[|x|..|x| + |y|] == y
  {
    assert (x + y) + z == x + (y + z);
  }

  lemma BlankedAt(f: Bits -> real, lo: nat, m: nat, n: nat, x: Bits, y: Bits, z: Bits)
    requires Ignores(f, lo, lo + m, n) && |x| == lo && |y| == m && lo + m + |z| == n
    ensures After(f, x + y)(z) == After(f, x + Blank(m))(z)
  {
    MiddleReplaced(x, y, Blank(m), z);
    assert |(x + y) + z| == n;
  }

  lemma BlankedLast(first: seq<real>, middle: seq<real>, last: seq<real>, f: Bits -> real, x: Bits, y: Bits)
    requires |x| == |first| && |y| == |middle| && Ignores(f, |first|, |first| + |middle|, |first| + |middle| + |last|)
    ensures Expect(last, After(f, x + y)) == Outer(middle, last, f)(x)
  {
    forall z: Bits | |z| == |last|
      ensures After(f, x + y)(z) == After(f, x + Blank(|middle|))(z)
    {
      BlankedAt(f, |first|, |middle|, |first| + |middle| + |last|, x, y, z);
    }
    SameExpect(last, After(f, x + y), After(f, x + Blank(|middle|)));
  }

  lemma GroupsNest(first: seq<real>, middle: seq<real>, last: seq<real>, f: Bits -> real, x: Bits)
    ensures Inner(middle + last, f)(x) == Expect(middle, Inner(last, After(f, x)))
  {
    NestedExpect(middle, last, After(f, x));
  }

  lemma InnerAt(last: seq<real>, f: Bits -> real, x: Bits, y: Bits)
    ensures Inner(last, After(f, x))(y) == Expect(last, After(f, x + y))
  {
    forall z: Bits
      ensures After(After(f, x), y)(z) == After(f, x + y)(z)
    {
      assert x + (y + z) == (x + y) + z;
    }
    SameExpect(last, After(After(f, x), y), After(f, x + y));
  }

  /** A function that ignores the middle bits has the mean over the others. */
  lemma IgnoredExpect(first: seq<real>, middle: seq<real>, last: seq<real>, f: Bits -> real)
    requires Ignores(f, |first|, |first| + |middle|, |first| + |middle| + |last|)
    ensures Expect(first + (middle + last), f) == Expect(first, Outer(middle, last, f))
  {
    NestedExpect(first, middle + last, f);
    forall x: Bits | |x| == |first|
      ensures Inner(middle + last, f)(x) == Outer(middle, last, f)(x)
    {
      GroupsNest(first, middle, last, f, x);
      forall y: Bits | |y| == |middle|
        ensures Inner(last, After(f, x))(y) == Outer(middle, last, f)(x)
      {
        InnerAt(last, f, x, y);
        BlankedLast(first, middle, last, f, x, y);
      }
      ConstantExpect(middle, Inner(last, After(f, x)), Outer(middle, last, f)(x));
    }
    SameExpect(first, Inner(middle + last, f), Outer(middle, last, f));
  }

  lemma DecidedLast(first: seq<real>, middle: seq<real>, last: seq<real>, h: Bits -> real, event: Bits -> bool,
      up: Bits -> real, down: Bits -> real, x: Bits, y: Bits)
    requires Decides(h, event, up, down, |first|, |middle|, |first| + |middle| + |last|) && |x| == |first|
        && |y| == |middle|
    ensures Expect(last, After(h, x + y)) == Expect(last, After(if event(y) then up else down, x + y))
  {
    forall z: Bits | |z| == |last|
      ensures After(h, x + y)(z) == After(if event(y) then up else down, x + y)(z)
    {
      MiddleOf(x, y, z);
    }
    SameExpect(last, After(h, x + y), After(if event(y) then up else down, x + y));
  }

  lemma DecidedMiddle(first: seq<real>, middle: seq<real>, last: seq<real>, h: Bits -> real, event: Bits -> bool,
      up: Bits -> real, down: Bits -> real, x: Bits)
    requires var n := |first| + |middle| + |last|;
      && Decides(h, event, up, down, |first|, |middle|, n)
      && Ignores(up, |first|, |first| + |middle|, n) && Ignores(down, |first|, |first| + |middle|, n)
    requires |x| == |first|
    ensures Inner(middle + last, h)(x)
         == Mix(Chance(middle, event), Outer(middle, last, up)(x), Outer(middle, last, down)(x))
  {
    GroupsNest(first, middle, last, h, x);
    var u, d := Outer(middle, last, up)(x), Outer(middle, last, down)(x);
    forall y: Bits | |y| == |middle|
      ensures Inner(last, After(h, x))(y) == if event(y) then u else d
    {
      InnerAt(last, h, x, y);
      DecidedLast(first, middle, last, h, event, up, down, x, y);
      BlankedLast(first, middle, last, if event(y) then up else down, x, y);
    }
    TwoValuedExpect(middle, Inner(last, After(h, x)), event, u, d);
  }

  /**
   Where the middle bits decide between two functions that do not depend on them, the mean mixes the two means with the
   probability of the deciding event.
   */
  lemma ConditionedExpect(first: seq<real>, middle: seq<real>, last: seq<real>, h: Bits -> real, event: Bits -> bool,
      up: Bits -> real, down: Bits -> real)
    requires var n := |first| + |middle| + |last|;
      && Decides(h, event, up, down, |first|, |middle|, n)
      && Ignores(up, |first|, |first| + |middle|, n) && Ignores(down, |first|, |first| + |middle|, n)
    ensures var rates := first + (middle + last);
      Expect(rates, h) == Mix(Chance(middle, event), Expect(rates, up), Expect(rates, down))
  {
    NestedExpect(first, middle + last, h);
    forall x: Bits | |x| == |first|
      ensures Inner(middle + last, h)(x)
           == Mix(Chance(middle, event), Outer(middle, last, up)(x), Outer(middle, last, down)(x))
    {
      DecidedMiddle(first, middle, last, h, event, up, down, x);
    }
    MixtureExpect(first, Inner(middle + last, h), Chance(middle, event), Outer(middle, last, up),
        Outer(middle, last, down));
    IgnoredExpect(first, middle, last, up);
    IgnoredExpect(first, middle, last, down);
  }

  // ----- at least one of several equally likely events

  function Repeat(p: real, n: nat): seq<real> {
    seq(n, _ => p)
  }

  predicate AnyTrue(bits: Bits) {
    exists i | 0 <= i < |bits| :: bits[i]
  }

  lemma AnyTrueStep(rest: Bits)
    ensures AnyTrue([true] + rest)
    ensures AnyTrue([false] + rest) <==> AnyTrue(rest)
  {
    assert ([true] + rest)[0];
    if AnyTrue(rest) {
      var i :| 0 <= i < |rest| && rest[i];
      assert ([false] + rest)[i + 1];
    }
  }

  lemma OneMoreFails(p: real, y: real)
    ensures Mix(p, 1.0, 1.0 - y) == 1.0 - (1.0 - p) * y
  {
    var q := 1.0 - p;
    assert q * (1.0 - y) == q - q * y;
  }

  lemma FirstHappens(rates: seq<real>)
    ensures Chance(rates, Given(AnyTrue, true)) == 1.0
  {
    forall rest: Bits
      ensures Indicator(Given(AnyTrue, true))(rest) == 1.0
    {
      AnyTrueStep(rest);
    }
    ConstantExpect(rates, Indicator(Given(AnyTrue, true)), 1.0);
  }

  lemma FirstFails(rates: seq<real>)
    ensures Chance(rates, Given(AnyTrue, false)) == Chance(rates, AnyTrue)
  {
    forall rest: Bits
      ensures Indicator(Given(AnyTrue, false))(rest) == Indicator(AnyTrue)(rest)
    {
      AnyTrueStep(rest);
    }
    SameExpect(rates, Indicator(Given(AnyTrue, false)), Indicator(AnyTrue));
  }

  lemma NothingHappens()
    ensures Chance([], AnyTrue) == 0.0
  {
    var none: Bits := [];
    assert !AnyTrue(none);
    assert Indicator(AnyTrue)(none) == 0.0;
  }

  lemma RepeatTail(p: real, n: nat)
    requires n > 0
    ensures Repeat(p, n)[0] == p && Repeat(p, n)[1..] == Repeat(p, n - 1)
  {
  }

  lemma ChanceOfOneMore(p: real, n: nat)
    requires n > 0
    ensures Chance(Repeat(p, n), AnyTrue) == Mix(p, 1.0, Chance(Repeat(p, n - 1), AnyTrue))
  {
    RepeatTail(p, n);
    ChanceUnfolds(Repeat(p, n), AnyTrue);
    FirstHappens(Repeat(p, n - 1));
    FirstFails(Repeat(p, n - 1));
  }

  /** The chance that one of `n` independent events of probability `p` happens. */
  lemma {:induction false} ChanceOfAny(p: real, n: nat)
    ensures Chance(Repeat(p, n), AnyTrue) == 1.0 - Power(1.0 - p, n)
  {
    if n == 0 {
      NothingHappens();
    } else {
      ChanceOfAny(p, n - 1);
      ChanceOfOneMore(p, n);
      OneMoreFails(p, Power(1.0 - p, n - 1));
    }
  }
}
