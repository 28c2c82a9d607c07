/** Rounding to cents, and what rounding does to sums. */
module Money {
  import opened Prelude

  /** math.Round: half away from zero. */
  function Round(x: real): real {
    if x >= 0.0 then (x + 0.5).Floor as real else -((-x + 0.5).Floor as real)
  }

  function Round2(x: real): real { Round(x * 100.0) / 100.0 }

  function Abs(x: real): real { if x < 0.0 then -x else x }

  function Sum(xs: seq<real>): real {
    if xs == [] then 0.0 else Sum(xs[..|xs| - 1]) + xs[|xs| - 1]
  }

  function Rounded(xs: seq<real>): seq<real> {
    seq(|xs|, i requires 0 <= i < |xs| => Round2(xs[i]))
  }

  lemma RoundError(x: real)
    ensures Abs(Round2(x) - x) <= 0.005
  {
    var y := x * 100.0;
    var n := if y >= 0.0 then (y + 0.5).Floor else (-y + 0.5).Floor;
    if y >= 0.0 {
      assert n as real <= y + 0.5 < n as real + 1.0;
    } else {
      assert n as real <= -y + 0.5 < n as real + 1.0;
    }
  }

  /** An amount of money without fractions of a cent. */
  predicate WholeCents(x: real) { x * 100.0 == (x * 100.0).Floor as real }

  lemma FloorIs(y: real, n: int)
    ensures y.Floor == n <==> n as real <= y < n as real + 1.0
  {
  }

  /** Nearest to `y`, and away from zero at a tie. */
  predicate Nearest(y: real, n: int) {
    Abs(y - n as real) < 0.5 || (Abs(y - n as real) == 0.5 && Abs(n as real) > Abs(y))
  }

  lemma RoundMeans(y: real, n: int)
    ensures Round(y) == n as real <==> Nearest(y, n)
  {
    if y >= 0.0 {
      FloorIs(y + 0.5, n);
    } else {
      FloorIs(-y + 0.5, -n);
    }
  }

  /** The result is the whole number of cents that is nearest, and of two that are as near the one away from zero. */
  lemma Round2Means(x: real, n: int)
    ensures Round2(x) * 100.0 == n as real <==> Nearest(x * 100.0, n)
  {
    RoundMeans(x * 100.0, n);
  }

  lemma RoundIsWhole(y: real)
    ensures Round(y) == Round(y).Floor as real
  {
    var n := if y >= 0.0 then (y + 0.5).Floor else -((-y + 0.5).Floor);
    FloorIs(n as real, n);
  }

  lemma RoundIsOdd(y: real)
    ensures Round(-y) == -Round(y)
  {
    if y == 0.0 {
      FloorIs(0.5, 0);
    } else if y > 0.0 {
      assert -(-y) + 0.5 == y + 0.5;
    }
  }

  lemma Round2IsWholeCents(x: real)
    ensures WholeCents(Round2(x)) && Round2(-x) == -Round2(x)
  {
    RoundIsOdd(x * 100.0);
    RoundIsWhole(x * 100.0);
    assert Round2(x) * 100.0 == Round(x * 100.0) && (-x) * 100.0 == -(x * 100.0);
  }

  /** Four fifths of a cent are a cent, and half a cent is, on either side of zero. */
  lemma RoundedCents()
    ensures Round2(0.008) == 0.01 && Round2(0.005) == 0.01 && Round2(-0.005) == -0.01 && Round2(0.004) == 0.0
  {
    Round2Means(0.008, 1); Round2Means(0.005, 1); Round2Means(-0.005, -1); Round2Means(0.004, 0);
  }

  lemma SumOfSnoc(xs: seq<real>, x: real)
    ensures Sum(xs + [x]) == Sum(xs) + x
  {
    assert (xs + [x])[..|xs|] == xs;
  }

  lemma {:induction false} SumOfConcat(a: seq<real>, b: seq<real>)
    ensures Sum(a + b) == Sum(a) + Sum(b)
  {
    if b == [] {
      assert a + b == a;
    } else {
      assert (a + b)[..|a + b| - 1] == a + b[..|b| - 1];
      SumOfConcat(a, b[..|b| - 1]);
    }
  }

  function SumBy<T>(f: T -> real, xs: seq<T>): real {
    if xs == [] then 0.0 else SumBy(f, xs[..|xs| - 1]) + f(xs[|xs| - 1])
  }

  lemma {:induction false} SumByOfConcat<T>(f: T -> real, a: seq<T>, b: seq<T>)
    ensures SumBy(f, a + b) == SumBy(f, a) + SumBy(f, b)
  {
    if b == [] {
      assert a + b == a;
    } else {
      assert (a + b)[..|a + b| - 1] == a + b[..|b| - 1];
      SumByOfConcat(f, a, b[..|b| - 1]);
    }
  }

  lemma SumByOfMove<T>(f: T -> real, a: seq<T>, x: T, b: seq<T>)
    ensures SumBy(f, a + ([x] + b)) == SumBy(f, a + b) + f(x)
  {
    SumByOfConcat(f, a, [x] + b);
    SumByOfConcat(f, [x], b);
    SumByOfConcat(f, a, b);
    assert [x][..0] == [];
  }

  lemma {:induction false} SumOfPermutation<T>(f: T -> real, a: seq<T>, b: seq<T>)
    requires multiset(a) == multiset(b)
    ensures SumBy(f, a) == SumBy(f, b)
    decreases |a|
  {
    if a == [] {
      assert |multiset(b)| == 0;
    } else {
      var n, x := |a| - 1, a[|a| - 1];
      assert a == a[..n] + [x];
      assert x in multiset(b);
      var k :| 0 <= k < |b| && b[k] == x;
      var rest := b[..k] + b[k + 1..];
      assert b == b[..k] + ([x] + b[k + 1..]);
      assert multiset(a[..n]) == multiset(a) - multiset{x} == multiset(rest);
      SumOfPermutation(f, a[..n], rest);
      SumByOfMove(f, b[..k], x, b[k + 1..]);
    }
  }

  /** What `n` roundings may amount to. */
  function HalfCents(n: nat): real {
    if n == 0 then 0.0 else HalfCents(n - 1) + 0.005
  }

  lemma {:induction false} HalfCentsIsProduct(n: nat)
    ensures HalfCents(n) == 0.005 * n as real
  {
    if n > 0 { HalfCentsIsProduct(n - 1); }
  }

  lemma {:induction false} RoundedSumError(xs: seq<real>)
    ensures Abs(Sum(Rounded(xs)) - Sum(xs)) <= HalfCents(|xs|)
  {
    if xs != [] {
      var n := |xs| - 1;
      RoundedSumError(xs[..n]);
      RoundError(xs[n]);
      assert Rounded(xs)[..n] == Rounded(xs[..n]);
      AddErrors(Sum(Rounded(xs[..n])), Sum(xs[..n]), Round2(xs[n]), xs[n], HalfCents(n));
    }
  }

  lemma AddErrors(a: real, b: real, c: real, d: real, e: real)
    requires Abs(a - b) <= e && Abs(c - d) <= 0.005
    ensures Abs((a + c) - (b + d)) <= e + 0.005
  {
  }

  /** Rounding each part and rounding the whole differ by at most half a cent per rounding. */
  lemma PartsAgainstWhole(xs: seq<real>, whole: real)
    requires Abs(whole - Sum(xs)) <= 0.005
    ensures Abs(Sum(Rounded(xs)) - whole) <= HalfCents(|xs| + 1)
  {
    RoundedSumError(xs);
    Triangle(Sum(Rounded(xs)), Sum(xs), whole, HalfCents(|xs|));
  }

  lemma Triangle(a: real, b: real, c: real, e: real)
    requires Abs(a - b) <= e && Abs(c - b) <= 0.005
    ensures Abs(a - c) <= e + 0.005
  {
  }
}
