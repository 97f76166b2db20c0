/** Finite sums of reals, read from the right so that loops which append match them. */
module RealSums {

  function Sum(s: seq<real>): (r: real) {
    if s == [] then 0.0 else Sum(s[..|s| - 1]) + s[|s| - 1]
  }

  /** The first k entries of x. */
  function SumTo(x: seq<real>, k: nat): real
    requires k <= |x|
  {
    if k == 0 then 0.0 else SumTo(x, k - 1) + x[k - 1]
  }

  /** The first k terms of a . x. */
  function Apply(a: seq<real>, x: seq<real>, k: nat): real
    requires k <= |a| && k <= |x|
  {
    if k == 0 then 0.0 else Apply(a, x, k - 1) + a[k - 1] * x[k - 1]
  }

  function Negated(c: seq<real>): (r: seq<real>)
    ensures |r| == |c| && forall i | 0 <= i < |c| :: r[i] == -c[i]
  {
    seq(|c|, i requires 0 <= i < |c| => -c[i])
  }

  function Min(a: real, b: real): real { if a <= b then a else b }

  function Max(a: real, b: real): real { if a >= b then a else b }

  function Sq(d: real): real { d * d }

  /** Squared Euclidean distance. */
  function SqDist(a: seq<real>, b: seq<real>): (r: real)
    requires |a| == |b|
  {
    if a == [] then 0.0
    else
      SqDist(a[..|a| - 1], b[..|b| - 1]) + Sq(a[|a| - 1] - b[|b| - 1])
  }

  lemma Distribute(a: real, b: real, k: real)
    ensures (a + b) * k == a * k + b * k
  {
  }

  lemma Quotient(a: real, n: real, q: real)
    requires n > 0.0 && q == a / n
    ensures q * n == a
  {
  }

  function Average(total: real, n: nat): real
    requires n > 0
  {
    total / n as real
  }

  lemma AverageLinear(a: real, b: real, n: nat)
    requires n > 0
    ensures Average(a, n) - Average(b, n) == Average(a - b, n)
  {
  }

  lemma AverageInverse(a: real, n: nat)
    requires n > 0
    ensures Average(a, n) * n as real == a
  {
  }

  lemma AverageSign(a: real, n: nat)
    requires n > 0
    ensures Average(a, n) >= 0.0 <==> a >= 0.0
    ensures Average(a, n) == 0.0 <==> a == 0.0
  {
    var q, m := Average(a, n), n as real;
    Quotient(a, m, q);
    if q > 0.0 {
      MulStrict(q, 0.0, m);
    } else if q < 0.0 {
      MulStrict(0.0, q, m);
    }
  }

  /** A product kept as a name, so that long proofs do not open it. */
  function Times(a: real, b: real): real { a * b }

  lemma TimesMeaning(a: real, b: real)
    ensures Times(a, b) == a * b
  {
  }

  lemma TimesFacts(a: real, b: real, k: real)
    ensures Times(a, b) == Times(b, a)
    ensures Times(1.0, a) == a && Times(a, 1.0) == a && Times(0.0, a) == 0.0
    ensures Times(a + b, k) == Times(a, k) + Times(b, k)
  {
  }

  function Repeat(v: real, n: nat): (s: seq<real>)
    ensures |s| == n && forall i | 0 <= i < n :: s[i] == v
  {
    seq(n, _ => v)
  }

  /** Multiplying by a non-negative factor keeps an inequality. */
  lemma MulMono(a: real, b: real, c: real)
    requires a >= b && c >= 0.0
    ensures a * c >= b * c
  {
    assert (a - b) * c >= 0.0;
  }

  lemma MulStrict(a: real, b: real, c: real)
    requires a > b && c > 0.0
    ensures a * c > b * c
  {
    assert (a - b) * c > 0.0;
  }

  lemma SameFactor(a: real, b: real, n: real)
    requires n > 0.0 && a * n == b * n
    ensures a == b
  {
    if a > b { MulStrict(a, b, n); } else if a < b { MulStrict(b, a, n); }
  }

  lemma ProductPositive(a: real, b: real, product: real)
    requires a > 0.0 && b > 0.0 && product == a * b
    ensures product > 0.0
  {
  }

  lemma SqSign(d: real)
    ensures Sq(d) >= 0.0
    ensures d != 0.0 ==> Sq(d) > 0.0
    ensures d == 0.0 ==> Sq(d) == 0.0
  {
    if d > 0.0 {
      ProductPositive(d, d, Sq(d));
    } else if d < 0.0 {
      ProductPositive(-d, -d, Sq(d));
    }
  }

  lemma {:induction false} SumConcat(a: seq<real>, b: seq<real>)
    ensures Sum(a + b) == Sum(a) + Sum(b)
  {
    if b == [] {
      assert a + b == a;
    } else {
      assert (a + b)[..|a + b| - 1] == a + b[..|b| - 1];
      SumConcat(a, b[..|b| - 1]);
    }
  }

  lemma {:induction false} SumRepeat(v: real, n: nat)
    ensures Sum(Repeat(v, n)) == v * n as real
  {
    if n > 0 {
      assert Repeat(v, n)[..n - 1] == Repeat(v, n - 1);
      SumRepeat(v, n - 1);
    }
  }

  lemma {:induction false} SqDistConcat(a: seq<real>, b: seq<real>, c: seq<real>, d: seq<real>)
    requires |a| == |b| && |c| == |d|
    ensures SqDist(a + c, b + d) == SqDist(a, b) + SqDist(c, d)
  {
    if c == [] {
      assert a + c == a && b + d == b;
    } else {
      assert (a + c)[..|a + c| - 1] == a + c[..|c| - 1];
      assert (b + d)[..|b + d| - 1] == b + d[..|d| - 1];
      SqDistConcat(a, b, c[..|c| - 1], d[..|d| - 1]);
    }
  }

  lemma {:induction false} SqDistZero(a: seq<real>, b: seq<real>)
    requires |a| == |b|
    ensures SqDist(a, b) >= 0.0
    ensures a != b ==> SqDist(a, b) > 0.0
    ensures a == b ==> SqDist(a, b) == 0.0
  {
    if a != [] {
      var n := |a| - 1;
      SqDistZero(a[..n], b[..n]);
      SqSign(a[n] - b[n]);
      assert a == a[..n] + [a[n]] && b == b[..n] + [b[n]];
    }
  }

  lemma {:induction false} SqDistSymmetric(a: seq<real>, b: seq<real>)
    requires |a| == |b|
    ensures SqDist(a, b) == SqDist(b, a)
  {
    if a != [] { SqDistSymmetric(a[..|a| - 1], b[..|b| - 1]); }
  }
}
