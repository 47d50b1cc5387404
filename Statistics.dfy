/**
 * Descriptive statistics over the values collected by the insight resolver.
 * The resolver feeds the values one at a time into an accumulator and then
 * asks for their mean and population variance; here those are stated as
 * two-pass definitions over the sequence of collected values.
 */
module Statistics {

  /** Sum of the values */
  function Sum(xs: seq<real>): real
    decreases |xs|
  {
    if xs == [] then 0.0 else xs[0] + Sum(xs[1..])
  }

  /** Arithmetic mean (the accumulator reports NaN for no values) */
  function Mean(xs: seq<real>): (r: real)
    requires xs != []
    ensures r * (|xs| as real) == Sum(xs)
  {
    Sum(xs) / (|xs| as real)
  }

  /** Squared distance of one value from `m` */
  function SquaredDeviation(x: real, m: real): (r: real)
    ensures r >= 0.0
  {
    (x - m) * (x - m)
  }

  /** Sum of the squared distances of the values from `m` */
  function SquaredDeviations(xs: seq<real>, m: real): (r: real)
    ensures r >= 0.0
    decreases |xs|
  {
    if xs == [] then 0.0 else SquaredDeviation(xs[0], m) + SquaredDeviations(xs[1..], m)
  }

  /** Population variance: the divisor is the number of values, not one less */
  function PopulationVariance(xs: seq<real>): (v: real)
    requires xs != []
    ensures v >= 0.0
  {
    SquaredDeviations(xs, Mean(xs)) / (|xs| as real)
  }

  predicate AllEqual(xs: seq<real>)
  {
    forall i :: 0 <= i < |xs| ==> xs[i] == xs[0]
  }

  /** The sum of n copies of c is n * c. */
  lemma {:induction false} SumConstant(xs: seq<real>, c: real)
    requires forall i :: 0 <= i < |xs| ==> xs[i] == c
    ensures Sum(xs) == (|xs| as real) * c
    decreases |xs|
  {
    if xs != [] {
      forall i | 0 <= i < |xs| - 1 ensures xs[1..][i] == c {
        assert xs[1..][i] == xs[i + 1];
      }
      SumConstant(xs[1..], c);
    }
  }

  /** The squared deviations from a value that every element equals vanish. */
  lemma {:induction false} SquaredDeviationsZero(xs: seq<real>, m: real)
    requires forall i :: 0 <= i < |xs| ==> xs[i] == m
    ensures SquaredDeviations(xs, m) == 0.0
    decreases |xs|
  {
    if xs != [] {
      assert xs[0] - m == 0.0;
      forall i | 0 <= i < |xs| - 1 ensures xs[1..][i] == m {
        assert xs[1..][i] == xs[i + 1];
      }
      SquaredDeviationsZero(xs[1..], m);
    }
  }

  /** Equal values have that value as their mean and zero population variance. */
  lemma AllEqualVarianceZero(xs: seq<real>)
    requires xs != [] && AllEqual(xs)
    ensures Mean(xs) == xs[0]
    ensures PopulationVariance(xs) == 0.0
  {
    SumConstant(xs, xs[0]);
    SquaredDeviationsZero(xs, xs[0]);
  }

  /** Values between lo and hi sum to between n * lo and n * hi. */
  lemma {:induction false} SumBetween(xs: seq<real>, lo: real, hi: real)
    requires forall i :: 0 <= i < |xs| ==> lo <= xs[i] <= hi
    ensures (|xs| as real) * lo <= Sum(xs) <= (|xs| as real) * hi
    decreases |xs|
  {
    if xs != [] {
      forall i | 0 <= i < |xs| - 1 ensures lo <= xs[1..][i] <= hi {
        assert xs[1..][i] == xs[i + 1];
      }
      SumBetween(xs[1..], lo, hi);
    }
  }

  /** The mean lies between the smallest and the largest bound of the values. */
  lemma MeanBetween(xs: seq<real>, lo: real, hi: real)
    requires xs != []
    requires forall i :: 0 <= i < |xs| ==> lo <= xs[i] <= hi
    ensures lo <= Mean(xs) <= hi
  {
    SumBetween(xs, lo, hi);
  }

  /** The sum distributes over concatenation. */
  lemma {:induction false} SumAppend(a: seq<real>, b: seq<real>)
    ensures Sum(a + b) == Sum(a) + Sum(b)
    decreases |a|
  {
    if a != [] {
      assert (a + b)[1..] == a[1..] + b;
      SumAppend(a[1..], b);
    } else {
      assert a + b == b;
    }
  }

  /** The squared deviations distribute over concatenation. */
  lemma {:induction false} SquaredDeviationsAppend(a: seq<real>, b: seq<real>, m: real)
    ensures SquaredDeviations(a + b, m) == SquaredDeviations(a, m) + SquaredDeviations(b, m)
    decreases |a|
  {
    if a != [] {
      assert (a + b)[1..] == a[1..] + b;
      SquaredDeviationsAppend(a[1..], b, m);
    } else {
      assert a + b == b;
    }
  }

  /** An index of b holding a[0]; the rest of b is a permutation of a[1..]. */
  lemma HeadInPermutation(a: seq<real>, b: seq<real>) returns (j: nat)
    requires a != [] && multiset(a) == multiset(b)
    ensures j < |b| && b[j] == a[0]
    ensures b == b[..j] + [b[j]] + b[j + 1..]
    ensures multiset(a[1..]) == multiset(b[..j] + b[j + 1..])
  {
    assert a == [a[0]] + a[1..];
    assert a[0] in multiset(b);
    var k :| 0 <= k < |b| && b[k] == a[0];
    j := k;
    var rest := b[..j] + b[j + 1..];
    assert b == b[..j] + [b[j]] + b[j + 1..];
    assert multiset(b) == multiset(rest) + multiset{a[0]};
    assert multiset(a) == multiset(a[1..]) + multiset{a[0]};
    assert multiset(a[1..]) == multiset(a) - multiset{a[0]};
  }

  /** The sum does not depend on the order of the values. */
  lemma {:induction false} SumPermutation(a: seq<real>, b: seq<real>)
    requires multiset(a) == multiset(b)
    ensures Sum(a) == Sum(b)
    decreases |a|
  {
    if a == [] {
      assert |b| == |multiset(b)| == 0;
    } else {
      var j := HeadInPermutation(a, b);
      SumPermutation(a[1..], b[..j] + b[j + 1..]);
      SumAppend(b[..j], [b[j]] + b[j + 1..]);
      SumAppend(b[..j], b[j + 1..]);
      assert b[..j] + [b[j]] + b[j + 1..] == b[..j] + ([b[j]] + b[j + 1..]);
    }
  }

  /** The squared deviations do not depend on the order of the values. */
  lemma {:induction false} SquaredDeviationsPermutation(a: seq<real>, b: seq<real>, m: real)
    requires multiset(a) == multiset(b)
    ensures SquaredDeviations(a, m) == SquaredDeviations(b, m)
    decreases |a|
  {
    if a == [] {
      assert |b| == |multiset(b)| == 0;
    } else {
      var j := HeadInPermutation(a, b);
      SquaredDeviationsPermutation(a[1..], b[..j] + b[j + 1..], m);
      SquaredDeviationsAppend(b[..j], [b[j]] + b[j + 1..], m);
      SquaredDeviationsAppend(b[..j], b[j + 1..], m);
      assert b[..j] + [b[j]] + b[j + 1..] == b[..j] + ([b[j]] + b[j + 1..]);
    }
  }

  /** Mean and population variance do not depend on the order of collection. */
  lemma OrderIndependent(a: seq<real>, b: seq<real>)
    requires a != [] && multiset(a) == multiset(b)
    ensures b != [] && Mean(a) == Mean(b) && PopulationVariance(a) == PopulationVariance(b)
  {
    assert |a| == |multiset(a)| == |multiset(b)| == |b|;
    SumPermutation(a, b);
    SquaredDeviationsPermutation(a, b, Mean(a));
  }
}
