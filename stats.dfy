/** The NaN-skipping reductions numpy and pandas perform for the pipeline:
    `nanmean`, `nanstd` (population, divisor = count) and a column-wise
    `mean(axis = 0)`, over exact reals.  Standard deviation is represented by
    its square, the variance, since the square root is not a rational
    operation. */
module Stats {
  import opened Values

  /** The non-missing values of `s`, in order. */
  function Present(s: Series): (xs: seq<real>)
    ensures |xs| <= |s|
  {
    if s == [] then [] else (if s[0].Num? then [s[0].r] else []) + Present(s[1..])
  }

  /** The present values of a series with a given head cell. */
  lemma PresentCons(v: Val, t: Series)
    ensures Present([v] + t) == (if v.Num? then [v.r] else []) + Present(t)
  {
    assert ([v] + t)[1..] == t;
  }

  lemma {:induction false} PresentAppend(a: Series, b: Series)
    ensures Present(a + b) == Present(a) + Present(b)
  {
    if a == [] {
      assert a + b == b;
    } else {
      var head := if a[0].Num? then [a[0].r] else [];
      assert (a + b)[0] == a[0];
      assert (a + b)[1..] == a[1..] + b;
      assert Present(a + b) == head + Present(a[1..] + b);
      PresentAppend(a[1..], b);
      assert Present(a) == head + Present(a[1..]);
    }
  }

  /** `Present` is empty exactly when every cell is missing. */
  lemma {:induction false} PresentEmptyIff(s: Series)
    ensures Present(s) == [] <==> forall i :: 0 <= i < |s| ==> s[i] == Missing
  {
    if s != [] {
      PresentEmptyIff(s[1..]);
      if s[0].Missing? {
        forall i | 1 <= i < |s| ensures s[i] == s[1..][i - 1] { }
      }
    }
  }

  /** Every present value of `s` comes from a cell of `s`, and vice versa. */
  lemma {:induction false} PresentMembers(s: Series, x: real)
    ensures x in Present(s) <==> Num(x) in s
  {
    if s != [] {
      PresentMembers(s[1..], x);
      assert s == [s[0]] + s[1..];
    }
  }

  function Sum(xs: seq<real>): real
  {
    if xs == [] then 0.0 else xs[0] + Sum(xs[1..])
  }

  lemma {:induction false} SumAppend(a: seq<real>, b: seq<real>)
    ensures Sum(a + b) == Sum(a) + Sum(b)
  {
    if a == [] {
      assert a + b == b;
    } else {
      assert (a + b)[1..] == a[1..] + b;
      SumAppend(a[1..], b);
    }
  }

  /** The sum of five values, written out. */
  lemma Sum5(xs: seq<real>)
    requires |xs| == 5
    ensures Sum(xs) == xs[0] + xs[1] + xs[2] + xs[3] + xs[4]
  {
    var t1 := xs[1..];
    var t2 := t1[1..];
    var t3 := t2[1..];
    var t4 := t3[1..];
    assert t4[1..] == [];
    assert Sum(t4) == xs[4];
    assert Sum(t3) == xs[3] + Sum(t4);
    assert Sum(t2) == xs[2] + Sum(t3);
    assert Sum(t1) == xs[1] + Sum(t2);
  }

  /** Arithmetic mean of a non-empty sequence. */
  function Mean(xs: seq<real>): (m: real)
    requires |xs| > 0
  {
    Sum(xs) / (|xs| as real)
  }

  /** Sum of the deviations of `xs` from `c`. */
  function SumDev(xs: seq<real>, c: real): real
  {
    if xs == [] then 0.0 else (xs[0] - c) + SumDev(xs[1..], c)
  }

  lemma {:induction false} SumDevIsSumMinus(xs: seq<real>, c: real)
    ensures SumDev(xs, c) == Sum(xs) - (|xs| as real) * c
  {
    if xs != [] {
      SumDevIsSumMinus(xs[1..], c);
    }
  }

  /** The mean is the one balance point of the values: the deviations from `c`
      cancel out exactly when `c` is the mean. */
  lemma MeanIsBalancePoint(xs: seq<real>, c: real)
    requires |xs| > 0
    ensures SumDev(xs, c) == 0.0 <==> c == Mean(xs)
  {
    SumDevIsSumMinus(xs, c);
    var n := |xs| as real;
    if SumDev(xs, c) == 0.0 {
      assert Sum(xs) == n * c;
      assert c == Sum(xs) / n;
    }
  }

  /** The mean of values that all equal `v` is `v`. */
  lemma MeanOfConstant(xs: seq<real>, v: real)
    requires |xs| > 0
    requires forall i :: 0 <= i < |xs| ==> xs[i] == v
    ensures Mean(xs) == v
  {
    ConstantSumDev(xs, v);
    MeanIsBalancePoint(xs, v);
  }

  lemma {:induction false} ConstantSumDev(xs: seq<real>, v: real)
    requires forall i :: 0 <= i < |xs| ==> xs[i] == v
    ensures SumDev(xs, v) == 0.0
  {
    if xs != [] {
      ConstantSumDev(xs[1..], v);
    }
  }

  /** The square of `d`.  Squares go through this function so that the
      arithmetic facts about them are proved once, below. */
  function Sq(d: real): real
  {
    d * d
  }

  lemma MulPositive(a: real, b: real)
    requires a > 0.0 && b > 0.0
    ensures a * b > 0.0
  {
  }

  lemma SqPositive(d: real)
    requires d != 0.0
    ensures Sq(d) > 0.0
  {
    if d > 0.0 {
      calc { Sq(d); d * d; > { MulPositive(d, d); } 0.0; }
    } else {
      calc { Sq(d); (-d) * (-d); > { MulPositive(-d, -d); } 0.0; }
    }
  }

  lemma SqNonNegative(d: real)
    ensures Sq(d) >= 0.0
  {
    if d != 0.0 { SqPositive(d); }
  }

  /** Sum of the squared deviations of `xs` from `c`. */
  function SumSqDev(xs: seq<real>, c: real): (r: real)
    ensures r >= 0.0
  {
    if xs == [] then 0.0
    else
      SqNonNegative(xs[0] - c);
      Sq(xs[0] - c) + SumSqDev(xs[1..], c)
  }

  function SumSq(xs: seq<real>): real
  {
    if xs == [] then 0.0 else Sq(xs[0]) + SumSq(xs[1..])
  }

  lemma {:induction false} SumSqAppend(a: seq<real>, b: seq<real>)
    ensures SumSq(a + b) == SumSq(a) + SumSq(b)
  {
    if a == [] {
      assert a + b == b;
    } else {
      assert (a + b)[1..] == a[1..] + b;
      SumSqAppend(a[1..], b);
    }
  }

  /** The expanded form of `SumSqDev(xs, c)`. */
  function Expanded(xs: seq<real>, c: real): real
  {
    SumSq(xs) - 2.0 * c * Sum(xs) + (|xs| as real) * Sq(c)
  }

  lemma {:induction false} SumSqDevExpand(xs: seq<real>, c: real)
    ensures SumSqDev(xs, c) == Expanded(xs, c)
  {
    if xs == [] {
      BaseStep(c, SumSqDev(xs, c), Sum(xs), SumSq(xs), |xs| as real, Expanded(xs, c));
    } else {
      var rest := xs[1..];
      SumSqDevExpand(rest, c);
      ExpandStep(xs[0], c, SumSqDev(rest, c), Sum(rest), SumSq(rest), |rest| as real, Expanded(rest, c),
                 SumSqDev(xs, c), Sum(xs), SumSq(xs), |xs| as real, Expanded(xs, c));
    }
  }

  lemma BaseStep(c: real, d: real, s: real, q: real, k: real, e: real)
    requires d == 0.0 && s == 0.0 && q == 0.0 && k == 0.0
    requires e == q - 2.0 * c * s + k * Sq(c)
    ensures d == e
  {
  }

  /** One step of the induction above, as plain arithmetic. */
  lemma ExpandStep(x: real, c: real, d: real, s: real, q: real, k: real, e: real,
                   d': real, s': real, q': real, k': real, e': real)
    requires e == q - 2.0 * c * s + k * Sq(c) && d == e
    requires d' == Sq(x - c) + d && s' == x + s && q' == Sq(x) + q && k' == k + 1.0
    requires e' == q' - 2.0 * c * s' + k' * Sq(c)
    ensures d' == e'
  {
    calc {
      d';
      (x - c) * (x - c) + (q - 2.0 * c * s + k * (c * c));
      (x * x + q) - 2.0 * c * (x + s) + (k + 1.0) * (c * c);
      e';
    }
  }

  /** A sum of squared deviations vanishes exactly when every value equals `c`. */
  lemma {:induction false} SumSqDevZeroIff(xs: seq<real>, c: real)
    ensures SumSqDev(xs, c) == 0.0 <==> forall i :: 0 <= i < |xs| ==> xs[i] == c
  {
    if xs != [] {
      var rest := xs[1..];
      SumSqDevZeroIff(rest, c);
      if forall i :: 0 <= i < |xs| ==> xs[i] == c {
        assert forall i :: 0 <= i < |rest| ==> rest[i] == xs[i + 1];
      }
      if SumSqDev(xs, c) == 0.0 {
        SqNonNegative(xs[0] - c);
        if xs[0] != c { SqPositive(xs[0] - c); }
        forall i | 1 <= i < |xs| ensures xs[i] == c {
          assert xs[i] == rest[i - 1];
        }
      }
    }
  }

  /** Population variance (divisor = number of values). */
  function Variance(xs: seq<real>): (v: real)
    requires |xs| > 0
  {
    SumSqDev(xs, Mean(xs)) / (|xs| as real)
  }

  /** The variance is never negative, so the standard deviation is its
      non-negative square root. */
  lemma VarianceNonNegative(xs: seq<real>)
    requires |xs| > 0
    ensures Variance(xs) >= 0.0
  {
  }

  /** The variance is the mean of the squares minus the square of the mean. */
  lemma VarianceIdentity(xs: seq<real>)
    requires |xs| > 0
    ensures Variance(xs) == SumSq(xs) / (|xs| as real) - Sq(Mean(xs))
  {
    var m := Mean(xs);
    SumSqDevExpand(xs, m);
    VarianceStep(SumSq(xs), Sum(xs), |xs| as real, m, Expanded(xs, m), SumSqDev(xs, m),
                 Variance(xs), SumSq(xs) / (|xs| as real) - Sq(Mean(xs)));
  }

  /** The algebra behind `VarianceIdentity`. */
  lemma VarianceStep(q: real, s: real, n: real, m: real, e: real, d: real, v: real, w: real)
    requires n > 0.0 && m == s / n
    requires e == q - 2.0 * m * s + n * Sq(m) && d == e && v == d / n
    requires w == q / n - Sq(m)
    ensures v == w
  {
    calc {
      v;
      (q - 2.0 * m * s + n * Sq(m)) / n;
      { assert s == n * m; }
      (q - 2.0 * m * (n * m) + n * (m * m)) / n;
      (q - n * (m * m)) / n;
      q / n - m * m;
    }
  }

  /** The variance is zero exactly when all values are equal. */
  lemma VarianceZeroIff(xs: seq<real>)
    requires |xs| > 0
    ensures Variance(xs) == 0.0 <==> forall i :: 0 <= i < |xs| ==> xs[i] == xs[0]
  {
    var m := Mean(xs);
    var n := |xs| as real;
    SumSqDevZeroIff(xs, m);
    if forall i :: 0 <= i < |xs| ==> xs[i] == xs[0] {
      MeanOfConstant(xs, xs[0]);
    }
    if Variance(xs) == 0.0 {
      assert SumSqDev(xs, m) == Variance(xs) * n;
    }
  }

  /** `np.nanmean`: the mean of the non-missing cells, missing when there are none. */
  function NanMean(s: Series): (v: Val)
    ensures v == Missing <==> forall i :: 0 <= i < |s| ==> s[i] == Missing
  {
    PresentEmptyIff(s);
    var xs := Present(s);
    if |xs| == 0 then Missing else Num(Mean(xs))
  }

  /** The square of `np.nanstd`: the population variance of the non-missing
      cells, missing when there are none. */
  function NanVariance(s: Series): (v: Val)
    ensures v == Missing <==> forall i :: 0 <= i < |s| ==> s[i] == Missing
    ensures v.Num? ==> v.r >= 0.0
  {
    PresentEmptyIff(s);
    var xs := Present(s);
    if |xs| == 0 then Missing else Num(Variance(xs))
  }

  /** The NaN-skipping mean and variance of a series, from the count, sum and
      sum of squares of its present values. */
  lemma NanStatsFromSums(s: Series, n: nat, total: real, squares: real)
    requires |Present(s)| == n > 0 && Sum(Present(s)) == total && SumSq(Present(s)) == squares
    ensures NanMean(s) == Num(total / (n as real))
    ensures NanVariance(s) == Num(squares / (n as real) - Sq(total / (n as real)))
  {
    VarianceIdentity(Present(s));
  }

  /** `DataFrame.mean(axis = 0)`: one NaN-skipping mean per column. */
  function ColumnMeans(m: Matrix, cols: nat): (means: Series)
    requires HasColumns(m, cols)
    ensures |means| == cols
    ensures forall t :: 0 <= t < cols ==>
              (means[t] == Missing <==> forall i :: 0 <= i < |m| ==> m[i][t] == Missing)
  {
    seq(cols, t requires 0 <= t < cols => NanMean(Column(m, t)))
  }

  /** `xs` falls strictly from each value to every later one. */
  predicate StrictlyFalling(xs: seq<real>)
  {
    forall i, j :: 0 <= i < j < |xs| ==> xs[i] > xs[j]
  }

  /** `xs` rises strictly from each value to every later one. */
  predicate StrictlyRising(xs: seq<real>)
  {
    forall i, j :: 0 <= i < j < |xs| ==> xs[i] < xs[j]
  }
}
