/** The ordinary least-squares fit of height on distance that the slope
    attribute runs for every time step: a one-feature linear regression with
    an intercept, whose coefficient has the closed form Sxy / Sxx. */
module Regression {
  import opened Values
  import opened Stats

  /** The product of `a` and `b`, kept behind a function so that the
      arithmetic facts about products are proved once, below. */
  function Prod(a: real, b: real): real
  {
    a * b
  }

  /** The value of the line with gradient `a` and intercept `b` at `x`. */
  function Affine(a: real, b: real, x: real): real
  {
    a * x + b
  }

  /** Sum of the products of the deviations of `xs` from `cx` and of `ys` from `cy`. */
  function SumCross(xs: seq<real>, ys: seq<real>, cx: real, cy: real): real
    requires |xs| == |ys|
  {
    if xs == [] then 0.0 else Prod(xs[0] - cx, ys[0] - cy) + SumCross(xs[1..], ys[1..], cx, cy)
  }

  /** Spread of the distances about their mean. */
  function Sxx(xs: seq<real>): (r: real)
    requires |xs| > 0
    ensures r >= 0.0
  {
    SumSqDev(xs, Mean(xs))
  }

  /** Co-spread of distances and heights about their means. */
  function Sxy(xs: seq<real>, ys: seq<real>): (c: real)
    requires |xs| == |ys| > 0
  {
    SumCross(xs, ys, Mean(xs), Mean(ys))
  }

  /** The least-squares gradient of `ys` against `xs` (an intercept is fitted). */
  function OlsCoef(xs: seq<real>, ys: seq<real>): (g: real)
    requires |xs| == |ys| > 0
    requires Sxx(xs) != 0.0
  {
    Sxy(xs, ys) / Sxx(xs)
  }

  /** Every point (xs[i], ys[i]) lies on the line with gradient `a` and intercept `b`. */
  predicate OnLine(xs: seq<real>, ys: seq<real>, a: real, b: real)
    requires |xs| == |ys|
  {
    forall i :: 0 <= i < |xs| ==> ys[i] == Affine(a, b, xs[i])
  }

  /** The spread of the distances is zero exactly when all distances are equal:
      a regression is defined precisely when two nodes lie at different distances. */
  lemma SxxZeroIff(xs: seq<real>)
    requires |xs| > 0
    ensures Sxx(xs) == 0.0 <==> forall i :: 0 <= i < |xs| ==> xs[i] == xs[0]
  {
    SumSqDevZeroIff(xs, Mean(xs));
    if forall i :: 0 <= i < |xs| ==> xs[i] == xs[0] {
      MeanOfConstant(xs, xs[0]);
    }
  }

  lemma {:induction false} SumOnLine(xs: seq<real>, ys: seq<real>, a: real, b: real)
    requires |xs| == |ys| && OnLine(xs, ys, a, b)
    ensures Sum(ys) == Affine(a, (|xs| as real) * b, Sum(xs))
  {
    if xs != [] {
      SumOnLine(xs[1..], ys[1..], a, b);
      LineSumStep(a, b, xs[0], ys[0], Sum(xs[1..]), Sum(ys[1..]), |xs[1..]| as real);
    }
  }

  lemma LineSumStep(a: real, b: real, x: real, y: real, sx: real, sy: real, k: real)
    requires y == Affine(a, b, x) && sy == Affine(a, k * b, sx)
    ensures y + sy == Affine(a, (k + 1.0) * b, x + sx)
  {
  }

  /** The mean of points on a line lies on that line. */
  lemma MeanOnLine(xs: seq<real>, ys: seq<real>, a: real, b: real)
    requires |xs| == |ys| > 0 && OnLine(xs, ys, a, b)
    ensures Mean(ys) == Affine(a, b, Mean(xs))
  {
    SumOnLine(xs, ys, a, b);
    LineMeanStep(a, b, Sum(xs), Sum(ys), |xs| as real);
  }

  lemma LineMeanStep(a: real, b: real, sx: real, sy: real, n: real)
    requires n > 0.0 && sy == Affine(a, n * b, sx)
    ensures sy / n == Affine(a, b, sx / n)
  {
    calc {
      sy / n;
      (a * sx + n * b) / n;
      a * (sx / n) + b;
    }
  }

  lemma {:induction false} CrossOnLine(xs: seq<real>, ys: seq<real>, a: real, b: real, cx: real)
    requires |xs| == |ys| && OnLine(xs, ys, a, b)
    ensures SumCross(xs, ys, cx, Affine(a, b, cx)) == a * SumSqDev(xs, cx)
  {
    if xs != [] {
      var cy := Affine(a, b, cx);
      CrossOnLine(xs[1..], ys[1..], a, b, cx);
      CrossStep(a, b, xs[0], ys[0], cx, cy, SumCross(xs[1..], ys[1..], cx, cy), SumSqDev(xs[1..], cx),
                SumCross(xs, ys, cx, cy), SumSqDev(xs, cx));
    }
  }

  lemma CrossStep(a: real, b: real, x: real, y: real, cx: real, cy: real, p: real, q: real, p': real, q': real)
    requires y == Affine(a, b, x) && cy == Affine(a, b, cx) && p == a * q
    requires p' == Prod(x - cx, y - cy) + p && q' == Sq(x - cx) + q
    ensures p' == a * q'
  {
    calc {
      p';
      (x - cx) * ((a * x + b) - (a * cx + b)) + a * q;
      a * ((x - cx) * (x - cx)) + a * q;
    }
  }

  /** Least squares recovers the gradient of points that lie exactly on a line. */
  lemma OlsRecoversLine(xs: seq<real>, ys: seq<real>, a: real, b: real)
    requires |xs| == |ys| > 0 && Sxx(xs) != 0.0
    requires OnLine(xs, ys, a, b)
    ensures OlsCoef(xs, ys) == a
  {
    MeanOnLine(xs, ys, a, b);
    CrossOnLine(xs, ys, a, b, Mean(xs));
    DivideOut(a, Sxx(xs), Sxy(xs, ys));
  }

  lemma DivideOut(a: real, d: real, p: real)
    requires d != 0.0 && p == a * d
    ensures p / d == a
  {
  }

  /** The distances of the nodes whose height is present, in node order:
      a missing height drops its node's distance with it. */
  function Kept(dists: seq<real>, heights: Series): (xs: seq<real>)
    requires |dists| == |heights|
    ensures |xs| == |Present(heights)|
  {
    if heights == [] then []
    else (if heights[0].Num? then [dists[0]] else []) + Kept(dists[1..], heights[1..])
  }

  lemma {:induction false} KeptAppend(d1: seq<real>, h1: Series, d2: seq<real>, h2: Series)
    requires |d1| == |h1| && |d2| == |h2|
    ensures Kept(d1 + d2, h1 + h2) == Kept(d1, h1) + Kept(d2, h2)
  {
    if h1 == [] {
      assert d1 + d2 == d2 && h1 + h2 == h2;
    } else {
      var d, h := d1 + d2, h1 + h2;
      var k := if h1[0].Num? then [d1[0]] else [];
      assert h[0] == h1[0] && d[0] == d1[0];
      calc {
        Kept(d, h);
      ==
        k + Kept(d[1..], h[1..]);
      == { assert d[1..] == d1[1..] + d2 && h[1..] == h1[1..] + h2; }
        k + Kept(d1[1..] + d2, h1[1..] + h2);
      == { KeptAppend(d1[1..], h1[1..], d2, h2); }
        k + (Kept(d1[1..], h1[1..]) + Kept(d2, h2));
      ==
        Kept(d1, h1) + Kept(d2, h2);
      }
    }
  }

  /** The minimum number of present heights the slope regression accepts. */
  const MinHeights: nat := 5

  /** The regression of one time step is defined: when enough heights are
      present, the kept distances are not all equal (the fit divides by
      their spread). */
  predicate RegressionDefined(heights: Series, dists: seq<real>)
    requires |heights| == |dists|
  {
    |Present(heights)| >= MinHeights ==> Sxx(Kept(dists, heights)) != 0.0
  }

  /** The slope of one time step: missing when fewer than five heights are
      present, otherwise the negated least-squares gradient of the present
      heights against their nodes' distances. */
  function ApplyLinearRegression(heights: Series, dists: seq<real>): (v: Val)
    requires |heights| == |dists|
    requires RegressionDefined(heights, dists)
    ensures v == Missing <==> |Present(heights)| < MinHeights
  {
    var ys := Present(heights);
    if |ys| < MinHeights then Missing else Num(-OlsCoef(Kept(dists, heights), ys))
  }

  /** Heights that fall at a constant rate `s` per unit of distance give slope `s`. */
  lemma SlopeOfFallingLine(heights: Series, dists: seq<real>, s: real, b: real)
    requires |heights| == |dists| && RegressionDefined(heights, dists)
    requires |Present(heights)| >= MinHeights
    requires forall i :: 0 <= i < |heights| && heights[i].Num? ==> heights[i].r == Affine(-s, b, dists[i])
    ensures ApplyLinearRegression(heights, dists) == Num(s)
  {
    KeptOnLine(heights, dists, -s, b);
    OlsRecoversLine(Kept(dists, heights), Present(heights), -s, b);
  }

  lemma {:induction false} KeptOnLine(heights: Series, dists: seq<real>, a: real, b: real)
    requires |heights| == |dists|
    requires forall i :: 0 <= i < |heights| && heights[i].Num? ==> heights[i].r == Affine(a, b, dists[i])
    ensures OnLine(Kept(dists, heights), Present(heights), a, b)
  {
    if heights != [] {
      KeptOnLine(heights[1..], dists[1..], a, b);
      var xs, ys := Kept(dists, heights), Present(heights);
      var xs', ys' := Kept(dists[1..], heights[1..]), Present(heights[1..]);
      if heights[0].Num? {
        assert xs == [dists[0]] + xs' && ys == [heights[0].r] + ys';
        forall i | 1 <= i < |xs| ensures ys[i] == Affine(a, b, xs[i]) {
          assert xs[i] == xs'[i - 1] && ys[i] == ys'[i - 1];
        }
      } else {
        assert xs == xs' && ys == ys';
      }
    }
  }

  /** A node whose height is missing takes no part in the fit, whatever its distance. */
  lemma MissingNodeIgnored(h1: Series, d1: seq<real>, h2: Series, d2: seq<real>, d: real)
    requires |h1| == |d1| && |h2| == |d2|
    ensures RegressionDefined(h1 + [Missing] + h2, d1 + [d] + d2) <==> RegressionDefined(h1 + h2, d1 + d2)
    ensures RegressionDefined(h1 + h2, d1 + d2) ==>
              ApplyLinearRegression(h1 + [Missing] + h2, d1 + [d] + d2) == ApplyLinearRegression(h1 + h2, d1 + d2)
  {
    var h, dd := h1 + [Missing] + h2, d1 + [d] + d2;
    assert Present([Missing]) == [] && Kept([d], [Missing]) == [];
    PresentAppend(h1 + [Missing], h2);
    PresentAppend(h1, [Missing]);
    PresentAppend(h1, h2);
    assert Present(h) == Present(h1 + h2);
    KeptAppend(d1 + [d], h1 + [Missing], d2, h2);
    KeptAppend(d1, h1, [d], [Missing]);
    KeptAppend(d1, h1, d2, h2);
    assert Kept(dd, h) == Kept(d1 + d2, h1 + h2);
  }

  /** Sum of the products of paired values. */
  function SumProd(xs: seq<real>, ys: seq<real>): real
    requires |xs| == |ys|
  {
    if xs == [] then 0.0 else Prod(xs[0], ys[0]) + SumProd(xs[1..], ys[1..])
  }

  /** Sum over the points of (xs, ys) of the product of their offsets from the point (a, b). */
  function HeadPairs(a: real, b: real, xs: seq<real>, ys: seq<real>): real
    requires |xs| == |ys|
  {
    if xs == [] then 0.0 else Prod(a - xs[0], b - ys[0]) + HeadPairs(a, b, xs[1..], ys[1..])
  }

  /** Sum over all pairs i < j of (xs[i] - xs[j]) * (ys[i] - ys[j]). */
  function PairSum(xs: seq<real>, ys: seq<real>): real
    requires |xs| == |ys|
  {
    if xs == [] then 0.0 else HeadPairs(xs[0], ys[0], xs[1..], ys[1..]) + PairSum(xs[1..], ys[1..])
  }

  /** Every two points are discordant: the one at the larger distance is the lower. */
  predicate Discordant(xs: seq<real>, ys: seq<real>)
    requires |xs| == |ys|
  {
    forall i, j :: 0 <= i < j < |xs| ==> Prod(xs[i] - xs[j], ys[i] - ys[j]) < 0.0
  }

  /** Closed form of HeadPairs over m points with the given sums of
      distances, heights and products. */
  function HeadPairsForm(a: real, b: real, m: real, sx: real, sy: real, sp: real): real
  {
    m * Prod(a, b) - a * sy - b * sx + sp
  }

  lemma {:induction false} HeadPairsExpand(a: real, b: real, xs: seq<real>, ys: seq<real>)
    requires |xs| == |ys|
    ensures HeadPairs(a, b, xs, ys) == HeadPairsForm(a, b, |xs| as real, Sum(xs), Sum(ys), SumProd(xs, ys))
  {
    if xs == [] {
      assert HeadPairs(a, b, xs, ys) == 0.0 && SumProd(xs, ys) == 0.0 && Sum(xs) == 0.0 && Sum(ys) == 0.0;
    } else {
      var xt, yt := xs[1..], ys[1..];
      HeadPairsExpand(a, b, xt, yt);
      HeadPairsStep(a, b, xs[0], ys[0], |xt| as real, Sum(xt), Sum(yt), SumProd(xt, yt));
    }
  }

  lemma HeadPairsStep(a: real, b: real, x: real, y: real, m: real, sx: real, sy: real, sp: real)
    ensures HeadPairsForm(a, b, m + 1.0, x + sx, y + sy, Prod(x, y) + sp)
         == Prod(a - x, b - y) + HeadPairsForm(a, b, m, sx, sy, sp)
  {
  }

  /** Closed form of PairSum: n times the sum of products minus the product of the sums. */
  function PairForm(m: real, sx: real, sy: real, sp: real): real
  {
    m * sp - sx * sy
  }

  /** The pairwise form of the co-spread: the sum over pairs is n times the
      sum of products minus the product of the sums. */
  lemma {:induction false} PairSumIdentity(xs: seq<real>, ys: seq<real>)
    requires |xs| == |ys|
    ensures PairSum(xs, ys) == PairForm(|xs| as real, Sum(xs), Sum(ys), SumProd(xs, ys))
  {
    if xs == [] {
      assert PairSum(xs, ys) == 0.0 && SumProd(xs, ys) == 0.0 && Sum(xs) == 0.0 && Sum(ys) == 0.0;
    } else {
      var xt, yt := xs[1..], ys[1..];
      PairSumIdentity(xt, yt);
      HeadPairsExpand(xs[0], ys[0], xt, yt);
      PairStep(xs[0], ys[0], |xt| as real, Sum(xt), Sum(yt), SumProd(xt, yt));
    }
  }

  lemma PairStep(a: real, b: real, m: real, sx: real, sy: real, sp: real)
    ensures PairForm(m + 1.0, a + sx, b + sy, Prod(a, b) + sp)
         == HeadPairsForm(a, b, m, sx, sy, sp) + PairForm(m, sx, sy, sp)
  {
  }

  /** Closed form of SumCross over m points with the given sums. */
  function CrossForm(cx: real, cy: real, m: real, sx: real, sy: real, sp: real): real
  {
    sp - cy * sx - cx * sy + m * Prod(cx, cy)
  }

  lemma {:induction false} CrossExpand(xs: seq<real>, ys: seq<real>, cx: real, cy: real)
    requires |xs| == |ys|
    ensures SumCross(xs, ys, cx, cy) == CrossForm(cx, cy, |xs| as real, Sum(xs), Sum(ys), SumProd(xs, ys))
  {
    if xs == [] {
      assert SumCross(xs, ys, cx, cy) == 0.0 && SumProd(xs, ys) == 0.0 && Sum(xs) == 0.0 && Sum(ys) == 0.0;
    } else {
      var xt, yt := xs[1..], ys[1..];
      CrossExpand(xt, yt, cx, cy);
      CrossExpandStep(xs[0], ys[0], cx, cy, |xt| as real, Sum(xt), Sum(yt), SumProd(xt, yt));
    }
  }

  lemma CrossExpandStep(x: real, y: real, cx: real, cy: real, m: real, sx: real, sy: real, sp: real)
    ensures CrossForm(cx, cy, m + 1.0, x + sx, y + sy, Prod(x, y) + sp)
         == Prod(x - cx, y - cy) + CrossForm(cx, cy, m, sx, sy, sp)
  {
  }

  /** The co-spread in closed form, centred on the means. */
  lemma SxyClosed(xs: seq<real>, ys: seq<real>)
    requires |xs| == |ys| > 0
    ensures Sxy(xs, ys) == CrossForm(Mean(xs), Mean(ys), |xs| as real, Sum(xs), Sum(ys), SumProd(xs, ys))
  {
    CrossExpand(xs, ys, Mean(xs), Mean(ys));
  }

  /** The mean times the count is the sum. */
  lemma MeanTimesCount(xs: seq<real>, n: real)
    requires |xs| > 0 && n == |xs| as real
    ensures n > 0.0 && Mean(xs) * n == Sum(xs)
  {
  }

  /** n times the sum of products minus the product of the sums: n times the
      co-spread, written without the means. */
  function ScaledCoSpread(xs: seq<real>, ys: seq<real>): real
    requires |xs| == |ys|
  {
    PairForm(|xs| as real, Sum(xs), Sum(ys), SumProd(xs, ys))
  }

  /** n times the co-spread, in closed form. */
  lemma SxyCentred(xs: seq<real>, ys: seq<real>)
    requires |xs| == |ys| > 0
    ensures (|xs| as real) * Sxy(xs, ys) == ScaledCoSpread(xs, ys)
  {
    SxyClosed(xs, ys);
    MeanTimesCount(xs, |xs| as real);
    MeanTimesCount(ys, |xs| as real);
    CentreStep(|xs| as real, Sum(xs), Sum(ys), SumProd(xs, ys), Mean(xs), Mean(ys), Sxy(xs, ys));
  }

  /** n times the co-spread is the sum over pairs. */
  lemma SxyFromPairs(xs: seq<real>, ys: seq<real>)
    requires |xs| == |ys| > 0
    ensures (|xs| as real) * Sxy(xs, ys) == PairSum(xs, ys)
  {
    SxyCentred(xs, ys);
    PairSumIdentity(xs, ys);
    assert ScaledCoSpread(xs, ys) == PairForm(|xs| as real, Sum(xs), Sum(ys), SumProd(xs, ys));
  }

  /** Centring on the means: n times the centred form is the pairwise form. */
  lemma CentreStep(n: real, sx: real, sy: real, sp: real, cx: real, cy: real, c: real)
    requires n > 0.0 && cx * n == sx && cy * n == sy
    requires c == CrossForm(cx, cy, n, sx, sy, sp)
    ensures n * c == PairForm(n, sx, sy, sp)
  {
    calc {
      n * c;
      n * sp - n * (cy * (cx * n)) - n * (cx * (cy * n)) + n * (n * (cx * cy));
      n * sp - (cx * n) * (cy * n);
    }
  }

  lemma {:induction false} HeadPairsNegative(a: real, b: real, xs: seq<real>, ys: seq<real>)
    requires |xs| == |ys|
    requires forall j :: 0 <= j < |xs| ==> Prod(a - xs[j], b - ys[j]) < 0.0
    ensures HeadPairs(a, b, xs, ys) <= 0.0
    ensures |xs| > 0 ==> HeadPairs(a, b, xs, ys) < 0.0
  {
    if xs != [] {
      var xt, yt := xs[1..], ys[1..];
      forall j | 0 <= j < |xt| ensures Prod(a - xt[j], b - yt[j]) < 0.0 {
        assert xt[j] == xs[j + 1] && yt[j] == ys[j + 1];
      }
      HeadPairsNegative(a, b, xt, yt);
    }
  }

  /** Over discordant points the sum over pairs is never positive, and is
      negative as soon as there are two points. */
  lemma {:induction false} PairSumNegative(xs: seq<real>, ys: seq<real>)
    requires |xs| == |ys| && Discordant(xs, ys)
    ensures PairSum(xs, ys) <= 0.0
    ensures |xs| >= 2 ==> PairSum(xs, ys) < 0.0
  {
    if xs != [] {
      var xt, yt := xs[1..], ys[1..];
      forall i, j | 0 <= i < j < |xt| ensures Prod(xt[i] - xt[j], yt[i] - yt[j]) < 0.0 {
        assert xt[i] == xs[i + 1] && xt[j] == xs[j + 1] && yt[i] == ys[i + 1] && yt[j] == ys[j + 1];
      }
      PairSumNegative(xt, yt);
      forall j | 0 <= j < |xt| ensures Prod(xs[0] - xt[j], ys[0] - yt[j]) < 0.0 {
        assert xt[j] == xs[j + 1] && yt[j] == ys[j + 1];
      }
      HeadPairsNegative(xs[0], ys[0], xt, yt);
    }
  }

  /** Discordant points have distinct distances, so their spread is positive. */
  lemma DiscordantSpreadPositive(xs: seq<real>, ys: seq<real>)
    requires |xs| == |ys| >= 2 && Discordant(xs, ys)
    ensures Sxx(xs) > 0.0
  {
    SxxZeroIff(xs);
    assert Prod(xs[0] - xs[1], ys[0] - ys[1]) < 0.0;
  }

  /** Over discordant points the co-spread is negative. */
  lemma DiscordantSxyNegative(xs: seq<real>, ys: seq<real>)
    requires |xs| == |ys| >= 2 && Discordant(xs, ys)
    ensures Sxy(xs, ys) < 0.0
  {
    SxyFromPairs(xs, ys);
    PairSumNegative(xs, ys);
  }

  /** Heights that fall between every two present nodes, from the nearer to
      the farther one, give a present and positive slope, on or off a line. */
  lemma DiscordantSlopePositive(heights: Series, dists: seq<real>)
    requires |heights| == |dists| && |Present(heights)| >= MinHeights
    requires Discordant(Kept(dists, heights), Present(heights))
    ensures RegressionDefined(heights, dists)
    ensures ApplyLinearRegression(heights, dists).Num? && ApplyLinearRegression(heights, dists).r > 0.0
  {
    var xs, ys := Kept(dists, heights), Present(heights);
    DiscordantSpreadPositive(xs, ys);
    DiscordantSxyNegative(xs, ys);
    NegatedQuotientPositive(Sxy(xs, ys), Sxx(xs));
  }

  lemma NegatedQuotientPositive(p: real, d: real)
    requires p < 0.0 && d > 0.0
    ensures -(p / d) > 0.0
  {
    assert p / d < 0.0;
  }

  /** Heights falling down-reach give a positive slope: when the distances of
      the present nodes strictly increase and their heights strictly
      decrease, the slope is present and positive. */
  lemma FallingHeightsPositiveSlope(heights: Series, dists: seq<real>)
    requires |heights| == |dists| && |Present(heights)| >= MinHeights
    requires StrictlyRising(Kept(dists, heights)) && StrictlyFalling(Present(heights))
    ensures RegressionDefined(heights, dists)
    ensures ApplyLinearRegression(heights, dists).Num? && ApplyLinearRegression(heights, dists).r > 0.0
  {
    FallingDiscordant(Kept(dists, heights), Present(heights));
    DiscordantSlopePositive(heights, dists);
  }

  /** Heights that fall while distances rise are discordant pairwise. */
  lemma FallingDiscordant(xs: seq<real>, ys: seq<real>)
    requires |xs| == |ys| && StrictlyRising(xs) && StrictlyFalling(ys)
    ensures Discordant(xs, ys)
  {
    forall i, j | 0 <= i < j < |xs| ensures Prod(xs[i] - xs[j], ys[i] - ys[j]) < 0.0 {
      MulPositive(xs[j] - xs[i], ys[i] - ys[j]);
    }
  }

  /** Every height is present. */
  predicate AllPresent(heights: Series)
  {
    forall i :: 0 <= i < |heights| ==> heights[i].Num?
  }

  /** With every height present, every distance takes part in the fit. */
  lemma {:induction false} AllPresentKept(heights: Series, dists: seq<real>)
    requires |heights| == |dists| && AllPresent(heights)
    ensures Kept(dists, heights) == dists
    ensures forall i :: 0 <= i < |heights| ==> Present(heights)[i] == heights[i].r
  {
    if heights != [] {
      AllPresentKept(heights[1..], dists[1..]);
      assert dists == [dists[0]] + dists[1..];
      var ys, ys' := Present(heights), Present(heights[1..]);
      forall i | 1 <= i < |heights| ensures ys[i] == heights[i].r {
        assert ys[i] == ys'[i - 1];
      }
    }
  }

  lemma SumSqDev5(xs: seq<real>, c: real)
    requires |xs| == 5
    ensures SumSqDev(xs, c) == Sq(xs[0] - c) + Sq(xs[1] - c) + Sq(xs[2] - c) + Sq(xs[3] - c) + Sq(xs[4] - c)
  {
    var t1 := xs[1..];
    var t2 := t1[1..];
    var t3 := t2[1..];
    var t4 := t3[1..];
    assert t4[1..] == [];
    assert SumSqDev(t4, c) == Sq(xs[4] - c);
    assert SumSqDev(t3, c) == Sq(xs[3] - c) + SumSqDev(t4, c);
    assert SumSqDev(t2, c) == Sq(xs[2] - c) + SumSqDev(t3, c);
    assert SumSqDev(t1, c) == Sq(xs[1] - c) + SumSqDev(t2, c);
  }

  lemma SumCross5(xs: seq<real>, ys: seq<real>, cx: real, cy: real)
    requires |xs| == |ys| == 5
    ensures SumCross(xs, ys, cx, cy) == Prod(xs[0] - cx, ys[0] - cy) + Prod(xs[1] - cx, ys[1] - cy)
              + Prod(xs[2] - cx, ys[2] - cy) + Prod(xs[3] - cx, ys[3] - cy) + Prod(xs[4] - cx, ys[4] - cy)
  {
    var x1, y1 := xs[1..], ys[1..];
    var x2, y2 := x1[1..], y1[1..];
    var x3, y3 := x2[1..], y2[1..];
    var x4, y4 := x3[1..], y3[1..];
    assert x4[1..] == [] && y4[1..] == [];
    assert SumCross(x4, y4, cx, cy) == Prod(xs[4] - cx, ys[4] - cy);
    assert SumCross(x3, y3, cx, cy) == Prod(xs[3] - cx, ys[3] - cy) + SumCross(x4, y4, cx, cy);
    assert SumCross(x2, y2, cx, cy) == Prod(xs[2] - cx, ys[2] - cy) + SumCross(x3, y3, cx, cy);
    assert SumCross(x1, y1, cx, cy) == Prod(xs[1] - cx, ys[1] - cy) + SumCross(x2, y2, cx, cy);
  }

  /** The first time step of the reach in the slope tests (node heights 33.5 m
      down to 2.35 m) with the nodes one unit of distance apart: slope 8.17. */
  lemma UnitSpacingExample()
    ensures var heights := [Num(33.5), Num(23.8), Num(15.85), Num(4.40), Num(2.35)];
            var dists := [0.0, 1.0, 2.0, 3.0, 4.0];
            RegressionDefined(heights, dists) && ApplyLinearRegression(heights, dists) == Num(8.17)
  {
    var heights := [Num(33.5), Num(23.8), Num(15.85), Num(4.40), Num(2.35)];
    var dists := [0.0, 1.0, 2.0, 3.0, 4.0];
    AllPresentKept(heights, dists);
    var ys := Present(heights);
    assert ys == [33.5, 23.8, 15.85, 4.40, 2.35];
    Sum5(dists);
    Sum5(ys);
    assert Mean(dists) == 2.0;
    assert Mean(ys) == 15.98;
    SumSqDev5(dists, 2.0);
    assert Sxx(dists) == 10.0;
    SumCross5(dists, ys, 2.0, 15.98);
    assert Sxy(dists, ys) == -81.7;
  }
}
