/** The NaN-skipping median pandas computes (`median(skipna = True)`): the
    middle value of the sorted non-missing values, or the mean of the two
    middle values when their number is even. */
module Median {
  import opened Values
  import opened Stats

  predicate SortedAsc(s: seq<real>)
  {
    forall i, j :: 0 <= i < j < |s| ==> s[i] <= s[j]
  }

  /** Inserts `x` in front of the first value of `s` that is not smaller. */
  function Insert(x: real, s: seq<real>): (r: seq<real>)
    ensures |r| == |s| + 1
  {
    if s == [] then [x]
    else if x <= s[0] then [x] + s
    else [s[0]] + Insert(x, s[1..])
  }

  /** Inserting into a sorted sequence keeps it sorted and adds exactly `x`. */
  lemma {:induction false} InsertSorted(x: real, s: seq<real>)
    requires SortedAsc(s)
    ensures SortedAsc(Insert(x, s))
    ensures multiset(Insert(x, s)) == multiset(s) + multiset{x}
  {
    if s != [] && x > s[0] {
      InsertSorted(x, s[1..]);
      InsertBehindHead(x, s, Insert(x, s[1..]));
    }
  }

  lemma InsertBehindHead(x: real, s: seq<real>, tail: seq<real>)
    requires s != [] && SortedAsc(s) && s[0] < x
    requires SortedAsc(tail) && multiset(tail) == multiset(s[1..]) + multiset{x}
    ensures SortedAsc([s[0]] + tail)
    ensures multiset([s[0]] + tail) == multiset(s) + multiset{x}
  {
    forall k | 0 <= k < |tail| ensures s[0] <= tail[k] {
      assert tail[k] in multiset(tail);
      if tail[k] != x {
        assert tail[k] in multiset(s[1..]);
        var j :| 0 <= j < |s[1..]| && s[1..][j] == tail[k];
        assert s[j + 1] == tail[k];
      }
    }
    var r := [s[0]] + tail;
    forall i, j | 0 <= i < j < |r| ensures r[i] <= r[j] {
      if i == 0 {
        assert r[j] == tail[j - 1];
      } else {
        assert r[i] == tail[i - 1] && r[j] == tail[j - 1];
      }
    }
    assert s == [s[0]] + s[1..];
  }

  /** The values of `xs` in ascending order (insertion sort). */
  function Sort(xs: seq<real>): (r: seq<real>)
    ensures |r| == |xs|
  {
    if xs == [] then [] else Insert(xs[0], Sort(xs[1..]))
  }

  /** `Sort` sorts, and keeps exactly the values it was given. */
  lemma {:induction false} SortSorted(xs: seq<real>)
    ensures SortedAsc(Sort(xs))
    ensures multiset(Sort(xs)) == multiset(xs)
  {
    if xs != [] {
      SortSorted(xs[1..]);
      InsertSorted(xs[0], Sort(xs[1..]));
      assert xs == [xs[0]] + xs[1..];
    }
  }

  /** Two sorted sequences holding the same values are the same sequence:
      sorting is determined by the multiset of the values alone. */
  lemma {:induction false} SortedUnique(a: seq<real>, b: seq<real>)
    requires SortedAsc(a) && SortedAsc(b)
    requires multiset(a) == multiset(b)
    ensures a == b
  {
    assert |a| == |multiset(a)| == |multiset(b)| == |b|;
    if a != [] {
      HeadIsLeast(a, b[0]);
      HeadIsLeast(b, a[0]);
      assert a[0] == b[0];
      assert a == [a[0]] + a[1..];
      assert b == [b[0]] + b[1..];
      assert multiset(a[1..]) == multiset(a) - multiset{a[0]};
      assert multiset(b[1..]) == multiset(b) - multiset{b[0]};
      SortedUnique(a[1..], b[1..]);
    }
  }

  /** The head of a sorted sequence is at most any of its values. */
  lemma HeadIsLeast(a: seq<real>, v: real)
    requires SortedAsc(a) && v in multiset(a)
    ensures a[0] <= v
  {
    var j :| 0 <= j < |a| && a[j] == v;
  }

  /** The median of a non-empty sequence of values. */
  function MedianOf(xs: seq<real>): (m: real)
    requires |xs| > 0
  {
    Middle(Sort(xs))
  }

  /** The middle value of a sorted sequence, or the mean of its two middle values. */
  function Middle(s: seq<real>): (m: real)
    requires |s| > 0
  {
    var n := |s|;
    if n % 2 == 1 then s[n / 2] else (s[n / 2 - 1] + s[n / 2]) / 2.0
  }

  /** The median depends only on the values, not on the order of the nodes. */
  lemma MedianIgnoresOrder(xs: seq<real>, ys: seq<real>)
    requires |xs| > 0
    requires multiset(xs) == multiset(ys)
    ensures |ys| > 0 && MedianOf(xs) == MedianOf(ys)
  {
    assert |xs| == |multiset(xs)| == |multiset(ys)| == |ys|;
    SortSorted(xs);
    SortSorted(ys);
    SortedUnique(Sort(xs), Sort(ys));
  }

  /** With an odd number of values the median is one of them. */
  lemma MedianOddIsMember(xs: seq<real>)
    requires |xs| % 2 == 1
    ensures MedianOf(xs) in xs
  {
    var s := Sort(xs);
    SortSorted(xs);
    assert s[|s| / 2] in multiset(xs);
  }

  /** The median lies between the smallest and the largest value. */
  lemma MedianBounds(xs: seq<real>)
    requires |xs| > 0
    ensures exists i :: 0 <= i < |xs| && xs[i] <= MedianOf(xs)
    ensures exists j :: 0 <= j < |xs| && MedianOf(xs) <= xs[j]
  {
    var s := Sort(xs);
    var n := |s|;
    SortSorted(xs);
    assert s[0] in multiset(xs) && s[n - 1] in multiset(xs);
    var i :| 0 <= i < |xs| && xs[i] == s[0];
    var j :| 0 <= j < |xs| && xs[j] == s[n - 1];
    assert s[0] <= s[n / 2] <= s[n - 1];
    if n % 2 == 0 {
      assert s[0] <= s[n / 2 - 1] <= s[n - 1];
    }
  }

  /** The median of values known to sort to `s` is the middle of `s`. */
  lemma MedianOfSorted(xs: seq<real>, s: seq<real>)
    requires |xs| > 0 && SortedAsc(s) && multiset(s) == multiset(xs)
    ensures |s| == |xs| && MedianOf(xs) == Middle(s)
  {
    assert |s| == |multiset(s)| == |multiset(xs)| == |xs|;
    SortSorted(xs);
    SortedUnique(Sort(xs), s);
  }

  /** Every value of `s` raised by `c`. */
  function Shift(s: seq<real>, c: real): (r: seq<real>)
    ensures |r| == |s| && forall i :: 0 <= i < |s| ==> r[i] == s[i] + c
  {
    if s == [] then [] else [s[0] + c] + Shift(s[1..], c)
  }

  /** Raising a sequence with a given head raises the head and the rest. */
  lemma ShiftCons(x: real, t: seq<real>, c: real)
    ensures Shift([x] + t, c) == [x + c] + Shift(t, c)
  {
    assert ([x] + t)[1..] == t;
  }

  /** Raising every value keeps the order. */
  lemma ShiftSorted(s: seq<real>, c: real)
    requires SortedAsc(s)
    ensures SortedAsc(Shift(s, c))
  {
  }

  /** A value occurs in the raised sequence as often as the value `c` below
      it occurs in the original. */
  lemma {:induction false} ShiftCount(s: seq<real>, c: real, v: real)
    ensures multiset(Shift(s, c))[v] == multiset(s)[v - c]
  {
    if s != [] {
      var head, rest := s[0], Shift(s[1..], c);
      calc {
        multiset(Shift(s, c))[v];
      == { ShiftCons(head, s[1..], c); assert [head] + s[1..] == s; }
        multiset([head + c] + rest)[v];
      ==
        multiset{head + c}[v] + multiset(rest)[v];
      == { SingletonShift(head, c, v); ShiftCount(s[1..], c, v); }
        multiset{head}[v - c] + multiset(s[1..])[v - c];
      ==
        multiset([head] + s[1..])[v - c];
      == { assert [head] + s[1..] == s; }
        multiset(s)[v - c];
      }
    }
  }

  /** One value raised by `c` is `v` exactly when the value itself is `v - c`. */
  lemma SingletonShift(h: real, c: real, v: real)
    ensures multiset{h + c}[v] == multiset{h}[v - c]
  {
    if h + c == v {
      assert h == v - c;
    } else {
      assert h != v - c;
    }
  }

  /** Sequences holding the same values still do once both are raised. */
  lemma ShiftMultiset(a: seq<real>, b: seq<real>, c: real)
    requires multiset(a) == multiset(b)
    ensures multiset(Shift(a, c)) == multiset(Shift(b, c))
  {
    forall v ensures multiset(Shift(a, c))[v] == multiset(Shift(b, c))[v] {
      ShiftCount(a, c, v);
      ShiftCount(b, c, v);
    }
  }

  /** Raising every value raises the middle. */
  lemma MiddleShift(s: seq<real>, c: real)
    requires |s| > 0
    ensures Middle(Shift(s, c)) == Middle(s) + c
  {
  }

  /** Raising every value by `c` raises the median by `c`. */
  lemma MedianShift(xs: seq<real>, c: real)
    requires |xs| > 0
    ensures MedianOf(Shift(xs, c)) == MedianOf(xs) + c
  {
    var s := Sort(xs);
    SortSorted(xs);
    ShiftSorted(s, c);
    ShiftMultiset(s, xs, c);
    MedianOfSorted(Shift(xs, c), Shift(s, c));
    MiddleShift(s, c);
  }

  /** `xs` back to front. */
  function Reversed(xs: seq<real>): (r: seq<real>)
    ensures |r| == |xs| && forall i :: 0 <= i < |xs| ==> r[i] == xs[|xs| - 1 - i]
  {
    seq(|xs|, i requires 0 <= i < |xs| => xs[|xs| - 1 - i])
  }

  /** A value above every value of `s` is inserted at the end. */
  lemma {:induction false} InsertLargest(x: real, s: seq<real>)
    requires forall i :: 0 <= i < |s| ==> s[i] < x
    ensures Insert(x, s) == s + [x]
  {
    if s != [] {
      InsertLargest(x, s[1..]);
      assert s == [s[0]] + s[1..];
    }
  }

  /** Sorting values that fall strictly reverses them. */
  lemma {:induction false} SortFalling(xs: seq<real>)
    requires StrictlyFalling(xs)
    ensures Sort(xs) == Reversed(xs)
  {
    if xs != [] {
      var rest := xs[1..];
      SortFalling(rest);
      InsertLargest(xs[0], Reversed(rest));
      assert Reversed(rest) + [xs[0]] == Reversed(xs);
    }
  }

  /** The median of an odd number of strictly falling values is the one in
      the middle position. */
  lemma MedianOfFalling(xs: seq<real>)
    requires StrictlyFalling(xs) && |xs| % 2 == 1
    ensures MedianOf(xs) == xs[|xs| / 2]
  {
    SortFalling(xs);
  }

  /** pandas' NaN-skipping median: missing exactly when no value is present. */
  function NanMedian(s: Series): (v: Val)
    ensures v == Missing <==> forall i :: 0 <= i < |s| ==> s[i] == Missing
  {
    PresentEmptyIff(s);
    var xs := Present(s);
    if |xs| == 0 then Missing else Num(MedianOf(xs))
  }
}
