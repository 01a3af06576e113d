/** Sums, means and medians of finite sequences of reals, as numpy's
    `mean` and `median` and pandas' rolling median compute them on the
    values that reach them: the mean or median of nothing is NaN. */
module Stats {
  import opened Outcomes

  function Sum(s: seq<real>): real
  {
    if s == [] then 0.0 else Sum(s[..|s| - 1]) + s[|s| - 1]
  }

  lemma {:induction false} SumAppend(a: seq<real>, b: seq<real>)
    ensures Sum(a + b) == Sum(a) + Sum(b)
  {
    if b != [] {
      assert (a + b)[..|a + b| - 1] == a + b[..|b| - 1];
      SumAppend(a, b[..|b| - 1]);
    } else {
      assert a + b == a;
    }
  }

  /** The sum of `n` copies of `c`. */
  lemma {:induction false} SumOfConstant(s: seq<real>, c: real)
    requires forall i :: 0 <= i < |s| ==> s[i] == c
    ensures Sum(s) == |s| as real * c
  {
    if s != [] {
      SumOfConstant(s[..|s| - 1], c);
    }
  }

  /** Every element between `lo` and `hi` bounds the sum by `n*lo` and `n*hi`. */
  lemma {:induction false} SumBetween(s: seq<real>, lo: real, hi: real)
    requires forall i :: 0 <= i < |s| ==> lo <= s[i] <= hi
    ensures |s| as real * lo <= Sum(s) <= |s| as real * hi
  {
    if s != [] {
      SumBetween(s[..|s| - 1], lo, hi);
    }
  }

  /** A square is never negative. */
  lemma Square(a: real)
    ensures a * a >= 0.0
  {
    if a < 0.0 {
      assert a * a == (-a) * (-a);
    }
  }

  /** numpy's `mean`: NaN for an empty array. */
  function Mean(s: seq<real>): (m: Option<real>)
    ensures m.None? <==> s == []
    ensures m.Some? ==> m.value * |s| as real == Sum(s)
  {
    if s == [] then None else Some(Sum(s) / |s| as real)
  }

  lemma MeanOfConstant(s: seq<real>, c: real)
    requires s != []
    requires forall i :: 0 <= i < |s| ==> s[i] == c
    ensures Mean(s) == Some(c)
  {
    SumOfConstant(s, c);
    assert Sum(s) / |s| as real == c;
  }

  /** A mean lies between the least and the greatest value averaged. */
  lemma MeanBetween(s: seq<real>, lo: real, hi: real)
    requires s != []
    requires forall i :: 0 <= i < |s| ==> lo <= s[i] <= hi
    ensures Mean(s).Some? && lo <= Mean(s).value <= hi
  {
    SumBetween(s, lo, hi);
  }

  predicate Ascending(s: seq<real>)
  {
    forall i, j :: 0 <= i < j < |s| ==> s[i] <= s[j]
  }

  function Insert(x: real, s: seq<real>): (r: seq<real>)
    requires Ascending(s)
    ensures Ascending(r)
    ensures multiset(r) == multiset(s) + multiset{x}
    ensures |r| == |s| + 1
    ensures forall k :: 0 <= k < |r| ==> r[k] == x || r[k] in s
  {
    if s == [] then [x]
    else if x <= s[0] then
      InsertFront(x, s);
      [x] + s
    else
      AscendingTail(s);
      var t := Insert(x, s[1..]);
      InsertBehind(x, s, t);
      [s[0]] + t
  }

  /** Putting a value no greater than the head in front keeps the order. */
  lemma InsertFront(x: real, s: seq<real>)
    requires Ascending(s) && s != [] && x <= s[0]
    ensures var r := [x] + s;
      && Ascending(r)
      && multiset(r) == multiset(s) + multiset{x}
      && forall k :: 0 <= k < |r| ==> r[k] == x || r[k] in s
  {
    assert forall k :: 0 <= k < |s| ==> s[0] <= s[k];
    AscendingCons(x, s);
    var r := [x] + s;
    forall k | 0 <= k < |r| ensures r[k] == x || r[k] in s {
      if k > 0 {
        assert r[k] == s[k - 1];
      }
    }
  }

  /** Keeping the head in front of the tail the value went into keeps the
      order. */
  lemma InsertBehind(x: real, s: seq<real>, t: seq<real>)
    requires Ascending(s) && s != [] && s[0] < x
    requires Ascending(t) && |t| == |s|
    requires multiset(t) == multiset(s[1..]) + multiset{x}
    requires forall k :: 0 <= k < |t| ==> t[k] == x || t[k] in s[1..]
    ensures var r := [s[0]] + t;
      && Ascending(r)
      && multiset(r) == multiset(s) + multiset{x}
      && forall k :: 0 <= k < |r| ==> r[k] == x || r[k] in s
  {
    assert s == [s[0]] + s[1..];
    HeadIsLowest(s, t, x);
    AscendingCons(s[0], t);
    var r := [s[0]] + t;
    forall k | 0 <= k < |r| ensures r[k] == x || r[k] in s {
      if k > 0 {
        assert r[k] == t[k - 1];
      }
    }
  }

  lemma AscendingTail(s: seq<real>)
    requires Ascending(s) && s != []
    ensures Ascending(s[1..])
  {
    var u := s[1..];
    forall i, j | 0 <= i < j < |u| ensures u[i] <= u[j] {
      assert u[i] == s[i + 1] && u[j] == s[j + 1];
    }
  }

  /** What is inserted into the tail of a sorted sequence, above its head,
      stays above its head. */
  lemma HeadIsLowest(s: seq<real>, t: seq<real>, x: real)
    requires Ascending(s) && s != [] && s[0] < x
    requires forall k :: 0 <= k < |t| ==> t[k] == x || t[k] in s[1..]
    ensures forall k :: 0 <= k < |t| ==> s[0] <= t[k]
  {
    forall k | 0 <= k < |t| ensures s[0] <= t[k] {
      if t[k] != x {
        var m :| 1 <= m < |s| && s[m] == t[k];
      }
    }
  }

  lemma AscendingCons(a: real, t: seq<real>)
    requires Ascending(t) && forall k :: 0 <= k < |t| ==> a <= t[k]
    ensures Ascending([a] + t)
  {
    var r := [a] + t;
    forall i, j | 0 <= i < j < |r| ensures r[i] <= r[j] {
      assert r[j] == t[j - 1];
      if i > 0 {
        assert r[i] == t[i - 1];
      }
    }
  }

  /** Insertion sort: the ascending permutation of `s`. */
  function Sort(s: seq<real>): (r: seq<real>)
    ensures Ascending(r)
    ensures multiset(r) == multiset(s)
    ensures |r| == |s|
  {
    if s == [] then []
    else
      assert s == s[..|s| - 1] + [s[|s| - 1]];
      Insert(s[|s| - 1], Sort(s[..|s| - 1]))
  }

  /** numpy's `median` (and the value of a full pandas rolling window):
      the middle of the sorted values, or the mean of the two middle
      ones when there is an even number of them; NaN for none. */
  function Median(s: seq<real>): Option<real>
  {
    if s == [] then None
    else
      var r := Sort(s);
      var n := |r|;
      if n % 2 == 1 then Some(r[n / 2]) else Some((r[n / 2 - 1] + r[n / 2]) / 2.0)
  }

  lemma InSorted(s: seq<real>, k: int)
    requires 0 <= k < |s|
    ensures Sort(s)[k] in s
  {
    var r := Sort(s);
    assert r[k] in multiset(r);
  }

  /** The median of a nonempty sequence lies between two of its elements:
      it is never outside the range of the data. */
  lemma MedianWithinRange(s: seq<real>)
    requires s != []
    ensures Median(s).Some?
    ensures exists i, j :: 0 <= i < |s| && 0 <= j < |s| && s[i] <= Median(s).value <= s[j]
  {
    var r := Sort(s);
    var n := |r|;
    if n % 2 == 1 {
      InSorted(s, n / 2);
      var i :| 0 <= i < |s| && s[i] == r[n / 2];
      assert s[i] <= Median(s).value <= s[i];
    } else {
      InSorted(s, n / 2 - 1);
      InSorted(s, n / 2);
      var i :| 0 <= i < |s| && s[i] == r[n / 2 - 1];
      var j :| 0 <= j < |s| && s[j] == r[n / 2];
      assert r[n / 2 - 1] <= r[n / 2];
      assert s[i] <= Median(s).value <= s[j];
    }
  }

  /** The median of a constant sequence is that constant. */
  lemma MedianOfConstant(s: seq<real>, c: real)
    requires s != []
    requires forall i :: 0 <= i < |s| ==> s[i] == c
    ensures Median(s) == Some(c)
  {
    var r := Sort(s);
    forall k | 0 <= k < |r| ensures r[k] == c {
      InSorted(s, k);
    }
  }
}
