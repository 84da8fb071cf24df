/** A reference order-statistic: the median of a window as the middle element
    of the window sorted by an independent insertion sort. The filters of the
    driver are proved against these definitions. */
module Order {

  ghost predicate SortedDesc(s: seq<real>) {
    forall i, j :: 0 <= i < j < |s| ==> s[i] >= s[j]
  }

  /** Places `x` in front of the first element of `s` that does not exceed it. */
  function InsertDesc(x: real, s: seq<real>): (r: seq<real>)
    ensures |r| == |s| + 1
    ensures multiset(r) == multiset(s) + multiset{x}
  {
    if |s| == 0 || x >= s[0] then [x] + s
    else
      assert s == [s[0]] + s[1..];
      [s[0]] + InsertDesc(x, s[1..])
  }

  lemma {:induction false} InsertDescSorted(x: real, s: seq<real>)
    requires SortedDesc(s)
    ensures SortedDesc(InsertDesc(x, s))
  {
    if |s| > 0 && x < s[0] {
      assert s == [s[0]] + s[1..];
      InsertDescSorted(x, s[1..]);
      var rest := InsertDesc(x, s[1..]);
      forall k | 0 <= k < |rest|
        ensures s[0] >= rest[k]
      {
        assert rest[k] in multiset(rest);
        if rest[k] != x {
          assert rest[k] in multiset(s[1..]);
          var i :| 0 <= i < |s[1..]| && s[1..][i] == rest[k];
          assert s[i + 1] == rest[k];
        }
      }
    }
  }

  /** Full insertion sort into descending order. */
  function SortDesc(s: seq<real>): (r: seq<real>)
    ensures |r| == |s|
    ensures multiset(r) == multiset(s)
    ensures SortedDesc(r)
  {
    if |s| == 0 then []
    else
      assert s == [s[0]] + s[1..];
      var t := SortDesc(s[1..]);
      InsertDescSorted(s[0], t);
      InsertDesc(s[0], t)
  }

  /** The median of an odd-length window: sorted position (|w| - 1) / 2. */
  function Median(w: seq<real>): (m: real)
    requires |w| > 0
    ensures m in w
  {
    var s := SortDesc(w);
    assert s[(|w| - 1) / 2] in multiset(s);
    s[(|w| - 1) / 2]
  }

  /** Two descending sequences holding the same values are the same sequence. */
  lemma {:induction false} SortedPermutationsEqual(a: seq<real>, b: seq<real>)
    requires SortedDesc(a) && SortedDesc(b)
    requires multiset(a) == multiset(b)
    ensures a == b
  {
    assert |a| == |multiset(a)| == |multiset(b)| == |b|;
    if |a| > 0 {
      assert a[0] == b[0] by {
        assert a[0] in multiset(a);
        var i :| 0 <= i < |b| && b[i] == a[0];
        assert b[0] >= a[0];
        assert b[0] in multiset(b);
        var j :| 0 <= j < |a| && a[j] == b[0];
        assert a[0] >= b[0];
      }
      SplitHead(a);
      SplitHead(b);
      SortedPermutationsEqual(a[1..], b[1..]);
    }
  }

  lemma SplitHead(a: seq<real>)
    requires |a| > 0
    ensures multiset(a) == multiset{a[0]} + multiset(a[1..])
    ensures multiset(a[1..]) == multiset(a) - multiset{a[0]}
    ensures SortedDesc(a) ==> SortedDesc(a[1..])
  {
    assert a == [a[0]] + a[1..];
  }

  /** The median depends only on which values the window holds, not their order. */
  lemma MedianOfPermutation(a: seq<real>, b: seq<real>)
    requires |a| > 0
    requires multiset(a) == multiset(b)
    ensures |b| == |a|
    ensures Median(a) == Median(b)
  {
    assert |a| == |multiset(a)| == |multiset(b)| == |b|;
    SortedPermutationsEqual(SortDesc(a), SortDesc(b));
  }

  /** Any descending rearrangement of a window has the median in its middle slot. */
  lemma MedianFromSorted(w: seq<real>, t: seq<real>)
    requires |w| > 0
    requires SortedDesc(t) && multiset(t) == multiset(w)
    ensures |t| == |w|
    ensures Median(w) == t[(|w| - 1) / 2]
  {
    assert |t| == |multiset(t)| == |multiset(w)| == |w|;
    SortedPermutationsEqual(SortDesc(w), t);
  }

  /** Of three values, the one lying between its two neighbours in the ring
      is the median. */
  lemma MedianOfThree(w: seq<real>, j: int)
    requires |w| == 3 && 0 <= j < 3
    requires var prev, next := w[(j + 2) % 3], w[(j + 1) % 3];
      (prev <= w[j] <= next) || (next <= w[j] <= prev)
    ensures Median(w) == w[j]
  {
    var prev, next := w[(j + 2) % 3], w[(j + 1) % 3];
    RingOfThree(w, j);
    if prev <= w[j] <= next {
      SortedThree(w, next, w[j], prev);
    } else {
      SortedThree(w, prev, w[j], next);
    }
  }

  lemma SortedThree(w: seq<real>, hi: real, mid: real, lo: real)
    requires |w| == 3
    requires hi >= mid >= lo
    requires multiset(w) == multiset{hi, mid, lo}
    ensures Median(w) == mid
  {
    var t := [hi, mid, lo];
    Multiset3(t);
    MedianFromSorted(w, t);
  }

  lemma RingOfThree(w: seq<real>, j: int)
    requires |w| == 3 && 0 <= j < 3
    ensures multiset(w) == multiset{w[(j + 2) % 3], w[j], w[(j + 1) % 3]}
  {
    Multiset3(w);
    if j == 0 {
      assert (j + 2) % 3 == 2 && (j + 1) % 3 == 1;
    } else if j == 1 {
      assert (j + 2) % 3 == 0 && (j + 1) % 3 == 2;
    } else {
      assert (j + 2) % 3 == 1 && (j + 1) % 3 == 0;
    }
  }

  lemma Multiset3(w: seq<real>)
    requires |w| == 3
    ensures multiset(w) == multiset{w[0], w[1], w[2]}
  {
    assert w == [w[0], w[1], w[2]];
  }
}
