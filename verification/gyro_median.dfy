/** The median filter of ICM20948::_SetGyroscope: a ring of three 3-axis
    samples, overwritten slot by slot, and for each axis a scan that starts at
    the current slot and stops at the first sample lying between its two ring
    neighbours. The ring starts out as zeros, like the static array. */
module GyroMedian {
  import opened Common
  import opened Order

  const TAPS: nat := 3

  /** The two function-local statics: `buffer[3][3]` and `counter`. */
  datatype Filter = Filter(rows: seq<Vec3>, counter: int)

  predicate Valid(f: Filter) {
    |f.rows| == TAPS && 0 <= f.counter < TAPS
  }

  /** Both statics as the program starts: zeros and slot 0. */
  const INITIAL: Filter := Filter([ZERO3, ZERO3, ZERO3], 0)

  /** The samples of one axis across the three slots. */
  function Column(rows: seq<Vec3>, axis: Axis): (c: seq<real>)
    requires |rows| == TAPS
    ensures |c| == TAPS
    ensures forall j :: 0 <= j < TAPS ==> c[j] == rows[j].Get(axis)
  {
    [rows[0].Get(axis), rows[1].Get(axis), rows[2].Get(axis)]
  }

  /** The test the scan applies at slot `j`: the sample is at least one ring
      neighbour and at most the other. */
  predicate Between(c: seq<real>, j: int)
    requires |c| == TAPS && 0 <= j < TAPS
  {
    var b, prev, next := c[j], c[(j + 2) % 3], c[(j + 1) % 3];
    (b >= prev && b <= next) || (b <= prev && b >= next)
  }

  /** The scan of one axis from ring position `i` on: the first sample, in
      ring order, that passes the test, or `keep` (the axis of `_gyro` left
      as it was) if the scan reaches 6 without one. */
  function Scan(c: seq<real>, i: int, keep: real): real
    requires |c| == TAPS && 0 <= i
    decreases 6 - i
  {
    if i >= 6 then keep
    else if Between(c, i % 3) then c[i % 3]
    else Scan(c, i + 1, keep)
  }

  /** Whatever the slot it starts from, the scan over `start .. start+2`
      meets a slot that passes the test, so it never runs off its bound 6. */
  lemma ScanFinds(c: seq<real>, start: int)
    requires |c| == TAPS && 0 <= start < TAPS
    ensures exists k :: start <= k < start + 3 && Between(c, k % 3)
  {
    var j: int;
    if (c[0] >= c[2] && c[0] <= c[1]) || (c[0] <= c[2] && c[0] >= c[1]) {
      j := 0;
    } else if (c[1] >= c[0] && c[1] <= c[2]) || (c[1] <= c[0] && c[1] >= c[2]) {
      j := 1;
    } else {
      j := 2;
    }
    assert Between(c, j);
    var k := if j >= start then j else j + 3;
    assert k % 3 == j;
  }

  /** A scan that has a passing slot ahead of it returns one. */
  lemma {:induction false} ScanReturnsPassing(c: seq<real>, i: int, keep: real)
    requires |c| == TAPS && 0 <= i
    requires exists k :: i <= k < 6 && Between(c, k % 3)
    ensures exists k :: i <= k < 6 && Between(c, k % 3) && Scan(c, i, keep) == c[k % 3]
    decreases 6 - i
  {
    if Between(c, i % 3) {
      assert Scan(c, i, keep) == c[i % 3];
    } else {
      assert exists k :: i + 1 <= k < 6 && Between(c, k % 3) by {
        var k :| i <= k < 6 && Between(c, k % 3);
        assert k != i;
      }
      ScanReturnsPassing(c, i + 1, keep);
      var k :| i + 1 <= k < 6 && Between(c, k % 3) && Scan(c, i + 1, keep) == c[k % 3];
      assert Scan(c, i, keep) == c[k % 3];
    }
  }

  /** The scan from the current slot returns the median of the column,
      whatever the slot and whatever `_gyro` held. */
  lemma ScanIsMedian(c: seq<real>, start: int, keep: real)
    requires |c| == TAPS && 0 <= start < TAPS
    ensures Scan(c, start, keep) == Median(c)
  {
    ScanFinds(c, start);
    ScanReturnsPassing(c, start, keep);
    var k :| start <= k < 6 && Between(c, k % 3) && Scan(c, start, keep) == c[k % 3];
    MedianOfThree(c, k % 3);
  }

  /** One call of `_SetGyroscope`: `out` is `_gyro` before the call, `res`
      after it. The sample overwrites the current slot, each axis of `_gyro`
      becomes the median of that axis over the three slots, and the counter
      moves on. */
  method SetGyroscope(f: Filter, gyro: Vec3, out: Vec3) returns (g: Filter, res: Vec3)
    requires Valid(f)
    ensures Valid(g)
    ensures g.rows == f.rows[f.counter := gyro]
    ensures g.counter == (f.counter + 1) % TAPS
    ensures forall a: Axis :: res.Get(a) == Scan(Column(g.rows, a), f.counter, out.Get(a))
    ensures forall a: Axis :: res.Get(a) == Median(Column(g.rows, a))
  {
    var rows := f.rows[f.counter := gyro];
    res := ScanAll(rows, f.counter, out);
    g := Filter(rows, (f.counter + 1) % TAPS);
    ScansAreMedians(rows, f.counter, out, res);
  }

  /** The outer loop of `_SetGyroscope`: the scan of each axis in turn, each
      starting from `_gyro`'s old value on that axis. */
  method ScanAll(rows: seq<Vec3>, start: int, out: Vec3) returns (res: Vec3)
    requires |rows| == TAPS && 0 <= start < TAPS
    ensures forall a: Axis :: res.Get(a) == Scan(Column(rows, a), start, out.Get(a))
  {
    var r := [out.x, out.y, out.z];
    var axis := 0;
    while axis < 3
      invariant 0 <= axis <= 3 && |r| == 3
      invariant forall a :: 0 <= a < axis ==> r[a] == Scan(Column(rows, a), start, out.Get(a))
      invariant forall a :: axis <= a < 3 ==> r[a] == out.Get(a)
    {
      var v := ScanAxis(Column(rows, axis), start, r[axis]);
      r := r[axis := v];
      axis := axis + 1;
    }
    res := Vec3(r[0], r[1], r[2]);
  }

  /** The inner loop of `_SetGyroscope` for one axis: from the current slot,
      stop at the first sample that passes the test and store it. */
  method ScanAxis(c: seq<real>, start: int, keep: real) returns (v: real)
    requires |c| == TAPS && 0 <= start < TAPS
    ensures v == Scan(c, start, keep)
  {
    v := keep;
    var i := start;
    var found := false;
    while i < 6 && !found
      invariant start <= i <= 6
      invariant found ==> v == Scan(c, start, keep)
      invariant !found ==> v == keep && Scan(c, start, keep) == Scan(c, i, keep)
      decreases if found then 0 else 1, 6 - i
    {
      if Between(c, i % 3) {
        v := c[i % 3];
        found := true;
      } else {
        i := i + 1;
      }
    }
  }

  lemma ScansAreMedians(rows: seq<Vec3>, start: int, out: Vec3, res: Vec3)
    requires |rows| == TAPS && 0 <= start < TAPS
    requires forall a: Axis :: res.Get(a) == Scan(Column(rows, a), start, out.Get(a))
    ensures forall a: Axis :: res.Get(a) == Median(Column(rows, a))
  {
    forall a: Axis
      ensures res.Get(a) == Median(Column(rows, a))
    {
      ScanIsMedian(Column(rows, a), start, out.Get(a));
    }
  }

  /** The sample last written to slot `j` after the history `h`, or the zero
      the static array started with. */
  function Latest(h: seq<Vec3>, j: nat): Vec3
    decreases |h|
  {
    if |h| == 0 then ZERO3
    else if (|h| - 1) % TAPS == j then h[|h| - 1]
    else Latest(h[..|h| - 1], j)
  }

  /** The ring after feeding the samples `h` to a fresh filter. */
  function Rows(h: seq<Vec3>): (r: seq<Vec3>)
    ensures |r| == TAPS
  {
    [Latest(h, 0), Latest(h, 1), Latest(h, 2)]
  }

  /** One call writes the sample into slot `|h| mod 3` and nothing else. */
  lemma RowsStep(h: seq<Vec3>, v: Vec3)
    ensures Rows(h + [v]) == Rows(h)[|h| % TAPS := v]
  {
    assert (h + [v])[..|h|] == h;
  }

  /** With fewer than three samples, the slots not yet written still hold
      zeros. */
  lemma {:induction false} RowsWhileFilling(h: seq<Vec3>)
    requires |h| < TAPS
    ensures forall j :: 0 <= j < |h| ==> Rows(h)[j] == h[j]
    ensures forall j :: |h| <= j < TAPS ==> Rows(h)[j] == ZERO3
  {
    if |h| > 0 {
      var past := h[..|h| - 1];
      RowsWhileFilling(past);
      RowsStep(past, h[|h| - 1]);
      assert past + [h[|h| - 1]] == h;
    }
  }

  /** Once three samples have arrived, the slots hold exactly the last three,
      the oldest in the slot the counter points at. */
  lemma {:induction false} RowsWhenFull(h: seq<Vec3>)
    requires |h| >= TAPS
    ensures forall k :: |h| - 3 <= k < |h| ==> Rows(h)[k % 3] == h[k]
  {
    var past := h[..|h| - 1];
    var v := h[|h| - 1];
    assert past + [v] == h;
    RowsStep(past, v);
    if |past| >= TAPS {
      RowsWhenFull(past);
    } else {
      RowsWhileFilling(past);
    }
  }

  /** The last three samples of one axis, oldest first. */
  function LastThree(h: seq<Vec3>, axis: Axis): seq<real>
    requires |h| >= TAPS
  {
    [h[|h| - 3].Get(axis), h[|h| - 2].Get(axis), h[|h| - 1].Get(axis)]
  }

  /** The filter's output on each axis, once three samples have arrived, is
      the median of the last three samples of that axis. */
  lemma FullRingMedian(h: seq<Vec3>, axis: Axis)
    requires |h| >= TAPS
    ensures Median(Column(Rows(h), axis)) == Median(LastThree(h, axis))
  {
    FullRingHoldsLastThree(h, axis);
    MedianOfPermutation(Column(Rows(h), axis), LastThree(h, axis));
  }

  /** Once three samples have arrived, the slot the counter points at holds
      the oldest of the last three, and the next two slots the newer ones. */
  lemma LastThreeSlots(h: seq<Vec3>)
    requires |h| >= TAPS
    ensures var q := |h| % 3;
      && Rows(h)[q] == h[|h| - 3]
      && Rows(h)[(q + 1) % 3] == h[|h| - 2]
      && Rows(h)[(q + 2) % 3] == h[|h| - 1]
  {
    RowsWhenFull(h);
    var n := |h|;
    var q := n % 3;
    assert (n - 3) % 3 == q && (n - 2) % 3 == (q + 1) % 3 && (n - 1) % 3 == (q + 2) % 3 by {
      assert n == 3 * (n / 3) + q;
      assert n - 3 == 3 * (n / 3 - 1) + q;
      if q == 0 {
        assert n - 2 == 3 * (n / 3 - 1) + 1;
        assert n - 1 == 3 * (n / 3 - 1) + 2;
      } else if q == 1 {
        assert n - 2 == 3 * (n / 3 - 1) + 2;
        assert n - 1 == 3 * (n / 3);
      } else {
        assert n - 2 == 3 * (n / 3);
        assert n - 1 == 3 * (n / 3) + 1;
      }
    }
    assert Rows(h)[(n - 3) % 3] == h[n - 3];
    assert Rows(h)[(n - 2) % 3] == h[n - 2];
    assert Rows(h)[(n - 1) % 3] == h[n - 1];
  }

  /** Once three samples have arrived, each column holds the last three
      samples of its axis, rotated by the counter. */
  lemma FullRingHoldsLastThree(h: seq<Vec3>, axis: Axis)
    requires |h| >= TAPS
    ensures multiset(Column(Rows(h), axis)) == multiset(LastThree(h, axis))
  {
    LastThreeSlots(h);
    RotatedMultiset(Column(Rows(h), axis), LastThree(h, axis), |h| % 3);
  }

  /** Three values read from a ring starting at slot `q` are the ring's
      values. */
  lemma RotatedMultiset(c: seq<real>, w: seq<real>, q: int)
    requires |c| == 3 && |w| == 3 && 0 <= q < 3
    requires c[q] == w[0] && c[(q + 1) % 3] == w[1] && c[(q + 2) % 3] == w[2]
    ensures multiset(c) == multiset(w)
  {
    RingOfThree(c, q);
    Multiset3(w);
    assert multiset{w[2], w[0], w[1]} == multiset{w[0], w[1], w[2]};
  }

  /** Feeding the samples `h` one by one to a fresh filter: the ring and the
      counter follow the history, and from the third sample on the output on
      every axis is the median of the last three samples. */
  method Feed(h: seq<Vec3>, out0: Vec3) returns (f: Filter, out: Vec3)
    ensures Valid(f)
    ensures f.rows == Rows(h) && f.counter == |h| % TAPS
    ensures |h| == 0 ==> out == out0
    ensures |h| > 0 ==> forall a: Axis :: out.Get(a) == Median(Column(f.rows, a))
    ensures |h| >= TAPS ==> forall a: Axis :: out.Get(a) == Median(LastThree(h, a))
  {
    f, out := INITIAL, out0;
    var i := 0;
    while i < |h|
      invariant 0 <= i <= |h|
      invariant Valid(f) && f.rows == Rows(h[..i]) && f.counter == i % TAPS
      invariant i == 0 ==> out == out0
      invariant i > 0 ==> forall a: Axis :: out.Get(a) == Median(Column(f.rows, a))
    {
      RowsStep(h[..i], h[i]);
      assert h[..i + 1] == h[..i] + [h[i]];
      f, out := SetGyroscope(f, h[i], out);
      i := i + 1;
    }
    assert h[..|h|] == h;
    if |h| >= TAPS {
      OutputOfFullRing(h, f.rows, out);
    }
  }

  lemma OutputOfFullRing(h: seq<Vec3>, rows: seq<Vec3>, out: Vec3)
    requires |h| >= TAPS && rows == Rows(h)
    requires forall a: Axis :: out.Get(a) == Median(Column(rows, a))
    ensures forall a: Axis :: out.Get(a) == Median(LastThree(h, a))
  {
    forall a: Axis
      ensures out.Get(a) == Median(LastThree(h, a))
    {
      FullRingMedian(h, a);
    }
  }
}
