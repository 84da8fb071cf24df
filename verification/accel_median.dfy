/** The median filter of ICM20948::_SetAcceleration: a window of 23 samples
    kept in the sorted linked list, each node tagged with the ring slot it
    arrived in. When the window is full the node tagged with the current slot
    (the oldest sample) is evicted before the new sample is inserted, and the
    middle node of the sorted list is the filter's output. */
module AccelMedian {
  import opened BoundedInts
  import opened Order
  import opened SortedList

  const WINDOW_SIZE: uint8 := 23

  /** `(windowSize - 1) / 2`: the sorted position read as the median. */
  const MIDDLE: uint16 := (WINDOW_SIZE - 1) / 2

  /** The two function-local statics: the sorted buffer and the slot counter. */
  datatype Filter = Filter(buffer: List, counter: uint8)

  /** Both statics as the program starts: an empty list and slot 0. */
  const INITIAL: Filter := Filter(EMPTY, 0)

  /** One call of `_SetAcceleration` on the x-axis sample; `out` is `_acc[0]`
      before the call and the second component is `_acc[0]` after it: left
      as it was unless the buffer then holds 23 elements, and then the value
      at sorted position 11, which on a sorted buffer has eleven values at
      least as large before it and eleven at most as large after it. */
  function Push(f: Filter, sample: real, out: real): (r: (Filter, real))
    requires Size(f.buffer) == WINDOW_SIZE ==> |f.buffer.nodes| >= 2
    ensures r.0 == Step(f, sample)
    ensures Size(r.0.buffer) != WINDOW_SIZE ==> r.1 == out
    ensures Counted(r.0.buffer) && Size(r.0.buffer) == WINDOW_SIZE ==>
              && r.1 == r.0.buffer.nodes[MIDDLE].data
              && (Descending(r.0.buffer.nodes) ==>
                    && (forall i :: 0 <= i < MIDDLE ==> r.0.buffer.nodes[i].data >= r.1)
                    && (forall i :: MIDDLE < i < WINDOW_SIZE ==> r.0.buffer.nodes[i].data <= r.1))
  {
    var next := Step(f, sample);
    var out' := if Size(next.buffer) == WINDOW_SIZE then At(next.buffer, MIDDLE) else out;
    (next, out')
  }

  /** The statics after one call: the sample is stored, tagged with the
      current slot, and the slot counter moves on. */
  function Step(f: Filter, sample: real): (r: Filter)
    requires Size(f.buffer) == WINDOW_SIZE ==> |f.buffer.nodes| >= 2
    ensures f.counter < WINDOW_SIZE ==> r.counter == (f.counter + 1) % WINDOW_SIZE
    ensures r.counter < WINDOW_SIZE
    ensures multiset(r.buffer.nodes) == multiset(Evict(f).nodes) + multiset{Node(sample, f.counter)}
    ensures Size(f.buffer) != WINDOW_SIZE ==>
              multiset(r.buffer.nodes) == multiset(f.buffer.nodes) + multiset{Node(sample, f.counter)}
    ensures Size(r.buffer) == Inc32(Size(Evict(f)))
    ensures Descending(f.buffer.nodes) ==> Descending(r.buffer.nodes)
  {
    Filter(AddS(Evict(f), sample, f.counter), (f.counter + 1) % WINDOW_SIZE)
  }

  /** The first step of `_SetAcceleration`: a full buffer gives up the first
      node tagged with the current slot (or its tail if no node is); any
      other buffer is kept. */
  function Evict(f: Filter): (r: List)
    requires Size(f.buffer) == WINDOW_SIZE ==> |f.buffer.nodes| >= 2
    ensures Size(f.buffer) != WINDOW_SIZE ==> r == f.buffer
    ensures Size(f.buffer) == WINDOW_SIZE ==>
              && |r.nodes| == |f.buffer.nodes| - 1
              && Size(r) == WINDOW_SIZE - 1
    ensures Size(f.buffer) == WINDOW_SIZE ==>
              forall i :: (0 <= i < |f.buffer.nodes| && f.buffer.nodes[i].index == f.counter
                           && (forall j :: 0 <= j < i ==> f.buffer.nodes[j].index != f.counter))
                           ==> r.nodes == f.buffer.nodes[..i] + f.buffer.nodes[i + 1..]
    ensures Size(f.buffer) == WINDOW_SIZE ==>
              (forall i :: 0 <= i < |f.buffer.nodes| ==> f.buffer.nodes[i].index != f.counter)
              ==> r.nodes == f.buffer.nodes[..|f.buffer.nodes| - 1]
    ensures Counted(f.buffer) ==> Counted(r)
    ensures Descending(f.buffer.nodes) ==> Descending(r.nodes)
  {
    if Size(f.buffer) == WINDOW_SIZE then DeleteWhereIndex(f.buffer, f.counter)
    else f.buffer
  }

  /** How many of `n` samples the window holds. */
  function Span(n: nat): nat {
    if n < WINDOW_SIZE then n else WINDOW_SIZE
  }

  /** The last `Span(|h|)` samples of the history `h`, oldest first. */
  function LastWindow(h: seq<real>): seq<real> {
    h[|h| - Span(|h|)..]
  }

  lemma FullWindow(h: seq<real>)
    ensures |h| >= WINDOW_SIZE ==> LastWindow(h) == h[|h| - WINDOW_SIZE..]
  {
  }

  /** The nodes the buffer should hold after the history `h`: each of the
      last samples tagged with the slot it arrived in. */
  ghost function TaggedWindow(h: seq<real>): seq<Node> {
    var lo := |h| - Span(|h|);
    seq(Span(|h|), j requires 0 <= j < Span(|h|) => Node(h[lo + j], (lo + j) % WINDOW_SIZE))
  }

  /** The filter state after the history `h`: the counter is the number of
      samples modulo 23, the size counter is in step, the list is sorted, and
      it holds exactly the tagged last samples. */
  ghost predicate Tracks(f: Filter, h: seq<real>) {
    && f.counter == |h| % WINDOW_SIZE
    && Counted(f.buffer)
    && Descending(f.buffer.nodes)
    && multiset(f.buffer.nodes) == multiset(TaggedWindow(h))
  }

  lemma TrackedSize(f: Filter, h: seq<real>)
    requires Tracks(f, h)
    ensures |f.buffer.nodes| == Span(|h|) == Size(f.buffer)
    ensures Size(f.buffer) <= WINDOW_SIZE
    ensures Data(TaggedWindow(h)) == LastWindow(h)
  {
    assert |f.buffer.nodes| == |multiset(f.buffer.nodes)| == |multiset(TaggedWindow(h))|;
  }

  /** The slot counter advances with the number of arrivals. */
  lemma SlotAdvances(n: nat)
    ensures (n % WINDOW_SIZE + 1) % WINDOW_SIZE == (n + 1) % WINDOW_SIZE
  {
    var q, r := n / WINDOW_SIZE, n % WINDOW_SIZE;
    assert n + 1 == q * WINDOW_SIZE + (r + 1);
    if r + 1 < WINDOW_SIZE {
      assert (n + 1) % WINDOW_SIZE == r + 1;
    } else {
      assert n + 1 == (q + 1) * WINDOW_SIZE;
    }
  }

  /** While the window is filling, a push appends the new tagged sample. */
  lemma WindowGrows(h: seq<real>, v: real)
    requires |h| < WINDOW_SIZE
    ensures TaggedWindow(h + [v]) == TaggedWindow(h) + [Node(v, |h| % WINDOW_SIZE)]
  {
  }

  /** Once the window is full, a push drops the oldest tagged sample, whose
      slot is the current counter, and appends the new one. */
  lemma WindowSlides(h: seq<real>, v: real)
    requires |h| >= WINDOW_SIZE
    ensures |TaggedWindow(h)| == WINDOW_SIZE as int
    ensures TaggedWindow(h)[0] == Node(h[|h| - WINDOW_SIZE], |h| % WINDOW_SIZE)
    ensures TaggedWindow(h + [v]) == TaggedWindow(h)[1..] + [Node(v, |h| % WINDOW_SIZE)]
    ensures forall j :: 0 < j < |TaggedWindow(h)| ==> TaggedWindow(h)[j].index != |h| % WINDOW_SIZE
  {
    var lo := |h| - WINDOW_SIZE as int;
    assert (lo + WINDOW_SIZE) % WINDOW_SIZE == lo % WINDOW_SIZE;
    forall j | 0 < j < |TaggedWindow(h)|
      ensures TaggedWindow(h)[j].index != |h| % WINDOW_SIZE
    {
      assert TaggedWindow(h)[j].index == (lo + j) % WINDOW_SIZE;
    }
  }

  /** In a full window the node the eviction picks is the oldest sample. */
  lemma EvictedIsOldest(f: Filter, h: seq<real>)
    requires Tracks(f, h) && |h| >= WINDOW_SIZE
    ensures |f.buffer.nodes| >= 2
    ensures var p := DeletePos(f.buffer.nodes, f.counter);
      && f.buffer.nodes[p] == TaggedWindow(h)[0]
      && f.buffer.nodes[p].index == f.counter
      && forall i :: 0 <= i < p ==> f.buffer.nodes[i].index != f.counter
  {
    TrackedSize(f, h);
    var nodes := f.buffer.nodes;
    var k := f.counter;
    WindowSlides(h, 0.0);
    var p := DeletePos(nodes, k);
    var oldest := TaggedWindow(h)[0];
    assert oldest in multiset(nodes) by { assert oldest in multiset(TaggedWindow(h)); }
    var i :| 0 <= i < |nodes| && nodes[i] == oldest;
    assert nodes[p].index == k;
    assert nodes[p] in multiset(TaggedWindow(h)) by { assert nodes[p] in multiset(nodes); }
    var j :| 0 <= j < |TaggedWindow(h)| && TaggedWindow(h)[j] == nodes[p];
    assert j == 0;
  }

  /** One push keeps the buffer in step with the history. */
  lemma PushTracks(f: Filter, h: seq<real>, v: real)
    requires Tracks(f, h)
    ensures Size(f.buffer) == WINDOW_SIZE ==> |f.buffer.nodes| >= 2
    ensures Tracks(Step(f, v), h + [v])
  {
    EvictTracks(f, h, v);
    var next := Step(f, v);
    assert next.counter as int == |h + [v]| % 23 by {
      var n := |h|;
      assert next.counter as int == (f.counter as int + 1) % 23;
      SlotAdvances(n);
    }
    InsertTracks(Evict(f), v, f.counter, next.counter, h + [v]);
  }

  /** Inserting the new tagged sample into the list left after the eviction
      gives a buffer that tracks the longer history. */
  lemma InsertTracks(kept: List, v: real, k: uint8, c: uint8, h: seq<real>)
    requires Counted(kept) && Descending(kept.nodes) && kept.siz < WINDOW_SIZE
    requires multiset(kept.nodes) + multiset{Node(v, k)} == multiset(TaggedWindow(h))
    requires c as int == |h| % WINDOW_SIZE as int
    ensures Tracks(Filter(AddS(kept, v, k), c), h)
  {
  }

  /** The list left after the eviction is still counted and sorted, below
      capacity, and holds the window of the longer history but for the new
      sample. */
  lemma EvictTracks(f: Filter, h: seq<real>, v: real)
    requires Tracks(f, h)
    ensures Size(f.buffer) == WINDOW_SIZE ==> |f.buffer.nodes| >= 2
    ensures Counted(Evict(f)) && Descending(Evict(f).nodes) && Evict(f).siz < WINDOW_SIZE
    ensures multiset(Evict(f).nodes) + multiset{Node(v, f.counter)}
            == multiset(TaggedWindow(h + [v]))
  {
    TrackedSize(f, h);
    if |h| < WINDOW_SIZE {
      WindowGrows(h, v);
    } else {
      PushEvictsOldest(f, h);
      WindowSlides(h, v);
    }
  }

  /** Once the window is full, the node evicted is the oldest sample,
      whatever its value. */
  lemma PushEvictsOldest(f: Filter, h: seq<real>)
    requires Tracks(f, h) && |h| >= WINDOW_SIZE
    ensures |f.buffer.nodes| >= 2
    ensures multiset(Evict(f).nodes)
            == multiset(f.buffer.nodes) - multiset{Node(h[|h| - WINDOW_SIZE], f.counter)}
    ensures multiset(Evict(f).nodes) == multiset(TaggedWindow(h)[1..])
  {
    TrackedSize(f, h);
    EvictedIsOldest(f, h);
    WindowSlides(h, 0.0);
    var nodes := f.buffer.nodes;
    var p := DeletePos(nodes, f.counter);
    var oldest := Node(h[|h| - WINDOW_SIZE], f.counter);
    var rest := multiset(Evict(f).nodes);
    assert rest == multiset(nodes) - multiset{oldest} by {
      assert Evict(f).nodes == nodes[..p] + nodes[p + 1..];
      RemoveOne(nodes, p);
    }
    var t := TaggedWindow(h);
    assert multiset(nodes) == multiset(t[1..]) + multiset{oldest} by {
      assert t == [t[0]] + t[1..];
    }
    assert rest == multiset(t[1..]);
  }

  /** A full, tracked buffer has the median of the last 23 samples in its
      middle node. */
  lemma TrackedMedian(f: Filter, h: seq<real>)
    requires Tracks(f, h) && |h| >= WINDOW_SIZE
    ensures |f.buffer.nodes| == WINDOW_SIZE as int
    ensures f.buffer.nodes[MIDDLE].data == Median(LastWindow(h))
  {
    TrackedSize(f, h);
    var d := Data(f.buffer.nodes);
    DataMultiset(f.buffer.nodes, TaggedWindow(h));
    MedianFromSorted(LastWindow(h), d);
  }

  /** What one push writes to `_acc[0]`, in terms of the history. */
  lemma PushOutput(f: Filter, h: seq<real>, v: real, out: real)
    requires Tracks(f, h)
    ensures Size(f.buffer) == WINDOW_SIZE ==> |f.buffer.nodes| >= 2
    ensures |h| + 1 < WINDOW_SIZE ==> Push(f, v, out).1 == out
    ensures |h| + 1 >= WINDOW_SIZE ==> Push(f, v, out).1 == Median(LastWindow(h + [v]))
  {
    PushTracks(f, h, v);
    var r := Push(f, v, out);
    var h' := h + [v];
    TrackedSize(r.0, h');
    if |h'| >= WINDOW_SIZE {
      TrackedMedian(r.0, h');
      assert Size(r.0.buffer) == WINDOW_SIZE;
      assert Min(MIDDLE, |r.0.buffer.nodes| - 1) == MIDDLE as int;
      assert r.1 == r.0.buffer.nodes[MIDDLE].data;
    } else {
      assert Size(r.0.buffer) != WINDOW_SIZE;
    }
  }

  /** The filter and `_acc[0]` after feeding the samples `h`, in order, to a
      filter in its initial state while `_acc[0]` was `out0`: nothing is output
      until 23 samples have arrived, and from then on the output is the
      median of exactly the last 23 samples. */
  function Run(h: seq<real>, out0: real): (r: (Filter, real))
    ensures Tracks(r.0, h)
    ensures |h| < WINDOW_SIZE ==> r.1 == out0
    ensures |h| >= WINDOW_SIZE ==> r.1 == Median(h[|h| - WINDOW_SIZE..])
    decreases |h|
  {
    if |h| == 0 then (INITIAL, out0)
    else
      var past := h[..|h| - 1];
      var v := h[|h| - 1];
      assert h == past + [v];
      var prev := Run(past, out0);
      PushTracks(prev.0, past, v);
      PushOutput(prev.0, past, v, prev.1);
      FullWindow(h);
      Push(prev.0, v, prev.1)
  }
}
