/** The doubly linked list of libs/linkedlist.hpp as an immutable sequence of
    (value, slot-tag) nodes, head first. The node counter `siz` is a separate
    32-bit field, exactly as in the class: `addS` and the removals keep it in
    step with the nodes, `addQ` does not. */
module SortedList {
  import opened BoundedInts
  import opened Order

  datatype Node = Node(data: real, index: uint8)

  datatype List = List(nodes: seq<Node>, siz: uint32)

  /** The constructor `LinkedList()`: no nodes, size zero. */
  const EMPTY: List := List([], 0)

  /** The values of the nodes, head first. */
  function Data(nodes: seq<Node>): (r: seq<real>)
    ensures |r| == |nodes|
    ensures forall i :: 0 <= i < |nodes| ==> r[i] == nodes[i].data
  {
    seq(|nodes|, i requires 0 <= i < |nodes| => nodes[i].data)
  }

  /** Removing the node at `i` removes its value from the values held. */
  lemma DataRemove(b: seq<Node>, i: nat)
    requires i < |b|
    ensures multiset(Data(b)) == multiset(Data(b[..i] + b[i + 1..])) + multiset{b[i].data}
  {
    var d := Data(b);
    assert Data(b[..i] + b[i + 1..]) == d[..i] + d[i + 1..];
    RemoveOne(d, i);
  }

  /** Two lists holding the same nodes hold the same values. */
  lemma {:induction false} DataMultiset(a: seq<Node>, b: seq<Node>)
    requires multiset(a) == multiset(b)
    ensures multiset(Data(a)) == multiset(Data(b))
    decreases |a|
  {
    assert |a| == |multiset(a)| == |multiset(b)| == |b|;
    if |a| > 0 {
      assert a[0] in multiset(b) by { assert a[0] in multiset(a); }
      var i :| 0 <= i < |b| && b[i] == a[0];
      assert multiset(a[1..]) == multiset(b[..i] + b[i + 1..]) by {
        RemoveOne(b, i);
        RemoveOne(a, 0);
        assert a[..0] + a[1..] == a[1..];
      }
      DataMultiset(a[1..], b[..i] + b[i + 1..]);
      DataMultisetStep(a, b, i);
    }
  }

  lemma DataMultisetStep(a: seq<Node>, b: seq<Node>, i: nat)
    requires |a| > 0 && i < |b| && b[i] == a[0]
    requires multiset(Data(a[1..])) == multiset(Data(b[..i] + b[i + 1..]))
    ensures multiset(Data(a)) == multiset(Data(b))
  {
    var x := a[0].data;
    var ra := multiset(Data(a[1..]));
    var rb := multiset(Data(b[..i] + b[i + 1..]));
    assert multiset(Data(a)) == ra + multiset{x} by {
      assert Data(a) == [x] + Data(a[1..]);
    }
    assert multiset(Data(b)) == rb + multiset{x} by {
      DataRemove(b, i);
    }
  }

  /** Values never increase from head to tail. */
  ghost predicate Descending(nodes: seq<Node>) {
    forall i, j :: 0 <= i < j < |nodes| ==> nodes[i].data >= nodes[j].data
  }

  /** The size counter agrees with the number of nodes. */
  predicate Counted(l: List) {
    l.siz == |l.nodes|
  }

  function Min(a: int, b: int): int {
    if a <= b then a else b
  }

  /** `sortLogic(a, b)`: `a` may be placed in front of `b`. Despite the
      "Sort asc" comment in the class this is `>=`, so lists built by `addS`
      run from the largest value to the smallest. */
  predicate SortLogic(a: Node, b: Node) {
    a.data >= b.data
  }

  /** Where the traversal of `addS` stops: the first node that `n` may precede. */
  function InsertPos(nodes: seq<Node>, n: Node): (p: nat)
    ensures p <= |nodes|
    ensures forall i :: 0 <= i < p ==> !SortLogic(n, nodes[i])
    ensures p < |nodes| ==> SortLogic(n, nodes[p])
  {
    if |nodes| == 0 || SortLogic(n, nodes[0]) then 0
    else 1 + InsertPos(nodes[1..], n)
  }

  /** `addS(arg, ind)`: one new node, in sorted position, and `siz++`. */
  function AddS(l: List, arg: real, ind: uint8): (r: List)
    ensures |r.nodes| == |l.nodes| + 1
    ensures multiset(r.nodes) == multiset(l.nodes) + multiset{Node(arg, ind)}
    ensures r.siz == Inc32(l.siz)
    ensures Counted(l) && l.siz < TWO_TO_THE_32 - 1 ==> Counted(r)
    ensures Descending(l.nodes) ==> Descending(r.nodes)
  {
    var n := Node(arg, ind);
    var p := InsertPos(l.nodes, n);
    InsertKeepsDescending(l.nodes, n, p);
    List(l.nodes[..p] + [n] + l.nodes[p..], Inc32(l.siz))
  }

  lemma InsertKeepsDescending(nodes: seq<Node>, n: Node, p: nat)
    requires p == InsertPos(nodes, n)
    ensures multiset(nodes[..p] + [n] + nodes[p..]) == multiset(nodes) + multiset{n}
    ensures Descending(nodes) ==> Descending(nodes[..p] + [n] + nodes[p..])
  {
    assert nodes == nodes[..p] + nodes[p..];
    if Descending(nodes) {
      InsertedDescending(nodes, n, p);
    }
  }

  lemma InsertedDescending(nodes: seq<Node>, n: Node, p: nat)
    requires p == InsertPos(nodes, n)
    requires Descending(nodes)
    ensures Descending(nodes[..p] + [n] + nodes[p..])
  {
    var r := nodes[..p] + [n] + nodes[p..];
    forall i, j | 0 <= i < j < |r|
      ensures r[i].data >= r[j].data
    {
      if j < p {
        assert r[i] == nodes[i] && r[j] == nodes[j];
      } else if j == p {
        assert r[i] == nodes[i] && r[j] == n;
      } else if i < p {
        assert r[i] == nodes[i] && r[j] == nodes[j - 1];
      } else if i == p {
        assert r[i] == n && r[j] == nodes[j - 1];
        assert nodes[p].data >= nodes[j - 1].data;
      } else {
        assert r[i] == nodes[i - 1] && r[j] == nodes[j - 1];
      }
    }
  }

  /** Where `addS` puts the new node: behind every strictly larger value and
      in front of every value that is not larger, equal values included; the
      other nodes keep their order. */
  lemma AddSPlacement(l: List, arg: real, ind: uint8)
    requires Descending(l.nodes)
    ensures var p := InsertPos(l.nodes, Node(arg, ind));
      && AddS(l, arg, ind).nodes == l.nodes[..p] + [Node(arg, ind)] + l.nodes[p..]
      && (forall i :: 0 <= i < p ==> l.nodes[i].data > arg)
      && (forall i :: p <= i < |l.nodes| ==> l.nodes[i].data <= arg)
  {
    var p := InsertPos(l.nodes, Node(arg, ind));
    forall i | p <= i < |l.nodes|
      ensures l.nodes[i].data <= arg
    {
      assert l.nodes[p].data >= l.nodes[i].data;
    }
  }

  /** Successive `addS` calls, in order. */
  function AddAllS(l: List, xs: seq<Node>): List
    decreases |xs|
  {
    if |xs| == 0 then l
    else AddAllS(AddS(l, xs[0].data, xs[0].index), xs[1..])
  }

  /** However many values are inserted with `addS`, starting from an empty
      list, the list stays non-increasing, holds exactly those nodes, and its
      size counter equals the node count. */
  lemma {:induction false} AddAllSDescending(l: List, xs: seq<Node>)
    requires Descending(l.nodes) && Counted(l)
    requires |l.nodes| + |xs| < TWO_TO_THE_32
    ensures Descending(AddAllS(l, xs).nodes)
    ensures Counted(AddAllS(l, xs))
    ensures multiset(AddAllS(l, xs).nodes) == multiset(l.nodes) + multiset(xs)
    decreases |xs|
  {
    if |xs| > 0 {
      var l' := AddS(l, xs[0].data, xs[0].index);
      assert xs == [xs[0]] + xs[1..];
      AddAllSDescending(l', xs[1..]);
    }
  }

  /** Where the traversal of `DeleteWhereIndex` stops: the first node tagged
      `k`, except that the tail is taken without looking at its tag. */
  function DeletePos(nodes: seq<Node>, k: uint8): (p: nat)
    requires |nodes| > 0
    ensures p < |nodes|
    ensures forall i :: 0 <= i < p ==> nodes[i].index != k
    ensures nodes[p].index == k || p == |nodes| - 1
  {
    if |nodes| == 1 || nodes[0].index == k then 0
    else 1 + DeletePos(nodes[1..], k)
  }

  /** `DeleteWhereIndex(k)`: unlinks the first node tagged `k`, or the tail
      when no node is, and does `siz--`. On a list of fewer than two nodes the
      class dereferences a null pointer, hence the precondition. */
  function DeleteWhereIndex(l: List, k: uint8): (r: List)
    requires |l.nodes| >= 2
    ensures |r.nodes| == |l.nodes| - 1
    ensures r.siz == Dec32(l.siz)
    ensures Counted(l) ==> Counted(r)
    ensures forall i :: (0 <= i < |l.nodes| && l.nodes[i].index == k
                         && (forall j :: 0 <= j < i ==> l.nodes[j].index != k))
                         ==> r.nodes == l.nodes[..i] + l.nodes[i + 1..]
    ensures (forall i :: 0 <= i < |l.nodes| ==> l.nodes[i].index != k)
      ==> r.nodes == l.nodes[..|l.nodes| - 1]
    ensures Descending(l.nodes) ==> Descending(r.nodes)
  {
    var p := DeletePos(l.nodes, k);
    var nodes := l.nodes[..p] + l.nodes[p + 1..];
    assert forall i :: 0 <= i < |nodes| ==> nodes[i] == l.nodes[if i < p then i else i + 1];
    List(nodes, Dec32(l.siz))
  }

  /** Removing one node from a list takes exactly that node out of its contents. */
  lemma RemoveOne<T>(s: seq<T>, i: nat)
    requires i < |s|
    ensures multiset(s[..i] + s[i + 1..]) == multiset(s) - multiset{s[i]}
  {
    assert s == s[..i] + [s[i]] + s[i + 1..];
  }

  /** The traversal of `at(index)`: move on while `i++ < index` and a next
      node exists, then read the current node. */
  function Walk(nodes: seq<Node>, i: nat, index: uint16): (r: real)
    requires |nodes| > 0 && i <= index
    ensures r == nodes[Min(index - i, |nodes| - 1)].data
  {
    if i < index && |nodes| > 1 then Walk(nodes[1..], i + 1, index)
    else nodes[0].data
  }

  /** `at(index)`: the value at position `index`, or the tail's value when the
      list is shorter. The class dereferences a null pointer on an empty list. */
  function At(l: List, index: uint16): (r: real)
    requires |l.nodes| > 0
    ensures r == l.nodes[Min(index, |l.nodes| - 1)].data
  {
    Walk(l.nodes, 0, index)
  }

  /** `empty()`: the head pointer is null. */
  predicate Empty(l: List) {
    |l.nodes| == 0
  }

  /** `Size()`: the counter, whatever the nodes are. */
  function Size(l: List): (n: uint32) {
    l.siz
  }

  /** `popFront()`: -1.0 and no change on an empty list; otherwise the head's
      value, the list without its head, and `siz--`. */
  function PopFront(l: List): (r: (real, List))
    ensures Empty(l) ==> r == (-1.0, l)
    ensures !Empty(l) ==> r.0 == l.nodes[0].data && r.1.nodes == l.nodes[1..]
    ensures !Empty(l) ==> Size(r.1) == Dec32(Size(l))
    ensures Counted(l) ==> Counted(r.1)
  {
    if Empty(l) then (-1.0, l)
    else (l.nodes[0].data, List(l.nodes[1..], Dec32(l.siz)))
  }

  /** `addQ(arg, ind)`: a new tail node; `siz` is left as it was. */
  function AddQ(l: List, arg: real, ind: uint8): (r: List)
    ensures r.nodes == l.nodes + [Node(arg, ind)]
    ensures Size(r) == Size(l)
    ensures Counted(l) ==> !Counted(r)
  {
    List(l.nodes + [Node(arg, ind)], l.siz)
  }

  /** `addQ` with the `siz++` that `addS` has: the queue insertion the class
      comment describes. */
  function AddQCounted(l: List, arg: real, ind: uint8): (r: List)
    ensures r.nodes == l.nodes + [Node(arg, ind)]
    ensures Counted(l) && l.siz < TWO_TO_THE_32 - 1 ==> Counted(r)
  {
    List(l.nodes + [Node(arg, ind)], Inc32(l.siz))
  }

  /** On a list whose counter is in step, `empty()` and `Size() == 0` agree. */
  lemma EmptyIffSizeZero(l: List)
    requires Counted(l)
    ensures Empty(l) <==> Size(l) == 0
  {
  }

  /** On a non-increasing list `popFront` returns the largest value held. */
  lemma PopFrontReturnsLargest(l: List)
    requires Descending(l.nodes) && !Empty(l)
    ensures forall i :: 0 <= i < |l.nodes| ==> PopFront(l).0 >= l.nodes[i].data
  {
  }

  /** Queue order: after `addQ`, `popFront` still returns the old head first and
      the new node stays at the tail of the remaining list. */
  lemma AddQThenPopFront(l: List, arg: real, ind: uint8)
    requires !Empty(l)
    ensures PopFront(AddQ(l, arg, ind)).0 == PopFront(l).0
    ensures PopFront(AddQ(l, arg, ind)).1 == AddQ(PopFront(l).1, arg, ind)
  {
    assert (l.nodes + [Node(arg, ind)])[1..] == l.nodes[1..] + [Node(arg, ind)];
  }

  /** Queueing one value on a new list and popping it back leaves no node but
      a size counter wrapped round to 4294967295. */
  lemma AddQPopFrontWrapsSize(arg: real, ind: uint8)
    ensures PopFront(AddQ(EMPTY, arg, ind)).0 == arg
    ensures Empty(PopFront(AddQ(EMPTY, arg, ind)).1)
    ensures Size(PopFront(AddQ(EMPTY, arg, ind)).1) == 4294967295
  {
  }

  /** With the counted insertion the same round trip restores the empty list. */
  lemma AddQCountedPopFrontRestores(arg: real, ind: uint8)
    ensures PopFront(AddQCounted(EMPTY, arg, ind)) == (arg, EMPTY)
  {
  }
}
