/**
  A binary min-heap over entries ordered by a pair of keys, as the standard library's `heapq` keeps
  one in a list. Used by the durable-tail merge and by bounded replay.
*/
module MinHeap {
  datatype Entry<T> = Entry(major: int, minor: int, item: T)

  predicate Less<T>(a: Entry<T>, b: Entry<T>) {
    a.major < b.major || (a.major == b.major && a.minor < b.minor)
  }

  function Parent(i: nat): nat
    requires i > 0
  {
    (i - 1) / 2
  }

  /** No entry is less than its parent. */
  ghost predicate IsHeap<T>(h: seq<Entry<T>>) {
    forall i :: 0 < i < |h| ==> !Less(h[i], h[Parent(i)])
  }

  /** The root is a least entry. */
  lemma {:induction false} RootIsLeast<T>(h: seq<Entry<T>>, i: nat)
    requires IsHeap(h) && i < |h|
    ensures !Less(h[i], h[0])
  {
    if i > 0 {
      RootIsLeast(h, Parent(i));
    }
  }

  lemma LeastOfAll<T>(h: seq<Entry<T>>)
    requires IsHeap(h) && |h| > 0
    ensures forall e :: e in multiset(h) ==> !Less(e, h[0])
  {
    forall e | e in multiset(h)
      ensures !Less(e, h[0])
    {
      var i :| 0 <= i < |h| && h[i] == e;
      RootIsLeast(h, i);
    }
  }

  function Swap<T>(h: seq<T>, i: nat, j: nat): (g: seq<T>)
    requires i < |h| && j < |h|
    ensures |g| == |h| && g[i] == h[j] && g[j] == h[i]
    ensures forall k :: 0 <= k < |h| && k != i && k != j ==> g[k] == h[k]
  {
    h[i := h[j]][j := h[i]]
  }

  lemma SwapKeeps<T>(h: seq<T>, i: nat, j: nat)
    requires i < |h| && j < |h|
    ensures multiset(Swap(h, i, j)) == multiset(h)
  {
  }

  /** A heap but for entry `i`, which may be too small for its parent; its children would fit below
      the parent. */
  ghost predicate HeapButUp<T>(h: seq<Entry<T>>, i: nat) {
    && i < |h|
    && (forall k :: 0 < k < |h| && k != i ==> !Less(h[k], h[Parent(k)]))
    && (i > 0 ==> forall k :: 0 < k < |h| && Parent(k) == i ==> !Less(h[k], h[Parent(i)]))
  }

  /** A heap but for the children of `i`, which may be smaller than it; they fit below its parent. */
  ghost predicate HeapButDown<T>(h: seq<Entry<T>>, i: nat) {
    && i < |h|
    && (forall k :: 0 < k < |h| && Parent(k) != i ==> !Less(h[k], h[Parent(k)]))
    && (i > 0 ==> forall k :: 0 < k < |h| && Parent(k) == i ==> !Less(h[k], h[Parent(i)]))
  }

  method MoveUp<T>(h: seq<Entry<T>>, start: nat) returns (g: seq<Entry<T>>)
    requires HeapButUp(h, start)
    ensures IsHeap(g) && multiset(g) == multiset(h) && |g| == |h|
  {
    g := h;
    var i := start;
    while i > 0 && Less(g[i], g[Parent(i)])
      invariant |g| == |h| && multiset(g) == multiset(h) && HeapButUp(g, i)
      decreases i
    {
      SwapKeeps(g, i, Parent(i));
      SwappedUp(g, i);
      g, i := Swap(g, i, Parent(i)), Parent(i);
    }
  }

  lemma SwappedUp<T>(g: seq<Entry<T>>, i: nat)
    requires HeapButUp(g, i) && i > 0 && Less(g[i], g[Parent(i)])
    ensures HeapButUp(Swap(g, i, Parent(i)), Parent(i))
  {
  }

  predicate SmallestChild<T>(g: seq<Entry<T>>, i: nat, child: nat) {
    && i < |g| && child < |g| && (child == 2 * i + 1 || child == 2 * i + 2)
    && (2 * i + 1 < |g| ==> !Less(g[2 * i + 1], g[child]))
    && (2 * i + 2 < |g| ==> !Less(g[2 * i + 2], g[child]))
  }

  lemma ChildrenOf(k: nat, i: nat)
    requires k > 0
    ensures Parent(k) == i <==> k == 2 * i + 1 || k == 2 * i + 2
  {
  }

  lemma DownEnds<T>(g: seq<Entry<T>>, i: nat, child: nat)
    requires HeapButDown(g, i) && SmallestChild(g, i, child) && !Less(g[child], g[i])
    ensures IsHeap(g)
  {
    forall k | 0 < k < |g|
      ensures !Less(g[k], g[Parent(k)])
    {
      ChildrenOf(k, i);
    }
  }

  lemma NoChildren<T>(g: seq<Entry<T>>, i: nat)
    requires HeapButDown(g, i) && 2 * i + 1 >= |g|
    ensures IsHeap(g)
  {
    forall k | 0 < k < |g|
      ensures !Less(g[k], g[Parent(k)])
    {
      ChildrenOf(k, i);
    }
  }

  lemma SwappedDown<T>(g: seq<Entry<T>>, i: nat, child: nat)
    requires HeapButDown(g, i) && SmallestChild(g, i, child) && Less(g[child], g[i])
    ensures HeapButDown(Swap(g, i, child), child)
  {
    var f := Swap(g, i, child);
    ChildrenOf(child, i);
    forall k | 0 < k < |g| && Parent(k) != child
      ensures !Less(f[k], f[Parent(k)])
    {
      ChildrenOf(k, i);
    }
    forall k | 0 < k < |g| && Parent(k) == child
      ensures !Less(f[k], f[Parent(child)])
    {
      assert !Less(g[k], g[Parent(k)]);
    }
  }

  function SmallerChild<T>(g: seq<Entry<T>>, i: nat): (child: nat)
    requires 2 * i + 1 < |g|
    ensures i < child && SmallestChild(g, i, child)
  {
    if 2 * i + 2 < |g| && Less(g[2 * i + 2], g[2 * i + 1]) then 2 * i + 2 else 2 * i + 1
  }

  method MoveDown<T>(h: seq<Entry<T>>) returns (g: seq<Entry<T>>)
    requires HeapButDown(h, 0)
    ensures IsHeap(g) && multiset(g) == multiset(h) && |g| == |h|
  {
    g := h;
    var i := 0;
    assert i < |g|;
    hide HeapButDown, IsHeap, SmallestChild, SmallerChild, Swap, Less;
    while 2 * i + 1 < |g|
      invariant i < |g| == |h| && multiset(g) == multiset(h) && HeapButDown(g, i)
      decreases |g| - i
    {
      var child := SmallerChild(g, i);
      InRange(g, i, child);
      if !Less(g[child], g[i]) {
        DownEnds(g, i, child);
        return;
      }
      SwapKeeps(g, i, child);
      SwappedDown(g, i, child);
      g, i := Swap(g, i, child), child;
    }
    NoChildren(g, i);
  }

  lemma InRange<T>(g: seq<Entry<T>>, i: nat, child: nat)
    requires SmallestChild(g, i, child)
    ensures child < |g|
  {
  }

  /** `heappush`. */
  method Push<T>(h: seq<Entry<T>>, e: Entry<T>) returns (g: seq<Entry<T>>)
    requires IsHeap(h)
    ensures IsHeap(g) && multiset(g) == multiset(h) + multiset{e} && |g| == |h| + 1
  {
    PushFits(h, e);
    g := MoveUp(h + [e], |h|);
  }

  lemma PushFits<T>(h: seq<Entry<T>>, e: Entry<T>)
    requires IsHeap(h)
    ensures HeapButUp(h + [e], |h|)
  {
    var g := h + [e];
    forall k | 0 < k < |g| && k != |h|
      ensures !Less(g[k], g[Parent(k)])
    {
      assert g[k] == h[k] && g[Parent(k)] == h[Parent(k)];
    }
  }

  lemma RootReplaced<T>(h: seq<Entry<T>>, e: Entry<T>)
    requires IsHeap(h) && |h| > 0
    ensures HeapButDown(h[0 := e], 0)
    ensures multiset(h[0 := e]) == multiset(h) - multiset{h[0]} + multiset{e}
  {
    var g := h[0 := e];
    forall k | 0 < k < |g| && Parent(k) != 0
      ensures !Less(g[k], g[Parent(k)])
    {
      assert g[k] == h[k] && g[Parent(k)] == h[Parent(k)];
    }
  }

  lemma LastRemoved<T>(h: seq<Entry<T>>)
    requires IsHeap(h) && |h| > 0
    ensures IsHeap(h[..|h| - 1])
    ensures multiset(h[..|h| - 1]) == multiset(h) - multiset{h[|h| - 1]}
  {
    var n := |h| - 1;
    assert h == h[..n] + [h[n]];
    forall k | 0 < k < n
      ensures !Less(h[..n][k], h[..n][Parent(k)])
    {
      assert !Less(h[k], h[Parent(k)]);
    }
  }

  /** `heappop`. */
  method Pop<T>(h: seq<Entry<T>>) returns (least: Entry<T>, g: seq<Entry<T>>)
    requires IsHeap(h) && |h| > 0
    ensures IsHeap(g) && least in multiset(h) && multiset(g) == multiset(h) - multiset{least}
    ensures forall e :: e in multiset(h) ==> !Less(e, least)
    ensures |g| == |h| - 1
  {
    LeastOfAll(h);
    LastRemoved(h);
    least := h[0];
    var last, rest := h[|h| - 1], h[..|h| - 1];
    if |rest| == 0 {
      g := rest;
    } else {
      RootReplaced(rest, last);
      g := MoveDown(rest[0 := last]);
      assert rest[0] == least && multiset(h) == multiset(rest) + multiset{last};
    }
  }

  /** `heapreplace`: the least entry comes out, `e` goes in. */
  method Replace<T>(h: seq<Entry<T>>, e: Entry<T>) returns (least: Entry<T>, g: seq<Entry<T>>)
    requires IsHeap(h) && |h| > 0
    ensures IsHeap(g) && |g| == |h| && least == h[0] && least in multiset(h)
    ensures multiset(g) == multiset(h) - multiset{least} + multiset{e}
  {
    RootReplaced(h, e);
    least := h[0];
    g := MoveDown(h[0 := e]);
  }
}
