/**
The 4-ary timer heap of ev.c on sequences: what upheap, downheap and adjustheap do to the array, and
why that keeps it a heap of the same elements.  Indices are the array's own: the first element is at
HEAP0.
*/
module HeapSpec {
  const DHEAP: nat := 4
  const HEAP0: nat := 3

  /** A heap element: a watcher and its cached time. */
  datatype Anhe<W> = Anhe(w: W, at: real)

  /** HPARENT with C's truncating division: the root is its own parent. */
  function Parent(k: nat): (p: nat)
    requires HEAP0 <= k
    ensures HEAP0 <= p <= k && (p == k <==> k == HEAP0)
  {
    if k == HEAP0 then HEAP0 else (k - HEAP0 - 1) / DHEAP + HEAP0
  }

  function FirstChild(k: nat): nat
    requires HEAP0 <= k
  {
    DHEAP * (k - HEAP0) + HEAP0 + 1
  }

  lemma ChildrenOf(k: nat, c: nat)
    requires HEAP0 <= k && HEAP0 < c
    ensures Parent(c) == k <==> FirstChild(k) <= c < FirstChild(k) + DHEAP
  {
  }

  predicate InHeap(n: nat, k: nat) { HEAP0 <= k < n + HEAP0 }

  /** The heap condition of verify_heap. */
  ghost predicate Ordered<W>(h: seq<Anhe<W>>, n: nat) {
    && n + HEAP0 <= |h|
    && forall i :: HEAP0 < i < n + HEAP0 ==> h[Parent(i)].at <= h[i].at
  }

  function Swap<T>(h: seq<T>, i: nat, j: nat): (s: seq<T>)
    requires i < |h| && j < |h|
    ensures |s| == |h|
  {
    h[i := h[j]][j := h[i]]
  }

  // ---------- Specifications of the sift loops ----------

  function Up<W>(h: seq<Anhe<W>>, k: nat): (s: seq<Anhe<W>>)
    requires HEAP0 <= k < |h|
    ensures |s| == |h|
    decreases k
  {
    var p := Parent(k);
    if p == k || h[p].at <= h[k].at then h else Up(Swap(h, k, p), p)
  }

  /** The smallest of the children in the heap, the first one on a tie. */
  function MinChild<W>(h: seq<Anhe<W>>, n: nat, k: nat): (m: nat)
    requires n + HEAP0 <= |h| && HEAP0 <= k && FirstChild(k) < n + HEAP0
    ensures FirstChild(k) <= m < FirstChild(k) + DHEAP && m < n + HEAP0
  {
    var c := FirstChild(k);
    var m1 := if c + 1 < n + HEAP0 && h[c + 1].at < h[c].at then c + 1 else c;
    var m2 := if c + 2 < n + HEAP0 && h[c + 2].at < h[m1].at then c + 2 else m1;
    if c + 3 < n + HEAP0 && h[c + 3].at < h[m2].at then c + 3 else m2
  }

  function Down<W>(h: seq<Anhe<W>>, n: nat, k: nat): (s: seq<Anhe<W>>)
    requires n + HEAP0 <= |h| && InHeap(n, k)
    ensures |s| == |h|
    decreases n + HEAP0 - k
  {
    if FirstChild(k) >= n + HEAP0 then h
    else
      var m := MinChild(h, n, k);
      if h[k].at <= h[m].at then h else Down(Swap(h, k, m), n, m)
  }

  function Adjust<W>(h: seq<Anhe<W>>, n: nat, k: nat): (s: seq<Anhe<W>>)
    requires n + HEAP0 <= |h| && InHeap(n, k)
    ensures |s| == |h|
  {
    if k > HEAP0 && h[k].at <= h[Parent(k)].at then Up(h, k) else Down(h, n, k)
  }

  function Reheap<W>(h: seq<Anhe<W>>, n: nat): (s: seq<Anhe<W>>)
    requires n + HEAP0 <= |h|
    ensures |s| == |h|
  {
    if n == 0 then h else Up(Reheap(h, n - 1), n - 1 + HEAP0)
  }

  // ---------- Same elements ----------

  lemma SwapElements<T>(h: seq<T>, i: nat, j: nat)
    requires i < |h| && j < |h|
    ensures multiset(Swap(h, i, j)) == multiset(h)
  {
  }

  /** a is b with the elements between HEAP0 and n + HEAP0 rearranged. */
  ghost predicate Rearranged<W>(a: seq<Anhe<W>>, b: seq<Anhe<W>>, n: nat) {
    && |a| == |b| && n + HEAP0 <= |a|
    && a[..HEAP0] == b[..HEAP0] && a[n + HEAP0..] == b[n + HEAP0..]
    && multiset(a[HEAP0..n + HEAP0]) == multiset(b[HEAP0..n + HEAP0])
  }

  lemma SwapRearranges<W>(h: seq<Anhe<W>>, n: nat, i: nat, j: nat)
    requires n + HEAP0 <= |h| && InHeap(n, i) && InHeap(n, j)
    ensures Rearranged(Swap(h, i, j), h, n)
  {
    var s := h[HEAP0..n + HEAP0];
    SwapElements(s, i - HEAP0, j - HEAP0);
    assert Swap(h, i, j)[HEAP0..n + HEAP0] == Swap(s, i - HEAP0, j - HEAP0);
  }

  lemma {:induction false} UpRearranges<W>(h: seq<Anhe<W>>, n: nat, k: nat)
    requires n + HEAP0 <= |h| && InHeap(n, k)
    ensures Rearranged(Up(h, k), h, n)
    decreases k
  {
    var p := Parent(k);
    if p != k && h[p].at > h[k].at {
      SwapRearranges(h, n, k, p);
      UpRearranges(Swap(h, k, p), n, p);
    }
  }

  lemma {:induction false} DownRearranges<W>(h: seq<Anhe<W>>, n: nat, k: nat)
    requires n + HEAP0 <= |h| && InHeap(n, k)
    ensures Rearranged(Down(h, n, k), h, n)
    decreases n + HEAP0 - k
  {
    if FirstChild(k) < n + HEAP0 {
      var m := MinChild(h, n, k);
      if h[k].at > h[m].at {
        SwapRearranges(h, n, k, m);
        DownRearranges(Swap(h, k, m), n, m);
      }
    }
  }

  // ---------- Order ----------

  /** Ordered except possibly between k and its children and between k and its parent; the parent of
      k bounds k's children. */
  ghost predicate OrderedAround<W>(h: seq<Anhe<W>>, n: nat, k: nat)
    requires InHeap(n, k)
  {
    && n + HEAP0 <= |h|
    && (forall i :: HEAP0 < i < n + HEAP0 && i != k && Parent(i) != k ==> h[Parent(i)].at <= h[i].at)
    && (forall i :: HEAP0 < i < n + HEAP0 && Parent(i) == k && HEAP0 < k ==> h[Parent(k)].at <= h[i].at)
  }

  lemma {:induction false} UpOrders<W>(h: seq<Anhe<W>>, n: nat, k: nat)
    requires InHeap(n, k) && OrderedAround(h, n, k)
    requires forall i :: HEAP0 < i < n + HEAP0 && Parent(i) == k ==> h[k].at <= h[i].at
    ensures Ordered(Up(h, k), n)
    decreases k
  {
    var p := Parent(k);
    if p != k && h[p].at > h[k].at {
      UpOrders(Swap(h, k, p), n, p);
    }
  }

  lemma MinChildIsLeast<W>(h: seq<Anhe<W>>, n: nat, k: nat, i: nat)
    requires n + HEAP0 <= |h| && HEAP0 <= k && FirstChild(k) < n + HEAP0
    requires HEAP0 < i < n + HEAP0 && Parent(i) == k
    ensures h[MinChild(h, n, k)].at <= h[i].at && Parent(MinChild(h, n, k)) == k
  {
    ChildrenOf(k, i);
    ChildrenOf(k, MinChild(h, n, k));
  }

  lemma SwapDownAround<W>(h: seq<Anhe<W>>, n: nat, k: nat, m: nat)
    requires InHeap(n, k) && InHeap(n, m) && OrderedAround(h, n, k) && m > HEAP0 && Parent(m) == k
    requires HEAP0 < k ==> h[Parent(k)].at <= h[k].at
    requires h[m].at < h[k].at
    requires forall i :: HEAP0 < i < n + HEAP0 && Parent(i) == k ==> h[m].at <= h[i].at
    ensures OrderedAround(Swap(h, k, m), n, m) && Swap(h, k, m)[k].at <= Swap(h, k, m)[m].at
  {
  }

  lemma {:induction false} DownOrders<W>(h: seq<Anhe<W>>, n: nat, k: nat)
    requires InHeap(n, k) && OrderedAround(h, n, k)
    requires HEAP0 < k ==> h[Parent(k)].at <= h[k].at
    ensures Ordered(Down(h, n, k), n)
    decreases n + HEAP0 - k
  {
    if FirstChild(k) >= n + HEAP0 {
      forall i | HEAP0 < i < n + HEAP0
        ensures h[Parent(i)].at <= h[i].at
      {
        ChildrenOf(k, i);
      }
    } else {
      var m := MinChild(h, n, k);
      forall i | HEAP0 < i < n + HEAP0 && Parent(i) == k
        ensures h[m].at <= h[i].at && Parent(m) == k
      {
        MinChildIsLeast(h, n, k, i);
      }
      ChildrenOf(k, m);
      if h[k].at > h[m].at {
        SwapDownAround(h, n, k, m);
        DownOrders(Swap(h, k, m), n, m);
      }
    }
  }

  /** Whatever was put at k, adjustheap restores the heap, with the same elements. */
  lemma AdjustIsHeap<W>(h: seq<Anhe<W>>, n: nat, k: nat)
    requires InHeap(n, k) && OrderedAround(h, n, k)
    ensures Ordered(Adjust(h, n, k), n) && Rearranged(Adjust(h, n, k), h, n)
  {
    if k > HEAP0 && h[k].at <= h[Parent(k)].at {
      UpOrders(h, n, k);
      UpRearranges(h, n, k);
    } else {
      DownOrders(h, n, k);
      DownRearranges(h, n, k);
    }
  }

  /** Replacing one element of a heap leaves it ordered around the replaced one. */
  lemma ReplaceOrderedAround<W>(h: seq<Anhe<W>>, n: nat, k: nat, e: Anhe<W>)
    requires InHeap(n, k) && Ordered(h, n)
    ensures OrderedAround(h[k := e], n, k)
  {
    forall i | HEAP0 < i < n + HEAP0 && Parent(i) == k && HEAP0 < k
      ensures h[Parent(k)].at <= h[i].at
    {
      assert h[Parent(k)].at <= h[k].at;
      assert h[Parent(i)].at <= h[i].at;
    }
  }

  /** A heap grown by one element, sifted up, is a heap. */
  lemma PushIsHeap<W>(h: seq<Anhe<W>>, n: nat)
    requires n + 1 + HEAP0 <= |h| && Ordered(h, n)
    ensures Ordered(Up(h, n + HEAP0), n + 1) && Rearranged(Up(h, n + HEAP0), h, n + 1)
  {
    UpOrders(h, n + 1, n + HEAP0);
    UpRearranges(h, n + 1, n + HEAP0);
  }

  /** reheap makes a heap of any array. */
  lemma {:induction false} ReheapIsHeap<W>(h: seq<Anhe<W>>, n: nat)
    requires n + HEAP0 <= |h|
    ensures Ordered(Reheap(h, n), n) && Rearranged(Reheap(h, n), h, n)
  {
    if n > 0 {
      var g := Reheap(h, n - 1);
      ReheapIsHeap(h, n - 1);
      PushIsHeap(g, n - 1);
      RearrangedMore(g, h, n - 1);
      hide Up, Reheap;
    }
  }

  lemma RearrangedMore<W>(a: seq<Anhe<W>>, b: seq<Anhe<W>>, n: nat)
    requires Rearranged(a, b, n) && n + 1 + HEAP0 <= |a|
    ensures Rearranged(a, b, n + 1)
  {
    assert a[n + HEAP0] == a[n + HEAP0..][0] == b[n + HEAP0..][0];
    assert a[HEAP0..n + 1 + HEAP0] == a[HEAP0..n + HEAP0] + [a[n + HEAP0]];
    assert b[HEAP0..n + 1 + HEAP0] == b[HEAP0..n + HEAP0] + [b[n + HEAP0]];
    assert a[n + 1 + HEAP0..] == a[n + HEAP0..][1..];
    assert b[n + 1 + HEAP0..] == b[n + HEAP0..][1..];
  }

  /** The least time is at the root. */
  lemma {:induction false} RootIsLeast<W>(h: seq<Anhe<W>>, n: nat, i: nat)
    requires Ordered(h, n) && InHeap(n, i)
    ensures h[HEAP0].at <= h[i].at
    decreases i
  {
    if i > HEAP0 { RootIsLeast(h, n, Parent(i)); }
  }
}
