/**
upheap, downheap, adjustheap and reheap of ev.c: in place on the heap's array, keeping each watcher's
`active` equal to its index.
*/
module TimerHeap {
  import opened HeapSpec
  import opened PendingSpec

  type Elem = Anhe<Watcher>

  function Ws(h: seq<Elem>, n: nat): set<Watcher>
    requires n + HEAP0 <= |h|
  {
    set i | HEAP0 <= i < n + HEAP0 :: h[i].w
  }

  function Elems(h: seq<Elem>, n: nat): set<Elem>
    requires n + HEAP0 <= |h|
  {
    set i | HEAP0 <= i < n + HEAP0 :: h[i]
  }

  ghost predicate Distinct(h: seq<Elem>, n: nat)
    requires n + HEAP0 <= |h|
  {
    forall i, j :: HEAP0 <= i < j < n + HEAP0 ==> h[i].w != h[j].w
  }

  /** Every watcher in the heap, except the one at k, knows its index. */
  ghost predicate IndexedExcept(h: seq<Elem>, n: nat, k: nat)
    requires n + HEAP0 <= |h|
    reads Ws(h, n)`active
  {
    forall i :: HEAP0 <= i < n + HEAP0 && i != k ==> h[i].w.active == i
  }

  ghost predicate Indexed(h: seq<Elem>, n: nat)
    requires n + HEAP0 <= |h|
    reads Ws(h, n)`active
  {
    forall i :: HEAP0 <= i < n + HEAP0 ==> h[i].w.active == i
  }

  lemma SwapKeeps(h: seq<Elem>, n: nat, i: nat, j: nat)
    requires n + HEAP0 <= |h| && InHeap(n, i) && InHeap(n, j) && Distinct(h, n)
    ensures Distinct(Swap(h, i, j), n) && Ws(Swap(h, i, j), n) == Ws(h, n)
  {
    var s := Swap(h, i, j);
    forall w | w in Ws(h, n)
      ensures w in Ws(s, n)
    {
      var m :| HEAP0 <= m < n + HEAP0 && h[m].w == w;
      assert s[if m == i then j else if m == j then i else m].w == w;
    }
  }

  lemma RearrangedElems(a: seq<Elem>, b: seq<Elem>, n: nat)
    requires Rearranged(a, b, n)
    ensures Elems(a, n) == Elems(b, n) && Ws(a, n) == Ws(b, n)
  {
    var sa, sb := a[HEAP0..n + HEAP0], b[HEAP0..n + HEAP0];
    ElemsOf(a, n);
    ElemsOf(b, n);
    assert forall e :: e in Elems(a, n) <==> e in multiset(sa);
    assert Ws(a, n) == set e | e in Elems(a, n) :: e.w by { WsOf(a, n); }
    assert Ws(b, n) == set e | e in Elems(b, n) :: e.w by { WsOf(b, n); }
  }

  lemma ElemsOf(h: seq<Elem>, n: nat)
    requires n + HEAP0 <= |h|
    ensures forall e :: e in Elems(h, n) <==> e in h[HEAP0..n + HEAP0]
  {
    forall e | e in Elems(h, n)
      ensures e in h[HEAP0..n + HEAP0]
    {
      var i :| HEAP0 <= i < n + HEAP0 && h[i] == e;
      assert h[HEAP0..n + HEAP0][i - HEAP0] == e;
    }
  }

  lemma WsOf(h: seq<Elem>, n: nat)
    requires n + HEAP0 <= |h|
    ensures Ws(h, n) == set e | e in Elems(h, n) :: e.w
  {
    forall w | w in Ws(h, n)
      ensures w in (set e | e in Elems(h, n) :: e.w)
    {
      var i :| HEAP0 <= i < n + HEAP0 && h[i].w == w;
      assert h[i] in Elems(h, n);
    }
  }

  /** Towards the root. */
  method Upheap(heap: array<Elem>, ghost n: nat, k0: nat)
    requires n + HEAP0 <= heap.Length && InHeap(n, k0)
    requires Distinct(heap[..], n) && IndexedExcept(heap[..], n, k0)
    modifies heap, Ws(heap[..], n)`active
    ensures heap[..] == Up(old(heap[..]), k0)
    ensures Ws(heap[..], n) == old(Ws(heap[..], n)) && Indexed(heap[..], n)
  {
    hide Parent;
    var k := k0;
    var he := heap[k];
    ghost var v := heap[..];
    while true
      invariant InHeap(n, k) && |v| == heap.Length
      invariant v[k] == he && forall i :: 0 <= i < |v| && i != k ==> heap[i] == v[i]
      invariant Distinct(v, n) && Ws(v, n) == old(Ws(heap[..], n)) && IndexedExcept(v, n, k)
      invariant Up(v, k) == Up(old(heap[..]), k0)
      decreases k
    {
      var p := Parent(k);
      if p == k || heap[p].at <= he.at { break; }
      SwapKeeps(v, n, k, p);
      heap[k] := heap[p];
      heap[k].w.active := k;
      v := Swap(v, k, p);
      k := p;
    }
    heap[k] := he;
    he.w.active := k;
    assert heap[..] == v;
  }

  /** The unrolled search for the smallest child, with its fast path. */
  method FindMinChild(heap: array<Elem>, n: nat, k: nat) returns (minpos: nat)
    requires n + HEAP0 <= heap.Length && HEAP0 <= k && FirstChild(k) < n + HEAP0
    ensures minpos == MinChild(heap[..], n, k)
  {
    var pos, e := FirstChild(k), n + HEAP0;
    minpos := pos;
    var minat := heap[minpos].at;
    if pos + DHEAP - 1 < e {
      if heap[pos + 1].at < minat { minpos := pos + 1; minat := heap[minpos].at; }
      if heap[pos + 2].at < minat { minpos := pos + 2; minat := heap[minpos].at; }
      if heap[pos + 3].at < minat { minpos := pos + 3; minat := heap[minpos].at; }
    } else {
      if pos + 1 < e && heap[pos + 1].at < minat { minpos := pos + 1; minat := heap[minpos].at; }
      if pos + 2 < e && heap[pos + 2].at < minat { minpos := pos + 2; minat := heap[minpos].at; }
      // The slow path's last test, pos + 3 < e, never holds there.
    }
  }

  /** Away from the root. */
  method Downheap(heap: array<Elem>, n: nat, k0: nat)
    requires n + HEAP0 <= heap.Length && InHeap(n, k0)
    requires Distinct(heap[..], n) && IndexedExcept(heap[..], n, k0)
    modifies heap, Ws(heap[..], n)`active
    ensures heap[..] == Down(old(heap[..]), n, k0)
    ensures Ws(heap[..], n) == old(Ws(heap[..], n)) && Indexed(heap[..], n)
  {
    hide MinChild, FirstChild;
    var k := k0;
    var he := heap[k];
    ghost var v := heap[..];
    while true
      invariant InHeap(n, k) && |v| == heap.Length
      invariant v[k] == he && forall i :: 0 <= i < |v| && i != k ==> heap[i] == v[i]
      invariant Distinct(v, n) && Ws(v, n) == old(Ws(heap[..], n)) && IndexedExcept(v, n, k)
      invariant Down(v, n, k) == Down(old(heap[..]), n, k0)
      decreases n + HEAP0 - k
    {
      if FirstChild(k) >= n + HEAP0 { break; }
      var m := FindMinChild(heap, n, k);
      MinChildSees(heap[..], v, n, k);
      assert k < m && InHeap(n, m) by { ChildBelow(n, k, m); }
      if he.at <= heap[m].at { break; }
      SwapKeeps(v, n, k, m);
      heap[k] := heap[m];
      heap[k].w.active := k;
      v := Swap(v, k, m);
      k := m;
    }
    heap[k] := he;
    he.w.active := k;
    assert heap[..] == v;
  }

  lemma ChildBelow(n: nat, k: nat, m: nat)
    requires HEAP0 <= k && FirstChild(k) <= m < n + HEAP0
    ensures k < m && InHeap(n, m)
  {
  }

  lemma MinChildSees(a: seq<Elem>, b: seq<Elem>, n: nat, k: nat)
    requires |a| == |b| && n + HEAP0 <= |a| && HEAP0 <= k && FirstChild(k) < n + HEAP0
    requires forall i :: 0 <= i < |a| && i != k ==> a[i] == b[i]
    ensures MinChild(a, n, k) == MinChild(b, n, k)
  {
  }

  /** adjustheap. */
  method Adjustheap(heap: array<Elem>, n: nat, k: nat)
    requires n + HEAP0 <= heap.Length && InHeap(n, k)
    requires Distinct(heap[..], n) && IndexedExcept(heap[..], n, k)
    modifies heap, Ws(heap[..], n)`active
    ensures heap[..] == Adjust(old(heap[..]), n, k)
    ensures Ws(heap[..], n) == old(Ws(heap[..], n)) && Indexed(heap[..], n)
  {
    if k > HEAP0 && heap[k].at <= heap[Parent(k)].at {
      Upheap(heap, n, k);
    } else {
      Downheap(heap, n, k);
    }
  }

  /** reheap: n sifts towards the root. */
  method ReheapAll(heap: array<Elem>, n: nat)
    requires n + HEAP0 <= heap.Length && Indexed(heap[..], n)
    modifies heap, Ws(heap[..], n)`active
    ensures heap[..] == Reheap(old(heap[..]), n)
    ensures Ws(heap[..], n) == old(Ws(heap[..], n)) && Indexed(heap[..], n)
  {
    hide Up;
    var i := 0;
    while i < n
      invariant 0 <= i <= n
      invariant heap[..] == Reheap(old(heap[..]), i)
      invariant Ws(heap[..], n) == old(Ws(heap[..], n)) && Indexed(heap[..], n)
    {
      Upheap(heap, n, i + HEAP0);
      i := i + 1;
    }
  }
}
