/**
ev_timer_start, ev_timer_stop, ev_timer_again, timers_reify and periodics_reify over a timer heap and
the pending queue.
*/
module Timers {
  import opened HeapSpec
  import opened PendingSpec
  import opened PendingQueue
  import opened TimerHeap
  import opened PeriodicRecalc

  const EV_TIMER: bv32 := 0x100
  const EV_PERIODIC: bv32 := 0x200

  /** verify_heap, in terms of the set of elements: heap order, indices, cached times; the heap's
      watchers are the loop's, and one of the loop's timers is active only if it is in the heap. */
  ghost predicate HeapOk(h: seq<Elem>, n: nat, ws: set<Watcher>)
    reads ws`active, ws`at
  {
    && n + HEAP0 <= |h|
    && Ordered(h, n)
    && Ws(h, n) <= ws
    && Indexed(h, n)
    && (forall e :: e in Elems(h, n) ==> e.at == e.w.at)
    && (forall w :: w in ws && w.active > 0 ==> w in Ws(h, n))
  }

  /** The same, element by element, as verify_heap checks it. */
  lemma HeapOkMeans(h: seq<Elem>, n: nat, ws: set<Watcher>)
    requires HeapOk(h, n, ws)
    ensures forall i :: HEAP0 <= i < n + HEAP0 ==>
      h[i].w.active == i && h[i].at == h[i].w.at && h[Parent(i)].at <= h[i].at && h[HEAP0].at <= h[i].at
    ensures forall w :: w in ws && w.active > 0 ==> InHeap(n, w.active) && h[w.active].w == w
    ensures Distinct(h, n)
  {
    forall i | HEAP0 <= i < n + HEAP0
      ensures h[i].at == h[i].w.at && h[HEAP0].at <= h[i].at
    {
      assert h[i] in Elems(h, n);
      RootIsLeast(h, n, i);
    }
  }

  lemma GrownElems(a: seq<Elem>, b: seq<Elem>, n: nat)
    requires n + HEAP0 <= |a| && n + 1 + HEAP0 <= |b| && a[..n + HEAP0] == b[..n + HEAP0]
    ensures Elems(b, n + 1) == Elems(a, n) + {b[n + HEAP0]}
    ensures Ws(b, n + 1) == Ws(a, n) + {b[n + HEAP0].w}
    ensures Elems(b, n) == Elems(a, n) && Ws(b, n) == Ws(a, n)
  {
    assert forall i :: HEAP0 <= i < n + HEAP0 ==> b[i] == b[..n + HEAP0][i] == a[..n + HEAP0][i] == a[i];
  }

  lemma SamePrefixOrdered(a: seq<Elem>, b: seq<Elem>, n: nat)
    requires Ordered(a, n) && n + HEAP0 <= |b| && a[..n + HEAP0] == b[..n + HEAP0]
    ensures Ordered(b, n)
  {
    assert forall i :: HEAP0 <= i < n + HEAP0 ==> b[i] == b[..n + HEAP0][i] == a[..n + HEAP0][i] == a[i];
  }

  lemma InactiveIsOut(h: seq<Elem>, n: nat, ws: set<Watcher>, w: Watcher)
    requires HeapOk(h, n, ws) && w.active == 0
    ensures w !in Ws(h, n) && forall e :: e in Elems(h, n) ==> e.w in Ws(h, n) && e.at == e.w.at
    ensures forall i :: HEAP0 <= i < n + HEAP0 ==> h[i].w != w && h[i].w.active == i
    ensures Ordered(h, n) && Ws(h, n) <= ws && forall e :: e in Elems(h, n) ==> e.w in ws
    ensures forall v :: v in ws && v.active > 0 ==> v in Ws(h, n)
  {
    WsOf(h, n);
  }

  /** A new element behind the heap, with its index set, may be sifted up. */
  lemma PushReady(h0: seq<Elem>, h1: seq<Elem>, n: nat)
    requires n + HEAP0 <= |h0| && n + 1 + HEAP0 <= |h1| && h1[..n + HEAP0] == h0[..n + HEAP0]
    requires Indexed(h0, n) && h1[n + HEAP0].w.active == n + HEAP0
    ensures Distinct(h1, n + 1) && IndexedExcept(h1, n + 1, n + HEAP0)
  {
    assert forall i :: HEAP0 <= i < n + HEAP0 ==> h1[i] == h1[..n + HEAP0][i] == h0[..n + HEAP0][i] == h0[i];
  }

  /** Sifted up, it is a heap of one element more. */
  lemma Pushed(h0: seq<Elem>, h1: seq<Elem>, h2: seq<Elem>, n: nat, ws: set<Watcher>)
    requires n + HEAP0 <= |h0| && n + 1 + HEAP0 <= |h1| && h1[..n + HEAP0] == h0[..n + HEAP0]
    requires Ordered(h0, n) && h2 == Up(h1, n + HEAP0) && Ws(h0, n) <= ws && h1[n + HEAP0].w in ws
    requires Indexed(h2, n + 1) && h1[n + HEAP0].at == h1[n + HEAP0].w.at
    requires forall e :: e in Elems(h0, n) ==> e.at == e.w.at
    requires forall v :: v in ws && v.active > 0 ==> v in Ws(h0, n) || v == h1[n + HEAP0].w
    ensures HeapOk(h2, n + 1, ws) && Elems(h2, n + 1) == Elems(h0, n) + {h1[n + HEAP0]}
  {
    hide Up, Ordered;
    GrownElems(h0, h1, n);
    SamePrefixOrdered(h0, h1, n);
    PushIsHeap(h1, n);
    RearrangedElems(h2, h1, n + 1);
  }

  // ---------- Replacing and removing an element ----------

  lemma ReplacedElems(h: seq<Elem>, n: nat, k: nat, e: Elem)
    requires n + HEAP0 <= |h| && InHeap(n, k) && Distinct(h, n) && e.w == h[k].w
    ensures Elems(h[k := e], n) == Elems(h, n) - {h[k]} + {e}
    ensures Ws(h[k := e], n) == Ws(h, n) && Distinct(h[k := e], n)
  {
    var g := h[k := e];
    forall x | x in Elems(h, n) - {h[k]} + {e}
      ensures x in Elems(g, n)
    {
      if x == e {
        assert g[k] == e;
      } else {
        var i :| HEAP0 <= i < n + HEAP0 && h[i] == x;
        assert g[i] == x;
      }
    }
    forall w | w in Ws(h, n)
      ensures w in Ws(g, n)
    {
      var i :| HEAP0 <= i < n + HEAP0 && h[i].w == w;
      assert g[i].w == w;
    }
  }

  /** The heap's array with its last element moved over the one at k. */
  function MovedLast(h: seq<Elem>, n: nat, k: nat): (g: seq<Elem>)
    requires 0 < n && n + HEAP0 <= |h| && InHeap(n, k)
    ensures |g| == |h|
  {
    if k < n - 1 + HEAP0 then h[k := h[n - 1 + HEAP0]] else h
  }

  lemma RemovedElems(h: seq<Elem>, n: nat, k: nat)
    requires 0 < n && n + HEAP0 <= |h| && InHeap(n, k) && Distinct(h, n)
    ensures var g := MovedLast(h, n, k);
      && Elems(g, n - 1) == Elems(h, n) - {h[k]} && Ws(g, n - 1) == Ws(h, n) - {h[k].w}
      && Distinct(g, n - 1)
  {
    var g := MovedLast(h, n, k);
    forall x | x in Elems(h, n) - {h[k]}
      ensures x in Elems(g, n - 1)
    {
      var i :| HEAP0 <= i < n + HEAP0 && h[i] == x;
      assert g[if i == n - 1 + HEAP0 then k else i] == x;
    }
    forall w | w in Ws(h, n) - {h[k].w}
      ensures w in Ws(g, n - 1)
    {
      var i :| HEAP0 <= i < n + HEAP0 && h[i].w == w;
      assert g[if i == n - 1 + HEAP0 then k else i].w == w;
    }
  }

  lemma MovedIndexed(h: seq<Elem>, n: nat, k: nat)
    requires 0 < n && n + HEAP0 <= |h| && InHeap(n, k) && Indexed(h, n)
    ensures IndexedExcept(MovedLast(h, n, k), n - 1, k)
    ensures k == n - 1 + HEAP0 ==> Indexed(MovedLast(h, n, k), n - 1)
  {
  }

  /** Stopping a timer that has been taken out leaves a heap. */
  lemma Stopped(h: seq<Elem>, n: nat, ws: set<Watcher>, w: Watcher)
    requires n + HEAP0 <= |h| && Ordered(h, n) && w.active == 0 && Ws(h, n) <= ws
    requires forall i :: HEAP0 <= i < n + HEAP0 ==> h[i].w.active == i
    requires forall e :: e in Elems(h, n) ==> e.at == e.w.at
    requires forall v :: v in ws && v.active > 0 ==> v in Ws(h, n) || v == w
    ensures HeapOk(h, n, ws)
  {
  }

  lemma RemovedOrder(h: seq<Elem>, n: nat, k: nat)
    requires 0 < n && Ordered(h, n) && InHeap(n, k)
    ensures Ordered(h, n - 1)
    ensures k < n - 1 + HEAP0 ==> OrderedAround(MovedLast(h, n, k), n - 1, k)
  {
    if k < n - 1 + HEAP0 {
      ReplaceOrderedAround(h, n - 1, k, h[n - 1 + HEAP0]);
    }
  }

  /** After adjustheap: a heap with the elements of g. */
  lemma Settled(g: seq<Elem>, h2: seq<Elem>, n: nat, k: nat, ws: set<Watcher>)
    requires n + HEAP0 <= |g| && InHeap(n, k) && OrderedAround(g, n, k)
    requires h2 == Adjust(g, n, k) || (k == HEAP0 && h2 == Down(g, n, HEAP0))
    requires Indexed(h2, n) && Ws(g, n) <= ws
    requires forall e :: e in Elems(g, n) ==> e.at == e.w.at
    requires forall v :: v in ws && v.active > 0 ==> v in Ws(g, n)
    ensures HeapOk(h2, n, ws) && Elems(h2, n) == Elems(g, n)
  {
    if h2 == Adjust(g, n, k) {
      AdjustIsHeap(g, n, k);
    } else {
      DownOrders(g, n, HEAP0);
      DownRearranges(g, n, HEAP0);
    }
    RearrangedElems(h2, g, n);
  }

  lemma Replaced(h: seq<Elem>, n: nat, k: nat, e: Elem)
    requires InHeap(n, k) && Ordered(h, n) && Distinct(h, n) && e.w == h[k].w && Indexed(h, n)
    ensures var g := h[k := e];
      && OrderedAround(g, n, k) && Distinct(g, n) && IndexedExcept(g, n, k) && Ws(g, n) == Ws(h, n)
      && Elems(g, n) == Elems(h, n) - {h[k]} + {e}
  {
    ReplaceOrderedAround(h, n, k, e);
    ReplacedElems(h, n, k, e);
  }

  lemma NotActive(h: seq<Elem>, n: nat, ws: set<Watcher>, w: Watcher)
    requires HeapOk(h, n, ws) && w.active == 0
    ensures n + HEAP0 <= |h| && Anhe(w, w.at) !in Elems(h, n)
  {
  }

  lemma ClearNothing(q: Queue, w: Watcher, dummy: Watcher)
    requires |q| == NUMPRI && Find(q[AbsPri(w)], w) == |q[AbsPri(w)]|
    ensures Clear(q, w, dummy) == q
  {
  }

  lemma StillThere(h: seq<Elem>, n: nat, ws: set<Watcher>, w: Watcher, t: real)
    requires HeapOk(h, n, ws) && Anhe(w, t) in Elems(h, n)
    ensures w.active > 0
  {
  }

  lemma OthersCached(h: seq<Elem>, n: nat, ws: set<Watcher>, k: nat, e: Elem)
    requires HeapOk(h, n, ws) && InHeap(n, k) && e.w == h[k].w
    ensures forall x :: x in Elems(h[k := e], n) ==> x == e || (x.at == x.w.at && x.w in ws && x.w != e.w)
  {
    HeapOkMeans(h, n, ws);
    WsOf(h, n);
  }

  /** A new cached time for an active watcher. */
  lemma Retimed(h: seq<Elem>, n: nat, ws: set<Watcher>, w: Watcher, t: real)
    requires HeapOk(h, n, ws) && w in ws && w.active > 0
    ensures n + HEAP0 <= |h| && InHeap(n, w.active) && h[w.active] == Anhe(w, w.at)
    ensures var g := h[w.active := Anhe(w, t)];
      && OrderedAround(g, n, w.active) && Distinct(g, n) && IndexedExcept(g, n, w.active)
      && Ws(g, n) == Ws(h, n) <= ws
      && Elems(g, n) == Elems(h, n) - {Anhe(w, w.at)} + {Anhe(w, t)}
      && (forall x :: x in Elems(g, n) ==> x == Anhe(w, t) || (x.at == x.w.at && x.w in ws && x.w != w))
      && (forall v :: v in ws && v.active > 0 ==> v in Ws(g, n))
  {
    HeapOkMeans(h, n, ws);
    Replaced(h, n, w.active, Anhe(w, t));
    OthersCached(h, n, ws, w.active, Anhe(w, t));
    assert forall v :: v in ws && v.active > 0 ==> v in Ws(h, n);
    hide Ordered, OrderedAround, Distinct, IndexedExcept, Elems, HeapOk, Ws;
  }

  // ---------- timers_reify ----------

  datatype Kind = Timer | Periodic

  predicate Repeats(w: Watcher, kind: Kind)
    reads w`repeat, w`interval, w`reschedule
  {
    match kind
    case Timer => w.repeat != 0.0
    case Periodic => w.reschedule.Callback? || w.interval != 0.0
  }

  /** What the code asserts of a watcher that fires. */
  predicate Sound(w: Watcher, kind: Kind, now: real)
    reads w`repeat, w`interval, w`reschedule
  {
    match kind
    case Timer => w.repeat >= 0.0
    case Periodic => w.interval >= 0.0 && (w.reschedule.Callback? ==> w.reschedule.next(now) >= now)
  }

  /** Where a watcher goes when it fires.  A timer goes one period on, but not before now; a periodic
      where its callback says or to its next occurrence. */
  function Next(e: Elem, now: real, kind: Kind): Elem
    reads e.w`repeat, e.w`interval, e.w`reschedule, e.w`offset
  {
    match kind
    case Timer => var t := e.at + e.w.repeat; Anhe(e.w, if t < now then now else t)
    case Periodic =>
      Anhe(e.w, if e.w.reschedule.Callback? then e.w.reschedule.next(now)
                else if e.w.interval > 0.0 then Occurrence(e.w.offset, e.w.interval, now)
                else e.at)
  }

  lemma NextIsNotPast(e: Elem, now: real, kind: Kind)
    requires Sound(e.w, kind, now) && Repeats(e.w, kind)
    ensures Next(e, now, kind).at >= now && Next(e, now, kind).w == e.w
  {
    if kind.Periodic? && e.w.interval > 0.0 {
      OccurrenceIsNext(e.w.offset, e.w.interval, now);
    }
  }

  /** The active watchers after those in `fired` have fired. */
  function After(active: set<Elem>, fired: set<Elem>, now: real, kind: Kind): set<Elem>
    reads (set e | e in fired :: e.w)`repeat, (set e | e in fired :: e.w)`interval
    reads (set e | e in fired :: e.w)`reschedule, (set e | e in fired :: e.w)`offset
  {
    (active - fired) + (set e | e in fired && Repeats(e.w, kind) :: Next(e, now, kind))
  }

  function Fired(fed: seq<Elem>): set<Elem> { set e | e in fed }

  /** Every timer due before now is in the list, once, and no other; and they are in the order in
      which they were due. */
  ghost predicate DueOnce(fed: seq<Elem>, active: set<Elem>, now: real) {
    && Fired(fed) == (set e | e in active && e.at < now)
    && (forall i, j :: 0 <= i < j < |fed| ==> fed[i] != fed[j])
    && (forall i, j :: 0 <= i < j < |fed| ==> fed[i].at <= fed[j].at)
  }

  /** Firing a timer that does not repeat stops it, which clears what was pending for it. */
  function ClearStopped(q: Queue, fed: seq<Elem>, kind: Kind, dummy: Watcher): (q': Queue)
    requires |q| == NUMPRI
    reads (set e | e in fed :: e.w)`repeat, (set e | e in fed :: e.w)`interval, (set e | e in fed :: e.w)`reschedule
    ensures |q'| == NUMPRI
    decreases fed
  {
    if fed == [] then q
    else
      var n := |fed| - 1;
      var before := ClearStopped(q, fed[..n], kind, dummy);
      if !Repeats(fed[n].w, kind) then Clear(before, fed[n].w, dummy) else before
  }

  /** feed_reverse_done: from the last to the first. */
  function FeedReverse(q: Queue, ws: seq<Watcher>, events: bv32): (q': Queue)
    requires |q| == NUMPRI
    ensures |q'| == NUMPRI
    decreases ws
  {
    if ws == [] then q else FeedReverse(Feed(q, ws[|ws| - 1], events), ws[..|ws| - 1], events)
  }

  function WatchersOf(fed: seq<Elem>): (ws: seq<Watcher>)
    ensures |ws| == |fed| && forall i :: 0 <= i < |fed| ==> ws[i] == fed[i].w
  {
    if fed == [] then [] else WatchersOf(fed[..|fed| - 1]) + [fed[|fed| - 1].w]
  }

  /** The list so far: due timers, once each, in order, none due later than what is still there. */
  ghost predicate FedSoFar(fed: seq<Elem>, a0: set<Elem>, active: set<Elem>, now: real) {
    && (forall i :: 0 <= i < |fed| ==> fed[i] in a0 && fed[i].at < now)
    && (forall i, j :: 0 <= i < j < |fed| ==> fed[i] != fed[j])
    && (forall i, j :: 0 <= i < j < |fed| ==> fed[i].at <= fed[j].at)
    && (forall i, x :: 0 <= i < |fed| && x in active ==> fed[i].at <= x.at)
  }

  lemma NothingFed(a0: set<Elem>, now: real, kind: Kind)
    ensures FedSoFar([], a0, a0, now) && After(a0, Fired([]), now, kind) == a0
  {
  }

  /** What becomes of a fired element. */
  function Rest(e: Elem, now: real, kind: Kind): set<Elem>
    reads e.w`repeat, e.w`interval, e.w`reschedule, e.w`offset
  {
    if Repeats(e.w, kind) then {Next(e, now, kind)} else {}
  }

  lemma AfterOneMore(active: set<Elem>, fired: set<Elem>, e: Elem, now: real, kind: Kind)
    requires e in active && e !in fired && e.at < now
    requires forall x :: x in fired ==> Sound(x.w, kind, now)
    ensures After(active, fired + {e}, now, kind) == After(active, fired, now, kind) - {e} + Rest(e, now, kind)
  {
    hide Sound, Repeats, Next;
    forall x | x in fired && Repeats(x.w, kind)
      ensures Next(x, now, kind) != e
    {
      NextIsNotPast(x, now, kind);
    }
  }

  lemma InActive(a0: set<Elem>, fired: set<Elem>, e: Elem, now: real, kind: Kind)
    requires e in After(a0, fired, now, kind) && e.at < now
    requires forall x :: x in fired ==> Sound(x.w, kind, now)
    ensures e in a0 && e !in fired
  {
    hide Sound, Repeats, Next;
    forall x | x in fired && Repeats(x.w, kind)
      ensures Next(x, now, kind) != e
    {
      NextIsNotPast(x, now, kind);
    }
  }

  lemma FedOneMore(fed: seq<Elem>, a0: set<Elem>, active: set<Elem>, e: Elem, now: real, kind: Kind)
    requires FedSoFar(fed, a0, active, now) && active == After(a0, Fired(fed), now, kind)
    requires e in active && e.at < now && forall x :: x in active ==> e.at <= x.at
    requires Sound(e.w, kind, now) && forall x :: x in fed ==> Sound(x.w, kind, now)
    ensures var active' := active - {e} + Rest(e, now, kind);
      && FedSoFar(fed + [e], a0, active', now) && active' == After(a0, Fired(fed + [e]), now, kind)
      && (set x | x in active' && x.at < now) < (set x | x in active && x.at < now)
  {
    hide Sound, Repeats, Next, After;
    InActive(a0, Fired(fed), e, now, kind);
    AfterOneMore(a0, Fired(fed), e, now, kind);
    assert Fired(fed + [e]) == Fired(fed) + {e};
    if Repeats(e.w, kind) { NextIsNotPast(e, now, kind); }
    DueShrinks(active, active - {e} + Rest(e, now, kind), e, Rest(e, now, kind), now);
    FedMore(fed, a0, active, e, Rest(e, now, kind), now);
  }

  lemma FedMore(fed: seq<Elem>, a0: set<Elem>, active: set<Elem>, e: Elem, rest: set<Elem>, now: real)
    requires FedSoFar(fed, a0, active, now)
    requires e in active && e.at < now && forall x :: x in active ==> e.at <= x.at
    requires e in a0 && e !in Fired(fed) && forall x :: x in rest ==> now <= x.at
    ensures FedSoFar(fed + [e], a0, active - {e} + rest, now)
  {
  }

  lemma DueShrinks(active: set<Elem>, active': set<Elem>, e: Elem, rest: set<Elem>, now: real)
    requires e in active && e.at < now && (forall x :: x in rest ==> now <= x.at)
    requires active' <= active - {e} + rest
    ensures (set x | x in active' && x.at < now) < (set x | x in active && x.at < now)
  {
    var due, due' := set x | x in active && x.at < now, set x | x in active' && x.at < now;
    assert e in due && e !in due';
    assert due' <= due;
  }

  lemma AllDueFed(fed: seq<Elem>, a0: set<Elem>, active: set<Elem>, now: real, kind: Kind)
    requires FedSoFar(fed, a0, active, now) && active == After(a0, Fired(fed), now, kind)
    requires forall x :: x in active ==> now <= x.at
    ensures DueOnce(fed, a0, now)
  {
    forall e | e in a0 && e.at < now
      ensures e in Fired(fed)
    {
      assert e !in Fired(fed) ==> e in active;
    }
  }

  /** The list holds watchers of mine, each once. */
  ghost predicate Own(fed: seq<Elem>, mine: set<Watcher>) {
    && (forall i :: 0 <= i < |fed| ==> fed[i].w in mine)
    && (forall i, j :: 0 <= i < j < |fed| ==> fed[i].w != fed[j].w)
  }

  ghost predicate OneEach(active: set<Elem>) {
    forall e, f :: e in active && f in active && e.w == f.w ==> e == f
  }

  lemma FedIsOwn(fed: seq<Elem>, active: set<Elem>, now: real, mine: set<Watcher>)
    requires DueOnce(fed, active, now) && OneEach(active) && forall e :: e in fed ==> e.w in mine
    ensures Own(fed, mine)
  {
    forall i | 0 <= i < |fed| ensures fed[i] in active { assert fed[i] in Fired(fed); }
  }

  // ---------- Where they went ----------

  /** Where ev_periodic_start and periodics_reify put a periodic that has a callback or an interval. */
  ghost predicate PeriodicTime(w: Watcher, t: real, now: real)
    reads w`interval, w`reschedule, w`offset
  {
    if w.reschedule.Callback? then t == w.reschedule.next(now)
    else
      && now < t <= now + w.interval
      && (w.interval >= MIN_INTERVAL ==> LeastAfter(t, w.offset, w.interval, now))
  }

  /** Where ev_periodic_start puts a periodic: without callback and interval, at its offset. */
  ghost predicate StartTime(w: Watcher, t: real, now: real)
    reads w`interval, w`reschedule, w`offset
  {
    if w.reschedule == NoCallback && w.interval == 0.0 then t == w.offset else PeriodicTime(w, t, now)
  }

  lemma StartsAt(w: Watcher, now: real)
    requires w.interval >= 0.0
    ensures StartTime(w, Next(Anhe(w, w.offset), now, Periodic).at, now)
  {
    hide Occurrence, LeastAfter;
    if w.reschedule == NoCallback && w.interval > 0.0 {
      OccurrenceIsNext(w.offset, w.interval, now);
      if w.interval >= MIN_INTERVAL { OccurrenceIsLeast(w.offset, w.interval, now); }
    }
  }

  ghost predicate Gone(w: Watcher, active: set<Elem>) {
    forall x :: x in active ==> x.w != w
  }

  /** What has become of a watcher that was due at e.at and has fired. */
  ghost predicate WentOn(e: Elem, active: set<Elem>, now: real, kind: Kind)
    reads e.w`repeat, e.w`interval, e.w`reschedule, e.w`offset
  {
    match kind
    case Timer =>
      if e.w.repeat == 0.0 then Gone(e.w, active)
      else if now <= e.at + e.w.repeat then Anhe(e.w, e.at + e.w.repeat) in active
      else Anhe(e.w, now) in active
    case Periodic =>
      if e.w.reschedule == NoCallback && e.w.interval == 0.0 then Gone(e.w, active)
      else exists x :: x in active && x.w == e.w && PeriodicTime(e.w, x.at, now)
  }

  /** Those that fired went on or are gone, and the others are where they were. */
  ghost predicate AllWentOn(fed: seq<Elem>, before: set<Elem>, active: set<Elem>, now: real, kind: Kind)
    reads (set e | e in fed :: e.w)`repeat, (set e | e in fed :: e.w)`interval
    reads (set e | e in fed :: e.w)`reschedule, (set e | e in fed :: e.w)`offset
  {
    && OneEach(active)
    && (forall i :: 0 <= i < |fed| ==> WentOn(fed[i], active, now, kind))
    && (forall x :: x in before && now <= x.at ==> x in active)
    && (forall x :: x in active ==> x in before || exists i :: 0 <= i < |fed| && fed[i].w == x.w)
  }

  /** Exactly those due have fired, in order; they are where Next says, which is where WentOn says; and nothing that
      is left is due. */
  ghost predicate FiredOnce(fed: seq<Elem>, before: set<Elem>, active: set<Elem>, now: real, kind: Kind)
    reads (set e | e in fed :: e.w)`repeat, (set e | e in fed :: e.w)`interval
    reads (set e | e in fed :: e.w)`reschedule, (set e | e in fed :: e.w)`offset
  {
    && DueOnce(fed, before, now)
    && active == After(before, Fired(fed), now, kind)
    && AllWentOn(fed, before, active, now, kind)
    && (forall x :: x in active ==> now <= x.at)
  }

  /** What stopping takes off a timer's time when it fires. */
  function Elapsed(now: real, kind: Kind): real { if kind.Timer? then now else 0.0 }

  /** The times of the watchers that did not fire, and of those that fired and were stopped. */
  ghost predicate Stilled(fed: seq<Elem>, was: map<Watcher, real>, ats: map<Watcher, real>, now: real, kind: Kind)
    reads (set e | e in fed :: e.w)`repeat, (set e | e in fed :: e.w)`interval, (set e | e in fed :: e.w)`reschedule
  {
    && ats.Keys == was.Keys
    && (forall w :: w in was && (forall i :: 0 <= i < |fed| ==> fed[i].w != w) ==> ats[w] == was[w])
    && (forall i :: 0 <= i < |fed| ==> fed[i].w in ats)
    && (forall i :: 0 <= i < |fed| && !Repeats(fed[i].w, kind) ==> ats[fed[i].w] == if kind.Timer? then fed[i].at - now else fed[i].at)
  }

  lemma StilledOneMore(fed: seq<Elem>, was: map<Watcher, real>, ats: map<Watcher, real>, e: Elem, t: real, now: real, kind: Kind)
    requires Stilled(fed, was, ats, now, kind) && e.w in was
    requires forall i :: 0 <= i < |fed| ==> fed[i].w != e.w
    requires !Repeats(e.w, kind) ==> t == e.at - Elapsed(now, kind)
    ensures Stilled(fed + [e], was, ats[e.w := t], now, kind)
  {
    hide Repeats;
    var fed' := fed + [e];
    assert fed'[|fed|] == e && forall i :: 0 <= i < |fed| ==> fed'[i] == fed[i];
    forall w | w in was && forall i :: 0 <= i < |fed'| ==> fed'[i].w != w
      ensures ats[e.w := t][w] == was[w]
    {
      assert forall i :: 0 <= i < |fed| ==> fed'[i].w != w;
    }
  }

  lemma NothingStilled(was: map<Watcher, real>, now: real, kind: Kind)
    ensures Stilled([], was, was, now, kind)
  {
  }

  /** One more has fired. */
  lemma OneMore(fed: seq<Elem>, a0: set<Elem>, active: set<Elem>, e: Elem, now: real, kind: Kind,
        was: map<Watcher, real>, ats: map<Watcher, real>, t: real)
    requires FedSoFar(fed, a0, active, now) && active == After(a0, Fired(fed), now, kind) && OneEach(a0)
    requires e in active && e.at < now && forall x :: x in active ==> e.at <= x.at
    requires Sound(e.w, kind, now) && forall x :: x in fed ==> Sound(x.w, kind, now)
    requires Stilled(fed, was, ats, now, kind) && e.w in was && (!Repeats(e.w, kind) ==> t == e.at - Elapsed(now, kind))
    ensures var active' := active - {e} + Rest(e, now, kind);
      && FedSoFar(fed + [e], a0, active', now) && active' == After(a0, Fired(fed + [e]), now, kind)
      && (set x | x in active' && x.at < now) < (set x | x in active && x.at < now)
    ensures Stilled(fed + [e], was, ats[e.w := t], now, kind) && (fed + [e])[..|fed|] == fed
  {
    hide Sound, After, FedSoFar, Stilled, Rest, Repeats, OneEach, Elapsed;
    FedOneMore(fed, a0, active, e, now, kind);
    FiredWatchers(fed, a0, active, e, now, kind);
    StilledOneMore(fed, was, ats, e, t, now, kind);
  }

  lemma NextWentOn(e: Elem, active: set<Elem>, now: real, kind: Kind)
    requires Sound(e.w, kind, now) && if Repeats(e.w, kind) then Next(e, now, kind) in active else Gone(e.w, active)
    ensures WentOn(e, active, now, kind)
  {
    hide Occurrence, LeastAfter;
    if kind.Periodic? && Repeats(e.w, kind) {
      if e.w.reschedule == NoCallback {
        OccurrenceIsNext(e.w.offset, e.w.interval, now);
        if e.w.interval >= MIN_INTERVAL { OccurrenceIsLeast(e.w.offset, e.w.interval, now); }
      }
      assert PeriodicTime(e.w, Next(e, now, kind).at, now);
    }
  }

  /** The successors keep each watcher once. */
  lemma AfterIsOneEach(before: set<Elem>, fired: set<Elem>, now: real, kind: Kind)
    requires OneEach(before) && fired <= before
    ensures OneEach(After(before, fired, now, kind))
    ensures forall x :: x in After(before, fired, now, kind) ==>
      (x in before && x !in fired) || exists e :: e in fired && Repeats(e.w, kind) && x == Next(e, now, kind)
  {
    assert forall e :: e in fired ==> Next(e, now, kind).w == e.w;
    hide Next, Repeats;
  }

  lemma FiredGone(before: set<Elem>, fired: set<Elem>, e: Elem, now: real, kind: Kind)
    requires OneEach(before) && fired <= before && e in fired && !Repeats(e.w, kind)
    ensures Gone(e.w, After(before, fired, now, kind))
  {
    assert forall f :: f in fired ==> Next(f, now, kind).w == f.w;
    hide Next, Repeats;
  }

  lemma FedWentOn(fed: seq<Elem>, before: set<Elem>, now: real, kind: Kind)
    requires OneEach(before) && DueOnce(fed, before, now) && forall e :: e in fed ==> Sound(e.w, kind, now)
    ensures AllWentOn(fed, before, After(before, Fired(fed), now, kind), now, kind)
  {
    var active := After(before, Fired(fed), now, kind);
    AfterIsOneEach(before, Fired(fed), now, kind);
    assert forall e :: e in Fired(fed) && Repeats(e.w, kind) ==> Next(e, now, kind) in active;
    assert forall e :: Next(e, now, kind).w == e.w;
    assert forall x :: x in before && now <= x.at ==> x in active;
    hide Next, Repeats, After, Sound, WentOn, OneEach;
    forall i | 0 <= i < |fed|
      ensures WentOn(fed[i], active, now, kind)
    {
      assert fed[i] in Fired(fed);
      if !Repeats(fed[i].w, kind) { FiredGone(before, Fired(fed), fed[i], now, kind); }
      NextWentOn(fed[i], active, now, kind);
    }
    forall x | x in active && x !in before
      ensures exists i :: 0 <= i < |fed| && fed[i].w == x.w
    {
      var e :| e in Fired(fed) && x == Next(e, now, kind);
      var i :| 0 <= i < |fed| && fed[i] == e;
      assert fed[i].w == x.w;
    }
  }

  lemma FiredWatchers(fed: seq<Elem>, a0: set<Elem>, active: set<Elem>, e: Elem, now: real, kind: Kind)
    requires FedSoFar(fed, a0, active, now) && active == After(a0, Fired(fed), now, kind) && OneEach(a0)
    requires e in active && e.at < now && forall x :: x in fed ==> Sound(x.w, kind, now)
    ensures forall i :: 0 <= i < |fed| ==> fed[i].w != e.w
  {
    hide Sound, After;
    InActive(a0, Fired(fed), e, now, kind);
    assert forall i :: 0 <= i < |fed| ==> fed[i] in Fired(fed);
  }

  lemma RootFacts(h: seq<Elem>, n: nat, ws: set<Watcher>)
    requires HeapOk(h, n, ws) && n > 0
    ensures var e := h[HEAP0];
      && e in Elems(h, n) && e.w in ws && e.w.active == HEAP0 && e.at == e.w.at
      && Ws(h, n) <= ws && forall x :: x in Elems(h, n) ==> e.at <= x.at
  {
    HeapOkMeans(h, n, ws);
    assert h[HEAP0].w in Ws(h, n);
  }

  class Loop {
    var timers: array<Elem>
    var timercnt: nat
    var activecnt: int
    var now: real
    var rfeeds: seq<Watcher>
    const pq: Pendings
    ghost const mine: set<Watcher>

    /** The heap is in order and holds the active ones among this loop's own watchers; the pending queue
        may hold others as well. */
    ghost predicate Valid()
      reads this`timers, this`timercnt, timers, pq`pendings, pq`ws, pq.ws`pending, mine`active, mine`at
      ensures Valid() ==> pq.Valid() && mine <= pq.ws && timercnt + HEAP0 <= timers.Length
    {
      HeapOk(timers[..], timercnt, mine) && pq.Valid() && mine <= pq.ws
    }

    /** The active timers with the times they are due. */
    ghost function Active(): set<Elem>
      reads this`timers, this`timercnt, timers
    {
      if timercnt + HEAP0 <= timers.Length then Elems(timers[..], timercnt) else {}
    }

    /** The times of all its watchers, active or not. */
    ghost function Ats(): map<Watcher, real>
      reads mine`at
    {
      map w | w in mine :: w.at
    }

    constructor (pq: Pendings, ghost mine: set<Watcher>)
      requires pq.Valid() && mine <= pq.ws && forall w :: w in mine ==> w.active == 0
      ensures Valid() && Active() == {} && rfeeds == [] && this.pq == pq && this.mine == mine && fresh(timers)
    {
      timers := new Elem[HEAP0](_ => Anhe(pq.pendingW, 0.0));
      timercnt, activecnt, now, rfeeds := 0, 0, 0.0, [];
      this.pq, this.mine := pq, mine;
    }

    /** array_needsize: a larger array with the same elements. */
    method NeedSize(cnt: nat, filler: Elem)
      modifies this`timers
      ensures cnt <= timers.Length && old(timers.Length) <= timers.Length
      ensures timers == old(timers) || fresh(timers)
      ensures timers[..old(timers.Length)] == old(timers[..])
    {
      if cnt > timers.Length {
        var bigger := new Elem[2 * cnt](_ => filler);
        forall i | 0 <= i < timers.Length {
          bigger[i] := timers[i];
        }
        timers := bigger;
      }
    }

    /** The part of ev_timer_start and ev_periodic_start before upheap: the watcher goes behind the heap. */
    method Append(w: Watcher, t: real) returns (ghost h0: seq<Elem>, ghost n: nat, ghost h1: seq<Elem>)
      requires Valid() && w in mine && w.active == 0
      modifies this`timers, this`timercnt, this`activecnt, timers, w`at, w`active
      ensures timers == old(timers) || fresh(timers)
      ensures timercnt == n + 1 && activecnt == old(activecnt) + 1 && w.at == t
      ensures h0 == old(timers[..]) && n == old(timercnt) && h1 == timers[..]
      ensures n + HEAP0 <= |h0| && n + 1 + HEAP0 <= |h1| && h1[..n + HEAP0] == h0[..n + HEAP0]
      ensures h1[n + HEAP0] == Anhe(w, w.at)
      ensures Ordered(h0, n) && Ws(h0, n) <= mine && Ws(h1, n + 1) == Ws(h0, n) + {w}
      ensures Distinct(h1, n + 1) && IndexedExcept(h1, n + 1, n + HEAP0)
      ensures forall e :: e in Elems(h0, n) ==> e.at == e.w.at && e.w in mine
      ensures forall v :: v in mine && v.active > 0 ==> v in Ws(h0, n) || v == w
      ensures pq.Valid()
    {
      hide Pendings.Valid, HeapOk, Ordered, Distinct, IndexedExcept, Elems, Ws;
      h0, n := timers[..], timercnt;
      InactiveIsOut(h0, n, mine, w);
      w.at := t;
      timercnt := timercnt + 1;
      var k := timercnt + HEAP0 - 1;
      w.active := k;
      activecnt := activecnt + 1;
      NeedSize(k + 1, Anhe(w, w.at));
      timers[k] := Anhe(w, w.at);
      h1 := timers[..];
      assert h1[..n + HEAP0] == h0[..n + HEAP0];
      PushReady(h0, h1, n);
      GrownElems(h0, h1, n);
    }

    /** ev_timer_start. */
    method TimerStart(w: Watcher)
      requires Valid() && w in mine && w.repeat >= 0.0
      modifies this`timers, this`timercnt, this`activecnt, timers, w`at, mine`active
      ensures Valid()
      ensures timers == old(timers) || fresh(timers)
      ensures old(w.active) > 0 ==> Active() == old(Active()) && w.at == old(w.at)
      ensures old(w.active) == 0 ==>
        w.at == old(w.at) + now && Active() == old(Active()) + {Anhe(w, w.at)} && activecnt == old(activecnt) + 1
    {
      if w.active != 0 { return; }
      StartAt(w, w.at + now);
    }

    /** ev_periodic_start. */
    method PeriodicStart(w: Watcher)
      requires Valid() && w in mine && w.interval >= 0.0
      modifies this`timers, this`timercnt, this`activecnt, timers, w`at, mine`active
      ensures Valid()
      ensures timers == old(timers) || fresh(timers)
      ensures old(w.active) > 0 ==> Active() == old(Active()) && w.at == old(w.at)
      ensures old(w.active) == 0 ==>
        Active() == old(Active()) + {Anhe(w, w.at)} && activecnt == old(activecnt) + 1
      ensures old(w.active) == 0 ==> StartTime(w, w.at, now) && w.at == Next(Anhe(w, w.offset), now, Periodic).at
    {
      hide Valid, Occurrence, PeriodicTime;
      StartsAt(w, now);
      if w.active != 0 { return; }
      var t := w.offset;
      if w.reschedule.Callback? {
        t := w.reschedule.next(now);
      } else if w.interval != 0.0 {
        t := Recalc(w.offset, w.interval, now);
      }
      StartAt(w, t);
    }

    /** What both start functions do with an inactive watcher, once its time is known. */
    method StartAt(w: Watcher, t: real)
      requires Valid() && w in mine && w.active == 0
      modifies this`timers, this`timercnt, this`activecnt, timers, w`at, mine`active
      ensures Valid() && (timers == old(timers) || fresh(timers))
      ensures w.at == t && Active() == old(Active()) + {Anhe(w, t)} && activecnt == old(activecnt) + 1
    {
      hide HeapOk, Pendings.Valid, Up, Ordered, Distinct, IndexedExcept, Indexed, Elems, Ws;
      ghost var h0, n, h1 := Append(w, t);
      label Appended:
      Upheap(timers, timercnt, timercnt + HEAP0 - 1);
      forall e | e in Elems(h0, n)
        ensures e.at == e.w.at
      {
        assert e.w in mine;
      }
      forall v | v in mine && v.active > 0
        ensures v in Ws(h0, n) || v == w
      {
        assert v !in Ws(h1, n + 1) ==> v.active == old@Appended(v.active);
      }
      Pushed(h0, h1, timers[..], timercnt - 1, mine);
    }

    /** The part of ev_timer_stop that takes the element at k out of the heap. */
    method RemoveAt(k: nat)
      requires timercnt + HEAP0 <= timers.Length && InHeap(timercnt, k)
      requires Ordered(timers[..], timercnt) && Indexed(timers[..], timercnt) && Distinct(timers[..], timercnt)
      modifies this`timercnt, timers, Ws(timers[..], timercnt)`active
      ensures timercnt == old(timercnt) - 1 && timercnt + HEAP0 <= timers.Length
      ensures Elems(timers[..], timercnt) == old(Elems(timers[..], timercnt)) - {old(timers[k])}
      ensures Ws(timers[..], timercnt) == old(Ws(timers[..], timercnt)) - {old(timers[k].w)}
      ensures Ordered(timers[..], timercnt) && Indexed(timers[..], timercnt)
    {
      hide Adjust, Ordered, OrderedAround, Distinct, Elems, Ws, Indexed, IndexedExcept, Rearranged;
      ghost var h0, n := timers[..], timercnt;
      RemovedElems(h0, n, k);
      RemovedOrder(h0, n, k);
      MovedIndexed(h0, n, k);
      timercnt := timercnt - 1;
      if k < timercnt + HEAP0 {
        timers[k] := timers[timercnt + HEAP0];
        ghost var g := timers[..];
        assert g == MovedLast(h0, n, k);
        Adjustheap(timers, timercnt, k);
        AdjustIsHeap(g, n - 1, k);
        RearrangedElems(timers[..], g, n - 1);
      }
    }

    /** The same for an active timer of this loop, and what is left. */
    method TakeOut(w: Watcher)
      requires HeapOk(timers[..], timercnt, mine) && w in mine && w.active > 0
      modifies this`timercnt, timers, Ws(timers[..], timercnt)`active
      ensures timercnt + HEAP0 <= timers.Length && old(timercnt + HEAP0 <= timers.Length)
      ensures Elems(timers[..], timercnt) == old(Elems(timers[..], timercnt)) - {Anhe(w, w.at)}
      ensures Ordered(timers[..], timercnt) && Ws(timers[..], timercnt) <= mine
      ensures forall i :: HEAP0 <= i < timercnt + HEAP0 ==> timers[i].w != w && timers[i].w.active == i
      ensures forall e :: e in Elems(timers[..], timercnt) ==> e.at == e.w.at && e.w in mine && e.w != w
      ensures forall v :: v in mine && v.active > 0 ==> v in Ws(timers[..], timercnt) || v == w
    {
      HeapOkMeans(timers[..], timercnt, mine);
      WsOf(timers[..], timercnt);
      hide Ordered, Distinct;
      assert timers[w.active] in Elems(timers[..], timercnt);
      ghost var was := Ws(timers[..], timercnt);
      assert forall v :: v in mine && v.active > 0 ==> v in was;
      RemoveAt(w.active);
      WsOf(timers[..], timercnt);
      hide HeapOk;
    }

    /** ev_timer_stop, with `elapsed` taken off the timer's time, and ev_periodic_stop, with nothing. */
    method Stop(w: Watcher, elapsed: real)
      requires Valid() && w in mine
      modifies this`timercnt, this`activecnt, timers, w`at, mine`active, pq`pendings, w`pending
      ensures Valid() && w.active == 0 && w.pending == 0
      ensures pq.pendings == Clear(old(pq.pendings), w, pq.pendingW)
      ensures old(w.active) == 0 ==> Active() == old(Active()) && w.at == old(w.at)
      ensures old(w.active) > 0 ==>
        w.at == old(w.at) - elapsed && Active() == old(Active()) - {Anhe(w, old(w.at))} && activecnt == old(activecnt) - 1
    {
      hide Pendings.Valid, Ordered, Clear, Elems, Distinct, Indexed;
      var _ := pq.ClearPending(w);
      if w.active == 0 { return; }
      TakeOut(w);
      hide HeapOk, Ws;
      label Out:
      w.at := w.at - elapsed;
      activecnt := activecnt - 1;
      w.active := 0;
      Stopped(timers[..], timercnt, mine, w);
    }
  
    /** ev_at and ANHE_at_cache. */
    method SetTime(w: Watcher, t: real) returns (ghost g: seq<Elem>)
      requires HeapOk(timers[..], timercnt, mine) && w in mine && w.active > 0
      modifies timers, w`at
      ensures g == timers[..] && timercnt + HEAP0 <= |g| && InHeap(timercnt, w.active) && w.at == t
      ensures OrderedAround(g, timercnt, w.active) && Distinct(g, timercnt) && IndexedExcept(g, timercnt, w.active)
      ensures Ws(g, timercnt) == old(Ws(timers[..], timercnt)) <= mine
      ensures Elems(g, timercnt) == old(Elems(timers[..], timercnt)) - {Anhe(w, old(w.at))} + {Anhe(w, t)}
      ensures forall x :: x in Elems(g, timercnt) ==> x.at == x.w.at && x.w in mine
      ensures forall v :: v in mine && v.active > 0 ==> v in Ws(g, timercnt)
    {
      hide Pendings.Valid, Valid, Ordered, OrderedAround, Distinct, IndexedExcept, Elems, HeapOk, Ws;
      Retimed(timers[..], timercnt, mine, w, t);
      g := Cache(w, t);
    }

    method Cache(w: Watcher, t: real) returns (ghost g: seq<Elem>)
      requires w.active < timers.Length
      modifies timers, w`at
      ensures g == timers[..] == old(timers[..])[w.active := Anhe(w, t)] && w.at == t
    {
      w.at := t;
      timers[w.active] := Anhe(w, t);
      g := timers[..];
    }

    /** A new time for an active timer: cache it and sift, either way (adjustheap) or, for the root,
        away from the root only (downheap). */
    method Reschedule(w: Watcher, t: real, bothWays: bool)
      requires HeapOk(timers[..], timercnt, mine) && w in mine && w.active > 0
      requires bothWays || w.active == HEAP0
      modifies timers, w`at, Ws(timers[..], timercnt)`active
      ensures HeapOk(timers[..], timercnt, mine) && w.at == t && w.active > 0
      ensures timercnt + HEAP0 <= timers.Length && old(timercnt + HEAP0 <= timers.Length)
      ensures Elems(timers[..], timercnt) == old(Elems(timers[..], timercnt)) - {Anhe(w, old(w.at))} + {Anhe(w, t)}
    {
      hide Ordered, OrderedAround, Distinct, Elems, Adjust, Down, HeapOk, IndexedExcept, Indexed, Ws;
      var k := w.active;
      ghost var g := SetTime(w, t);
      label Cached:
      if bothWays {
        Adjustheap(timers, timercnt, k);
      } else {
        Downheap(timers, timercnt, k);
      }
      forall x | x in Elems(g, timercnt)
        ensures x.at == x.w.at
      {
        assert x.w in mine;
      }
      forall v | v in mine && v.active > 0
        ensures v in Ws(g, timercnt)
      {
        assert v.active == old@Cached(v.active) || v in Ws(g, timercnt);
      }
      Settled(g, timers[..], timercnt, k, mine);
      assert w.active > 0 by { StillThere(timers[..], timercnt, mine, w, t); }
    }
  
    /** ev_timer_again. */
    method TimerAgain(w: Watcher)
      requires Valid() && w in mine && w.repeat >= 0.0
      modifies this`timers, this`timercnt, this`activecnt, timers, w`at, mine`active, pq`pendings, w`pending
      ensures Valid() && (timers == old(timers) || fresh(timers))
      ensures pq.pendings == Clear(old(pq.pendings), w, pq.pendingW) && w.pending == 0
      ensures w.repeat != 0.0 ==>
        w.at == now + w.repeat && Active() == old(Active() - {Anhe(w, w.at)}) + {Anhe(w, w.at)}
      ensures w.repeat == 0.0 ==>
        && w.active == 0 && Active() == old(Active() - {Anhe(w, w.at)})
        && w.at == if old(w.active) > 0 then old(w.at) - now else old(w.at)
    {
      hide Pendings.Valid, Clear, Ordered, Indexed, Distinct, Elems, Ws;
      var _ := pq.ClearPending(w);
      label Cleared:
      if w.active != 0 {
        if w.repeat != 0.0 {
          Reschedule(w, now + w.repeat, true);
        } else {
          pq.SlotIsFind(w);
          ClearNothing(pq.pendings, w, pq.pendingW);
          Stop(w, now);
        }
      } else {
        NotActive(timers[..], timercnt, mine, w);
        if w.repeat != 0.0 {
          w.at := w.repeat;
          TimerStart(w);
        }
      }
    }
  
    /** feed_reverse_done. */
    method FeedReverseDone(revents: bv32)
      requires pq.Valid() && forall w :: w in rfeeds ==> w in pq.ws
      modifies this`rfeeds, pq`pendings, pq`pendingpri, pq.ws`pending
      ensures pq.Valid() && rfeeds == []
      ensures pq.pendings == FeedReverse(old(pq.pendings), old(rfeeds), revents)
    {
      hide Pendings.Valid, Feed;
      while rfeeds != []
        invariant pq.Valid() && forall w :: w in rfeeds ==> w in pq.ws
        invariant FeedReverse(pq.pendings, rfeeds, revents) == FeedReverse(old(pq.pendings), old(rfeeds), revents)
        decreases |rfeeds|
      {
        var w := rfeeds[|rfeeds| - 1];
        pq.FeedEvent(w, revents);
        rfeeds := rfeeds[..|rfeeds| - 1];
      }
    }
  
    /** The root fires and goes on to time t. */
    method FireOn(t: real, kind: Kind) returns (ghost e: Elem)
      requires Valid() && timercnt > 0 && timers[HEAP0].at < now && timers[HEAP0].w in mine
      requires Repeats(timers[HEAP0].w, kind) && Next(timers[HEAP0], now, kind) == Anhe(timers[HEAP0].w, t)
      modifies this`timercnt, this`activecnt, this`rfeeds, timers, mine`at, mine`active, pq`pendings, pq.ws`pending
      ensures Fires(old(Active()), old(Ats()), e, old(pq.pendings), kind) && timers == old(timers) && rfeeds == old(rfeeds) + [e.w]
    {
      hide Pendings.Valid, Clear, Ordered, Indexed, Distinct, Ws, Occurrence, HeapOk, Elems, Next, Repeats;
      e := timers[HEAP0];
      RootFacts(timers[..], timercnt, mine);
      var w := timers[HEAP0].w;
      Reschedule(w, t, false);
      rfeeds := rfeeds + [w];
    }

    /** The root fires and is stopped. */
    method FireOff(elapsed: real, kind: Kind) returns (ghost e: Elem)
      requires Valid() && timercnt > 0 && timers[HEAP0].at < now && timers[HEAP0].w in mine
      requires !Repeats(timers[HEAP0].w, kind) && elapsed == Elapsed(now, kind)
      modifies this`timercnt, this`activecnt, this`rfeeds, timers, mine`at, mine`active, pq`pendings, pq.ws`pending
      ensures Fires(old(Active()), old(Ats()), e, old(pq.pendings), kind) && timers == old(timers) && rfeeds == old(rfeeds) + [e.w]
    {
      hide Pendings.Valid, Clear, Ordered, Indexed, Distinct, Ws, HeapOk, Elems, Next, Repeats;
      e := timers[HEAP0];
      RootFacts(timers[..], timercnt, mine);
      var w := timers[HEAP0].w;
      Stop(w, elapsed);
      rfeeds := rfeeds + [w];
    }

    /** One turn of the timers_reify loop: the root fires. */
    method FireTimer() returns (ghost e: Elem)
      requires Valid() && timercnt > 0 && timers[HEAP0].at < now && timers[HEAP0].w in mine
      requires Sound(timers[HEAP0].w, Timer, now)
      modifies this`timercnt, this`activecnt, this`rfeeds, timers, mine`at, mine`active, pq`pendings, pq.ws`pending
      ensures Fires(old(Active()), old(Ats()), e, old(pq.pendings), Timer) && timers == old(timers) && rfeeds == old(rfeeds) + [e.w]
    {
      RootFacts(timers[..], timercnt, mine);
      hide Valid, Fires, Active;
      var w := timers[HEAP0].w;
      if w.repeat != 0.0 {
        var t := w.at + w.repeat;
        if t < now { t := now; }
        e := FireOn(t, Timer);
      } else {
        e := FireOff(now, Timer);
      }
    }

    /** One turn of the inner periodics_reify loop. */
    method FirePeriodic() returns (ghost e: Elem)
      requires Valid() && timercnt > 0 && timers[HEAP0].at < now && timers[HEAP0].w in mine
      requires Sound(timers[HEAP0].w, Periodic, now)
      modifies this`timercnt, this`activecnt, this`rfeeds, timers, mine`at, mine`active, pq`pendings, pq.ws`pending
      ensures Fires(old(Active()), old(Ats()), e, old(pq.pendings), Periodic) && timers == old(timers) && rfeeds == old(rfeeds) + [e.w]
    {
      hide Valid, Fires, Active, Occurrence;
      var w := timers[HEAP0].w;
      if w.reschedule.Callback? {
        e := FireOn(w.reschedule.next(now), Periodic);
      } else if w.interval != 0.0 {
        var at := Recalc(w.offset, w.interval, now);
        e := FireOn(at, Periodic);
      } else {
        e := FireOff(0.0, Periodic);
      }
    }

    /** e was the least of the active watchers, was due, and has fired. */
    ghost predicate Fires(active: set<Elem>, was: map<Watcher, real>, e: Elem, q: Queue, kind: Kind)
      requires |q| == NUMPRI
      reads this`timers, this`timercnt, timers, this`now, pq`pendings, pq`ws, pq.ws`pending, mine, e.w
    {
      && Ats() == was[e.w := e.w.at] && (!Repeats(e.w, kind) ==> e.w.at == e.at - Elapsed(now, kind))
      && Valid()
      && e in active && e.at < now && e.w in mine && (forall x :: x in active ==> e.at <= x.at)
      && Active() == active - {e} + Rest(e, now, kind)
      && pq.pendings == if Repeats(e.w, kind) then q else Clear(q, e.w, pq.pendingW)
    }

    /** The heap holds the active ones, each at its own time. */
    lemma OnMeans()
      requires Valid()
      ensures forall w :: w in mine ==> (w.active > 0 <==> Anhe(w, w.at) in Active())
      ensures forall e :: e in Active() ==> e.w in mine && e.w.active > 0 && e.at == e.w.at
    {
      HeapOkMeans(timers[..], timercnt, mine);
      WsOf(timers[..], timercnt);
      hide Ordered;
    }

    lemma ActiveOnce()
      requires Valid()
      ensures OneEach(Active())
    {
    }

    lemma RootInScope()
      requires Valid() && timercnt > 0
      ensures timers[HEAP0].w in mine
    {
      RootFacts(timers[..], timercnt, mine);
    }

    lemma RootBounds()
      requires Valid() && (timercnt == 0 || timers[HEAP0].at >= now)
      ensures forall x :: x in Active() ==> now <= x.at
    {
      if timercnt > 0 { RootFacts(timers[..], timercnt, mine); }
    }

    /** What both reify functions establish: of the watchers active before, exactly those due are fed,
        once each and from the last to the first due; the repeating ones have gone on, the others
        are stopped; and nothing that is left is due. */
    ghost predicate Reified(active: set<Elem>, q: Queue, fed: seq<Elem>, kind: Kind, events: bv32)
      requires |q| == NUMPRI
      reads this`timers, this`timercnt, timers, this`now, pq`pendings, set e | e in fed :: e.w
    {
      && FiredOnce(fed, active, Active(), now, kind)
      && pq.pendings == FeedReverse(ClearStopped(q, fed, kind, pq.pendingW), WatchersOf(fed), events)
    }

    /** Within the loop of both reify functions. */
    ghost predicate SoFar(fed: seq<Elem>, a0: set<Elem>, at0: map<Watcher, real>, q0: Queue, kind: Kind)
      requires |q0| == NUMPRI
      reads this`timers, this`timercnt, timers, this`now, this`rfeeds, pq`pendings, pq`ws, pq.ws`pending, mine`active, mine`at
      reads set e | e in fed :: e.w
    {
      && Valid() && Active() == After(a0, Fired(fed), now, kind)
      && FedSoFar(fed, a0, Active(), now) && (forall e :: e in fed ==> e.w in mine)
      && at0.Keys == mine && Stilled(fed, at0, Ats(), now, kind)
      && pq.pendings == ClearStopped(q0, fed, kind, pq.pendingW) && rfeeds == WatchersOf(fed)
    }

    lemma Begun(kind: Kind)
      requires Valid() && rfeeds == []
      ensures OneEach(Active()) && SoFar([], Active(), Ats(), pq.pendings, kind)
    {
      hide HeapOk, Pendings.Valid, Elems, After, Repeats;
      ActiveOnce();
      NothingFed(Active(), now, kind);
      NothingStilled(Ats(), now, kind);
    }

    lemma Finished(fed: seq<Elem>, a0: set<Elem>, at0: map<Watcher, real>, q0: Queue, kind: Kind)
      requires |q0| == NUMPRI && OneEach(a0) && SoFar(fed, a0, at0, q0, kind)
      requires (timercnt == 0 || timers[HEAP0].at >= now) && forall w :: w in mine ==> Sound(w, kind, now)
      ensures Valid() && FiredOnce(fed, a0, Active(), now, kind) && rfeeds == WatchersOf(fed)
      ensures Own(fed, mine) && Stilled(fed, at0, Ats(), now, kind)
      ensures pq.pendings == ClearStopped(q0, fed, kind, pq.pendingW)
    {
      hide HeapOk, Pendings.Valid, Elems, After, FedSoFar, Sound, OneEach, Own, AllWentOn, Stilled, ClearStopped, DueOnce;
      RootBounds();
      AllDueFed(fed, a0, Active(), now, kind);
      FedIsOwn(fed, a0, now, mine);
      FedWentOn(fed, a0, now, kind);
    }

    /** The loop of both reify functions: while the root is due, it fires. */
    method FireDue(kind: Kind) returns (ghost fed: seq<Elem>)
      requires Valid() && rfeeds == [] && forall w :: w in mine ==> Sound(w, kind, now)
      modifies this`timercnt, this`activecnt, this`rfeeds, timers, mine`at, mine`active, pq`pendings, pq.ws`pending
      ensures Valid() && FiredOnce(fed, old(Active()), Active(), now, kind) && rfeeds == WatchersOf(fed)
      ensures Own(fed, mine) && Stilled(fed, old(Ats()), Ats(), now, kind)
      ensures pq.pendings == ClearStopped(old(pq.pendings), fed, kind, pq.pendingW)
    {
      hide HeapOk, Pendings.Valid, SoFar, Active, Ats, OneEach, FiredOnce, Own, Stilled, Sound, ClearStopped;
      fed := [];
      Begun(kind);
      ghost var a0, at0, q0 := Active(), Ats(), pq.pendings;
      while timercnt > 0 && timers[HEAP0].at < now
        invariant Valid() && SoFar(fed, a0, at0, q0, kind)
        decreases set x | x in Active() && x.at < now
      {
        fed := FireNext(kind, fed, a0, at0, q0);
      }
      Finished(fed, a0, at0, q0, kind);
    }

    /** One more in the list. */
    method FireNext(kind: Kind, ghost fed: seq<Elem>, ghost a0: set<Elem>, ghost at0: map<Watcher, real>, ghost q0: Queue)
      returns (ghost more: seq<Elem>)
      requires |q0| == NUMPRI && OneEach(a0) && SoFar(fed, a0, at0, q0, kind) && timercnt > 0 && timers[HEAP0].at < now
      requires forall w :: w in mine ==> Sound(w, kind, now)
      modifies this`timercnt, this`activecnt, this`rfeeds, timers, mine`at, mine`active, pq`pendings, pq.ws`pending
      ensures Valid() && timers == old(timers) && SoFar(more, a0, at0, q0, kind)
      ensures (set x | x in Active() && x.at < now) < old(set x | x in Active() && x.at < now)
    {
      hide Valid, Elems, Pendings.Valid, HeapOk, After, FedSoFar, Clear, Sound, Repeats, Rest, OneEach, Stilled, Elapsed;
      ghost var before, ats := Active(), Ats();
      RootInScope();
      ghost var e := Fire(kind);
      OneMore(fed, a0, before, e, now, kind, at0, ats, e.w.at);
      more := fed + [e];
    }

    /** One turn of that loop. */
    method Fire(kind: Kind) returns (ghost e: Elem)
      requires Valid() && timercnt > 0 && timers[HEAP0].at < now && timers[HEAP0].w in mine
      requires Sound(timers[HEAP0].w, kind, now)
      modifies this`timercnt, this`activecnt, this`rfeeds, timers, mine`at, mine`active, pq`pendings, pq.ws`pending
      ensures Fires(old(Active()), old(Ats()), e, old(pq.pendings), kind) && timers == old(timers) && rfeeds == old(rfeeds) + [e.w]
    {
      hide Valid, Sound, Fires, Active;
      match kind {
        case Timer => e := FireTimer();
        case Periodic => e := FirePeriodic();
      }
    }

    /** timers_reify. */
    method TimersReify() returns (ghost fed: seq<Elem>)
      requires Valid() && rfeeds == [] && forall w :: w in mine ==> Sound(w, Timer, now)
      modifies this`timercnt, this`activecnt, this`rfeeds, timers, mine`at, mine`active,
               pq`pendings, pq`pendingpri, pq.ws`pending
      ensures Valid() && rfeeds == [] && Reified(old(Active()), old(pq.pendings), fed, Timer, EV_TIMER)
      ensures Own(fed, mine) && Stilled(fed, old(Ats()), Ats(), now, Timer)
    {
      hide HeapOk, Pendings.Valid, Elems, ClearStopped, FiredOnce, Stilled, FeedReverse, Sound;
      fed := FireDue(Timer);
      FeedReverseDone(EV_TIMER);
    }

    /** periodics_reify, on the loop's periodic heap.  Its outer loop goes round at most once. */
    method PeriodicsReify() returns (ghost fed: seq<Elem>)
      requires Valid() && rfeeds == [] && forall w :: w in mine ==> Sound(w, Periodic, now)
      modifies this`timercnt, this`activecnt, this`rfeeds, timers, mine`at, mine`active,
               pq`pendings, pq`pendingpri, pq.ws`pending
      ensures Valid() && rfeeds == [] && Reified(old(Active()), old(pq.pendings), fed, Periodic, EV_PERIODIC)
      ensures Own(fed, mine) && Stilled(fed, old(Ats()), Ats(), now, Periodic)
    {
      hide HeapOk, Pendings.Valid, Elems, ClearStopped, FiredOnce, Stilled, FeedReverse, Sound;
      fed := FireDue(Periodic);
      FeedReverseDone(EV_PERIODIC);
    }
  }
}
