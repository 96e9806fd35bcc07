/**
Why timers run in the order in which they were due: timers_reify feeds the list it collects from its
end, and the pending stacks are emptied from theirs.  Callbacks may feed and clear as they like.
*/
module TimerOrder {
  import opened EventBits
  import opened PendingSpec
  import opened PendingQueue
  import opened TimerHeap
  import opened Timers

  // ---------- Where a watcher is in the queue ----------

  ghost predicate Absent(q: Queue, w: Watcher) {
    forall r, j :: 0 <= r < |q| && 0 <= j < |q[r]| ==> q[r][j].w != w
  }

  /** w has slot x of its row, and no other. */
  ghost predicate OnlyAt(q: Queue, w: Watcher, x: nat)
    requires |q| == NUMPRI
  {
    var p := AbsPri(w);
    && x < |q[p]| && q[p][x].w == w
    && forall r, j :: 0 <= r < NUMPRI && 0 <= j < |q[r]| && q[r][j].w == w ==> r == p && j == x
  }

  lemma FeedKeeps(q: Queue, v: Watcher, events: bv32, w: Watcher, x: nat)
    requires |q| == NUMPRI && OnlyAt(q, w, x)
    ensures OnlyAt(Feed(q, v, events), w, x)
  {
    hide Or, AbsPri;
    var row := q[AbsPri(v)];
    assert v == w ==> Find(row, v) == x;
  }

  lemma FeedAbsent(q: Queue, w: Watcher, events: bv32)
    requires |q| == NUMPRI && Absent(q, w)
    ensures OnlyAt(Feed(q, w, events), w, |q[AbsPri(w)]|)
  {
    hide Or, AbsPri;
    assert Find(q[AbsPri(w)], w) == |q[AbsPri(w)]|;
  }

  lemma FeedOther(q: Queue, v: Watcher, events: bv32, w: Watcher)
    requires |q| == NUMPRI && Absent(q, w) && v != w
    ensures Absent(Feed(q, v, events), w)
  {
    hide Or, AbsPri;
  }

  lemma ClearKeeps(q: Queue, v: Watcher, dummy: Watcher, w: Watcher, x: nat)
    requires |q| == NUMPRI && OnlyAt(q, w, x) && v != w && dummy != w
    ensures OnlyAt(Clear(q, v, dummy), w, x)
  {
    hide AbsPri;
  }

  lemma ClearAbsent(q: Queue, v: Watcher, dummy: Watcher, w: Watcher)
    requires |q| == NUMPRI && Absent(q, w) && dummy != w
    ensures Absent(Clear(q, v, dummy), w)
  {
    hide AbsPri;
  }

  lemma PopKeeps(q: Queue, p: nat, w: Watcher, x: nat)
    requires |q| == NUMPRI && OnlyAt(q, w, x) && p < NUMPRI && q[p] != [] && q[p][|q[p]| - 1].w != w
    ensures OnlyAt(Pop(q, p), w, x)
  {
    hide Total, AbsPri;
  }

  // ---------- Which of two watchers is called first ----------

  /** The acts leave w's slot alone: they do not clear it, nor touch the dummy. */
  predicate Spares(acts: seq<Act>, w: Watcher, dummy: Watcher) {
    forall i :: 0 <= i < |acts| ==> acts[i].w != dummy && (acts[i].ClearPending? ==> acts[i].w != w)
  }

  predicate SparesAll(script: seq<seq<Act>>, w: Watcher, dummy: Watcher) {
    forall n :: 0 <= n < |script| ==> Spares(script[n], w, dummy)
  }

  lemma {:induction false} DoAllKeeps(q: Queue, acts: seq<Act>, dummy: Watcher, w: Watcher, x: nat)
    requires |q| == NUMPRI && OnlyAt(q, w, x) && w != dummy && Spares(acts, w, dummy)
    ensures OnlyAt(DoAll(q, acts, dummy), w, x)
    decreases acts
  {
    hide OnlyAt, Feed, Clear;
    if acts != [] {
      match acts[0] {
        case FeedEvent(v, events) => FeedKeeps(q, v, events, w, x);
        case ClearPending(v) => ClearKeeps(q, v, dummy, w, x);
      }
      DoAllKeeps(Do(q, acts[0], dummy), acts[1..], dummy, w, x);
    }
  }

  lemma SparesHead(script: seq<seq<Act>>, w: Watcher, dummy: Watcher)
    requires SparesAll(script, w, dummy)
    ensures Spares(Head(script), w, dummy) && SparesAll(Tail(script), w, dummy)
  {
  }

  lemma PendingSomewhere(q: Queue, w: Watcher, x: nat)
    requires |q| == NUMPRI && OnlyAt(q, w, x)
    ensures !AllEmpty(q) && Top(q) >= AbsPri(w)
  {
    assert q[AbsPri(w)] != [];
  }

  /** One turn of draining the queue, after which w, if it is not the one called, has its slot still. */
  lemma TurnKeeps(q: Queue, script: seq<seq<Act>>, dummy: Watcher, w: Watcher, x: nat)
    requires |q| == NUMPRI && OnlyAt(q, w, x) && w != dummy && SparesAll(script, w, dummy)
    ensures !AllEmpty(q)
    ensures var p := Top(q);
      var e := q[p][|q[p]| - 1];
      && (e.w == dummy ==> OnlyAt(Pop(q, p), w, x))
      && (e.w != w ==> OnlyAt(DoAll(Pop(q, p), Head(script), dummy), w, x) && SparesAll(Tail(script), w, dummy))
  {
    PendingSomewhere(q, w, x);
    SparesHead(script, w, dummy);
    hide OnlyAt, AllEmpty, SparesAll;
    var p := Top(q);
    if q[p][|q[p]| - 1].w != w {
      PopKeeps(q, p, w, x);
      DoAllKeeps(Pop(q, p), Head(script), dummy, w, x);
    }
  }

  /** A pending watcher that no callback clears is called. */
  lemma {:induction false} PendingIsCalled(q: Queue, script: seq<seq<Act>>, dummy: Watcher, w: Watcher, x: nat) returns (k: nat)
    requires |q| == NUMPRI && OnlyAt(q, w, x) && w != dummy && SparesAll(script, w, dummy)
    ensures var calls := InvokeAll(q, script, dummy); k < |calls| && calls[k].w == w
    decreases |script|, Total(q)
  {
    hide OnlyAt, AllEmpty, SparesAll, Total;
    TurnKeeps(q, script, dummy, w, x);
    var p := Top(q);
    var e := q[p][|q[p]| - 1];
    if e.w == dummy {
      k := PendingIsCalled(Pop(q, p), script, dummy, w, x);
    } else if e.w == w {
      k := 0;
    } else {
      k := PendingIsCalled(DoAll(Pop(q, p), Head(script), dummy), Tail(script), dummy, w, x);
      k := k + 1;
    }
  }

  /** a has a higher priority than b, or sits above b on the same stack. */
  ghost predicate Over(q: Queue, a: Watcher, x: nat, b: Watcher, y: nat)
    requires |q| == NUMPRI
  {
    && OnlyAt(q, a, x) && OnlyAt(q, b, y)
    && (AbsPri(a) > AbsPri(b) || (AbsPri(a) == AbsPri(b) && x > y))
  }

  /** a is called, b is called after it, and b not before it. */
  ghost predicate RunsFirst(calls: seq<Call>, a: Watcher, b: Watcher) {
    exists j, k :: 0 <= j < k < |calls| && calls[j].w == a && calls[k].w == b && NotBefore(calls, b, j)
  }

  predicate NotBefore(calls: seq<Call>, b: Watcher, j: nat) {
    forall m :: 0 <= m < j && m < |calls| ==> calls[m].w != b
  }

  lemma OverIsNotLast(q: Queue, a: Watcher, x: nat, b: Watcher, y: nat)
    requires |q| == NUMPRI && Over(q, a, x, b, y) && !AllEmpty(q)
    ensures var p := Top(q); a != b && q[p][|q[p]| - 1].w != b
  {
    PendingSomewhere(q, a, x);
    hide AllEmpty;
  }

  lemma OverTurn(q: Queue, script: seq<seq<Act>>, dummy: Watcher, a: Watcher, x: nat, b: Watcher, y: nat)
    requires |q| == NUMPRI && Over(q, a, x, b, y) && a != dummy && b != dummy
    requires SparesAll(script, a, dummy) && SparesAll(script, b, dummy)
    ensures !AllEmpty(q)
    ensures var p := Top(q);
      var e := q[p][|q[p]| - 1];
      var after := DoAll(Pop(q, p), Head(script), dummy);
      && e.w != b
      && (e.w == dummy ==> Over(Pop(q, p), a, x, b, y))
      && OnlyAt(after, b, y)
      && (e.w != a ==> Over(after, a, x, b, y))
      && SparesAll(Tail(script), a, dummy) && SparesAll(Tail(script), b, dummy)
  {
    hide OnlyAt, AllEmpty, SparesAll, Total, AbsPri, InvokeAll;
    TurnKeeps(q, script, dummy, a, x);
    TurnKeeps(q, script, dummy, b, y);
    OverIsNotLast(q, a, x, b, y);
    SparesHead(script, a, dummy);
  }

  lemma InvokeTurn(q: Queue, script: seq<seq<Act>>, dummy: Watcher)
    requires |q| == NUMPRI && !AllEmpty(q)
    ensures var p := Top(q);
      var e, after := q[p][|q[p]| - 1], DoAll(Pop(q, p), Head(script), dummy);
      InvokeAll(q, script, dummy) ==
        if e.w == dummy then InvokeAll(Pop(q, p), script, dummy)
        else [Call(e.w, e.events)] + InvokeAll(after, Tail(script), dummy)
    ensures |Tail(script)| <= |script| && (Tail(script) == script ==> DoAll(Pop(q, Top(q)), Head(script), dummy) == Pop(q, Top(q)))
    ensures |Tail(script)| == |script| ==> Tail(script) == script
  {
  }

  lemma NotBeforeBehind(c: Call, calls: seq<Call>, b: Watcher, j: nat)
    requires c.w != b && NotBefore(calls, b, j)
    ensures NotBefore([c] + calls, b, j + 1)
  {
  }

  /** Whatever the callbacks feed, and whatever they clear of others: of two pending watchers the one that
      is over the other is called first. */
  lemma {:induction false} OverRunsFirst(q: Queue, script: seq<seq<Act>>, dummy: Watcher, a: Watcher, x: nat, b: Watcher, y: nat)
    returns (j: nat, k: nat)
    requires |q| == NUMPRI && Over(q, a, x, b, y) && a != dummy && b != dummy
    requires SparesAll(script, a, dummy) && SparesAll(script, b, dummy)
    ensures var calls := InvokeAll(q, script, dummy);
      j < k < |calls| && calls[j].w == a && calls[k].w == b && NotBefore(calls, b, j)
    decreases |script|, Total(q)
  {
    hide OnlyAt, AllEmpty, SparesAll, Total, Over, Pop, Top, Tail, DoAll, InvokeAll;
    OverTurn(q, script, dummy, a, x, b, y);
    InvokeTurn(q, script, dummy);
    var p := Top(q);
    var e := q[p][|q[p]| - 1];
    if e.w == dummy {
      j, k := OverRunsFirst(Pop(q, p), script, dummy, a, x, b, y);
    } else {
      var after := DoAll(Pop(q, p), Head(script), dummy);
      if e.w == a {
        k := PendingIsCalled(after, Tail(script), dummy, b, y);
        j, k := 0, k + 1;
      } else {
        j, k := OverRunsFirst(after, Tail(script), dummy, a, x, b, y);
        NotBeforeBehind(Call(e.w, e.events), InvokeAll(after, Tail(script), dummy), b, j);
        j, k := j + 1, k + 1;
      }
    }
  }

  // ---------- What the reify functions put there ----------

  lemma {:induction false} FeedReverseKeeps(q: Queue, ws: seq<Watcher>, events: bv32, w: Watcher, x: nat)
    requires |q| == NUMPRI && OnlyAt(q, w, x)
    ensures OnlyAt(FeedReverse(q, ws, events), w, x)
    decreases ws
  {
    hide OnlyAt, Feed;
    if ws != [] {
      FeedKeeps(q, ws[|ws| - 1], events, w, x);
      FeedReverseKeeps(Feed(q, ws[|ws| - 1], events), ws[..|ws| - 1], events, w, x);
    }
  }

  lemma {:induction false} FeedReverseAbsent(q: Queue, ws: seq<Watcher>, events: bv32, w: Watcher)
    requires |q| == NUMPRI && Absent(q, w) && w !in ws
    ensures Absent(FeedReverse(q, ws, events), w)
    decreases ws
  {
    hide Absent, Feed;
    if ws != [] {
      FeedOther(q, ws[|ws| - 1], events, w);
      FeedReverseAbsent(Feed(q, ws[|ws| - 1], events), ws[..|ws| - 1], events, w);
    }
  }

  ghost predicate Distinguished(ws: seq<Watcher>) {
    forall i, j :: 0 <= i < j < |ws| ==> ws[i] != ws[j]
  }

  /** A watcher of the list that was not pending ends up over every one that was, at its priority. */
  lemma {:induction false} FedIsOver(q: Queue, ws: seq<Watcher>, events: bv32, i: nat, b: Watcher, y: nat) returns (x: nat)
    requires |q| == NUMPRI && i < |ws| && Distinguished(ws) && Absent(q, ws[i]) && OnlyAt(q, b, y)
    requires AbsPri(ws[i]) == AbsPri(b)
    ensures Over(FeedReverse(q, ws, events), ws[i], x, b, y)
    decreases ws
  {
    hide Feed, Absent;
    var n := |ws| - 1;
    FeedKeeps(q, ws[n], events, b, y);
    var q' := Feed(q, ws[n], events);
    if i == n {
      x := |q[AbsPri(b)]|;
      FeedAbsent(q, ws[i], events);
      hide OnlyAt;
      FeedReverseKeeps(q', ws[..n], events, ws[i], x);
      FeedReverseKeeps(q', ws[..n], events, b, y);
    } else {
      hide OnlyAt;
      FeedOther(q, ws[n], events, ws[i]);
      x := FedIsOver(q', ws[..n], events, i, b, y);
    }
  }

  /** Of two watchers of the list that were not pending, the one in front ends up over the other. */
  lemma {:induction false} FedInOrder(q: Queue, ws: seq<Watcher>, events: bv32, i: nat, j: nat) returns (x: nat, y: nat)
    requires |q| == NUMPRI && i < j < |ws| && Distinguished(ws) && Absent(q, ws[i]) && Absent(q, ws[j])
    requires AbsPri(ws[i]) == AbsPri(ws[j])
    ensures Over(FeedReverse(q, ws, events), ws[i], x, ws[j], y)
    decreases ws
  {
    hide Feed, Absent, OnlyAt;
    var n := |ws| - 1;
    var q' := Feed(q, ws[n], events);
    FeedOther(q, ws[n], events, ws[i]);
    if j == n {
      y := |q[AbsPri(ws[j])]|;
      FeedAbsent(q, ws[j], events);
      x := FedIsOver(q', ws[..n], events, i, ws[j], y);
    } else {
      FeedOther(q, ws[n], events, ws[j]);
      x, y := FedInOrder(q', ws[..n], events, i, j);
    }
  }

  lemma {:induction false} ClearStoppedAbsent(q: Queue, fed: seq<Elem>, kind: Kind, dummy: Watcher, w: Watcher)
    requires |q| == NUMPRI && Absent(q, w) && w != dummy
    ensures Absent(ClearStopped(q, fed, kind, dummy), w)
    decreases fed
  {
    hide Absent, Clear, Repeats;
    if fed != [] {
      var n := |fed| - 1;
      ClearStoppedAbsent(q, fed[..n], kind, dummy, w);
      ClearAbsent(ClearStopped(q, fed[..n], kind, dummy), fed[n].w, dummy, w);
    }
  }

  lemma {:induction false} ClearStoppedKeeps(q: Queue, fed: seq<Elem>, kind: Kind, dummy: Watcher, w: Watcher, x: nat)
    requires |q| == NUMPRI && OnlyAt(q, w, x) && w != dummy && forall i :: 0 <= i < |fed| ==> fed[i].w != w
    ensures OnlyAt(ClearStopped(q, fed, kind, dummy), w, x)
    decreases fed
  {
    hide OnlyAt, Clear, Repeats;
    if fed != [] {
      var n := |fed| - 1;
      ClearStoppedKeeps(q, fed[..n], kind, dummy, w, x);
      ClearKeeps(ClearStopped(q, fed[..n], kind, dummy), fed[n].w, dummy, w, x);
    }
  }

  // ---------- The order of timers ----------

  /** Timers of one priority run in the order of the list they were fed from its end, and before whatever
      else was pending at that priority; none of them need have been free of pending events but the
      two that are compared, and callbacks may do what they like to all others. */
  lemma TimersRunInOrder(q: Queue, ws: seq<Watcher>, events: bv32, script: seq<seq<Act>>, dummy: Watcher, i: nat, b: Watcher)
    requires |q| == NUMPRI && i < |ws| && Distinguished(ws) && Absent(q, ws[i]) && AbsPri(ws[i]) == AbsPri(b)
    requires (exists j :: i < j < |ws| && ws[j] == b && Absent(q, b)) || (exists y: nat :: OnlyAt(q, b, y))
    requires ws[i] != dummy && b != dummy && SparesAll(script, ws[i], dummy) && SparesAll(script, b, dummy)
    ensures RunsFirst(InvokeAll(FeedReverse(q, ws, events), script, dummy), ws[i], b)
  {
    hide OnlyAt, Absent, SparesAll, InvokeAll, FeedReverse;
    var x, y;
    if j :| i < j < |ws| && ws[j] == b && Absent(q, b) {
      x, y := FedInOrder(q, ws, events, i, j);
    } else {
      y :| OnlyAt(q, b, y);
      x := FedIsOver(q, ws, events, i, b, y);
    }
    var k, l := OverRunsFirst(FeedReverse(q, ws, events), script, dummy, ws[i], x, b, y);
  }

  lemma WatchersDiffer(fed: seq<Elem>, mine: set<Watcher>)
    requires Own(fed, mine)
    ensures Distinguished(WatchersOf(fed)) && forall w :: w in WatchersOf(fed) ==> w in mine
  {
  }

  /** Of two timers of one priority that fired together, the one that was due earlier is called back
      earlier. */
  lemma EarlierDueRunsEarlier(q: Queue, fed: seq<Elem>, active: set<Elem>, now: real, mine: set<Watcher>, events: bv32,
        script: seq<seq<Act>>, dummy: Watcher, i: nat, j: nat)
    requires |q| == NUMPRI && DueOnce(fed, active, now) && Own(fed, mine) && i < j < |fed|
    requires AbsPri(fed[i].w) == AbsPri(fed[j].w) && Absent(q, fed[i].w) && Absent(q, fed[j].w)
    requires fed[i].w != dummy && fed[j].w != dummy
    requires SparesAll(script, fed[i].w, dummy) && SparesAll(script, fed[j].w, dummy)
    ensures fed[i].at <= fed[j].at
    ensures RunsFirst(InvokeAll(FeedReverse(q, WatchersOf(fed), events), script, dummy), fed[i].w, fed[j].w)
  {
    hide Absent, SparesAll, InvokeAll, FeedReverse, RunsFirst, Own, OnlyAt;
    WatchersDiffer(fed, mine);
    var ws := WatchersOf(fed);
    assert ws[i] == fed[i].w && ws[j] == fed[j].w;
    TimersRunInOrder(q, ws, events, script, dummy, i, ws[j]);
  }

  // ---------- One turn of the loop, with timers and periodics on one pending queue ----------

  /** A watcher of the list that was not pending gets a slot. */
  lemma {:induction false} FedHasSlot(q: Queue, ws: seq<Watcher>, events: bv32, i: nat) returns (x: nat)
    requires |q| == NUMPRI && i < |ws| && Distinguished(ws) && Absent(q, ws[i])
    ensures OnlyAt(FeedReverse(q, ws, events), ws[i], x)
    decreases ws
  {
    hide Feed, Absent, OnlyAt;
    var n := |ws| - 1;
    if i == n {
      x := |q[AbsPri(ws[i])]|;
      FeedAbsent(q, ws[i], events);
      FeedReverseKeeps(Feed(q, ws[n], events), ws[..n], events, ws[i], x);
    } else {
      FeedOther(q, ws[n], events, ws[i]);
      x := FedHasSlot(Feed(q, ws[n], events), ws[..n], events, i);
    }
  }

  /** w was not pending when the turn began. */
  ghost predicate Free(q: Queue, w: Watcher, dummy: Watcher)
    requires |q| == NUMPRI
  {
    Absent(q, w) && w != dummy
  }

  /** a and b have one priority, were not pending, and no callback clears them. */
  ghost predicate Comparable(q: Queue, script: seq<seq<Act>>, dummy: Watcher, a: Watcher, b: Watcher)
    requires |q| == NUMPRI
  {
    AbsPri(a) == AbsPri(b) && Free(q, a, dummy) && Free(q, b, dummy) && SparesAll(script, a, dummy) && SparesAll(script, b, dummy)
  }

  /** The queue after both reify functions. */
  ghost function Reifieds(q: Queue, ts: seq<Elem>, ps: seq<Elem>, dummy: Watcher): (q': Queue)
    requires |q| == NUMPRI
    reads (set e | e in ts :: e.w)`repeat, (set e | e in ts :: e.w)`interval, (set e | e in ts :: e.w)`reschedule
    reads (set e | e in ps :: e.w)`repeat, (set e | e in ps :: e.w)`interval, (set e | e in ps :: e.w)`reschedule
    ensures |q'| == NUMPRI
  {
    var q1 := FeedReverse(ClearStopped(q, ts, Timer, dummy), WatchersOf(ts), EV_TIMER);
    FeedReverse(ClearStopped(q1, ps, Periodic, dummy), WatchersOf(ps), EV_PERIODIC)
  }

  lemma TwoTimers(q: Queue, ts: seq<Elem>, ps: seq<Elem>, tm: set<Watcher>, pm: set<Watcher>, script: seq<seq<Act>>, dummy: Watcher,
        i: nat, j: nat)
    requires |q| == NUMPRI && Own(ts, tm) && Own(ps, pm) && tm !! pm && i < j < |ts|
    requires Comparable(q, script, dummy, ts[i].w, ts[j].w)
    ensures RunsFirst(InvokeAll(Reifieds(q, ts, ps, dummy), script, dummy), ts[i].w, ts[j].w)
  {
    WatchersDiffer(ts, tm);
    hide Absent, SparesAll, InvokeAll, FeedReverse, OnlyAt, ClearStopped, WatchersOf;
    var a, b := ts[i].w, ts[j].w;
    ClearStoppedAbsent(q, ts, Timer, dummy, a);
    ClearStoppedAbsent(q, ts, Timer, dummy, b);
    var c := ClearStopped(q, ts, Timer, dummy);
    var x, y := FedInOrder(c, WatchersOf(ts), EV_TIMER, i, j);
    var q1 := FeedReverse(c, WatchersOf(ts), EV_TIMER);
    ClearStoppedKeeps(q1, ps, Periodic, dummy, a, x);
    ClearStoppedKeeps(q1, ps, Periodic, dummy, b, y);
    var c1 := ClearStopped(q1, ps, Periodic, dummy);
    FeedReverseKeeps(c1, WatchersOf(ps), EV_PERIODIC, a, x);
    FeedReverseKeeps(c1, WatchersOf(ps), EV_PERIODIC, b, y);
    var k, l := OverRunsFirst(Reifieds(q, ts, ps, dummy), script, dummy, a, x, b, y);
  }

  lemma StillAbsent(q: Queue, ts: seq<Elem>, ps: seq<Elem>, tm: set<Watcher>, pm: set<Watcher>, dummy: Watcher, w: Watcher)
    requires |q| == NUMPRI && Own(ts, tm) && Own(ps, pm) && tm !! pm && w in pm && Free(q, w, dummy)
    ensures Absent(ClearStopped(FeedReverse(ClearStopped(q, ts, Timer, dummy), WatchersOf(ts), EV_TIMER), ps, Periodic, dummy), w)
  {
    WatchersDiffer(ts, tm);
    hide Absent, FeedReverse, ClearStopped, WatchersOf, Own;
    ClearStoppedAbsent(q, ts, Timer, dummy, w);
    FeedReverseAbsent(ClearStopped(q, ts, Timer, dummy), WatchersOf(ts), EV_TIMER, w);
    ClearStoppedAbsent(FeedReverse(ClearStopped(q, ts, Timer, dummy), WatchersOf(ts), EV_TIMER), ps, Periodic, dummy, w);
  }

  lemma TwoPeriodics(q: Queue, ts: seq<Elem>, ps: seq<Elem>, tm: set<Watcher>, pm: set<Watcher>, script: seq<seq<Act>>, dummy: Watcher,
        i: nat, j: nat)
    requires |q| == NUMPRI && Own(ts, tm) && Own(ps, pm) && tm !! pm && i < j < |ps|
    requires Comparable(q, script, dummy, ps[i].w, ps[j].w)
    ensures RunsFirst(InvokeAll(Reifieds(q, ts, ps, dummy), script, dummy), ps[i].w, ps[j].w)
  {
    WatchersDiffer(ps, pm);
    hide Absent, SparesAll, InvokeAll, FeedReverse, OnlyAt, ClearStopped, WatchersOf, RunsFirst;
    StillAbsent(q, ts, ps, tm, pm, dummy, ps[i].w);
    StillAbsent(q, ts, ps, tm, pm, dummy, ps[j].w);
    var c := ClearStopped(FeedReverse(ClearStopped(q, ts, Timer, dummy), WatchersOf(ts), EV_TIMER), ps, Periodic, dummy);
    TimersRunInOrder(c, WatchersOf(ps), EV_PERIODIC, script, dummy, i, ps[j].w);
  }

  /** "absolute timers called first". */
  lemma PeriodicBeforeTimer(q: Queue, ts: seq<Elem>, ps: seq<Elem>, tm: set<Watcher>, pm: set<Watcher>, script: seq<seq<Act>>,
        dummy: Watcher, i: nat, j: nat)
    requires |q| == NUMPRI && Own(ts, tm) && Own(ps, pm) && tm !! pm && i < |ps| && j < |ts|
    requires Comparable(q, script, dummy, ps[i].w, ts[j].w)
    ensures RunsFirst(InvokeAll(Reifieds(q, ts, ps, dummy), script, dummy), ps[i].w, ts[j].w)
  {
    WatchersDiffer(ps, pm);
    WatchersDiffer(ts, tm);
    hide Absent, SparesAll, InvokeAll, FeedReverse, OnlyAt, ClearStopped, WatchersOf, RunsFirst;
    var b := ts[j].w;
    StillAbsent(q, ts, ps, tm, pm, dummy, ps[i].w);
    ClearStoppedAbsent(q, ts, Timer, dummy, b);
    var y := FedHasSlot(ClearStopped(q, ts, Timer, dummy), WatchersOf(ts), EV_TIMER, j);
    var q1 := FeedReverse(ClearStopped(q, ts, Timer, dummy), WatchersOf(ts), EV_TIMER);
    ClearStoppedKeeps(q1, ps, Periodic, dummy, b, y);
    TimersRunInOrder(ClearStopped(q1, ps, Periodic, dummy), WatchersOf(ps), EV_PERIODIC, script, dummy, i, b);
  }

  /** The watchers that have nothing pending. */
  function Idle(ws: set<Watcher>): set<Watcher>
    reads ws`pending
  {
    set w | w in ws && w.pending == 0
  }

  predicate Uncleared(script: seq<seq<Act>>, w: Watcher) {
    forall n, i :: 0 <= n < |script| && 0 <= i < |script[n]| && script[n][i].ClearPending? ==> script[n][i].w != w
  }

  /** a and b have one priority, had nothing pending when the turn began, and no callback clears them. */
  predicate Compared(idle: set<Watcher>, script: seq<seq<Act>>, a: Watcher, b: Watcher) {
    AbsPri(a) == AbsPri(b) && a in idle && b in idle && Uncleared(script, a) && Uncleared(script, b)
  }

  /** Timers that can be compared are called in the order in which they were due, periodics too, and periodics
      before timers. */
  ghost predicate InOrder(calls: seq<Call>, idle: set<Watcher>, ts: seq<Elem>, ps: seq<Elem>, script: seq<seq<Act>>) {
    && (forall i, j :: 0 <= i < j < |ts| && Compared(idle, script, ts[i].w, ts[j].w) ==> RunsFirst(calls, ts[i].w, ts[j].w))
    && (forall i, j :: 0 <= i < j < |ps| && Compared(idle, script, ps[i].w, ps[j].w) ==> RunsFirst(calls, ps[i].w, ps[j].w))
    && (forall i, j :: 0 <= i < |ps| && 0 <= j < |ts| && Compared(idle, script, ps[i].w, ts[j].w) ==>
          RunsFirst(calls, ps[i].w, ts[j].w))
  }

  ghost predicate AllFree(q: Queue, idle: set<Watcher>, dummy: Watcher)
    requires |q| == NUMPRI
  {
    forall w :: w in idle ==> Free(q, w, dummy)
  }

  lemma ComparedIsComparable(q: Queue, idle: set<Watcher>, script: seq<seq<Act>>, dummy: Watcher, a: Watcher, b: Watcher)
    requires |q| == NUMPRI && AllFree(q, idle, dummy) && Compared(idle, script, a, b)
    requires forall n :: 0 <= n < |script| ==> !Touches(script[n], dummy)
    ensures Comparable(q, script, dummy, a, b)
  {
    hide Free, AbsPri;
  }

  lemma OrderOfCalls(q: Queue, idle: set<Watcher>, ts: seq<Elem>, ps: seq<Elem>, tm: set<Watcher>, pm: set<Watcher>,
        script: seq<seq<Act>>, dummy: Watcher)
    requires |q| == NUMPRI && Own(ts, tm) && Own(ps, pm) && tm !! pm && AllFree(q, idle, dummy)
    requires forall n :: 0 <= n < |script| ==> !Touches(script[n], dummy)
    ensures InOrder(InvokeAll(Reifieds(q, ts, ps, dummy), script, dummy), idle, ts, ps, script)
  {
    hide Own, Comparable, Compared, RunsFirst, Reifieds, InvokeAll, AllFree, Touches;
    var calls := InvokeAll(Reifieds(q, ts, ps, dummy), script, dummy);
    forall i, j | 0 <= i < j < |ts| && Compared(idle, script, ts[i].w, ts[j].w)
      ensures RunsFirst(calls, ts[i].w, ts[j].w)
    {
      ComparedIsComparable(q, idle, script, dummy, ts[i].w, ts[j].w);
      TwoTimers(q, ts, ps, tm, pm, script, dummy, i, j);
    }
    forall i, j | 0 <= i < j < |ps| && Compared(idle, script, ps[i].w, ps[j].w)
      ensures RunsFirst(calls, ps[i].w, ps[j].w)
    {
      ComparedIsComparable(q, idle, script, dummy, ps[i].w, ps[j].w);
      TwoPeriodics(q, ts, ps, tm, pm, script, dummy, i, j);
    }
    forall i, j | 0 <= i < |ps| && 0 <= j < |ts| && Compared(idle, script, ps[i].w, ts[j].w)
      ensures RunsFirst(calls, ps[i].w, ts[j].w)
    {
      ComparedIsComparable(q, idle, script, dummy, ps[i].w, ts[j].w);
      PeriodicBeforeTimer(q, ts, ps, tm, pm, script, dummy, i, j);
    }
  }

  /** A watcher whose slot number is zero is nowhere in the queue. */
  lemma IdleIsFree(pq: Pendings, ws: set<Watcher>)
    requires pq.Valid() && ws <= pq.ws
    ensures AllFree(pq.pendings, Idle(ws), pq.pendingW)
  {
    forall w | w in Idle(ws)
      ensures Free(pq.pendings, w, pq.pendingW)
    {
      pq.PendingPlace(w);
    }
  }

  /** timers_reify and periodics_reify in a turn of ev_run: relative timers are fed, then absolute ones.  The
      two heaps share the pending queue, and each leaves the other in order. */
  method ReifyBoth(t: Loop, p: Loop) returns (ghost ts: seq<Elem>, ghost ps: seq<Elem>)
    requires t != p && t.pq == p.pq && t.timers != p.timers && t.mine !! p.mine
    requires t.Valid() && p.Valid() && t.rfeeds == [] && p.rfeeds == []
    requires forall w :: w in t.mine ==> Sound(w, Timer, t.now)
    requires forall w :: w in p.mine ==> Sound(w, Periodic, p.now)
    modifies t`timercnt, t`activecnt, t`rfeeds, t.timers, t.mine`at, t.mine`active
    modifies p`timercnt, p`activecnt, p`rfeeds, p.timers, p.mine`at, p.mine`active
    modifies t.pq`pendings, t.pq`pendingpri, t.pq.ws`pending
    ensures t.Valid() && p.Valid() && Own(ts, t.mine) && Own(ps, p.mine)
    ensures FiredOnce(ts, old(t.Active()), t.Active(), t.now, Timer)
    ensures FiredOnce(ps, old(p.Active()), p.Active(), p.now, Periodic)
    ensures Stilled(ts, old(t.Ats()), t.Ats(), t.now, Timer) && Stilled(ps, old(p.Ats()), p.Ats(), p.now, Periodic)
    ensures t.rfeeds == [] && p.rfeeds == []
    ensures t.pq.pendings == Reifieds(old(t.pq.pendings), ts, ps, t.pq.pendingW)
  {
    hide HeapOk, Pendings.Valid, Elems, FiredOnce, ClearStopped, FeedReverse, Own, Sound, Stilled;
    ts := t.TimersReify();
    ps := p.PeriodicsReify();
  }

  lemma PqFacts(t: Loop, p: Loop)
    requires t.Valid() && p.Valid() && t.pq == p.pq
    ensures t.pq.Valid() && t.mine <= t.pq.ws && p.mine <= t.pq.ws && t.pq.pendingW !in t.pq.ws
  {
  }

  /** The timers' part of a turn of ev_run, with the queue drained at its end. */
  method ReifyAndInvoke(t: Loop, p: Loop, script: seq<seq<Act>>)
    returns (calls: seq<Call>, ghost ts: seq<Elem>, ghost ps: seq<Elem>)
    requires t != p && t.pq == p.pq && t.timers != p.timers && t.mine !! p.mine
    requires t.Valid() && p.Valid() && t.rfeeds == [] && p.rfeeds == [] && InScope(script, t.pq.ws)
    requires forall w :: w in t.mine ==> Sound(w, Timer, t.now)
    requires forall w :: w in p.mine ==> Sound(w, Periodic, p.now)
    modifies t`timercnt, t`activecnt, t`rfeeds, t.timers, t.mine`at, t.mine`active
    modifies p`timercnt, p`activecnt, p`rfeeds, p.timers, p.mine`at, p.mine`active
    modifies t.pq`pendings, t.pq`pendingpri, t.pq.ws`pending
    ensures t.Valid() && p.Valid() && AllEmpty(t.pq.pendings)
    ensures FiredOnce(ts, old(t.Active()), t.Active(), t.now, Timer)
    ensures FiredOnce(ps, old(p.Active()), p.Active(), p.now, Periodic)
    ensures var q, dummy := old(t.pq.pendings), t.pq.pendingW;
      calls == InvokeAll(Reifieds(q, ts, ps, dummy), script, dummy)
    ensures InOrder(calls, old(Idle(t.mine + p.mine)), ts, ps, script)
  {
    hide Loop.Active, HeapOk, Pendings.Valid, Pendings.Collected, Replays, CallsCarry, Reifieds, FiredOnce,
      ClearStopped, FeedReverse, Own, InOrder, InScope, Sound, InvokeAll, Idle, AllFree, Touches;
    ghost var q, idle, dummy := t.pq.pendings, Idle(t.mine + p.mine), t.pq.pendingW;
    PqFacts(t, p);
    IdleIsFree(t.pq, t.mine + p.mine);
    t.pq.NoneTouch(script);
    ts, ps := ReifyBoth(t, p);
    PqFacts(t, p);
    calls := t.pq.InvokePending(script);
    OrderOfCalls(q, idle, ts, ps, t.mine, p.mine, script, dummy);
  }
}
