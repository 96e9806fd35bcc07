/**
What is pending once timers and periodics have been reified: whatever was pending and is not stopped, and every
watcher that fired, with its event's bits.
*/
module DueEvents {
  import opened EventBits
  import opened PendingSpec
  import opened TimerHeap
  import opened Timers
  import opened TimerOrder

  predicate FiredIn(fed: seq<Elem>, w: Watcher) {
    exists i :: 0 <= i < |fed| && fed[i].w == w
  }

  /** w fired and does not repeat. */
  predicate StoppedIn(fed: seq<Elem>, w: Watcher, kind: Kind)
    reads w`repeat, w`interval, w`reschedule
  {
    FiredIn(fed, w) && match kind
      case Timer => w.repeat == 0.0
      case Periodic => w.reschedule == NoCallback && w.interval == 0.0
  }

  function FeedAll(m: Pend, ws: seq<Watcher>, events: bv32): Pend
    decreases ws
  {
    if ws == [] then m else FeedAll(FeedMap(m, ws[|ws| - 1], events), ws[..|ws| - 1], events)
  }

  lemma {:induction false} FeedReverseAgrees(q: Queue, m: Pend, ws: seq<Watcher>, events: bv32, dummy: Watcher)
    requires Agrees(q, m, dummy) && dummy !in ws
    ensures Agrees(FeedReverse(q, ws, events), FeedAll(m, ws, events), dummy)
    decreases ws
  {
    assert |q| == NUMPRI;
    hide Agrees, Feed, FeedMap;
    if ws != [] {
      var n := |ws| - 1;
      FeedAgrees(q, m, ws[n], events, dummy);
      FeedReverseAgrees(Feed(q, ws[n], events), FeedMap(m, ws[n], events), ws[..n], events, dummy);
    }
  }

  lemma {:induction false} FeedAllMeans(m: Pend, ws: seq<Watcher>, events: bv32, w: Watcher, mask: bv32)
    ensures var m' := FeedAll(m, ws, events);
      && (w in m' <==> w in m || w in ws)
      && (w in m' ==> (Has(m'[w], mask) <==> (w in m && Has(m[w], mask)) || (w in ws && Has(events, mask))))
    decreases ws
  {
    hide Or, Has;
    if ws != [] {
      var n := |ws| - 1;
      assert w in ws <==> w in ws[..n] || w == ws[n];
      if w == ws[n] && w in m { OrHas(m[w], events, mask); }
      FeedAllMeans(FeedMap(m, ws[n], events), ws[..n], events, w, mask);
    }
  }

  function ClearAll(m: Pend, fed: seq<Elem>, kind: Kind): Pend
    reads (set e | e in fed :: e.w)`repeat, (set e | e in fed :: e.w)`interval, (set e | e in fed :: e.w)`reschedule
    decreases fed
  {
    if fed == [] then m
    else
      var n := |fed| - 1;
      var before := ClearAll(m, fed[..n], kind);
      if Repeats(fed[n].w, kind) then before else before - {fed[n].w}
  }

  lemma {:induction false} ClearStoppedAgrees(q: Queue, m: Pend, fed: seq<Elem>, kind: Kind, dummy: Watcher)
    requires Agrees(q, m, dummy)
    ensures Agrees(ClearStopped(q, fed, kind, dummy), ClearAll(m, fed, kind), dummy)
    decreases fed
  {
    assert |q| == NUMPRI;
    hide Agrees, Clear, Repeats;
    if fed != [] {
      var n := |fed| - 1;
      ClearStoppedAgrees(q, m, fed[..n], kind, dummy);
      if !Repeats(fed[n].w, kind) {
        ClearAgrees(ClearStopped(q, fed[..n], kind, dummy), ClearAll(m, fed[..n], kind), fed[n].w, dummy);
      }
    }
  }

  lemma {:induction false} ClearAllMeans(m: Pend, fed: seq<Elem>, kind: Kind, w: Watcher)
    ensures var m' := ClearAll(m, fed, kind);
      && (w in m' <==> w in m && !StoppedIn(fed, w, kind))
      && (w in m' ==> m'[w] == m[w])
    decreases fed
  {
    if fed != [] {
      var n := |fed| - 1;
      ClearAllMeans(m, fed[..n], kind, w);
      assert FiredIn(fed, w) <==> FiredIn(fed[..n], w) || fed[n].w == w by {
        if FiredIn(fed[..n], w) {
          var i :| 0 <= i < n && fed[..n][i].w == w;
          assert fed[i].w == w;
        }
        if i :| 0 <= i < |fed| && fed[i].w == w {
          assert i < n ==> fed[..n][i].w == w;
        }
        assert fed[n].w == w ==> FiredIn(fed, w);
      }
      hide FiredIn;
    }
  }

  /** w was pending, and firing has not stopped it. */
  predicate Kept(was: Pend, ts: seq<Elem>, ps: seq<Elem>, w: Watcher)
    reads w`repeat, w`interval, w`reschedule
  {
    w in was && !StoppedIn(ts, w, Timer) && !StoppedIn(ps, w, Periodic)
  }

  predicate HasBit(was: Pend, ts: seq<Elem>, ps: seq<Elem>, w: Watcher, mask: bv32)
    reads w`repeat, w`interval, w`reschedule
  {
    || (Kept(was, ts, ps, w) && Has(was[w], mask))
    || (FiredIn(ts, w) && Has(EV_TIMER, mask))
    || (FiredIn(ps, w) && Has(EV_PERIODIC, mask))
  }

  /** Before the timers ts and the periodics ps fired, `was` was pending, and now `due` is. */
  ghost predicate DueIs(was: Pend, due: Pend, ts: seq<Elem>, ps: seq<Elem>)
    reads was.Keys`repeat, was.Keys`interval, was.Keys`reschedule, due.Keys`repeat, due.Keys`interval, due.Keys`reschedule
  {
    && (forall w :: w in due ==> Kept(was, ts, ps, w) || FiredIn(ts, w) || FiredIn(ps, w))
    && (forall w :: w in was && Kept(was, ts, ps, w) ==> w in due)
    && (forall i :: 0 <= i < |ts| ==> ts[i].w in due)
    && (forall i :: 0 <= i < |ps| ==> ps[i].w in due)
    && (forall w, mask :: w in due ==> (Has(due[w], mask) <==> HasBit(was, ts, ps, w, mask)))
  }

  lemma InWatchers(fed: seq<Elem>, w: Watcher)
    ensures w in WatchersOf(fed) <==> FiredIn(fed, w)
  {
    var ws := WatchersOf(fed);
    assert w in ws <==> exists i :: 0 <= i < |ws| && ws[i] == w;
    hide WatchersOf;
    assert forall i :: 0 <= i < |fed| ==> ws[i] == fed[i].w;
  }

  function AfterBoth(was: Pend, ts: seq<Elem>, ps: seq<Elem>): Pend
    reads (set e | e in ts :: e.w)`repeat, (set e | e in ts :: e.w)`interval, (set e | e in ts :: e.w)`reschedule
    reads (set e | e in ps :: e.w)`repeat, (set e | e in ps :: e.w)`interval, (set e | e in ps :: e.w)`reschedule
  {
    FeedAll(ClearAll(FeedAll(ClearAll(was, ts, Timer), WatchersOf(ts), EV_TIMER), ps, Periodic), WatchersOf(ps), EV_PERIODIC)
  }

  lemma AfterBothMeans(was: Pend, ts: seq<Elem>, ps: seq<Elem>, tm: set<Watcher>, pm: set<Watcher>, w: Watcher, mask: bv32)
    requires Own(ts, tm) && Own(ps, pm) && tm !! pm
    ensures var due := AfterBoth(was, ts, ps);
      && (w in due <==> Kept(was, ts, ps, w) || FiredIn(ts, w) || FiredIn(ps, w))
      && (w in due ==> (Has(due[w], mask) <==> HasBit(was, ts, ps, w, mask)))
  {
    assert FiredIn(ts, w) ==> w in tm;
    assert FiredIn(ps, w) ==> w in pm;
    InWatchers(ts, w);
    InWatchers(ps, w);
    hide Has, FiredIn, FeedAll, ClearAll, WatchersOf;
    var c := ClearAll(was, ts, Timer);
    var f := FeedAll(c, WatchersOf(ts), EV_TIMER);
    var c' := ClearAll(f, ps, Periodic);
    ClearAllMeans(was, ts, Timer, w);
    FeedAllMeans(c, WatchersOf(ts), EV_TIMER, w, mask);
    ClearAllMeans(f, ps, Periodic, w);
    FeedAllMeans(c', WatchersOf(ps), EV_PERIODIC, w, mask);
  }

  /** What the queue holds after both reify functions. */
  lemma ReifiedsMean(q: Queue, was: Pend, due: Pend, ts: seq<Elem>, ps: seq<Elem>, tm: set<Watcher>, pm: set<Watcher>, dummy: Watcher)
    requires Agrees(q, was, dummy) && Agrees(Reifieds(q, ts, ps, dummy), due, dummy)
    requires Own(ts, tm) && Own(ps, pm) && tm !! pm && dummy !in tm + pm
    ensures DueIs(was, due, ts, ps)
  {
    assert dummy !in WatchersOf(ts) && dummy !in WatchersOf(ps) by {
      InWatchers(ts, dummy);
      InWatchers(ps, dummy);
    }
    DueIsAfterBoth(q, was, due, ts, ps, dummy);
    hide DueIs, Agrees, AfterBoth;
    AfterBothIs(was, ts, ps, tm, pm);
  }

  lemma AfterBothIs(was: Pend, ts: seq<Elem>, ps: seq<Elem>, tm: set<Watcher>, pm: set<Watcher>)
    requires Own(ts, tm) && Own(ps, pm) && tm !! pm
    ensures DueIs(was, AfterBoth(was, ts, ps), ts, ps)
  {
    var due := AfterBoth(was, ts, ps);
    assert forall i :: 0 <= i < |ts| ==> FiredIn(ts, ts[i].w);
    assert forall i :: 0 <= i < |ps| ==> FiredIn(ps, ps[i].w);
    hide Has, HasBit, AfterBoth, Kept, FiredIn, Own;
    forall w | w in due
      ensures Kept(was, ts, ps, w) || FiredIn(ts, w) || FiredIn(ps, w)
    {
      AfterBothMeans(was, ts, ps, tm, pm, w, 0);
    }
    forall w | w in was && Kept(was, ts, ps, w)
      ensures w in due
    {
      AfterBothMeans(was, ts, ps, tm, pm, w, 0);
    }
    forall i | 0 <= i < |ts| ensures ts[i].w in due { AfterBothMeans(was, ts, ps, tm, pm, ts[i].w, 0); }
    forall i | 0 <= i < |ps| ensures ps[i].w in due { AfterBothMeans(was, ts, ps, tm, pm, ps[i].w, 0); }
    forall w, mask | w in due
      ensures Has(due[w], mask) <==> HasBit(was, ts, ps, w, mask)
    {
      AfterBothMeans(was, ts, ps, tm, pm, w, mask);
    }
  }

  lemma DueIsAfterBoth(q: Queue, was: Pend, due: Pend, ts: seq<Elem>, ps: seq<Elem>, dummy: Watcher)
    requires Agrees(q, was, dummy) && Agrees(Reifieds(q, ts, ps, dummy), due, dummy)
    requires dummy !in WatchersOf(ts) && dummy !in WatchersOf(ps)
    ensures due == AfterBoth(was, ts, ps)
  {
    assert |q| == NUMPRI;
    hide Agrees, ClearStopped, FeedReverse, ClearAll, FeedAll, WatchersOf;
    var q1, m1 := ClearStopped(q, ts, Timer, dummy), ClearAll(was, ts, Timer);
    ClearStoppedAgrees(q, was, ts, Timer, dummy);
    FeedReverseAgrees(q1, m1, WatchersOf(ts), EV_TIMER, dummy);
    var q2, m2 := FeedReverse(q1, WatchersOf(ts), EV_TIMER), FeedAll(m1, WatchersOf(ts), EV_TIMER);
    ClearStoppedAgrees(q2, m2, ps, Periodic, dummy);
    FeedReverseAgrees(ClearStopped(q2, ps, Periodic, dummy), ClearAll(m2, ps, Periodic), WatchersOf(ps), EV_PERIODIC, dummy);
    AgreesUnique(Reifieds(q, ts, ps, dummy), due, AfterBoth(was, ts, ps), dummy);
  }
}
