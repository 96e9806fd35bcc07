/**
When each timer and periodic is due, as callbacks change it: a watcher's time and whether it is active, without
heaps and indices.
*/
module Schedules {
  import opened HeapSpec
  import opened PendingSpec
  import opened PendingQueue
  import opened TimerHeap
  import opened Timers

  /** What a callback may do.  ev_periodic_again is a stop and a start. */
  datatype Deed =
    | Plain(a: Act)
    | StartTimer(w: Watcher) | StopTimer(w: Watcher) | AgainTimer(w: Watcher)
    | StartPeriodic(w: Watcher) | StopPeriodic(w: Watcher)

  /** Timers and periodics are those of their heaps. */
  predicate Doable(d: Deed, tm: set<Watcher>, pm: set<Watcher>, ws: set<Watcher>) {
    match d
    case Plain(a) => a.w in ws
    case StartTimer(w) => w in tm
    case StopTimer(w) => w in tm
    case AgainTimer(w) => w in tm
    case StartPeriodic(w) => w in pm
    case StopPeriodic(w) => w in pm
  }

  ghost predicate AllDoable(script: seq<seq<Deed>>, tm: set<Watcher>, pm: set<Watcher>, ws: set<Watcher>) {
    forall n, i :: 0 <= n < |script| && 0 <= i < |script[n]| ==> Doable(script[n][i], tm, pm, ws)
  }

  /** A watcher's time, and whether it is active; an inactive timer holds the time it has left. */
  datatype Clock = Clock(at: real, on: bool)

  type Schedule = map<Watcher, Clock>

  /** What no deed changes: the loop's time, the timers' periods, and where a periodic goes that is started now. */
  datatype Given = Given(now: real, repeat: map<Watcher, real>, start: map<Watcher, real>)

  /** What a deed does to the watcher it is about. */
  function Set(c: Clock, d: Deed, g: Given): Clock
    requires d.AgainTimer? ==> d.w in g.repeat
    requires d.StartPeriodic? ==> d.w in g.start
  {
    match d
    case Plain(_) => c
    case StartTimer(_) => if c.on then c else Clock(c.at + g.now, true)
    case StopTimer(_) => if c.on then Clock(c.at - g.now, false) else c
    case AgainTimer(w) =>
      if g.repeat[w] != 0.0 then Clock(g.now + g.repeat[w], true)
      else if c.on then Clock(c.at - g.now, false) else c
    case StartPeriodic(w) => if c.on then c else Clock(g.start[w], true)
    case StopPeriodic(_) => Clock(c.at, false)
  }

  predicate Covers(s: Schedule, g: Given) {
    s.Keys == g.repeat.Keys + g.start.Keys
  }

  function DoDeed(s: Schedule, d: Deed, g: Given): (s': Schedule)
    requires Covers(s, g) && (!d.Plain? ==> Doable(d, g.repeat.Keys, g.start.Keys, {}))
    ensures s'.Keys == s.Keys
  {
    if d.Plain? then s else s[d.w := Set(s[d.w], d, g)]
  }

  predicate Fit(ds: seq<Deed>, g: Given) {
    forall i :: 0 <= i < |ds| && !ds[i].Plain? ==> Doable(ds[i], g.repeat.Keys, g.start.Keys, {})
  }

  function DoDeeds(s: Schedule, ds: seq<Deed>, g: Given): (s': Schedule)
    requires Covers(s, g) && Fit(ds, g)
    ensures s'.Keys == s.Keys
    decreases ds
  {
    if ds == [] then s
    else
      assert forall i :: 0 <= i < |ds| - 1 ==> ds[1..][i] == ds[i + 1];
      DoDeeds(DoDeed(s, ds[0], g), ds[1..], g)
  }

  predicate AllFit(script: seq<seq<Deed>>, g: Given) {
    forall n :: 0 <= n < |script| ==> Fit(script[n], g)
  }

  /** The first n callbacks have run. */
  function DoCallbacks(s: Schedule, script: seq<seq<Deed>>, n: nat, g: Given): (s': Schedule)
    requires Covers(s, g) && AllFit(script, g)
    ensures s'.Keys == s.Keys
    decreases n
  {
    if n == 0 || script == [] then s
    else
      assert forall i :: 0 <= i < |script| - 1 ==> script[1..][i] == script[i + 1];
      DoCallbacks(DoDeeds(s, script[0], g), script[1..], n - 1, g)
  }

  /** Between s0 and s the first i of the deeds have been done. */
  ghost predicate Doing(s0: Schedule, s: Schedule, ds: seq<Deed>, i: nat, g: Given) {
    && Covers(s0, g) && Covers(s, g) && Fit(ds, g) && i <= |ds| && Fit(ds[i..], g)
    && DoDeeds(s, ds[i..], g) == DoDeeds(s0, ds, g)
  }

  lemma DoingNone(s: Schedule, ds: seq<Deed>, g: Given)
    requires Covers(s, g) && Fit(ds, g)
    ensures Doing(s, s, ds, 0, g)
  {
    assert ds[0..] == ds;
  }

  lemma DoingMore(s0: Schedule, s: Schedule, s': Schedule, ds: seq<Deed>, i: nat, g: Given)
    requires Doing(s0, s, ds, i, g) && i < |ds| && Fit([ds[i]], g) && s' == DoDeed(s, ds[i], g)
    ensures Doing(s0, s', ds, i + 1, g)
  {
    hide DoDeed;
    var left := ds[i..];
    assert left[1..] == ds[i + 1..] && left[0] == ds[i];
    assert forall k :: 0 <= k < |left| - 1 ==> left[1..][k] == left[k + 1];
  }

  lemma DoingAll(s0: Schedule, s: Schedule, ds: seq<Deed>, g: Given)
    requires Doing(s0, s, ds, |ds|, g)
    ensures s == DoDeeds(s0, ds, g)
  {
  }

  lemma DeedsFit(t: Loop, p: Loop, ds: seq<Deed>, ws: set<Watcher>)
    requires forall i :: 0 <= i < |ds| ==> Doable(ds[i], t.mine, p.mine, ws)
    ensures Covers(Now(t, p), Fixed(t, p)) && Fit(ds, Fixed(t, p))
  {
    FixedCovers(t, p);
    hide Fixed;
    forall i | 0 <= i < |ds| && !ds[i].Plain?
      ensures Doable(ds[i], Fixed(t, p).repeat.Keys, Fixed(t, p).start.Keys, {})
    {
      assert Doable(ds[i], t.mine, p.mine, ws);
    }
  }

  /** A callback that has run. */
  lemma RanOne(s0: Schedule, s: Schedule, script: seq<seq<Deed>>, g: Given)
    requires Covers(s0, g) && AllFit(script, g)
    requires if script == [] then s == s0 else s == DoDeeds(s0, script[0], g)
    ensures Ran(s0, s, script, if script == [] then [] else script[1..], 1, g)
  {
    hide DoDeeds;
    if script != [] {
      assert forall i :: 0 <= i < |script| - 1 ==> script[1..][i] == script[i + 1];
      assert DoCallbacks(DoDeeds(s0, script[0], g), script[1..], 0, g) == DoDeeds(s0, script[0], g);
    }
  }

  function Behind(script: seq<seq<Deed>>, n: nat): seq<seq<Deed>> { if n < |script| then script[n..] else [] }

  /** Between s0 and s the first n callbacks of the script have run, and `rest` is what is left of it. */
  ghost predicate Ran(s0: Schedule, s: Schedule, script: seq<seq<Deed>>, rest: seq<seq<Deed>>, n: nat, g: Given) {
    Covers(s0, g) && AllFit(script, g) && rest == Behind(script, n) && s == DoCallbacks(s0, script, n, g)
  }

  lemma {:induction false} RanMore(s0: Schedule, s1: Schedule, s2: Schedule, script: seq<seq<Deed>>,
        rest1: seq<seq<Deed>>, rest2: seq<seq<Deed>>, n: nat, m: nat, g: Given)
    requires Ran(s0, s1, script, rest1, n, g) && Ran(s1, s2, rest1, rest2, m, g)
    ensures Ran(s0, s2, script, rest2, n + m, g)
    decreases n
  {
    if n == 0 || script == [] {
      assert n > 0 ==> rest1 == [];
      assert n == 0 ==> rest1 == script;
    } else {
      assert forall i :: 0 <= i < |script| - 1 ==> script[1..][i] == script[i + 1];
      var s := DoDeeds(s0, script[0], g);
      RanMore(s, s1, s2, script[1..], rest1, rest2, n - 1, m, g);
    }
  }

  lemma RanRest(s0: Schedule, s: Schedule, script: seq<seq<Deed>>, rest: seq<seq<Deed>>, n: nat, g: Given)
    requires Ran(s0, s, script, rest, n, g)
    ensures Ran(s0, s, script, Behind(script, n), n, g)
  {
  }

  lemma RanNone(s: Schedule, script: seq<seq<Deed>>, g: Given)
    requires Covers(s, g) && AllFit(script, g)
    ensures Ran(s, s, script, script, 0, g)
  {
  }

  /** The elements of a heap that holds the active ones among ws. */
  function Elements(s: Schedule, ws: set<Watcher>): set<Elem> {
    set w | w in ws && w in s && s[w].on :: Anhe(w, s[w].at)
  }

  function AtsOf(s: Schedule, ws: set<Watcher>): map<Watcher, real> {
    map w | w in ws && w in s :: s[w].at
  }

  // ---------- The schedule of two heaps ----------

  ghost function Now(t: Loop, p: Loop): Schedule
    reads t.mine`at, t.mine`active, p.mine`at, p.mine`active
  {
    map w | w in t.mine + p.mine :: Clock(w.at, w.active > 0)
  }

  ghost function Fixed(t: Loop, p: Loop): Given
    reads t`now, p`now, t.mine`repeat, t.mine`interval, t.mine`reschedule, t.mine`offset
    reads p.mine`repeat, p.mine`interval, p.mine`reschedule, p.mine`offset
  {
    Given(t.now, map w | w in t.mine :: w.repeat, map w | w in p.mine :: Next(Anhe(w, w.offset), p.now, Periodic).at)
  }

  lemma FixedCovers(t: Loop, p: Loop)
    ensures Covers(Now(t, p), Fixed(t, p)) && Fixed(t, p).repeat.Keys == t.mine && Fixed(t, p).start.Keys == p.mine
    ensures Fixed(t, p).now == t.now && forall w :: w in t.mine ==> Fixed(t, p).repeat[w] == w.repeat
    ensures forall w :: w in p.mine ==> Fixed(t, p).start[w] == Next(Anhe(w, w.offset), p.now, Periodic).at
  {
    hide Next;
  }

  lemma AllFits(t: Loop, p: Loop, script: seq<seq<Deed>>, ws: set<Watcher>)
    requires AllDoable(script, t.mine, p.mine, ws)
    ensures AllFit(script, Fixed(t, p))
  {
    hide Fixed, Covers, Doable, Fit;
    forall n | 0 <= n < |script|
      ensures Fit(script[n], Fixed(t, p))
    {
      DeedsFit(t, p, script[n], ws);
    }
  }

  /** The heaps hold just what the schedule says. */
  lemma HeapsHold(t: Loop, p: Loop)
    requires t.Valid() && p.Valid() && t.mine !! p.mine
    ensures t.Active() == Elements(Now(t, p), t.mine) && p.Active() == Elements(Now(t, p), p.mine)
    ensures t.Ats() == AtsOf(Now(t, p), t.mine) && p.Ats() == AtsOf(Now(t, p), p.mine)
  {
    hide HeapOk, Pendings.Valid, Elems, Loop.Active;
    t.OnMeans();
    p.OnMeans();
  }

  lemma StartsMean(t: Loop, p: Loop)
    requires forall w :: w in p.mine ==> w.interval >= 0.0
    ensures forall w :: w in p.mine ==> StartTime(w, Fixed(t, p).start[w], p.now)
  {
    hide Next, StartTime;
    forall w | w in p.mine
      ensures StartTime(w, Fixed(t, p).start[w], p.now)
    {
      StartsAt(w, p.now);
    }
  }

  /** What a deed does to a timer. */
  method TimerDeed(t: Loop, d: Deed, ghost g: Given)
    requires t.Valid() && (d.StartTimer? || d.StopTimer? || d.AgainTimer?) && d.w in t.mine && d.w.repeat >= 0.0
    requires g.now == t.now && d.w in g.repeat && g.repeat[d.w] == d.w.repeat
    modifies t`timers, t`timercnt, t`activecnt, t.timers, t.mine`at, t.mine`active, t.pq`pendings, d.w`pending
    ensures t.Valid() && (t.timers == old(t.timers) || fresh(t.timers))
    ensures t.pq.pendings == if d.StartTimer? then old(t.pq.pendings) else Clear(old(t.pq.pendings), d.w, t.pq.pendingW)
    ensures Clock(d.w.at, d.w.active > 0) == Set(old(Clock(d.w.at, d.w.active > 0)), d, g)
    ensures forall v :: v in t.mine && v != d.w ==> v.at == old(v.at) && (v.active > 0 <==> old(v.active) > 0)
  {
    hide HeapOk, Pendings.Valid, Pendings.Collected, Clear, Elems, Loop.Active;
    t.OnMeans();
    match d {
      case StartTimer(w) => t.TimerStart(w);
      case StopTimer(w) => t.Stop(w, t.now);
      case AgainTimer(w) => t.TimerAgain(w);
    }
    t.OnMeans();
  }

  /** And to a periodic. */
  method PeriodicDeed(p: Loop, d: Deed, ghost g: Given)
    requires p.Valid() && (d.StartPeriodic? || d.StopPeriodic?) && d.w in p.mine && d.w.interval >= 0.0
    requires d.w in g.start && g.start[d.w] == Next(Anhe(d.w, d.w.offset), p.now, Periodic).at
    modifies p`timers, p`timercnt, p`activecnt, p.timers, p.mine`at, p.mine`active, p.pq`pendings, d.w`pending
    ensures p.Valid() && (p.timers == old(p.timers) || fresh(p.timers))
    ensures p.pq.pendings == if d.StartPeriodic? then old(p.pq.pendings) else Clear(old(p.pq.pendings), d.w, p.pq.pendingW)
    ensures Clock(d.w.at, d.w.active > 0) == Set(old(Clock(d.w.at, d.w.active > 0)), d, g)
    ensures forall v :: v in p.mine && v != d.w ==> v.at == old(v.at) && (v.active > 0 <==> old(v.active) > 0)
  {
    hide HeapOk, Pendings.Valid, Pendings.Collected, Clear, Elems, Loop.Active, Next;
    p.OnMeans();
    match d {
      case StartPeriodic(w) => p.PeriodicStart(w);
      case StopPeriodic(w) => p.Stop(w, 0.0);
    }
    p.OnMeans();
  }

  lemma OneChanges(s: Schedule, s': Schedule, d: Deed, g: Given)
    requires Covers(s, g) && !d.Plain? && Doable(d, g.repeat.Keys, g.start.Keys, {}) && s'.Keys == s.Keys
    requires forall v :: v in s && v != d.w ==> s'[v] == s[v]
    requires s'[d.w] == Set(s[d.w], d, g)
    ensures s' == DoDeed(s, d, g)
  {
    hide Set;
  }

  /** A deed about a timer, with the periodics beside it. */
  method DoTimer(t: Loop, p: Loop, d: Deed)
    requires t != p && t.pq == p.pq && t.timers != p.timers && t.mine !! p.mine && t.Valid() && p.Valid()
    requires (d.StartTimer? || d.StopTimer? || d.AgainTimer?) && d.w in t.mine && d.w.repeat >= 0.0
    modifies t`timers, t`timercnt, t`activecnt, t.timers, t.mine`at, t.mine`active
    modifies t.pq`pendings, t.pq.ws`pending
    ensures t.Valid() && p.Valid() && t.timers != p.timers
    ensures t.timers == old(t.timers) || fresh(t.timers)
    ensures t.pq.pendings == if d.StartTimer? then old(t.pq.pendings) else Clear(old(t.pq.pendings), d.w, t.pq.pendingW)
    ensures Covers(old(Now(t, p)), Fixed(t, p)) && Fit([d], Fixed(t, p))
    ensures Now(t, p) == DoDeed(old(Now(t, p)), d, Fixed(t, p))
  {
    hide HeapOk, Pendings.Valid, Clear, Elems, Next, Set, DoDeed, Fixed, Covers;
    FixedCovers(t, p);
    ghost var s := Now(t, p);
    TimerDeed(t, d, Fixed(t, p));
    OneChanges(s, Now(t, p), d, Fixed(t, p));
  }

  /** A deed about a periodic, with the timers beside it. */
  method DoPeriodic(t: Loop, p: Loop, d: Deed)
    requires t != p && t.pq == p.pq && t.timers != p.timers && t.mine !! p.mine && t.Valid() && p.Valid()
    requires (d.StartPeriodic? || d.StopPeriodic?) && d.w in p.mine && d.w.interval >= 0.0
    modifies p`timers, p`timercnt, p`activecnt, p.timers, p.mine`at, p.mine`active
    modifies t.pq`pendings, t.pq.ws`pending
    ensures t.Valid() && p.Valid() && t.timers != p.timers
    ensures p.timers == old(p.timers) || fresh(p.timers)
    ensures t.pq.pendings == if d.StartPeriodic? then old(t.pq.pendings) else Clear(old(t.pq.pendings), d.w, t.pq.pendingW)
    ensures Covers(old(Now(t, p)), Fixed(t, p)) && Fit([d], Fixed(t, p))
    ensures Now(t, p) == DoDeed(old(Now(t, p)), d, Fixed(t, p))
  {
    hide HeapOk, Pendings.Valid, Clear, Elems, Next, Set, DoDeed, Fixed, Covers;
    FixedCovers(t, p);
    ghost var s := Now(t, p);
    PeriodicDeed(p, d, Fixed(t, p));
    OneChanges(s, Now(t, p), d, Fixed(t, p));
  }
}
