/**
Timers over many turns of the loop: a repeating timer that is left alone does not drift.
*/
module TimerRuns {
  import opened HeapSpec
  import opened PendingSpec
  import opened PendingQueue
  import opened TimerHeap
  import opened Timers
  import opened TimerOrder
  import opened DueEvents
  import opened Schedules
  import opened LoopTurn

  /** The loop's two clocks when a turn begins. */
  datatype Tick = Tick(mono: real, wall: real)

  /** No turn comes more than a period behind the one before it, nor the first behind the time of the timer. */
  predicate NeverLate(ticks: seq<Tick>, start: real, repeat: real) {
    && (|ticks| > 0 ==> ticks[0].mono <= start + repeat)
    && (forall i :: 0 < i < |ticks| ==> ticks[i].mono <= ticks[i - 1].mono + repeat)
  }

  /** No callback does anything about w. */
  predicate LeftAlone(script: seq<seq<Deed>>, w: Watcher) {
    forall n, i :: 0 <= n < |script| && 0 <= i < |script[n]| ==> About(script[n][i]) != w
  }

  function About(d: Deed): Watcher { if d.Plain? then d.a.w else d.w }

  function Count(calls: seq<Call>, w: Watcher): nat {
    if calls == [] then 0 else (if calls[0].w == w then 1 else 0) + Count(calls[1..], w)
  }

  lemma {:induction false} CountConcat(a: seq<Call>, b: seq<Call>, w: Watcher)
    ensures Count(a + b, w) == Count(a, w) + Count(b, w)
  {
    if a == [] {
      assert a + b == b;
    } else {
      assert (a + b)[1..] == a[1..] + b;
      CountConcat(a[1..], b, w);
    }
  }

  // ---------- What one turn does to a timer that is left alone ----------

  predicate Unnamed(acts: seq<Act>, w: Watcher) {
    forall i :: 0 <= i < |acts| ==> acts[i].w != w
  }

  lemma {:induction false} EffectsUnnamed(ds: seq<Deed>, w: Watcher)
    requires forall i :: 0 <= i < |ds| ==> About(ds[i]) != w
    ensures Unnamed(Effects(ds), w)
  {
    if ds != [] {
      assert About(ds[0]) != w;
      EffectsUnnamed(ds[1..], w);
    }
  }

  lemma {:induction false} UnnamedKeeps(m: Pend, acts: seq<Act>, w: Watcher)
    requires Unnamed(acts, w)
    ensures w in DoAllMap(m, acts) <==> w in m
    decreases acts
  {
    if acts != [] {
      assert acts[0].w != w;
      assert forall i :: 0 <= i < |acts| - 1 ==> acts[1..][i] == acts[i + 1];
      UnnamedKeeps(DoMap(m, acts[0]), acts[1..], w);
    }
  }

  /** A watcher no callback names is called once if it is pending, and else not at all. */
  lemma {:induction false} CalledOnce(m: Pend, calls: seq<Call>, script: seq<seq<Act>>, w: Watcher)
    requires Replays(m, calls, script) && forall n :: 0 <= n < |script| ==> Unnamed(script[n], w)
    ensures Count(calls, w) == if w in m then 1 else 0
    decreases calls
  {
    if calls != [] {
      assert Unnamed([], w);
      hide Unnamed;
      UnnamedKeeps(m - {calls[0].w}, Head(script), w);
      assert forall n :: 0 <= n < |Tail(script)| ==> Tail(script)[n] == script[n + 1];
      CalledOnce(DoAllMap(m - {calls[0].w}, Head(script)), calls[1..], Tail(script), w);
    }
  }

  lemma TurnCalls(was: Pend, due: Pend, ts: seq<Elem>, ps: seq<Elem>, calls: seq<Call>,
        script: seq<seq<Deed>>, w: Watcher)
    requires DueIs(was, due, ts, ps) && w !in was && !FiredIn(ps, w)
    requires Replays(due, calls, ScriptEffects(script)) && LeftAlone(script, w)
    ensures Count(calls, w) == if FiredIn(ts, w) then 1 else 0
  {
    hide Replays, Count;
    forall n | 0 <= n < |script|
      ensures Unnamed(ScriptEffects(script)[n], w)
    {
      EffectsUnnamed(script[n], w);
    }
    CalledOnce(due, calls, ScriptEffects(script), w);
  }

  lemma {:induction false} DeedsLeave(s: Schedule, ds: seq<Deed>, g: Given, w: Watcher)
    requires Covers(s, g) && Fit(ds, g) && w in s && forall i :: 0 <= i < |ds| ==> About(ds[i]) != w
    ensures DoDeeds(s, ds, g)[w] == s[w]
    decreases ds
  {
    hide Set;
    if ds != [] {
      assert About(ds[0]) != w;
      assert forall i :: 0 <= i < |ds| - 1 ==> ds[1..][i] == ds[i + 1];
      DeedsLeave(DoDeed(s, ds[0], g), ds[1..], g, w);
    }
  }

  lemma {:induction false} CallbacksLeave(s: Schedule, script: seq<seq<Deed>>, n: nat, g: Given, w: Watcher)
    requires Covers(s, g) && AllFit(script, g) && w in s && LeftAlone(script, w)
    ensures DoCallbacks(s, script, n, g)[w] == s[w]
    decreases n
  {
    hide DoDeeds, Fit;
    if n > 0 && script != [] {
      DeedsLeave(s, script[0], g, w);
      assert forall i :: 0 <= i < |script| - 1 ==> script[1..][i] == script[i + 1];
      CallbacksLeave(DoDeeds(s, script[0], g), script[1..], n - 1, g, w);
    }
  }

  /** A timer that is at most a period late fires if it is due, and is then due one period later. */
  lemma FiresOnTime(ts: seq<Elem>, s: Schedule, mid: Schedule, tm: set<Watcher>, now: real, w: Watcher)
    requires Reified(ts, s, mid, tm, now, Timer) && OneEach(Elements(s, tm)) && w in tm && w in s && s[w].on && w.repeat > 0.0
    requires now <= s[w].at + w.repeat
    ensures FiredIn(ts, w) <==> s[w].at < now
    ensures w in mid && mid[w] == Clock(if s[w].at < now then s[w].at + w.repeat else s[w].at, true) && now <= mid[w].at
  {
    var e := Anhe(w, s[w].at);
    assert e in Elements(s, tm);
    hide After, Stilled;
    if e.at < now {
      assert e in Fired(ts);
      var i :| 0 <= i < |ts| && ts[i] == e;
      assert WentOn(ts[i], Elements(mid, tm), now, Timer);
    }
    if FiredIn(ts, w) {
      var i :| 0 <= i < |ts| && ts[i].w == w;
      assert ts[i] in Fired(ts);
    }
  }

  lemma NotAmong(ps: seq<Elem>, s: Schedule, mid: Schedule, pm: set<Watcher>, now: real, w: Watcher)
    requires Reified(ps, s, mid, pm, now, Periodic) && w !in pm
    ensures !FiredIn(ps, w)
  {
    hide After, Stilled, AllWentOn;
    forall i | 0 <= i < |ps|
      ensures ps[i].w in pm
    {
      assert ps[i] in Fired(ps);
    }
  }

  lemma OneElementEach(s: Schedule, ws: set<Watcher>)
    ensures OneEach(Elements(s, ws))
  {
  }

  /** What a turn does to a timer that is left alone: s, mid and s' are the schedules before it, when the queue begins
      to be drained, and after it. */
  lemma TurnOnTime(t: Loop, p: Loop, s: Schedule, mid: Schedule, s': Schedule, ts: seq<Elem>, ps: seq<Elem>, was: Pend, due: Pend,
        calls: seq<Call>, script: seq<seq<Deed>>, n: nat, g: Given, w: Watcher)
    requires Reified(ts, s, mid, t.mine, t.now, Timer) && Reified(ps, s, mid, p.mine, p.now, Periodic)
    requires DueIs(was, due, ts, ps) && Replays(due, calls, ScriptEffects(script)) && LeftAlone(script, w)
    requires Ran(mid, s', script, Behind(script, n), n, g)
    requires w in t.mine && w !in p.mine && w in s && s[w].on && w.repeat > 0.0 && w !in was && t.now <= s[w].at + w.repeat
    ensures Count(calls, w) == if s[w].at < t.now then 1 else 0
    ensures w in s' && s'[w] == Clock(if s[w].at < t.now then s[w].at + w.repeat else s[w].at, true) && t.now <= s'[w].at
  {
    hide Reified, DueIs, Replays, LeftAlone, Covers, AllFit, Count, FiredIn, DoCallbacks, OneEach, ScriptEffects;
    OneElementEach(s, t.mine);
    FiresOnTime(ts, s, mid, t.mine, t.now, w);
    NotAmong(ps, s, mid, p.mine, p.now, w);
    TurnCalls(was, due, ts, ps, calls, script, w);
    CallbacksLeave(mid, script, n, g, w);
  }

  /** A turn of the loop at a tick, for a repeating timer that is left alone. */
  method TurnAt(t: Loop, p: Loop, tick: Tick, script: seq<seq<Deed>>, ghost w: Watcher) returns (calls: seq<Call>)
    requires t != p && t.pq == p.pq && t.timers != p.timers && t.mine !! p.mine && t.Valid() && p.Valid()
    requires t.rfeeds == [] && p.rfeeds == []
    requires AllDoable(script, t.mine, p.mine, t.pq.ws) && LeftAlone(script, w)
    requires forall v :: v in t.mine ==> Timers.Sound(v, Timer, tick.mono)
    requires forall v :: v in p.mine ==> Timers.Sound(v, Periodic, tick.wall)
    requires w in t.mine && w.active > 0 && w.repeat > 0.0 && w.pending == 0 && tick.mono <= w.at + w.repeat
    modifies t`timers, t`timercnt, t`activecnt, t`rfeeds, t`now, t.timers, t.mine`at, t.mine`active
    modifies p`timers, p`timercnt, p`activecnt, p`rfeeds, p`now, p.timers, p.mine`at, p.mine`active
    modifies t.pq`pendings, t.pq`pendingpri, t.pq.ws`pending
    ensures t.Valid() && p.Valid() && t.timers != p.timers && t.rfeeds == [] && p.rfeeds == []
    ensures (t.timers == old(t.timers) || fresh(t.timers)) && (p.timers == old(p.timers) || fresh(p.timers))
    ensures w.active > 0 && w.pending == 0 && tick.mono <= w.at
    ensures Count(calls, w) == if old(w.at) < tick.mono then 1 else 0
    ensures w.at == if old(w.at) < tick.mono then old(w.at) + w.repeat else old(w.at)
  {
    hide Loop.Valid, Pendings.Valid, AllDoable, LeftAlone, Reified, Ran, DueIs, InOrder, CallsCarry, StoppedStayQuiet, Replays, Count, Idle,
      Pendings.Collected, Fixed, Agrees, ScriptEffects, Behind;
    PqFacts(t, p);
    t.now := tick.mono;
    p.now := tick.wall;
    ghost var s, was := Now(t, p), t.pq.Collected();
    ghost var ts, ps, due, mid;
    calls, ts, ps, due, mid := Turn(t, p, script);
    TurnOnTime(t, p, s, mid, Now(t, p), ts, ps, was, due, calls, script, |calls|, Fixed(t, p), w);
    PqFacts(t, p);
    t.pq.NothingPending();
  }

  /** One of the ticks is behind x. */
  ghost predicate Passed(ticks: seq<Tick>, x: real) {
    exists i :: 0 <= i < |ticks| && x < ticks[i].mono
  }

  lemma OneMorePeriod(start: real, repeat: real, k: nat, c: nat)
    requires c <= 1
    ensures start + (k + c) as real * repeat == start + k as real * repeat + (if c == 1 then repeat else 0.0)
  {
  }

  lemma PassedMore(ticks: seq<Tick>, i: nat, x: real)
    requires i < |ticks|
    ensures Passed(ticks[..i], x) || x < ticks[i].mono ==> Passed(ticks[..i + 1], x)
  {
    assert ticks[..i + 1][i] == ticks[i];
    if Passed(ticks[..i], x) {
      var j :| 0 <= j < i && x < ticks[..i][j].mono;
      assert ticks[..i + 1][j] == ticks[..i][j];
    }
  }

  lemma OneMoreTurn(ticks: seq<Tick>, start: real, repeat: real, i: nat, at: real, calls: seq<Call>, more: seq<Call>, w: Watcher)
    requires i < |ticks| && at == start + Count(calls, w) as real * repeat
    requires Count(calls, w) > 0 ==> Passed(ticks[..i], at - repeat)
    requires Count(more, w) == if at < ticks[i].mono then 1 else 0
    ensures var at' := if at < ticks[i].mono then at + repeat else at;
      && at' == start + Count(calls + more, w) as real * repeat
      && (Count(calls + more, w) > 0 ==> Passed(ticks[..i + 1], at' - repeat))
  {
    hide Count, Passed;
    CountConcat(calls, more, w);
    OneMorePeriod(start, repeat, Count(calls, w), Count(more, w));
    PassedMore(ticks, i, at - repeat);
    PassedMore(ticks, i, at);
  }

  /** Any number of turns of the loop, none of them late by a period: however often the timer has been called, it is due
      that many periods after the time it was started for, not before the last tick; and its last call was due. */
  method Turns(t: Loop, p: Loop, ticks: seq<Tick>, scripts: seq<seq<seq<Deed>>>, ghost w: Watcher) returns (calls: seq<Call>)
    requires t != p && t.pq == p.pq && t.timers != p.timers && t.mine !! p.mine && t.Valid() && p.Valid()
    requires t.rfeeds == [] && p.rfeeds == []
    requires |scripts| == |ticks| && forall i :: 0 <= i < |ticks| ==>
      AllDoable(scripts[i], t.mine, p.mine, t.pq.ws) && LeftAlone(scripts[i], w)
    requires forall v :: v in t.mine ==> v.repeat >= 0.0
    requires forall v, i :: v in p.mine && 0 <= i < |ticks| ==> Timers.Sound(v, Periodic, ticks[i].wall)
    requires w in t.mine && w.active > 0 && w.repeat > 0.0 && w.pending == 0 && NeverLate(ticks, w.at, w.repeat)
    modifies t`timers, t`timercnt, t`activecnt, t`rfeeds, t`now, t.timers, t.mine`at, t.mine`active
    modifies p`timers, p`timercnt, p`activecnt, p`rfeeds, p`now, p.timers, p.mine`at, p.mine`active
    modifies t.pq`pendings, t.pq`pendingpri, t.pq.ws`pending
    ensures t.Valid() && p.Valid() && t.timers != p.timers && t.rfeeds == [] && p.rfeeds == []
    ensures (t.timers == old(t.timers) || fresh(t.timers)) && (p.timers == old(p.timers) || fresh(p.timers))
    ensures w.active > 0 && w.at == old(w.at) + Count(calls, w) as real * w.repeat
    ensures |ticks| > 0 ==> ticks[|ticks| - 1].mono <= w.at
    ensures Count(calls, w) > 0 ==> Passed(ticks, w.at - w.repeat)
  {
    hide Loop.Valid, Pendings.Valid, AllDoable, LeftAlone, Count, Passed, NeverLate, Timers.Sound;
    calls := [];
    ghost var start, repeat := w.at, w.repeat;
    assert Count(calls, w) == 0 by { CountNone(w); }
    var i := 0;
    while i < |ticks|
      invariant i <= |ticks| && t.Valid() && p.Valid() && t.timers != p.timers && t.rfeeds == [] && p.rfeeds == []
      invariant (t.timers == old(t.timers) || fresh(t.timers)) && (p.timers == old(p.timers) || fresh(p.timers))
      invariant w.active > 0 && w.pending == 0 && w.at == start + Count(calls, w) as real * repeat
      invariant if i == 0 then w.at == start else ticks[i - 1].mono <= w.at
      invariant Count(calls, w) > 0 ==> Passed(ticks[..i], w.at - repeat)
    {
      NotLate(ticks, start, repeat, i, w.at);
      TimersSound(t.mine, ticks[i].mono);
      ghost var at := w.at;
      var more := TurnAt(t, p, ticks[i], scripts[i], w);
      OneMoreTurn(ticks, start, repeat, i, at, calls, more, w);
      calls := calls + more;
      i := i + 1;
    }
    assert ticks[..i] == ticks;
  }

  lemma NotLate(ticks: seq<Tick>, start: real, repeat: real, i: nat, at: real)
    requires NeverLate(ticks, start, repeat) && i < |ticks| && if i == 0 then at == start else ticks[i - 1].mono <= at
    ensures ticks[i].mono <= at + repeat
  {
  }

  lemma TimersSound(ws: set<Watcher>, now: real)
    requires forall v :: v in ws ==> v.repeat >= 0.0
    ensures forall v :: v in ws ==> Timers.Sound(v, Timer, now)
  {
  }

  lemma CountNone(w: Watcher)
    ensures Count([], w) == 0
  {
  }
}
