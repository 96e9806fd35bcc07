/**
A turn of the loop whose callbacks do to timers what callbacks do: start, stop and re-arm them, while the
queue they were called from is being drained.
*/
module LoopTurn {
  import opened Common
  import opened PendingSpec
  import opened PendingQueue
  import opened TimerHeap
  import opened Timers
  import opened Schedules
  import opened TimerOrder
  import opened DueEvents

  /** What a deed does to the pending queue: stopping and re-arming clear what was pending. */
  function Effect(d: Deed): seq<Act> {
    match d
    case Plain(a) => [a]
    case StartTimer(_) => []
    case StopTimer(w) => [ClearPending(w)]
    case AgainTimer(w) => [ClearPending(w)]
    case StartPeriodic(_) => []
    case StopPeriodic(w) => [ClearPending(w)]
  }

  function Effects(ds: seq<Deed>): seq<Act> {
    if ds == [] then [] else Effect(ds[0]) + Effects(ds[1..])
  }

  function ScriptEffects(script: seq<seq<Deed>>): (r: seq<seq<Act>>)
    ensures |r| == |script| && forall n :: 0 <= n < |script| ==> r[n] == Effects(script[n])
  {
    if script == [] then [] else [Effects(script[0])] + ScriptEffects(script[1..])
  }

  lemma {:induction false} DoAllConcat(q: Queue, a: seq<Act>, b: seq<Act>, dummy: Watcher)
    requires |q| == NUMPRI
    ensures DoAll(q, a + b, dummy) == DoAll(DoAll(q, a, dummy), b, dummy)
    decreases a
  {
    hide Do;
    if a == [] {
      assert a + b == b;
    } else {
      assert (a + b)[1..] == a[1..] + b;
      DoAllConcat(Do(q, a[0], dummy), a[1..], b, dummy);
    }
  }

  lemma ClearEmpties(q: Queue, w: Watcher, dummy: Watcher)
    requires |q| == NUMPRI
    ensures forall p :: 0 <= p < NUMPRI && q[p] == [] ==> Clear(q, w, dummy)[p] == []
  {
  }

  lemma PlainIsStill(s: Schedule, d: Deed, g: Given)
    requires Covers(s, g) && d.Plain?
    ensures DoDeed(s, d, g) == s
  {
  }

  /** A deed about the queue only. */
  method Plainly(t: Loop, p: Loop, a: Act)
    requires t.pq == p.pq && t.Valid() && p.Valid() && a.w in t.pq.ws
    modifies t.pq`pendings, t.pq`pendingpri, t.pq.ws`pending
    ensures t.Valid() && p.Valid() && t.pq.pendings == Do(old(t.pq.pendings), a, t.pq.pendingW)
    ensures t.pq.pendingpri == old(t.pq.pendingpri) || t.pq.pendingpri == NUMPRI - 1
    ensures t.pq.pendingpri == old(t.pq.pendingpri) ==>
      forall r :: 0 <= r < NUMPRI && r > t.pq.pendingpri && old(t.pq.pendings)[r] == [] ==> t.pq.pendings[r] == []
  {
    hide HeapOk, Pendings.Valid, Pendings.Collected, Clear, Feed, Elems;
    match a {
      case FeedEvent(w, events) => t.pq.FeedEvent(w, events);
      case ClearPending(w) => ClearEmpties(t.pq.pendings, w, t.pq.pendingW); var _ := t.pq.ClearPending(w);
    }
  }

  /** One deed. */
  method Perform(t: Loop, p: Loop, d: Deed)
    requires t != p && t.pq == p.pq && t.timers != p.timers && t.mine !! p.mine && t.Valid() && p.Valid()
    requires Doable(d, t.mine, p.mine, t.pq.ws)
    requires forall w :: w in t.mine ==> w.repeat >= 0.0
    requires forall w :: w in p.mine ==> w.interval >= 0.0
    modifies t`timers, t`timercnt, t`activecnt, t.timers, t.mine`at, t.mine`active
    modifies p`timers, p`timercnt, p`activecnt, p.timers, p.mine`at, p.mine`active
    modifies t.pq`pendings, t.pq`pendingpri, t.pq.ws`pending
    ensures t.Valid() && p.Valid() && t.timers != p.timers
    ensures (t.timers == old(t.timers) || fresh(t.timers)) && (p.timers == old(p.timers) || fresh(p.timers))
    ensures t.pq.pendings == DoAll(old(t.pq.pendings), Effect(d), t.pq.pendingW)
    ensures Covers(old(Now(t, p)), Fixed(t, p)) && Fit([d], Fixed(t, p))
    ensures Now(t, p) == DoDeed(old(Now(t, p)), d, Fixed(t, p))
    ensures t.pq.pendingpri == old(t.pq.pendingpri) || t.pq.pendingpri == NUMPRI - 1
    ensures t.pq.pendingpri == old(t.pq.pendingpri) ==>
      forall r :: 0 <= r < NUMPRI && r > t.pq.pendingpri && old(t.pq.pendings)[r] == [] ==> t.pq.pendings[r] == []
  {
    hide HeapOk, Pendings.Valid, Pendings.Collected, Loop.Valid, Clear, Feed, DoDeed, Set, Now, Fixed;
    FixedCovers(t, p);
    match d {
      case Plain(a) =>
        PlainIsStill(Now(t, p), d, Fixed(t, p));
        Plainly(t, p, a);
      case StartTimer(_) => DoTimer(t, p, d);
      case StopTimer(w) => ClearEmpties(t.pq.pendings, w, t.pq.pendingW); DoTimer(t, p, d);
      case AgainTimer(w) => ClearEmpties(t.pq.pendings, w, t.pq.pendingW); DoTimer(t, p, d);
      case StartPeriodic(_) => DoPeriodic(t, p, d);
      case StopPeriodic(w) => ClearEmpties(t.pq.pendings, w, t.pq.pendingW); DoPeriodic(t, p, d);
    }
  }

  /** A callback. */
  method RunCallback(t: Loop, p: Loop, ds: seq<Deed>)
    requires t != p && t.pq == p.pq && t.timers != p.timers && t.mine !! p.mine && t.Valid() && p.Valid()
    requires forall i :: 0 <= i < |ds| ==> Doable(ds[i], t.mine, p.mine, t.pq.ws)
    requires forall w :: w in t.mine ==> w.repeat >= 0.0
    requires forall w :: w in p.mine ==> w.interval >= 0.0
    modifies t`timers, t`timercnt, t`activecnt, t.timers, t.mine`at, t.mine`active
    modifies p`timers, p`timercnt, p`activecnt, p.timers, p.mine`at, p.mine`active
    modifies t.pq`pendings, t.pq`pendingpri, t.pq.ws`pending
    ensures t.Valid() && p.Valid() && t.timers != p.timers
    ensures (t.timers == old(t.timers) || fresh(t.timers)) && (p.timers == old(p.timers) || fresh(p.timers))
    ensures t.pq.pendings == DoAll(old(t.pq.pendings), Effects(ds), t.pq.pendingW)
    ensures Covers(old(Now(t, p)), Fixed(t, p)) && Fit(ds, Fixed(t, p))
    ensures Now(t, p) == DoDeeds(old(Now(t, p)), ds, Fixed(t, p))
    ensures t.pq.pendingpri == old(t.pq.pendingpri) || t.pq.pendingpri == NUMPRI - 1
    ensures t.pq.pendingpri == old(t.pq.pendingpri) ==>
      forall r :: 0 <= r < NUMPRI && r > t.pq.pendingpri && old(t.pq.pendings)[r] == [] ==> t.pq.pendings[r] == []
  {
    hide Loop.Valid, Pendings.Valid, DoAll, Effect, Doable, Now, Fixed, Doing, Covers, Fit, DoDeed, DoDeeds;
    ghost var s0, g := Now(t, p), Fixed(t, p);
    DeedsFit(t, p, ds, t.pq.ws);
    DoingNone(s0, ds, g);
    var i := 0;
    while i < |ds|
      invariant i <= |ds|
      invariant t.Valid() && p.Valid() && t.timers != p.timers
      invariant (t.timers == old(t.timers) || fresh(t.timers)) && (p.timers == old(p.timers) || fresh(p.timers))
      invariant DoAll(t.pq.pendings, Effects(ds[i..]), t.pq.pendingW) == DoAll(old(t.pq.pendings), Effects(ds), t.pq.pendingW)
      invariant Fixed(t, p) == g && Doing(s0, Now(t, p), ds, i, g)
      invariant t.pq.pendingpri == old(t.pq.pendingpri) || t.pq.pendingpri == NUMPRI - 1
      invariant t.pq.pendingpri == old(t.pq.pendingpri) ==>
        forall r :: 0 <= r < NUMPRI && r > t.pq.pendingpri && old(t.pq.pendings)[r] == [] ==> t.pq.pendings[r] == []
    {
      assert ds[i..][0] == ds[i] && ds[i..][1..] == ds[i + 1..];
      DoAllConcat(t.pq.pendings, Effect(ds[i]), Effects(ds[i + 1..]), t.pq.pendingW);
      ghost var s := Now(t, p);
      Perform(t, p, ds[i]);
      DoingMore(s0, s, Now(t, p), ds, i, g);
      i := i + 1;
    }
    DoAllNothing(t.pq.pendings, t.pq.pendingW);
    assert ds[i..] == [];
    DoingAll(s0, Now(t, p), ds, g);
  }

  lemma DoAllNothing(q: Queue, dummy: Watcher)
    requires |q| == NUMPRI
    ensures DoAll(q, [], dummy) == q
  {
  }

  lemma NoneRan(t: Loop, p: Loop, script: seq<seq<Deed>>)
    requires AllDoable(script, t.mine, p.mine, t.pq.ws)
    ensures Ran(Now(t, p), Now(t, p), script, script, 0, Fixed(t, p))
  {
    hide Fixed, Covers, AllFit;
    FixedCovers(t, p);
    AllFits(t, p, script, t.pq.ws);
    RanNone(Now(t, p), script, Fixed(t, p));
  }

  /** A call back: the head of the script. */
  method RunNext(t: Loop, p: Loop, script: seq<seq<Deed>>) returns (rest: seq<seq<Deed>>)
    requires t != p && t.pq == p.pq && t.timers != p.timers && t.mine !! p.mine && t.Valid() && p.Valid()
    requires AllDoable(script, t.mine, p.mine, t.pq.ws)
    requires forall w :: w in t.mine ==> w.repeat >= 0.0
    requires forall w :: w in p.mine ==> w.interval >= 0.0
    modifies t`timers, t`timercnt, t`activecnt, t.timers, t.mine`at, t.mine`active
    modifies p`timers, p`timercnt, p`activecnt, p.timers, p.mine`at, p.mine`active
    modifies t.pq`pendings, t.pq`pendingpri, t.pq.ws`pending
    ensures t.Valid() && p.Valid() && t.timers != p.timers
    ensures (t.timers == old(t.timers) || fresh(t.timers)) && (p.timers == old(p.timers) || fresh(p.timers))
    ensures AllDoable(rest, t.mine, p.mine, t.pq.ws)
    ensures t.pq.pendings == DoAll(old(t.pq.pendings), Head(ScriptEffects(script)), t.pq.pendingW)
    ensures ScriptEffects(rest) == Tail(ScriptEffects(script))
    ensures t.pq.pendingpri == old(t.pq.pendingpri) || t.pq.pendingpri == NUMPRI - 1
    ensures t.pq.pendingpri == old(t.pq.pendingpri) ==>
      forall r :: 0 <= r < NUMPRI && r > t.pq.pendingpri && old(t.pq.pendings)[r] == [] ==> t.pq.pendings[r] == []
    ensures Ran(old(Now(t, p)), Now(t, p), script, rest, 1, Fixed(t, p))
    ensures if script == [] then rest == [] && t.pq.pendings == old(t.pq.pendings) && t.pq.pendingpri == old(t.pq.pendingpri)
      else |rest| < |script|
  {
    hide Pendings.Valid, Loop.Valid, Effects, Ran, Now, Fixed, DoDeeds, Covers, Fit, AllFit, Doable;
    ghost var s0, g := Now(t, p), Fixed(t, p);
    FixedCovers(t, p);
    AllFits(t, p, script, t.pq.ws);
    rest := [];
    if script != [] {
      RunCallback(t, p, script[0]);
      rest := script[1..];
    }
    RanOne(s0, Now(t, p), script, g);
  }

  lemma LastIsCalled(q: Queue, p: nat, script: seq<seq<Act>>, dummy: Watcher)
    requires |q| == NUMPRI && p < NUMPRI && q[p] != [] && forall r :: p < r < NUMPRI ==> q[r] == []
    ensures var e := q[p][|q[p]| - 1];
      InvokeAll(q, script, dummy) ==
        if e.w == dummy then InvokeAll(Pop(q, p), script, dummy)
        else [Call(e.w, e.events)] + InvokeAll(DoAll(Pop(q, p), Head(script), dummy), Tail(script), dummy)
    ensures forall r :: p < r < NUMPRI ==> Pop(q, p)[r] == []
    ensures script == [] ==> Head(script) == [] && Tail(script) == [] && DoAll(Pop(q, p), [], dummy) == Pop(q, p)
  {
    assert Top(q) == p;
    InvokeTurn(q, script, dummy);
  }

  /** One turn of ev_invoke_pending's inner loop. */
  method InvokeLast(t: Loop, p: Loop, script: seq<seq<Deed>>) returns (calls: seq<Call>, rest: seq<seq<Deed>>)
    requires t != p && t.pq == p.pq && t.timers != p.timers && t.mine !! p.mine && t.Valid() && p.Valid()
    requires AllDoable(script, t.mine, p.mine, t.pq.ws)
    requires t.pq.pendingpri < NUMPRI && t.pq.pendings[t.pq.pendingpri] != []
    requires forall r :: t.pq.pendingpri < r < NUMPRI ==> t.pq.pendings[r] == []
    requires forall w :: w in t.mine ==> w.repeat >= 0.0
    requires forall w :: w in p.mine ==> w.interval >= 0.0
    modifies t`timers, t`timercnt, t`activecnt, t.timers, t.mine`at, t.mine`active
    modifies p`timers, p`timercnt, p`activecnt, p.timers, p.mine`at, p.mine`active
    modifies t.pq`pendings, t.pq`pendingpri, t.pq.ws`pending
    ensures t.Valid() && p.Valid() && t.timers != p.timers
    ensures (t.timers == old(t.timers) || fresh(t.timers)) && (p.timers == old(p.timers) || fresh(p.timers))
    ensures AllDoable(rest, t.mine, p.mine, t.pq.ws) && t.pq.pendingpri < NUMPRI
    ensures forall r :: t.pq.pendingpri < r < NUMPRI ==> t.pq.pendings[r] == []
    ensures InvokeAll(old(t.pq.pendings), ScriptEffects(script), t.pq.pendingW)
      == calls + InvokeAll(t.pq.pendings, ScriptEffects(rest), t.pq.pendingW)
    ensures Ran(old(Now(t, p)), Now(t, p), script, rest, |calls|, Fixed(t, p))
    ensures |rest| < |script| ||
      (rest == script && Total(t.pq.pendings) < Total(old(t.pq.pendings)) && t.pq.pendingpri == old(t.pq.pendingpri))
  {
    hide Pendings.Valid, HeapOk, Total, Elems, ScriptEffects, DoAll, Pendings.Collected, Ran, Now, Fixed, AllDoable,
      Pop, Top, AllEmpty, InvokeAll;
    LastIsCalled(t.pq.pendings, t.pq.pendingpri, ScriptEffects(script), t.pq.pendingW);
    NoneRan(t, p, script);
    var e := t.pq.TakeLast(t.pq.pendingpri);
    calls, rest := [], script;
    if e.w != t.pq.pendingW {
      calls := [Call(e.w, e.events)];
      rest := RunNext(t, p, script);
    }
  }

  lemma {:induction false} EffectsIn(ds: seq<Deed>, tm: set<Watcher>, pm: set<Watcher>, ws: set<Watcher>)
    requires tm <= ws && pm <= ws && forall i :: 0 <= i < |ds| ==> Doable(ds[i], tm, pm, ws)
    ensures forall i :: 0 <= i < |Effects(ds)| ==> Effects(ds)[i].w in ws
  {
    if ds != [] {
      EffectsIn(ds[1..], tm, pm, ws);
      assert Doable(ds[0], tm, pm, ws);
    }
  }

  lemma NoneTouches(script: seq<seq<Deed>>, tm: set<Watcher>, pm: set<Watcher>, ws: set<Watcher>, dummy: Watcher)
    requires AllDoable(script, tm, pm, ws) && tm <= ws && pm <= ws && dummy !in ws
    ensures forall n :: 0 <= n < |script| ==> !Touches(ScriptEffects(script)[n], dummy)
  {
    forall n | 0 <= n < |script|
      ensures !Touches(ScriptEffects(script)[n], dummy)
    {
      EffectsIn(script[n], tm, pm, ws);
    }
  }

  /** ev_invoke_pending's inner loop. */
  method InvokeRow(t: Loop, p: Loop, script: seq<seq<Deed>>) returns (calls: seq<Call>, rest: seq<seq<Deed>>)
    requires t != p && t.pq == p.pq && t.timers != p.timers && t.mine !! p.mine && t.Valid() && p.Valid()
    requires AllDoable(script, t.mine, p.mine, t.pq.ws) && t.pq.pendingpri < NUMPRI
    requires forall r :: t.pq.pendingpri < r < NUMPRI ==> t.pq.pendings[r] == []
    requires forall w :: w in t.mine ==> w.repeat >= 0.0
    requires forall w :: w in p.mine ==> w.interval >= 0.0
    modifies t`timers, t`timercnt, t`activecnt, t.timers, t.mine`at, t.mine`active
    modifies p`timers, p`timercnt, p`activecnt, p.timers, p.mine`at, p.mine`active
    modifies t.pq`pendings, t.pq`pendingpri, t.pq.ws`pending
    ensures t.Valid() && p.Valid() && t.timers != p.timers
    ensures (t.timers == old(t.timers) || fresh(t.timers)) && (p.timers == old(p.timers) || fresh(p.timers))
    ensures AllDoable(rest, t.mine, p.mine, t.pq.ws) && t.pq.pendingpri < NUMPRI
    ensures forall r :: t.pq.pendingpri <= r < NUMPRI ==> t.pq.pendings[r] == []
    ensures InvokeAll(old(t.pq.pendings), ScriptEffects(script), t.pq.pendingW)
      == calls + InvokeAll(t.pq.pendings, ScriptEffects(rest), t.pq.pendingW)
    ensures Ran(old(Now(t, p)), Now(t, p), script, rest, |calls|, Fixed(t, p))
    ensures |rest| < |script| ||
      (rest == script && Total(t.pq.pendings) <= Total(old(t.pq.pendings)) && t.pq.pendingpri == old(t.pq.pendingpri))
  {
    hide Loop.Valid, Pendings.Valid, Total, AllDoable, ScriptEffects, InvokeAll, Ran, Now, Fixed;
    ghost var s0, g := Now(t, p), Fixed(t, p);
    NoneRan(t, p, script);
    rest := script;
    calls := [];
    ghost var all, total := InvokeAll(t.pq.pendings, ScriptEffects(script), t.pq.pendingW), Total(t.pq.pendings);
    while |t.pq.pendings[t.pq.pendingpri]| != 0
      invariant t.Valid() && p.Valid() && t.timers != p.timers
      invariant (t.timers == old(t.timers) || fresh(t.timers)) && (p.timers == old(p.timers) || fresh(p.timers))
      invariant t.pq.pendingpri < NUMPRI && AllDoable(rest, t.mine, p.mine, t.pq.ws)
      invariant forall r :: t.pq.pendingpri < r < NUMPRI ==> t.pq.pendings[r] == []
      invariant calls + InvokeAll(t.pq.pendings, ScriptEffects(rest), t.pq.pendingW) == all
      invariant Fixed(t, p) == g && Ran(s0, Now(t, p), script, rest, |calls|, g)
      invariant |rest| < |script| || (rest == script && Total(t.pq.pendings) <= total && t.pq.pendingpri == old(t.pq.pendingpri))
      decreases |rest|, Total(t.pq.pendings)
    {
      ghost var s1 := Now(t, p);
      var more, rest' := InvokeLast(t, p, rest);
      RanMore(s0, s1, Now(t, p), script, rest, rest', |calls|, |more|, g);
      Regroup(calls, more, InvokeAll(t.pq.pendings, ScriptEffects(rest'), t.pq.pendingW));
      calls, rest := calls + more, rest';
    }
  }

  /** ev_invoke_pending's outer loop. */
  method InvokeRows(t: Loop, p: Loop, script: seq<seq<Deed>>) returns (calls: seq<Call>)
    requires t != p && t.pq == p.pq && t.timers != p.timers && t.mine !! p.mine && t.Valid() && p.Valid()
    requires AllDoable(script, t.mine, p.mine, t.pq.ws)
    requires forall w :: w in t.mine ==> w.repeat >= 0.0
    requires forall w :: w in p.mine ==> w.interval >= 0.0
    modifies t`timers, t`timercnt, t`activecnt, t.timers, t.mine`at, t.mine`active
    modifies p`timers, p`timercnt, p`activecnt, p.timers, p.mine`at, p.mine`active
    modifies t.pq`pendings, t.pq`pendingpri, t.pq.ws`pending
    ensures t.Valid() && p.Valid() && t.timers != p.timers && AllEmpty(t.pq.pendings) && t.pq.pendingpri == 0
    ensures (t.timers == old(t.timers) || fresh(t.timers)) && (p.timers == old(p.timers) || fresh(p.timers))
    ensures calls == InvokeAll(old(t.pq.pendings), ScriptEffects(script), t.pq.pendingW)
    ensures Ran(old(Now(t, p)), Now(t, p), script, Behind(script, |calls|), |calls|, Fixed(t, p))
  {
    hide Loop.Valid, Pendings.Valid, Total, AllDoable, ScriptEffects, InvokeAll, Ran, Now, Fixed, Behind;
    ghost var s0, g := Now(t, p), Fixed(t, p);
    NoneRan(t, p, script);
    var rest := script;
    calls := [];
    t.pq.pendingpri := NUMPRI;
    ghost var all := InvokeAll(t.pq.pendings, ScriptEffects(script), t.pq.pendingW);
    while t.pq.pendingpri != 0
      invariant t.Valid() && p.Valid() && t.timers != p.timers
      invariant (t.timers == old(t.timers) || fresh(t.timers)) && (p.timers == old(p.timers) || fresh(p.timers))
      invariant t.pq.pendingpri <= NUMPRI && AllDoable(rest, t.mine, p.mine, t.pq.ws)
      invariant forall r :: t.pq.pendingpri <= r < NUMPRI ==> t.pq.pendings[r] == []
      invariant calls + InvokeAll(t.pq.pendings, ScriptEffects(rest), t.pq.pendingW) == all
      invariant Fixed(t, p) == g && Ran(s0, Now(t, p), script, rest, |calls|, g)
      decreases |rest|, Total(t.pq.pendings), t.pq.pendingpri
    {
      t.pq.pendingpri := t.pq.pendingpri - 1;
      ghost var s1 := Now(t, p);
      var more, rest' := InvokeRow(t, p, rest);
      RanMore(s0, s1, Now(t, p), script, rest, rest', |calls|, |more|, g);
      Regroup(calls, more, InvokeAll(t.pq.pendings, ScriptEffects(rest'), t.pq.pendingW));
      calls, rest := calls + more, rest';
    }
    RanRest(s0, Now(t, p), script, rest, |calls|, g);
    NoCalls(t.pq.pendings, ScriptEffects(rest), t.pq.pendingW);
  }

  /** ev_invoke_pending, whose callbacks may change both heaps. */
  method Invoke(t: Loop, p: Loop, script: seq<seq<Deed>>) returns (calls: seq<Call>)
    requires t != p && t.pq == p.pq && t.timers != p.timers && t.mine !! p.mine && t.Valid() && p.Valid()
    requires AllDoable(script, t.mine, p.mine, t.pq.ws)
    requires forall w :: w in t.mine ==> w.repeat >= 0.0
    requires forall w :: w in p.mine ==> w.interval >= 0.0
    modifies t`timers, t`timercnt, t`activecnt, t.timers, t.mine`at, t.mine`active
    modifies p`timers, p`timercnt, p`activecnt, p.timers, p.mine`at, p.mine`active
    modifies t.pq`pendings, t.pq`pendingpri, t.pq.ws`pending
    ensures t.Valid() && p.Valid() && t.timers != p.timers && AllEmpty(t.pq.pendings) && t.pq.pendingpri == 0
    ensures (t.timers == old(t.timers) || fresh(t.timers)) && (p.timers == old(p.timers) || fresh(p.timers))
    ensures calls == InvokeAll(old(t.pq.pendings), ScriptEffects(script), t.pq.pendingW)
    ensures Ran(old(Now(t, p)), Now(t, p), script, Behind(script, |calls|), |calls|, Fixed(t, p))
    ensures Replays(old(t.pq.Collected()), calls, ScriptEffects(script))
  {
    hide Pendings.Valid, Loop.Valid, AllDoable, Agrees, Replays, Touches, Pendings.Collected, ScriptEffects, InvokeAll,
      Now, Fixed, Ran, Behind, AllEmpty;
    assert t.pq.Valid() && t.mine <= t.pq.ws && p.mine <= t.pq.ws && t.pq.pendingW !in t.pq.ws by { PqFacts(t, p); }
    t.pq.CollectedAgrees();
    NoneTouches(script, t.mine, p.mine, t.pq.ws, t.pq.pendingW);
    InvokeAllReplays(t.pq.pendings, t.pq.Collected(), ScriptEffects(script), t.pq.pendingW);
    calls := InvokeRows(t, p, script);
  }

  // ---------- Who is called ----------

  predicate Feeds(acts: seq<Act>, w: Watcher) {
    exists i :: 0 <= i < |acts| && acts[i].FeedEvent? && acts[i].w == w
  }

  /** The last thing the acts do about w is to clear it. */
  predicate ClearsLast(acts: seq<Act>, w: Watcher) {
    exists i :: 0 <= i < |acts| && acts[i] == ClearPending(w) && !Feeds(acts[i + 1..], w)
  }

  lemma {:induction false} UnfedStaysOut(m: Pend, acts: seq<Act>, w: Watcher)
    requires w !in m && !Feeds(acts, w)
    ensures w !in DoAllMap(m, acts)
    decreases acts
  {
    if acts != [] {
      assert acts[0].FeedEvent? ==> acts[0].w != w;
      assert forall i :: 0 <= i < |acts| - 1 ==> acts[1..][i] == acts[i + 1];
      UnfedStaysOut(DoMap(m, acts[0]), acts[1..], w);
    }
  }

  lemma {:induction false} ClearedIsOut(m: Pend, acts: seq<Act>, w: Watcher)
    requires ClearsLast(acts, w)
    ensures w !in DoAllMap(m, acts)
    decreases acts
  {
    var i :| 0 <= i < |acts| && acts[i] == ClearPending(w) && !Feeds(acts[i + 1..], w);
    if i == 0 {
      UnfedStaysOut(DoMap(m, acts[0]), acts[1..], w);
    } else {
      assert acts[1..][i - 1] == ClearPending(w) && acts[1..][i..] == acts[i + 1..];
      ClearedIsOut(DoMap(m, acts[0]), acts[1..], w);
    }
  }

  /** Who is not pending is not called unless fed. */
  lemma {:induction false} UnfedIsNotCalled(m: Pend, calls: seq<Call>, script: seq<seq<Act>>, w: Watcher, k: nat)
    requires Replays(m, calls, script) && w !in m && k < |calls|
    requires forall j :: 0 <= j < k && j < |script| ==> !Feeds(script[j], w)
    ensures calls[k].w != w
    decreases k
  {
    if k > 0 {
      var m' := m - {calls[0].w};
      UnfedStaysOut(m', Head(script), w);
      assert forall j :: 0 <= j < |Tail(script)| ==> Tail(script)[j] == script[j + 1];
      hide Feeds;
      UnfedIsNotCalled(DoAllMap(m', Head(script)), calls[1..], Tail(script), w, k - 1);
    }
  }

  /** Who was cleared by the n-th callback is not called after it unless fed again. */
  lemma {:induction false} ClearedIsNotCalled(m: Pend, calls: seq<Call>, script: seq<seq<Act>>, n: nat, w: Watcher, k: nat)
    requires Replays(m, calls, script) && n < k < |calls| && n < |script| && ClearsLast(script[n], w)
    requires forall j :: n < j < k && j < |script| ==> !Feeds(script[j], w)
    ensures calls[k].w != w
    decreases n
  {
    hide Feeds, ClearsLast;
    var m' := m - {calls[0].w};
    assert forall j :: 0 <= j < |Tail(script)| ==> Tail(script)[j] == script[j + 1];
    if n == 0 {
      ClearedIsOut(m', script[0], w);
      UnfedIsNotCalled(DoAllMap(m', script[0]), calls[1..], Tail(script), w, k - 1);
    } else {
      ClearedIsNotCalled(DoAllMap(m', Head(script)), calls[1..], Tail(script), n - 1, w, k - 1);
    }
  }

  // ---------- The turn ----------

  /** Stopping w, or arming it anew, withdraws what is pending for it. */
  predicate Stops(d: Deed, w: Watcher) { d == StopTimer(w) || d == StopPeriodic(w) || d == AgainTimer(w) }

  predicate IsFeed(d: Deed, w: Watcher) { d.Plain? && d.a.FeedEvent? && d.a.w == w }

  predicate FeedsIt(ds: seq<Deed>, w: Watcher) {
    exists i :: 0 <= i < |ds| && IsFeed(ds[i], w)
  }

  /** A callback stops or re-arms w and does not feed it behind that. */
  predicate StopsLast(ds: seq<Deed>, w: Watcher) {
    exists i :: 0 <= i < |ds| && Stops(ds[i], w) && !FeedsIt(ds[i + 1..], w)
  }

  lemma FeedsMore(a: seq<Act>, b: seq<Act>, w: Watcher)
    ensures Feeds(a + b, w) <==> Feeds(a, w) || Feeds(b, w)
  {
    if i :| 0 <= i < |a| && a[i].FeedEvent? && a[i].w == w { assert (a + b)[i] == a[i]; }
    if i :| 0 <= i < |b| && b[i].FeedEvent? && b[i].w == w { assert (a + b)[|a| + i] == b[i]; }
  }

  lemma {:induction false} FeedsMeans(ds: seq<Deed>, w: Watcher)
    ensures Feeds(Effects(ds), w) <==> FeedsIt(ds, w)
  {
    if ds != [] {
      FeedsMeans(ds[1..], w);
      FeedsMore(Effect(ds[0]), Effects(ds[1..]), w);
      if i :| 0 <= i < |ds[1..]| && IsFeed(ds[1..][i], w) { assert IsFeed(ds[i + 1], w); }
      if i :| 0 <= i < |ds| && IsFeed(ds[i], w) { assert i > 0 ==> IsFeed(ds[1..][i - 1], w); }
      if IsFeed(ds[0], w) { assert Effect(ds[0])[0].w == w; }
    }
  }

  lemma {:induction false} StopClears(ds: seq<Deed>, w: Watcher)
    requires StopsLast(ds, w)
    ensures ClearsLast(Effects(ds), w)
  {
    hide ClearsLast, FeedsIt, Feeds;
    var i :| 0 <= i < |ds| && Stops(ds[i], w) && !FeedsIt(ds[i + 1..], w);
    if i == 0 {
      FeedsMeans(ds[1..], w);
      ClearsHere(Effects(ds[1..]), w);
    } else {
      assert Stops(ds[1..][i - 1], w) && ds[1..][i..] == ds[i + 1..];
      StopClears(ds[1..], w);
      ClearsBehind(Effect(ds[0]), Effects(ds[1..]), w);
    }
  }

  lemma ClearsHere(tail: seq<Act>, w: Watcher)
    requires !Feeds(tail, w)
    ensures ClearsLast([ClearPending(w)] + tail, w)
  {
    hide Feeds;
    var acts := [ClearPending(w)] + tail;
    assert acts[0] == ClearPending(w) && acts[0 + 1..] == tail;
  }

  lemma ClearsBehind(head: seq<Act>, tail: seq<Act>, w: Watcher)
    requires ClearsLast(tail, w)
    ensures ClearsLast(head + tail, w)
  {
    hide Feeds;
    var k :| 0 <= k < |tail| && tail[k] == ClearPending(w) && !Feeds(tail[k + 1..], w);
    var i := |head| + k;
    assert (head + tail)[i] == ClearPending(w) && (head + tail)[i + 1..] == tail[k + 1..];
  }

  /** A watcher that is called after a callback has stopped or re-armed it has been fed by one in between. */
  ghost predicate StoppedStayQuiet(calls: seq<Call>, script: seq<seq<Deed>>) {
    forall n, k :: 0 <= n < k < |calls| && n < |script| && StopsLast(script[n], calls[k].w) ==>
      FedBetween(script, n, k, calls[k].w)
  }

  predicate FedBetween(script: seq<seq<Deed>>, n: nat, k: nat, w: Watcher) {
    exists j :: n < j < k && j < |script| && FeedsIt(script[j], w)
  }

  lemma QuietOne(m: Pend, calls: seq<Call>, script: seq<seq<Deed>>, n: nat, k: nat)
    requires Replays(m, calls, ScriptEffects(script)) && n < k < |calls| && n < |script| && StopsLast(script[n], calls[k].w)
    ensures FedBetween(script, n, k, calls[k].w)
  {
    hide Replays, StopsLast, ClearsLast, Feeds, FeedsIt, Effects;
    StopClears(script[n], calls[k].w);
    if !FedBetween(script, n, k, calls[k].w) {
      forall j | n < j < k && j < |script|
        ensures !Feeds(ScriptEffects(script)[j], calls[k].w)
      {
        FeedsMeans(script[j], calls[k].w);
      }
      ClearedIsNotCalled(m, calls, ScriptEffects(script), n, calls[k].w, k);
    }
  }

  lemma AllQuiet(m: Pend, calls: seq<Call>, script: seq<seq<Deed>>)
    requires Replays(m, calls, ScriptEffects(script))
    ensures StoppedStayQuiet(calls, script)
  {
    hide Replays, StopsLast, FedBetween, ScriptEffects;
    forall n, k | 0 <= n < k < |calls| && n < |script| && StopsLast(script[n], calls[k].w)
      ensures FedBetween(script, n, k, calls[k].w)
    {
      QuietOne(m, calls, script, n, k);
    }
  }

  /** The calls of a turn that began with the queue q and the idle watchers, and fed ts and ps: `due` is what is
      pending when the queue begins to be drained. */
  ghost predicate RightCalls(calls: seq<Call>, q: Queue, idle: set<Watcher>, ts: seq<Elem>, ps: seq<Elem>, due: Pend,
        script: seq<seq<Deed>>, dummy: Watcher)
    requires |q| == NUMPRI
    reads (set e | e in ts :: e.w)`repeat, (set e | e in ts :: e.w)`interval, (set e | e in ts :: e.w)`reschedule
    reads (set e | e in ps :: e.w)`repeat, (set e | e in ps :: e.w)`interval, (set e | e in ps :: e.w)`reschedule
  {
    && Agrees(Reifieds(q, ts, ps, dummy), due, dummy)
    && Replays(due, calls, ScriptEffects(script)) && CallsCarry(due, calls, ScriptEffects(script))
    && InOrder(calls, idle, ts, ps, ScriptEffects(script))
    && StoppedStayQuiet(calls, script)
  }

  /** Between two schedules, in heaps of the watchers ws, exactly those due have fired and gone on. */
  ghost predicate Reified(fed: seq<Elem>, s: Schedule, s': Schedule, ws: set<Watcher>, now: real, kind: Kind)
    reads (set e | e in fed :: e.w)`repeat, (set e | e in fed :: e.w)`interval
    reads (set e | e in fed :: e.w)`reschedule, (set e | e in fed :: e.w)`offset
  {
    && FiredOnce(fed, Elements(s, ws), Elements(s', ws), now, kind)
    && Stilled(fed, AtsOf(s, ws), AtsOf(s', ws), now, kind)
  }

  /** The timers' part of a turn of ev_run.  Both heaps stay in order whatever the callbacks do to them; `due` is
      what is pending, and `mid` when everything is due, as the queue begins to be drained. */
  method Turn(t: Loop, p: Loop, script: seq<seq<Deed>>)
    returns (calls: seq<Call>, ghost ts: seq<Elem>, ghost ps: seq<Elem>, ghost due: Pend, ghost mid: Schedule)
    requires t != p && t.pq == p.pq && t.timers != p.timers && t.mine !! p.mine && t.Valid() && p.Valid()
    requires t.rfeeds == [] && p.rfeeds == [] && AllDoable(script, t.mine, p.mine, t.pq.ws)
    requires forall w :: w in t.mine ==> Timers.Sound(w, Timer, t.now)
    requires forall w :: w in p.mine ==> Timers.Sound(w, Periodic, p.now)
    modifies t`timers, t`timercnt, t`activecnt, t`rfeeds, t.timers, t.mine`at, t.mine`active
    modifies p`timers, p`timercnt, p`activecnt, p`rfeeds, p.timers, p.mine`at, p.mine`active
    modifies t.pq`pendings, t.pq`pendingpri, t.pq.ws`pending
    ensures t.Valid() && p.Valid() && t.timers != p.timers && t.rfeeds == [] && p.rfeeds == []
    ensures (t.timers == old(t.timers) || fresh(t.timers)) && (p.timers == old(p.timers) || fresh(p.timers))
    ensures AllEmpty(t.pq.pendings)
    ensures Reified(ts, old(Now(t, p)), mid, t.mine, t.now, Timer) && Reified(ps, old(Now(t, p)), mid, p.mine, p.now, Periodic)
    ensures Ran(mid, Now(t, p), script, Behind(script, |calls|), |calls|, Fixed(t, p))
    ensures DueIs(old(t.pq.Collected()), due, ts, ps)
    ensures RightCalls(calls, old(t.pq.pendings), old(Idle(t.mine + p.mine)), ts, ps, due, script, t.pq.pendingW)
  {
    hide Loop.Valid, Pendings.Valid, FiredOnce, Stilled, ClearStopped, FeedReverse, Own, InOrder, AllDoable, InvokeAll, Idle, AllFree,
      Touches, Pendings.Collected, Agrees, Replays, ScriptEffects, StoppedStayQuiet, CallsCarry, Reified, DueIs,
      Now, Fixed, Ran, Behind, Loop.Active, Loop.Ats;
    PqFacts(t, p);
    ghost var q, was, idle, dummy := t.pq.pendings, t.pq.Collected(), Idle(t.mine + p.mine), t.pq.pendingW;
    t.pq.CollectedAgrees();
    IdleIsFree(t.pq, t.mine + p.mine);
    NoneTouches(script, t.mine, p.mine, t.pq.ws, dummy);
    ts, ps, mid := ReifyBothInto(t, p);
    due := t.pq.Collected();
    PqFacts(t, p);
    t.pq.CollectedAgrees();
    ReifiedsMean(q, was, due, ts, ps, t.mine, p.mine, dummy);
    OrderOfCalls(q, idle, ts, ps, t.mine, p.mine, ScriptEffects(script), dummy);
    calls := Invoke(t, p, script);
    AllQuiet(due, calls, script);
    ReplaysCarry(due, calls, ScriptEffects(script));
  }

  /** ReifyBoth, in terms of schedules. */
  method ReifyBothInto(t: Loop, p: Loop) returns (ghost ts: seq<Elem>, ghost ps: seq<Elem>, ghost mid: Schedule)
    requires t != p && t.pq == p.pq && t.timers != p.timers && t.mine !! p.mine && t.Valid() && p.Valid()
    requires t.rfeeds == [] && p.rfeeds == []
    requires forall w :: w in t.mine ==> Timers.Sound(w, Timer, t.now)
    requires forall w :: w in p.mine ==> Timers.Sound(w, Periodic, p.now)
    modifies t`timercnt, t`activecnt, t`rfeeds, t.timers, t.mine`at, t.mine`active
    modifies p`timercnt, p`activecnt, p`rfeeds, p.timers, p.mine`at, p.mine`active
    modifies t.pq`pendings, t.pq`pendingpri, t.pq.ws`pending
    ensures t.Valid() && p.Valid() && t.rfeeds == [] && p.rfeeds == [] && Own(ts, t.mine) && Own(ps, p.mine)
    ensures mid == Now(t, p)
    ensures Reified(ts, old(Now(t, p)), mid, t.mine, t.now, Timer) && Reified(ps, old(Now(t, p)), mid, p.mine, p.now, Periodic)
    ensures t.pq.pendings == Reifieds(old(t.pq.pendings), ts, ps, t.pq.pendingW)
  {
    hide HeapOk, Pendings.Valid, FiredOnce, Stilled, ClearStopped, FeedReverse, Own, Sound, Now, Loop.Active, Loop.Ats, Elements, AtsOf;
    HeapsHold(t, p);
    ts, ps := ReifyBoth(t, p);
    HeapsHold(t, p);
    mid := Now(t, p);
  }
}
