/**
The pending queue of ev.c: per-priority arrays, the slot number kept in each watcher, and the
pendingpri that feeding moves while the invocation loop runs.
*/
module PendingQueue {
  import opened Common
  import opened EventBits
  import opened PendingSpec

  /** The callbacks touch watchers of this loop only. */
  ghost predicate InScope(script: seq<seq<Act>>, ws: set<Watcher>) {
    forall n, i :: 0 <= n < |script| && 0 <= i < |script[n]| ==> script[n][i].w in ws
  }

  class Pendings {
    var pendings: Queue
    var pendingpri: nat
    const pendingW: Watcher
    ghost var ws: set<Watcher>

    /** Every slot belongs to the dummy or to the watcher that says so, and every watcher that says it
        is pending has the slot it names. */
    ghost predicate Valid()
      reads this`pendings, this`ws, ws`pending
      ensures Valid() ==> |pendings| == NUMPRI && pendingW !in ws
    {
      && |pendings| == NUMPRI
      && pendingW !in ws
      && (forall p, i :: 0 <= p < NUMPRI && 0 <= i < |pendings[p]| ==> SlotValid(p, i))
      && (forall w :: w in ws ==> WatcherValid(w))
    }

    ghost predicate SlotValid(p: nat, i: nat)
      requires |pendings| == NUMPRI && p < NUMPRI && i < |pendings[p]|
      reads this`pendings, this`ws, ws`pending
    {
      var w := pendings[p][i].w;
      w != pendingW ==> w in ws && AbsPri(w) == p && w.pending == i + 1
    }

    ghost predicate WatcherValid(w: Watcher)
      requires |pendings| == NUMPRI
      reads this`pendings, w`pending
    {
      w.pending > 0 ==> w.pending <= |pendings[AbsPri(w)]| && pendings[AbsPri(w)][w.pending - 1].w == w
    }

    /** The pending watchers with the events collected for them. */
    ghost function Collected(): (m: Pend)
      requires Valid()
      reads this`pendings, this`ws, ws`pending
      ensures m.Keys == set w | w in ws && w.pending > 0
    {
      assert forall w :: w in ws ==> WatcherValid(w);
      map w | w in ws && w.pending > 0 :: pendings[AbsPri(w)][w.pending - 1].events
    }

    constructor (dummy: Watcher, ghost ws: set<Watcher>)
      requires dummy !in ws && forall w :: w in ws ==> w.pending == 0
      ensures Valid() && this.ws == ws && pendingW == dummy && AllEmpty(pendings)
    {
      pendings := [[], [], [], [], []];
      pendingpri := 0;
      pendingW := dummy;
      this.ws := ws;
    }

    /** A watcher's slot number finds what a search would. */
    lemma SlotIsFind(w: Watcher)
      requires Valid() && w in ws
      ensures var row := pendings[AbsPri(w)];
        Find(row, w) == if w.pending > 0 then w.pending - 1 else |row|
    {
      var row := pendings[AbsPri(w)];
      assert WatcherValid(w);
      forall i | 0 <= i < |row| && row[i].w == w
        ensures w.pending == i + 1
      {
        assert SlotValid(AbsPri(w), i);
      }
      if w.pending > 0 {
        FindUnique(row, w, w.pending - 1);
      }
    }

    /** The queue holds those watchers, once each, at their priority, with those events. */
    lemma CollectedAgrees()
      requires Valid()
      ensures Agrees(pendings, Collected(), pendingW)
    {
      hide Find;
      forall p, i | 0 <= p < NUMPRI && 0 <= i < |pendings[p]|
        ensures SlotOk(pendings[p][i], p, Collected(), pendingW)
      {
        assert SlotValid(p, i);
      }
      forall w | w in Collected()
        ensures w != pendingW && Find(pendings[AbsPri(w)], w) < |pendings[AbsPri(w)]|
      {
        assert WatcherValid(w);
        SlotIsFind(w);
      }
      forall p, i, j | 0 <= p < NUMPRI && 0 <= i < j < |pendings[p]| && pendings[p][i].w != pendingW
        ensures pendings[p][i].w != pendings[p][j].w
      {
        assert SlotValid(p, i) && SlotValid(p, j);
      }
    }

    /** ev_feed_event. */
    method FeedEvent(w: Watcher, revents: bv32)
      requires Valid() && w in ws
      modifies this`pendings, this`pendingpri, w`pending
      ensures Valid() && pendings == Feed(old(pendings), w, revents)
      ensures Collected() == FeedMap(old(Collected()), w, revents)
      ensures pendingpri == NUMPRI - 1
    {
      hide Or, Find, Agrees;
      ghost var q, m := pendings, Collected();
      CollectedAgrees();
      FeedAgrees(q, m, w, revents, pendingW);
      SlotIsFind(w);
      assert WatcherValid(w);
      var pri := AbsPri(w);
      if w.pending != 0 {
        var e := pendings[pri][w.pending - 1];
        pendings := pendings[pri := pendings[pri][w.pending - 1 := Entry(e.w, Or(e.events, revents))]];
      } else {
        w.pending := |pendings[pri]| + 1;
        pendings := pendings[pri := pendings[pri] + [Entry(w, revents)]];
      }
      pendingpri := NUMPRI - 1;
      forall p, i | 0 <= p < NUMPRI && 0 <= i < |pendings[p]|
        ensures SlotValid(p, i)
      {
        if p != pri || i < |old(pendings)[p]| { assert old(SlotValid(p, i)); }
      }
      forall v | v in ws
        ensures WatcherValid(v)
      {
        assert old(WatcherValid(v));
      }
      CollectedAgrees();
      AgreesUnique(pendings, Collected(), FeedMap(m, w, revents), pendingW);
    }

    /** ev_clear_pending: the events it had collected, and the slot now belongs to the dummy. */
    method ClearPending(w: Watcher) returns (events: bv32)
      requires Valid() && w in ws
      modifies this`pendings, w`pending
      ensures Valid() && w.pending == 0 && pendings == Clear(old(pendings), w, pendingW)
      ensures Collected() == old(Collected()) - {w}
      ensures events == if w in old(Collected()) then old(Collected())[w] else 0
    {
      hide Find, Agrees;
      ghost var q, m := pendings, Collected();
      CollectedAgrees();
      ClearAgrees(q, m, w, pendingW);
      events := GiveUpSlot(w);
      CollectedAgrees();
      AgreesUnique(pendings, Collected(), m - {w}, pendingW);
    }

    /** The slot keeps its events and goes to the dummy. */
    method GiveUpSlot(w: Watcher) returns (events: bv32)
      requires Valid() && w in ws
      modifies this`pendings, w`pending
      ensures Valid() && w.pending == 0 && pendings == Clear(old(pendings), w, pendingW)
      ensures events == if old(w.pending) > 0 then old(pendings)[AbsPri(w)][old(w.pending) - 1].events else 0
    {
      hide Find;
      SlotIsFind(w);
      assert WatcherValid(w);
      var pri := AbsPri(w);
      events := 0;
      if w.pending != 0 {
        var i := w.pending - 1;
        events := pendings[pri][i].events;
        pendings := pendings[pri := pendings[pri][i := Entry(pendingW, events)]];
        w.pending := 0;
      }
      forall p, j | 0 <= p < NUMPRI && 0 <= j < |pendings[p]|
        ensures SlotValid(p, j)
      {
        assert old(SlotValid(p, j));
      }
      forall v | v in ws
        ensures WatcherValid(v)
      {
        assert old(WatcherValid(v));
        if v != w && v.pending > 0 { assert old(pendings)[AbsPri(v)][v.pending - 1].w == v; }
      }
    }

    /** A callback, as a list of the things it does. */
    method Callback(acts: seq<Act>)
      requires Valid() && forall i :: 0 <= i < |acts| ==> acts[i].w in ws
      modifies this`pendings, this`pendingpri, ws`pending
      ensures Valid() && pendings == DoAll(old(pendings), acts, pendingW)
      ensures pendingpri == old(pendingpri) || pendingpri == NUMPRI - 1
      ensures pendingpri == old(pendingpri) ==>
        forall p :: 0 <= p < NUMPRI && p > pendingpri && old(pendings)[p] == [] ==> pendings[p] == []
    {
      hide Valid, Find, Feed, Collected, Or, DoAll;
      assert acts[0..] == acts;
      var i := 0;
      while i < |acts|
        invariant 0 <= i <= |acts| && Valid()
        invariant DoAll(pendings, acts[i..], pendingW) == DoAll(old(pendings), acts, pendingW)
        invariant pendingpri == old(pendingpri) || pendingpri == NUMPRI - 1
        invariant pendingpri == old(pendingpri) ==>
          forall p :: 0 <= p < NUMPRI && p > pendingpri && old(pendings)[p] == [] ==> pendings[p] == []
      {
        DoAllNext(pendings, acts, i, pendingW);
        match acts[i] {
          case FeedEvent(w, events) => FeedEvent(w, events);
          case ClearPending(w) => var _ := ClearPending(w);
        }
        i := i + 1;
      }
      DoAllNone(pendings, acts, pendingW);
    }

    /** The head of ev_invoke_pending's inner loop: take the last entry of a priority. */
    method TakeLast(p: nat) returns (e: Entry)
      requires Valid() && p < NUMPRI && pendings[p] != []
      modifies this`pendings, ws`pending
      ensures Valid() && pendings == Pop(old(pendings), p)
      ensures e == old(pendings)[p][|old(pendings)[p]| - 1]
    {
      hide Total;
      var n := |pendings[p]| - 1;
      assert SlotValid(p, n);
      e := pendings[p][n];
      pendings := pendings[p := pendings[p][..n]];
      if e.w != pendingW {
        e.w.pending := 0;
      }
      forall r, j | 0 <= r < NUMPRI && 0 <= j < |pendings[r]|
        ensures SlotValid(r, j)
      {
        assert old(SlotValid(r, j));
      }
      forall v | v in ws
        ensures WatcherValid(v)
      {
        assert old(WatcherValid(v));
      }
    }

    /** One turn of the inner loop: take the last entry of the current priority and call it back. */
    method InvokeLast(script: seq<seq<Act>>) returns (calls: seq<Call>, rest: seq<seq<Act>>)
      requires Valid() && InScope(script, ws)
      requires pendingpri < NUMPRI && pendings[pendingpri] != []
      requires forall p :: pendingpri < p < NUMPRI ==> pendings[p] == []
      modifies this`pendings, this`pendingpri, ws`pending
      ensures Valid() && InScope(rest, ws) && pendingpri < NUMPRI
      ensures forall p :: pendingpri < p < NUMPRI ==> pendings[p] == []
      ensures InvokeAll(old(pendings), script, pendingW) == calls + InvokeAll(pendings, rest, pendingW)
      ensures |rest| < |script| ||
        (rest == script && Total(pendings) < Total(old(pendings)) && pendingpri == old(pendingpri))
    {
      hide Valid, Total;
      assert Top(pendings) == pendingpri;
      var e := TakeLast(pendingpri);
      calls, rest := [], script;
      if e.w != pendingW {
        calls := [Call(e.w, e.events)];
        if script != [] {
          Callback(script[0]);
          rest := script[1..];
        }
      }
    }

    /** Where a watcher is, its own slot number says. */
    lemma PendingPlace(w: Watcher)
      requires Valid() && w in ws
      ensures forall r, j :: 0 <= r < NUMPRI && 0 <= j < |pendings[r]| && pendings[r][j].w == w ==>
        r == AbsPri(w) && w.pending == j + 1
    {
      forall r, j | 0 <= r < NUMPRI && 0 <= j < |pendings[r]| && pendings[r][j].w == w
        ensures r == AbsPri(w) && w.pending == j + 1
      {
        assert SlotValid(r, j);
      }
    }

    lemma NothingPending()
      requires Valid() && AllEmpty(pendings)
      ensures forall w :: w in ws ==> w.pending == 0
    {
      assert forall w :: w in ws ==> WatcherValid(w);
    }

    /** The callbacks leave the dummy alone. */
    lemma NoneTouch(script: seq<seq<Act>>)
      requires Valid() && InScope(script, ws)
      ensures forall n :: 0 <= n < |script| ==> !Touches(script[n], pendingW)
    {
    }

    /** ev_invoke_pending's inner loop. */
    method InvokeRow(script: seq<seq<Act>>) returns (calls: seq<Call>, rest: seq<seq<Act>>)
      requires Valid() && InScope(script, ws) && pendingpri < NUMPRI
      requires forall p :: pendingpri < p < NUMPRI ==> pendings[p] == []
      modifies this`pendings, this`pendingpri, ws`pending
      ensures Valid() && InScope(rest, ws) && pendingpri < NUMPRI
      ensures forall p :: pendingpri <= p < NUMPRI ==> pendings[p] == []
      ensures InvokeAll(old(pendings), script, pendingW) == calls + InvokeAll(pendings, rest, pendingW)
      ensures |rest| < |script| ||
        (rest == script && Total(pendings) <= Total(old(pendings)) && pendingpri == old(pendingpri))
    {
      hide Valid, Total, InScope, InvokeAll;
      rest := script;
      calls := [];
      ghost var all, total := InvokeAll(pendings, script, pendingW), Total(pendings);
      while |pendings[pendingpri]| != 0
        invariant Valid() && pendingpri < NUMPRI && InScope(rest, ws)
        invariant forall p :: pendingpri < p < NUMPRI ==> pendings[p] == []
        invariant calls + InvokeAll(pendings, rest, pendingW) == all
        invariant |rest| < |script| || (rest == script && Total(pendings) <= total && pendingpri == old(pendingpri))
        decreases |rest|, Total(pendings)
      {
        var more, rest' := InvokeLast(rest);
        Regroup(calls, more, InvokeAll(pendings, rest', pendingW));
        calls, rest := calls + more, rest';
      }
    }

    /** ev_invoke_pending.  Its moving pendingpri makes exactly the calls of the specification: each is of a
        pending watcher of the highest pending priority, with the events collected for it. */
    method InvokePending(script: seq<seq<Act>>) returns (calls: seq<Call>)
      requires Valid() && InScope(script, ws)
      modifies this`pendings, this`pendingpri, ws`pending
      ensures Valid() && AllEmpty(pendings) && pendingpri == 0
      ensures calls == InvokeAll(old(pendings), script, pendingW)
      ensures Replays(old(Collected()), calls, script) && CallsCarry(old(Collected()), calls, script)
      ensures forall w :: w in ws ==> w.pending == 0
    {
      hide Valid, Total, InScope, InvokeAll, Agrees, Replays, Touches, Collected, CallsCarry;
      CollectedAgrees();
      NoneTouch(script);
      InvokeAllReplays(pendings, Collected(), script, pendingW);
      ReplaysCarry(Collected(), InvokeAll(pendings, script, pendingW), script);
      var rest: seq<seq<Act>> := script;
      calls := [];
      pendingpri := NUMPRI;
      ghost var all := InvokeAll(pendings, script, pendingW);
      while pendingpri != 0
        invariant Valid() && pendingpri <= NUMPRI && InScope(rest, ws)
        invariant forall p :: pendingpri <= p < NUMPRI ==> pendings[p] == []
        invariant calls + InvokeAll(pendings, rest, pendingW) == all
        decreases |rest|, Total(pendings), pendingpri
      {
        pendingpri := pendingpri - 1;
        var more, rest' := InvokeRow(rest);
        Regroup(calls, more, InvokeAll(pendings, rest', pendingW));
        calls, rest := calls + more, rest';
      }
      NoCalls(pendings, rest, pendingW);
      NothingPending();
    }
  }
}
