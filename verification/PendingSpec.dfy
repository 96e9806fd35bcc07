/**
What ev.c's pending queue is for, without its indices and its moving pendingpri: per priority a stack
of watchers with their collected events; an invocation takes the newest entry of the highest
priority that has one, and the callback may feed and clear watchers.
*/
module PendingSpec {
  import opened EventBits

  const EV_MINPRI: int := -2
  const EV_MAXPRI: int := 2
  const NUMPRI: nat := 5

  type Priority = p: int | EV_MINPRI <= p <= EV_MAXPRI

  datatype Callback = NoCallback | Callback(next: real -> real)

  /** The fields of ev_watcher, and behind them those of ev_timer (at, repeat) and ev_periodic (at,
      offset, interval, reschedule_cb). */
  class Watcher {
    const priority: Priority
    var active: nat
    var pending: nat
    var at: real
    var repeat: real
    var offset: real
    var interval: real
    var reschedule: Callback

    constructor (priority: Priority, at: real, repeat: real, interval: real, reschedule: Callback)
      ensures this.priority == priority && active == 0 && pending == 0
      ensures this.at == at && this.repeat == repeat
      ensures offset == at && this.interval == interval && this.reschedule == reschedule
    {
      this.priority := priority;
      active, pending := 0, 0;
      this.at, this.repeat := at, repeat;
      this.offset, this.interval, this.reschedule := at, interval, reschedule;
    }
  }

  function AbsPri(w: Watcher): (p: nat)
    ensures p < NUMPRI
  {
    w.priority - EV_MINPRI
  }

  datatype Entry = Entry(w: Watcher, events: bv32)

  type Queue = seq<seq<Entry>>

  /** The slot of a row that holds w, or the row's length. */
  function Find(row: seq<Entry>, w: Watcher): (i: nat)
    ensures i <= |row|
    ensures i < |row| ==> row[i].w == w
    ensures forall j :: 0 <= j < i ==> row[j].w != w
  {
    if row == [] then 0 else if row[0].w == w then 0 else 1 + Find(row[1..], w)
  }

  function FeedRow(row: seq<Entry>, w: Watcher, events: bv32): seq<Entry> {
    var i := Find(row, w);
    if i < |row| then row[i := Entry(w, Or(row[i].events, events))] else row + [Entry(w, events)]
  }

  function Feed(q: Queue, w: Watcher, events: bv32): (q': Queue)
    requires |q| == NUMPRI
    ensures |q'| == NUMPRI
  {
    q[AbsPri(w) := FeedRow(q[AbsPri(w)], w, events)]
  }

  /** The slot is kept and handed to the dummy watcher. */
  function ClearRow(row: seq<Entry>, w: Watcher, dummy: Watcher): seq<Entry> {
    var i := Find(row, w);
    if i < |row| then row[i := Entry(dummy, row[i].events)] else row
  }

  function Clear(q: Queue, w: Watcher, dummy: Watcher): (q': Queue)
    requires |q| == NUMPRI
    ensures |q'| == NUMPRI
  {
    q[AbsPri(w) := ClearRow(q[AbsPri(w)], w, dummy)]
  }

  /** What a callback may do to the queue. */
  datatype Act = FeedEvent(w: Watcher, events: bv32) | ClearPending(w: Watcher)

  function Do(q: Queue, a: Act, dummy: Watcher): (q': Queue)
    requires |q| == NUMPRI
    ensures |q'| == NUMPRI
  {
    match a
    case FeedEvent(w, events) => Feed(q, w, events)
    case ClearPending(w) => Clear(q, w, dummy)
  }

  function DoAll(q: Queue, acts: seq<Act>, dummy: Watcher): (q': Queue)
    requires |q| == NUMPRI
    ensures |q'| == NUMPRI
    decreases acts
  {
    if acts == [] then q else DoAll(Do(q, acts[0], dummy), acts[1..], dummy)
  }

  lemma DoAllNext(q: Queue, acts: seq<Act>, i: nat, dummy: Watcher)
    requires |q| == NUMPRI && i < |acts|
    ensures DoAll(q, acts[i..], dummy) == DoAll(Do(q, acts[i], dummy), acts[i + 1..], dummy)
  {
    assert acts[i..][1..] == acts[i + 1..];
  }

  lemma DoAllNone(q: Queue, acts: seq<Act>, dummy: Watcher)
    requires |q| == NUMPRI
    ensures DoAll(q, acts[|acts|..], dummy) == q
  {
  }

  predicate AllEmpty(q: Queue) {
    forall p :: 0 <= p < |q| ==> q[p] == []
  }

  /** The highest priority with an entry. */
  function Top(q: Queue): (p: nat)
    requires !AllEmpty(q)
    ensures p < |q| && q[p] != [] && forall r :: p < r < |q| ==> q[r] == []
    decreases q
  {
    if q[|q| - 1] != [] then |q| - 1
    else
      assert AllEmpty(q[..|q| - 1]) ==> AllEmpty(q) by {
        assert forall p :: 0 <= p < |q| - 1 ==> q[p] == q[..|q| - 1][p];
      }
      Top(q[..|q| - 1])
  }

  function Total(q: Queue): nat {
    if q == [] then 0 else |q[0]| + Total(q[1..])
  }

  lemma {:induction false} TotalUpdate(q: Queue, p: nat, row: seq<Entry>)
    requires p < |q|
    ensures Total(q[p := row]) == Total(q) - |q[p]| + |row|
    decreases q
  {
    if p > 0 {
      assert q[p := row][1..] == q[1..][p - 1 := row];
      TotalUpdate(q[1..], p - 1, row);
    }
  }

  function Pop(q: Queue, p: nat): (q': Queue)
    requires p < |q| && q[p] != []
    ensures |q'| == |q| && Total(q') < Total(q)
  {
    TotalUpdate(q, p, q[p][..|q[p]| - 1]);
    q[p := q[p][..|q[p]| - 1]]
  }

  datatype Call = Call(w: Watcher, events: bv32)

  /** What the n-th callback does is script[n]; callbacks beyond the script do nothing. */
  function Head(script: seq<seq<Act>>): seq<Act> { if script == [] then [] else script[0] }
  function Tail(script: seq<seq<Act>>): seq<seq<Act>> { if script == [] then [] else script[1..] }

  /** The callbacks that draining the queue makes, in order. */
  function InvokeAll(q: Queue, script: seq<seq<Act>>, dummy: Watcher): seq<Call>
    requires |q| == NUMPRI
    decreases |script|, Total(q)
  {
    if AllEmpty(q) then []
    else
      var p := Top(q);
      var e := q[p][|q[p]| - 1];
      if e.w == dummy then InvokeAll(Pop(q, p), script, dummy)
      else [Call(e.w, e.events)] + InvokeAll(DoAll(Pop(q, p), Head(script), dummy), Tail(script), dummy)
  }

  lemma NoCalls(q: Queue, script: seq<seq<Act>>, dummy: Watcher)
    requires |q| == NUMPRI && forall r :: 0 <= r < NUMPRI ==> q[r] == []
    ensures AllEmpty(q) && InvokeAll(q, script, dummy) == []
  {
  }

  // ---------- As a map from watchers to collected events ----------

  type Pend = map<Watcher, bv32>

  /** The queue holds exactly the watchers of m, once each, at their priority, with those events. */
  ghost predicate Agrees(q: Queue, m: Pend, dummy: Watcher) {
    && |q| == NUMPRI
    && (forall p, i :: 0 <= p < NUMPRI && 0 <= i < |q[p]| ==> SlotOk(q[p][i], p, m, dummy))
    && (forall w :: w in m ==> w != dummy && Find(q[AbsPri(w)], w) < |q[AbsPri(w)]|)
    && (forall p, i, j :: 0 <= p < NUMPRI && 0 <= i < j < |q[p]| && q[p][i].w != dummy ==> q[p][i].w != q[p][j].w)
  }

  predicate SlotOk(e: Entry, p: nat, m: Pend, dummy: Watcher) {
    e.w == dummy || (e.w in m && m[e.w] == e.events && AbsPri(e.w) == p)
  }

  function FeedMap(m: Pend, w: Watcher, events: bv32): Pend {
    m[w := if w in m then Or(m[w], events) else events]
  }

  function DoMap(m: Pend, a: Act): Pend {
    match a
    case FeedEvent(w, events) => FeedMap(m, w, events)
    case ClearPending(w) => m - {w}
  }

  function DoAllMap(m: Pend, acts: seq<Act>): Pend
    decreases acts
  {
    if acts == [] then m else DoAllMap(DoMap(m, acts[0]), acts[1..])
  }

  predicate Touches(acts: seq<Act>, dummy: Watcher) {
    exists i :: 0 <= i < |acts| && acts[i].w == dummy
  }

  /** A list of calls is what the map semantics allows: every call is of a pending watcher of the
      highest pending priority, with exactly the events collected for it since it was last called or
      cleared; it stops being pending before its callback acts; and at the end nothing is pending. */
  ghost predicate Replays(m: Pend, calls: seq<Call>, script: seq<seq<Act>>)
    decreases calls
  {
    if calls == [] then m == map[]
    else
      && calls[0].w in m && m[calls[0].w] == calls[0].events
      && (forall w :: w in m ==> AbsPri(w) <= AbsPri(calls[0].w))
      && Replays(DoAllMap(m - {calls[0].w}, Head(script)), calls[1..], Tail(script))
  }

  /** A queue stands for one map only. */
  lemma AgreesUnique(q: Queue, m: Pend, m': Pend, dummy: Watcher)
    requires Agrees(q, m, dummy) && Agrees(q, m', dummy)
    ensures m == m'
  {
    AgreesWithin(q, m, m', dummy);
    AgreesWithin(q, m', m, dummy);
  }

  lemma AgreesWithin(q: Queue, m: Pend, m': Pend, dummy: Watcher)
    requires Agrees(q, m, dummy) && Agrees(q, m', dummy)
    ensures forall w :: w in m ==> w in m' && m'[w] == m[w]
  {
    forall w | w in m
      ensures w in m' && m'[w] == m[w]
    {
      var i := Find(q[AbsPri(w)], w);
      assert SlotOk(q[AbsPri(w)][i], AbsPri(w), m, dummy) && SlotOk(q[AbsPri(w)][i], AbsPri(w), m', dummy);
    }
  }

  lemma FindUnique(row: seq<Entry>, w: Watcher, i: nat)
    requires i < |row| && row[i].w == w && forall j :: 0 <= j < |row| && j != i ==> row[j].w != w
    ensures Find(row, w) == i
  {
  }

  lemma FindIsIn(row: seq<Entry>, w: Watcher, i: nat)
    requires i < |row| && row[i].w == w
    ensures Find(row, w) <= i
  {
  }

  /** Overwriting slot i of a row, or appending to it, loses no watcher but the one overwritten. */
  lemma FindStays(row: seq<Entry>, row': seq<Entry>, i: nat, v: Watcher)
    requires Find(row, v) < |row| <= |row'|
    requires forall j :: 0 <= j < |row| && j != i ==> row'[j] == row[j]
    requires i < |row| ==> row[i].w != v || row'[i].w == v
    ensures Find(row', v) < |row'|
  {
    var k := Find(row, v);
    hide Find;
    FindIsIn(row', v, k);
  }

  lemma FedSlotOk(q: Queue, m: Pend, w: Watcher, events: bv32, dummy: Watcher, r: nat, i: nat)
    requires Agrees(q, m, dummy) && w != dummy
    requires r < NUMPRI && i < |Feed(q, w, events)[r]|
    ensures SlotOk(Feed(q, w, events)[r][i], r, FeedMap(m, w, events), dummy)
  {
    hide Or, Find;
    var q', p := Feed(q, w, events), AbsPri(w);
    var k := Find(q[p], w);
    if k < |q[p]| {
      assert SlotOk(q[p][k], p, m, dummy);
    }
    if r != p || (i < |q[p]| && i != k) {
      assert SlotOk(q[r][i], r, m, dummy);
      assert q'[r][i] == q[r][i];
      assert q[r][i].w != dummy ==> q[r][i].w != w;
    }
  }

  lemma FeedAgrees(q: Queue, m: Pend, w: Watcher, events: bv32, dummy: Watcher)
    requires Agrees(q, m, dummy) && w != dummy
    ensures Agrees(Feed(q, w, events), FeedMap(m, w, events), dummy)
  {
    hide Or, Find, SlotOk;
    var q', m', p := Feed(q, w, events), FeedMap(m, w, events), AbsPri(w);
    forall r, i | 0 <= r < NUMPRI && 0 <= i < |q'[r]|
      ensures SlotOk(q'[r][i], r, m', dummy)
    {
      FedSlotOk(q, m, w, events, dummy, r, i);
    }
    var k := Find(q[p], w);
    forall v | v in m'
      ensures v != dummy && Find(q'[AbsPri(v)], v) < |q'[AbsPri(v)]|
    {
      if v == w {
        FindIsIn(q'[p], w, k);
      } else {
        FindStays(q[AbsPri(v)], q'[AbsPri(v)], k, v);
      }
    }
    FeedDistinct(q[p], w, events, dummy);
  }

  lemma FeedDistinct(row: seq<Entry>, w: Watcher, events: bv32, dummy: Watcher)
    requires forall i, j :: 0 <= i < j < |row| && row[i].w != dummy ==> row[i].w != row[j].w
    ensures var row' := FeedRow(row, w, events);
      forall i, j :: 0 <= i < j < |row'| && row'[i].w != dummy ==> row'[i].w != row'[j].w
  {
    hide Or;
  }

  lemma ClearedSlotOk(q: Queue, m: Pend, w: Watcher, dummy: Watcher, r: nat, i: nat)
    requires Agrees(q, m, dummy) && r < NUMPRI && i < |Clear(q, w, dummy)[r]|
    ensures SlotOk(Clear(q, w, dummy)[r][i], r, m - {w}, dummy)
  {
    hide Find;
    var k := Find(q[AbsPri(w)], w);
    assert SlotOk(q[r][i], r, m, dummy);
    if r == AbsPri(w) && i != k && q[r][i].w == w {
      assert k < i;
    }
  }

  lemma ClearDistinct(row: seq<Entry>, w: Watcher, dummy: Watcher)
    requires forall i, j :: 0 <= i < j < |row| && row[i].w != dummy ==> row[i].w != row[j].w
    ensures var row' := ClearRow(row, w, dummy);
      forall i, j :: 0 <= i < j < |row'| && row'[i].w != dummy ==> row'[i].w != row'[j].w
  {
    hide Find;
  }

  lemma ClearAgrees(q: Queue, m: Pend, w: Watcher, dummy: Watcher)
    requires Agrees(q, m, dummy)
    ensures Agrees(Clear(q, w, dummy), m - {w}, dummy)
  {
    hide Find, SlotOk;
    var q', m', p := Clear(q, w, dummy), m - {w}, AbsPri(w);
    forall r, i | 0 <= r < NUMPRI && 0 <= i < |q'[r]|
      ensures SlotOk(q'[r][i], r, m', dummy)
    {
      ClearedSlotOk(q, m, w, dummy, r, i);
    }
    forall v | v in m'
      ensures v != dummy && Find(q'[AbsPri(v)], v) < |q'[AbsPri(v)]|
    {
      FindStays(q[AbsPri(v)], q'[AbsPri(v)], Find(q[p], w), v);
    }
    ClearDistinct(q[p], w, dummy);
  }

  lemma {:induction false} DoAllAgrees(q: Queue, m: Pend, acts: seq<Act>, dummy: Watcher)
    requires Agrees(q, m, dummy) && !Touches(acts, dummy)
    ensures Agrees(DoAll(q, acts, dummy), DoAllMap(m, acts), dummy)
    decreases acts
  {
    assert |q| == NUMPRI;
    hide Agrees;
    if acts != [] {
      assert acts[0].w != dummy;
      match acts[0] {
        case FeedEvent(w, events) => FeedAgrees(q, m, w, events, dummy);
        case ClearPending(w) => ClearAgrees(q, m, w, dummy);
      }
      assert forall i :: 0 <= i < |acts[1..]| ==> acts[1..][i] == acts[i + 1];
      DoAllAgrees(Do(q, acts[0], dummy), DoMap(m, acts[0]), acts[1..], dummy);
    }
  }

  lemma PoppedSlotOk(q: Queue, m: Pend, p: nat, dummy: Watcher, r: nat, i: nat)
    requires Agrees(q, m, dummy) && p < NUMPRI && q[p] != []
    requires r < NUMPRI && i < |Pop(q, p)[r]|
    ensures SlotOk(Pop(q, p)[r][i], r, m - {q[p][|q[p]| - 1].w}, dummy)
  {
    hide Find, Total;
    assert SlotOk(q[r][i], r, m, dummy);
    assert Pop(q, p)[r][i] == q[r][i];
    assert SlotOk(q[p][|q[p]| - 1], p, m, dummy);
  }

  lemma PoppedStays(q: Queue, m: Pend, p: nat, dummy: Watcher, v: Watcher)
    requires Agrees(q, m, dummy) && p < NUMPRI && q[p] != [] && v in m && v != q[p][|q[p]| - 1].w
    ensures v != dummy && Find(Pop(q, p)[AbsPri(v)], v) < |Pop(q, p)[AbsPri(v)]|
  {
    var k := Find(q[AbsPri(v)], v);
    assert q[AbsPri(v)][k].w == v;
    hide Find, SlotOk, Total;
    FindIsIn(Pop(q, p)[AbsPri(v)], v, k);
  }

  lemma PoppedDistinct(q: Queue, p: nat, dummy: Watcher)
    requires |q| == NUMPRI && p < NUMPRI && q[p] != []
    requires forall r, i, j :: 0 <= r < NUMPRI && 0 <= i < j < |q[r]| && q[r][i].w != dummy ==> q[r][i].w != q[r][j].w
    ensures var q' := Pop(q, p);
      forall r, i, j :: 0 <= r < NUMPRI && 0 <= i < j < |q'[r]| && q'[r][i].w != dummy ==> q'[r][i].w != q'[r][j].w
  {
    hide Total;
  }

  lemma PopAgrees(q: Queue, m: Pend, p: nat, dummy: Watcher)
    requires Agrees(q, m, dummy) && p < NUMPRI && q[p] != []
    ensures var e := q[p][|q[p]| - 1];
      && (e.w != dummy ==> e.w in m && m[e.w] == e.events && AbsPri(e.w) == p)
      && Agrees(Pop(q, p), m - {e.w}, dummy)
  {
    var n := |q[p]| - 1;
    var e, q' := q[p][n], Pop(q, p);
    var m' := m - {e.w};
    assert SlotOk(e, p, m, dummy);
    hide Find, SlotOk, Total, Pop;
    PoppedDistinct(q, p, dummy);
    forall r, i | 0 <= r < NUMPRI && 0 <= i < |q'[r]|
      ensures SlotOk(q'[r][i], r, m', dummy)
    {
      PoppedSlotOk(q, m, p, dummy, r, i);
    }
    forall v | v in m'
      ensures v != dummy && Find(q'[AbsPri(v)], v) < |q'[AbsPri(v)]|
    {
      PoppedStays(q, m, p, dummy, v);
    }
  }

  /** The stacks, the dummy slots and the order within a priority aside, draining the queue with
      callbacks that feed and clear as they like is the map semantics. */
  lemma {:induction false} InvokeAllReplays(q: Queue, m: Pend, script: seq<seq<Act>>, dummy: Watcher)
    requires Agrees(q, m, dummy)
    requires forall n :: 0 <= n < |script| ==> !Touches(script[n], dummy)
    ensures Replays(m, InvokeAll(q, script, dummy), script)
    decreases |script|, Total(q)
  {
    hide Touches, Find;
    if AllEmpty(q) {
      EmptyAgrees(q, m, dummy);
    } else {
      var p := Top(q);
      var e := q[p][|q[p]| - 1];
      PopAgrees(q, m, p, dummy);
      if e.w == dummy {
        assert m - {dummy} == m;
        InvokeAllReplays(Pop(q, p), m, script, dummy);
      } else {
        TopIsHighest(q, m, dummy);
        hide Agrees;
        assert !Touches(Head(script), dummy) by { NoTouch(dummy); }
        DoAllAgrees(Pop(q, p), m - {e.w}, Head(script), dummy);
        assert forall n :: 0 <= n < |Tail(script)| ==> Tail(script)[n] == script[n + 1];
        if script == [] { assert DoAll(Pop(q, p), Head(script), dummy) == Pop(q, p); }
        InvokeAllReplays(DoAll(Pop(q, p), Head(script), dummy), DoAllMap(m - {e.w}, Head(script)), Tail(script), dummy);
      }
    }
  }

  lemma NoTouch(dummy: Watcher)
    ensures !Touches([], dummy)
  {
  }

  lemma EmptyAgrees(q: Queue, m: Pend, dummy: Watcher)
    requires Agrees(q, m, dummy) && AllEmpty(q)
    ensures m == map[]
  {
    assert forall w :: w in m ==> q[AbsPri(w)] != [];
  }

  lemma TopIsHighest(q: Queue, m: Pend, dummy: Watcher)
    requires Agrees(q, m, dummy) && !AllEmpty(q)
    ensures forall w :: w in m ==> AbsPri(w) <= Top(q)
  {
    forall w | w in m
      ensures AbsPri(w) <= Top(q)
    {
      assert Find(q[AbsPri(w)], w) < |q[AbsPri(w)]|;
    }
  }

  // ---------- What a call's events are ----------

  /** What happens to the queue before the k-th call: each earlier call takes its watcher out, and its callback
      feeds and clears. */
  function LogBefore(calls: seq<Call>, script: seq<seq<Act>>, k: nat): seq<Act>
    requires k <= |calls|
    decreases k
  {
    if k == 0 then [] else [ClearPending(calls[0].w)] + Head(script) + LogBefore(calls[1..], Tail(script), k - 1)
  }

  predicate Untaken(log: seq<Act>, w: Watcher) {
    forall i :: 0 <= i < |log| ==> log[i] != ClearPending(w)
  }

  /** Act i feeds w events with a bit of the mask, and w is neither called nor cleared behind it. */
  predicate FeedsBit(log: seq<Act>, i: nat, w: Watcher, mask: bv32)
    requires i < |log|
  {
    log[i].FeedEvent? && log[i].w == w && Has(log[i].events, mask) && Untaken(log[i + 1..], w)
  }

  /** Some feed of w since it was last called or cleared has a bit of the mask, or, if it never was, what was
      collected for it at the start has one. */
  ghost predicate Carried(m: Pend, log: seq<Act>, w: Watcher, mask: bv32) {
    || (exists i :: 0 <= i < |log| && FeedsBit(log, i, w, mask))
    || (w in m && Has(m[w], mask) && Untaken(log, w))
  }

  lemma CarriedStep(m: Pend, log: seq<Act>, w: Watcher, mask: bv32)
    requires log != []
    ensures Carried(m, log, w, mask) <==> Carried(DoMap(m, log[0]), log[1..], w, mask)
  {
    var m', rest := DoMap(m, log[0]), log[1..];
    UntakenStep(log, w);
    FedStep(log, w, mask);
    FeedBits(m, log[0], w, mask);
    hide FeedsBit, DoMap, Untaken, Has;
  }

  lemma UntakenStep(log: seq<Act>, w: Watcher)
    requires log != []
    ensures Untaken(log, w) <==> log[0] != ClearPending(w) && Untaken(log[1..], w)
  {
    assert forall i :: 0 <= i < |log[1..]| ==> log[1..][i] == log[i + 1];
  }

  /** The first act decides alone, or one behind it does. */
  lemma FedStep(log: seq<Act>, w: Watcher, mask: bv32)
    requires log != []
    ensures (exists i :: 0 <= i < |log| && FeedsBit(log, i, w, mask)) <==>
      || (log[0].FeedEvent? && log[0].w == w && Has(log[0].events, mask) && Untaken(log[1..], w))
      || (exists i :: 0 <= i < |log[1..]| && FeedsBit(log[1..], i, w, mask))
  {
    var rest := log[1..];
    forall i | 0 <= i < |rest|
      ensures FeedsBit(log, i + 1, w, mask) <==> FeedsBit(rest, i, w, mask)
    {
      assert log[i + 2..] == rest[i + 1..];
    }
    assert FeedsBit(log, 0, w, mask) <==>
      log[0].FeedEvent? && log[0].w == w && Has(log[0].events, mask) && Untaken(rest, w);
    hide FeedsBit, Has;
    if i :| 0 <= i < |log| && FeedsBit(log, i, w, mask) {
      assert i > 0 ==> FeedsBit(rest, i - 1, w, mask);
    }
    if i :| 0 <= i < |rest| && FeedsBit(rest, i, w, mask) {
      assert FeedsBit(log, i + 1, w, mask);
    }
  }

  /** What one act does to a bit collected for w. */
  lemma FeedBits(m: Pend, a: Act, w: Watcher, mask: bv32)
    ensures var m' := DoMap(m, a);
      w in m' && Has(m'[w], mask) <==>
        || (a.FeedEvent? && a.w == w && Has(a.events, mask))
        || (w in m && Has(m[w], mask) && a != ClearPending(w))
  {
    hide Or, Has;
    if a.FeedEvent? && a.w == w && w in m { OrHas(m[w], a.events, mask); }
  }

  lemma {:induction false} CarriedMeans(m: Pend, log: seq<Act>, w: Watcher, mask: bv32)
    ensures var m' := DoAllMap(m, log);
      w in m' && Has(m'[w], mask) <==> Carried(m, log, w, mask)
    decreases log
  {
    hide DoMap, FeedsBit;
    if log != [] {
      CarriedStep(m, log, w, mask);
      CarriedMeans(DoMap(m, log[0]), log[1..], w, mask);
    }
  }

  lemma {:induction false} DoAllMapConcat(m: Pend, a: seq<Act>, b: seq<Act>)
    ensures DoAllMap(m, a + b) == DoAllMap(DoAllMap(m, a), b)
    decreases a
  {
    hide DoMap;
    if a == [] {
      assert a + b == b;
    } else {
      assert (a + b)[1..] == a[1..] + b;
      DoAllMapConcat(DoMap(m, a[0]), a[1..], b);
    }
  }

  /** The k-th call is of a watcher that is pending then, with the events collected for it. */
  lemma {:induction false} ReplaysAt(m: Pend, calls: seq<Call>, script: seq<seq<Act>>, k: nat)
    requires Replays(m, calls, script) && k < |calls|
    ensures var m' := DoAllMap(m, LogBefore(calls, script, k));
      && calls[k].w in m' && m'[calls[k].w] == calls[k].events
      && forall w :: w in m' ==> AbsPri(w) <= AbsPri(calls[k].w)
    decreases k
  {
    if k > 0 {
      var taken := [ClearPending(calls[0].w)];
      var rest := LogBefore(calls[1..], Tail(script), k - 1);
      ReplaysAt(DoAllMap(m - {calls[0].w}, Head(script)), calls[1..], Tail(script), k - 1);
      assert DoAllMap(m, taken) == m - {calls[0].w};
      hide Replays;
      DoAllMapConcat(m, taken, Head(script));
      DoAllMapConcat(m, taken + Head(script), rest);
    }
  }

  /** Every call carries exactly the bits of the events fed to its watcher since it was last called or
      cleared. */
  ghost predicate CallsCarry(m: Pend, calls: seq<Call>, script: seq<seq<Act>>) {
    forall k, mask :: 0 <= k < |calls| ==>
      (Has(calls[k].events, mask) <==> Carried(m, LogBefore(calls, script, k), calls[k].w, mask))
  }

  lemma ReplaysCarry(m: Pend, calls: seq<Call>, script: seq<seq<Act>>)
    requires Replays(m, calls, script)
    ensures CallsCarry(m, calls, script)
  {
    hide Replays, Carried, LogBefore, DoAllMap;
    forall k, mask | 0 <= k < |calls|
      ensures Has(calls[k].events, mask) <==> Carried(m, LogBefore(calls, script, k), calls[k].w, mask)
    {
      ReplaysAt(m, calls, script, k);
      CarriedMeans(m, LogBefore(calls, script, k), calls[k].w, mask);
    }
  }
}
