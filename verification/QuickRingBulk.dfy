/**
The bulk receive of quickMsgRing.c against a producer that goes on: QuickMsgRingBeginRecvMsgBulk as steps that
interleave with the producer's, beside the single receive of QuickRingProtocol.
*/
module QuickRingBulk {
  import opened Common
  import opened RingCore
  import opened QuickRing
  import opened QuickRingProtocol

  datatype BulkPc = BIdle | BTurn | BSawEqual | BRead | BAtFrame | BDone

  /** The locals of the receive loop. */
  datatype Bulk = Bulk(pc: BulkPc, tmpOut: nat, max: nat, msgs: seq<(nat, nat)>)

  datatype Whole = Whole(s: State, b: Bulk)

  datatype Act =
    | Other(a: Action)       // a step of the producer or of a single receive
    | BBegin(max: nat)       // sample out
    | BCompare               // head of the loop: n < max, and compare tmpOut with in
    | BTestFlag              // test emptyFlag
    | BReadFiller            // skip a filler word
    | BReadLength            // read the length and take the message
    | BCommit                // RecvMsgComplete: out = nextOut
    | BAbandon               // the messages are given up

  predicate CanDo(w: Whole, a: Act) {
    match a
    case Other(x) => Enabled(w.s.k, x) && (x.CBegin? ==> w.b.pc == BIdle)
    case BBegin(_) => w.b.pc == BIdle && w.s.k.c.pc == CIdle
    case BCompare => w.b.pc == BTurn
    case BTestFlag => w.b.pc == BSawEqual
    case BReadFiller => w.b.pc == BRead
    case BReadLength => w.b.pc == BAtFrame
    case BCommit => w.b.pc == BDone
    case BAbandon => w.b.pc == BDone
  }

  /** The loop is left: nextOut = tmpOut. */
  function Leave(w: Whole): Whole {
    Whole(w.s.(k := w.s.k.(nextOut := w.b.tmpOut)), w.b.(pc := BDone))
  }

  /** The words a message pointer and its length denote. */
  function Body(buf: seq<nat>, m: (nat, nat)): seq<nat> {
    if m.0 + m.1 <= |buf| then buf[m.0..m.0 + m.1] else []
  }

  function Bodied(buf: seq<nat>, msgs: seq<(nat, nat)>): (q: seq<seq<nat>>)
    ensures |q| == |msgs|
  {
    if msgs == [] then [] else Bodied(buf, msgs[..|msgs| - 1]) + [Body(buf, msgs[|msgs| - 1])]
  }

  /** out moves behind the messages in hand; emptyFlag is stored by the steps of a single receive. */
  function Committed(w: Whole): Whole {
    var k, h, n := w.s.k, w.s.h, |w.b.msgs|;
    var h' := if n <= |h.frames| then
        h.(vout := h.vout + Extent(h.frames[..n]), frames := h.frames[n..], received := h.received + Bodied(k.buf, w.b.msgs))
      else h;
    Whole(State(k.(outIdx := k.nextOut, c := k.c.(pc := CAdvanced)), h'), w.b.(pc := BIdle))
  }

  function Next(w: Whole, a: Act): Whole
    requires CanDo(w, a)
  {
    var k, b := w.s.k, w.b;
    match a
    case Other(x) => w.(s := Step(w.s, x))
    case BBegin(max) => w.(b := Bulk(BTurn, k.outIdx, max, []))
    case BCompare =>
      if |b.msgs| >= b.max then Leave(w)
      else w.(b := b.(pc := if b.tmpOut == k.inIdx then BSawEqual else BRead))
    case BTestFlag => if k.emptyFlag == 1 then Leave(w) else w.(b := b.(pc := BRead))
    case BReadFiller => w.(b := b.(pc := BAtFrame, tmpOut := if Read(k, b.tmpOut) == |k.buf| then 0 else b.tmpOut))
    case BReadLength =>
      var len := Read(k, b.tmpOut);
      w.(b := b.(pc := BTurn, msgs := b.msgs + [(b.tmpOut + RESERV_LEN, len)],
                 tmpOut := if |k.buf| > 0 then Slot(b.tmpOut + len + RESERV_LEN, |k.buf|) else 0))
    case BCommit => Committed(w)
    case BAbandon => w.(b := b.(pc := BIdle))
  }

  // ---------- Invariant ----------

  ghost predicate Pointed(n: nat, msgs: seq<(nat, nat)>, vout: nat, frames: seq<Record>) {
    && |msgs| <= |frames|
    && forall i :: 0 <= i < |msgs| ==> PointsAt(n, msgs[i], vout + Extent(frames[..i]), frames[i])
  }

  /** What is in hand is the front of the queue, and tmpOut is behind it. */
  ghost predicate BulkOk(n: nat, b: Bulk, nextOut: nat, vout: nat, frames: seq<Record>) {
    b.pc != BIdle ==>
      && n > 0 && Pointed(n, b.msgs, vout, frames) && |b.msgs| <= b.max
      && (b.pc == BTurn || b.pc == BSawEqual || b.pc == BRead ==> b.tmpOut == Slot(vout + Extent(frames[..|b.msgs|]), n))
      && (b.pc == BSawEqual ==> |b.msgs| < b.max)
      && (b.pc == BRead || b.pc == BAtFrame ==> |b.msgs| < b.max && |b.msgs| < |frames|)
      && (b.pc == BAtFrame ==> b.tmpOut == FrameStart(n, vout + Extent(frames[..|b.msgs|]), frames[|b.msgs|]))
      && (b.pc == BDone ==> nextOut == Slot(vout + Extent(frames[..|b.msgs|]), n))
  }

  /** The loop stops at in, or need not. */
  predicate Proper(max: nat, emptyFlag: nat, frames: seq<Record>) {
    emptyFlag == 1 || max <= |frames|
  }

  ghost predicate Sound(w: Whole) {
    && Inv(w.s)
    && (w.b.pc != BIdle ==> w.s.k.c.pc == CIdle)
    && BulkOk(|w.s.k.buf|, w.b, w.s.k.nextOut, w.s.h.vout, w.s.h.frames)
  }

  ghost predicate InvBulk(w: Whole) {
    Sound(w) && (w.b.pc != BIdle && w.b.pc != BDone ==> Proper(w.b.max, w.s.k.emptyFlag, w.s.h.frames))
  }

  // ---------- Reading the layout behind the messages in hand ----------

  /** Behind the first n records the layout is as good. */
  lemma DropLayout(buf: seq<nat>, vout: nat, frames: seq<Record>, rsv: seq<Record>, n: nat)
    requires LayoutOk(buf, vout, frames, rsv) && n <= |frames|
    ensures LayoutOk(buf, vout + Extent(frames[..n]), frames[n..], rsv)
    ensures Extent(frames[..n]) + Extent(frames[n..]) == Extent(frames)
  {
    hide Tiled, Extent, WellFormed;
    ExtentConcat(frames[..n], frames[n..]);
    assert frames == frames[..n] + frames[n..];
    assert frames + rsv == frames[..n] + (frames[n..] + rsv);
    TiledConcat(buf, vout, frames[..n], frames[n..] + rsv);
  }

  lemma ExtentNext(frames: seq<Record>, n: nat)
    requires n < |frames|
    ensures Extent(frames[..n + 1]) == Extent(frames[..n]) + frames[n].Len()
  {
    hide Extent;
    assert frames[..n + 1] == frames[..n] + [frames[n]];
    ExtentConcat(frames[..n], [frames[n]]);
    ExtentOne(frames[n]);
  }

  /** tmpOut equals in exactly when everything published has been taken. */
  lemma AtInIff(s: State, n: nat)
    requires Inv(s) && n <= |s.h.frames|
    ensures Slot(s.h.vout + Extent(s.h.frames[..n]), |s.k.buf|) == s.k.inIdx <==> n == |s.h.frames|
  {
    hide LayoutOk, Slot, Extent, ProducerOk, ConsumerOk;
    DropLayout(s.k.buf, s.h.vout, s.h.frames, s.h.rsv, n);
    EqualIffEmpty(s.k.buf, s.h.vout + Extent(s.h.frames[..n]), s.h.frames[n..], s.h.rsv);
  }

  lemma PointedNext(n: nat, msgs: seq<(nat, nat)>, vout: nat, frames: seq<Record>, m: (nat, nat))
    requires Pointed(n, msgs, vout, frames) && |msgs| < |frames|
    requires PointsAt(n, m, vout + Extent(frames[..|msgs|]), frames[|msgs|])
    ensures Pointed(n, msgs + [m], vout, frames)
  {
    hide PointsAt, Extent;
  }

  /** The pointers stay good when more is published. */
  lemma PointedGrows(n: nat, msgs: seq<(nat, nat)>, vout: nat, frames: seq<Record>, more: seq<Record>)
    requires Pointed(n, msgs, vout, frames)
    ensures Pointed(n, msgs, vout, frames + more)
  {
    hide PointsAt, Extent;
    forall i | 0 <= i < |msgs|
      ensures PointsAt(n, msgs[i], vout + Extent((frames + more)[..i]), (frames + more)[i])
    {
      assert (frames + more)[..i] == frames[..i];
    }
  }

  /** What the pointers in hand denote is the front of the queue. */
  lemma {:induction false} InHandIsFront(buf: seq<nat>, msgs: seq<(nat, nat)>, vout: nat, frames: seq<Record>, rsv: seq<Record>)
    requires LayoutOk(buf, vout, frames, rsv) && Pointed(|buf|, msgs, vout, frames)
    ensures Bodied(buf, msgs) == Bodies(frames)[..|msgs|]
    decreases |msgs|
  {
    hide LayoutOk, Slot, Extent, FrameStart;
    if msgs != [] {
      var n := |msgs| - 1;
      InHandIsFront(buf, msgs[..n], vout, frames, rsv);
      DropLayout(buf, vout, frames, rsv, n);
      FrontFrame(buf, vout + Extent(frames[..n]), frames[n..], rsv);
      BodyAt(frames, n);
      assert frames[n..][0] == frames[n];
      assert PointsAt(|buf|, msgs[n], vout + Extent(frames[..n]), frames[n]);
      assert Bodies(frames)[..n + 1] == Bodies(frames)[..n] + [Bodies(frames)[n]];
    }
  }

  // ---------- Every step keeps the invariant ----------

  /** While no single receive is under way the other steps are the producer's. */
  lemma ProducerLeaves(s: State, x: Action)
    requires Inv(s) && s.k.c.pc == CIdle && Enabled(s.k, x) && !x.CBegin?
    ensures var s' := Step(s, x);
      && s'.k.c == s.k.c && s'.k.emptyFlag == s.k.emptyFlag && s'.k.nextOut == s.k.nextOut && |s'.k.buf| == |s.k.buf|
      && s'.h.vout == s.h.vout && (s'.h.frames == s.h.frames || s'.h.frames == s.h.frames + s.h.rsv)
  {
    hide Inv, Place, Advance, Fits, Slot;
  }

  lemma BulkOkGrows(n: nat, b: Bulk, nextOut: nat, vout: nat, frames: seq<Record>, more: seq<Record>)
    requires BulkOk(n, b, nextOut, vout, frames)
    ensures BulkOk(n, b, nextOut, vout, frames + more)
  {
    hide Extent, Slot, FrameStart, Pointed;
    if b.pc != BIdle {
      PointedGrows(n, b.msgs, vout, frames, more);
      assert |b.msgs| <= |frames| by { PointedLength(n, b.msgs, vout, frames); }
      assert (frames + more)[..|b.msgs|] == frames[..|b.msgs|];
    }
  }

  lemma PointedLength(n: nat, msgs: seq<(nat, nat)>, vout: nat, frames: seq<Record>)
    requires Pointed(n, msgs, vout, frames)
    ensures |msgs| <= |frames|
  {
  }

  lemma OtherKeepsSound(w: Whole, x: Action)
    requires Sound(w) && CanDo(w, Other(x))
    ensures Sound(Next(w, Other(x)))
    ensures w.b.pc != BIdle ==> |w.s.h.frames| <= |Step(w.s, x).h.frames| && Step(w.s, x).k.emptyFlag == w.s.k.emptyFlag
  {
    hide Inv, BulkOk, Enabled, Step;
    StepKeepsInv(w.s, x);
    if w.b.pc != BIdle {
      ProducerLeaves(w.s, x) by { EnabledIdle(w, x); }
      EnabledIdle(w, x);
      if Step(w.s, x).h.frames != w.s.h.frames {
        BulkOkGrows(|w.s.k.buf|, w.b, w.s.k.nextOut, w.s.h.vout, w.s.h.frames, w.s.h.rsv);
      }
    } else {
      IdleIsOk(|Next(w, Other(x)).s.k.buf|, w.b, Next(w, Other(x)).s.k.nextOut, Next(w, Other(x)).s.h.vout, Next(w, Other(x)).s.h.frames);
    }
  }

  lemma EnabledIdle(w: Whole, x: Action)
    requires CanDo(w, Other(x)) && w.b.pc != BIdle
    ensures Enabled(w.s.k, x) && !x.CBegin?
  {
  }

  lemma IdleIsOk(n: nat, b: Bulk, nextOut: nat, vout: nat, frames: seq<Record>)
    requires b.pc == BIdle
    ensures BulkOk(n, b, nextOut, vout, frames)
  {
  }

  lemma BeginKeepsSound(w: Whole, max: nat)
    requires Sound(w) && CanDo(w, BBegin(max))
    ensures Sound(Next(w, BBegin(max)))
  {
    hide LayoutOk, ProducerOk, FrameStart, Slot, PointsAt;
    assert w.s.h.frames[..0] == [];
  }

  /** Leaving the loop. */
  lemma LeaveKeepsSound(w: Whole)
    requires Sound(w) && (w.b.pc == BTurn || w.b.pc == BSawEqual)
    ensures Sound(Leave(w))
  {
    hide LayoutOk, ProducerOk, FrameStart, Slot, PointsAt, Extent;
  }

  lemma CompareKeepsSound(w: Whole)
    requires Sound(w) && CanDo(w, BCompare)
    ensures Sound(Next(w, BCompare))
  {
    if |w.b.msgs| >= w.b.max {
      LeaveKeepsSound(w);
    } else {
      AtInIff(w.s, |w.b.msgs|);
    }
    hide Inv, Slot, PointsAt, Extent, FrameStart;
  }

  lemma TestKeepsSound(w: Whole)
    requires InvBulk(w) && CanDo(w, BTestFlag)
    ensures Sound(Next(w, BTestFlag))
  {
    hide Inv, Slot, PointsAt, Extent, FrameStart;
    if w.s.k.emptyFlag == 1 {
      LeaveKeepsSound(w);
    }
  }

  /** What the loop reads where it is. */
  lemma FrontBehind(w: Whole)
    requires Sound(w) && (w.b.pc == BRead || w.b.pc == BAtFrame)
    ensures var k, h, n, m := w.s.k, w.s.h, |w.b.msgs|, |w.s.k.buf|;
      && m > 0 && n < |h.frames| && n < w.b.max && 0 < |h.frames[n].words|
      && var r, v := h.frames[n], h.vout + Extent(h.frames[..n]);
      var p := FrameStart(m, v, r);
      && p < m && Slot(v, m) < m && (k.buf[Slot(v, m)] == m <==> r.pad > 0)
      && k.buf[p] == |r.words| - 1 && Slot(v + r.Len(), m) == Slot(p + |r.words|, m)
      && w.b.tmpOut == (if w.b.pc == BRead then Slot(v, m) else p)
      && Pointed(m, w.b.msgs, h.vout, h.frames)
  {
    hide LayoutOk, ProducerOk, Extent, PointsAt;
    var k, h, n := w.s.k, w.s.h, |w.b.msgs|;
    DropLayout(k.buf, h.vout, h.frames, h.rsv, n);
    FrontFrame(k.buf, h.vout + Extent(h.frames[..n]), h.frames[n..], h.rsv);
    assert h.frames[n..][0] == h.frames[n];
  }

  lemma FillerKeepsSound(w: Whole)
    requires Sound(w) && CanDo(w, BReadFiller)
    ensures Sound(Next(w, BReadFiller))
  {
    FrontBehind(w);
    hide Inv, Extent, Slot, PointsAt, Pointed;
  }

  /** Taking the message at tmpOut. */
  lemma TakeKeepsBulk(n: nat, b: Bulk, nextOut: nat, vout: nat, frames: seq<Record>, t: nat)
    requires b.pc == BAtFrame && BulkOk(n, b, nextOut, vout, frames) && 0 < |frames[|b.msgs|].words|
    requires t == Slot(vout + Extent(frames[..|b.msgs|]) + frames[|b.msgs|].Len(), n)
    ensures BulkOk(n, Bulk(BTurn, t, b.max, b.msgs + [(b.tmpOut + 1, |frames[|b.msgs|].words| - 1)]), nextOut, vout, frames)
  {
    hide FrameStart, Slot, Extent, Pointed;
    PointedNext(n, b.msgs, vout, frames, (b.tmpOut + 1, |frames[|b.msgs|].words| - 1));
    ExtentNext(frames, |b.msgs|);
  }

  lemma LengthKeepsSound(w: Whole)
    requires Sound(w) && CanDo(w, BReadLength)
    ensures Sound(Next(w, BReadLength))
  {
    hide Inv, FrameStart, Slot, Extent, Pointed, BulkOk;
    FrontBehind(w);
    var k, h, n := w.s.k, w.s.h, |w.b.msgs|;
    TakeKeepsBulk(|k.buf|, w.b, k.nextOut, h.vout, h.frames, Slot(w.b.tmpOut + |h.frames[n].words|, |k.buf|));
  }

  lemma SplitQueue(frames: seq<Record>, n: nat)
    requires n <= |frames|
    ensures Bodies(frames)[..n] == Bodies(frames[..n]) && Bodies(frames)[n..] == Bodies(frames[n..])
  {
    BodiesConcat(frames[..n], frames[n..]);
    assert frames == frames[..n] + frames[n..];
    hide Bodies;
  }

  /** The ring behind a bulk commit. */
  lemma CommitKeepsRing(w: Whole)
    requires Sound(w) && CanDo(w, BCommit)
    requires Bodied(w.s.k.buf, w.b.msgs) + Bodies(w.s.h.frames[|w.b.msgs|..]) == Bodies(w.s.h.frames)
    ensures Inv(Committed(w).s)
  {
    hide LayoutOk, Slot, Extent, Pointed, Bodied, Bodies, ProducerOk;
    var k, h, n := w.s.k, w.s.h, |w.b.msgs|;
    PointedLength(|k.buf|, w.b.msgs, h.vout, h.frames);
    DropLayout(k.buf, h.vout, h.frames, h.rsv, n);
    var h' := Committed(w).s.h;
    assert Vin(h') == Vin(h);
    ProducerOkLater(|k.buf|, k.p, k.nextIn, h.vpo, h.vout, h'.vout, Vin(h), h.rsv);
    Regroup(h.received, Bodied(k.buf, w.b.msgs), Bodies(h.frames[n..]));
  }

  /** Completing a bulk receive removes exactly the messages in hand, which are the oldest. */
  lemma CommitKeepsSound(w: Whole)
    requires Sound(w) && CanDo(w, BCommit)
    ensures Sound(Next(w, BCommit))
    ensures var n, w' := |w.b.msgs|, Next(w, BCommit);
      && n <= |Queue(w.s)| && Bodied(w.s.k.buf, w.b.msgs) == Queue(w.s)[..n]
      && Queue(w'.s) == Queue(w.s)[n..] && w'.s.h.received == w.s.h.received + Queue(w.s)[..n]
  {
    hide Inv, LayoutOk, Slot, PointsAt, Extent, Bodied, Bodies, PointersOk, Pointed;
    var k, h, n := w.s.k, w.s.h, |w.b.msgs|;
    InvHasLayout(w.s);
    PointedLength(|k.buf|, w.b.msgs, h.vout, h.frames);
    InHandIsFront(k.buf, w.b.msgs, h.vout, h.frames, h.rsv);
    SplitQueue(h.frames, n);
    assert Bodies(h.frames) == Bodies(h.frames)[..n] + Bodies(h.frames)[n..];
    CommitKeepsRing(w);
  }

  lemma InvHasLayout(s: State)
    requires Inv(s)
    ensures LayoutOk(s.k.buf, s.h.vout, s.h.frames, s.h.rsv)
  {
  }

  /** Bulk receives begin only where the loop stops at in or need not. */
  predicate ProperAct(w: Whole, a: Act) {
    a.BBegin? ==> Proper(a.max, w.s.k.emptyFlag, w.s.h.frames)
  }

  lemma ActKeepsInv(w: Whole, a: Act)
    requires InvBulk(w) && CanDo(w, a) && ProperAct(w, a)
    ensures InvBulk(Next(w, a))
  {
    hide Inv, BulkOk;
    match a
    case Other(x) => OtherKeepsSound(w, x);
    case BBegin(max) => BeginKeepsSound(w, max);
    case BCompare => CompareKeepsSound(w);
    case BTestFlag => TestKeepsSound(w);
    case BReadFiller => FillerKeepsSound(w);
    case BReadLength => LengthKeepsSound(w);
    case BCommit => CommitKeepsSound(w);
    case BAbandon => IdleIsOk(|w.s.k.buf|, Next(w, a).b, w.s.k.nextOut, w.s.h.vout, w.s.h.frames);
  }

  // ---------- Runs ----------

  predicate IsRunOf(w: Whole, acts: seq<Act>)
    decreases |acts|
  {
    acts != [] ==> CanDo(w, acts[0]) && IsRunOf(Next(w, acts[0]), acts[1..])
  }

  function ExecOf(w: Whole, acts: seq<Act>): Whole
    requires IsRunOf(w, acts)
    decreases |acts|
  {
    if acts == [] then w else ExecOf(Next(w, acts[0]), acts[1..])
  }

  /** No bulk receive of the run begins where it might run past in. */
  predicate ProperRun(w: Whole, acts: seq<Act>)
    requires IsRunOf(w, acts)
    decreases |acts|
  {
    acts != [] ==> ProperAct(w, acts[0]) && ProperRun(Next(w, acts[0]), acts[1..])
  }

  lemma {:induction false} RunKeepsBulk(w: Whole, acts: seq<Act>)
    requires InvBulk(w) && IsRunOf(w, acts) && ProperRun(w, acts)
    ensures InvBulk(ExecOf(w, acts))
    decreases |acts|
  {
    hide InvBulk, CanDo, Next, ProperAct;
    if acts != [] {
      ActKeepsInv(w, acts[0]);
      RunKeepsBulk(Next(w, acts[0]), acts[1..]);
    }
  }

  predicate InitWhole(w: Whole) { Init(w.s) && w.b.pc == BIdle }

  /** Over any interleaving, with single and bulk receives: what was received is what was sent, in order, less
      what is queued, and the messages a bulk receive has in hand are the oldest in the queue. */
  lemma EveryBulkRunIsFifo(w0: Whole, acts: seq<Act>)
    requires InitWhole(w0) && IsRunOf(w0, acts) && ProperRun(w0, acts)
    ensures var w := ExecOf(w0, acts);
      && w.s.h.sent == w.s.h.received + Queue(w.s)
      && (w.s.k.inIdx == w.s.k.outIdx <==> Queue(w.s) == [])
      && (w.s.k.c.pc == CIdle && w.s.k.emptyFlag != 1 ==> Queue(w.s) != [])
      && (w.b.pc != BIdle ==>
            && |w.b.msgs| <= w.b.max && |w.b.msgs| <= |Queue(w.s)|
            && Bodied(w.s.k.buf, w.b.msgs) == Queue(w.s)[..|w.b.msgs|])
  {
    hide Inv, Init, BulkOk, Bodies, Bodied, Next, CanDo, ProperAct, IsRunOf, ExecOf, ProperRun;
    InitInv(w0.s);
    IdleIsOk(|w0.s.k.buf|, w0.b, w0.s.k.nextOut, w0.s.h.vout, w0.s.h.frames);
    RunKeepsBulk(w0, acts);
    var w := ExecOf(w0, acts);
    InvMeans(w.s);
    if w.b.pc != BIdle {
      InHand(w);
    }
  }

  lemma InHand(w: Whole)
    requires Sound(w) && w.b.pc != BIdle
    ensures |w.b.msgs| <= w.b.max && |w.b.msgs| <= |Queue(w.s)|
    ensures Bodied(w.s.k.buf, w.b.msgs) == Queue(w.s)[..|w.b.msgs|]
  {
    hide LayoutOk, ProducerOk, ConsumerOk, Slot, Extent, PointsAt, Bodied, Bodies;
    InHandIsFront(w.s.k.buf, w.b.msgs, w.s.h.vout, w.s.h.frames, w.s.h.rsv);
  }

  // ---------- When a bulk receive may run past in ----------

  /** The loop is about to read at in, where nothing is published. */
  predicate Overruns(w: Whole) {
    w.b.pc == BRead && w.b.tmpOut == w.s.k.inIdx
  }

  /** A run during which the call does not return: the loop and the producer, in any interleaving. */
  predicate InCall(acts: seq<Act>) {
    forall i :: 0 <= i < |acts| ==> acts[i] != BCommit && acts[i] != BAbandon && !acts[i].BBegin?
  }

  lemma {:induction false} CallIsProper(w: Whole, acts: seq<Act>)
    requires IsRunOf(w, acts) && InCall(acts)
    ensures ProperRun(w, acts)
    decreases |acts|
  {
    hide CanDo, Next;
    if acts != [] {
      assert InCall(acts[1..]);
      CallIsProper(Next(w, acts[0]), acts[1..]);
    }
  }

  lemma ReadsPublished(w: Whole)
    requires Sound(w)
    ensures !Overruns(w)
  {
    if w.b.pc == BRead {
      hide Inv, Slot, Extent, Pointed;
      AtInIff(w.s, |w.b.msgs|);
    }
  }

  lemma OneStep(w: Whole, a: Act, rest: seq<Act>)
    requires CanDo(w, a) && IsRunOf(Next(w, a), rest)
    ensures IsRunOf(w, [a] + rest) && ExecOf(w, [a] + rest) == ExecOf(Next(w, a), rest)
  {
    hide CanDo, Next;
    assert ([a] + rest)[1..] == rest;
  }

  lemma ThreeSteps(w: Whole, a: Act, b: Act, c: Act, rest: seq<Act>)
    requires CanDo(w, a) && CanDo(Next(w, a), b) && CanDo(Next(Next(w, a), b), c)
    requires IsRunOf(Next(Next(Next(w, a), b), c), rest)
    ensures IsRunOf(w, [a, b, c] + rest) && ExecOf(w, [a, b, c] + rest) == ExecOf(Next(Next(Next(w, a), b), c), rest)
  {
    hide CanDo, Next, IsRunOf, ExecOf;
    OneStep(Next(Next(w, a), b), c, rest);
    OneStep(Next(w, a), b, [c] + rest);
    OneStep(w, a, [b] + ([c] + rest));
    assert [a, b, c] + rest == [a] + ([b] + ([c] + rest));
  }

  lemma TwoSteps(w: Whole, a: Act, b: Act)
    requires CanDo(w, a) && CanDo(Next(w, a), b)
    ensures IsRunOf(w, [a, b]) && ExecOf(w, [a, b]) == Next(Next(w, a), b)
  {
    hide CanDo, Next;
    OneStep(Next(w, a), b, []);
    OneStep(w, a, [b] + []);
    assert [a] + ([b] + []) == [a, b];
  }

  /** A turn of the loop that takes a message. */
  lemma TurnAlone(w: Whole) returns (w': Whole)
    requires Sound(w) && w.b.pc == BTurn && |w.b.msgs| < w.b.max && |w.b.msgs| < |w.s.h.frames|
    ensures CanDo(w, BCompare) && CanDo(Next(w, BCompare), BReadFiller)
    ensures CanDo(Next(Next(w, BCompare), BReadFiller), BReadLength)
    ensures w' == Next(Next(Next(w, BCompare), BReadFiller), BReadLength)
    ensures Sound(w') && w'.s == w.s && w'.b.pc == BTurn && w'.b.max == w.b.max && |w'.b.msgs| == |w.b.msgs| + 1
  {
    CompareKeepsSound(w);
    AtInIff(w.s, |w.b.msgs|);
    hide Inv, Slot, Extent, Pointed, FrameStart;
    var w1 := Next(w, BCompare);
    FillerKeepsSound(w1);
    var w2 := Next(w1, BReadFiller);
    LengthKeepsSound(w2);
    w' := Next(w2, BReadLength);
  }

  /** The loop on its own, with emptyFlag not 1 and more asked for than is queued, runs past in. */
  lemma {:induction false} AloneOverruns(w: Whole) returns (acts: seq<Act>)
    requires Sound(w) && w.b.pc == BTurn && w.s.k.emptyFlag != 1 && w.b.max > |w.s.h.frames|
    ensures InCall(acts) && IsRunOf(w, acts) && Overruns(ExecOf(w, acts))
    decreases |w.s.h.frames| - |w.b.msgs|
  {
    hide Inv, BulkOk, IsRunOf, ExecOf;
    TurnHas(w);
    if |w.b.msgs| < |w.s.h.frames| {
      var w' := TurnAlone(w);
      var rest := AloneOverruns(w');
      acts := [BCompare, BReadFiller, BReadLength] + rest;
      ThreeSteps(w, BCompare, BReadFiller, BReadLength, rest);
    } else {
      acts := [BCompare, BTestFlag];
      TwoSteps(w, BCompare, BTestFlag);
    }
  }

  lemma TurnHas(w: Whole)
    requires Sound(w) && w.b.pc == BTurn
    ensures |w.b.msgs| <= |w.s.h.frames|
    ensures |w.b.msgs| == |w.s.h.frames| ==> w.b.tmpOut == w.s.k.inIdx
  {
    hide LayoutOk, ProducerOk, ConsumerOk, Slot, Extent, PointsAt;
    AtInIff(w.s, |w.b.msgs|);
  }

  /** Whatever the producer does meanwhile, the loop reads only what is published, if and only if emptyFlag is 1
      at its beginning or no more is asked for than is queued then. */
  lemma BulkIsSafeIff(w: Whole, max: nat)
    requires InvBulk(w) && CanDo(w, BBegin(max))
    ensures (forall acts: seq<Act> :: InCall(acts) && IsRunOf(Next(w, BBegin(max)), acts) ==>
               !Overruns(ExecOf(Next(w, BBegin(max)), acts))) <==> Proper(max, w.s.k.emptyFlag, w.s.h.frames)
  {
    hide Inv, BulkOk, IsRunOf, ExecOf, InCall, Overruns, ProperRun;
    BeginKeepsSound(w, max);
    var w1 := Next(w, BBegin(max));
    if Proper(max, w.s.k.emptyFlag, w.s.h.frames) {
      forall acts: seq<Act> | InCall(acts) && IsRunOf(w1, acts)
        ensures !Overruns(ExecOf(w1, acts))
      {
        CallIsProper(w1, acts);
        RunKeepsBulk(w1, acts);
        ReadsPublished(ExecOf(w1, acts));
      }
    } else {
      var acts := AloneOverruns(w1);
      assert InCall(acts) && IsRunOf(w1, acts) && Overruns(ExecOf(w1, acts));
    }
  }
}
