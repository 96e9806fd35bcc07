/**
quickMsgRing.c as one producer and one consumer that share the buffer, `in`, `out` and `emptyFlag`.
Each step makes at most one access to an index or flag the other side may change; the steps of the
two sides interleave arbitrarily.
*/
module QuickRingProtocol {
  import opened Common
  import opened RingCore
  import opened QuickRing

  datatype ProducerPc = PIdle | PReserving | PReserved

  /** The producer's locals in QuickMsgRingGetBufBulk, and the message pointers it returned, each
      with the number of words behind it. */
  datatype Producer = Producer(pc: ProducerPc, tmpIn: nat, tmpOut: nat, msgs: seq<(nat, nat)>)

  datatype ConsumerPc =
    | CIdle | CSawEqual | CNonEmpty | CAtFrame | CHolding | CAdvanced | CCompared(equal: bool)

  /** The consumer's locals in QuickMsgRingBeginRecvMsg. */
  datatype Consumer = Consumer(pc: ConsumerPc, tmpOut: nat, msg: nat, msgLen: nat)

  /** The ring's fields, the buffer and the locals of both sides. */
  datatype Conc = Conc(buf: seq<nat>, emptyFlag: nat, inIdx: nat, outIdx: nat, nextIn: nat, nextOut: nat,
                       p: Producer, c: Consumer)

  /** What an observer records: the virtual address of `out`, of the out the producer sampled, the
      published and the merely reserved records, and everything sent and received so far. */
  datatype Hist = Hist(vout: nat, vpo: nat, frames: seq<Record>, rsv: seq<Record>,
                       sent: seq<seq<nat>>, received: seq<seq<nat>>)

  datatype State = State(k: Conc, h: Hist)

  predicate Init(s: State) {
    && 2 <= |s.k.buf|
    && s.k.emptyFlag == 1 && s.k.inIdx == 0 && s.k.outIdx == 0
    && s.k.p.pc == PIdle && s.k.c.pc == CIdle
    && s.h == Hist(0, 0, [], [], [], [])
  }

  datatype Action =
    | PBegin                               // sample out
    | PReserve(bytes: nat)                 // one turn of the GetBufBulk loop
    | PEndReserve                          // GetBufBulk returns
    | PFill(i: nat, j: nat, word: nat)     // the pack callback writes word j of message i's body
    | PPublish                             // SendMsg: in = nextIn
    | PAbandon                             // the pack callback failed
    | CBegin                               // compare out with in
    | CTestFlag                            // test emptyFlag
    | CReadFiller                          // skip a filler word
    | CReadLength                          // read the length
    | CCommit                              // RecvMsgComplete: out = nextOut
    | CAbandon                             // the unpack callback failed
    | CCompare                             // RecvMsgComplete: compare out with in
    | CSetFlag                             // RecvMsgComplete: store emptyFlag

  predicate Enabled(k: Conc, a: Action) {
    match a
    case PBegin => k.p.pc == PIdle
    case PReserve(_) => k.p.pc == PReserving
    case PEndReserve => k.p.pc == PReserving
    case PFill(i, j, _) => k.p.pc == PReserved && i < |k.p.msgs| && j < k.p.msgs[i].1
    case PPublish => k.p.pc == PReserved
    case PAbandon => k.p.pc == PReserved
    case CBegin => k.c.pc == CIdle
    case CTestFlag => k.c.pc == CSawEqual
    case CReadFiller => k.c.pc == CNonEmpty
    case CReadLength => k.c.pc == CAtFrame
    case CCommit => k.c.pc == CHolding
    case CAbandon => k.c.pc == CHolding
    case CCompare => k.c.pc == CAdvanced
    case CSetFlag => k.c.pc.CCompared?
  }

  /** The reservation one turn of the loop would make, if it makes one. */
  function Choice(k: Conc, bytes: nat): Placement {
    if k.p.tmpIn < |k.buf| then Place(|k.buf|, k.p.tmpIn, k.p.tmpOut, k.emptyFlag, WordCount(bytes)) else NoRoom
  }

  function Reserve(k: Conc, bytes: nat): Conc {
    var n, w, pl := |k.buf|, WordCount(bytes), Choice(k, bytes);
    if pl.NoRoom? then k
    else
      var r := Reservation(n, k.p.tmpIn, pl, w);
      var at := if pl.Rewind? then 0 else k.p.tmpIn;
      if Fits(n, k.p.tmpIn, r) then
        k.(buf := StoreRecord(k.buf, k.p.tmpIn, r),
           p := k.p.(tmpIn := Advance(n, k.p.tmpIn, pl, w), msgs := k.p.msgs + [(at + RESERV_LEN, w)]))
      else k
  }

  /** A word the consumer reads; 0 for an index outside the buffer, which no reachable state has. */
  function Read(k: Conc, i: nat): nat {
    if i < |k.buf| then k.buf[i] else 0
  }

  /** The effect of a step on the ring and the locals.  It does not depend on the history. */
  function Do(k: Conc, a: Action): Conc
    requires Enabled(k, a)
  {
    match a
    case PBegin => k.(p := Producer(PReserving, k.inIdx, k.outIdx, []))
    case PReserve(bytes) => Reserve(k, bytes)
    case PEndReserve => k.(nextIn := k.p.tmpIn, p := k.p.(pc := PReserved))
    case PFill(i, j, word) =>
      var at := k.p.msgs[i].0 + j;
      if at < |k.buf| then k.(buf := k.buf[at := word]) else k
    case PPublish => k.(inIdx := k.nextIn, p := k.p.(pc := PIdle))
    case PAbandon => k.(p := k.p.(pc := PIdle))
    case CBegin => k.(c := k.c.(pc := if k.outIdx == k.inIdx then CSawEqual else CNonEmpty, tmpOut := k.outIdx))
    case CTestFlag => k.(c := k.c.(pc := if k.emptyFlag == 1 then CIdle else CNonEmpty))
    case CReadFiller =>
      k.(c := k.c.(pc := CAtFrame, tmpOut := if Read(k, k.c.tmpOut) == |k.buf| then 0 else k.c.tmpOut))
    case CReadLength =>
      var len := Read(k, k.c.tmpOut);
      k.(nextOut := if |k.buf| > 0 then Slot(k.c.tmpOut + len + RESERV_LEN, |k.buf|) else 0,
         c := k.c.(pc := CHolding, msg := k.c.tmpOut + RESERV_LEN, msgLen := len))
    case CCommit => k.(outIdx := k.nextOut, c := k.c.(pc := CAdvanced))
    case CAbandon => k.(c := k.c.(pc := CIdle))
    case CCompare => k.(c := k.c.(pc := CCompared(k.outIdx == k.inIdx)))
    case CSetFlag => k.(emptyFlag := if k.c.pc.equal then 1 else 0, c := k.c.(pc := CIdle))
  }

  /** The words the consumer's message pointer and length denote. */
  function Held(k: Conc): seq<nat> {
    if k.c.msg + k.c.msgLen <= |k.buf| then k.buf[k.c.msg..k.c.msg + k.c.msgLen] else []
  }

  function FillRecord(r: Record, j: nat, word: nat): Record {
    if j + 1 < |r.words| then r.(words := r.words[j + 1 := word]) else r
  }

  function Observe(s: State, a: Action): Hist
    requires Enabled(s.k, a)
  {
    var k, h := s.k, s.h;
    match a
    case PBegin => h.(vpo := h.vout, rsv := [])
    case PReserve(bytes) =>
      var pl := Choice(k, bytes);
      if pl.NoRoom? then h else h.(rsv := h.rsv + [Reservation(|k.buf|, k.p.tmpIn, pl, WordCount(bytes))])
    case PFill(i, j, word) =>
      if i < |h.rsv| then h.(rsv := h.rsv[i := FillRecord(h.rsv[i], j, word)]) else h
    case PPublish => h.(frames := h.frames + h.rsv, rsv := [], sent := h.sent + Bodies(h.rsv))
    case PAbandon => h.(rsv := [])
    case CCommit =>
      if h.frames == [] then h
      else h.(vout := h.vout + h.frames[0].Len(), frames := h.frames[1..], received := h.received + [Held(k)])
    case _ => h
  }

  function Step(s: State, a: Action): State
    requires Enabled(s.k, a)
  {
    State(Do(s.k, a), Observe(s, a))
  }

  /** The queue of published messages. */
  function Queue(s: State): seq<seq<nat>> {
    Bodies(s.h.frames)
  }

  // ---------- Invariant ----------

  ghost predicate AllWellFormed(n: nat, rs: seq<Record>) {
    forall i :: 0 <= i < |rs| ==> WellFormed(n, rs[i])
  }

  /** The words from out to in hold the published records, and those behind in the reserved ones;
      one word always stays free, so equal indices mean empty. */
  ghost predicate LayoutOk(buf: seq<nat>, vout: nat, frames: seq<Record>, rsv: seq<Record>) {
    && 2 <= |buf|
    && Tiled(buf, vout, frames + rsv)
    && Extent(frames) + Extent(rsv) < |buf|
    && AllWellFormed(|buf|, frames)
    && AllWellFormed(|buf|, rsv)
  }

  predicate IndicesOk(n: nat, inIdx: nat, outIdx: nat, vin: nat, vout: nat) {
    n > 0 && inIdx == Slot(vin, n) && outIdx == Slot(vout, n)
  }

  /** Pointer m of a message denotes the body of record r at v. */
  predicate PointsAt(n: nat, m: (nat, nat), v: nat, r: Record) {
    n > 0 && 0 < |r.words| && m == (FrameStart(n, v, r) + 1, |r.words| - 1)
  }

  ghost predicate PointersOk(n: nat, msgs: seq<(nat, nat)>, vin: nat, rsv: seq<Record>) {
    && |msgs| == |rsv|
    && forall i :: 0 <= i < |rsv| ==> PointsAt(n, msgs[i], vin + Extent(rsv[..i]), rsv[i])
  }

  ghost predicate ProducerOk(n: nat, p: Producer, nextIn: nat, vpo: nat, vout: nat, vin: nat, rsv: seq<Record>) {
    match p.pc
    case PIdle => rsv == []
    case PReserving =>
      && n > 0
      && p.tmpIn == Slot(vin + Extent(rsv), n)
      && p.tmpOut == Slot(vpo, n)
      && vpo <= vout <= vin
      && vin + Extent(rsv) < vpo + n
      && PointersOk(n, p.msgs, vin, rsv)
    case PReserved =>
      && n > 0
      && nextIn == Slot(vin + Extent(rsv), n)
      && PointersOk(n, p.msgs, vin, rsv)
  }

  predicate ConsumerOk(n: nat, c: Consumer, outIdx: nat, nextOut: nat, vout: nat, frames: seq<Record>) {
    match c.pc
    case CSawEqual => c.tmpOut == outIdx
    case CNonEmpty => c.tmpOut == outIdx && frames != []
    case CAtFrame => n > 0 && frames != [] && c.tmpOut == FrameStart(n, vout, frames[0])
    case CHolding =>
      && n > 0 && frames != []
      && PointsAt(n, (c.msg, c.msgLen), vout, frames[0])
      && nextOut == Slot(vout + frames[0].Len(), n)
    case _ => true
  }

  /** emptyFlag may be 1 on a ring that is not empty, but, except while the consumer is about to
      store it, it is 0 only on one that is not. */
  predicate FlagOk(pc: ConsumerPc, emptyFlag: nat, frames: seq<Record>) {
    match pc
    case CAdvanced => true
    case CCompared(equal) => !equal ==> frames != []
    case _ => emptyFlag != 1 ==> frames != []
  }

  function Vin(h: Hist): nat { h.vout + Extent(h.frames) }

  ghost predicate Inv(s: State) {
    var k, h, n := s.k, s.h, |s.k.buf|;
    && LayoutOk(k.buf, h.vout, h.frames, h.rsv)
    && IndicesOk(n, k.inIdx, k.outIdx, Vin(h), h.vout)
    && ProducerOk(n, k.p, k.nextIn, h.vpo, h.vout, Vin(h), h.rsv)
    && ConsumerOk(n, k.c, k.outIdx, k.nextOut, h.vout, h.frames)
    && FlagOk(k.c.pc, k.emptyFlag, h.frames)
    && h.sent == h.received + Bodies(h.frames)
  }

  // ---------- Reading the invariant ----------

  /** `in == out` exactly when nothing is queued. */
  lemma EqualIffEmpty(buf: seq<nat>, vout: nat, frames: seq<Record>, rsv: seq<Record>)
    requires LayoutOk(buf, vout, frames, rsv)
    ensures Slot(vout + Extent(frames), |buf|) == Slot(vout, |buf|) <==> frames == []
  {
    TiledConcat(buf, vout, frames, rsv);
    TiledExtent(buf, vout, frames);
    SlotStep(vout, Extent(frames), |buf|);
  }

  lemma FrontFrame(buf: seq<nat>, vout: nat, frames: seq<Record>, rsv: seq<Record>)
    requires LayoutOk(buf, vout, frames, rsv) && frames != []
    ensures var n, r := |buf|, frames[0];
      var p := FrameStart(n, vout, r);
      && WellFormed(n, r) && p + |r.words| <= n && |r.words| < n
      && (Slot(vout, n) < n && buf[Slot(vout, n)] == n <==> r.pad > 0)
      && buf[p] == |r.words| - 1
      && buf[p + 1..p + |r.words|] == r.words[1..]
      && Slot(vout + r.Len(), n) == Slot(p + |r.words|, n)
  {
    var r := frames[0];
    assert (frames + rsv)[0] == r;
    ReadFrame(buf, vout, r);
    var p := FrameStart(|buf|, vout, r);
    var s := buf[p..p + |r.words|];
    assert s[0] == buf[p];
    assert s[1..] == buf[p + 1..p + |r.words|];
    assert Extent(frames) == r.Len() + Extent(frames[1..]);
    if r.pad > 0 {
      assert At(buf, vout) == r.mark;
    }
  }

  /** What a CHolding consumer has in hand is the front message, whatever the producer does. */
  lemma HeldIsFront(s: State)
    requires Inv(s) && s.k.c.pc == CHolding
    ensures Queue(s) != [] && Held(s.k) == Queue(s)[0]
  {
    FrontFrame(s.k.buf, s.h.vout, s.h.frames, s.h.rsv);
  }

  // ---------- Producer steps ----------

  lemma PointersAppend(n: nat, msgs: seq<(nat, nat)>, vin: nat, rsv: seq<Record>, m: (nat, nat), r: Record)
    requires PointersOk(n, msgs, vin, rsv) && PointsAt(n, m, vin + Extent(rsv), r)
    ensures PointersOk(n, msgs + [m], vin, rsv + [r])
  {
    hide PointsAt, Extent;
    var rsv' := rsv + [r];
    forall i | 0 <= i < |rsv'|
      ensures PointsAt(n, (msgs + [m])[i], vin + Extent(rsv'[..i]), rsv'[i])
    {
      assert rsv'[..i] == if i < |rsv| then rsv[..i] else rsv;
    }
  }

  lemma ReserveKeepsLayout(buf: seq<nat>, vout: nat, frames: seq<Record>, rsv: seq<Record>, tmpIn: nat, r: Record)
    requires LayoutOk(buf, vout, frames, rsv)
    requires var v := vout + Extent(frames) + Extent(rsv);
      && tmpIn == Slot(v, |buf|)
      && Fits(|buf|, v, r) && WellFormed(|buf|, r)
      && Extent(frames) + Extent(rsv) + r.Len() < |buf|
    ensures Fits(|buf|, tmpIn, r)
    ensures LayoutOk(StoreRecord(buf, tmpIn, r), vout, frames, rsv + [r])
    ensures Extent(rsv + [r]) == Extent(rsv) + r.Len()
  {
    hide Tiled, Fits, WellFormed, StoreRecord, Extent, Slot;
    ExtentConcat(frames, rsv);
    ExtentConcat(rsv, [r]);
    assert Extent([r]) == r.Len() by { ExtentOne(r); }
    StoreBySlot(buf, vout + Extent(frames + rsv), tmpIn, r);
    AppendRecord(buf, vout, frames + rsv, r);
    assert frames + rsv + [r] == frames + (rsv + [r]);
  }

  /** Only the word an address lives in matters to a write. */
  lemma StoreBySlot(buf: seq<nat>, v: nat, i: nat, r: Record)
    requires |buf| > 0 && i == Slot(v, |buf|) && Fits(|buf|, v, r)
    ensures Fits(|buf|, i, r) && StoreRecord(buf, v, r) == StoreRecord(buf, i, r)
  {
    assert i == Slot(i, |buf|);
  }

  /** What a granted reservation is, in terms of the invariant. */
  lemma ReserveGranted(n: nat, p: Producer, nextIn: nat, vpo: nat, vout: nat, vin: nat, rsv: seq<Record>,
                       emptyFlag: nat, w: nat)
    requires n > 0 && p.pc == PReserving && ProducerOk(n, p, nextIn, vpo, vout, vin, rsv)
    requires Place(n, p.tmpIn, p.tmpOut, emptyFlag, w) != NoRoom
    ensures var pl := Place(n, p.tmpIn, p.tmpOut, emptyFlag, w);
      var r := Reservation(n, p.tmpIn, pl, w);
      var at := if pl.Rewind? then 0 else p.tmpIn;
      var p' := p.(tmpIn := Advance(n, p.tmpIn, pl, w), msgs := p.msgs + [(at + RESERV_LEN, w)]);
      && Fits(n, vin + Extent(rsv), r) && WellFormed(n, r)
      && vin + Extent(rsv) + r.Len() < vpo + n
      && (Extent(rsv + [r]) == Extent(rsv) + r.Len() ==> ProducerOk(n, p', nextIn, vpo, vout, vin, rsv + [r]))
  {
    hide Fits, WellFormed, PointersOk, Unused, Extent;
    var v := vin + Extent(rsv);
    var pl := Place(n, p.tmpIn, p.tmpOut, emptyFlag, w);
    var r := Reservation(n, p.tmpIn, pl, w);
    PlaceFits(n, vpo, v - vpo, emptyFlag, w);
    hide Place;
    var m := ((if pl.Rewind? then 0 else p.tmpIn) + RESERV_LEN, w);
    assert PointsAt(n, m, v, r);
    PointersAppend(n, p.msgs, vin, rsv, m, r);
  }

  lemma ReserveKeepsInv(s: State, bytes: nat)
    requires Inv(s) && Enabled(s.k, PReserve(bytes))
    ensures Inv(Step(s, PReserve(bytes)))
  {
    hide Place, Advance, Tiled, Fits, WellFormed, PointersOk, AllWellFormed, StoreRecord, Extent, Bodies;
    var k, h, n, w := s.k, s.h, |s.k.buf|, WordCount(bytes);
    var pl := Choice(k, bytes);
    if pl != NoRoom {
      var r := Reservation(n, k.p.tmpIn, pl, w);
      ReserveGranted(n, k.p, k.nextIn, h.vpo, h.vout, Vin(h), h.rsv, k.emptyFlag, w);
      ReserveKeepsLayout(k.buf, h.vout, h.frames, h.rsv, k.p.tmpIn, r);
    }
  }

  lemma SplitAt(frames: seq<Record>, rsv: seq<Record>, i: nat, r: Record)
    requires i < |rsv|
    ensures frames + rsv[i := r] == frames + rsv[..i] + [r] + rsv[i + 1..]
    ensures rsv[i := rsv[i]] == rsv
  {
    assert rsv[i := r] == rsv[..i] + [r] + rsv[i + 1..];
  }

  lemma FillKeepsLayout(buf: seq<nat>, vout: nat, frames: seq<Record>, rsv: seq<Record>, i: nat, j: nat, word: nat)
    requires LayoutOk(buf, vout, frames, rsv)
    requires i < |rsv| && 0 < j < |rsv[i].words|
    ensures var at := FrameStart(|buf|, vout + Extent(frames) + Extent(rsv[..i]), rsv[i]) + j;
      && at < |buf|
      && LayoutOk(buf[at := word], vout, frames, rsv[i := Rewritten(rsv[i], j, word)])
      && Extent(rsv[i := Rewritten(rsv[i], j, word)]) == Extent(rsv)
  {
    hide Tiled, Extent, Slot;
    var r := rsv[i];
    var r' := Rewritten(r, j, word);
    var a, b := frames + rsv[..i], rsv[i + 1..];
    SplitAt(frames, rsv, i, r);
    SplitAt(frames, rsv, i, r');
    ExtentConcat(frames, rsv[..i]);
    ExtentConcat(frames, rsv);
    ExtentConcat(frames, rsv[i := r']);
    TiledSplit(buf, vout, a, r, b);
    RewriteWord(buf, vout, a, r, b, j, word);
    FrameAddress(buf, vout + Extent(a), r, j);
  }

  lemma PointersUpdate(n: nat, msgs: seq<(nat, nat)>, vin: nat, rsv: seq<Record>, i: nat, r: Record)
    requires PointersOk(n, msgs, vin, rsv) && i < |rsv|
    requires r.pad == rsv[i].pad && |r.words| == |rsv[i].words|
    ensures PointersOk(n, msgs, vin, rsv[i := r])
  {
    forall m | 0 <= m < |rsv|
      ensures PointsAt(n, msgs[m], vin + Extent(rsv[i := r][..m]), rsv[i := r][m])
    {
      ExtentUpdate(rsv, i, r, m);
    }
  }

  lemma FillKeepsInv(s: State, i: nat, j: nat, word: nat)
    requires Inv(s) && Enabled(s.k, PFill(i, j, word))
    ensures Inv(Step(s, PFill(i, j, word)))
  {
    hide Tiled, Extent, Bodies, Slot, AllWellFormed, WellFormed;
    var k, h, n := s.k, s.h, |s.k.buf|;
    assert PointsAt(n, k.p.msgs[i], Vin(h) + Extent(h.rsv[..i]), h.rsv[i]);
    FillKeepsLayout(k.buf, h.vout, h.frames, h.rsv, i, j + 1, word);
    PointersUpdate(n, k.p.msgs, Vin(h), h.rsv, i, Rewritten(h.rsv[i], j + 1, word));
  }

  lemma PublishLayout(buf: seq<nat>, vout: nat, frames: seq<Record>, rsv: seq<Record>)
    requires LayoutOk(buf, vout, frames, rsv)
    ensures LayoutOk(buf, vout, frames + rsv, [])
    ensures Extent(frames + rsv) == Extent(frames) + Extent(rsv)
  {
    hide Tiled, WellFormed;
    assert frames + rsv + [] == frames + rsv;
    ExtentConcat(frames, rsv);
  }

  lemma PublishKeepsInv(s: State)
    requires Inv(s) && Enabled(s.k, PPublish)
    ensures Inv(Step(s, PPublish))
    ensures Queue(Step(s, PPublish)) == Queue(s) + Bodies(s.h.rsv)
  {
    hide LayoutOk, Slot, PointersOk, Extent, FrameStart, PointsAt;
    PublishLayout(s.k.buf, s.h.vout, s.h.frames, s.h.rsv);
    BodiesConcat(s.h.frames, s.h.rsv);
    Regroup(s.h.received, Bodies(s.h.frames), Bodies(s.h.rsv));
    if s.h.frames != [] { FrontStays(s.h.frames, s.h.rsv); }
    hide Bodies;
  }

  lemma FrontStays(frames: seq<Record>, more: seq<Record>)
    requires frames != []
    ensures frames + more != [] && (frames + more)[0] == frames[0]
  {
  }

  lemma BeginKeepsInv(s: State)
    requires Inv(s) && Enabled(s.k, PBegin)
    ensures Inv(Step(s, PBegin))
  {
  }

  lemma EndReserveKeepsInv(s: State)
    requires Inv(s) && Enabled(s.k, PEndReserve)
    ensures Inv(Step(s, PEndReserve))
  {
  }

  lemma AbandonKeepsInv(s: State)
    requires Inv(s) && Enabled(s.k, PAbandon)
    ensures Inv(Step(s, PAbandon))
  {
    hide Slot, PointersOk;
    TiledConcat(s.k.buf, s.h.vout, s.h.frames, s.h.rsv);
    assert s.h.frames + [] == s.h.frames;
  }

  // ---------- Consumer steps ----------

  lemma TiledTail(buf: seq<nat>, vout: nat, frames: seq<Record>, rsv: seq<Record>)
    requires |buf| > 0 && frames != [] && Tiled(buf, vout, frames + rsv)
    ensures Tiled(buf, vout + frames[0].Len(), frames[1..] + rsv)
  {
    hide Holds;
    var all := frames + rsv;
    assert all[0] == frames[0];
    assert all[1..] == frames[1..] + rsv;
  }

  lemma TailWellFormed(n: nat, frames: seq<Record>)
    requires AllWellFormed(n, frames) && frames != []
    ensures AllWellFormed(n, frames[1..])
  {
    hide WellFormed;
  }

  lemma FrontGone(buf: seq<nat>, vout: nat, frames: seq<Record>, rsv: seq<Record>)
    requires LayoutOk(buf, vout, frames, rsv) && frames != []
    ensures LayoutOk(buf, vout + frames[0].Len(), frames[1..], rsv)
    ensures Extent(frames) == frames[0].Len() + Extent(frames[1..])
  {
    hide Tiled, AllWellFormed;
    TiledTail(buf, vout, frames, rsv);
    TailWellFormed(|buf|, frames);
  }

  lemma ProducerOkLater(n: nat, p: Producer, nextIn: nat, vpo: nat, vout: nat, vout': nat, vin: nat, rsv: seq<Record>)
    requires ProducerOk(n, p, nextIn, vpo, vout, vin, rsv) && vout <= vout' <= vin
    ensures ProducerOk(n, p, nextIn, vpo, vout', vin, rsv)
  {
  }

  lemma HandIsFirst(s: State)
    requires Inv(s) && s.k.c.pc == CHolding
    ensures s.h.frames != [] && Queue(s) == [Held(s.k)] + Bodies(s.h.frames[1..])
  {
    HeldIsFront(s);
    hide Inv, Held;
  }

  lemma CommitKeepsInv(s: State)
    requires Inv(s) && Enabled(s.k, CCommit)
    ensures Inv(Step(s, CCommit))
    ensures var s' := Step(s, CCommit);
      Queue(s) == [Held(s.k)] + Queue(s') && s'.h.received == s.h.received + [Held(s.k)]
  {
    hide LayoutOk, Slot, ProducerOk, PointsAt, FrameStart, Held, Extent, Bodies;
    HandIsFirst(s);
    var k, h := s.k, s.h;
    FrontGone(k.buf, h.vout, h.frames, h.rsv);
    ProducerOkLater(|k.buf|, k.p, k.nextIn, h.vpo, h.vout, h.vout + h.frames[0].Len(), Vin(h), h.rsv);
    Regroup(h.received, [Held(k)], Bodies(h.frames[1..]));
  }

  lemma ReadKeepsInv(s: State, a: Action)
    requires Inv(s) && Enabled(s.k, a) && (a.CReadFiller? || a.CReadLength?)
    ensures Inv(Step(s, a))
  {
    FrontFrame(s.k.buf, s.h.vout, s.h.frames, s.h.rsv);
    hide LayoutOk, Reserve, PointersOk, Extent, ProducerOk, FrameStart, Slot, Bodies;
  }

  lemma TestKeepsInv(s: State, a: Action)
    requires Inv(s) && Enabled(s.k, a)
    requires a.CBegin? || a.CTestFlag? || a.CAbandon? || a.CCompare? || a.CSetFlag?
    ensures Inv(Step(s, a))
  {
    EqualIffEmpty(s.k.buf, s.h.vout, s.h.frames, s.h.rsv);
  }

  // ---------- Every run refines a FIFO queue ----------

  lemma StepKeepsInv(s: State, a: Action)
    requires Inv(s) && Enabled(s.k, a)
    ensures Inv(Step(s, a))
  {
    match a
    case PReserve(bytes) => ReserveKeepsInv(s, bytes);
    case PFill(i, j, word) => FillKeepsInv(s, i, j, word);
    case PPublish => PublishKeepsInv(s);
    case CCommit => CommitKeepsInv(s);
    case CReadFiller => ReadKeepsInv(s, a);
    case CReadLength => ReadKeepsInv(s, a);
    case PBegin => BeginKeepsInv(s);
    case PEndReserve => EndReserveKeepsInv(s);
    case PAbandon => AbandonKeepsInv(s);
    case _ => TestKeepsInv(s, a);
  }

  lemma InitInv(s: State)
    requires Init(s)
    ensures Inv(s)
  {
    var none: seq<Record> := [];
    assert none + none == none;
    assert s.h.frames + s.h.rsv == none;
    assert LayoutOk(s.k.buf, 0, none, none);
    assert IndicesOk(|s.k.buf|, 0, 0, 0, 0);
    assert ProducerOk(|s.k.buf|, s.k.p, s.k.nextIn, 0, 0, 0, none);
    assert ConsumerOk(|s.k.buf|, s.k.c, 0, s.k.nextOut, 0, none);
    assert FlagOk(s.k.c.pc, 1, none);
  }

  /** The messages under construction: reserved, perhaps filled, not published. */
  function Draft(s: State): seq<seq<nat>> {
    Bodies(s.h.rsv)
  }

  lemma {:induction false} BodiesUpdate(rs: seq<Record>, i: nat, r: Record)
    requires i < |rs|
    ensures Bodies(rs[i := r]) == Bodies(rs)[i := Bodies([r])[0]]
  {
    assert rs[i := r] == rs[..i] + [r] + rs[i + 1..];
    assert rs == rs[..i] + [rs[i]] + rs[i + 1..];
    BodiesConcat(rs[..i] + [r], rs[i + 1..]);
    BodiesConcat(rs[..i], [r]);
    BodiesConcat(rs[..i] + [rs[i]], rs[i + 1..]);
    BodiesConcat(rs[..i], [rs[i]]);
  }

  lemma {:induction false} BodyAt(rs: seq<Record>, i: nat)
    requires i < |rs| && rs[i].words != []
    ensures Bodies(rs)[i] == rs[i].words[1..]
  {
    if i > 0 { BodyAt(rs[1..], i - 1); }
  }

  function SetWord(m: seq<nat>, j: nat, word: nat): seq<nat>
    requires j < |m|
  {
    m[j := word]
  }

  /** What the queue and the draft are after each step, given what they were before. */
  ghost predicate Refines(s: State, a: Action, s': State) {
    var q, d, q', d' := Queue(s), Draft(s), Queue(s'), Draft(s');
    match a
    case PBegin => q' == q && d' == []
    case PReserve(bytes) => q' == q && d' == d + if Choice(s.k, bytes).NoRoom? then [] else [Zeros(WordCount(bytes))]
    case PFill(i, j, word) => q' == q && i < |d| && j < |d[i]| && d' == d[i := SetWord(d[i], j, word)]
    case PPublish => q' == q + d && d' == []
    case PAbandon => q' == q && d' == []
    case CCommit => q != [] && Held(s.k) == q[0] && q' == q[1..] && d' == d
    case _ => q' == q && d' == d
  }

  lemma FillRefines(s: State, i: nat, j: nat, word: nat)
    requires Inv(s) && Enabled(s.k, PFill(i, j, word))
    ensures Refines(s, PFill(i, j, word), Step(s, PFill(i, j, word)))
  {
    hide Tiled, LayoutOk, Extent, Slot, AllWellFormed, Bodies;
    var r := s.h.rsv[i];
    assert PointsAt(|s.k.buf|, s.k.p.msgs[i], Vin(s.h) + Extent(s.h.rsv[..i]), r);
    var r' := r.(words := r.words[j + 1 := word]);
    BodiesUpdate(s.h.rsv, i, r');
    BodyAt(s.h.rsv, i);
    BodyAt([r'], 0);
    assert r'.words[1..] == r.words[1..][j := word];
  }

  lemma ReserveRefines(s: State, bytes: nat)
    requires Inv(s) && Enabled(s.k, PReserve(bytes))
    ensures Refines(s, PReserve(bytes), Step(s, PReserve(bytes)))
  {
    hide Tiled, LayoutOk, Extent, Slot, AllWellFormed, Place, Advance, StoreRecord, ProducerOk;
    var k, w, pl := s.k, WordCount(bytes), Choice(s.k, bytes);
    if pl != NoRoom {
      var r := Reservation(|k.buf|, k.p.tmpIn, pl, w);
      BodiesConcat(s.h.rsv, [r]);
      assert r.words[1..] == Zeros(w);
    }
  }

  /** Every step of either side does to the queue what a FIFO queue would: publishing appends the
      draft, committing a receive removes exactly the message that was in hand, and nothing else,
      not even a failed pack or unpack callback, has any effect on it. */
  lemma StepRefines(s: State, a: Action)
    requires Inv(s) && Enabled(s.k, a)
    ensures Inv(Step(s, a)) && Refines(s, a, Step(s, a))
  {
    StepKeepsInv(s, a);
    hide Inv, Place, Advance, StoreRecord;
    match a
    case PReserve(bytes) => ReserveRefines(s, bytes);
    case PFill(i, j, word) => FillRefines(s, i, j, word);
    case PPublish => PublishKeepsInv(s);
    case CCommit => CommitKeepsInv(s); HeldIsFront(s);
    case _ =>
  }

  predicate IsRun(s: State, acts: seq<Action>)
    decreases |acts|
  {
    acts != [] ==> Enabled(s.k, acts[0]) && IsRun(Step(s, acts[0]), acts[1..])
  }

  function Exec(s: State, acts: seq<Action>): State
    requires IsRun(s, acts)
    decreases |acts|
  {
    if acts == [] then s else Exec(Step(s, acts[0]), acts[1..])
  }

  lemma {:induction false} RunKeepsInv(s: State, acts: seq<Action>)
    requires Inv(s) && IsRun(s, acts)
    ensures Inv(Exec(s, acts))
    decreases |acts|
  {
    hide Inv, Step;
    if acts != [] {
      StepKeepsInv(s, acts[0]);
      RunKeepsInv(Step(s, acts[0]), acts[1..]);
    }
  }

  /** Over any interleaving from an empty ring: what was received is what was sent, in order, less
      what is still queued; the indices agree exactly when nothing is queued; emptyFlag read as 0
      at the start of a receive means that something is; and the message in a receiver's hand is
      the oldest one. */
  lemma EveryRunIsFifo(s0: State, acts: seq<Action>)
    requires Init(s0) && IsRun(s0, acts)
    ensures var s := Exec(s0, acts);
      && s.h.sent == s.h.received + Queue(s)
      && (s.k.inIdx == s.k.outIdx <==> Queue(s) == [])
      && (s.k.c.pc == CIdle && s.k.emptyFlag != 1 ==> Queue(s) != [])
      && (s.k.c.pc == CHolding ==> Queue(s) != [] && Held(s.k) == Queue(s)[0])
  {
    hide Inv, Step, Exec, IsRun, Init, Held, Bodies;
    InitInv(s0);
    RunKeepsInv(s0, acts);
    InvMeans(Exec(s0, acts));
  }

  lemma InvMeans(s: State)
    requires Inv(s)
    ensures s.h.sent == s.h.received + Queue(s)
    ensures s.k.inIdx == s.k.outIdx <==> Queue(s) == []
    ensures s.k.c.pc == CIdle && s.k.emptyFlag != 1 ==> Queue(s) != []
    ensures s.k.c.pc == CHolding ==> Queue(s) != [] && Held(s.k) == Queue(s)[0]
  {
    hide LayoutOk, ProducerOk, Slot, Extent;
    EqualIffEmpty(s.k.buf, s.h.vout, s.h.frames, s.h.rsv);
    if s.k.c.pc == CHolding {
      HeldIsFront(s);
    }
  }

  /** The word read at the front is `size` exactly when it is a filler: a length never is. */
  lemma FillerIsNotALength(s0: State, acts: seq<Action>)
    requires Init(s0) && IsRun(s0, acts)
    requires Exec(s0, acts).k.c.pc == CNonEmpty
    ensures var s := Exec(s0, acts);
      && s.h.frames != []
      && (Read(s.k, s.k.c.tmpOut) == |s.k.buf| <==> s.h.frames[0].pad > 0)
      && |Queue(s)[0]| < |s.k.buf|
  {
    hide Inv, Step, Exec, IsRun, Init, Read, Bodies;
    InitInv(s0);
    RunKeepsInv(s0, acts);
    FrontWord(Exec(s0, acts));
  }

  lemma FrontWord(s: State)
    requires Inv(s) && s.k.c.pc == CNonEmpty
    ensures s.h.frames != [] && |Queue(s)[0]| < |s.k.buf|
    ensures Read(s.k, s.k.c.tmpOut) == |s.k.buf| <==> s.h.frames[0].pad > 0
  {
    hide LayoutOk, ProducerOk, Slot, Extent, FrameStart;
    FrontFrame(s.k.buf, s.h.vout, s.h.frames, s.h.rsv);
    BodyAt(s.h.frames, 0);
  }
}
