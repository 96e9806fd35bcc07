/**
cmmQuickMsgRing.c as one producer and one consumer that share the buffer, `in` and `out`.  Bursts on
both sides, one shared access to a counter a step, arbitrary interleaving, 32-bit counters that wrap.
*/
module CmmRingProtocol {
  import opened RingCore
  import opened CmmRing

  /** Idle; in the loop of the burst function (for the consumer possibly just past a dummy); or back
      from it with the messages in hand. */
  datatype Pc = Idle | InLoop | PastDummy | Done

  /** tmpIn and, for each message of the burst, its word index and word count. */
  datatype Producer = Producer(pc: Pc, tmpIn: nat, msgs: seq<(nat, nat)>)

  /** tmpOut and the word index of each message of the burst. */
  datatype Consumer = Consumer(pc: Pc, tmpOut: nat, msgs: seq<nat>)

  datatype Conc = Conc(buf: seq<nat>, inCnt: nat, outCnt: nat, nextIn: nat, nextOut: nat, p: Producer, c: Consumer)

  /** What an observer records: unwrapped out, published and reserved records, how many published
      records the consumer has taken, everything sent and received. */
  datatype Hist = Hist(vout: nat, frames: seq<Record>, rsv: seq<Record>, taken: nat,
                       sent: seq<seq<nat>>, received: seq<seq<nat>>)

  datatype State = State(k: Conc, h: Hist)

  /** QuickMsgRingInit asserts a power of two below 2^29. */
  predicate GoodSize(n: nat) { IsPowerOf2(n) && n < 0x2000_0000 }

  predicate Init(s: State) {
    && GoodSize(|s.k.buf|)
    && s.k.inCnt == 0 && s.k.outCnt == 0
    && s.k.p.pc == Idle && s.k.c.pc == Idle
    && s.h == Hist(0, [], [], 0, [], [])
  }

  datatype Action =
    | PBegin
    | PTurn(w: nat)                       // one turn of the PrePutMsgBurst loop
    | PEnd                                // nextIn = tmpIn
    | PFill(i: nat, j: nat, word: nat)    // the fill callback writes word j of message i
    | PPublish                            // QuickMsgRingPutMsgComplete
    | PAbandon                            // the fill callback failed
    | CBegin
    | CTurn                               // one turn of the PreGetMsgBurst loop
    | CEnd                                // nextOut = tmpOut
    | CCommit                             // QuickMsgRingGetMsgComplete
    | CAbandon                            // the get callback failed

  function Index(cnt: nat, n: nat): nat
    requires n > 0
  {
    BitAnd(cnt, n - 1)
  }

  /** The word at index i; 0 outside the buffer, which no reachable state touches. */
  function Word(buf: seq<nat>, i: nat): nat { if i < |buf| then buf[i] else 0 }

  function Words(buf: seq<nat>, i: nat, n: nat): (r: seq<nat>)
    ensures |r| == n && forall j :: 0 <= j < n ==> r[j] == Word(buf, i + j)
    decreases n
  {
    if n == 0 then [] else [Word(buf, i)] + Words(buf, i + 1, n - 1)
  }

  predicate HeadOk(head: nat, count: nat) { !IsDummy(head) && HeadCount(head) == count }

  /** The caller's side of the contract: at least one word, a count that fits 16 bits, and, when they are
      published, heads that hold their word counts and are not dummies. */
  predicate Enabled(k: Conc, a: Action) {
    match a
    case PBegin => k.p.pc == Idle
    case PTurn(w) => k.p.pc == InLoop && 0 < w < TWO16
    case PEnd => k.p.pc == InLoop
    case PFill(i, j, word) =>
      k.p.pc == Done && i < |k.p.msgs| && j < k.p.msgs[i].1
    case PPublish => k.p.pc == Done && forall m :: m in k.p.msgs ==> HeadOk(Word(k.buf, m.0), m.1)
    case PAbandon => k.p.pc == Done
    case CBegin => k.c.pc == Idle
    case CTurn => k.c.pc == InLoop || k.c.pc == PastDummy
    case CEnd => k.c.pc == InLoop
    case CCommit => k.c.pc == Done
    case CAbandon => k.c.pc == Done
  }

  function Choice(k: Conc, w: nat): Placement {
    if |k.buf| == 0 || Index(k.p.tmpIn, |k.buf|) >= |k.buf| then NoRoom
    else Place(|k.buf|, Index(k.p.tmpIn, |k.buf|), Unused(|k.buf|, k.p.tmpIn, k.outCnt), w)
  }

  /** The dummy frame's head is its length with type 0; the new frame's head is its word count.  The
      rest of the frame keeps whatever the buffer held. */
  function NewRecord(buf: seq<nat>, idx: nat, pl: Placement, w: nat): (r: Record)
    requires idx < |buf| && pl != NoRoom && w > 0
    ensures |r.words| == w && r.words[0] == w && HeadCount(w) == w % TWO16
  {
    var pad := if pl.Rewind? then |buf| - idx else 0;
    var at := if pl.Rewind? then 0 else idx;
    Record(pad, pad, [w] + Words(buf, at + 1, w - 1))
  }

  function Put(k: Conc, w: nat): Conc
    requires w > 0
  {
    var n, pl := |k.buf|, Choice(k, w);
    if pl.NoRoom? then k
    else
      var idx := Index(k.p.tmpIn, n);
      var at := if pl.Rewind? then 0 else idx;
      var b := if pl.Rewind? then k.buf[idx := n - idx] else k.buf;
      k.(buf := b[at := w],
         p := k.p.(tmpIn := Wrap(k.p.tmpIn + Moved(n, idx, pl, w)), msgs := k.p.msgs + [(at, w)]))
  }

  function Get(k: Conc): Conc {
    if |k.buf| == 0 || k.c.tmpOut == k.inCnt then k.(c := k.c.(pc := InLoop))
    else
      var idx := Index(k.c.tmpOut, |k.buf|);
      var head := Word(k.buf, idx);
      var next := Wrap(k.c.tmpOut + HeadCount(head));
      if IsDummy(head) then k.(c := k.c.(pc := PastDummy, tmpOut := next))
      else k.(c := k.c.(pc := InLoop, tmpOut := next, msgs := k.c.msgs + [idx]))
  }

  /** The effect of a step on the ring and the locals.  It does not depend on the history. */
  function Do(k: Conc, a: Action): Conc
    requires Enabled(k, a)
  {
    match a
    case PBegin => k.(p := Producer(InLoop, k.inCnt, []))
    case PTurn(w) => Put(k, w)
    case PEnd => k.(nextIn := k.p.tmpIn, p := k.p.(pc := Done))
    case PFill(i, j, word) =>
      var at := k.p.msgs[i].0 + j;
      if at < |k.buf| then k.(buf := k.buf[at := word]) else k
    case PPublish => k.(inCnt := k.nextIn, p := k.p.(pc := Idle))
    case PAbandon => k.(p := k.p.(pc := Idle))
    case CBegin => k.(c := Consumer(InLoop, k.outCnt, []))
    case CTurn => Get(k)
    case CEnd => k.(nextOut := k.c.tmpOut, c := k.c.(pc := Done))
    case CCommit => k.(outCnt := k.nextOut, c := k.c.(pc := Idle))
    case CAbandon => k.(c := k.c.(pc := Idle))
  }

  /** The frame a reader finds at an index: as many words as its head says. */
  function FrameAt(buf: seq<nat>, i: nat): seq<nat> {
    if i + HeadCount(Word(buf, i)) <= |buf| then buf[i..i + HeadCount(Word(buf, i))] else []
  }

  /** The messages the consumer has in hand, read through its pointers. */
  function Held(buf: seq<nat>, msgs: seq<nat>): (q: seq<seq<nat>>)
    ensures |q| == |msgs|
  {
    if msgs == [] then [] else Held(buf, msgs[..|msgs| - 1]) + [FrameAt(buf, msgs[|msgs| - 1])]
  }

  function Frames(rs: seq<Record>): (q: seq<seq<nat>>)
    ensures |q| == |rs|
    ensures forall i :: 0 <= i < |rs| ==> q[i] == rs[i].words
  {
    if rs == [] then [] else [rs[0].words] + Frames(rs[1..])
  }

  function Observe(s: State, a: Action): Hist
    requires Enabled(s.k, a)
  {
    var k, h := s.k, s.h;
    match a
    case PTurn(w) =>
      if Choice(k, w).NoRoom? then h
      else h.(rsv := h.rsv + [NewRecord(k.buf, Index(k.p.tmpIn, |k.buf|), Choice(k, w), w)])
    case PFill(i, j, word) =>
      if i < |h.rsv| && j < |h.rsv[i].words| then h.(rsv := h.rsv[i := Rewritten(h.rsv[i], j, word)]) else h
    case PPublish => h.(frames := h.frames + h.rsv, rsv := [], sent := h.sent + Frames(h.rsv))
    case PAbandon => h.(rsv := [])
    case CBegin => h.(taken := 0)
    case CTurn => if |Get(k).c.msgs| > |k.c.msgs| then h.(taken := h.taken + 1) else h
    case CCommit =>
      if h.taken > |h.frames| then h
      else h.(vout := h.vout + Extent(h.frames[..h.taken]), frames := h.frames[h.taken..], taken := 0,
              received := h.received + Held(k.buf, k.c.msgs))
    case CAbandon => h.(taken := 0)
    case _ => h
  }

  function Step(s: State, a: Action): State
    requires Enabled(s.k, a)
  {
    State(Do(s.k, a), Observe(s, a))
  }

  /** The queue of published messages, and the messages under construction. */
  function Queue(s: State): seq<seq<nat>> { Frames(s.h.frames) }
  function Draft(s: State): seq<seq<nat>> { Frames(s.h.rsv) }

  // ---------- Invariant ----------

  /** Reserved: a filler's length is positive, fits the 16-bit field and is its own dummy head. */
  predicate Padded(r: Record) {
    0 < |r.words| && (r.pad > 0 ==> r.mark == r.pad && r.pad < TWO16)
  }

  /** Published: the head holds the frame's word count as well. */
  predicate Shaped(r: Record) {
    Padded(r) && HeadCount(r.words[0]) == |r.words|
  }

  ghost predicate AllPadded(rs: seq<Record>) {
    forall i :: 0 <= i < |rs| ==> Padded(rs[i])
  }

  ghost predicate AllShaped(rs: seq<Record>) {
    forall i :: 0 <= i < |rs| ==> Shaped(rs[i])
  }

  ghost predicate NoDummies(rs: seq<Record>) {
    forall i :: 0 <= i < |rs| ==> 0 < |rs[i].words| && !IsDummy(rs[i].words[0])
  }

  ghost predicate LayoutOk(buf: seq<nat>, vout: nat, frames: seq<Record>, rsv: seq<Record>) {
    && 0 < |buf| < TWO32 && GoodSize(|buf|)
    && Tiled(buf, vout, frames + rsv)
    && Extent(frames) + Extent(rsv) <= |buf|
    && AllShaped(frames) && AllPadded(rsv) && NoDummies(frames)
  }

  ghost predicate PointersOk(n: nat, msgs: seq<(nat, nat)>, vin: nat, rsv: seq<Record>) {
    && n > 0 && |msgs| == |rsv|
    && forall i :: 0 <= i < |rsv| ==> msgs[i] == (FrameStart(n, vin + Extent(rsv[..i]), rsv[i]), |rsv[i].words|)
  }

  ghost predicate ProducerOk(n: nat, p: Producer, nextIn: nat, vin: nat, rsv: seq<Record>) {
    match p.pc
    case Idle => rsv == []
    case InLoop => p.tmpIn == Wrap(vin + Extent(rsv)) && PointersOk(n, p.msgs, vin, rsv)
    case Done => nextIn == Wrap(vin + Extent(rsv)) && PointersOk(n, p.msgs, vin, rsv)
    case PastDummy => false
  }

  ghost predicate TakenOk(n: nat, msgs: seq<nat>, vout: nat, frames: seq<Record>, taken: nat) {
    && n > 0 && taken <= |frames| && |msgs| == taken
    && forall i :: 0 <= i < taken ==> msgs[i] == FrameStart(n, vout + Extent(frames[..i]), frames[i])
  }

  ghost predicate ConsumerOk(n: nat, c: Consumer, nextOut: nat, vout: nat, frames: seq<Record>, taken: nat) {
    match c.pc
    case Idle => true
    case InLoop => TakenOk(n, c.msgs, vout, frames, taken) && c.tmpOut == Wrap(vout + Extent(frames[..taken]))
    case PastDummy =>
      && TakenOk(n, c.msgs, vout, frames, taken) && taken < |frames| && frames[taken].pad > 0
      && c.tmpOut == Wrap(vout + Extent(frames[..taken]) + frames[taken].pad)
    case Done => TakenOk(n, c.msgs, vout, frames, taken) && nextOut == Wrap(vout + Extent(frames[..taken]))
  }

  function Vin(h: Hist): nat { h.vout + Extent(h.frames) }

  ghost predicate Inv(s: State) {
    var k, h, n := s.k, s.h, |s.k.buf|;
    && 0 < n < TWO32
    && LayoutOk(k.buf, h.vout, h.frames, h.rsv)
    && k.inCnt == Wrap(Vin(h)) && k.outCnt == Wrap(h.vout)
    && ProducerOk(n, k.p, k.nextIn, Vin(h), h.rsv)
    && ConsumerOk(n, k.c, k.nextOut, h.vout, h.frames, h.taken)
    && Accounted(h)
  }

  /** What was sent is what was received and what is queued. */
  predicate Accounted(h: Hist) {
    h.sent == h.received + Frames(h.frames)
  }

  // ---------- Reading the invariant ----------

  lemma {:induction false} Pow2Grows(k: nat)
    requires k >= 32
    ensures Pow2(k) >= TWO32
  {
    if k == 32 { Pow2Of32(); } else { Pow2Grows(k - 1); }
  }

  lemma IndexIsSlot(v: nat, n: nat)
    requires GoodSize(n)
    ensures n > 0 && Index(Wrap(v), n) == Slot(v, n)
  {
    hide BitAnd, Slot;
    AndWithPredecessor(n);
    var k: nat :| n == Pow2(k);
    if k >= 32 { Pow2Grows(k); }
    MaskFindsSlot(v, k);
  }

  /** Record i of a tiling, in place. */
  lemma {:induction false} RecordAt(buf: seq<nat>, v: nat, rs: seq<Record>, i: nat)
    requires |buf| > 0 && Tiled(buf, v, rs) && i < |rs|
    ensures Holds(buf, v + Extent(rs[..i]), rs[i])
    ensures Extent(rs[..i + 1]) == Extent(rs[..i]) + rs[i].Len() <= Extent(rs)
    decreases i
  {
    hide Holds;
    ExtentConcat(rs[..i + 1], rs[i + 1..]);
    assert rs == rs[..i + 1] + rs[i + 1..];
    ExtentConcat(rs[..i], [rs[i]]);
    assert rs[..i + 1] == rs[..i] + [rs[i]];
    TiledConcat(buf, v, rs[..i + 1], rs[i + 1..]);
    TiledConcat(buf, v, rs[..i], [rs[i]]);
  }

  /** A frame is what a reader finds at its start, once its head is right. */
  lemma FrameIsRead(buf: seq<nat>, v: nat, r: Record)
    requires |buf| > 0 && Holds(buf, v, r) && 0 < |r.words|
    ensures var at := FrameStart(|buf|, v, r);
      && at + |r.words| <= |buf|
      && Word(buf, at) == r.words[0]
      && (HeadCount(r.words[0]) == |r.words| ==> FrameAt(buf, at) == r.words)
  {
    hide Slot, HeadCount;
    ReadFrame(buf, v, r);
    var at := FrameStart(|buf|, v, r);
    assert buf[at] == buf[at..at + |r.words|][0];
  }

  lemma {:induction false} HeldIsTaken(buf: seq<nat>, msgs: seq<nat>, vout: nat, frames: seq<Record>, rsv: seq<Record>, taken: nat)
    requires LayoutOk(buf, vout, frames, rsv) && TakenOk(|buf|, msgs, vout, frames, taken)
    ensures Held(buf, msgs) == Frames(frames[..taken])
    decreases taken
  {
    hide Slot, FrameStart, FrameAt, Holds, Extent, Tiled, GoodSize, HeadCount, IsDummy, Frames;
    assert taken == 0 ==> Frames(frames[..taken]) == [] && Held(buf, msgs) == [];
    if taken > 0 {
      var i := taken - 1;
      HeldIsTaken(buf, msgs[..i], vout, frames, rsv, i);
      TiledConcat(buf, vout, frames, rsv);
      RecordAt(buf, vout, frames, i);
      FrameIsRead(buf, vout + Extent(frames[..i]), frames[i]);
      FramesConcat(frames[..i], [frames[i]]);
      assert frames[..taken] == frames[..i] + [frames[i]];
    }
  }

  lemma {:induction false} FramesConcat(a: seq<Record>, b: seq<Record>)
    ensures Frames(a + b) == Frames(a) + Frames(b)
  {
  }

  // ---------- Producer steps ----------

  /** What a turn of the put loop writes is a record in front of everything unread. */
  lemma NewRecordFits(buf: seq<nat>, v: nat, d: nat, idx: nat, pl: Placement, w: nat)
    requires |buf| > 0 && idx == Slot(v, |buf|) && d <= |buf| && 0 < w < TWO16
    requires pl == Place(|buf|, idx, |buf| - d, w) && pl != NoRoom
    ensures var n, r := |buf|, NewRecord(buf, idx, pl, w);
      var at := if pl.Rewind? then 0 else idx;
      && Fits(n, v, r) && Padded(r) && d + r.Len() <= n
      && r.Len() == Moved(n, idx, pl, w) && at == FrameStart(n, v, r)
      && at < n && (if pl.Rewind? then buf[idx := n - idx] else buf)[at := w] == StoreRecord(buf, v, r)
  {
    NewRecordIs(buf, idx, pl, w);
    hide Slot, HeadCount, NewRecord, Words, StoreRecord;
    NewRecordStored(buf, v, idx, pl, w);
  }

  lemma NewRecordHasRoom(buf: seq<nat>, v: nat, idx: nat, pl: Placement, w: nat)
    requires |buf| > 0 && idx == Slot(v, |buf|) < |buf| && 0 < w < TWO16
    requires pl != NoRoom && (pl.Here? ==> idx + w <= |buf|) && (pl.Rewind? ==> w <= idx && |buf| - idx < w)
    ensures Fits(|buf|, v, NewRecord(buf, idx, pl, w))
  {
    NewRecordIs(buf, idx, pl, w);
    hide Slot, HeadCount, NewRecord, Words;
  }

  lemma NewRecordStored(buf: seq<nat>, v: nat, idx: nat, pl: Placement, w: nat)
    requires |buf| > 0 && idx == Slot(v, |buf|) < |buf| && 0 < w < TWO16
    requires pl != NoRoom && (pl.Here? ==> idx + w <= |buf|) && (pl.Rewind? ==> w <= idx && |buf| - idx < w)
    ensures var r := NewRecord(buf, idx, pl, w);
      var at := if pl.Rewind? then 0 else idx;
      Fits(|buf|, v, r) && (if pl.Rewind? then buf[idx := |buf| - idx] else buf)[at := w] == StoreRecord(buf, v, r)
  {
    hide Slot, HeadCount, NewRecord, Words, Store, Fits;
    NewRecordIs(buf, idx, pl, w);
    NewRecordHasRoom(buf, v, idx, pl, w);
    var at := if pl.Rewind? then 0 else idx;
    WriteHead(if pl.Rewind? then buf[idx := |buf| - idx] else buf, at, w, NewRecord(buf, idx, pl, w).words);
  }

  lemma NewRecordIs(buf: seq<nat>, idx: nat, pl: Placement, w: nat)
    requires idx < |buf| && 0 < w < TWO16
    requires pl != NoRoom && (pl.Here? ==> idx + w <= |buf|) && (pl.Rewind? ==> w <= idx && |buf| - idx < w)
    ensures var r := NewRecord(buf, idx, pl, w);
      var at := if pl.Rewind? then 0 else idx;
      var b := if pl.Rewind? then buf[idx := |buf| - idx] else buf;
      && r.pad == r.mark == (if pl.Rewind? then |buf| - idx else 0)
      && HeadCount(r.words[0]) == w
      && forall j :: 0 < j < w ==> r.words[j] == b[at + j]
  {
  }

  lemma WriteHead(b: seq<nat>, at: nat, w: nat, words: seq<nat>)
    requires 0 < |words| && at + |words| <= |b| && words[0] == w
    requires forall j :: 0 < j < |words| ==> words[j] == b[at + j]
    ensures b[at := w] == Store(b, at, words)
  {
  }

  lemma PointersAppend(n: nat, msgs: seq<(nat, nat)>, vin: nat, rsv: seq<Record>, m: (nat, nat), r: Record)
    requires PointersOk(n, msgs, vin, rsv) && m == (FrameStart(n, vin + Extent(rsv), r), |r.words|)
    ensures PointersOk(n, msgs + [m], vin, rsv + [r])
  {
    hide Extent, FrameStart;
    var rsv' := rsv + [r];
    forall i | 0 <= i < |rsv'|
      ensures (msgs + [m])[i] == (FrameStart(n, vin + Extent(rsv'[..i]), rsv'[i]), |rsv'[i].words|)
    {
      assert rsv'[..i] == if i < |rsv| then rsv[..i] else rsv;
    }
  }

  lemma AppendKeepsLayout(buf: seq<nat>, vout: nat, frames: seq<Record>, rsv: seq<Record>, r: Record)
    requires LayoutOk(buf, vout, frames, rsv)
    requires Fits(|buf|, vout + Extent(frames) + Extent(rsv), r) && Padded(r)
    requires Extent(frames) + Extent(rsv) + r.Len() <= |buf|
    ensures LayoutOk(StoreRecord(buf, vout + Extent(frames) + Extent(rsv), r), vout, frames, rsv + [r])
    ensures Extent(rsv + [r]) == Extent(rsv) + r.Len()
  {
    ExtentConcat(rsv, [r]);
    ExtentConcat(frames, rsv);
    ExtentOne(r);
    hide Tiled, Extent, Fits, StoreRecord, GoodSize, Shaped, Padded, IsDummy;
    AppendRecord(buf, vout, frames + rsv, r);
    assert frames + rsv + [r] == frames + (rsv + [r]);
  }

  /** What a turn of the put loop decides on: the slot it is at and the room there really is. */
  lemma PutSees(s: State, w: nat)
    requires Inv(s) && Enabled(s.k, PTurn(w))
    ensures var n, d := |s.k.buf|, Extent(s.h.frames) + Extent(s.h.rsv);
      && n > 0 && d <= n && s.k.p.tmpIn == Wrap(s.h.vout + d)
      && Index(s.k.p.tmpIn, n) == Slot(s.h.vout + d, n)
      && Choice(s.k, w) == Place(n, Slot(s.h.vout + d, n), n - d, w)
  {
    hide Tiled, AllShaped, AllPadded, NoDummies, Extent, Slot, GoodSize, FrameStart, Place, PointersOk, TakenOk, BitAnd;
    var n, d := |s.k.buf|, Extent(s.h.frames) + Extent(s.h.rsv);
    IndexIsSlot(s.h.vout + d, n);
    UnusedMeans(n, s.h.vout, d);
  }

  /** A turn of the put loop grants a frame exactly when there is room, whatever out it sees. */
  lemma PutGrantsIff(s: State, w: nat)
    requires Inv(s) && Enabled(s.k, PTurn(w))
    ensures var n, used := |s.k.buf|, Extent(s.h.frames) + Extent(s.h.rsv);
      && n > 0 && Index(s.k.p.tmpIn, n) == Slot(s.h.vout + used, n)
      && (Choice(s.k, w) != NoRoom <==> HasRoom(n, Index(s.k.p.tmpIn, n), used, w))
  {
    hide Place, HasRoom, Inv, Choice, Index;
    PutSees(s, w);
    assert Slot(s.h.vout + (Extent(s.h.frames) + Extent(s.h.rsv)), |s.k.buf|) < |s.k.buf|;
    hide Slot, Extent;
    PlaceIff(|s.k.buf|, Index(s.k.p.tmpIn, |s.k.buf|), Extent(s.h.frames) + Extent(s.h.rsv), w);
  }

  /** A turn that finds room. */
  lemma PutAdds(s: State, w: nat) returns (r: Record)
    requires Inv(s) && Enabled(s.k, PTurn(w)) && Choice(s.k, w) != NoRoom
    ensures var k, h, k', n := s.k, s.h, Step(s, PTurn(w)).k, |s.k.buf|;
      && Step(s, PTurn(w)).h == h.(rsv := h.rsv + [r]) && |r.words| == w
      && k' == k.(buf := k'.buf, p := k.p.(tmpIn := k'.p.tmpIn, msgs := k'.p.msgs)) && |k'.buf| == n
      && LayoutOk(k'.buf, h.vout, h.frames, h.rsv + [r])
      && k'.p.tmpIn == Wrap(Vin(h) + Extent(h.rsv + [r]))
      && PointersOk(n, k'.p.msgs, Vin(h), h.rsv + [r])
  {
    hide BitAnd, Tiled, Fits, Shaped, Padded, AllShaped, AllPadded, NoDummies, Extent, Slot, GoodSize, FrameStart, StoreRecord, Place, IsDummy, PointersOk, TakenOk, Unused, Index, Accounted, ConsumerOk;
    var k, h, n := s.k, s.h, |s.k.buf|;
    var d := Extent(h.frames) + Extent(h.rsv);
    var v := h.vout + d;
    PutSees(s, w);
    var pl, idx := Choice(k, w), Index(k.p.tmpIn, n);
    r := NewRecord(k.buf, idx, pl, w);
    hide Choice;
    NewRecordFits(k.buf, v, d, idx, pl, w);
    hide NewRecord, Moved;
    WrapAdds(v, Moved(n, idx, pl, w));
    hide Wrap;
    AppendKeepsLayout(k.buf, h.vout, h.frames, h.rsv, r);
    PointersAppend(n, k.p.msgs, Vin(h), h.rsv, (if pl.Rewind? then 0 else idx, w), r);
    hide LayoutOk;
  }

  lemma PutKeepsInv(s: State, w: nat)
    requires Inv(s) && Enabled(s.k, PTurn(w))
    ensures Inv(Step(s, PTurn(w)))
    ensures var s' := Step(s, PTurn(w));
      if Choice(s.k, w).NoRoom? then Draft(s') == Draft(s)
      else |Draft(s')| == |Draft(s)| + 1 && Draft(s') == Draft(s) + [s'.h.rsv[|s.h.rsv|].words]
           && |s'.h.rsv[|s.h.rsv|].words| == w
  {
    hide LayoutOk, PointersOk, Wrap, Choice, Extent, NewRecord, Index, Moved;
    if Choice(s.k, w) != NoRoom {
      var r := PutAdds(s, w);
      FramesConcat(s.h.rsv, [r]);
      hide Put;
    }
  }

  lemma FillKeepsLayout(buf: seq<nat>, vout: nat, frames: seq<Record>, rsv: seq<Record>, i: nat, j: nat, word: nat)
    requires LayoutOk(buf, vout, frames, rsv)
    requires i < |rsv| && j < |rsv[i].words|
    ensures var at := FrameStart(|buf|, vout + Extent(frames) + Extent(rsv[..i]), rsv[i]) + j;
      && at < |buf|
      && LayoutOk(buf[at := word], vout, frames, rsv[i := Rewritten(rsv[i], j, word)])
      && Extent(rsv[i := Rewritten(rsv[i], j, word)]) == Extent(rsv)
  {
    hide Tiled, Extent, Slot, GoodSize, IsDummy, HeadCount, NoDummies;
    var r := rsv[i];
    var r' := Rewritten(r, j, word);
    var a, b := frames + rsv[..i], rsv[i + 1..];
    assert rsv[i := r'] == rsv[..i] + [r'] + b;
    assert rsv == rsv[..i] + [r] + b;
    assert frames + rsv == a + [r] + b;
    assert frames + rsv[i := r'] == a + [r'] + b;
    ExtentConcat(frames, rsv[..i]);
    ExtentConcat(frames, rsv);
    ExtentConcat(frames, rsv[i := r']);
    TiledSplit(buf, vout, a, r, b);
    RewriteWord(buf, vout, a, r, b, j, word);
    FrameAddress(buf, vout + Extent(a), r, j);
  }

  lemma PointersUpdate(n: nat, msgs: seq<(nat, nat)>, vin: nat, rsv: seq<Record>, i: nat, r: Record)
    requires PointersOk(n, msgs, vin, rsv) && i < |rsv|
    requires r.pad == rsv[i].pad && |r.words| == |rsv[i].words|
    ensures PointersOk(n, msgs, vin, rsv[i := r])
  {
    hide Extent, Slot;
    forall m | 0 <= m < |rsv|
      ensures msgs[m] == (FrameStart(n, vin + Extent(rsv[i := r][..m]), rsv[i := r][m]), |rsv[i := r][m].words|)
    {
      ExtentUpdate(rsv, i, r, m);
    }
  }

  lemma FillKeepsInv(s: State, i: nat, j: nat, word: nat)
    requires Inv(s) && Enabled(s.k, PFill(i, j, word))
    ensures Inv(Step(s, PFill(i, j, word)))
    ensures i < |Draft(s)| && j < |Draft(s)[i]|
    ensures Draft(Step(s, PFill(i, j, word))) == Draft(s)[i := SetWord(Draft(s)[i], j, word)]
  {
    hide Tiled, Extent, Slot, LayoutOk, FrameStart, HeadCount;
    var k, h, n := s.k, s.h, |s.k.buf|;
    assert |h.rsv[i].words| == k.p.msgs[i].1;
    FillKeepsLayout(k.buf, h.vout, h.frames, h.rsv, i, j, word);
    PointersUpdate(n, k.p.msgs, Vin(h), h.rsv, i, Rewritten(h.rsv[i], j, word));
  }

  function SetWord(m: seq<nat>, j: nat, word: nat): seq<nat>
    requires j < |m|
  {
    m[j := word]
  }

  lemma ReservedHead(buf: seq<nat>, vout: nat, frames: seq<Record>, rsv: seq<Record>, msgs: seq<(nat, nat)>, i: nat)
    requires LayoutOk(buf, vout, frames, rsv) && i < |rsv|
    requires PointersOk(|buf|, msgs, vout + Extent(frames), rsv)
    ensures 0 < |rsv[i].words| && Word(buf, msgs[i].0) == rsv[i].words[0]
  {
    hide Tiled, Extent, Slot, GoodSize, HeadCount, Holds, FrameStart;
    TiledConcat(buf, vout, frames, rsv);
    RecordAt(buf, vout + Extent(frames), rsv, i);
    FrameIsRead(buf, vout + Extent(frames) + Extent(rsv[..i]), rsv[i]);
  }

  lemma PublishKeepsLayout(buf: seq<nat>, vout: nat, frames: seq<Record>, rsv: seq<Record>, msgs: seq<(nat, nat)>)
    requires LayoutOk(buf, vout, frames, rsv) && PointersOk(|buf|, msgs, vout + Extent(frames), rsv)
    requires forall m :: m in msgs ==> HeadOk(Word(buf, m.0), m.1)
    ensures LayoutOk(buf, vout, frames + rsv, [])
    ensures Extent(frames + rsv) == Extent(frames) + Extent(rsv)
  {
    hide Tiled, GoodSize, IsDummy, Slot, FrameStart, HeadCount;
    ExtentConcat(frames, rsv);
    assert frames + rsv + [] == frames + rsv;
    assert NoDummies(rsv) && AllShaped(rsv) by {
      forall i | 0 <= i < |rsv|
        ensures Shaped(rsv[i]) && !IsDummy(rsv[i].words[0])
      {
        ReservedHead(buf, vout, frames, rsv, msgs, i);
        assert msgs[i] in msgs;
      }
    }
  }

  lemma PublishKeepsInv(s: State)
    requires Inv(s) && Enabled(s.k, PPublish)
    ensures Inv(Step(s, PPublish))
    ensures Queue(Step(s, PPublish)) == Queue(s) + Draft(s)
  {
    hide LayoutOk, Extent, HeadOk, Slot, Wrap, FrameStart, TakenOk, Frames;
    PublishKeepsLayout(s.k.buf, s.h.vout, s.h.frames, s.h.rsv, s.k.p.msgs);
    FramesConcat(s.h.frames, s.h.rsv);
    ConsumerSeesMore(|s.k.buf|, s.k.c, s.k.nextOut, s.h.vout, s.h.frames, s.h.rsv, s.h.taken);
    var none: seq<Record> := [];
    ExtentOfNone();
    hide ConsumerOk, PointersOk;
    var s' := Step(s, PPublish);
    assert s'.h.frames == s.h.frames + s.h.rsv && s'.h.rsv == none;
  }

  lemma ExtentOfNone()
    ensures Extent([]) == 0
  {
  }

  lemma ConsumerSeesMore(n: nat, c: Consumer, nextOut: nat, vout: nat, frames: seq<Record>, more: seq<Record>, taken: nat)
    requires ConsumerOk(n, c, nextOut, vout, frames, taken)
    ensures ConsumerOk(n, c, nextOut, vout, frames + more, taken)
  {
    hide Extent, Slot, Wrap;
    if c.pc != Idle {
      assert forall i :: 0 <= i <= taken ==> (frames + more)[..i] == frames[..i];
      assert (frames + more)[..taken] == frames[..taken];
    }
  }

  lemma DropReserved(buf: seq<nat>, vout: nat, frames: seq<Record>, rsv: seq<Record>)
    requires LayoutOk(buf, vout, frames, rsv)
    ensures LayoutOk(buf, vout, frames, [])
  {
    hide Slot, GoodSize, Shaped, Padded, IsDummy, Tiled, Extent;
    TiledConcat(buf, vout, frames, rsv);
    ExtentOfNone();
    assert frames + [] == frames;
  }

  lemma AbandonKeepsInv(s: State)
    requires Inv(s) && Enabled(s.k, PAbandon)
    ensures Inv(Step(s, PAbandon))
  {
    hide LayoutOk, PointersOk, ConsumerOk, Extent, Wrap;
    DropReserved(s.k.buf, s.h.vout, s.h.frames, s.h.rsv);
  }

  lemma BeginKeepsInv(s: State, a: Action)
    requires Inv(s) && Enabled(s.k, a) && (a.PBegin? || a.PEnd? || a.CBegin? || a.CEnd? || a.CAbandon?)
    ensures Inv(Step(s, a))
  {
    hide LayoutOk, Slot;
    assert s.h.frames[..0] == [];
  }

  // ---------- Consumer steps ----------

  /** The get loop stops exactly when it has taken everything. */
  lemma AtEnd(buf: seq<nat>, vout: nat, frames: seq<Record>, rsv: seq<Record>, taken: nat)
    requires LayoutOk(buf, vout, frames, rsv) && taken <= |frames|
    ensures Wrap(vout + Extent(frames[..taken])) == Wrap(vout + Extent(frames)) <==> taken == |frames|
    ensures taken < |frames| ==> Wrap(vout + Extent(frames[..taken]) + frames[taken].pad) != Wrap(vout + Extent(frames))
  {
    hide GoodSize, AllShaped, NoDummies, Tiled, Extent, Wrap;
    TiledConcat(buf, vout, frames, rsv);
    if taken == |frames| {
      assert frames[..taken] == frames;
    } else {
      RecordAt(buf, vout, frames, taken);
      var v, r := vout + Extent(frames[..taken]), frames[taken];
      WrapDistinct(v, vout + Extent(frames));
      WrapDistinct(v + r.pad, vout + Extent(frames));
    }
  }

  lemma WrapDistinct(a: nat, b: nat)
    requires a < b < a + TWO32
    ensures Wrap(a) != Wrap(b)
  {
  }

  /** What it finds before that: a dummy to skip, if the record has one, and a frame to take. */
  lemma NextRecord(buf: seq<nat>, vout: nat, frames: seq<Record>, rsv: seq<Record>, taken: nat)
    requires LayoutOk(buf, vout, frames, rsv) && taken < |frames|
    ensures var v, r, n := vout + Extent(frames[..taken]), frames[taken], |buf|;
      && Extent(frames[..taken + 1]) == Extent(frames[..taken]) + r.Len()
      && Index(Wrap(v + r.pad), n) == FrameStart(n, v, r)
      && Word(buf, FrameStart(n, v, r)) == r.words[0] && !IsDummy(r.words[0]) && HeadCount(r.words[0]) == |r.words|
      && (r.pad > 0 ==> Word(buf, Index(Wrap(v), n)) == r.pad && IsDummy(r.pad) && HeadCount(r.pad) == r.pad)
  {
    hide Index, GoodSize, Tiled, Extent;
    var v, r, n := vout + Extent(frames[..taken]), frames[taken], |buf|;
    TiledConcat(buf, vout, frames, rsv);
    RecordAt(buf, vout, frames, taken);
    FrameIsRead(buf, v, r);
    IndexIsSlot(v, n);
    IndexIsSlot(v + r.pad, n);
    SlotStep(v, r.pad, n);
    assert Shaped(r);
  }

  lemma TakeOne(n: nat, msgs: seq<nat>, vout: nat, frames: seq<Record>, taken: nat)
    requires TakenOk(n, msgs, vout, frames, taken) && taken < |frames|
    ensures TakenOk(n, msgs + [FrameStart(n, vout + Extent(frames[..taken]), frames[taken])], vout, frames, taken + 1)
  {
    hide Extent, FrameStart;
  }

  /** Turns of the get loop that can still be made before it has nothing left to take. */
  function TurnsLeft(s: State): int {
    2 * (|s.h.frames| - s.h.taken) - if s.k.c.pc == PastDummy then 1 else 0
  }

  /** A turn of the get loop changes nothing but the consumer's locals; it ends the loop exactly when
      everything published has been taken, and otherwise uses up one of the turns left, because a
      dummy's length is positive and a frame always follows it. */
  lemma GetKeepsInv(s: State)
    requires Inv(s) && Enabled(s.k, CTurn)
    ensures Inv(Step(s, CTurn)) && Queue(Step(s, CTurn)) == Queue(s) && Draft(Step(s, CTurn)) == Draft(s)
    ensures var s' := Step(s, CTurn);
      && (s.k.c.tmpOut == s.k.inCnt <==> s.h.taken == |s.h.frames|)
      && (s.h.taken < |s.h.frames| ==> 0 <= TurnsLeft(s') < TurnsLeft(s))
      && s'.h.taken == (if s'.k.c.pc == InLoop && s.h.taken < |s.h.frames| then s.h.taken + 1 else s.h.taken)
      && |s'.k.c.msgs| == s'.h.taken
  {
    var k, h := s.k, s.h;
    hide LayoutOk, Extent, Index, IsDummy, HeadCount, Slot, FrameStart, ProducerOk, Wrap, Word;
    AtEnd(k.buf, h.vout, h.frames, h.rsv, h.taken);
    if h.taken < |h.frames| {
      NextRecord(k.buf, h.vout, h.frames, h.rsv, h.taken);
      TakeOne(|k.buf|, k.c.msgs, h.vout, h.frames, h.taken);
      hide TakenOk;
      var r := h.frames[h.taken];
      var v := h.vout + Extent(h.frames[..h.taken]);
      WrapAdds(v, r.pad);
      WrapAdds(v + r.pad, |r.words|);
    }
  }

  lemma WrapAdds(v: nat, d: nat)
    ensures Wrap(Wrap(v) + d) == Wrap(v + d)
  {
  }

  lemma CommitKeepsLayout(buf: seq<nat>, vout: nat, frames: seq<Record>, rsv: seq<Record>, taken: nat)
    requires LayoutOk(buf, vout, frames, rsv) && taken <= |frames|
    ensures LayoutOk(buf, vout + Extent(frames[..taken]), frames[taken..], rsv)
    ensures Extent(frames) == Extent(frames[..taken]) + Extent(frames[taken..])
  {
    hide Tiled, GoodSize, AllShaped, NoDummies, Extent;
    assert frames == frames[..taken] + frames[taken..];
    ExtentConcat(frames[..taken], frames[taken..]);
    assert frames + rsv == frames[..taken] + (frames[taken..] + rsv);
    TiledConcat(buf, vout, frames[..taken], frames[taken..] + rsv);
    TailShaped(frames, taken);
  }

  lemma TailShaped(frames: seq<Record>, t: nat)
    requires t <= |frames| && AllShaped(frames) && NoDummies(frames)
    ensures AllShaped(frames[t..]) && NoDummies(frames[t..])
  {
    hide Shaped, IsDummy;
  }

  lemma CommitKeepsInv(s: State)
    requires Inv(s) && Enabled(s.k, CCommit)
    ensures var s' := Step(s, CCommit);
      && Inv(s') && Draft(s') == Draft(s)
      && Queue(s) == Held(s.k.buf, s.k.c.msgs) + Queue(s')
      && s'.h.received == s.h.received + Held(s.k.buf, s.k.c.msgs)
  {
    var k, h := s.k, s.h;
    hide LayoutOk, Extent, Slot, FrameStart, Frames, Held;
    CommitKeepsLayout(k.buf, h.vout, h.frames, h.rsv, h.taken);
    HeldIsTaken(k.buf, k.c.msgs, h.vout, h.frames, h.rsv, h.taken);
    FramesConcat(h.frames[..h.taken], h.frames[h.taken..]);
    assert h.frames == h.frames[..h.taken] + h.frames[h.taken..];
  }

  // ---------- Every run refines a FIFO queue ----------

  lemma InitInv(s: State)
    requires Init(s)
    ensures Inv(s)
  {
    hide BitAnd, LayoutOk, GoodSize, Accounted, Frames;
    InitLayout(s.k.buf);
    InitAccounted();
    ExtentOfNone();
    assert s.k.inCnt == Wrap(Vin(s.h));
  }

  lemma InitAccounted()
    ensures Accounted(Hist(0, [], [], 0, [], []))
  {
  }

  lemma InitLayout(buf: seq<nat>)
    requires GoodSize(|buf|)
    ensures 0 < |buf| < TWO32 && LayoutOk(buf, 0, [], [])
  {
    var none: seq<Record> := [];
    assert none + none == none;
  }

  /** What the queue and the draft are after each step, given what they were before. */
  ghost predicate Refines(s: State, a: Action, s': State) {
    var q, d, q', d' := Queue(s), Draft(s), Queue(s'), Draft(s');
    match a
    case PTurn(w) =>
      q' == q && if Choice(s.k, w).NoRoom? then d' == d else |d'| == |d| + 1 && d'[..|d|] == d && |d'[|d|]| == w
    case PFill(i, j, word) => q' == q && i < |d| && j < |d[i]| && d' == d[i := SetWord(d[i], j, word)]
    case PPublish => q' == q + d && d' == []
    case PAbandon => q' == q && d' == []
    case CCommit => q == Held(s.k.buf, s.k.c.msgs) + q' && d' == d
    case _ => q' == q && d' == d
  }

  /** Every step of either side keeps the invariant and does to the queue what a FIFO queue would:
      completing a put appends the draft, completing a get removes exactly the messages in hand, and
      a put or get that is never completed has no effect on it. */
  lemma StepRefines(s: State, a: Action)
    requires Inv(s) && Enabled(s.k, a)
    ensures Inv(Step(s, a)) && Refines(s, a, Step(s, a))
  {
    hide Inv, Choice, NewRecord, Put, Get, IsDummy, HeadCount;
    match a
    case PTurn(w) => PutKeepsInv(s, w);
    case PFill(i, j, word) => FillKeepsInv(s, i, j, word);
    case PPublish => PublishKeepsInv(s);
    case PAbandon => AbandonKeepsInv(s);
    case CTurn => GetKeepsInv(s);
    case CCommit => CommitKeepsInv(s);
    case _ => BeginKeepsInv(s, a);
  }

  predicate IsRun(s: State, acts: seq<Action>)
    decreases |acts|
  {
    acts != [] ==> Enabled(s.k, acts[0]) && IsRun(Step(s, acts[0]), acts[1..])
  }

  function Exec(s: State, acts: seq<Action>): State
    requires IsRun(s, acts)
    decreases |acts|
  {
    if acts == [] then s else Exec(Step(s, acts[0]), acts[1..])
  }

  lemma {:induction false} RunKeepsInv(s: State, acts: seq<Action>)
    requires Inv(s) && IsRun(s, acts)
    ensures Inv(Exec(s, acts))
    decreases |acts|
  {
    hide Inv, Step;
    if acts != [] {
      StepRefines(s, acts[0]);
      RunKeepsInv(Step(s, acts[0]), acts[1..]);
    }
  }

  lemma UsedMeans(vout: nat, d: nat)
    requires d < TWO32
    ensures Sub32(Wrap(vout + d), Wrap(vout)) == d
  {
  }

  /** Over any interleaving from an empty ring, however often the counters wrap: what was received is
      what was sent, in order, less what is still queued; in - out, as 32-bit subtraction computes
      it, is the number of words in use and never exceeds the size; and a burst in the consumer's
      hands is a prefix of the queue. */
  lemma EveryRunIsFifo(s0: State, acts: seq<Action>)
    requires Init(s0) && IsRun(s0, acts)
    ensures var s := Exec(s0, acts);
      && s.h.sent == s.h.received + Queue(s)
      && Sub32(s.k.inCnt, s.k.outCnt) == Extent(s.h.frames) <= |s.k.buf|
      && (s.k.c.pc == Done ==> Held(s.k.buf, s.k.c.msgs) <= Queue(s))
  {
    InitInv(s0);
    RunKeepsInv(s0, acts);
    InvMeans(Exec(s0, acts));
  }

  lemma InvMeans(s: State)
    requires Inv(s)
    ensures s.h.sent == s.h.received + Queue(s)
    ensures Sub32(s.k.inCnt, s.k.outCnt) == Extent(s.h.frames) <= |s.k.buf|
    ensures s.k.c.pc == Done ==> Held(s.k.buf, s.k.c.msgs) <= Queue(s)
  {
    hide GoodSize, AllShaped, NoDummies, Tiled, Slot, FrameStart, Frames, Held, Wrap, Sub32, ProducerOk, ConsumerOk, Extent;
    UsedMeans(s.h.vout, Extent(s.h.frames));
    if s.k.c.pc == Done {
      CommitKeepsInv(s);
    }
  }
}
