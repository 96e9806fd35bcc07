/**
cmmQuickMsgRing.c as an object updated in place.  Each method is proved to be a run of steps of
CmmRingProtocol.
*/
module CmmQuickMsgRing {
  import opened RingCore
  import opened CmmRing
  import opened CmmRingProtocol

  function Quiet(k: Conc): Conc {
    k.(p := Producer(Idle, 0, []), c := Consumer(Idle, 0, []))
  }

  lemma QuietKeepsInv(s: State)
    requires Inv(s) && s.k.p.pc == Idle && s.k.c.pc == Idle
    ensures Inv(State(Quiet(s.k), s.h))
  {
    hide LayoutOk, Accounted, Wrap;
  }

  lemma IndexInRange(s: State, v: nat)
    requires Inv(s)
    ensures Index(Wrap(v), |s.k.buf|) < |s.k.buf|
  {
    hide Index, BitAnd;
    IndexIsSlot(v, |s.k.buf|);
  }

  /** The producer's pointers denote the messages of the draft, inside the buffer. */
  lemma DraftPointers(s: State, i: nat, j: nat)
    requires Inv(s) && s.k.p.pc == Done && i < |Draft(s)| && j < |Draft(s)[i]|
    ensures i < |s.k.p.msgs| && s.k.p.msgs[i].1 == |Draft(s)[i]| && s.k.p.msgs[i].0 + j < |s.k.buf|
    ensures 0 < |Draft(s)[i]|
    ensures Word(s.k.buf, s.k.p.msgs[i].0) == Draft(s)[i][0]
  {
    var k, h := s.k, s.h;
    hide Tiled, Extent, Slot, GoodSize, HeadCount, IsDummy, Accounted, ConsumerOk;
    ReservedHead(k.buf, h.vout, h.frames, h.rsv, k.p.msgs, i);
    assert Padded(h.rsv[i]);
    var r := h.rsv[i];
    FillKeepsLayout(k.buf, h.vout, h.frames, h.rsv, i, j, r.words[j]);
  }

  /** The start of a put of one message: a burst of one. */
  function Reserved(s: State, w: nat): State
    requires s.k.p.pc == Idle && 0 < w < TWO16
  {
    Step(Step(Step(s, PBegin), PTurn(w)), PEnd)
  }

  predicate Accepts(k: Conc, w: nat) {
    Choice(k.(p := Producer(InLoop, k.inCnt, [])), w) != NoRoom
  }

  /** A ring accepts a frame exactly when there is room behind in or in front of out, whatever it holds;
      in - out is the number of words in use. */
  lemma AcceptsIff(s: State, w: nat)
    requires Inv(s) && s.k.p.pc == Idle && 0 < w < TWO16
    ensures Sub32(s.k.inCnt, s.k.outCnt) == Extent(s.h.frames)
    ensures Accepts(s.k, w) <==> HasRoom(|s.k.buf|, Index(s.k.inCnt, |s.k.buf|), Sub32(s.k.inCnt, s.k.outCnt), w)
  {
    hide Inv, HasRoom, Index, Choice, Sub32;
    StepRefines(s, PBegin);
    PutGrantsIff(Step(s, PBegin), w);
    CountersMean(s);
    assert Extent([]) == 0;
  }

  lemma CountersMean(s: State)
    requires Inv(s)
    ensures Sub32(s.k.inCnt, s.k.outCnt) == Extent(s.h.frames) && (s.k.p.pc == Idle ==> s.h.rsv == [])
  {
    InvMeans(s);
    hide LayoutOk, Extent, ConsumerOk, Sub32, Wrap;
  }

  lemma ReserveOneMessage(s: State, w: nat)
    requires Inv(s) && s.k.p.pc == Idle && 0 < w < TWO16
    ensures var s' := Reserved(s, w);
      && Inv(s') && Queue(s') == Queue(s) && s'.k.p.pc == Done
      && |Draft(s')| == |s'.k.p.msgs| == (if Accepts(s.k, w) then 1 else 0)
      && (Accepts(s.k, w) ==> |Draft(s')[0]| == w)
  {
    hide Inv, NewRecord, Wrap, Place, Moved, Index, Unused;
    var s1 := Step(s, PBegin);
    var s2 := Step(s1, PTurn(w));
    StepRefines(s, PBegin);
    StepRefines(s1, PTurn(w));
    StepRefines(s2, PEnd);
    BeginDrafts(s);
  }

  lemma BeginDrafts(s: State)
    requires Inv(s) && s.k.p.pc == Idle
    ensures s.h.rsv == [] && Draft(s) == []
  {
    hide LayoutOk, ConsumerOk, Accounted;
  }

  lemma TmpInIndex(s: State)
    requires Inv(s) && s.k.p.pc == InLoop
    ensures 0 < |s.k.buf| && Index(s.k.p.tmpIn, |s.k.buf|) < |s.k.buf|
  {
    hide Index, LayoutOk, ConsumerOk, Accounted, Wrap, PointersOk, Extent;
    IndexInRange(s, Vin(s.h) + Extent(s.h.rsv));
  }

  lemma TmpOutIndex(s: State)
    requires Inv(s) && (s.k.c.pc == InLoop || s.k.c.pc == PastDummy)
    ensures 0 < |s.k.buf| && Index(s.k.c.tmpOut, |s.k.buf|) < |s.k.buf|
    ensures s.k.c.pc == PastDummy ==> s.h.taken < |s.h.frames|
    ensures s.h.taken <= |s.h.frames| && |s.k.c.msgs| == s.h.taken
  {
    hide Index, LayoutOk, ProducerOk, Accounted, Wrap, Extent, FrameStart;
    var v := s.h.vout + Extent(s.h.frames[..s.h.taken]);
    IndexInRange(s, if s.k.c.pc == PastDummy then v + s.h.frames[s.h.taken].pad else v);
  }

  /** A consumer may drop what it has taken at any time. */
  lemma ConsumerDrops(s: State, taken: nat)
    requires Inv(s)
    ensures Inv(State(s.k.(c := Consumer(Idle, 0, [])), s.h.(taken := taken)))
  {
    hide LayoutOk, Wrap, Extent, PointersOk, Frames;
  }

  lemma BurstInHand(s: State)
    requires Inv(s) && s.k.c.pc == Done
    ensures |s.k.c.msgs| == s.h.taken <= |Queue(s)|
    ensures Held(s.k.buf, s.k.c.msgs) == Queue(s)[..s.h.taken]
    ensures Inv(State(s.k.(c := Consumer(Done, 0, s.k.c.msgs)), s.h))
  {
    hide Accounted, Wrap, Extent, PointersOk, FrameStart, LayoutOk, Held, Frames;
    HeldIsTaken(s.k.buf, s.k.c.msgs, s.h.vout, s.h.frames, s.h.rsv, s.h.taken);
    FramesConcat(s.h.frames[..s.h.taken], s.h.frames[s.h.taken..]);
    assert s.h.frames == s.h.frames[..s.h.taken] + s.h.frames[s.h.taken..];
  }

  /** A turn of the put loop, field by field. */
  lemma TurnIs(k: Conc, w: nat)
    requires Enabled(k, PTurn(w))
    ensures var n, pl := |k.buf|, Choice(k, w);
      Do(k, PTurn(w)) == if pl.NoRoom? then k else
        var idx := Index(k.p.tmpIn, n);
        var at := if pl.Rewind? then 0 else idx;
        k.(buf := (if pl.Rewind? then k.buf[idx := n - idx] else k.buf)[at := w],
           p := Producer(InLoop, Wrap(k.p.tmpIn + Moved(n, idx, pl, w)), k.p.msgs + [(at, w)]))
  {
    hide Place, Unused, Moved, BitAnd, Wrap;
  }

  /** The get loop is over: what is in hand is the front of the queue, and may be dropped again. */
  lemma GetEnds(s: State, taken: nat) returns (k: Conc)
    requires Inv(s) && s.k.c.pc == InLoop
    ensures k == s.k.(nextOut := s.k.c.tmpOut, c := Consumer(Done, 0, s.k.c.msgs))
    ensures Inv(State(k, s.h)) && Inv(State(k.(c := Consumer(Idle, 0, [])), s.h.(taken := taken)))
    ensures |s.k.c.msgs| == s.h.taken <= |Queue(s)|
    ensures Held(s.k.buf, s.k.c.msgs) == Queue(s)[..s.h.taken]
  {
    hide Inv, Held, Frames, Put, Get, Choice;
    StepRefines(s, CEnd);
    var s' := Step(s, CEnd);
    BurstInHand(s');
    ConsumerDrops(s', taken);
    k := s'.k.(c := Consumer(Done, 0, s.k.c.msgs));
  }

  /** The loop of QuickMsgRingPrePutMsgBurst: reserve until a message does not fit. */
  function PutAll(k: Conc, counts: seq<nat>): (k': Conc)
    requires forall i :: 0 <= i < |counts| ==> 0 < counts[i] < TWO16
    ensures k' == k.(buf := k'.buf, p := k.p.(tmpIn := k'.p.tmpIn, msgs := k'.p.msgs))
    decreases counts
  {
    if counts == [] || Choice(k, counts[0]).NoRoom? then k else PutAll(Put(k, counts[0]), counts[1..])
  }

  function PutRun(s: State, counts: seq<nat>): (s': State)
    requires s.k.p.pc == InLoop && forall i :: 0 <= i < |counts| ==> 0 < counts[i] < TWO16
    ensures s'.k.p.pc == InLoop
    decreases counts
  {
    if counts == [] || Choice(s.k, counts[0]).NoRoom? then s else PutRun(Step(s, PTurn(counts[0])), counts[1..])
  }

  /** The loop reserves the first m messages, where the m-th is the first that finds no room, and leaves
      the queue alone. */
  lemma {:induction false} PutRunMeans(s: State, counts: seq<nat>) returns (m: nat)
    requires Inv(s) && s.k.p.pc == InLoop && forall i :: 0 <= i < |counts| ==> 0 < counts[i] < TWO16
    ensures var s', d := PutRun(s, counts), |Draft(s)|;
      && Inv(s') && s'.k == PutAll(s.k, counts) && Queue(s') == Queue(s) && s'.h == s.h.(rsv := s'.h.rsv)
      && m <= |counts| && |Draft(s')| == d + m && Draft(s) <= Draft(s')
      && (forall i :: 0 <= i < m ==> |Draft(s')[d + i]| == counts[i])
      && (m < |counts| ==> Choice(s'.k, counts[m]).NoRoom?)
    decreases counts
  {
    hide Inv, Choice, Frames, NewRecord;
    m := 0;
    if counts != [] && !Choice(s.k, counts[0]).NoRoom? {
      StepRefines(s, PTurn(counts[0]));
      var s1 := Step(s, PTurn(counts[0]));
      m := PutRunMeans(s1, counts[1..]);
      m := m + 1;
    }
  }

  /** The whole of a burst. */
  lemma BurstReserved(s: State, counts: seq<nat>) returns (s': State)
    requires Inv(s) && s.k.p.pc == Idle && forall i :: 0 <= i < |counts| ==> 0 < counts[i] < TWO16
    ensures Inv(s') && s'.k == Do(PutAll(Do(s.k, PBegin), counts), PEnd) && s'.k.p.pc == Done && s'.k.c == s.k.c
    ensures Queue(s') == Queue(s) && s.h == s'.h.(rsv := [])
    ensures |Draft(s')| == |s'.k.p.msgs| <= |counts|
    ensures forall i :: 0 <= i < |Draft(s')| ==> |Draft(s')[i]| == counts[i]
    ensures |Draft(s')| < |counts| ==> Choice(s'.k, counts[|Draft(s')|]).NoRoom?
    ensures |Draft(s')| < |counts| ==>
      !HasRoom(|s'.k.buf|, Index(s'.k.nextIn, |s'.k.buf|), Extent(s'.h.frames) + Extent(s'.h.rsv), counts[|Draft(s')|])
  {
    hide Inv, Choice, PutAll, Frames, Put, Get, HeadOk, NewRecord, HasRoom, Index, Extent;
    BeginDrafts(s);
    StepRefines(s, PBegin);
    var s1 := Step(s, PBegin);
    var m := PutRunMeans(s1, counts);
    var s2 := PutRun(s1, counts);
    StepRefines(s2, PEnd);
    s' := Step(s2, PEnd);
    if m < |counts| { PutGrantsIff(s2, counts[m]); }
    ChoiceIgnores(s2.k, if m < |counts| then counts[m] else 1);
    DraftCount(s');
  }

  lemma ChoiceIgnores(k: Conc, w: nat)
    ensures Choice(k.(nextIn := k.p.tmpIn, p := k.p.(pc := Done)), w) == Choice(k, w)
  {
  }

  lemma DraftCount(s: State)
    requires Inv(s) && s.k.p.pc == Done
    ensures |Draft(s)| == |s.k.p.msgs|
  {
    hide LayoutOk, ConsumerOk, Accounted;
  }

  lemma PutOneIsOneTurn(k: Conc, w: nat)
    requires 0 < w < TWO16
    ensures PutAll(k, [w]) == Put(k, w)
  {
    hide NewRecord, Place, Moved, Index, Unused;
    var none: seq<nat> := [];
    assert [w][1..] == none;
  }

  lemma Abandoned(s: State)
    requires Inv(s) && s.k.p.pc == Done && s.k.c.pc == Idle
    ensures Inv(State(Quiet(s.k), Step(s, PAbandon).h)) && Frames(Step(s, PAbandon).h.frames) == Queue(s)
  {
    StepRefines(s, PAbandon);
    QuietKeepsInv(Step(s, PAbandon));
  }

  lemma HeadInPlace(s: State)
    requires Inv(s) && s.k.p.pc == Done
    requires |Draft(s)| == |s.k.p.msgs| == 1 && 0 < |Draft(s)[0]| && HeadOk(Draft(s)[0][0], |Draft(s)[0]|)
    ensures Enabled(s.k, PPublish)
  {
    hide Inv, HeadOk;
    DraftPointers(s, 0, 0);
  }

  lemma Published(s: State)
    requires Inv(s) && Enabled(s.k, PPublish) && s.k.c.pc == Idle
    ensures Inv(State(Quiet(s.k).(inCnt := s.k.nextIn), Step(s, PPublish).h))
    ensures Frames(Step(s, PPublish).h.frames) == Queue(s) + Draft(s)
  {
    hide Inv, HeadOk;
    StepRefines(s, PPublish);
    QuietKeepsInv(Step(s, PPublish));
  }

  lemma HeldOne(buf: seq<nat>, msgs: seq<nat>)
    requires |msgs| == 1
    ensures Held(buf, msgs) == [FrameAt(buf, msgs[0])]
  {
  }

  lemma HeldFits(s: State)
    requires Inv(s) && s.k.c.pc == Done && |s.k.c.msgs| == 1 && s.h.taken == 1
    ensures var at, b := s.k.c.msgs[0], s.k.buf;
      at < |b| && at + HeadCount(b[at]) <= |b| && FrameAt(b, at) == b[at..at + HeadCount(b[at])]
  {
    var k, h := s.k, s.h;
    hide Slot, GoodSize, IsDummy, HeadCount, Accounted, ProducerOk;
    TiledConcat(k.buf, h.vout, h.frames, h.rsv);
    assert h.frames[..0] == [];
    FrameIsRead(k.buf, h.vout, h.frames[0]);
    hide Tiled;
    assert Shaped(h.frames[0]);
  }

  class Ring {
    var buf: array<nat>
    var mask: nat
    var nextIn: nat
    var nextOut: nat
    var inCnt: nat
    var outCnt: nat
    ghost var h: Hist

    ghost function Fields(): Conc
      reads this, buf
    {
      Conc(buf[..], inCnt, outCnt, nextIn, nextOut, Producer(Idle, 0, []), Consumer(Idle, 0, []))
    }

    ghost predicate Valid()
      reads this, buf
    {
      Inv(State(Fields(), h)) && mask == buf.Length - 1
    }

    /** w words fit behind in, or at the front behind a dummy. */
    predicate RoomFor(w: nat)
      reads this
    {
      buf.Length > 0 && HasRoom(buf.Length, Index(inCnt, buf.Length), Sub32(inCnt, outCnt), w)
    }

    ghost function Messages(): seq<seq<nat>>
      reads this
    {
      Frames(h.frames)
    }

    /** QuickMsgRingInit, under its own assertions. */
    constructor (wordCount: nat)
      requires GoodSize(wordCount)
      ensures Valid() && fresh(buf) && buf.Length == wordCount && Messages() == []
    {
      buf := new nat[wordCount](i => 0);
      mask := wordCount - 1;
      nextIn, nextOut, inCnt, outCnt := 0, 0, 0, 0;
      h := Hist(0, [], [], 0, [], []);
      new;
      InitInv(State(Fields(), h));
    }

    /** QuickMsgRingPrePutMsgBurst: the word index and count of each message it could reserve, up to the
        first that does not fit.  What is queued is untouched. */
    method PrePutMsgBurst(counts: seq<nat>) returns (msgs: seq<(nat, nat)>, ghost s: State)
      requires Valid() && forall i :: 0 <= i < |counts| ==> 0 < counts[i] < TWO16
      modifies this`nextIn, buf
      ensures Inv(s) && s.k.p.pc == Done && s.k.c.pc == Idle && s.k.p.msgs == msgs && Fields() == Quiet(s.k)
      ensures Queue(s) == old(Messages()) == Messages() && |Draft(s)| == |msgs| <= |counts|
      ensures forall i :: 0 <= i < |msgs| ==> |Draft(s)[i]| == counts[i]
      ensures |msgs| < |counts| ==> Choice(s.k, counts[|msgs|]).NoRoom?
      ensures |msgs| < |counts| ==>
        !HasRoom(buf.Length, Index(nextIn, buf.Length), Extent(s.h.frames) + Extent(s.h.rsv), counts[|msgs|])
      ensures Valid()
      ensures var k := PutAll(Do(old(Fields()), PBegin), counts);
        msgs == k.p.msgs && Fields() == Quiet(Do(k, PEnd))
    {
      hide Inv, Choice, PutAll, Frames, HasRoom, Index, Extent;
      s := BurstReserved(State(Fields(), h), counts);
      msgs := PutLoop(counts);
      Abandoned(s);
    }

    /** Its loop. */
    method PutLoop(counts: seq<nat>) returns (msgs: seq<(nat, nat)>)
      requires Valid() && forall i :: 0 <= i < |counts| ==> 0 < counts[i] < TWO16
      modifies this`nextIn, buf
      ensures var k := PutAll(Do(old(Fields()), PBegin), counts);
        msgs == k.p.msgs && Fields() == Quiet(Do(k, PEnd))
    {
      hide Place, Unused, Moved, BitAnd, Inv, Wrap, HeadOk, Observe, Put, Get;
      var tmpIn: nat, n := inCnt, 0;
      msgs := [];
      ghost var s := Step(State(Fields(), h), PBegin);
      StepRefines(State(Fields(), h), PBegin);
      ghost var all := PutAll(s.k, counts);
      while n < |counts|
        invariant 0 <= n <= |counts|
        invariant Inv(s) && s.k == old(Fields()).(buf := buf[..], p := Producer(InLoop, tmpIn, msgs))
        invariant PutAll(s.k, counts[n..]) == all
      {
        assert counts[n..][0] == counts[n] && counts[n..][1..] == counts[n + 1..];
        TmpInIndex(s);
        var idx := BitAnd(tmpIn, mask);
        var pl := Place(buf.Length, idx, Unused(buf.Length, tmpIn, outCnt), counts[n]);
        assert pl == Choice(s.k, counts[n]);
        TurnIs(s.k, counts[n]);
        if pl == NoRoom { break; }
        var at := idx;
        if pl == Rewind {
          buf[idx] := buf.Length - idx;
          at := 0;
        }
        buf[at] := counts[n];
        msgs := msgs + [(at, counts[n])];
        tmpIn := Wrap(tmpIn + Moved(buf.Length, idx, pl, counts[n]));
        StepRefines(s, PTurn(counts[n]));
        s := Step(s, PTurn(counts[n]));
        n := n + 1;
      }
      nextIn := tmpIn;
    }

    /** QuickMsgRingPutMsgComplete after a burst whose heads are in order: the burst is queued. */
    method PutMsgComplete(ghost s: State)
      requires Valid() && Inv(s) && Enabled(s.k, PPublish) && s.k.c.pc == Idle && Fields() == Quiet(s.k) && Queue(s) == Messages()
      modifies this`inCnt, this`h
      ensures Valid() && Messages() == old(Messages()) + Draft(s)
    {
      hide Inv, Frames, HeadOk;
      Published(s);
      inCnt := nextIn;
      h := Step(s, PPublish).h;
    }

    /** QuickMsgRingGetMsgComplete after a burst: the burst is no longer queued. */
    method GetMsgComplete(ghost msgs: seq<nat>)
      requires Valid() && Inv(State(Fields().(c := Consumer(Done, 0, msgs)), h.(taken := |msgs|)))
      modifies this`outCnt, this`h
      ensures Valid() && old(Messages()) == old(Held(buf[..], msgs)) + Messages()
    {
      hide Inv, Frames, Held;
      ghost var s := State(Fields().(c := Consumer(Done, 0, msgs)), h.(taken := |msgs|));
      outCnt := nextOut;
      h := Step(s, CCommit).h;
      StepRefines(s, CCommit);
      QuietKeepsInv(Step(s, CCommit));
    }

    /** QuickMsgRingPreGetMsgBurst: the word indices of the oldest messages, as many as there are and
        were asked for.  The loop terminates because a dummy always has a frame behind it. */
    method PreGetMsgBurst(max: nat) returns (msgs: seq<nat>)
      requires Valid()
      modifies this`nextOut
      ensures |msgs| == if max <= |Messages()| then max else |Messages()|
      ensures Held(buf[..], msgs) == Messages()[..|msgs|]
      ensures Valid() && Inv(State(Fields().(c := Consumer(Done, 0, msgs)), h.(taken := |msgs|)))
    {
      hide Inv, BitAnd, Choice, NewRecord, Wrap, Frames, HeadCount, IsDummy, HeadOk, Held;
      var tmpOut: nat, n, pastDummy := outCnt, 0, false;
      msgs := [];
      ghost var s := Step(State(Fields(), h), CBegin);
      StepRefines(State(Fields(), h), CBegin);
      while n < max
        invariant Inv(s) && s.h == h.(taken := n) && n == |msgs| <= max
        invariant s.k == Fields().(c := Consumer(if pastDummy then PastDummy else InLoop, tmpOut, msgs))
        invariant pastDummy ==> n < max
        invariant n <= |h.frames|
        decreases TurnsLeft(s)
      {
        GetKeepsInv(s);
        TmpOutIndex(s);
        if tmpOut == inCnt { break; }
        ghost var s' := Step(s, CTurn);
        var idx := BitAnd(tmpOut, mask);
        var head := buf[idx];
        if IsDummy(head) {
          tmpOut := Wrap(tmpOut + HeadCount(head));
          pastDummy := true;
        } else {
          msgs := msgs + [idx];
          tmpOut := Wrap(tmpOut + HeadCount(head));
          pastDummy := false;
          n := n + 1;
        }
        s := s';
      }
      ghost var k := GetEnds(s, h.taken);
      nextOut := tmpOut;
    }

    /** QuickMsgRingPutOneMsg, for a callback that leaves `frame` in the ring and returns `rc`.  As the
        source asks of it, a callback that succeeds keeps the head's word count and sets a type. */
    method PutOneMsg(frame: seq<nat>, rc: int) returns (ret: int)
      requires Valid() && 0 < |frame| < TWO16 && (rc == 0 ==> HeadOk(frame[0], |frame|))
      modifies this, buf
      ensures Valid() && buf == old(buf)
      ensures ret == if old(RoomFor(|frame|)) then rc else -1
      ensures Messages() == old(Messages()) + if old(RoomFor(|frame|)) && rc == 0 then [frame] else []
    {
      hide Inv, Accepts, Frames, HeadOk, Choice, HasRoom, Index, Sub32;
      ghost var s0 := State(Fields(), h);
      AcceptsIff(s0, |frame|);
      ReserveOneMessage(s0, |frame|);
      ghost var s := Reserved(s0, |frame|);
      assert PutAll(Do(s0.k, PBegin), [|frame|]) == Step(Step(s0, PBegin), PTurn(|frame|)).k by {
        PutOneIsOneTurn(Do(s0.k, PBegin), |frame|);
      }
      var msgs;
      ghost var burst;
      msgs, burst := PrePutMsgBurst([|frame|]);
      if |msgs| != 1 {
        Abandoned(s);
        h := Step(s, PAbandon).h;
        return -1;
      }
      s := Fill(msgs[0].0, frame, s);
      if rc != 0 {
        Abandoned(s);
        h := Step(s, PAbandon).h;
        return rc;
      }
      HeadInPlace(s);
      Published(s);
      inCnt := nextIn;
      h := Step(s, PPublish).h;
      return 0;
    }

    /** The fill callback: it writes the words of `frame` into the one message of the draft. */
    method Fill(at: nat, frame: seq<nat>, ghost s: State) returns (ghost s': State)
      requires Inv(s) && s.k.p.pc == Done && s.k.buf == buf[..]
      requires |Draft(s)| == 1 && |Draft(s)[0]| == |frame| && |s.k.p.msgs| == 1 && s.k.p.msgs[0].0 == at
      requires 0 < |frame|
      modifies buf
      ensures Inv(s') && s'.k == s.k.(buf := buf[..])
      ensures Draft(s') == [frame] && Queue(s') == Queue(s)
    {
      hide Inv, Frames;
      s' := s;
      var j := 0;
      while j < |frame|
        invariant 0 <= j <= |frame|
        invariant Inv(s') && s'.k == s.k.(buf := buf[..])
        invariant |Draft(s')| == 1 && |Draft(s')[0]| == |frame| && Draft(s')[0][..j] == frame[..j]
        invariant Queue(s') == Queue(s)
      {
        DraftPointers(s', 0, j);
        StepRefines(s', PFill(0, j, frame[j]));
        buf[at + j] := frame[j];
        s' := Step(s', PFill(0, j, frame[j]));
        j := j + 1;
      }
      assert Draft(s')[0] == frame;
    }

    /** QuickMsgRingGetOneMsg, for a callback that returns `rc`; `got` is what the callback was
        handed, if it was called. */
    method GetOneMsg(rc: int) returns (ret: int, got: seq<seq<nat>>)
      requires Valid()
      modifies this
      ensures Valid() && buf == old(buf)
      ensures got == old(if Messages() == [] then [] else [Messages()[0]])
      ensures ret == if got == [] then 0 else rc
      ensures Messages() == old(Messages())[if got != [] && rc == 0 then 1 else 0..]
    {
      hide Inv, Frames, FrameAt;
      var msgs := PreGetMsgBurst(1);
      if |msgs| != 1 {
        return 0, [];
      }
      ghost var s := State(Fields().(c := Consumer(Done, 0, msgs)), h.(taken := 1));
      HeldOne(buf[..], msgs);
      BurstInHand(s);
      HeldFits(s);
      got := [buf[msgs[0]..msgs[0] + HeadCount(buf[msgs[0]])]];
      if rc != 0 {
        return rc, got;
      }
      StepRefines(s, CCommit);
      QuietKeepsInv(Step(s, CCommit));
      outCnt := nextOut;
      h := Step(s, CCommit).h;
      return 0, got;
    }
  }
}
