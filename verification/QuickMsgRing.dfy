/**
quickMsgRing.c as an object updated in place.  Each method is proved to be a run of steps of
QuickRingProtocol, so what holds there over every interleaving holds of these bodies; used from one
thread they are the operations of a FIFO queue of word-rounded messages.
*/
module QuickMsgRing {
  import opened RingCore
  import opened QuickRing
  import opened QuickRingProtocol
  import Bulk = QuickRingBulk

  // ---------- Specification of the loops ----------

  /** The loop of QuickMsgRingGetBufBulk: reserve until a message does not fit. */
  function ReserveAll(k: Conc, byteCounts: seq<nat>): (k': Conc)
    ensures k' == k.(buf := k'.buf, p := k.p.(tmpIn := k'.p.tmpIn, msgs := k'.p.msgs))
    decreases byteCounts
  {
    if byteCounts == [] || Choice(k, byteCounts[0]).NoRoom? then k
    else ReserveAll(Reserve(k, byteCounts[0]), byteCounts[1..])
  }

  /** The loop of QuickMsgRingBeginRecvMsgBulk: the messages it returns and where it leaves tmpOut. */
  function RecvAll(buf: seq<nat>, inIdx: nat, emptyFlag: nat, tmpOut: nat, max: nat): (r: (seq<(nat, nat)>, nat))
    requires tmpOut < |buf|
    ensures r.1 < |buf|
    ensures emptyFlag != 1 ==> |r.0| == max
    decreases max
  {
    if max == 0 || (tmpOut == inIdx && emptyFlag == 1) then ([], tmpOut)
    else
      var o := if buf[tmpOut] == |buf| then 0 else tmpOut;
      var rest := RecvAll(buf, inIdx, emptyFlag, Slot(o + buf[o] + RESERV_LEN, |buf|), max - 1);
      ([(o + RESERV_LEN, buf[o])] + rest.0, rest.1)
  }

  /** One turn of the loop that does not stop. */
  lemma RecvAllTurn(buf: seq<nat>, inIdx: nat, emptyFlag: nat, tmpOut: nat, max: nat)
    requires tmpOut < |buf| && max > 0 && !(tmpOut == inIdx && emptyFlag == 1)
    ensures var o := if buf[tmpOut] == |buf| then 0 else tmpOut;
      var rest := RecvAll(buf, inIdx, emptyFlag, (o + buf[o] + RESERV_LEN) % |buf|, max - 1);
      RecvAll(buf, inIdx, emptyFlag, tmpOut, max) == ([(o + RESERV_LEN, buf[o])] + rest.0, rest.1)
  {
    var o := if buf[tmpOut] == |buf| then 0 else tmpOut;
    SlotIsMod(o + buf[o] + RESERV_LEN, |buf|);
    hide Slot;
  }

  lemma Joined<T>(a: seq<T>, x: T, all: seq<T>)
    ensures forall b :: all == a + ([x] + b) ==> all == (a + [x]) + b
  {
    forall b | all == a + ([x] + b)
      ensures all == (a + [x]) + b
    {
      assert a + ([x] + b) == (a + [x]) + b;
    }
  }

  lemma RecvAllEnd(buf: seq<nat>, inIdx: nat, emptyFlag: nat, tmpOut: nat, max: nat)
    requires tmpOut < |buf| && (max == 0 || (tmpOut == inIdx && emptyFlag == 1))
    ensures RecvAll(buf, inIdx, emptyFlag, tmpOut, max) == ([], tmpOut)
  {
  }

  /** One turn of the loop as steps of the protocol. */
  lemma TurnIsSteps(w: Bulk.Whole) returns (w': Bulk.Whole, acts: seq<Bulk.Act>)
    requires var k, b := w.s.k, w.b;
      b.pc == Bulk.BTurn && b.tmpOut < |k.buf| && |b.msgs| < b.max && !(b.tmpOut == k.inIdx && k.emptyFlag == 1)
    ensures var o := if w.s.k.buf[w.b.tmpOut] == |w.s.k.buf| then 0 else w.b.tmpOut;
      w' == w.(b := w.b.(msgs := w.b.msgs + [(o + RESERV_LEN, w.s.k.buf[o])],
                         tmpOut := Slot(o + w.s.k.buf[o] + RESERV_LEN, |w.s.k.buf|)))
    ensures acts == [Bulk.BCompare, Bulk.BReadFiller, Bulk.BReadLength]
      || acts == [Bulk.BCompare, Bulk.BTestFlag, Bulk.BReadFiller, Bulk.BReadLength]
    ensures forall rest :: Bulk.IsRunOf(w', rest) ==>
      Bulk.IsRunOf(w, acts + rest) && Bulk.ExecOf(w, acts + rest) == Bulk.ExecOf(w', rest)
  {
    hide Slot, Bulk.IsRunOf, Bulk.ExecOf;
    var w1 := Bulk.Next(w, Bulk.BCompare);
    var w2 := if w1.b.pc == Bulk.BRead then w1 else Bulk.Next(w1, Bulk.BTestFlag);
    var w3 := Bulk.Next(w2, Bulk.BReadFiller);
    w' := Bulk.Next(w3, Bulk.BReadLength);
    if w1.b.pc == Bulk.BRead {
      acts := [Bulk.BCompare, Bulk.BReadFiller, Bulk.BReadLength];
    } else {
      acts := [Bulk.BCompare, Bulk.BTestFlag, Bulk.BReadFiller, Bulk.BReadLength];
    }
    forall rest | Bulk.IsRunOf(w', rest)
      ensures Bulk.IsRunOf(w, acts + rest) && Bulk.ExecOf(w, acts + rest) == Bulk.ExecOf(w', rest)
    {
      if w1.b.pc == Bulk.BRead {
        Bulk.ThreeSteps(w, Bulk.BCompare, Bulk.BReadFiller, Bulk.BReadLength, rest);
      } else {
        Bulk.ThreeSteps(w1, Bulk.BTestFlag, Bulk.BReadFiller, Bulk.BReadLength, rest);
        Bulk.OneStep(w, Bulk.BCompare,
          [Bulk.BTestFlag, Bulk.BReadFiller, Bulk.BReadLength] + rest);
        assert acts + rest == [Bulk.BCompare]
          + ([Bulk.BTestFlag, Bulk.BReadFiller, Bulk.BReadLength] + rest);
      }
    }
  }

  /** The receive loop undisturbed is a run of the steps that QuickRingBulk interleaves with the producer's. */
  lemma {:induction false} LoopIsSteps(w: Bulk.Whole) returns (acts: seq<Bulk.Act>)
    requires w.b.pc == Bulk.BTurn && w.b.tmpOut < |w.s.k.buf| && |w.b.msgs| <= w.b.max
    ensures Bulk.InCall(acts) && Bulk.IsRunOf(w, acts)
    ensures var k := w.s.k;
      var r, w' := RecvAll(k.buf, k.inIdx, k.emptyFlag, w.b.tmpOut, w.b.max - |w.b.msgs|), Bulk.ExecOf(w, acts);
      w'.b.pc == Bulk.BDone && w'.b.msgs == w.b.msgs + r.0 && w'.s.k == k.(nextOut := r.1)
    decreases w.b.max - |w.b.msgs|
  {
    hide Slot, RecvAll, Bulk.IsRunOf, Bulk.ExecOf;
    var k, b := w.s.k, w.b;
    if |b.msgs| == b.max {
      acts := [Bulk.BCompare];
      RecvAllEnd(k.buf, k.inIdx, k.emptyFlag, b.tmpOut, 0);
      DoneIs(w, acts);
    } else if b.tmpOut == k.inIdx && k.emptyFlag == 1 {
      acts := [Bulk.BCompare, Bulk.BTestFlag];
      RecvAllEnd(k.buf, k.inIdx, k.emptyFlag, b.tmpOut, b.max - |b.msgs|);
      Bulk.TwoSteps(w, Bulk.BCompare, Bulk.BTestFlag);
    } else {
      var w', turn := TurnIsSteps(w);
      RecvAllTurn(k.buf, k.inIdx, k.emptyFlag, b.tmpOut, b.max - |b.msgs|);
      SlotIsMod((if k.buf[b.tmpOut] == |k.buf| then 0 else b.tmpOut) + k.buf[if k.buf[b.tmpOut] == |k.buf| then 0 else b.tmpOut] + RESERV_LEN, |k.buf|);
      var rest := LoopIsSteps(w');
      acts := turn + rest;
    }
  }

  lemma DoneIs(w: Bulk.Whole, acts: seq<Bulk.Act>)
    requires w.b.pc == Bulk.BTurn && |w.b.msgs| == w.b.max && acts == [Bulk.BCompare]
    ensures Bulk.IsRunOf(w, acts) && Bulk.ExecOf(w, acts) == Bulk.Next(w, Bulk.BCompare)
  {
    Bulk.OneStep(w, Bulk.BCompare, []);
    assert [Bulk.BCompare] + [] == acts;
  }

  /** The pointers denote these messages. */
  ghost predicate Denote(buf: seq<nat>, msgs: seq<(nat, nat)>, bodies: seq<seq<nat>>) {
    && |msgs| == |bodies|
    && forall i :: 0 <= i < |msgs| ==>
         msgs[i].0 + msgs[i].1 <= |buf| && buf[msgs[i].0..msgs[i].0 + msgs[i].1] == bodies[i]
  }

  /** A receive loop that started at vout has returned the first n frames and stopped behind them. */
  ghost predicate Got(buf: seq<nat>, r: (seq<(nat, nat)>, nat), vout: nat, frames: seq<Record>, n: nat) {
    && |buf| > 0 && n <= |frames|
    && Denote(buf, r.0, Bodies(frames)[..n])
    && r.1 == Slot(vout + Extent(frames[..n]), |buf|)
  }

  lemma GotNothing(buf: seq<nat>, vout: nat, frames: seq<Record>)
    requires |buf| > 0
    ensures Got(buf, ([], Slot(vout, |buf|)), vout, frames, 0)
  {
  }

  lemma GotOneMore(buf: seq<nat>, m: (nat, nat), rest: (seq<(nat, nat)>, nat), vout: nat, frames: seq<Record>, n: nat)
    requires frames != [] && n > 0
    requires Denote(buf, [m], [Bodies(frames)[0]])
    requires Got(buf, rest, vout + frames[0].Len(), frames[1..], n - 1)
    ensures Got(buf, ([m] + rest.0, rest.1), vout, frames, n)
  {
    hide Slot, Denote, Extent, Bodies;
    TakeExtent(frames, n);
    TakeBodies(frames, n);
    DenoteCons(buf, m, rest.0, Bodies(frames)[0], Bodies(frames[1..])[..n - 1]);
    var r: (seq<(nat, nat)>, nat) := ([m] + rest.0, rest.1);
    assert Denote(buf, r.0, Bodies(frames)[..n]);
  }

  lemma TakeExtent(frames: seq<Record>, n: nat)
    requires 0 < n <= |frames|
    ensures Extent(frames[..n]) == frames[0].Len() + Extent(frames[1..][..n - 1])
  {
    assert frames[..n][1..] == frames[1..][..n - 1];
  }

  lemma TakeBodies(frames: seq<Record>, n: nat)
    requires 0 < n <= |frames|
    ensures Bodies(frames)[..n] == [Bodies(frames)[0]] + Bodies(frames[1..])[..n - 1]
  {
    TakeOne(Bodies(frames)[0], Bodies(frames[1..]), n);
  }

  lemma TakeOne<T>(x: T, s: seq<T>, n: nat)
    requires 0 < n <= |s| + 1
    ensures ([x] + s)[..n] == [x] + s[..n - 1]
  {
  }

  lemma DenoteCons(buf: seq<nat>, m: (nat, nat), msgs: seq<(nat, nat)>, b: seq<nat>, bodies: seq<seq<nat>>)
    requires Denote(buf, [m], [b]) && Denote(buf, msgs, bodies)
    ensures Denote(buf, [m] + msgs, [b] + bodies)
  {
    var one: seq<(nat, nat)> := [m];
    assert one[0] == m;
  }

  /** As long as it does not run past the published messages, the receive loop returns the oldest
      ones in order and stops where they end. */
  lemma {:induction false} RecvAllMeans(buf: seq<nat>, vout: nat, frames: seq<Record>, rsv: seq<Record>, emptyFlag: nat, max: nat)
    requires LayoutOk(buf, vout, frames, rsv)
    requires emptyFlag == 1 || max <= |frames|
    ensures var r := RecvAll(buf, Slot(vout + Extent(frames), |buf|), emptyFlag, Slot(vout, |buf|), max);
      Got(buf, r, vout, frames, if max <= |frames| then max else |frames|)
    decreases max
  {
    hide Tiled, Slot, Fits, Got, LayoutOk, Denote;
    if max == 0 || frames == [] {
      EqualIffEmpty(buf, vout, frames, rsv);
      GotNothing(buf, vout, frames);
    } else {
      RecvAllStep(buf, vout, frames, rsv, emptyFlag, max);
      LayoutTail(buf, vout, frames, rsv);
      RecvAllMeans(buf, vout + frames[0].Len(), frames[1..], rsv, emptyFlag, max - 1);
      hide RecvAll, Extent;
      var inIdx := Slot(vout + Extent(frames), |buf|);
      var r := RecvAll(buf, inIdx, emptyFlag, Slot(vout, |buf|), max);
      var rest := RecvAll(buf, inIdx, emptyFlag, Slot(vout + frames[0].Len(), |buf|), max - 1);
      GotOneMore(buf, r.0[0], rest, vout, frames, if max <= |frames| then max else |frames|);
    }
  }

  lemma RecvAllStep(buf: seq<nat>, vout: nat, frames: seq<Record>, rsv: seq<Record>, emptyFlag: nat, max: nat)
    requires LayoutOk(buf, vout, frames, rsv) && frames != [] && max > 0
    ensures var inIdx := Slot(vout + Extent(frames), |buf|);
      var r := RecvAll(buf, inIdx, emptyFlag, Slot(vout, |buf|), max);
      var rest := RecvAll(buf, inIdx, emptyFlag, Slot(vout + frames[0].Len(), |buf|), max - 1);
      && |r.0| > 0 && r == ([r.0[0]] + rest.0, rest.1)
      && Denote(buf, [r.0[0]], [Bodies(frames)[0]])
  {
    hide Tiled, Slot, Fits, LayoutOk, Extent;
    EqualIffEmpty(buf, vout, frames, rsv);
    FrontFrame(buf, vout, frames, rsv);
  }

  lemma WellFormedTail(n: nat, frames: seq<Record>)
    requires AllWellFormed(n, frames) && frames != []
    ensures AllWellFormed(n, frames[1..])
  {
  }

  lemma TiledTail(buf: seq<nat>, v: nat, rs: seq<Record>)
    requires |buf| > 0 && Tiled(buf, v, rs) && rs != []
    ensures Tiled(buf, v + rs[0].Len(), rs[1..])
  {
    hide Holds;
  }

  lemma LayoutTail(buf: seq<nat>, vout: nat, frames: seq<Record>, rsv: seq<Record>)
    requires LayoutOk(buf, vout, frames, rsv) && frames != []
    ensures LayoutOk(buf, vout + frames[0].Len(), frames[1..], rsv)
    ensures Extent(frames) == frames[0].Len() + Extent(frames[1..])
  {
    hide Tiled, AllWellFormed;
    WellFormedTail(|buf|, frames);
    TiledTail(buf, vout, frames + rsv);
    assert (frames + rsv)[0] == frames[0];
    assert (frames + rsv)[1..] == frames[1..] + rsv;
  }

  /** The bulk receive returns what is queued, and no more, if and only if emptyFlag was 1 or no more
      was asked for than is queued: with emptyFlag 0 it does not stop at `in`. */
  lemma RecvAllStopsAtIn(buf: seq<nat>, vout: nat, frames: seq<Record>, rsv: seq<Record>, emptyFlag: nat, max: nat)
    requires LayoutOk(buf, vout, frames, rsv)
    ensures var r := RecvAll(buf, Slot(vout + Extent(frames), |buf|), emptyFlag, Slot(vout, |buf|), max);
      |r.0| == (if max <= |frames| then max else |frames|) <==> emptyFlag == 1 || max <= |frames|
  {
    hide Tiled, Slot, RecvAll;
    if emptyFlag == 1 || max <= |frames| {
      RecvAllMeans(buf, vout, frames, rsv, emptyFlag, max);
    }
  }

  /** A receive of one message up to the point where the unpack callback runs. */
  function Receiving(s: State): State
    requires s.k.c.pc == CIdle && s.k.inIdx != s.k.outIdx
  {
    Step(Step(Step(s, CBegin), CReadFiller), CReadLength)
  }

  lemma ReceiveFromEmpty(s: State)
    requires Inv(s) && s.k.c.pc == CIdle
    ensures s.k.outIdx < |s.k.buf| && (s.k.inIdx == s.k.outIdx <==> Queue(s) == [])
    ensures Queue(s) == [] ==> RecvAll(s.k.buf, s.k.inIdx, s.k.emptyFlag, s.k.outIdx, 1) == ([], s.k.outIdx)
  {
    hide Slot, Tiled;
    EqualIffEmpty(s.k.buf, s.h.vout, s.h.frames, s.h.rsv);
  }

  lemma ReceiveOneMessage(s: State)
    requires Inv(s) && s.k.c.pc == CIdle && Queue(s) != [] && s.k.inIdx != s.k.outIdx && s.k.outIdx < |s.k.buf|
    ensures var s' := Receiving(s);
      && Inv(s') && s'.k == s.k.(nextOut := s'.k.nextOut, c := s'.k.c) && s'.h == s.h && s'.k.c.pc == CHolding
      && Held(s'.k) == Queue(s)[0] && s'.k.c.msg + s'.k.c.msgLen <= |s.k.buf|
      && RecvAll(s.k.buf, s.k.inIdx, s.k.emptyFlag, s.k.outIdx, 1) == ([(s'.k.c.msg, s'.k.c.msgLen)], s'.k.nextOut)
  {
    FrontFrame(s.k.buf, s.h.vout, s.h.frames, s.h.rsv);
    var s1 := Step(s, CBegin);
    var s2 := Step(s1, CReadFiller);
    StepKeepsInv(s, CBegin);
    StepKeepsInv(s1, CReadFiller);
    StepKeepsInv(s2, CReadLength);
    HeldIsFront(Receiving(s));
    hide LayoutOk, ProducerOk, Extent, Slot, Bodies, WellFormed, Inv;
    ReceiveByHand(s.k);
  }

  /** The loop body of the bulk receive is the two read steps. */
  lemma ReceiveByHand(k: Conc)
    requires k.c.pc == CIdle && k.inIdx != k.outIdx && k.outIdx < |k.buf|
    ensures var k' := Do(Do(Do(k, CBegin), CReadFiller), CReadLength);
      RecvAll(k.buf, k.inIdx, k.emptyFlag, k.outIdx, 1) == ([(k'.c.msg, k'.c.msgLen)], k'.nextOut)
  {
    hide Slot;
    var o := if k.buf[k.outIdx] == |k.buf| then 0 else k.outIdx;
    var next := Slot(o + k.buf[o] + RESERV_LEN, |k.buf|);
    var one: seq<(nat, nat)> := [(o + RESERV_LEN, k.buf[o])];
    assert RecvAll(k.buf, k.inIdx, k.emptyFlag, next, 0) == ([], next);
    assert one + [] == one;
  }

  /** One message at most, the way the send functions call it: where the three steps lead. */
  lemma ReserveOneMessage(s: State, bytes: nat)
    requires Inv(s) && s.k.p.pc == PIdle
    ensures var k := ReserveAll(Do(s.k, PBegin), [bytes]);
      var s' := Reserved(s, bytes);
      && Inv(s') && s'.k == Do(k, PEndReserve) && s'.k.p.pc == PReserved
      && Queue(s') == Queue(s)
      && Draft(s') == (if Accepts(s.k, bytes) then [Zeros(WordCount(bytes))] else [])
      && |s'.k.p.msgs| == |Draft(s')|
      && s'.k.c == s.k.c && s'.k.inIdx == s.k.inIdx && s'.k.outIdx == s.k.outIdx && s'.k.emptyFlag == s.k.emptyFlag
      && s.k.inIdx < |s.k.buf| && s'.k.nextIn == Landing(s.k, bytes)
  {
    InitialIndices(s);
    hide Place, Inv, Advance, StoreRecord, Reservation, Fits;
    var s1 := Step(s, PBegin);
    var s2 := Step(s1, PReserve(bytes));
    StepRefines(s, PBegin);
    StepRefines(s1, PReserve(bytes));
    StepRefines(s2, PEndReserve);
    var rest: seq<nat> := [];
    assert [bytes][1..] == rest;
    assert ReserveAll(s1.k, [bytes]) == Reserve(s1.k, bytes);
    ReserveDrafts(s1, bytes);
  }

  lemma ReserveDrafts(s: State, bytes: nat)
    requires Inv(s) && s.k.p.pc == PReserving && s.h.rsv == []
    ensures var s' := Step(s, PReserve(bytes));
      |s'.h.rsv| == (if Choice(s.k, bytes).NoRoom? then 0 else 1) && |s'.k.p.msgs| == |s'.h.rsv|
  {
    ReserveKeepsInv(s, bytes);
  }

  // ---------- Several messages reserved at once ----------

  function ReserveRun(s: State, byteCounts: seq<nat>): (s': State)
    requires s.k.p.pc == PReserving
    ensures s'.k.p.pc == PReserving
    decreases byteCounts
  {
    if byteCounts == [] || Choice(s.k, byteCounts[0]).NoRoom? then s
    else ReserveRun(Step(s, PReserve(byteCounts[0])), byteCounts[1..])
  }

  /** Fresh messages of these sizes. */
  function Blanks(byteCounts: seq<nat>): (r: seq<seq<nat>>)
    ensures |r| == |byteCounts|
  {
    if byteCounts == [] then [] else [Zeros(WordCount(byteCounts[0]))] + Blanks(byteCounts[1..])
  }

  lemma BlanksOneMore(d: seq<seq<nat>>, byteCounts: seq<nat>, m: nat)
    requires m < |byteCounts|
    ensures d + Blanks(byteCounts[..m + 1]) == d + [Zeros(WordCount(byteCounts[0]))] + Blanks(byteCounts[1..][..m])
  {
    assert byteCounts[..m + 1][0] == byteCounts[0] && byteCounts[..m + 1][1..] == byteCounts[1..][..m];
    hide Zeros, WordCount;
  }

  /** The loop reserves the first m messages, where the m-th is the first that finds no room, and leaves
      the queue alone. */
  lemma {:induction false} ReserveRunMeans(s: State, byteCounts: seq<nat>) returns (m: nat)
    requires Inv(s) && s.k.p.pc == PReserving
    ensures var s' := ReserveRun(s, byteCounts);
      && Inv(s') && s'.k == ReserveAll(s.k, byteCounts) && Queue(s') == Queue(s)
      && m <= |byteCounts| && Draft(s') == Draft(s) + Blanks(byteCounts[..m]) && s'.h == s.h.(rsv := s'.h.rsv)
      && |s'.k.p.msgs| == |s.k.p.msgs| + m
      && (m < |byteCounts| ==> Choice(s'.k, byteCounts[m]).NoRoom?)
    decreases byteCounts
  {
    hide Inv, Choice, Bodies, Zeros, WordCount;
    if byteCounts == [] || Choice(s.k, byteCounts[0]).NoRoom? {
      m := 0;
      assert Draft(s) + [] == Draft(s);
    } else {
      StepRefines(s, PReserve(byteCounts[0]));
      ReserveGrows(s, byteCounts[0]);
      var s1 := Step(s, PReserve(byteCounts[0]));
      m := ReserveRunMeans(s1, byteCounts[1..]);
      BlanksOneMore(Draft(s), byteCounts, m);
      m := m + 1;
    }
  }

  /** Behind what is queued and reserved there is no room for so many bytes; where nothing is, emptyFlag may
      be what refuses them. */
  predicate LacksRoom(s: State, bytes: nat) {
    var used := Extent(s.h.frames) + Extent(s.h.rsv);
    used > 0 || s.k.emptyFlag == 1 ==> !HasRoom(|s.k.buf|, s.k.nextIn, used, WordCount(bytes))
  }

  /** The whole of a bulk reservation. */
  lemma BulkReserved(s: State, byteCounts: seq<nat>) returns (s': State)
    requires Inv(s) && s.k.p.pc == PIdle
    ensures s'.k.c == s.k.c && s.h == s'.h.(rsv := [], vpo := s.h.vpo)
    ensures Inv(s') && s'.k == Do(ReserveAll(Do(s.k, PBegin), byteCounts), PEndReserve) && s'.k.p.pc == PReserved
    ensures var m := |s'.k.p.msgs|;
      && Queue(s') == Queue(s) && m <= |byteCounts| && Draft(s') == Blanks(byteCounts[..m])
      && (m < |byteCounts| ==> Choice(s'.k.(p := s'.k.p.(pc := PReserving)), byteCounts[m]).NoRoom?)
      && (m < |byteCounts| ==> LacksRoom(s', byteCounts[m]))
  {
    hide Inv, Choice, Bodies, ReserveAll, Blanks, HasRoom;
    IdleReservesNothing(s);
    StepRefines(s, PBegin);
    var s1 := Step(s, PBegin);
    var m := ReserveRunMeans(s1, byteCounts);
    var s2 := ReserveRun(s1, byteCounts);
    StepRefines(s2, PEndReserve);
    s' := Step(s2, PEndReserve);
    if m < |byteCounts| { ReserveGrantedIff(s2, byteCounts[m]); }
    ChoiceIgnoresNextIn(s2.k, if m < |byteCounts| then byteCounts[m] else 0);
    assert s'.k.(p := s'.k.p.(pc := PReserving)) == s2.k.(nextIn := s2.k.p.tmpIn);
    assert Draft(s1) + Blanks(byteCounts[..m]) == Blanks(byteCounts[..m]);
  }

  /** The `out` sampled for the last reservation does not matter to an idle producer. */
  lemma BeginIsFree(s: State, vpo: nat)
    requires Inv(s) && s.k.p.pc == PIdle
    ensures Inv(State(s.k, s.h.(vpo := vpo)))
  {
    hide LayoutOk, Slot, Extent;
  }

  lemma IdleReservesNothing(s: State)
    requires Inv(s) && s.k.p.pc == PIdle
    ensures s.h.rsv == []
  {
    hide LayoutOk, Slot, Extent;
  }

  lemma ChoiceIgnoresNextIn(k: Conc, bytes: nat)
    ensures Choice(k.(nextIn := k.p.tmpIn), bytes) == Choice(k, bytes)
  {
  }

  lemma ReserveGrows(s: State, bytes: nat)
    requires Inv(s) && s.k.p.pc == PReserving && !Choice(s.k, bytes).NoRoom?
    ensures |Step(s, PReserve(bytes)).k.p.msgs| == |s.k.p.msgs| + 1
  {
    ReserveKeepsInv(s, bytes);
    hide LayoutOk, Choice, Slot, Extent, StoreRecord, Fits, Reserve, ConsumerOk, FlagOk;
  }

  /** The producer's pointers denote the messages of the draft, inside the buffer. */
  lemma DraftPointers(s: State, i: nat, j: nat)
    requires Inv(s) && s.k.p.pc == PReserved && i < |Draft(s)| && j < |Draft(s)[i]|
    ensures i < |s.k.p.msgs| && s.k.p.msgs[i].1 == |Draft(s)[i]| && s.k.p.msgs[i].0 + j < |s.k.buf|
  {
    hide Tiled, Extent, Slot;
    var k, h, n := s.k, s.h, |s.k.buf|;
    assert PointsAt(n, k.p.msgs[i], Vin(h) + Extent(h.rsv[..i]), h.rsv[i]);
    BodyAt(h.rsv, i);
    FillKeepsLayout(k.buf, h.vout, h.frames, h.rsv, i, j + 1, 0);
  }

  predicate Accepts(k: Conc, bytes: nat) {
    Choice(k.(p := Producer(PReserving, k.inIdx, k.outIdx, [])), bytes) != NoRoom
  }

  /** The index behind a message sent now. */
  function Landing(k: Conc, bytes: nat): nat
    requires k.inIdx < |k.buf|
  {
    var pl := Choice(k.(p := Producer(PReserving, k.inIdx, k.outIdx, [])), bytes);
    if pl.NoRoom? then k.inIdx else Advance(|k.buf|, k.inIdx, pl, WordCount(bytes))
  }

  function Reserved(s: State, bytes: nat): State
    requires s.k.p.pc == PIdle
  {
    Step(Step(Step(s, PBegin), PReserve(bytes)), PEndReserve)
  }

  function Idle(k: Conc): Conc {
    k.(p := Producer(PIdle, 0, 0, []), c := Consumer(CIdle, 0, 0, 0))
  }

  lemma PlaceInRange(n: nat, tmpIn: nat, tmpOut: nat, emptyFlag: nat, w: nat)
    requires tmpIn < n && tmpOut < n && Place(n, tmpIn, tmpOut, emptyFlag, w) != NoRoom
    ensures Fits(n, tmpIn, Reservation(n, tmpIn, Place(n, tmpIn, tmpOut, emptyFlag, w), w))
  {
  }

  lemma InitialIndices(s: State)
    requires Inv(s)
    ensures s.k.inIdx < |s.k.buf| && s.k.outIdx < |s.k.buf|
  {
  }

  /** Idle sides' leftover locals do not matter. */
  lemma IdleKeepsInv(s: State)
    requires Inv(s) && s.k.p.pc == PIdle && s.k.c.pc == CIdle
    ensures Inv(State(Idle(s.k), s.h))
  {
  }

  /** RecvMsgComplete, run without interference. */
  lemma CompleteReceive(s: State)
    requires Inv(s) && s.k.c.pc == CHolding && s.k.p.pc == PIdle
    ensures var k := Idle(s.k).(outIdx := s.k.nextOut, emptyFlag := if s.k.nextOut == s.k.inIdx then 1 else 0);
      Inv(State(k, Step(s, CCommit).h))
    ensures Bodies(s.h.frames) != [] && Bodies(Step(s, CCommit).h.frames) == Bodies(s.h.frames)[1..]
  {
    hide Inv, Bodies;
    var s1 := Step(s, CCommit);
    StepRefines(s, CCommit);
    StepRefines(s1, CCompare);
    StepRefines(Step(s1, CCompare), CSetFlag);
    IdleKeepsInv(Step(Step(s1, CCompare), CSetFlag));
  }

  lemma AbandonReceive(s: State)
    requires Inv(s) && s.k.c.pc == CHolding && s.k.p.pc == PIdle
    ensures Inv(State(Idle(s.k), s.h))
  {
    StepRefines(s, CAbandon);
    IdleKeepsInv(Step(s, CAbandon));
  }

  lemma NextOutIsFree(s: State, nextOut: nat)
    requires Inv(s) && s.k.c.pc == CIdle
    ensures Inv(State(s.k.(nextOut := nextOut), s.h))
  {
  }

  /** A quiescent empty ring accepts a message exactly when it fits behind or in front of the offset
      it has come to rest at. */
  lemma EmptyRingAccepts(s: State, bytes: nat)
    requires Inv(s) && s.k.p.pc == PIdle && s.k.c.pc == CIdle && Queue(s) == []
    ensures var n, w := |s.k.buf|, WordCount(bytes);
      Accepts(s.k, bytes) <==> w + 1 < n && (s.k.inIdx + w + 1 <= n || w + 3 <= s.k.inIdx)
  {
    EqualIffEmpty(s.k.buf, s.h.vout, s.h.frames, s.h.rsv);
  }

  /** A producer's reservation, from whatever out it sampled, is granted exactly when there is room, unless it
      sampled an out that equals its index before emptyFlag was stored. */
  lemma ReserveGrantedIff(s: State, bytes: nat)
    requires Inv(s) && s.k.p.pc == PReserving
    ensures var n, used := |s.k.buf|, Vin(s.h) + Extent(s.h.rsv) - s.h.vpo;
      && 0 <= used < n && s.k.p.tmpIn < n
      && (Choice(s.k, bytes) != NoRoom <==>
            (used > 0 || s.k.emptyFlag == 1) && HasRoom(n, s.k.p.tmpIn, used, WordCount(bytes)))
  {
    hide LayoutOk, ConsumerOk, PointersOk, Extent, Place, HasRoom;
    var used := Vin(s.h) + Extent(s.h.rsv) - s.h.vpo;
    assert s.k.p.tmpIn < |s.k.buf|;
    hide Slot;
    PlaceIff(|s.k.buf|, s.h.vpo, used, s.k.emptyFlag, WordCount(bytes));
  }

  /** How many words the messages and fillers between out and in take. */
  function WordsUsed(size: nat, inIdx: nat, outIdx: nat): nat
    requires outIdx < size
  {
    if inIdx >= outIdx then inIdx - outIdx else size - outIdx + inIdx
  }

  lemma WordsUsedMeans(s: State)
    requires Inv(s)
    ensures s.k.outIdx < |s.k.buf| && WordsUsed(|s.k.buf|, s.k.inIdx, s.k.outIdx) == Extent(s.h.frames)
  {
    hide LayoutOk, ConsumerOk, ProducerOk, Extent;
    assert Extent(s.h.frames) < |s.k.buf| by { LayoutExtent(s.k.buf, s.h.vout, s.h.frames, s.h.rsv); }
    assert s.k.outIdx < |s.k.buf|;
    hide Slot;
    SlotStep(s.h.vout, Extent(s.h.frames), |s.k.buf|);
  }

  lemma LayoutExtent(buf: seq<nat>, vout: nat, frames: seq<Record>, rsv: seq<Record>)
    requires LayoutOk(buf, vout, frames, rsv)
    ensures Extent(frames) + Extent(rsv) < |buf|
  {
  }

  /** With the consumer idle, a ring accepts a message exactly when there is room behind in, or in front of
      out, whatever it holds. */
  lemma AcceptsIff(s: State, bytes: nat)
    requires Inv(s) && s.k.p.pc == PIdle && s.k.c.pc == CIdle
    ensures s.k.outIdx < |s.k.buf|
    ensures Accepts(s.k, bytes) <==>
      HasRoom(|s.k.buf|, s.k.inIdx, WordsUsed(|s.k.buf|, s.k.inIdx, s.k.outIdx), WordCount(bytes))
  {
    hide Place, HasRoom, WordsUsed;
    WordsUsedMeans(s);
    InitialIndices(s);
    LayoutExtent(s.k.buf, s.h.vout, s.h.frames, s.h.rsv);
    EmptyExtent(s);
    hide LayoutOk, ProducerOk, Extent, Slot;
    PlaceIff(|s.k.buf|, s.h.vout, Extent(s.h.frames), s.k.emptyFlag, WordCount(bytes));
  }

  lemma EmptyExtent(s: State)
    requires Inv(s) && s.k.c.pc == CIdle
    ensures Extent(s.h.frames) == 0 ==> s.k.emptyFlag == 1
  {
    EqualIffEmpty(s.k.buf, s.h.vout, s.h.frames, s.h.rsv);
    hide LayoutOk, ProducerOk, ConsumerOk;
  }

  class Ring {
    var buf: array<nat>
    var emptyFlag: nat
    var nextIn: nat
    var nextOut: nat
    var inIdx: nat
    var outIdx: nat
    ghost var h: Hist

    /** The ring's fields with both sides idle. */
    ghost function Fields(): Conc
      reads this, buf
    {
      Conc(buf[..], emptyFlag, inIdx, outIdx, nextIn, nextOut,
           Producer(PIdle, 0, 0, []), Consumer(CIdle, 0, 0, 0))
    }

    ghost predicate Valid()
      reads this, buf
    {
      Inv(State(Fields(), h))
    }

    /** A message of that many bytes fits, with a word to spare, behind in, or behind a filler at the front. */
    predicate RoomFor(bytes: nat)
      requires outIdx < buf.Length
      reads this
    {
      HasRoom(buf.Length, inIdx, WordsUsed(buf.Length, inIdx, outIdx), WordCount(bytes))
    }

    ghost function Messages(): seq<seq<nat>>
      reads this
    {
      Bodies(h.frames)
    }

    /** init_quickMsgRing, for a size it accepts. */
    constructor (bytes: nat)
      requires 8 <= bytes
      ensures Valid() && fresh(buf) && buf.Length == bytes / 4 && Messages() == []
      ensures inIdx == outIdx == 0 && emptyFlag == 1
    {
      buf := new nat[bytes / 4](i => 0);
      emptyFlag := 1;
      nextIn, nextOut, inIdx, outIdx := 0, 0, 0, 0;
      h := Hist(0, 0, [], [], [], []);
      new;
      InitInv(State(Fields(), h));
    }

    /** init_quickMsgRing; null is FAILURE. */
    static method New(bytes: nat) returns (r: Ring?)
      ensures r == null <==> bytes < 8
      ensures r != null ==> r.Valid() && fresh(r) && fresh(r.buf) && r.buf.Length == bytes / 4 && r.Messages() == []
    {
      if bytes < 8 { return null; }
      r := new Ring(bytes);
    }

    /** QuickMsgRingGetBufBulk: the offsets and word counts of the messages it could reserve, up to the
        first that does not fit.  They are fresh, and what is queued is untouched. */
    method GetBufBulk(byteCounts: seq<nat>) returns (msgs: seq<(nat, nat)>, ghost s: State)
      requires Valid()
      modifies this`nextIn, buf
      ensures Valid()
      ensures Inv(s) && s.k.p.pc == PReserved && s.k.c.pc == CIdle && s.k.p.msgs == msgs && Fields() == Idle(s.k)
      ensures Queue(s) == old(Messages()) == Messages() && |msgs| <= |byteCounts|
      ensures Draft(s) == Blanks(byteCounts[..|msgs|])
      ensures |msgs| < |byteCounts| ==>
        Choice(s.k.(p := s.k.p.(pc := PReserving)), byteCounts[|msgs|]).NoRoom?
      ensures |msgs| < |byteCounts| ==>
        !HasRoom(buf.Length, nextIn, Extent(s.h.frames) + Extent(s.h.rsv), WordCount(byteCounts[|msgs|]))
      ensures var k := ReserveAll(Do(old(Fields()), PBegin), byteCounts);
        msgs == k.p.msgs && s.k == Do(k, PEndReserve)
    {
      hide Inv, Choice, Bodies, ReserveAll, Blanks, Slot, HasRoom, Extent;
      InitialIndices(State(Fields(), h));
      EmptyExtent(State(Fields(), h));
      s := BulkReserved(State(Fields(), h), byteCounts);
      msgs := ReserveLoop(byteCounts);
      StepRefines(s, PAbandon);
      BeginIsFree(Step(s, PAbandon), h.vpo);
      IdleKeepsInv(State(Step(s, PAbandon).k, h));
    }

    /** Its loop. */
    method ReserveLoop(byteCounts: seq<nat>) returns (msgs: seq<(nat, nat)>)
      requires inIdx < buf.Length && outIdx < buf.Length
      modifies this`nextIn, buf
      ensures var k := ReserveAll(Do(old(Fields()), PBegin), byteCounts);
        msgs == k.p.msgs && Fields() == Idle(Do(k, PEndReserve))
    {
      hide Place, Advance, StoreRecord, Reservation, Fits, Slot;
      var tmpOut: nat, tmpIn: nat, n := outIdx, inIdx, 0;
      msgs := [];
      ghost var k := Do(Fields(), PBegin);
      ghost var all := ReserveAll(k, byteCounts);
      while n < |byteCounts|
        invariant 0 <= n <= |byteCounts|
        invariant tmpIn < buf.Length && tmpOut < buf.Length
        invariant k == old(Fields()).(buf := buf[..], p := Producer(PReserving, tmpIn, tmpOut, msgs))
        invariant ReserveAll(k, byteCounts[n..]) == all
      {
        var w := WordCount(byteCounts[n]);
        var pl := Place(buf.Length, tmpIn, tmpOut, emptyFlag, w);
        assert byteCounts[n..][0] == byteCounts[n] && byteCounts[n..][1..] == byteCounts[n + 1..];
        if pl == NoRoom { break; }
        PlaceInRange(buf.Length, tmpIn, tmpOut, emptyFlag, w);
        var at, next := ReserveOne(tmpIn, pl, w);
        msgs := msgs + [(at + RESERV_LEN, w)];
        tmpIn := next;
        k := Reserve(k, byteCounts[n]);
        n := n + 1;
      }
      nextIn := tmpIn;
    }

    /** The body of that loop once the message is known to fit. */
    method ReserveOne(tmpIn: nat, pl: Placement, w: nat) returns (at: nat, next: nat)
      requires pl != NoRoom && tmpIn < buf.Length
      requires Fits(buf.Length, tmpIn, Reservation(buf.Length, tmpIn, pl, w))
      modifies buf
      ensures buf[..] == StoreRecord(old(buf[..]), tmpIn, Reservation(buf.Length, tmpIn, pl, w))
      ensures at == if pl.Rewind? then 0 else tmpIn
      ensures next == Advance(buf.Length, tmpIn, pl, w) < buf.Length
    {
      var size := buf.Length;
      at := tmpIn;
      assert Slot(tmpIn, size) == tmpIn;
      if pl == Rewind {
        buf[tmpIn] := size;
        at := 0;
      }
      ClearMessage(at, w);
      SlotIsMod(at + w + RESERV_LEN, size);
      next := (at + w + RESERV_LEN) % size;
    }

    /** The length word and the memset of a fresh message. */
    method ClearMessage(at: nat, w: nat)
      requires at + w + 1 <= buf.Length
      modifies buf
      ensures buf[..] == Store(old(buf[..]), at, [w] + Zeros(w))
    {
      buf[at] := w;
      forall i | at < i < at + w + 1 {
        buf[i] := 0;
      }
    }
  
    /** A pack callback (or memcpy) that writes `words` into the one message of the draft. */
    method Pack(at: nat, words: seq<nat>, ghost s: State) returns (ghost s': State)
      requires Inv(s) && s.k.p.pc == PReserved && s.k.buf == buf[..]
      requires Draft(s) == [Zeros(|words|)] && |s.k.p.msgs| == 1 && s.k.p.msgs[0].0 == at
      modifies buf
      ensures Inv(s') && s'.k == s.k.(buf := buf[..])
      ensures Draft(s') == [words] && Queue(s') == Queue(s)
    {
      hide Inv, Bodies;
      s' := s;
      var j := 0;
      while j < |words|
        invariant 0 <= j <= |words|
        invariant Inv(s') && s'.k == s.k.(buf := buf[..])
        invariant |Draft(s')| == 1 && |Draft(s')[0]| == |words| && Draft(s')[0][..j] == words[..j]
        invariant Queue(s') == Queue(s)
      {
        DraftPointers(s', 0, j);
        StepRefines(s', PFill(0, j, words[j]));
        buf[at + j] := words[j];
        s' := Step(s', PFill(0, j, words[j]));
        j := j + 1;
      }
      assert Draft(s')[0] == words;
    }

    /** QuickMsgRingSendMsgWithPackFunc, for a callback that writes `packed` and returns `rc`. */
    method SendMsgWithPackFunc(bytes: nat, packed: seq<nat>, rc: int) returns (ret: int)
      requires Valid() && |packed| == WordCount(bytes)
      modifies this, buf
      ensures Valid() && buf == old(buf)
      ensures old(outIdx < buf.Length)
      ensures ret == if old(RoomFor(bytes)) then rc else -1
      ensures outIdx == old(outIdx) && emptyFlag == old(emptyFlag) && old(inIdx < buf.Length)
      ensures inIdx == if rc == 0 then old(Landing(Fields(), bytes)) else old(inIdx)
      ensures Messages() == old(Messages()) + if old(RoomFor(bytes)) && rc == 0 then [packed] else []
    {
      hide Inv, Accepts, Bodies, HasRoom, WordsUsed;
      ghost var s0 := State(Fields(), h);
      AcceptsIff(s0, bytes);
      InitialIndices(s0);
      ReserveOneMessage(s0, bytes);
      ghost var s := Reserved(s0, bytes);
      var msgs;
      ghost var bulk;
      msgs, bulk := GetBufBulk([bytes]);
      if |msgs| != 1 {
        h := Step(s, PAbandon).h;
        StepRefines(s, PAbandon);
        IdleKeepsInv(Step(s, PAbandon));
        return -1;
      }
      s := Pack(msgs[0].0, packed, s);
      if rc != 0 {
        h := Step(s, PAbandon).h;
        StepRefines(s, PAbandon);
        IdleKeepsInv(Step(s, PAbandon));
        return rc;
      }
      inIdx := nextIn;
      h := Step(s, PPublish).h;
      StepRefines(s, PPublish);
      IdleKeepsInv(Step(s, PPublish));
      return 0;
    }
  
    /** QuickMsgRingSendMsg for a message outside the ring: reserve, copy, publish. */
    method SendMsg(msg: seq<Byte>) returns (ok: bool)
      requires Valid()
      modifies this, buf
      ensures Valid() && buf == old(buf)
      ensures old(outIdx < buf.Length) && ok == old(RoomFor(|msg|))
      ensures outIdx == old(outIdx) && emptyFlag == old(emptyFlag) && old(inIdx < buf.Length)
      ensures inIdx == old(Landing(Fields(), |msg|))
      ensures Messages() == old(Messages()) + if ok then [Words(msg)] else []
    {
      var ret := SendMsgWithPackFunc(|msg|, Words(msg), 0);
      ok := ret == 0;
    }

    /** QuickMsgRingSendMsg for a pointer into the ring: everything that was reserved is published. */
    method SendReserved(ghost s: State)
      requires Inv(s) && s.k.p.pc == PReserved && s.k.c.pc == CIdle && Fields() == Idle(s.k) && Queue(s) == Messages()
      modifies this`inIdx, this`h
      ensures Valid() && Messages() == old(Messages()) + Draft(s)
    {
      hide Inv, Bodies;
      inIdx := nextIn;
      h := Step(s, PPublish).h;
      StepRefines(s, PPublish);
      IdleKeepsInv(Step(s, PPublish));
    }

    /** QuickMsgRingBeginRecvMsgBulk. */
    method BeginRecvMsgBulk(max: nat) returns (msgs: seq<(nat, nat)>)
      requires outIdx < buf.Length
      modifies this`nextOut
      ensures (msgs, nextOut) == RecvAll(buf[..], inIdx, emptyFlag, outIdx, max)
    {
      hide Slot, RecvAll;
      var tmpOut: nat, n := outIdx, 0;
      msgs := [];
      ghost var b := buf[..];
      ghost var all := RecvAll(b, inIdx, emptyFlag, outIdx, max);
      while n < max
        invariant 0 <= n <= max && tmpOut < buf.Length
        invariant var rest := RecvAll(b, inIdx, emptyFlag, tmpOut, max - n);
          all.0 == msgs + rest.0 && all.1 == rest.1
      {
        if tmpOut == inIdx && emptyFlag == 1 { break; }
        RecvAllTurn(b, inIdx, emptyFlag, tmpOut, max - n);
        if buf[tmpOut] == buf.Length {
          tmpOut := 0;
        }
        Joined(msgs, (tmpOut + RESERV_LEN, buf[tmpOut]), all.0);
        msgs := msgs + [(tmpOut + RESERV_LEN, buf[tmpOut])];
        tmpOut := (tmpOut + buf[tmpOut] + RESERV_LEN) % buf.Length;
        n := n + 1;
      }
      RecvAllEnd(b, inIdx, emptyFlag, tmpOut, max - n);
      assert msgs + [] == msgs;
      nextOut := tmpOut;
    }

    /** QuickMsgRingRecvMsgWithUnpackFunc, for a callback that returns `rc`; `got` is what the
        callback was handed, if it was called. */
    method RecvMsgWithUnpackFunc(rc: int) returns (ret: int, got: seq<seq<nat>>)
      requires Valid()
      modifies this
      ensures Valid() && buf == old(buf)
      ensures got == old(if Messages() == [] then [] else [Messages()[0]])
      ensures ret == if got == [] then 0 else rc
      ensures Messages() == old(Messages())[if got != [] && rc == 0 then 1 else 0..]
      ensures emptyFlag == if got != [] && rc == 0 then (if Messages() == [] then 1 else 0) else old(emptyFlag)
    {
      hide Inv, Bodies, RecvAll, Step, Receiving;
      ghost var s0 := State(Fields(), h);
      ReceiveFromEmpty(s0);
      if Messages() != [] {
        ReceiveOneMessage(s0);
      }
      var msgs := BeginRecvMsgBulk(1);
      if |msgs| != 1 {
        NextOutIsFree(s0, nextOut);
        return 0, [];
      }
      ghost var s := Receiving(s0);
      got := [buf[msgs[0].0..msgs[0].0 + msgs[0].1]];
      if rc != 0 {
        AbandonReceive(s);
        return rc, got;
      }
      outIdx := nextOut;
      emptyFlag := if outIdx == inIdx then 1 else 0;
      CompleteReceive(s);
      h := Step(s, CCommit).h;
      InvMeans(State(Fields(), h));
      return 0, got;
    }
  }

  /** A ring of 16 words, two messages of a word each, one of them received: a bulk receive of two returns
      two messages although one is queued. */
  method BulkReceiveRunsOn() returns (r: Ring, msgs: seq<(nat, nat)>)
    ensures fresh(r) && fresh(r.buf) && r.Valid() && r.Messages() == [[8]] && |msgs| == 2
  {
    hide Inv, Bodies;
    assert Words([7]) == [7] && Words([8]) == [8];
    r := new Ring(64);
    var first := r.SendMsg([7]);
    assert first && r.inIdx == 2;
    var second := r.SendMsg([8]);
    assert second && r.Messages() == [[7], [8]];
    var ret, got := r.RecvMsgWithUnpackFunc(0);
    assert r.Messages() == [[8]];
    ghost var s := State(r.Fields(), r.h);
    InitialIndices(s);
    msgs := r.BeginRecvMsgBulk(2);
    NextOutIsFree(s, r.nextOut);
  }
}
