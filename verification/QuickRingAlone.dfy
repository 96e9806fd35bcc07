/**
What one side of the ring does while the other is not under way: a whole send, a whole receive, a whole bulk
receive.
*/
module QuickRingAlone {
  import opened RingCore
  import opened QuickRing
  import opened QuickRingProtocol
  import Bulk = QuickRingBulk

  lemma InFront(s: State, a: Action, rest: seq<Action>)
    requires Enabled(s.k, a) && IsRun(Step(s, a), rest)
    ensures IsRun(s, [a] + rest) && Exec(s, [a] + rest) == Exec(Step(s, a), rest)
  {
    assert ([a] + rest)[1..] == rest;
  }

  /** One step of either side, and what it does to the queue. */
  lemma Onward(s: State, a: Action)
    requires Inv(s) && Enabled(s.k, a)
    ensures Inv(Step(s, a)) && Refines(s, a, Step(s, a))
    ensures Queue(s) != [] <==> s.k.inIdx != s.k.outIdx
    ensures s.k.c.pc == CIdle && s.k.emptyFlag != 1 ==> Queue(s) != []
  {
    StepRefines(s, a);
    InvMeans(s);
  }

  lemma OnThree(s: State, a: Action, b: Action, c: Action, rest: seq<Action>)
    requires Enabled(s.k, a) && Enabled(Step(s, a).k, b) && Enabled(Step(Step(s, a), b).k, c)
    requires IsRun(Step(Step(Step(s, a), b), c), rest)
    ensures IsRun(s, [a, b, c] + rest) && Exec(s, [a, b, c] + rest) == Exec(Step(Step(Step(s, a), b), c), rest)
  {
    hide Enabled, Step, IsRun, Exec;
    InFront(Step(Step(s, a), b), c, rest);
    InFront(Step(s, a), b, [c] + rest);
    InFront(s, a, [b] + ([c] + rest));
    assert [a, b, c] + rest == [a] + ([b] + ([c] + rest));
  }

  /** The first half of a receive: the oldest message is in hand. */
  lemma Reads(s: State) returns (s': State)
    requires Inv(s) && s.k.c.pc == CIdle && Queue(s) != []
    ensures Enabled(s.k, CBegin) && Enabled(Step(s, CBegin).k, CReadFiller)
    ensures Enabled(Step(Step(s, CBegin), CReadFiller).k, CReadLength)
    ensures s' == Step(Step(Step(s, CBegin), CReadFiller), CReadLength) && Inv(s') && s'.k.c.pc == CHolding
    ensures Queue(s') == Queue(s) && s'.h == s.h && s'.k.p == s.k.p
  {
    Onward(s, CBegin);
    hide Inv;
    var s1 := Step(s, CBegin);
    Onward(s1, CReadFiller);
    var s2 := Step(s1, CReadFiller);
    Onward(s2, CReadLength);
    s' := Step(s2, CReadLength);
  }

  /** The second half: it is gone, and emptyFlag says whether it was the last. */
  lemma Completes(s: State) returns (s': State)
    requires Inv(s) && s.k.c.pc == CHolding
    ensures Enabled(s.k, CCommit) && Enabled(Step(s, CCommit).k, CCompare)
    ensures Enabled(Step(Step(s, CCommit), CCompare).k, CSetFlag)
    ensures s' == Step(Step(Step(s, CCommit), CCompare), CSetFlag) && Inv(s') && s'.k.c.pc == CIdle
    ensures Queue(s) != [] && Queue(s') == Queue(s)[1..] && s'.h.received == s.h.received + [Queue(s)[0]]
    ensures s'.k.emptyFlag == (if Queue(s') == [] then 1 else 0) && s'.k.p == s.k.p && s'.h.sent == s.h.sent
  {
    Onward(s, CCommit);
    hide Inv;
    var s1 := Step(s, CCommit);
    Onward(s1, CCompare);
    var s2 := Step(s1, CCompare);
    Onward(s2, CSetFlag);
    s' := Step(s2, CSetFlag);
  }

  /** A receive on a ring that holds messages takes the oldest, and stores emptyFlag as 1 exactly if it was the last. */
  lemma ReceiveAlone(s: State) returns (acts: seq<Action>)
    requires Inv(s) && s.k.c.pc == CIdle && Queue(s) != []
    ensures IsRun(s, acts) && forall i :: 0 <= i < |acts| ==> !OfProducer(acts[i])
    ensures var s' := Exec(s, acts);
      && Inv(s') && s'.k.c.pc == CIdle && Queue(s') == Queue(s)[1..] && s'.h.received == s.h.received + [Queue(s)[0]]
      && s'.k.emptyFlag == (if Queue(s') == [] then 1 else 0) && s'.k.p == s.k.p && s'.h.sent == s.h.sent
  {
    var s1 := Reads(s);
    var s2 := Completes(s1);
    hide Inv, Step, Enabled, Bodies;
    OnThree(s1, CCommit, CCompare, CSetFlag, []);
    OnThree(s, CBegin, CReadFiller, CReadLength, [CCommit, CCompare, CSetFlag] + []);
    acts := [CBegin, CReadFiller, CReadLength] + ([CCommit, CCompare, CSetFlag] + []);
  }

  predicate OfProducer(a: Action) {
    a.PBegin? || a.PReserve? || a.PEndReserve? || a.PFill? || a.PPublish? || a.PAbandon?
  }

  /** On an empty one it returns without anything. */
  lemma ReceiveNothing(s: State)
    requires Inv(s) && s.k.c.pc == CIdle && Queue(s) == []
    ensures IsRun(s, [CBegin, CTestFlag])
    ensures var s' := Exec(s, [CBegin, CTestFlag]);
      s'.k.c.pc == CIdle && s'.h == s.h && s'.k == s.k.(c := s'.k.c)
  {
    Onward(s, CBegin);
    hide Inv;
    var s1 := Step(s, CBegin);
    InFront(s1, CTestFlag, []);
    InFront(s, CBegin, [CTestFlag] + []);
    assert [CBegin] + ([CTestFlag] + []) == [CBegin, CTestFlag];
  }

  /** A send of that many bytes, step by step. */
  lemma Sends(s: State, bytes: nat) returns (s3: State)
    requires Inv(s) && s.k.p.pc == PIdle
    ensures Enabled(s.k, PBegin) && Enabled(Step(s, PBegin).k, PReserve(bytes))
    ensures Enabled(Step(Step(s, PBegin), PReserve(bytes)).k, PEndReserve)
    ensures s3 == Step(Step(Step(s, PBegin), PReserve(bytes)), PEndReserve) && Inv(s3) && s3.k.p.pc == PReserved
    ensures Queue(s3) == Queue(s) && s3.k.c == s.k.c && s3.h.received == s.h.received
    ensures Draft(s3) == if Choice(Step(s, PBegin).k, bytes) != NoRoom then [Zeros(WordCount(bytes))] else []
  {
    Onward(s, PBegin);
    hide Inv, Bodies, Zeros, WordCount, Choice;
    var s1 := Step(s, PBegin);
    Onward(s1, PReserve(bytes));
    ReserveOn(s1, bytes);
    var s2 := Step(s1, PReserve(bytes));
    Onward(s2, PEndReserve);
    s3 := Step(s2, PEndReserve);
  }

  lemma ReserveOn(s: State, bytes: nat)
    requires Enabled(s.k, PReserve(bytes))
    ensures var s' := Step(s, PReserve(bytes));
      s'.k.p.pc == PReserving && s'.k.c == s.k.c && s'.h.received == s.h.received && s'.h.frames == s.h.frames
  {
    hide Choice, Fits, StoreRecord;
  }

  /** With room, by the words used and the offset, a message of the words that many bytes need joins the queue;
      without, nothing happens. */
  lemma SendAlone(s: State, bytes: nat) returns (acts: seq<Action>)
    requires Inv(s) && s.k.p.pc == PIdle
    ensures IsRun(s, acts) && forall i :: 0 <= i < |acts| ==> OfProducer(acts[i])
    ensures var s', used := Exec(s, acts), Extent(s.h.frames);
      var room := (used > 0 || s.k.emptyFlag == 1) && HasRoom(|s.k.buf|, s.k.inIdx, used, WordCount(bytes));
      && Inv(s') && s'.k.p.pc == PIdle && s'.k.c == s.k.c && s'.h.received == s.h.received
      && Queue(s') == Queue(s) + if room then [Zeros(WordCount(bytes))] else []
  {
    BeginSees(s, bytes);
    var s3 := Sends(s, bytes);
    hide HasRoom, Extent, Choice, WordCount, Zeros;
    Onward(s3, PPublish);
    hide Inv, Bodies;
    var s4 := Step(s3, PPublish);
    assert s4.k.p.pc == PIdle && s4.k.c == s3.k.c && s4.h.received == s3.h.received;
    hide Step, Enabled;
    InFront(s3, PPublish, []);
    OnThree(s, PBegin, PReserve(bytes), PEndReserve, [PPublish] + []);
    acts := [PBegin, PReserve(bytes), PEndReserve] + ([PPublish] + []);
  }

  /** What a send finds when it begins. */
  lemma BeginSees(s: State, bytes: nat)
    requires Inv(s) && s.k.p.pc == PIdle
    ensures var used := Extent(s.h.frames);
      Choice(Step(s, PBegin).k, bytes) != NoRoom <==>
        (used > 0 || s.k.emptyFlag == 1) && HasRoom(|s.k.buf|, s.k.inIdx, used, WordCount(bytes))
  {
    hide LayoutOk, Slot, HasRoom, Place, ConsumerOk, FlagOk;
    var n, used := |s.k.buf|, Extent(s.h.frames);
    InvSizes(s);
    PlaceIff(n, s.h.vout, used, s.k.emptyFlag, WordCount(bytes));
  }

  lemma InvSizes(s: State)
    requires Inv(s)
    ensures Extent(s.h.frames) < |s.k.buf| && Slot(s.h.vout + Extent(s.h.frames), |s.k.buf|) < |s.k.buf|
  {
  }

  // ---------- The bulk receive ----------

  function Others(acts: seq<Action>): seq<Bulk.Act> {
    if acts == [] then [] else [Bulk.Other(acts[0])] + Others(acts[1..])
  }

  /** Without a bulk receive under way, the runs of the ring are those of QuickRingProtocol. */
  lemma {:induction false} Lifted(w: Bulk.Whole, acts: seq<Action>)
    requires w.b.pc == Bulk.BIdle && IsRun(w.s, acts)
    ensures Bulk.IsRunOf(w, Others(acts)) && Bulk.ExecOf(w, Others(acts)) == Bulk.Whole(Exec(w.s, acts), w.b)
    decreases acts
  {
    if acts != [] {
      var w' := Bulk.Next(w, Bulk.Other(acts[0]));
      assert w' == Bulk.Whole(Step(w.s, acts[0]), w.b);
      hide Step, Enabled;
      Lifted(w', acts[1..]);
      Bulk.OneStep(w, Bulk.Other(acts[0]), Others(acts[1..]));
    }
  }

  /** The loop of a bulk receive that stops at `in`, or need not. */
  lemma {:induction false} LoopAlone(w: Bulk.Whole) returns (acts: seq<Bulk.Act>)
    requires Bulk.Sound(w) && w.b.pc == Bulk.BTurn && Bulk.Proper(w.b.max, w.s.k.emptyFlag, w.s.h.frames)
    ensures Bulk.IsRunOf(w, acts) && forall i :: 0 <= i < |acts| ==> !acts[i].Other?
    ensures var w', n := Bulk.ExecOf(w, acts), |w.s.h.frames|;
      && Bulk.Sound(w') && w'.b.pc == Bulk.BDone && |w'.b.msgs| == (if w.b.max < n then w.b.max else n)
      && w'.s.h == w.s.h && w'.s.k.p == w.s.k.p && w'.s.k.c == w.s.k.c
    decreases |w.s.h.frames| - |w.b.msgs|
  {
    Bulk.TurnHas(w);
    assert |w.b.msgs| <= w.b.max by { hide Inv; }
    hide Inv, Bulk.BulkOk, Bulk.IsRunOf, Bulk.ExecOf;
    if |w.b.msgs| == w.b.max {
      Bulk.LeaveKeepsSound(w);
      Bulk.OneStep(w, Bulk.BCompare, []);
      acts := [Bulk.BCompare] + [];
      NothingOn(Bulk.Next(w, Bulk.BCompare));
    } else if |w.b.msgs| < |w.s.h.frames| {
      var w' := Bulk.TurnAlone(w);
      var rest := LoopAlone(w');
      acts := [Bulk.BCompare, Bulk.BReadFiller, Bulk.BReadLength] + rest;
      Bulk.ThreeSteps(w, Bulk.BCompare, Bulk.BReadFiller, Bulk.BReadLength, rest);
    } else {
      acts := [Bulk.BCompare, Bulk.BTestFlag];
      Bulk.CompareKeepsSound(w);
      Bulk.LeaveKeepsSound(Bulk.Next(w, Bulk.BCompare));
      Bulk.TwoSteps(w, Bulk.BCompare, Bulk.BTestFlag);
    }
  }

  lemma NothingOn(w: Bulk.Whole)
    ensures Bulk.IsRunOf(w, []) && Bulk.ExecOf(w, []) == w
  {
  }

  lemma {:induction false} RunOn(w: Bulk.Whole, a: seq<Bulk.Act>, b: seq<Bulk.Act>)
    requires Bulk.IsRunOf(w, a) && Bulk.IsRunOf(Bulk.ExecOf(w, a), b)
    ensures Bulk.IsRunOf(w, a + b) && Bulk.ExecOf(w, a + b) == Bulk.ExecOf(Bulk.ExecOf(w, a), b)
    decreases a
  {
    hide Bulk.CanDo, Bulk.Next;
    if a == [] {
      assert a + b == b;
    } else {
      assert (a + b)[1..] == a[1..] + b;
      RunOn(Bulk.Next(w, a[0]), a[1..], b);
    }
  }

  /** A whole bulk receive, if it stops at `in` or need not, takes as many of the oldest messages as it asks for, or
      all there are. */
  lemma BulkAlone(w: Bulk.Whole, max: nat) returns (acts: seq<Bulk.Act>)
    requires Bulk.InvBulk(w) && w.b.pc == Bulk.BIdle && w.s.k.c.pc == CIdle
    requires Bulk.Proper(max, w.s.k.emptyFlag, w.s.h.frames)
    ensures Bulk.IsRunOf(w, acts) && forall i :: 0 <= i < |acts| ==> !acts[i].Other?
    ensures var w', n := Bulk.ExecOf(w, acts), if max < |Queue(w.s)| then max else |Queue(w.s)|;
      && w'.b.pc == Bulk.BIdle && w'.s.k.p == w.s.k.p && w'.s.h.sent == w.s.h.sent
      && Queue(w'.s) == Queue(w.s)[n..] && w'.s.h.received == w.s.h.received + Queue(w.s)[..n]
  {
    Bulk.BeginKeepsSound(w, max);
    var w1 := Bulk.Next(w, Bulk.BBegin(max));
    hide Inv, Bulk.BulkOk, Bulk.IsRunOf, Bulk.ExecOf, Bodies;
    var loop := LoopAlone(w1);
    var w2 := Bulk.ExecOf(w1, loop);
    CommitTakes(w2);
    hide Bulk.Sound, Bulk.Next, Bulk.CanDo;
    CallOf(w, max, loop);
    acts := [Bulk.BBegin(max)] + (loop + [Bulk.BCommit]);
  }

  lemma CommitTakes(w: Bulk.Whole)
    requires Bulk.Sound(w) && w.b.pc == Bulk.BDone
    ensures Bulk.CanDo(w, Bulk.BCommit)
    ensures var w', n := Bulk.Next(w, Bulk.BCommit), |w.b.msgs|;
      && w'.b.pc == Bulk.BIdle && w'.s.k.p == w.s.k.p && w'.s.h.sent == w.s.h.sent
      && n <= |Queue(w.s)| && Queue(w'.s) == Queue(w.s)[n..] && w'.s.h.received == w.s.h.received + Queue(w.s)[..n]
  {
    Bulk.CommitKeepsSound(w);
    hide Inv, Bulk.BulkOk, Bodies;
  }

  lemma CallOf(w: Bulk.Whole, max: nat, loop: seq<Bulk.Act>)
    requires Bulk.CanDo(w, Bulk.BBegin(max)) && Bulk.IsRunOf(Bulk.Next(w, Bulk.BBegin(max)), loop)
    requires Bulk.CanDo(Bulk.ExecOf(Bulk.Next(w, Bulk.BBegin(max)), loop), Bulk.BCommit)
    ensures var acts := [Bulk.BBegin(max)] + (loop + [Bulk.BCommit]);
      && Bulk.IsRunOf(w, acts)
      && Bulk.ExecOf(w, acts) == Bulk.Next(Bulk.ExecOf(Bulk.Next(w, Bulk.BBegin(max)), loop), Bulk.BCommit)
  {
    var w1 := Bulk.Next(w, Bulk.BBegin(max));
    var w2 := Bulk.ExecOf(w1, loop);
    NothingOn(Bulk.Next(w2, Bulk.BCommit));
    hide Bulk.CanDo, Bulk.Next, Bulk.IsRunOf, Bulk.ExecOf;
    Bulk.OneStep(w2, Bulk.BCommit, []);
    assert [Bulk.BCommit] + [] == [Bulk.BCommit];
    RunOn(w1, loop, [Bulk.BCommit]);
    Bulk.OneStep(w, Bulk.BBegin(max), loop + [Bulk.BCommit]);
  }
}
