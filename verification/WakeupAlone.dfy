/**
What one thread of the wake-up protocol does while no other is under way: a whole send, a whole call of pipecb,
a whole turn of the loop, and the loop's way to rest.
*/
module WakeupAlone {
  import opened Wakeup

  // ---------- A send ----------

  /** ev_async_send, or ev_feed_signal, from beginning to end: the watcher is marked; unless its channel's flag is set
      already, the flag is raised, and one byte wakes a loop that wants it, or the skipped hint is left for one
      that does not. */
  function Sent(s: State, j: nat, t: Target): State
    requires j < |s.senders|
  {
    var marked := s.(senders := s.senders[j := Sender(Idle, t)], marks := s.marks + {t});
    if t.ch in s.flags then marked
    else if s.wanted then marked.(flags := s.flags + {t.ch}, skipped := false, pipe := s.pipe + 1)
    else marked.(flags := s.flags + {t.ch}, skipped := true)
  }

  lemma InFront(s: State, a: Action, rest: seq<Action>)
    requires Enabled(s, a) && IsRun(Apply(s, a), rest)
    ensures IsRun(s, [a] + rest) && Exec(s, [a] + rest) == Exec(Apply(s, a), rest)
  {
    assert ([a] + rest)[1..] == rest;
  }

  lemma SendAlone(s: State, j: nat, t: Target) returns (acts: seq<Action>)
    requires j < |s.senders| && s.senders[j].pc == Idle && s.ValidTarget(t)
    ensures |acts| <= 8 && acts != [] && acts[0] == Begin(j, t) && forall i :: 1 <= i < |acts| ==> acts[i] == Advance(j)
    ensures IsRun(s, acts) && Exec(s, acts) == Sent(s, j, t)
  {
    var begun := Apply(s, Begin(j, t));
    var rest := SenderAlone(begun, j);
    acts := [Begin(j, t)] + rest;
    InFront(s, Begin(j, t), rest);
    assert begun.senders[j := Sender(Idle, t)] == s.senders[j := Sender(Idle, t)];
  }

  /** What is left of a send. */
  function Finished(s: State, j: nat): State
    requires j < |s.senders|
  {
    var t := s.senders[j].t;
    var idle := s.(senders := s.senders[j := Sender(Idle, t)]);
    match s.senders[j].pc
    case Idle => s
    case WritePipe => idle.(pipe := s.pipe + 1)
    case ClearSkipped => Woken(idle)
    case TestWanted => if s.wanted then Woken(idle) else idle
    case SetSkipped => Hinted(idle)
    case SetFlag => Hinted(idle.(flags := s.flags + {t.ch}))
    case TestFlag => if t.ch in s.flags then idle else Hinted(idle.(flags := s.flags + {t.ch}))
    case Mark =>
      var marked := idle.(marks := s.marks + {t});
      if t.ch in s.flags then marked else Hinted(marked.(flags := s.flags + {t.ch}))
  }

  function Woken(s: State): State { s.(skipped := false, pipe := s.pipe + 1) }

  function Hinted(s: State): State { if s.wanted then Woken(s) else s.(skipped := true) }

  function ToGo(pc: SenderPc): nat {
    match pc
    case Idle => 0
    case WritePipe => 1
    case ClearSkipped => 2
    case TestWanted => 3
    case SetSkipped => 4
    case SetFlag => 5
    case TestFlag => 6
    case Mark => 7
  }

  lemma FinishedStep(s: State, j: nat)
    requires j < |s.senders| && s.senders[j].pc != Idle
    ensures Finished(SenderStep(s, j), j) == Finished(s, j)
  {
    var t, s' := s.senders[j].t, SenderStep(s, j);
    assert s'.senders[j].t == t && s'.senders[j := Sender(Idle, t)] == s.senders[j := Sender(Idle, t)];
  }

  lemma ToGoDrops(s: State, j: nat)
    requires j < |s.senders| && s.senders[j].pc != Idle
    ensures ToGo(SenderStep(s, j).senders[j].pc) < ToGo(s.senders[j].pc)
  {
  }

  lemma {:induction false} SenderAlone(s: State, j: nat) returns (acts: seq<Action>)
    requires j < |s.senders|
    ensures |acts| <= ToGo(s.senders[j].pc) && forall i :: 0 <= i < |acts| ==> acts[i] == Advance(j)
    ensures IsRun(s, acts) && Exec(s, acts) == Finished(s, j)
    decreases ToGo(s.senders[j].pc)
  {
    acts := [];
    if s.senders[j].pc != Idle {
      FinishedStep(s, j);
      ToGoDrops(s, j);
      hide Finished, ToGo, SenderStep;
      var rest := SenderAlone(SenderStep(s, j), j);
      acts := [Advance(j)] + rest;
      InFront(s, Advance(j), rest);
    }
  }

  // ---------- The loop ----------

  /** n steps of the loop on its own; `other` is whether something else keeps it from blocking. */
  function Alone(s: State, other: bool, n: nat): State
    decreases n
  {
    if n == 0 then s else Alone(LoopAlone(s, other), other, n - 1)
  }

  lemma {:induction false} AloneOn(s: State, other: bool, n: nat, m: nat)
    ensures Alone(Alone(s, other, n), other, m) == Alone(s, other, n + m)
    decreases n
  {
    hide LoopAlone;
    if n > 0 { AloneOn(LoopAlone(s, other), other, n - 1, m); }
  }

  /** The marked entries below i, from the last to the first. */
  function Marked(marks: set<Target>, ch: Chan, i: nat): seq<Target> {
    if i == 0 then []
    else (if Target(ch, i - 1) in marks then [Target(ch, i - 1)] else []) + Marked(marks, ch, i - 1)
  }

  /** Each of them once. */
  lemma {:induction false} MarkedMeans(marks: set<Target>, ch: Chan, i: nat)
    ensures forall t :: t in Marked(marks, ch, i) <==> t in marks && t.ch == ch && t.idx < i
    ensures forall k, l :: 0 <= k < l < |Marked(marks, ch, i)| ==> Marked(marks, ch, i)[k].idx > Marked(marks, ch, i)[l].idx
  {
    if i > 0 {
      MarkedMeans(marks, ch, i - 1);
      var rest := Marked(marks, ch, i - 1);
      assert forall k :: 0 <= k < |rest| ==> rest[k] in rest;
    }
  }

  function Unmarked(marks: set<Target>, ch: Chan, i: nat): set<Target> {
    set t | t in marks && !(t.ch == ch && t.idx < i)
  }

  lemma {:induction false} MarkedSame(marks: set<Target>, marks': set<Target>, ch: Chan, i: nat)
    requires forall k: nat :: k < i ==> (Target(ch, k) in marks <==> Target(ch, k) in marks')
    ensures Marked(marks, ch, i) == Marked(marks', ch, i)
  {
    if i > 0 { MarkedSame(marks, marks', ch, i - 1); }
  }

  function Scanned(s: State, ch: Chan, i: nat): State {
    s.(pc := AfterScan(ch), marks := Unmarked(s.marks, ch, i), fed := s.fed + Marked(s.marks, ch, i))
  }

  /** One entry of the scan. */
  function PastEntry(s: State, ch: Chan, i: nat): State
    requires i > 0
  {
    var t := Target(ch, i - 1);
    if t in s.marks then s.(pc := Scan(ch, i - 1), marks := s.marks - {t}, fed := s.fed + [t]) else s.(pc := Scan(ch, i - 1))
  }

  /** A scan feeds the marked entries it comes to, and unmarks them. */
  lemma {:induction false} ScanAlone(s: State, other: bool, ch: Chan, i: nat) returns (n: nat)
    requires s.pc == Scan(ch, i)
    ensures n <= 3 * i + 1 && Alone(s, other, n) == Scanned(s, ch, i)
    decreases i
  {
    if i == 0 {
      NoEntry(s, other, ch);
      n := 1;
    } else {
      var k := OneEntry(s, other, ch, i);
      ScannedOn(s, ch, i);
      hide Alone, PastEntry, Scanned;
      var m := ScanAlone(PastEntry(s, ch, i), other, ch, i - 1);
      AloneOn(s, other, k, m);
      n := k + m;
    }
  }

  lemma NoEntry(s: State, other: bool, ch: Chan)
    requires s.pc == Scan(ch, 0)
    ensures Alone(s, other, 1) == Scanned(s, ch, 0)
  {
    assert Alone(s, other, 1) == Alone(LoopAlone(s, other), other, 0);
    assert Unmarked(s.marks, ch, 0) == s.marks && s.fed + [] == s.fed;
  }

  lemma OneEntry(s: State, other: bool, ch: Chan, i: nat) returns (n: nat)
    requires s.pc == Scan(ch, i) && i > 0
    ensures 1 <= n <= 3 && Alone(s, other, n) == PastEntry(s, ch, i) && PastEntry(s, ch, i).pc == Scan(ch, i - 1)
  {
    var t := Target(ch, i - 1);
    if t in s.marks {
      var s1 := s.(pc := ClearMark(ch, i));
      var s2 := s1.(pc := Feed(ch, i), marks := s.marks - {t});
      n := 3;
      ThreeOn(s, s1, s2, PastEntry(s, ch, i), other);
    } else {
      n := 1;
      assert Alone(s, other, 1) == Alone(LoopAlone(s, other), other, 0);
    }
  }

  lemma ThreeOn(s: State, s1: State, s2: State, s3: State, other: bool)
    requires LoopAlone(s, other) == s1 && LoopAlone(s1, other) == s2 && LoopAlone(s2, other) == s3
    ensures Alone(s, other, 3) == s3
  {
    hide LoopAlone;
    assert Alone(s, other, 3) == Alone(s1, other, 2) == Alone(s2, other, 1) == Alone(s3, other, 0);
  }

  lemma MarkedOn(marks: set<Target>, ch: Chan, i: nat)
    requires i > 0
    ensures var t := Target(ch, i - 1);
      && Marked(marks, ch, i) == (if t in marks then [t] else []) + Marked(marks - {t}, ch, i - 1)
      && Unmarked(marks, ch, i) == Unmarked(marks - {t}, ch, i - 1)
  {
    MarkedSame(marks, marks - {Target(ch, i - 1)}, ch, i - 1);
  }

  lemma ScannedOn(s: State, ch: Chan, i: nat)
    requires i > 0
    ensures Scanned(PastEntry(s, ch, i), ch, i - 1) == Scanned(s, ch, i)
  {
    var t, rest := Target(ch, i - 1), Marked(s.marks - {Target(ch, i - 1)}, ch, i - 1);
    MarkedOn(s.marks, ch, i);
    hide Marked, Unmarked;
    assert t !in s.marks ==> s.marks - {t} == s.marks && [] + rest == rest;
    assert s.fed + ([t] + rest) == s.fed + [t] + rest;
  }

  /** A channel's part of pipecb: nothing without its flag. */
  function Served(s: State, ch: Chan): State {
    if ch in s.flags then Scanned(s.(flags := s.flags - {ch}), ch, s.Count(ch)) else s.(pc := AfterScan(ch))
  }

  lemma ChanAlone(s: State, other: bool, ch: Chan) returns (n: nat)
    requires s.pc == CbTest(ch)
    ensures Alone(s, other, n) == Served(s, ch)
  {
    if ch in s.flags {
      var s' := s.(pc := Scan(ch, s.Count(ch)), flags := s.flags - {ch});
      assert Alone(s, other, 2) == s' by {
        assert Alone(s, other, 2) == Alone(LoopAlone(s, other), other, 1) == Alone(LoopAlone(LoopAlone(s, other), other), other, 0);
      }
      var m := ScanAlone(s', other, ch, s.Count(ch));
      AloneOn(s, other, 2, m);
      n := 2 + m;
    } else {
      assert Alone(s, other, 1) == Alone(LoopAlone(s, other), other, 0);
      n := 1;
    }
  }

  /** pipecb from its reading of the pipe on. */
  function CalledBack(s: State): State { Served(Served(s.(skipped := false), Sig), Async) }

  lemma CallbackAlone(s: State, other: bool) returns (n: nat)
    requires s.pc == CbClearSkipped
    ensures Alone(s, other, n) == CalledBack(s)
  {
    var s1 := s.(pc := CbTest(Sig), skipped := false);
    assert Alone(s, other, 1) == Alone(LoopAlone(s, other), other, 0) == s1;
    var k := ChanAlone(s1, other, Sig);
    var s2 := Served(s1, Sig);
    var m := ChanAlone(s2, other, Async);
    AloneOn(s, other, 1, k);
    AloneOn(s, other, 1 + k, m);
    n := 1 + k + m;
  }

  /** A turn of the loop that does not block: it reads the pipe if there is something in it, at most four bytes or an
      eventfd's counter, and calls pipecb if it has read or the hint says a write was skipped. */
  function Turned(s: State): State {
    var left := if s.eventfd || s.pipe < 4 then 0 else s.pipe - 4;
    if s.pipe > 0 then CalledBack(s.(wanted := false, pipe := left))
    else if s.skipped then CalledBack(s.(wanted := false))
    else s.(wanted := false)
  }

  lemma ToCallback(s: State, other: bool)
    requires s.pc == SetWanted && s.pend == NotPending
    ensures !other && !s.skipped && s.pipe == 0 ==> Alone(s, other, 2) == s.(pc := Poll(true), wanted := true)
    ensures s.pipe > 0 ==>
      Alone(s, other, 7) == s.(pc := CbClearSkipped, wanted := false, pipe := if s.eventfd || s.pipe < 4 then 0 else s.pipe - 4)
    ensures s.pipe == 0 && s.skipped ==> Alone(s, other, 6) == s.(pc := CbClearSkipped, wanted := false)
    ensures s.pipe == 0 && !s.skipped && other ==> Alone(s, other, 6) == s.(wanted := false)
  {
    var s1 := s.(pc := TestBlock, wanted := true);
    var s2 := s1.(pc := Poll(!other && !s.skipped));
    assert Alone(s, other, 2) == Alone(s1, other, 1) == Alone(s2, other, 0);
    var s3 := s2.(pc := ClearWanted, pend := if s.pipe > 0 then Pending(true) else NotPending);
    var s4 := s3.(pc := TestSkipped, wanted := false);
    var s5 := s4.(pc := Invoke, pend := if s.pipe > 0 then Pending(true) else if s.skipped then Pending(false) else NotPending);
    var s6 := LoopAlone(s5, other);
    FourOn(s2, s3, s4, s5, s6, other);
    AloneOn(s, other, 2, 4);
    if s.pipe > 0 {
      assert Alone(s6, other, 1) == Alone(LoopAlone(s6, other), other, 0);
      AloneOn(s, other, 6, 1);
    }
  }

  lemma FourOn(s2: State, s3: State, s4: State, s5: State, s6: State, other: bool)
    requires LoopAlone(s2, other) == s3 && LoopAlone(s3, other) == s4 && LoopAlone(s4, other) == s5 && LoopAlone(s5, other) == s6
    ensures Alone(s2, other, 4) == s6
  {
    hide LoopAlone;
    assert Alone(s2, other, 4) == Alone(s3, other, 3) == Alone(s4, other, 2) == Alone(s5, other, 1) == Alone(s6, other, 0);
  }

  lemma TurnAlone(s: State, other: bool) returns (n: nat)
    requires s.pc == SetWanted && s.pend == NotPending
    ensures if !other && !s.skipped && s.pipe == 0 then Alone(s, other, n) == s.(pc := Poll(true), wanted := true)
      else Alone(s, other, n) == Turned(s)
  {
    ToCallback(s, other);
    hide Alone, Served;
    if s.pipe > 0 || s.skipped {
      n := if s.pipe > 0 then 7 else 6;
      var m := CallbackAlone(Alone(s, other, n), other);
      AloneOn(s, other, n, m);
      CalledBackFrom(Alone(s, other, n), SetWanted);
      n := n + m;
    } else {
      n := if other then 6 else 2;
    }
  }

  lemma CalledBackFrom(s: State, pc: LoopPc)
    ensures CalledBack(s.(pc := pc)) == CalledBack(s)
  {
  }

  // ---------- To rest ----------

  /** A loop with no flag to see empties the pipe and blocks. */
  lemma {:induction false} RestsAlone(s: State) returns (n: nat)
    requires s.pc == SetWanted && s.pend == NotPending && s.flags == {}
    ensures Alone(s, false, n) == s.(pc := Poll(true), wanted := true, skipped := false, pipe := 0)
    decreases s.pipe, s.skipped
  {
    n := TurnAlone(s, false);
    hide Alone;
    if s.skipped || s.pipe > 0 {
      var m := RestsAlone(Turned(s));
      AloneOn(s, false, n, m);
      n := n + m;
    }
  }

  /** When no send is under way every mark has its flag, and every flag is to be seen in this turn. */
  lemma QuietFlags(s: State)
    requires Inv(s) && Quiet(s) && s.pc == SetWanted
    ensures forall t :: t in s.marks ==> t.ch in s.flags && s.ValidTarget(t)
    ensures s.flags != {} ==> s.skipped || s.pipe > 0
  {
    forall t | t in s.marks
      ensures t.ch in s.flags && s.ValidTarget(t)
    {
      assert MarkCovered(s, t);
    }
    if ch :| ch in s.flags {
      assert FlagCovered(s, ch);
    }
  }

  /** After one turn all that was marked has been fed, each once, and no flag is left. */
  lemma TurnedDelivers(s: State)
    requires (forall t :: t in s.marks ==> t.ch in s.flags && s.ValidTarget(t)) && (s.skipped || s.pipe > 0)
    requires s.pc == SetWanted && s.pend == NotPending
    ensures Turned(s).flags == {} && Turned(s).marks == {}
    ensures Turned(s).fed == s.fed + Marked(s.marks, Sig, s.nSig) + Marked(s.marks, Async, s.nAsync)
    ensures Turned(s).pc == SetWanted && Turned(s).pend == NotPending
    ensures Turned(s).senders == s.senders && Turned(s).nSig == s.nSig && Turned(s).nAsync == s.nAsync
  {
    var sig := Unmarked(s.marks, Sig, s.nSig);
    MarkedSame(s.marks, sig, Async, s.nAsync);
    if Sig !in s.flags { NoneMarked(s.marks, Sig, s.nSig); }
    if Async !in s.flags { NoneMarked(s.marks, Async, s.nAsync); }
    TwoChannels(s.flags);
    hide Marked;
  }

  lemma TwoChannels(flags: set<Chan>)
    ensures flags - {Sig} - {Async} == {}
  {
    forall ch | ch in flags
      ensures ch == Sig || ch == Async
    {
      match ch
      case Sig =>
      case Async =>
    }
  }

  lemma {:induction false} NoneMarked(marks: set<Target>, ch: Chan, i: nat)
    requires forall t :: t in marks ==> t.ch != ch
    ensures Marked(marks, ch, i) == []
  {
    if i > 0 { NoneMarked(marks, ch, i - 1); }
  }

  /** Once all sends have returned, a loop that nothing else keeps busy feeds what is marked, each once, and comes to
      rest: blocked, with nothing marked, no flag, no hint and an empty pipe. */
  lemma ComesToRest(s: State) returns (n: nat)
    requires Inv(s) && Quiet(s) && s.pc == SetWanted && s.pend == NotPending
    ensures var r := Alone(s, false, n);
      && Blocked(r) && r.marks == {} && r.flags == {} && !r.skipped
      && r.fed == s.fed + Marked(s.marks, Sig, s.nSig) + Marked(s.marks, Async, s.nAsync)
  {
    QuietFlags(s);
    n := TurnAlone(s, false);
    hide Alone, Turned;
    if s.skipped || s.pipe > 0 {
      TurnedDelivers(s);
      hide Marked;
      var m := RestsAlone(Turned(s));
      AloneOn(s, false, n, m);
      n := n + m;
    } else {
      assert s.marks == {};
      NoneMarked(s.marks, Sig, s.nSig);
      NoneMarked(s.marks, Async, s.nAsync);
    }
  }

  /** pipe_w is pending only between the poll and the invocation. */
  predicate PendSeen(s: State) {
    s.pend.Pending? ==> s.pc == ClearWanted || s.pc == TestSkipped || s.pc == Invoke
  }

  lemma {:induction false} RunKeepsPendSeen(s: State, acts: seq<Action>)
    requires IsRun(s, acts) && PendSeen(s)
    ensures PendSeen(Exec(s, acts))
    decreases |acts|
  {
    if acts != [] {
      assert PendSeen(Apply(s, acts[0]));
      RunKeepsPendSeen(Apply(s, acts[0]), acts[1..]);
    }
  }

  lemma StepAlone(s: State, other: bool)
    requires Inv(s) && Quiet(s) && PendSeen(s)
    ensures var s' := LoopAlone(s, other);
      Inv(s') && Quiet(s') && PendSeen(s')
  {
    LoopKeepsInv(s, if s.pc.Poll? then s.pipe > 0 else other);
  }

  /** A loop that is nowhere blocked gets to the top of its next turn. */
  lemma {:induction false} ToTop(s: State) returns (n: nat)
    requires Inv(s) && Quiet(s) && PendSeen(s)
    ensures var r := Alone(s, false, n);
      Inv(r) && Quiet(r) && PendSeen(r) && (r.pc == SetWanted || Blocked(r))
    decreases if s.pc == SetWanted then 0 else 1 + Left(s.pc, s.nSig, s.nAsync)
  {
    if s.pc == SetWanted || Blocked(s) {
      n := 0;
    } else {
      StepAlone(s, false);
      LeftDrops(s, if s.pc.Poll? then s.pipe > 0 else false);
      hide Inv, Left, Quiet, LoopAlone;
      var m := ToTop(LoopAlone(s, false));
      n := m + 1;
    }
  }

  lemma BlockedIsAtRest(s: State)
    requires Inv(s) && Quiet(s) && Blocked(s)
    ensures s.marks == {} && s.flags == {} && !s.skipped
  {
    assert !FlagCovered(s, Sig) && !FlagCovered(s, Async);
    assert forall t :: MarkCovered(s, t) ==> t.ch in s.flags;
  }

  /** Over any run: once all sends have returned, the loop on its own comes to rest wherever it was. */
  lemma EveryRunComesToRest(s0: State, acts: seq<Action>) returns (n: nat)
    requires Init(s0) && IsRun(s0, acts) && Quiet(Exec(s0, acts))
    ensures var r := Alone(Exec(s0, acts), false, n);
      Blocked(r) && r.marks == {} && r.flags == {} && !r.skipped
  {
    var s := Exec(s0, acts);
    RunKeepsInv(s0, acts);
    RunKeepsPendSeen(s0, acts);
    n := ToTop(s);
    var r := Alone(s, false, n);
    hide Inv, Quiet, Alone, Exec, Marked;
    if r.pc == SetWanted {
      var m := ComesToRest(r);
      AloneOn(s, false, n, m);
      n := n + m;
    } else {
      BlockedIsAtRest(r);
    }
  }
}
