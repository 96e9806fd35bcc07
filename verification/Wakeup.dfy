/**
The wake-up protocol between sender threads (ev_async_send, ev_feed_signal) and the event loop:
shared flags, a "write skipped" hint, a "write wanted" hint and a pipe or eventfd.  Every shared
access is a step of its own and the steps of any number of senders and of the loop interleave
arbitrarily.
*/
module Wakeup {

  /** The two flags handed to evpipe_write: sig_pending and async_pending. */
  datatype Chan = Sig | Async

  /** What one send is about: signals[idx].pending or asyncs[idx]->sent. */
  datatype Target = Target(ch: Chan, idx: nat)

  /** Where a sender is inside ev_async_send / ev_feed_signal and evpipe_write. */
  datatype SenderPc = Idle | Mark | TestFlag | SetFlag | SetSkipped | TestWanted | ClearSkipped | WritePipe

  datatype Sender = Sender(pc: SenderPc, t: Target)

  /** Where the loop is: the poll section of ev_run, then pipecb if pipe_w is pending.
      Scan(ch, i) is about to look at entry i - 1; Feed(ch, i) is about to feed entry i - 1. */
  datatype LoopPc =
    | SetWanted | TestBlock | Poll(block: bool) | ClearWanted | TestSkipped | Invoke
    | CbRead | CbClearSkipped | CbTest(ch: Chan) | CbClearFlag(ch: Chan)
    | Scan(ch: Chan, i: nat) | ClearMark(ch: Chan, i: nat) | Feed(ch: Chan, i: nat)

  /** Whether pipe_w is on the pending queue, and whether EV_READ is among its events. */
  datatype PipeEvent = NotPending | Pending(read: bool)

  datatype State = State(
    nSig: nat, nAsync: nat, eventfd: bool,
    senders: seq<Sender>, pc: LoopPc, pend: PipeEvent,
    flags: set<Chan>, marks: set<Target>, wanted: bool, skipped: bool, pipe: nat,
    fed: seq<Target>)
  {
    function Count(ch: Chan): nat { if ch.Sig? then nSig else nAsync }

    predicate ValidTarget(t: Target) { t.idx < Count(t.ch) }
  }

  predicate Init(s: State) {
    && s.pc == SetWanted && s.pend == NotPending && s.flags == {} && s.marks == {}
    && !s.wanted && !s.skipped && s.pipe == 0 && s.fed == []
    && forall j :: 0 <= j < |s.senders| ==> s.senders[j].pc == Idle
  }

  /** Begin: sender j enters a send for t.  Advance: sender j performs its next access.
      Loop: the loop performs its next access; `choice` resolves what the model leaves open there
      (another reason not to block; whether poll reports the pipe as readable). */
  datatype Action = Begin(j: nat, t: Target) | Advance(j: nat) | Loop(choice: bool)

  predicate Enabled(s: State, a: Action) {
    match a
    case Begin(j, t) => j < |s.senders| && s.senders[j].pc == Idle && s.ValidTarget(t)
    case Advance(j) => j < |s.senders| && s.senders[j].pc != Idle
    case Loop(choice) => s.pc.Poll? && choice ==> s.pipe > 0
  }

  function Apply(s: State, a: Action): State
    requires Enabled(s, a)
  {
    match a
    case Begin(j, t) => s.(senders := s.senders[j := Sender(Mark, t)])
    case Advance(j) => SenderStep(s, j)
    case Loop(choice) => LoopStep(s, choice)
  }

  function At(s: State, j: nat, pc: SenderPc): State
    requires j < |s.senders|
  {
    s.(senders := s.senders[j := s.senders[j].(pc := pc)])
  }

  function SenderStep(s: State, j: nat): State
    requires j < |s.senders| && s.senders[j].pc != Idle
  {
    var t := s.senders[j].t;
    match s.senders[j].pc
    case Mark => At(s, j, TestFlag).(marks := s.marks + {t})
    case TestFlag => At(s, j, if t.ch in s.flags then Idle else SetFlag)
    case SetFlag => At(s, j, SetSkipped).(flags := s.flags + {t.ch})
    case SetSkipped => At(s, j, TestWanted).(skipped := true)
    case TestWanted => At(s, j, if s.wanted then ClearSkipped else Idle)
    case ClearSkipped => At(s, j, WritePipe).(skipped := false)
    case WritePipe => At(s, j, Idle).(pipe := s.pipe + 1)
  }

  /** Reading the pipe takes at most four bytes; reading an eventfd resets its counter. */
  function Drain(s: State): nat {
    if s.eventfd || s.pipe <= 4 then 0 else s.pipe - 4
  }

  function AddEvent(e: PipeEvent, read: bool): PipeEvent {
    if e.Pending? then Pending(e.read || read) else Pending(read)
  }

  function AfterScan(ch: Chan): LoopPc {
    if ch.Sig? then CbTest(Async) else SetWanted
  }

  function LoopStep(s: State, choice: bool): State {
    match s.pc
    case SetWanted => s.(pc := TestBlock, wanted := true)
    case TestBlock => s.(pc := Poll(!choice && !s.skipped))
    case Poll(_) => s.(pc := ClearWanted, pend := if choice then AddEvent(s.pend, true) else s.pend)
    case ClearWanted => s.(pc := TestSkipped, wanted := false)
    case TestSkipped => s.(pc := Invoke, pend := if s.skipped then AddEvent(s.pend, false) else s.pend)
    case Invoke =>
      if s.pend.NotPending? then s.(pc := SetWanted)
      else s.(pc := if s.pend.read then CbRead else CbClearSkipped, pend := NotPending)
    case CbRead => s.(pc := CbClearSkipped, pipe := Drain(s))
    case CbClearSkipped => s.(pc := CbTest(Sig), skipped := false)
    case CbTest(ch) => s.(pc := if ch in s.flags then CbClearFlag(ch) else AfterScan(ch))
    case CbClearFlag(ch) => s.(pc := Scan(ch, s.Count(ch)), flags := s.flags - {ch})
    case Scan(ch, i) =>
      if i == 0 then s.(pc := AfterScan(ch))
      else s.(pc := if Target(ch, i - 1) in s.marks then ClearMark(ch, i) else Scan(ch, i - 1))
    case ClearMark(ch, i) =>
      if i == 0 then s else s.(pc := Feed(ch, i), marks := s.marks - {Target(ch, i - 1)})
    case Feed(ch, i) =>
      if i == 0 then s else s.(pc := Scan(ch, i - 1), fed := s.fed + [Target(ch, i - 1)])
  }

  // ---------- Runs ----------

  predicate IsRun(s: State, acts: seq<Action>)
    decreases |acts|
  {
    acts != [] ==> Enabled(s, acts[0]) && IsRun(Apply(s, acts[0]), acts[1..])
  }

  function Exec(s: State, acts: seq<Action>): State
    requires IsRun(s, acts)
    decreases |acts|
  {
    if acts == [] then s else Exec(Apply(s, acts[0]), acts[1..])
  }

  // ---------- Invariant ----------

  predicate CarriesWakeup(pc: SenderPc) {
    pc == SetSkipped || pc == ClearSkipped || pc == WritePipe
  }

  predicate WillWrite(pc: SenderPc) { pc == TestWanted || pc == ClearSkipped }

  /** The callback has started and has not yet passed its test of flag ch. */
  predicate BeforeTest(pc: LoopPc, ch: Chan) {
    match pc
    case CbRead => true
    case CbClearSkipped => true
    case CbTest(c) => c.Sig? || ch.Async?
    case CbClearFlag(c) => c.Sig? || ch.Async?
    case Scan(c, _) => c.Sig? && ch.Async?
    case ClearMark(c, _) => c.Sig? && ch.Async?
    case Feed(c, _) => c.Sig? && ch.Async?
    case _ => false
  }

  /** The scan over t's channel is under way and has t's entry still ahead of it. */
  predicate ScanReaches(pc: LoopPc, t: Target) {
    match pc
    case Scan(c, i) => c == t.ch && t.idx < i
    case ClearMark(c, i) => c == t.ch && t.idx < i
    case Feed(c, i) => c == t.ch && t.idx + 1 < i
    case _ => false
  }

  ghost predicate MarkCovered(s: State, t: Target) {
    || t.ch in s.flags
    || ScanReaches(s.pc, t)
    || exists j :: 0 <= j < |s.senders| && s.senders[j].t == t && (s.senders[j].pc == TestFlag || s.senders[j].pc == SetFlag)
  }

  ghost predicate FlagCovered(s: State, ch: Chan) {
    || s.skipped
    || s.pipe > 0
    || BeforeTest(s.pc, ch)
    || exists j :: 0 <= j < |s.senders| && CarriesWakeup(s.senders[j].pc)
  }

  /** The hints agree with the loop's position, and positions and targets are in range. */
  predicate Control(s: State) {
    && (s.wanted <==> s.pc == TestBlock || s.pc.Poll? || s.pc == ClearWanted)
    && (s.pc.CbClearFlag? ==> s.pc.ch in s.flags)
    && (s.pc.ClearMark? || s.pc.Feed? ==> 0 < s.pc.i)
    && (s.pc.Scan? || s.pc.ClearMark? || s.pc.Feed? ==> s.pc.i <= s.Count(s.pc.ch))
  }

  ghost predicate Inv(s: State) {
    && Control(s)
    && (forall t :: t in s.marks ==> s.ValidTarget(t) && MarkCovered(s, t))
    && (forall ch :: ch in s.flags ==> FlagCovered(s, ch))
    && (s.pc == Poll(true) && s.skipped ==> exists j :: 0 <= j < |s.senders| && WillWrite(s.senders[j].pc))
    && (forall j :: 0 <= j < |s.senders| && s.senders[j].pc != Idle ==> s.ValidTarget(s.senders[j].t))
  }

  lemma SenderKeepsMarkCovered(s: State, j: nat, t: Target)
    requires Inv(s) && j < |s.senders| && s.senders[j].pc != Idle && t in SenderStep(s, j).marks
    ensures MarkCovered(SenderStep(s, j), t)
  {
    var s' := SenderStep(s, j);
    assert s'.senders[j].t == s.senders[j].t;
    if t != s.senders[j].t || !(s.senders[j].pc.Mark? || s.senders[j].pc.TestFlag?) {
      assert MarkCovered(s, t);
      if t.ch !in s.flags && !ScanReaches(s.pc, t) {
        var k :| 0 <= k < |s.senders| && s.senders[k].t == t && (s.senders[k].pc == TestFlag || s.senders[k].pc == SetFlag);
        assert k != j ==> s'.senders[k] == s.senders[k];
      }
    }
  }

  lemma SenderKeepsFlagCovered(s: State, j: nat, ch: Chan)
    requires Inv(s) && j < |s.senders| && s.senders[j].pc != Idle && ch in SenderStep(s, j).flags
    ensures FlagCovered(SenderStep(s, j), ch)
  {
    var s' := SenderStep(s, j);
    if !CarriesWakeup(s'.senders[j].pc) && s'.pipe == 0 {
      assert FlagCovered(s, ch);
      if !s.skipped && !BeforeTest(s.pc, ch) {
        var k :| 0 <= k < |s.senders| && CarriesWakeup(s.senders[k].pc);
        assert k != j ==> s'.senders[k] == s.senders[k];
      }
    }
  }

  lemma SenderKeepsMarks(s: State, j: nat)
    requires Inv(s) && j < |s.senders| && s.senders[j].pc != Idle
    ensures var s' := SenderStep(s, j);
      forall t :: t in s'.marks ==> s'.ValidTarget(t) && MarkCovered(s', t)
  {
    hide MarkCovered;
    var s' := SenderStep(s, j);
    forall t | t in s'.marks
      ensures s'.ValidTarget(t) && MarkCovered(s', t)
    {
      SenderKeepsMarkCovered(s, j, t);
      assert t != s.senders[j].t ==> t in s.marks;
    }
  }

  lemma SenderKeepsFlags(s: State, j: nat)
    requires Inv(s) && j < |s.senders| && s.senders[j].pc != Idle
    ensures var s' := SenderStep(s, j);
      forall ch :: ch in s'.flags ==> FlagCovered(s', ch)
  {
    hide FlagCovered, SenderStep;
    forall ch | ch in SenderStep(s, j).flags
      ensures FlagCovered(SenderStep(s, j), ch)
    {
      SenderKeepsFlagCovered(s, j, ch);
    }
  }

  lemma SenderKeepsPoll(s: State, j: nat)
    requires Inv(s) && j < |s.senders| && s.senders[j].pc != Idle
    ensures var s' := SenderStep(s, j);
      s'.pc == Poll(true) && s'.skipped ==> exists k :: 0 <= k < |s'.senders| && WillWrite(s'.senders[k].pc)
  {
    hide MarkCovered, FlagCovered;
    var s' := SenderStep(s, j);
    if s'.pc == Poll(true) && s'.skipped && !WillWrite(s'.senders[j].pc) {
      var k :| 0 <= k < |s.senders| && WillWrite(s.senders[k].pc);
      assert s'.senders[k] == s.senders[k];
    }
  }

  lemma SenderKeepsInv(s: State, j: nat)
    requires Inv(s) && j < |s.senders| && s.senders[j].pc != Idle
    ensures Inv(SenderStep(s, j))
  {
    hide MarkCovered, FlagCovered, WillWrite;
    SenderKeepsMarks(s, j);
    SenderKeepsFlags(s, j);
    SenderKeepsPoll(s, j);
  }

  lemma LoopKeepsMarkCovered(s: State, choice: bool, t: Target)
    requires Inv(s) && t in s.marks && t in LoopStep(s, choice).marks
    ensures MarkCovered(LoopStep(s, choice), t)
  {
    assert MarkCovered(s, t);
    assert s.ValidTarget(t);
    match s.pc
    case CbClearFlag(c) =>
    case Scan(c, i) =>
    case ClearMark(c, i) =>
    case Feed(c, i) =>
    case _ =>
  }

  lemma LoopKeepsFlagCovered(s: State, choice: bool, ch: Chan)
    requires Inv(s) && ch in LoopStep(s, choice).flags
    ensures FlagCovered(LoopStep(s, choice), ch)
  {
    assert FlagCovered(s, ch);
    assert LoopStep(s, choice).senders == s.senders;
    match s.pc
    case CbTest(c) =>
    case CbClearFlag(c) =>
    case Scan(c, i) =>
    case _ =>
  }

  lemma LoopKeepsControl(s: State, choice: bool)
    requires Control(s)
    ensures Control(LoopStep(s, choice))
  {
    match s.pc
    case CbTest(c) =>
    case CbClearFlag(c) =>
    case Scan(c, i) =>
    case ClearMark(c, i) =>
    case Feed(c, i) =>
    case _ =>
  }

  lemma LoopKeepsInv(s: State, choice: bool)
    requires Inv(s) && Enabled(s, Loop(choice))
    ensures Inv(LoopStep(s, choice))
  {
    var s' := LoopStep(s, choice);
    LoopKeepsControl(s, choice);
    assert s'.senders == s.senders && s'.marks <= s.marks && s'.nSig == s.nSig && s'.nAsync == s.nAsync;
    forall t | t in s'.marks
      ensures s'.ValidTarget(t) && MarkCovered(s', t)
    {
      LoopKeepsMarkCovered(s, choice, t);
    }
    forall ch | ch in s'.flags
      ensures FlagCovered(s', ch)
    {
      LoopKeepsFlagCovered(s, choice, ch);
    }
  }

  lemma StepKeepsInv(s: State, a: Action)
    requires Inv(s) && Enabled(s, a)
    ensures Inv(Apply(s, a))
  {
    match a
    case Begin(j, t) =>
      var s' := Apply(s, a);
      forall t' | t' in s'.marks
        ensures MarkCovered(s', t')
      {
        if t'.ch !in s.flags && !ScanReaches(s.pc, t') {
          var k :| 0 <= k < |s.senders| && s.senders[k].t == t' && (s.senders[k].pc == TestFlag || s.senders[k].pc == SetFlag);
          assert s'.senders[k] == s.senders[k];
        }
      }
      forall ch | ch in s'.flags
        ensures FlagCovered(s', ch)
      {
        if !s.skipped && s.pipe == 0 && !BeforeTest(s.pc, ch) {
          var k :| 0 <= k < |s.senders| && CarriesWakeup(s.senders[k].pc);
          assert s'.senders[k] == s.senders[k];
        }
      }
      if s.pc == Poll(true) && s.skipped {
        var k :| 0 <= k < |s.senders| && WillWrite(s.senders[k].pc);
        assert s'.senders[k] == s.senders[k];
      }
    case Advance(j) => SenderKeepsInv(s, j);
    case Loop(choice) => LoopKeepsInv(s, choice);
  }

  lemma {:induction false} RunKeepsInv(s: State, acts: seq<Action>)
    requires Inv(s) && IsRun(s, acts)
    ensures Inv(Exec(s, acts))
    decreases |acts|
  {
    if acts != [] {
      StepKeepsInv(s, acts[0]);
      RunKeepsInv(Apply(s, acts[0]), acts[1..]);
    }
  }

  // ---------- No lost wake-up ----------

  ghost predicate Quiet(s: State) {
    forall j :: 0 <= j < |s.senders| ==> s.senders[j].pc == Idle
  }

  /** In no reachable state is the loop blocked on an empty pipe, with no send under way, while a
      flag or some watcher's mark is still set. */
  lemma NoLostWakeup(s0: State, acts: seq<Action>)
    requires Init(s0) && IsRun(s0, acts)
    ensures var s := Exec(s0, acts);
      s.pc == Poll(true) && s.pipe == 0 && Quiet(s) ==> s.flags == {} && s.marks == {}
  {
    RunKeepsInv(s0, acts);
    var s := Exec(s0, acts);
    if s.pc == Poll(true) && s.pipe == 0 && Quiet(s) {
      assert forall ch :: ch in s.flags ==> FlagCovered(s, ch);
      assert s.flags == {};
      assert forall t :: t in s.marks ==> MarkCovered(s, t);
    }
  }

  // ---------- Delivery ----------

  /** The loop on its own, with a poll that reports the pipe as it is. */
  function LoopAlone(s: State, other: bool): State {
    LoopStep(s, if s.pc.Poll? then s.pipe > 0 else other)
  }

  function LoopRun(s: State, others: seq<bool>): State
    decreases |others|
  {
    if others == [] then s else LoopRun(LoopAlone(s, others[0]), others[1..])
  }

  predicate Blocked(s: State) { s.pc == Poll(true) && s.pipe == 0 }

  /** A send for t has been made and not yet fed. */
  predicate Owed(s: State, t: Target) {
    t in s.marks || s.pc == Feed(t.ch, t.idx + 1)
  }

  /** How many loop steps remain, at most, before the loop is back at SetWanted. */
  function Left(pc: LoopPc, nSig: nat, nAsync: nat): nat {
    match pc
    case Scan(ch, i) => 3 * i + 1 + AfterScanLeft(ch, nAsync)
    case ClearMark(ch, i) => 3 * i + AfterScanLeft(ch, nAsync)
    case Feed(ch, i) => if i == 0 then 0 else 3 * i - 1 + AfterScanLeft(ch, nAsync)
    case CbClearFlag(ch) => 3 * (if ch.Sig? then nSig else nAsync) + 2 + AfterScanLeft(ch, nAsync)
    case CbTest(ch) => 3 * (if ch.Sig? then nSig else nAsync) + 3 + AfterScanLeft(ch, nAsync)
    case _ => 3 * nSig + 3 * nAsync + 7 + BeforeCallback(pc)
  }

  function AfterScanLeft(ch: Chan, nAsync: nat): nat {
    if ch.Sig? then 3 * nAsync + 3 else 0
  }

  function BeforeCallback(pc: LoopPc): nat {
    match pc
    case CbRead => 1
    case Invoke => 2
    case TestSkipped => 3
    case ClearWanted => 4
    case Poll(_) => 5
    case TestBlock => 6
    case SetWanted => 7
    case _ => 0
  }

  /** The pass the loop is in is certain to reach t's entry. */
  predicate ThisPass(s: State, t: Target) {
    || s.pc == SetWanted || s.pc == TestBlock || s.pc.Poll?
    || ((s.pc == ClearWanted || s.pc == TestSkipped) && (s.pend.Pending? || s.skipped))
    || (s.pc == Invoke && s.pend.Pending?)
    || BeforeTest(s.pc, t.ch)
    || ScanReaches(s.pc, t)
    || s.pc == Feed(t.ch, t.idx + 1)
  }

  function Rank(s: State, t: Target): nat {
    Left(s.pc, s.nSig, s.nAsync) + if ThisPass(s, t) then 0 else 3 * s.nSig + 3 * s.nAsync + 15
  }

  lemma OwedIsCovered(s: State, t: Target)
    requires Inv(s) && Quiet(s) && Owed(s, t)
    ensures !Blocked(s)
    ensures s.ValidTarget(t) || s.pc == Feed(t.ch, t.idx + 1)
    ensures s.pc == Feed(t.ch, t.idx + 1) || ScanReaches(s.pc, t) || s.skipped || s.pipe > 0 || BeforeTest(s.pc, t.ch)
    ensures t.ch in s.flags || ScanReaches(s.pc, t) || s.pc == Feed(t.ch, t.idx + 1)
  {
    if t in s.marks {
      assert MarkCovered(s, t);
      assert t.ch in s.flags ==> FlagCovered(s, t.ch);
    }
  }

  lemma LeftDrops(s: State, choice: bool)
    requires Control(s)
    ensures var s' := LoopStep(s, choice);
      && s'.nSig == s.nSig && s'.nAsync == s.nAsync
      && (s'.pc == SetWanted || Left(s'.pc, s.nSig, s.nAsync) < Left(s.pc, s.nSig, s.nAsync))
  {
    if s.pc.Scan? || s.pc.ClearMark? || s.pc.Feed? {
      LeftDropsInScan(s, choice);
    } else {
      hide Drain, AddEvent;
      match s.pc
      case CbTest(c) =>
      case CbClearFlag(c) =>
      case _ =>
    }
  }

  lemma LeftDropsInScan(s: State, choice: bool)
    requires Control(s) && (s.pc.Scan? || s.pc.ClearMark? || s.pc.Feed?)
    ensures var s' := LoopStep(s, choice);
      && s'.nSig == s.nSig && s'.nAsync == s.nAsync
      && (s'.pc == SetWanted || Left(s'.pc, s.nSig, s.nAsync) < Left(s.pc, s.nSig, s.nAsync))
  {
  }

  /** Once the callback runs with t's flag set, or its scan has t's entry ahead, no step of the loop
      gets past that entry without feeding t. */
  lemma CallbackReaches(s: State, t: Target, choice: bool)
    requires Control(s) && Owed(s, t) && (t in s.marks ==> s.ValidTarget(t))
    requires (t.ch in s.flags && BeforeTest(s.pc, t.ch)) || ScanReaches(s.pc, t) || s.pc == Feed(t.ch, t.idx + 1)
    ensures var s' := LoopStep(s, choice);
      || s'.fed == s.fed + [t]
      || (Owed(s', t) && s'.pc != SetWanted
          && ((t.ch in s'.flags && BeforeTest(s'.pc, t.ch)) || ScanReaches(s'.pc, t) || s'.pc == Feed(t.ch, t.idx + 1)))
  {
    match s.pc
    case CbTest(c) =>
    case CbClearFlag(c) =>
    case Scan(c, i) =>
    case ClearMark(c, i) =>
    case Feed(c, i) =>
    case _ =>
  }

  /** Within a pass that reaches t's entry, t stays owed and within reach until it is fed. */
  lemma ThisPassStays(s: State, t: Target, other: bool)
    requires Inv(s) && Quiet(s) && Owed(s, t) && ThisPass(s, t)
    ensures var s' := LoopAlone(s, other);
      s'.fed == s.fed + [t] || (Owed(s', t) && ThisPass(s', t) && s'.pc != SetWanted)
  {
    OwedIsCovered(s, t);
    if BeforeTest(s.pc, t.ch) || ScanReaches(s.pc, t) || s.pc == Feed(t.ch, t.idx + 1) {
      CallbackReaches(s, t, if s.pc.Poll? then s.pipe > 0 else other);
    }
  }

  lemma RankDrops(s: State, t: Target, other: bool)
    requires Inv(s) && Quiet(s) && Owed(s, t)
    ensures var s' := LoopAlone(s, other);
      s'.fed == s.fed + [t] || (Owed(s', t) && Rank(s', t) < Rank(s, t))
  {
    LeftDrops(s, if s.pc.Poll? then s.pipe > 0 else other);
    if ThisPass(s, t) {
      ThisPassStays(s, t, other);
    } else {
      assert t in s.marks;
    }
  }

  lemma LoopAloneProgress(s: State, t: Target, other: bool)
    requires Inv(s) && Quiet(s) && Owed(s, t)
    ensures !Blocked(s)
    ensures var s' := LoopAlone(s, other);
      && Inv(s') && Quiet(s')
      && s.fed <= s'.fed
      && (s'.fed == s.fed + [t] || (Owed(s', t) && Rank(s', t) < Rank(s, t)))
  {
    LoopKeepsInv(s, if s.pc.Poll? then s.pipe > 0 else other);
    OwedIsCovered(s, t);
    RankDrops(s, t, other);
  }

  /** Once the senders have returned, every mark is fed within Rank(s, t) steps of the loop, however
      the loop's other choices fall; the loop is never stuck on the way. */
  lemma {:induction false} EverySendIsFed(s: State, t: Target, others: seq<bool>)
    requires Inv(s) && Quiet(s) && Owed(s, t)
    requires |others| >= Rank(s, t)
    ensures s.fed <= LoopRun(s, others).fed
    ensures t in LoopRun(s, others).fed[|s.fed|..]
    decreases |others|
  {
    LoopAloneProgress(s, t, if others == [] then false else others[0]);
    assert others != [];
    var s' := LoopAlone(s, others[0]);
    LoopRunFedGrows(s', others[1..]);
    var end := LoopRun(s', others[1..]);
    if s'.fed == s.fed + [t] {
      assert end.fed[|s.fed|] == t;
    } else {
      EverySendIsFed(s', t, others[1..]);
      SuffixHas(end.fed, |s.fed|, |s'.fed|, t);
    }
  }

  lemma {:induction false} LoopRunFedGrows(s: State, others: seq<bool>)
    ensures s.fed <= LoopRun(s, others).fed
    decreases |others|
  {
    if others != [] {
      assert s.fed <= LoopAlone(s, others[0]).fed;
      hide LoopAlone;
      LoopRunFedGrows(LoopAlone(s, others[0]), others[1..]);
    }
  }

  lemma SuffixHas(log: seq<Target>, m: nat, n: nat, t: Target)
    requires m <= n <= |log| && t in log[n..]
    ensures t in log[m..]
  {
    var k :| 0 <= k < |log| - n && log[n..][k] == t;
    assert log[m..][k + n - m] == t;
  }

  lemma FedGrows(s: State, a: Action)
    requires Enabled(s, a)
    ensures s.fed <= Apply(s, a).fed
  {
  }

  lemma OwedStep(s: State, a: Action, t: Target)
    requires Inv(s) && Enabled(s, a) && Owed(s, t)
    ensures Owed(Apply(s, a), t) || Apply(s, a).fed == s.fed + [t]
  {
    hide MarkCovered, FlagCovered, LoopStep;
    match a
    case Begin(_, _) =>
    case Advance(_) =>
    case Loop(choice) => LoopKeepsOwed(s, choice, t);
  }

  lemma LoopKeepsOwed(s: State, choice: bool, t: Target)
    requires Control(s) && Owed(s, t)
    ensures Owed(LoopStep(s, choice), t) || LoopStep(s, choice).fed == s.fed + [t]
  {
  }

  lemma {:induction false} ExecFedGrows(s: State, acts: seq<Action>)
    requires IsRun(s, acts)
    ensures s.fed <= Exec(s, acts).fed
    decreases |acts|
  {
    if acts != [] {
      FedGrows(s, acts[0]);
      ExecFedGrows(Apply(s, acts[0]), acts[1..]);
    }
  }

  lemma {:induction false} OwedUntilFed(s: State, acts: seq<Action>, t: Target)
    requires Inv(s) && IsRun(s, acts) && Owed(s, t)
    ensures s.fed <= Exec(s, acts).fed
    ensures Owed(Exec(s, acts), t) || t in Exec(s, acts).fed[|s.fed|..]
    decreases |acts|
  {
    if acts != [] {
      var s' := Apply(s, acts[0]);
      var end := Exec(s', acts[1..]);
      StepKeepsInv(s, acts[0]);
      FedGrows(s, acts[0]);
      ExecFedGrows(s', acts[1..]);
      OwedStep(s, acts[0], t);
      if Owed(s', t) {
        OwedUntilFed(s', acts[1..], t);
        if !Owed(end, t) {
          SuffixHas(end.fed, |s.fed|, |s'.fed|, t);
        }
      } else {
        assert end.fed[|s.fed|..][0] == t;
      }
    }
  }

  /** Every send is delivered: take any run, let sender j make its mark for t, go on with any
      interleaving until all sends have returned; then the loop alone feeds t within a number of
      steps that depends only on the number of watchers. */
  lemma EverySendIsDelivered(s0: State, before: seq<Action>, j: nat, after: seq<Action>, others: seq<bool>)
    requires Init(s0) && IsRun(s0, before)
    requires var s := Exec(s0, before); j < |s.senders| && s.senders[j].pc == Mark
    requires var s := Exec(s0, before); IsRun(SenderStep(s, j), after) && Quiet(Exec(SenderStep(s, j), after))
    requires |others| >= 6 * s0.nSig + 6 * s0.nAsync + 29
    ensures var s := Exec(s0, before);
      var end := LoopRun(Exec(SenderStep(s, j), after), others);
      s.fed <= end.fed && s.senders[j].t in end.fed[|s.fed|..]
  {
    RunKeepsInv(s0, before);
    var s := Exec(s0, before);
    var t := s.senders[j].t;
    SenderKeepsInv(s, j);
    var marked := SenderStep(s, j);
    RunKeepsInv(marked, after);
    OwedUntilFed(marked, after, t);
    var quiet := Exec(marked, after);
    LoopRunFedGrows(quiet, others);
    var end := LoopRun(quiet, others);
    if Owed(quiet, t) {
      ExecKeepsCounts(s0, before);
      ExecKeepsCounts(marked, after);
      RankIsBounded(quiet, t);
      EverySendIsFed(quiet, t, others);
      SuffixHas(end.fed, |s.fed|, |quiet.fed|, t);
    } else {
      var k :| |s.fed| <= k < |quiet.fed| && quiet.fed[k] == t;
      assert end.fed[k] == t;
    }
  }

  lemma RankIsBounded(s: State, t: Target)
    requires Inv(s)
    ensures Rank(s, t) <= 6 * s.nSig + 6 * s.nAsync + 29
  {
    assert s.pc.Scan? || s.pc.ClearMark? || s.pc.Feed? ==> s.pc.i <= s.Count(s.pc.ch);
  }

  lemma {:induction false} ExecKeepsCounts(s: State, acts: seq<Action>)
    requires IsRun(s, acts)
    ensures Exec(s, acts).nSig == s.nSig && Exec(s, acts).nAsync == s.nAsync
    decreases |acts|
  {
    if acts != [] {
      ExecKeepsCounts(Apply(s, acts[0]), acts[1..]);
    }
  }

  // ---------- Nothing is fed that was not sent ----------

  function Count(log: seq<Target>, t: Target): nat {
    if log == [] then 0 else Count(log[..|log| - 1], t) + if log[|log| - 1] == t then 1 else 0
  }

  /** The step is a sender's, who marks t. */
  predicate IsSend(s: State, a: Action, t: Target) {
    a.Advance? && a.j < |s.senders| && s.senders[a.j] == Sender(Mark, t)
  }

  /** How often senders mark t in a run. */
  function Sends(s: State, acts: seq<Action>, t: Target): nat
    requires IsRun(s, acts)
    decreases |acts|
  {
    if acts == [] then 0
    else (if IsSend(s, acts[0], t) then 1 else 0) + Sends(Apply(s, acts[0]), acts[1..], t)
  }

  /** The scan clears only a mark that it has seen. */
  predicate SawMark(s: State) {
    s.pc.ClearMark? && s.pc.i > 0 ==> Target(s.pc.ch, s.pc.i - 1) in s.marks
  }

  /** Feeds of t so far, and those that are on their way. */
  function Due(s: State, t: Target): nat {
    Count(s.fed, t) + (if t in s.marks then 1 else 0) + (if s.pc.Feed? && s.pc.i > 0 && t == Target(s.pc.ch, s.pc.i - 1) then 1 else 0)
  }

  lemma SawMarkStays(s: State, a: Action)
    requires SawMark(s) && Enabled(s, a)
    ensures SawMark(Apply(s, a))
  {
    match a
    case Begin(_, _) =>
    case Advance(j) => SenderKeepsSaw(s, j);
    case Loop(_) =>
  }

  lemma SenderKeepsSaw(s: State, j: nat)
    requires SawMark(s) && j < |s.senders| && s.senders[j].pc != Idle
    ensures SawMark(SenderStep(s, j))
  {
  }

  lemma CountMore(log: seq<Target>, x: Target, t: Target)
    ensures Count(log + [x], t) == Count(log, t) + if x == t then 1 else 0
  {
    assert (log + [x])[..|log|] == log;
  }

  lemma LoopAddsNothing(s: State, choice: bool, t: Target)
    requires SawMark(s)
    ensures Due(LoopStep(s, choice), t) <= Due(s, t)
  {
    hide Count;
    if s.pc.Feed? && s.pc.i > 0 {
      CountMore(s.fed, Target(s.pc.ch, s.pc.i - 1), t);
    }
  }

  lemma SenderAddsSend(s: State, j: nat, t: Target)
    requires j < |s.senders| && s.senders[j].pc != Idle
    ensures Due(SenderStep(s, j), t) <= Due(s, t) + if IsSend(s, Advance(j), t) then 1 else 0
  {
    hide Count;
  }

  /** Only a send of t adds to what is due for t. */
  lemma DueStep(s: State, a: Action, t: Target)
    requires SawMark(s) && Enabled(s, a)
    ensures Due(Apply(s, a), t) <= Due(s, t) + if IsSend(s, a, t) then 1 else 0
  {
    hide Count, LoopStep, SenderStep;
    match a
    case Begin(j, t') =>
    case Advance(j) => SenderAddsSend(s, j, t);
    case Loop(choice) => LoopAddsNothing(s, choice, t);
  }

  lemma {:induction false} DueOverRun(s: State, acts: seq<Action>, t: Target)
    requires SawMark(s) && IsRun(s, acts)
    ensures SawMark(Exec(s, acts)) && Due(Exec(s, acts), t) <= Due(s, t) + Sends(s, acts, t)
    decreases |acts|
  {
    hide SawMark, Due, Enabled, Apply, IsSend;
    if acts != [] {
      SawMarkStays(s, acts[0]);
      DueStep(s, acts[0], t);
      DueOverRun(Apply(s, acts[0]), acts[1..], t);
    }
  }

  /** Over every run, a watcher is fed at most as often as it was sent to. */
  lemma FedOnlyIfSent(s0: State, acts: seq<Action>, t: Target)
    requires Init(s0) && IsRun(s0, acts)
    ensures Count(Exec(s0, acts).fed, t) <= Sends(s0, acts, t)
  {
    DueOverRun(s0, acts, t);
  }

  /** The same for any stretch of a run: what it feeds to t was marked when it began, or is sent in it. */
  lemma FedInStretch(s0: State, before: seq<Action>, acts: seq<Action>, t: Target)
    requires Init(s0) && IsRun(s0, before) && IsRun(Exec(s0, before), acts)
    ensures var s := Exec(s0, before);
      Count(Exec(s, acts).fed, t) <= Count(s.fed, t) + Sends(s, acts, t)
        + (if t in s.marks then 1 else 0) + (if s.pc == Feed(t.ch, t.idx + 1) then 1 else 0)
  {
    hide Init, Enabled, Apply, IsSend, Exec, Sends, IsRun;
    InitSaw(s0);
    DueOverRun(s0, before, t);
    DueOverRun(Exec(s0, before), acts, t);
  }

  lemma InitSaw(s: State)
    requires Init(s)
    ensures SawMark(s)
  {
  }
}
