/**
Delivery while other senders keep sending: if the scheduler neglects neither the loop nor any sender for
ever, every mark is fed.  A round is a stretch of a run in which every process either takes a step or
has at some point nothing to do.
*/
module WakeupFair {
  import opened Wakeup

  datatype Process = TheLoop | TheSender(j: nat)

  predicate By(a: Action, h: Process) {
    match a
    case Begin(j, _) => h == TheSender(j)
    case Advance(j) => h == TheSender(j)
    case Loop(_) => h == TheLoop
  }

  /** A blocked loop and a sender outside a send have nothing to do. */
  predicate Runnable(s: State, h: Process) {
    match h
    case TheLoop => !Blocked(s)
    case TheSender(j) => j < |s.senders| && s.senders[j].pc != Idle
  }

  /** A poll reports the pipe as it is. */
  predicate Honest(s: State, a: Action) {
    a.Loop? && s.pc.Poll? ==> a.choice == (s.pipe > 0)
  }

  predicate HonestRun(s: State, acts: seq<Action>)
    requires IsRun(s, acts)
    decreases |acts|
  {
    acts != [] ==> Honest(s, acts[0]) && HonestRun(Apply(s, acts[0]), acts[1..])
  }

  /** Somewhere in the stretch h steps or has nothing to do. */
  predicate Serves(s: State, acts: seq<Action>, h: Process)
    requires IsRun(s, acts)
    decreases |acts|
  {
    !Runnable(s, h) || (acts != [] && (By(acts[0], h) || Serves(Apply(s, acts[0]), acts[1..], h)))
  }

  ghost predicate Round(s: State, acts: seq<Action>) {
    IsRun(s, acts) && HonestRun(s, acts) && forall h: Process :: Serves(s, acts, h)
  }

  ghost predicate Rounds(s: State, rounds: seq<seq<Action>>)
    decreases |rounds|
  {
    rounds != [] ==> Round(s, rounds[0]) && Rounds(Exec(s, rounds[0]), rounds[1..])
  }

  function ExecAll(s: State, rounds: seq<seq<Action>>): State
    requires Rounds(s, rounds)
    decreases |rounds|
  {
    if rounds == [] then s else ExecAll(Exec(s, rounds[0]), rounds[1..])
  }

  // ---------- How far a mark is from being fed ----------

  ghost predicate SomeAt(s: State, pc: SenderPc) {
    exists j :: 0 <= j < |s.senders| && s.senders[j].pc == pc
  }

  ghost predicate SomeFor(s: State, pc: SenderPc, t: Target) {
    exists j :: 0 <= j < |s.senders| && s.senders[j] == Sender(pc, t)
  }

  /** The callback is about to run or running, and will reach t. */
  predicate Certain(s: State, t: Target) {
    || InCallback(s, t)
    || (t.ch in s.flags && s.pend.Pending? && (s.pc.ClearWanted? || s.pc.TestSkipped? || s.pc.Invoke?))
  }

  predicate InCallback(s: State, t: Target) {
    (t.ch in s.flags && BeforeTest(s.pc, t.ch)) || ScanReaches(s.pc, t) || s.pc == Feed(t.ch, t.idx + 1)
  }

  /** What has to happen next for t: 0 the callback runs on, 1 the poll sees the pipe, 2 a sender writes the
      pipe, 3 a sender that is going to write clears the hint, 4 the loop sees the hint, or a sender sees
      that a write is wanted, 5 a sender sets the hint, 6 t's sender sets the flag, 7 t's sender tests it. */
  ghost function Stage(s: State, t: Target): (n: nat)
    ensures n <= 7
  {
    if Certain(s, t) then 0
    else if t.ch in s.flags then FlagStage(s)
    else if SomeFor(s, SetFlag, t) then 6
    else 7
  }

  ghost function FlagStage(s: State): (n: nat)
    ensures 1 <= n <= 5
  {
    if s.pipe > 0 then 1
    else if SomeAt(s, WritePipe) then 2
    else if SomeAt(s, ClearSkipped) then 3
    else if s.skipped then 4
    else 5
  }

  /** The places from which the loop, in this pass, polls or tests the hint. */
  predicate WillPoll(pc: LoopPc) { pc == SetWanted || pc == TestBlock || pc.Poll? }

  predicate WillTest(pc: LoopPc) { WillPoll(pc) || pc == ClearWanted || pc == TestSkipped }

  function Pass(s: State): nat { 3 * s.nSig + 3 * s.nAsync + 15 }

  /** How many steps the loop has to go in this stage, at most. */
  function Steps(s: State, stage: nat): nat {
    if stage == 0 || (stage == 1 && WillPoll(s.pc)) || (stage == 4 && WillTest(s.pc)) then Left(s.pc, s.nSig, s.nAsync)
    else if stage == 1 || stage == 4 then Left(s.pc, s.nSig, s.nAsync) + Pass(s)
    else 0
  }

  /** A step that counts: it is h's turn, in this stage. */
  ghost predicate Helps(s: State, t: Target, h: Process) {
    match Stage(s, t)
    case 2 => h.TheSender? && h.j < |s.senders| && s.senders[h.j].pc == WritePipe
    case 3 => h.TheSender? && h.j < |s.senders| && s.senders[h.j].pc == ClearSkipped
    case 4 => if Blocked(s) then h.TheSender? && h.j < |s.senders| && s.senders[h.j].pc == TestWanted else h == TheLoop
    case 5 => h.TheSender? && h.j < |s.senders| && s.senders[h.j].pc == SetSkipped
    case 6 => h.TheSender? && h.j < |s.senders| && s.senders[h.j] == Sender(SetFlag, t)
    case 7 => h.TheSender? && h.j < |s.senders| && s.senders[h.j] == Sender(TestFlag, t)
    case _ => h == TheLoop
  }

  /** There is always someone whose turn counts. */
  lemma SomeoneHelps(s: State, t: Target) returns (h: Process)
    requires Inv(s) && Owed(s, t)
    ensures Helps(s, t, h) && Runnable(s, h)
  {
    if Certain(s, t) {
      h := TheLoop;
    } else if t.ch in s.flags {
      h := FlagHelps(s, t);
    } else {
      assert MarkCovered(s, t);
      if j :| 0 <= j < |s.senders| && s.senders[j] == Sender(SetFlag, t) {
        h := TheSender(j);
      } else {
        var j :| 0 <= j < |s.senders| && s.senders[j].t == t && (s.senders[j].pc == TestFlag || s.senders[j].pc == SetFlag);
        assert s.senders[j] == Sender(s.senders[j].pc, t);
        h := TheSender(j);
      }
    }
  }

  lemma FlagHelps(s: State, t: Target) returns (h: Process)
    requires Inv(s) && Owed(s, t) && t.ch in s.flags && !Certain(s, t)
    ensures Helps(s, t, h) && Runnable(s, h)
  {
    assert FlagCovered(s, t.ch);
    hide MarkCovered, ScanReaches, BeforeTest;
    if s.pipe > 0 {
      h := TheLoop;
    } else if j :| 0 <= j < |s.senders| && s.senders[j].pc == WritePipe {
      h := TheSender(j);
    } else if j :| 0 <= j < |s.senders| && s.senders[j].pc == ClearSkipped {
      h := TheSender(j);
    } else if s.skipped {
      if Blocked(s) {
        var j :| 0 <= j < |s.senders| && WillWrite(s.senders[j].pc);
        h := TheSender(j);
      } else {
        h := TheLoop;
      }
    } else {
      var j :| 0 <= j < |s.senders| && CarriesWakeup(s.senders[j].pc);
      h := TheSender(j);
    }
  }

  // ---------- A step brings t nearer, or leaves it where it is ----------

  ghost predicate Nearer(s: State, s': State, t: Target) {
    Stage(s', t) < Stage(s, t) || (Stage(s', t) == Stage(s, t) && Steps(s', Stage(s', t)) < Steps(s, Stage(s, t)))
  }

  /** t is fed or nearer; or, unless this was h's turn, it is as far as before, and still h's turn. */
  ghost predicate Moves(s: State, s': State, t: Target, h: Process, turn: bool) {
    || s'.fed == s.fed + [t]
    || (Owed(s', t)
        && (Nearer(s, s', t)
            || (!turn && Stage(s', t) == Stage(s, t) && Steps(s', Stage(s', t)) == Steps(s, Stage(s, t)) && Helps(s', t, h))))
  }

  /** Once the callback is certain it stays so. */
  lemma CertainStep(s: State, a: Action, t: Target)
    requires Inv(s) && Enabled(s, a) && Owed(s, t) && Certain(s, t)
    ensures var s' := Apply(s, a);
      || s'.fed == s.fed + [t]
      || (Certain(s', t) && (if a.Loop? then Left(s'.pc, s'.nSig, s'.nAsync) < Left(s.pc, s.nSig, s.nAsync) else s'.pc == s.pc))
  {
    if a.Loop? {
      LeftDrops(s, a.choice);
      if InCallback(s, t) { CallbackReaches(s, t, a.choice); }
      hide Left, Owed, MarkCovered, FlagCovered;
    } else {
      HintStep(s, a);
      hide SenderStep, Inv, BeforeTest, ScanReaches, Left;
    }
  }

  /** Until the callback is certain, nobody clears the flag. */
  lemma FlagStep(s: State, a: Action, t: Target)
    requires Inv(s) && Enabled(s, a) && t.ch in s.flags && !Certain(s, t)
    ensures t.ch in Apply(s, a).flags
  {
  }

  /** A sender at WritePipe or ClearSkipped stays there, or does what it is there for. */
  lemma AtStep(s: State, a: Action, k: nat)
    requires Enabled(s, a) && !a.Loop? && k < |s.senders|
    ensures var s' := Apply(s, a);
      && |s'.senders| == |s.senders| && (a.j != k ==> s'.senders[k] == s.senders[k])
      && (s.senders[k].pc == WritePipe ==> s'.pipe > 0 || s'.senders[k].pc == WritePipe)
      && (s.senders[k].pc == ClearSkipped ==> s'.senders[k].pc == ClearSkipped || s'.senders[k].pc == WritePipe)
  {
  }

  lemma HintStep(s: State, a: Action)
    requires Enabled(s, a) && !a.Loop?
    ensures var s' := Apply(s, a);
      && s.pipe <= s'.pipe && s'.pc == s.pc && s.flags <= s'.flags && s'.nSig == s.nSig && s'.nAsync == s.nAsync
      && (s.skipped && !s'.skipped ==> SomeAt(s, ClearSkipped))
  {
  }

  /** In stages 1 to 5 no step of a sender puts t back. */
  lemma FlagStageStays(s: State, a: Action)
    requires Enabled(s, a) && !a.Loop?
    ensures FlagStage(Apply(s, a)) <= FlagStage(s)
  {
    HintStep(s, a);
    var s' := Apply(s, a);
    if SomeAt(s, WritePipe) {
      var k :| 0 <= k < |s.senders| && s.senders[k].pc == WritePipe;
      AtStep(s, a, k);
    } else if SomeAt(s, ClearSkipped) {
      var k :| 0 <= k < |s.senders| && s.senders[k].pc == ClearSkipped;
      AtStep(s, a, k);
      hide Apply;
    }
  }

  /** A sender whose turn counts takes t to the next stage. */
  lemma OwnStep(s: State, a: Action, t: Target, h: Process)
    requires Inv(s) && Enabled(s, a) && !a.Loop? && By(a, h) && t.ch in s.flags && !Certain(s, t) && Helps(s, t, h)
    ensures FlagStage(Apply(s, a)) < FlagStage(s)
  {
    hide MarkCovered, FlagCovered, ScanReaches, BeforeTest;
    var s' := Apply(s, a);
    assert |s'.senders| == |s.senders|;
    match s.senders[a.j].pc
    case WritePipe =>
      assert s'.pipe > 0;
    case ClearSkipped =>
      assert s'.senders[a.j].pc == WritePipe;
    case TestWanted =>
      assert s'.senders[a.j].pc == ClearSkipped;
    case _ =>
  }

  lemma SenderFlagStep(s: State, a: Action, t: Target, h: Process)
    requires Inv(s) && Enabled(s, a) && !a.Loop? && t.ch in s.flags && !Certain(s, t) && Helps(s, t, h) && Owed(s, t)
    ensures Moves(s, Apply(s, a), t, h, By(a, h))
  {
    hide Inv, Apply, Enabled, SomeAt, Certain, Left, Owed;
    FlagStageStays(s, a);
    HintStep(s, a);
    OwedStep(s, a, t);
    if By(a, h) {
      OwnStep(s, a, t, h);
    } else if h.TheSender? {
      AtStep(s, a, h.j);
    }
  }

  /** In stages 1 to 5 a step of the loop leaves the stage alone until the callback is certain. */
  lemma LoopLeavesFlagStage(s: State, choice: bool, t: Target)
    requires Inv(s) && t.ch in s.flags && !Certain(s, t)
    ensures var s' := LoopStep(s, choice);
      s'.senders == s.senders && s'.pipe == s.pipe && s'.skipped == s.skipped && FlagStage(s') == FlagStage(s)
  {
    var s' := LoopStep(s, choice);
    assert !s.pc.CbRead? && !s.pc.CbClearSkipped?;
    assert s'.senders == s.senders && s'.pipe == s.pipe && s'.skipped == s.skipped;
    hide LoopStep, Certain, Inv;
  }

  /** The steps of the loop towards the poll and the test of the hint. */
  lemma LoopNears(s: State, choice: bool, t: Target)
    requires Inv(s) && t.ch in s.flags && !Certain(s, t) && Honest(s, Loop(choice))
    requires (s.pipe > 0) || s.skipped
    ensures var s', stage := LoopStep(s, choice), if s.pipe > 0 then 1 else 4;
      Certain(s', t) || Steps(s', stage) < Steps(s, stage)
  {
    LeftDrops(s, choice);
    hide MarkCovered, FlagCovered, ScanReaches, BeforeTest;
  }

  lemma LoopFlagStep(s: State, choice: bool, t: Target, h: Process)
    requires Inv(s) && Enabled(s, Loop(choice)) && Honest(s, Loop(choice)) && t.ch in s.flags && !Certain(s, t) && Helps(s, t, h) && Owed(s, t)
    ensures Moves(s, LoopStep(s, choice), t, h, By(Loop(choice), h))
  {
    OwedStep(s, Loop(choice), t);
    FlagStep(s, Loop(choice), t);
    LoopLeavesFlagStage(s, choice, t);
    if s.pipe > 0 || s.skipped { LoopNears(s, choice, t); }
    hide Inv, LoopStep, SomeAt, Certain, Left, Owed;
  }

  lemma LoopLeavesSenders(s: State, choice: bool)
    ensures LoopStep(s, choice).senders == s.senders
  {
  }

  /** A sender at TestFlag or SetFlag goes on to set a flag that is not set. */
  lemma SetterStep(s: State, a: Action, t: Target, k: nat)
    requires Enabled(s, a) && t.ch !in s.flags && k < |s.senders|
    requires s.senders[k] == Sender(TestFlag, t) || s.senders[k] == Sender(SetFlag, t)
    ensures var s' := Apply(s, a);
      && |s'.senders| == |s.senders|
      && (t.ch in s'.flags || s'.senders[k] == if By(a, TheSender(k)) then Sender(SetFlag, t) else s.senders[k])
      && (By(a, TheSender(k)) && s.senders[k].pc == SetFlag ==> t.ch in s'.flags)
  {
    if a.Loop? {
      LoopLeavesSenders(s, a.choice);
    }
    hide LoopStep;
  }

  /** Before the flag is set, it is t's sender that sets it, unless another does. */
  lemma MarkStep(s: State, a: Action, t: Target, h: Process)
    requires Inv(s) && Enabled(s, a) && t.ch !in s.flags && !Certain(s, t) && Helps(s, t, h) && Owed(s, t)
    ensures Moves(s, Apply(s, a), t, h, By(a, h))
  {
    hide Inv, Apply, Enabled, Owed, FlagStage;
    OwedStep(s, a, t);
    assert h.TheSender? && h.j < |s.senders|;
    SetterStep(s, a, t, h.j);
    if k :| 0 <= k < |s.senders| && s.senders[k] == Sender(SetFlag, t) {
      SetterStep(s, a, t, k);
    }
  }

  lemma CertainMoves(s: State, a: Action, t: Target, h: Process)
    requires Inv(s) && Enabled(s, a) && Owed(s, t) && Certain(s, t) && Helps(s, t, h)
    ensures Moves(s, Apply(s, a), t, h, By(a, h))
  {
    assert Apply(s, a).nSig == s.nSig && Apply(s, a).nAsync == s.nAsync;
    hide Inv, Certain, Enabled, Apply, Left, Owed, FlagStage, SomeFor;
    CertainStep(s, a, t);
    OwedStep(s, a, t);
  }

  /** Every honest step brings t nearer or leaves it as far, and the steps that count bring it nearer. */
  lemma StepMoves(s: State, a: Action, t: Target, h: Process)
    requires Inv(s) && Enabled(s, a) && Honest(s, a) && Owed(s, t) && Helps(s, t, h)
    ensures Moves(s, Apply(s, a), t, h, By(a, h))
  {
    assert a.Loop? ==> Apply(s, a) == LoopStep(s, a.choice) && a == Loop(a.choice);
    hide Inv, Certain, Enabled, Apply, Owed, Helps, Moves;
    if Certain(s, t) {
      CertainMoves(s, a, t, h);
    } else if t.ch !in s.flags {
      MarkStep(s, a, t, h);
    } else if a.Loop? {
      LoopFlagStep(s, a.choice, t, h);
    } else {
      SenderFlagStep(s, a, t, h);
    }
  }

  // ---------- Rounds ----------

  lemma HelperRuns(s: State, t: Target, h: Process)
    requires Inv(s) && Owed(s, t) && Helps(s, t, h)
    ensures Runnable(s, h)
  {
  }

  /** As near as before, or nearer. */
  ghost predicate NoFarther(s: State, s': State, t: Target) {
    Nearer(s, s', t) || (Stage(s', t) == Stage(s, t) && Steps(s', Stage(s', t)) == Steps(s, Stage(s, t)))
  }

  lemma {:induction false} RunNoFarther(s: State, acts: seq<Action>, t: Target)
    requires Inv(s) && IsRun(s, acts) && HonestRun(s, acts) && Owed(s, t)
    ensures s.fed <= Exec(s, acts).fed
    ensures t in Exec(s, acts).fed[|s.fed|..] || (Owed(Exec(s, acts), t) && NoFarther(s, Exec(s, acts), t))
    decreases |acts|
  {
    hide Inv, Enabled, Apply, Honest, Owed, Stage, Steps, Helps, Runnable;
    if acts != [] {
      var h := SomeoneHelps(s, t);
      StepMoves(s, acts[0], t, h);
      StepKeepsInv(s, acts[0]);
      FedGrows(s, acts[0]);
      var s' := Apply(s, acts[0]);
      if s'.fed == s.fed + [t] {
        FedStays(s, s', acts[1..], t);
      } else {
        RunNoFarther(s', acts[1..], t);
        if t in Exec(s, acts).fed[|s'.fed|..] { SuffixHas(Exec(s, acts).fed, |s.fed|, |s'.fed|, t); }
      }
    }
  }

  lemma FedStays(s: State, s': State, acts: seq<Action>, t: Target)
    requires s'.fed == s.fed + [t] && IsRun(s', acts)
    ensures s.fed <= Exec(s', acts).fed && t in Exec(s', acts).fed[|s.fed|..]
  {
    ExecFedGrows(s', acts);
    assert Exec(s', acts).fed[|s.fed|..][0] == t;
  }

  /** A stretch in which the process whose turn counts is served feeds t or brings it nearer. */
  lemma {:induction false} ServedIsNearer(s: State, acts: seq<Action>, t: Target, h: Process)
    requires Inv(s) && IsRun(s, acts) && HonestRun(s, acts) && Owed(s, t) && Helps(s, t, h) && Serves(s, acts, h)
    ensures s.fed <= Exec(s, acts).fed
    ensures t in Exec(s, acts).fed[|s.fed|..] || (Owed(Exec(s, acts), t) && Nearer(s, Exec(s, acts), t))
    decreases |acts|
  {
    hide Inv, Enabled, Apply, Honest, Owed, Stage, Steps, Helps, Runnable;
    HelperRuns(s, t, h);
    StepMoves(s, acts[0], t, h);
    StepKeepsInv(s, acts[0]);
    FedGrows(s, acts[0]);
    var s' := Apply(s, acts[0]);
    if s'.fed == s.fed + [t] {
      FedStays(s, s', acts[1..], t);
    } else {
      if Nearer(s, s', t) {
        RunNoFarther(s', acts[1..], t);
      } else {
        ServedIsNearer(s', acts[1..], t, h);
      }
      if t in Exec(s, acts).fed[|s'.fed|..] { SuffixHas(Exec(s, acts).fed, |s.fed|, |s'.fed|, t); }
    }
  }

  /** Stage and steps as one number. */
  ghost function Distance(s: State, t: Target): nat {
    Stage(s, t) * (2 * Pass(s)) + Steps(s, Stage(s, t))
  }

  lemma StepsBelow(s: State, stage: nat)
    requires Control(s)
    ensures Steps(s, stage) < 2 * Pass(s)
  {
  }

  lemma LexDrops(a: nat, x: nat, b: nat, y: nat, w: nat)
    requires y < w
    requires b < a || (b == a && y < x)
    ensures b * w + y < a * w + x
  {
    if b < a {
      assert b * w + w == (b + 1) * w <= a * w;
    }
  }

  lemma NearerIsLess(s: State, s': State, t: Target)
    requires Inv(s) && Inv(s') && Nearer(s, s', t) && s'.nSig == s.nSig && s'.nAsync == s.nAsync
    ensures Distance(s', t) < Distance(s, t)
  {
    StepsBelow(s, Stage(s, t));
    StepsBelow(s', Stage(s', t));
    LexDrops(Stage(s, t), Steps(s, Stage(s, t)), Stage(s', t), Steps(s', Stage(s', t)), 2 * Pass(s));
  }

  lemma DistanceBelow(s: State, t: Target)
    requires Control(s)
    ensures Distance(s, t) < 16 * Pass(s)
  {
    hide Stage, Steps;
    StepsBelow(s, Stage(s, t));
    LexDrops(8, 0, Stage(s, t), Steps(s, Stage(s, t)), 2 * Pass(s));
  }

  /** Every fair round feeds t or brings it nearer, while senders start and finish sends as they like. */
  lemma {:induction false} RoundsFeed(s: State, rounds: seq<seq<Action>>, t: Target)
    requires Inv(s) && Owed(s, t) && Rounds(s, rounds) && |rounds| > Distance(s, t)
    ensures s.fed <= ExecAll(s, rounds).fed && t in ExecAll(s, rounds).fed[|s.fed|..]
    decreases |rounds|
  {
    hide Inv, Owed, Serves, HonestRun, IsRun, Distance, Nearer, Helps, Runnable;
    var acts := rounds[0];
    var s', end := Exec(s, acts), ExecAll(s, rounds);
    var h := SomeoneHelps(s, t);
    ServedIsNearer(s, acts, t, h);
    RunKeepsInv(s, acts);
    ExecKeepsCounts(s, acts);
    ExecAllFedGrows(s', rounds[1..]);
    if t in s'.fed[|s.fed|..] {
      var k :| |s.fed| <= k < |s'.fed| && s'.fed[k] == t;
      assert end.fed[|s.fed|..][k - |s.fed|] == t;
    } else {
      NearerIsLess(s, s', t);
      RoundsFeed(s', rounds[1..], t);
      SuffixHas(end.fed, |s.fed|, |s'.fed|, t);
    }
  }

  lemma {:induction false} ExecAllFedGrows(s: State, rounds: seq<seq<Action>>)
    requires Rounds(s, rounds)
    ensures s.fed <= ExecAll(s, rounds).fed
    decreases |rounds|
  {
    if rounds != [] {
      ExecFedGrows(s, rounds[0]);
      ExecAllFedGrows(Exec(s, rounds[0]), rounds[1..]);
    }
  }

  /** Every send is delivered, also while others keep sending: from any run in which sender j is about to
      make its mark for t, a number of fair rounds that depends only on the number of watchers feeds t. */
  lemma EverySendIsDeliveredFairly(s0: State, before: seq<Action>, j: nat, rounds: seq<seq<Action>>)
    requires Init(s0) && IsRun(s0, before)
    requires var s := Exec(s0, before); j < |s.senders| && s.senders[j].pc == Mark && Rounds(SenderStep(s, j), rounds)
    requires |rounds| >= 48 * s0.nSig + 48 * s0.nAsync + 240
    ensures var s := Exec(s0, before);
      var end := ExecAll(SenderStep(s, j), rounds);
      s.fed <= end.fed && s.senders[j].t in end.fed[|s.fed|..]
  {
    hide Distance, Rounds, ExecAll, IsRun, Exec, MarkCovered, FlagCovered;
    RunKeepsInv(s0, before);
    ExecKeepsCounts(s0, before);
    var s := Exec(s0, before);
    SenderKeepsInv(s, j);
    var marked := SenderStep(s, j);
    DistanceBelow(marked, s.senders[j].t);
    RoundsFeed(marked, rounds, s.senders[j].t);
  }

  // ---------- There are such rounds ----------

  /** A turn for every sender from k on. */
  function Turns(s: State, k: nat): (acts: seq<Action>)
    requires k <= |s.senders|
    ensures IsRun(s, acts) && HonestRun(s, acts)
    decreases |s.senders| - k
  {
    if k == |s.senders| then []
    else if s.senders[k].pc == Idle then Turns(s, k + 1)
    else [Advance(k)] + Turns(SenderStep(s, k), k + 1)
  }

  lemma {:induction false} TurnsServe(s: State, k: nat, j: nat)
    requires k <= j && k <= |s.senders|
    ensures Serves(s, Turns(s, k), TheSender(j))
    decreases |s.senders| - k
  {
    if k < |s.senders| {
      if s.senders[k].pc == Idle {
        TurnsServe(s, k + 1, if j == k then k + 1 else j);
      } else if j > k {
        TurnsServe(SenderStep(s, k), k + 1, j);
      }
    }
  }

  /** In every state a fair round can be run. */
  lemma RoundExists(s: State) returns (acts: seq<Action>)
    ensures Round(s, acts)
  {
    if Blocked(s) {
      acts := Turns(s, 0);
    } else {
      var a := Loop(s.pc.Poll? && s.pipe > 0);
      acts := [a] + Turns(Apply(s, a), 0);
    }
    forall h: Process
      ensures Serves(s, acts, h)
    {
      if h.TheSender? {
        if Blocked(s) { TurnsServe(s, 0, h.j); } else { TurnsServe(Apply(s, acts[0]), 0, h.j); }
      }
    }
  }
}
