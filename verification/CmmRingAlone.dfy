/**
What one side of the ring does while the other is not under way: a whole put and a whole get.
*/
module CmmRingAlone {
  import opened RingCore
  import opened CmmRing
  import opened CmmRingProtocol

  lemma InFront(s: State, a: Action, rest: seq<Action>)
    requires Enabled(s.k, a) && IsRun(Step(s, a), rest)
    ensures IsRun(s, [a] + rest) && Exec(s, [a] + rest) == Exec(Step(s, a), rest)
  {
    assert ([a] + rest)[1..] == rest;
  }

  lemma Nothing(s: State)
    ensures IsRun(s, []) && Exec(s, []) == s
  {
  }

  lemma {:induction false} RunOn(s: State, a: seq<Action>, b: seq<Action>)
    requires IsRun(s, a) && IsRun(Exec(s, a), b)
    ensures IsRun(s, a + b) && Exec(s, a + b) == Exec(Exec(s, a), b)
    decreases a
  {
    hide Enabled, Step;
    if a == [] {
      assert a + b == b;
    } else {
      assert (a + b)[1..] == a[1..] + b;
      RunOn(Step(s, a[0]), a[1..], b);
    }
  }

  // ---------- A get ----------

  /** What the consumer's steps leave alone. */
  predicate SameRest(s: State, s': State) {
    s'.h == s.h.(taken := s'.h.taken) && s'.k == s.k.(c := s'.k.c, nextOut := s'.k.nextOut)
  }

  /** Turns of the loop until n messages are in hand. */
  lemma {:induction false} TurnsTake(s: State, n: nat) returns (acts: seq<Action>)
    requires Inv(s) && (s.k.c.pc == InLoop || s.k.c.pc == PastDummy) && s.h.taken <= n <= |s.h.frames|
    requires s.k.c.pc == PastDummy ==> s.h.taken < n
    ensures IsRun(s, acts) && forall i :: 0 <= i < |acts| ==> acts[i] == CTurn
    ensures var s' := Exec(s, acts);
      Inv(s') && s'.k.c.pc == InLoop && s'.h.taken == n && |s'.k.c.msgs| == n && SameRest(s, s')
    decreases TurnsLeft(s)
  {
    if s.h.taken == n {
      acts := [];
      InHand(s);
    } else {
      GetKeepsInv(s);
      TurnRest(s);
      hide Inv, Step, Enabled;
      var rest := TurnsTake(Step(s, CTurn), n);
      InFront(s, CTurn, rest);
      acts := [CTurn] + rest;
    }
  }

  lemma InHand(s: State)
    requires Inv(s) && s.k.c.pc == InLoop
    ensures |s.k.c.msgs| == s.h.taken
  {
  }

  lemma TurnRest(s: State)
    requires Inv(s) && Enabled(s.k, CTurn)
    ensures var s' := Step(s, CTurn);
      SameRest(s, s') && (s'.k.c.pc == InLoop || s'.k.c.pc == PastDummy)
  {
    hide LayoutOk, ProducerOk, ConsumerOk, Index, IsDummy, HeadCount;
  }

  /** A get of n messages, for any n that are queued: the loop comes to have the n oldest in hand, and completing it
      removes them. */
  lemma GetAlone(s: State, n: nat) returns (acts: seq<Action>)
    requires Inv(s) && s.k.c.pc == Idle && n <= |Queue(s)|
    ensures IsRun(s, acts) && |acts| >= 3 && acts[0] == CBegin && acts[|acts| - 2] == CEnd && acts[|acts| - 1] == CCommit
    ensures forall i :: 0 < i < |acts| - 2 ==> acts[i] == CTurn
    ensures var s' := Exec(s, acts);
      && Inv(s') && s'.k.c.pc == Idle && s'.k.p == s.k.p && s'.h.sent == s.h.sent
      && Queue(s') == Queue(s)[n..] && s'.h.received == s.h.received + Queue(s)[..n]
  {
    StepRefines(s, CBegin);
    var s1 := Step(s, CBegin);
    assert s1.k.c.pc == InLoop && s1.h.taken == 0;
    hide Inv, Frames;
    var turns := TurnsTake(s1, n);
    var s2 := Exec(s1, turns);
    GetEnds(s2, n);
    hide Step, Enabled, IsRun, Exec;
    acts := Call(s, CBegin, turns, CEnd, CCommit);
  }

  lemma GetEnds(s: State, n: nat)
    requires Inv(s) && s.k.c.pc == InLoop && |s.k.c.msgs| == n
    ensures Enabled(s.k, CEnd) && Enabled(Step(s, CEnd).k, CCommit)
    ensures var s' := Step(Step(s, CEnd), CCommit);
      && Inv(s') && s'.k.c.pc == Idle && s'.k.p == s.k.p && s'.h.sent == s.h.sent
      && n <= |Queue(s)| && Queue(s') == Queue(s)[n..] && s'.h.received == s.h.received + Queue(s)[..n]
  {
    StepRefines(s, CEnd);
    hide Inv, Frames;
    var s1 := Step(s, CEnd);
    CommitKeepsInv(s1);
  }

  lemma Call(s: State, a: Action, turns: seq<Action>, b: Action, c: Action) returns (acts: seq<Action>)
    requires Enabled(s.k, a) && IsRun(Step(s, a), turns)
    requires var s2 := Exec(Step(s, a), turns);
      Enabled(s2.k, b) && Enabled(Step(s2, b).k, c)
    ensures acts == [a] + (turns + [b, c]) && IsRun(s, acts)
    ensures Exec(s, acts) == Step(Step(Exec(Step(s, a), turns), b), c)
  {
    var s2 := Exec(Step(s, a), turns);
    Nothing(Step(Step(s2, b), c));
    hide Step, Enabled, IsRun, Exec;
    InFront(Step(s2, b), c, []);
    InFront(s2, b, [c] + []);
    assert [b] + ([c] + []) == [b, c];
    RunOn(Step(s, a), turns, [b, c]);
    InFront(s, a, turns + [b, c]);
    acts := [a] + (turns + [b, c]);
  }

  // ---------- A put ----------

  /** A turn that grants: where the frame's head goes. */
  lemma TurnGrants(s: State, w: nat) returns (at: nat)
    requires Enabled(s.k, PTurn(w)) && Choice(s.k, w) != NoRoom
    ensures var k' := Step(s, PTurn(w)).k;
      && at < |s.k.buf| == |k'.buf| && k' == s.k.(buf := k'.buf, p := k'.p) && k'.p.pc == s.k.p.pc
      && k'.p.msgs == s.k.p.msgs + [(at, w)] && Step(s, PTurn(w)).h.received == s.h.received
  {
    hide Index, Place, Unused, Moved, Wrap;
    at := if Choice(s.k, w).Rewind? then 0 else Index(s.k.p.tmpIn, |s.k.buf|);
  }

  /** The put loop for one frame, and its end. */
  lemma PutTurn(s: State, w: nat) returns (s': State, at: nat)
    requires Inv(s) && s.k.p.pc == Idle && 0 < w < TWO16 && |s.k.buf| > 0
    requires HasRoom(|s.k.buf|, Index(s.k.inCnt, |s.k.buf|), Extent(s.h.frames), w)
    ensures Enabled(s.k, PBegin) && Enabled(Step(s, PBegin).k, PTurn(w))
    ensures Enabled(Step(Step(s, PBegin), PTurn(w)).k, PEnd)
    ensures s' == Step(Step(Step(s, PBegin), PTurn(w)), PEnd) && Inv(s') && s'.k.p.pc == Done && s'.k.p.msgs == [(at, w)]
    ensures at < |s'.k.buf| && Queue(s') == Queue(s) && |Draft(s')| == 1 && |Draft(s')[0]| == w
    ensures s'.k.c == s.k.c && s'.h.received == s.h.received
  {
    StepRefines(s, PBegin);
    var s1 := Step(s, PBegin);
    NothingReserved(s);
    hide HasRoom, Index, Frames;
    PutGrantsIff(s1, w);
    hide Inv, Extent;
    at := TurnGrants(s1, w);
    StepRefines(s1, PTurn(w));
    var s2 := Step(s1, PTurn(w));
    hide Choice, Put;
    StepRefines(s2, PEnd);
    s' := Step(s2, PEnd);
  }

  lemma NothingReserved(s: State)
    requires Inv(s) && s.k.p.pc == Idle
    ensures s.h.rsv == [] && Extent(s.h.rsv) == 0 && Draft(s) == []
  {
  }

  /** The fill callback writes the head; then the frame is published. */
  lemma FillAndPublish(s: State, at: nat, head: nat) returns (s': State)
    requires Inv(s) && s.k.p.pc == Done && s.k.p.msgs == [(at, HeadCount(head))] && !IsDummy(head) && 0 < HeadCount(head)
    requires at < |s.k.buf| && |Draft(s)| == 1 && |Draft(s)[0]| == HeadCount(head)
    ensures Enabled(s.k, PFill(0, 0, head)) && Enabled(Step(s, PFill(0, 0, head)).k, PPublish)
    ensures s' == Step(Step(s, PFill(0, 0, head)), PPublish) && Inv(s') && s'.k.p.pc == Idle
    ensures s'.k.c == s.k.c && s'.h.received == s.h.received
    ensures Queue(s') == Queue(s) + [Draft(s)[0][0 := head]]
  {
    StepRefines(s, PFill(0, 0, head));
    hide Inv, Frames, HeadCount, IsDummy;
    var s1 := Step(s, PFill(0, 0, head));
    assert s1.k.buf == s.k.buf[at := head] && s1.k.p == s.k.p;
    StepRefines(s1, PPublish);
    s' := Step(s1, PPublish);
  }

  /** A put of one frame, wherever the words in use and the index leave room for it: the frame, with the head that was
      written, joins the queue. */
  lemma PutAlone(s: State, head: nat) returns (acts: seq<Action>)
    requires Inv(s) && s.k.p.pc == Idle && !IsDummy(head) && 0 < HeadCount(head) < TWO16 && |s.k.buf| > 0
    requires HasRoom(|s.k.buf|, Index(s.k.inCnt, |s.k.buf|), Extent(s.h.frames), HeadCount(head))
    ensures acts == [PBegin, PTurn(HeadCount(head)), PEnd, PFill(0, 0, head), PPublish] && IsRun(s, acts)
    ensures var s' := Exec(s, acts);
      && Inv(s') && s'.k.p.pc == Idle && s'.k.c == s.k.c && s'.h.received == s.h.received
      && |Queue(s')| == |Queue(s)| + 1 && Queue(s')[..|Queue(s)|] == Queue(s)
      && |Queue(s')[|Queue(s)|]| == HeadCount(head) && Queue(s')[|Queue(s)|][0] == head
  {
    var w := HeadCount(head);
    var s3, at := PutTurn(s, w);
    var s5 := FillAndPublish(s3, at, head);
    hide Inv, HasRoom, Index, Extent, HeadCount, IsDummy, Frames, Step, Enabled, IsRun, Exec;
    acts := Five(s, PBegin, PTurn(w), PEnd, PFill(0, 0, head), PPublish);
  }

  lemma Five(s: State, a: Action, b: Action, c: Action, d: Action, e: Action) returns (acts: seq<Action>)
    requires Enabled(s.k, a) && Enabled(Step(s, a).k, b) && Enabled(Step(Step(s, a), b).k, c)
    requires var s3 := Step(Step(Step(s, a), b), c);
      Enabled(s3.k, d) && Enabled(Step(s3, d).k, e)
    ensures acts == [a, b, c, d, e] && IsRun(s, acts)
    ensures Exec(s, acts) == Step(Step(Step(Step(Step(s, a), b), c), d), e)
  {
    var s1 := Step(s, a);
    var s2 := Step(s1, b);
    var s3 := Step(s2, c);
    var s4 := Step(s3, d);
    Nothing(Step(s4, e));
    hide Step, Enabled, IsRun, Exec;
    InFront(s4, e, []);
    InFront(s3, d, [e] + []);
    InFront(s2, c, [d] + ([e] + []));
    InFront(s1, b, [c] + ([d] + ([e] + [])));
    InFront(s, a, [b] + ([c] + ([d] + ([e] + []))));
    acts := [a] + ([b] + ([c] + ([d] + ([e] + []))));
  }
}
