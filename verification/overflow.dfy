/** The semaphore cap of 10000 is exactly how large the pool may be. */
module Overflow {
  import opened Bags
  import opened Mail
  import opened Deltas
  import opened Machine
  import opened Conservation
  import opened WakeUps

  /** `k` messages were posted to mailbox 0 and nothing else is going on. */
  predicate Resting(c: Config, s: State, k: nat) {
    && Conserved(c, s) && c.boxes > 0 && c.agents > 0
    && (forall a :: 0 <= a < c.agents ==> s.agents[a] == Agent(Idle, multiset{}))
    && s.tick == Off && s.timers == []
    && (forall b :: 0 <= b < |c.size| ==> s.code[b] == 0)
    && |s.mbox[0]| == k && |Contents(s.mbox)| == k
    && s.sem[0] == if k < SEMAPHORE_CAP then k else SEMAPHORE_CAP
  }

  /** While not everything was posted, some buffer is free. */
  lemma FreeLeft(c: Config, s: State, k: nat) returns (i: nat)
    requires Resting(c, s, k) && k < |c.size|
    ensures i < c.classes && s.free[i] != []
  {
    UnionEmpty(Hands(s.agents));
    assert Bufs(s.timers) == [];
    BelowSize(|c.size|);
    assert Total(s) == Contents(s.free) + Contents(s.mbox);
    var b :| b in Contents(s.free);
    i := UnionFinds(Queues(s.free), b);
  }

  lemma Round(c: Config, s: State, k: nat) returns (acts: seq<Action>)
    requires Resting(c, s, k) && k < |c.size|
    ensures Runs(c, s, acts) && Resting(c, Exec(c, s, acts), k + 1)
  {
    hide Total, Pure, Contents, TickShaped;
    var i := FreeLeft(c, s, k);
    var b := s.free[i][0];
    var one, two, three := Acquire(0, i), Link(0, b, 0), Release(0);
    StepConserves(c, s, one);
    var s1 := Apply(c, s, one);
    StepConserves(c, s1, two);
    var s2 := Apply(c, s1, two);
    StepConserves(c, s2, three);
    var s3 := Apply(c, s2, three);
    Append(s.mbox, 0, b);
    RunOfOne(c, s, one);
    RunsOn(c, s, [one], two);
    RunsOn(c, s, [one] + [two], three);
    acts := [one] + [two] + [three];
  }

  lemma InitRests(c: Config)
    requires Sane(c) && c.boxes > 0 && c.agents > 0
    ensures Resting(c, Init(c), 0)
  {
    InitConserves(c);
    EmptyHolds(Init(c).mbox);
  }

  lemma {:induction false} FillMailbox(c: Config, k: nat) returns (acts: seq<Action>)
    requires Sane(c) && c.boxes > 0 && c.agents > 0 && k <= |c.size|
    ensures Runs(c, Init(c), acts) && Resting(c, Exec(c, Init(c), acts), k)
  {
    if k == 0 {
      acts := [];
      InitRests(c);
    } else {
      var before := FillMailbox(c, k - 1);
      var last := Round(c, Exec(c, Init(c), before), k - 1);
      RunsAppend(c, Init(c), before, last);
      acts := before + last;
    }
  }

  // ---------- a wake-up is lost ----------

  /** Mailbox `m` holds a message and a wait for it blocks, although no post is half done and
      nobody is on the way to dequeue. */
  predicate LostAt(s: State, m: nat) {
    && m < |s.mbox| == |s.sem| && s.mbox[m] != [] && s.sem[m] == 0
    && s.tick != Posted(m)
    && forall a :: 0 <= a < |s.agents| ==> s.agents[a].phase != Woken(m) && s.agents[a].phase != Posting(m)
  }

  predicate Lost(s: State) {
    exists m :: 0 <= m < |s.mbox| && LostAt(s, m)
  }

  lemma CoveredIsNotLost(c: Config, s: State)
    requires Shaped(c, s) && Covered(s)
    ensures !Lost(s)
  {
    forall m | 0 <= m < |s.mbox|
      ensures !LostAt(s, m)
    {
      if s.mbox[m] != [] && s.sem[m] == 0 {
        var a := BlockedOnlyWhilePending(c, s, m);
      }
    }
  }

  /** One message too many is in mailbox 0, `k` wake-ups are left, and all is quiet. */
  predicate Emptying(c: Config, s: State, k: nat) {
    && Shaped(c, s) && c.boxes > 0 && c.agents > 0
    && (forall a :: 0 <= a < c.agents ==> s.agents[a].phase == Idle)
    && s.tick == Off && |s.mbox[0]| == k + 1 && s.sem[0] == k
    && (forall b :: 0 <= b < |c.size| ==> s.code[b] == 0)
  }

  /** Thread 0 waits for a wake-up and receives one message. */
  lemma Receive(c: Config, s: State, k: nat) returns (acts: seq<Action>)
    requires Emptying(c, s, k) && k > 0
    ensures Runs(c, s, acts) && Emptying(c, Exec(c, s, acts), k - 1)
  {
    hide TickShaped, Known;
    var one, two, three := Wait(0, 0), Pop(0), Check(0);
    StepShaped(c, s, one);
    var s1 := Apply(c, s, one);
    StepShaped(c, s1, two);
    var s2 := Apply(c, s1, two);
    StepShaped(c, s2, three);
    RunOfOne(c, s, one);
    RunsOn(c, s, [one], two);
    RunsOn(c, s, [one] + [two], three);
    acts := [one] + [two] + [three];
  }

  lemma {:induction false} ReceiveAll(c: Config, s: State, k: nat) returns (acts: seq<Action>)
    requires Emptying(c, s, k)
    ensures Runs(c, s, acts) && Emptying(c, Exec(c, s, acts), 0)
    decreases k
  {
    hide Emptying;
    if k == 0 {
      acts := [];
    } else {
      var first := Receive(c, s, k);
      var rest := ReceiveAll(c, Exec(c, s, first), k - 1);
      RunsAppend(c, s, first, rest);
      acts := first + rest;
    }
  }

  /** Lost, and no thread is anywhere in a Get on the mailbox. */
  predicate Stranded(s: State, m: nat) {
    LostAt(s, m) && forall a :: 0 <= a < |s.agents| ==> !InGet(s.agents[a].phase, m)
  }

  lemma StepStranded(c: Config, s: State, act: Action, m: nat)
    requires CanStep(c, s, act) && m < c.boxes && !(act.Poll? && act.m == m)
    ensures var t := Apply(c, s, act);
            && m < |t.linked| && |t.linked[m]| >= |s.linked[m]|
            && (Stranded(s, m) && |t.linked[m]| == |s.linked[m]| ==> Stranded(t, m))
  {
    hide Apply, Enabled, InGet;
    StepShaped(c, s, act);
    StepLinks(c, s, act, m);
    var t := Apply(c, s, act);
    if Stranded(s, m) && |t.linked[m]| == |s.linked[m]| {
      forall a | 0 <= a < |t.agents|
        ensures !InGet(t.agents[a].phase, m) && t.agents[a].phase != Posting(m) && t.agents[a].phase != Woken(m)
      {
        StepStaysOut(c, s, act, m, a);
        NotWoken(t.agents[a].phase, m);
      }
      StepStaysFull(c, s, act, m);
    }
  }

  lemma NotWoken(phase: Phase, m: nat)
    requires !InGet(phase, m)
    ensures phase != Woken(m)
  {
  }

  lemma StepLinks(c: Config, s: State, act: Action, m: nat)
    requires CanStep(c, s, act) && m < c.boxes
    ensures var t := Apply(c, s, act); m < |t.linked| && |t.linked[m]| >= |s.linked[m]|
  {
    hide Known, AgentShaped, Insert, Place;
  }

  lemma StepStaysOut(c: Config, s: State, act: Action, m: nat, a: nat)
    requires CanStep(c, s, act) && Stranded(s, m) && !(act.Poll? && act.m == m) && a < |s.agents|
    requires m < |Apply(c, s, act).linked| && |Apply(c, s, act).linked[m]| == |s.linked[m]|
    ensures a < |Apply(c, s, act).agents| && !InGet(Apply(c, s, act).agents[a].phase, m)
    ensures Apply(c, s, act).agents[a].phase != Posting(m)
  {
    if ByOther(act, a) {
      hide Apply, Enabled, Shaped;
      ByOtherKeeps(c, s, act, a);
    } else {
      hide Known, TickShaped, AgentShaped, Insert, Place;
      assert act.a == a;
    }
  }

  lemma StepStaysFull(c: Config, s: State, act: Action, m: nat)
    requires CanStep(c, s, act) && m < c.boxes && Stranded(s, m) && Shaped(c, Apply(c, s, act))
    requires |Apply(c, s, act).linked[m]| == |s.linked[m]|
    ensures var t := Apply(c, s, act); t.mbox[m] != [] && t.sem[m] == 0 && t.tick != Posted(m)
  {
    hide Known, AgentShaped, Insert, Place;
  }

  /** For good: in any run in which nobody polls the mailbox and nothing more is posted to it,
      every wait for it goes on blocking. */
  lemma {:induction false} StrandedForGood(c: Config, s: State, acts: seq<Action>, m: nat)
    requires Runs(c, s, acts) && Shaped(c, s) && m < c.boxes
    requires forall i :: 0 <= i < |acts| && acts[i].Poll? ==> acts[i].m != m
    ensures var t := Exec(c, s, acts);
            && m < |t.linked| && |t.linked[m]| >= |s.linked[m]|
            && (Stranded(s, m) && |t.linked[m]| == |s.linked[m]| ==> Stranded(t, m))
    decreases |acts|
  {
    hide Apply, Enabled, Stranded;
    if acts != [] {
      StepStranded(c, s, acts[0], m);
      StepShaped(c, s, acts[0]);
      StrandedForGood(c, Apply(c, s, acts[0]), acts[1..], m);
    }
  }

  /** Beyond the cap: post 10001 messages, receive 10000, and the last one is stranded. */
  lemma MessageStranded(c: Config) returns (acts: seq<Action>)
    requires Sane(c) && c.boxes > 0 && c.agents > 0 && |c.size| > SEMAPHORE_CAP
    ensures Runs(c, Init(c), acts) && Stranded(Exec(c, Init(c), acts), 0)
  {
    var posts := FillMailbox(c, SEMAPHORE_CAP + 1);
    var s := Exec(c, Init(c), posts);
    RestingEmpties(c, s);
    var gets := ReceiveAll(c, s, SEMAPHORE_CAP);
    RunsAppend(c, Init(c), posts, gets);
    acts := posts + gets;
    EmptiedIsLost(c, Exec(c, s, gets));
  }

  lemma RestingEmpties(c: Config, s: State)
    requires Resting(c, s, SEMAPHORE_CAP + 1)
    ensures Emptying(c, s, SEMAPHORE_CAP)
  {
  }

  lemma EmptiedIsLost(c: Config, s: State)
    requires Emptying(c, s, 0)
    ensures Stranded(s, 0)
  {
  }

  lemma StrandedIsLost(s: State, m: nat)
    requires Stranded(s, m)
    ensures Lost(s)
  {
  }

  /** No wake-up is lost in any run, exactly when the pool has at most 10000 buffers. */
  lemma NoLostWakeUpIff(c: Config)
    requires Sane(c) && c.boxes > 0 && c.agents > 0
    ensures (forall acts :: Runs(c, Init(c), acts) ==> !Lost(Exec(c, Init(c), acts))) <==> |c.size| <= SEMAPHORE_CAP
  {
    hide Covered, Lost, Shaped, Conserved;
    if |c.size| <= SEMAPHORE_CAP {
      forall acts | Runs(c, Init(c), acts)
        ensures !Lost(Exec(c, Init(c), acts))
      {
        RunNeverLost(c, acts);
      }
    } else {
      var acts := MessageStranded(c);
      StrandedIsLost(Exec(c, Init(c), acts), 0);
      assert Runs(c, Init(c), acts) && Lost(Exec(c, Init(c), acts));
    }
  }

  lemma RunNeverLost(c: Config, acts: seq<Action>)
    requires Sane(c) && Runs(c, Init(c), acts) && |c.size| <= SEMAPHORE_CAP
    ensures !Lost(Exec(c, Init(c), acts))
  {
    hide Covered, Lost, Apply, Enabled;
    InitConserves(c);
    InitCovers(c);
    RunCovers(c, Init(c), acts);
    CoveredIsNotLost(c, Exec(c, Init(c), acts));
  }
}
