/** Lazy cancellation: a stopped timer keeps travelling, but nobody ever receives it. */
module Cancellation {
  import opened Bags
  import opened Words
  import opened Deltas
  import opened Machine
  import opened Conservation
  import opened Places

  /** No thread has `b` in hand and it is not free: it travels. */
  predicate Away(s: State, b: Buf) {
    NotFree(s.free, b) && NotHeld(s.agents, b)
  }

  predicate Cancelled(s: State, b: Buf) {
    b < |s.code| && s.code[b] == DISCARDED && Away(s, b)
  }

  /** The step hands message `b` to a thread; the step gives a dropped `b` back. */
  predicate Delivers(s: State, act: Action, b: Buf) {
    && act.Check? && act.a < |s.agents| && s.agents[act.a].phase.Popped?
    && s.agents[act.a].phase.b == b && b < |s.code| && s.code[b] != DISCARDED
  }

  predicate Reclaims(s: State, act: Action, b: Buf) {
    && act.Drop? && act.a < |s.agents| && s.agents[act.a].phase.Dropping? && s.agents[act.a].phase.b == b
  }

  /** Every live handle names a travelling, uncancelled message. */
  predicate Live(s: State, b: Buf) {
    b < |s.code| && s.code[b] != DISCARDED && Away(s, b)
  }

  predicate HandlesLive(s: State) {
    forall b <- s.armed :: Live(s, b)
  }

  /** A message being dropped is a cancelled one. */
  predicate DropsCancelled(s: State) {
    forall a :: 0 <= a < |s.agents| && s.agents[a].phase.Dropping? ==>
      s.agents[a].phase.b < |s.code| && s.code[s.agents[a].phase.b] == DISCARDED
  }

  predicate NotFree(free: seq<seq<Buf>>, b: Buf) {
    forall i :: 0 <= i < |free| ==> b !in free[i]
  }

  predicate NotHeld(agents: seq<Agent>, b: Buf) {
    forall a :: 0 <= a < |agents| ==> b !in agents[a].hand
  }

  lemma StepNotFree(c: Config, s: State, act: Action, b: Buf)
    requires CanStep(c, s, act) && Away(s, b) && !Reclaims(s, act, b)
    ensures NotFree(Apply(c, s, act).free, b)
  {
    hide Insert, Place, Known, TickShaped;
  }

  lemma StepNotHeld(c: Config, s: State, act: Action, b: Buf)
    requires CanStep(c, s, act) && Away(s, b) && !Delivers(s, act, b)
    ensures NotHeld(Apply(c, s, act).agents, b)
  {
    hide Apply, Enabled, Delivers, Reclaims;
    StepShaped(c, s, act);
    var t := Apply(c, s, act);
    forall a | 0 <= a < |t.agents|
      ensures b !in t.agents[a].hand
    {
      if ByOther(act, a) {
        ByOtherKeeps(c, s, act, a);
      } else {
        ActingNotHeld(c, s, act, a, b);
      }
    }
  }

  lemma ActingNotHeld(c: Config, s: State, act: Action, a: nat, b: Buf)
    requires CanStep(c, s, act) && Away(s, b) && !Delivers(s, act, b) && !ByOther(act, a) && a < |s.agents|
    ensures a < |Apply(c, s, act).agents| && b !in Apply(c, s, act).agents[a].hand
  {
    hide Insert, Place, Known, TickShaped;
    assert act.a == a;
  }

  /** A step cannot bring a travelling buffer into a hand except by delivering it, nor
      into a free queue except by dropping it. */
  lemma StepAway(c: Config, s: State, act: Action, b: Buf)
    requires CanStep(c, s, act) && Away(s, b) && !Delivers(s, act, b) && !Reclaims(s, act, b)
    ensures Away(Apply(c, s, act), b)
  {
    hide Apply, Delivers, Reclaims;
    StepNotFree(c, s, act, b);
    StepNotHeld(c, s, act, b);
  }

  lemma StepCancelled(c: Config, s: State, act: Action, b: Buf)
    requires CanStep(c, s, act) && Cancelled(s, b)
    ensures !Delivers(s, act, b)
    ensures Reclaims(s, act, b) || Cancelled(Apply(c, s, act), b)
  {
    hide Insert, Place, Known, TickShaped;
    if !Reclaims(s, act, b) {
      StepAway(c, s, act, b);
    }
  }

  /** Along the run nobody receives `b` until it has gone back to the pool. */
  predicate Silent(c: Config, s: State, acts: seq<Action>, b: Buf)
    requires Runs(c, s, acts)
    decreases |acts|
  {
    acts == [] || (
      && !Delivers(s, acts[0], b)
      && (forall a :: 0 <= a < |s.agents| ==> b !in s.agents[a].hand)
      && (Reclaims(s, acts[0], b) || Silent(c, Apply(c, s, acts[0]), acts[1..], b)))
  }

  lemma {:induction false} CancelledIsSilent(c: Config, s: State, acts: seq<Action>, b: Buf)
    requires Runs(c, s, acts) && Cancelled(s, b)
    ensures Silent(c, s, acts, b)
    decreases |acts|
  {
    hide Apply, Shaped, Enabled, Delivers, Reclaims;
    if acts != [] {
      StepCancelled(c, s, acts[0], b);
      if !Reclaims(s, acts[0], b) {
        CancelledIsSilent(c, Apply(c, s, acts[0]), acts[1..], b);
      }
    }
  }

  // ---------- the handles ----------

  lemma StartedIsAway(c: Config, s: State, a: nat, b: Buf, m: nat, count: nat)
    requires CanStep(c, s, Start(a, b, m, count)) && Conserved(c, s) && b < |s.code| && s.code[b] != DISCARDED
    ensures Live(Apply(c, s, Start(a, b, m, count)), b)
  {
    hide Insert, Place, Known, TickShaped, AgentShaped, Conserved;
    OwnedAlone(c, s, a, b);
    var t := Apply(c, s, Start(a, b, m, count));
    forall x | 0 <= x < |t.agents|
      ensures b !in t.agents[x].hand
    {
      assert t.agents[x] == if x == a then Agent(Idle, s.agents[a].hand - multiset{b}) else s.agents[x];
      assert AgentBag(s.agents[x]) >= s.agents[x].hand;
    }
  }

  lemma StepLive(c: Config, s: State, act: Action, b: Buf)
    requires CanStep(c, s, act) && HandlesLive(s) && DropsCancelled(s) && b in s.armed
    ensures b in Apply(c, s, act).armed ==> Live(Apply(c, s, act), b)
  {
    hide Insert, Place, Known, TickShaped;
    assert Live(s, b);
    if b in Apply(c, s, act).armed {
      assert !Delivers(s, act, b);
      StepAway(c, s, act, b);
    }
  }

  lemma StepHandles(c: Config, s: State, act: Action)
    requires CanStep(c, s, act) && Conserved(c, s) && HandlesLive(s) && DropsCancelled(s)
    ensures HandlesLive(Apply(c, s, act))
  {
    hide Live, Conserved, DropsCancelled, Insert, Place, Known, TickShaped;
    forall b <- Apply(c, s, act).armed
      ensures Live(Apply(c, s, act), b)
    {
      if b in s.armed {
        StepLive(c, s, act, b);
      } else {
        StartedIsAway(c, s, act.a, b, act.m, act.count);
      }
    }
  }

  lemma WriteSparesDropped(c: Config, s: State, a: nat, b: Buf, code: uint16)
    requires CanStep(c, s, Write(a, b, code)) && Conserved(c, s) && DropsCancelled(s)
    ensures DropsCancelled(Apply(c, s, Write(a, b, code)))
  {
    hide Conserved, Known, TickShaped;
    OwnedAlone(c, s, a, b);
    forall x | 0 <= x < |s.agents| && s.agents[x].phase.Dropping?
      ensures s.agents[x].phase.b != b
    {
      assert s.agents[x].phase.b in AgentBag(s.agents[x]);
    }
  }

  lemma CheckDrops(c: Config, s: State, a: nat)
    requires CanStep(c, s, Check(a)) && DropsCancelled(s)
    ensures DropsCancelled(Apply(c, s, Check(a)))
  {
    hide Known, TickShaped;
  }

  lemma StepDrops(c: Config, s: State, act: Action)
    requires CanStep(c, s, act) && Conserved(c, s) && DropsCancelled(s)
    ensures DropsCancelled(Apply(c, s, act))
  {
    hide Conserved, Insert, Place, Known, TickShaped, AgentShaped;
    match act
    case Write(a, b, code) => WriteSparesDropped(c, s, a, b, code);
    case Check(a) => CheckDrops(c, s, a);
    case _ =>
  }

  predicate Sound(c: Config, s: State) {
    Conserved(c, s) && HandlesLive(s) && DropsCancelled(s)
  }

  lemma StepSound(c: Config, s: State, act: Action)
    requires CanStep(c, s, act) && Sound(c, s)
    ensures Sound(c, Apply(c, s, act))
  {
    hide Conserved, HandlesLive, DropsCancelled, Shaped, Enabled, Apply;
    StepConserves(c, s, act);
    StepHandles(c, s, act);
    StepDrops(c, s, act);
  }

  lemma {:induction false} RunSound(c: Config, s: State, acts: seq<Action>)
    requires Runs(c, s, acts) && Sound(c, s)
    ensures Sound(c, Exec(c, s, acts))
    decreases |acts|
  {
    hide Conserved, HandlesLive, DropsCancelled, Apply, Enabled, Shaped;
    if acts != [] {
      StepSound(c, s, acts[0]);
      RunSound(c, Apply(c, s, acts[0]), acts[1..]);
    }
  }

  lemma ReachableSound(c: Config, acts: seq<Action>)
    requires Sane(c) && Runs(c, Init(c), acts)
    ensures Sound(c, Exec(c, Init(c), acts))
  {
    hide Conserved, Apply;
    InitConserves(c);
    RunSound(c, Init(c), acts);
  }

  /** After StopTimer on a live handle, in any reachable state and under any schedule, no
      thread receives the timer's message before its buffer is back in the pool. */
  lemma StoppedNeverDelivered(c: Config, before: seq<Action>, b: Buf, after: seq<Action>)
    requires Sane(c) && Runs(c, Init(c), before) && CanStep(c, Exec(c, Init(c), before), Stop(b))
    requires var s := Exec(c, Init(c), before); Runs(c, Apply(c, s, Stop(b)), after)
    ensures var s := Exec(c, Init(c), before); Silent(c, Apply(c, s, Stop(b)), after, b)
  {
    hide Conserved, Enabled, Shaped, Runs;
    ReachableSound(c, before);
    var s := Exec(c, Init(c), before);
    StopCancels(c, s, b);
    CancelledIsSilent(c, Apply(c, s, Stop(b)), after, b);
  }

  lemma StopCancels(c: Config, s: State, b: Buf)
    requires CanStep(c, s, Stop(b)) && HandlesLive(s)
    ensures Cancelled(Apply(c, s, Stop(b)), b)
  {
    assert Live(s, b);
  }

  // ---------- what a running timer is ----------

  /** Where a message is that a thread has yet to read: in the timer list, in the handler's
      hand, in a mailbox, or unlinked with its code not read. */
  predicate ToCome(s: State, b: Buf) {
    || (exists i :: 0 <= i < |s.timers| && s.timers[i].buf == b)
    || (s.tick.Carrying? && s.tick.e.buf == b)
    || (exists m :: 0 <= m < |s.mbox| && b in s.mbox[m])
    || (exists a :: 0 <= a < |s.agents| && s.agents[a].phase.Popped? && s.agents[a].phase.b == b)
  }

  /** TimerRunning says so of it. */
  predicate RunsOnCode(s: State, b: Buf) {
    b < |s.code| && s.code[b] != DISCARDED
  }

  predicate Ticking(s: State, b: Buf) {
    (exists i :: 0 <= i < |s.timers| && s.timers[i].buf == b) || (s.tick.Carrying? && s.tick.e.buf == b)
  }

  /** A timer that has not expired runs only as somebody's handle. */
  predicate RunningArmed(s: State) {
    forall b :: 0 <= b < |s.code| && Ticking(s, b) && RunsOnCode(s, b) ==> b in s.armed
  }

  lemma PoppedAlone(c: Config, s: State, a: nat)
    requires Conserved(c, s) && a < |s.agents| && s.agents[a].phase.Popped?
    ensures !Ticking(s, s.agents[a].phase.b)
  {
    hide Contents, Union, Hands, Bufs;
    var b := s.agents[a].phase.b;
    BelowCounts(|c.size|);
    UnionHolds(Hands(s.agents), a);
    assert Hands(s.agents)[a] == AgentBag(s.agents[a]);
    assert Union(Hands(s.agents))[b] >= 1;
    assert Total(s)[b] <= 1;
    assert b !in multiset(Bufs(s.timers));
    forall i | 0 <= i < |s.timers|
      ensures s.timers[i].buf != b
    {
      assert Bufs(s.timers)[i] in multiset(Bufs(s.timers));
    }
  }

  lemma HeldTicksNot(c: Config, s: State, a: nat, b: Buf)
    requires Conserved(c, s) && Owns(s, a, b)
    ensures !Ticking(s, b)
  {
    OwnedAlone(c, s, a, b);
  }

  /** Only a start brings a message into the timer list. */
  lemma StepTicking(c: Config, s: State, act: Action, b: Buf)
    requires CanStep(c, s, act) && Ticking(Apply(c, s, act), b)
    ensures Ticking(s, b) || (act.Start? && act.b == b)
  {
    hide Insert, Place, Known, TickShaped, AgentShaped;
    var t := Apply(c, s, act);
    if i :| 0 <= i < |t.timers| && t.timers[i].buf == b {
      assert act.Start? || t.timers[i] in s.timers;
      assert act.Start? && act.b != b ==> t.timers[i] in s.timers;
    }
  }

  /** What a step writes to a message in the timer list, and to the handles, agrees. */
  lemma StepWrites(c: Config, s: State, act: Action, b: Buf)
    requires CanStep(c, s, act) && Conserved(c, s) && Ticking(s, b) && b < |c.size|
    ensures var t := Apply(c, s, act); RunsOnCode(t, b) ==> RunsOnCode(s, b) && (b in s.armed ==> b in t.armed)
  {
    hide Conserved, Ticking, Insert, Place, Known, TickShaped, AgentShaped;
    if act.Write? {
      HeldTicksNot(c, s, act.a, act.b);
    } else if act.Check? {
      PoppedAlone(c, s, act.a);
    }
  }

  lemma StartArms(c: Config, s: State, a: nat, b: Buf, m: nat, count: nat)
    requires CanStep(c, s, Start(a, b, m, count)) && b < |c.size|
    ensures var t := Apply(c, s, Start(a, b, m, count)); RunsOnCode(t, b) ==> b in t.armed
  {
    hide Insert, Place, Known, TickShaped, AgentShaped;
  }

  lemma StepRunning(c: Config, s: State, act: Action)
    requires CanStep(c, s, act) && Conserved(c, s) && RunningArmed(s)
    ensures RunningArmed(Apply(c, s, act))
  {
    hide Conserved, Ticking, RunsOnCode, Apply, Enabled;
    StepShaped(c, s, act);
    var t := Apply(c, s, act);
    forall b | 0 <= b < |t.code| && Ticking(t, b) && RunsOnCode(t, b)
      ensures b in t.armed
    {
      if act.Start? && act.b == b {
        StartArms(c, s, act.a, b, act.m, act.count);
      } else {
        StepTicking(c, s, act, b);
        StepWrites(c, s, act, b);
      }
    }
  }

  lemma {:induction false} RunRunning(c: Config, s: State, acts: seq<Action>)
    requires Runs(c, s, acts) && Conserved(c, s) && RunningArmed(s)
    ensures RunningArmed(Exec(c, s, acts))
    decreases |acts|
  {
    hide Conserved, RunningArmed, Apply, Enabled, Shaped;
    if acts != [] {
      StepConserves(c, s, acts[0]);
      StepRunning(c, s, acts[0]);
      RunRunning(c, Apply(c, s, acts[0]), acts[1..]);
    }
  }

  /** A buffer that is neither free nor in hand is on its way, unless it is being dropped. */
  lemma AwayIsToCome(c: Config, s: State, b: Buf)
    requires Sound(c, s) && Live(s, b) && b < |c.size|
    ensures ToCome(s, b)
  {
    hide Shaped, Pure, HandlesLive;
    BelowCounts(|c.size|);
    assert Total(s)[b] == 1;
    if b in Contents(s.free) {
      var i := UnionFinds(Queues(s.free), b);
    } else if b in Contents(s.mbox) {
      var m := UnionFinds(Queues(s.mbox), b);
      assert b in s.mbox[m];
    } else if b in multiset(Bufs(s.timers)) {
      var i :| 0 <= i < |s.timers| && Bufs(s.timers)[i] == b;
      assert s.timers[i].buf == b;
    } else if b in Union(Hands(s.agents)) {
      var a := UnionFinds(Hands(s.agents), b);
      assert b in AgentBag(s.agents[a]);
    }
  }

  /** What TimerRunning tells an automate, in every reachable state. Of a handle it keeps: the
      timer runs, and its message is still to come. Of a message in the timer list: it runs
      exactly if it is such a handle. */
  lemma RunningIffArmed(c: Config, acts: seq<Action>, b: Buf)
    requires Sane(c) && Runs(c, Init(c), acts) && b < |c.size|
    ensures var s := Exec(c, Init(c), acts); b in s.armed ==> RunsOnCode(s, b) && ToCome(s, b)
    ensures var s := Exec(c, Init(c), acts); Ticking(s, b) ==> (RunsOnCode(s, b) <==> b in s.armed)
  {
    hide Conserved, DropsCancelled, ToCome, Apply, Enabled, Shaped;
    InitConserves(c);
    ReachableSound(c, acts);
    assert RunningArmed(Init(c));
    RunRunning(c, Init(c), acts);
    var s := Exec(c, Init(c), acts);
    if b in s.armed {
      assert Live(s, b);
      AwayIsToCome(c, s, b);
    }
  }
}
