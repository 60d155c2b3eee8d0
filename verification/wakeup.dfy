/** No lost wake-up: a mailbox never holds more messages than its semaphore, the posts
    that are half done and the dequeues that are due account for. */
module WakeUps {
  import opened Bags
  import opened Deltas
  import opened Mail
  import opened Machine
  import opened Conservation

  /** A thread between the halves of Add, or between a wait and its dequeue, is worth one
      count of that mailbox. */
  function Credit(phase: Phase): multiset<nat> {
    match phase
    case Woken(m) => multiset{m}
    case Posting(m) => multiset{m}
    case _ => multiset{}
  }

  function ThreadCredits(agents: seq<Agent>): (r: seq<multiset<nat>>)
    ensures |r| == |agents|
    ensures forall a :: 0 <= a < |agents| ==> r[a] == Credit(agents[a].phase)
  {
    seq(|agents|, a requires 0 <= a < |agents| => Credit(agents[a].phase))
  }

  function TickCredit(tick: Tick): multiset<nat> {
    if tick.Posted? then multiset{tick.m} else multiset{}
  }

  function Credits(agents: seq<Agent>, tick: Tick): multiset<nat> {
    Union(ThreadCredits(agents)) + TickCredit(tick)
  }

  predicate CoveredBy(mbox: seq<seq<Buf>>, sem: seq<nat>, credits: multiset<nat>) {
    |mbox| == |sem| && forall m :: 0 <= m < |mbox| ==> |mbox[m]| <= sem[m] + credits[m]
  }

  predicate Covered(s: State) {
    CoveredBy(s.mbox, s.sem, Credits(s.agents, s.tick))
  }

  /** A mailbox cannot hold more than the whole pool. */
  lemma MailboxFits(c: Config, s: State, m: nat)
    requires Conserved(c, s) && m < |s.mbox|
    ensures |s.mbox[m]| <= |c.size|
  {
    UnionHolds(Queues(s.mbox), m);
    var part, all := multiset(s.mbox[m]), Total(s);
    assert part <= all;
    assert all == part + (all - part);
    BelowSize(|c.size|);
    assert |part| == |s.mbox[m]|;
  }

  lemma PoolWithinCap(c: Config, s: State)
    requires Conserved(c, s) && |c.size| <= SEMAPHORE_CAP
    ensures WithinCap(s.mbox)
  {
    forall m | 0 <= m < |s.mbox|
      ensures |s.mbox[m]| <= SEMAPHORE_CAP
    {
      MailboxFits(c, s, m);
    }
  }

  predicate WithinCap(mbox: seq<seq<Buf>>) {
    forall m :: 0 <= m < |mbox| ==> |mbox[m]| <= SEMAPHORE_CAP
  }

  lemma MovedCredits(s: State, a: nat, phase: Phase, hand: multiset<Buf>)
    requires a < |s.agents|
    ensures Credits(Moved(s, a, phase, hand).agents, s.tick) + Credit(s.agents[a].phase)
         == Credits(s.agents, s.tick) + Credit(phase)
  {
    var x := Agent(phase, hand);
    UnionUpdate(ThreadCredits(s.agents), a, Credit(phase));
    assert ThreadCredits(s.agents[a := x]) == ThreadCredits(s.agents)[a := Credit(phase)];
    var was, now := Union(ThreadCredits(s.agents)), Union(ThreadCredits(s.agents[a := x]));
    assert now + TickCredit(s.tick) + Credit(s.agents[a].phase) == now + Credit(s.agents[a].phase) + TickCredit(s.tick);
    assert was + TickCredit(s.tick) + Credit(phase) == was + Credit(phase) + TickCredit(s.tick);
  }

  // ---------- what each kind of step does to the account ----------

  lemma Quiet(s: State, a: nat, phase: Phase, hand: multiset<Buf>)
    requires a < |s.agents| && Credit(phase) == Credit(s.agents[a].phase)
    ensures Credits(Moved(s, a, phase, hand).agents, s.tick) == Credits(s.agents, s.tick)
  {
    MovedCredits(s, a, phase, hand);
    Cancel(Credits(Moved(s, a, phase, hand).agents, s.tick), Credits(s.agents, s.tick), Credit(phase));
  }

  /** A signal pays for one lost credit, or finds the semaphore at its cap. */
  lemma SignalCovers(s: State, m: nat, credits: multiset<nat>)
    requires |s.mbox| == |s.sem| && m < |s.mbox| && |s.mbox[m]| <= SEMAPHORE_CAP
    requires CoveredBy(s.mbox, s.sem, credits + multiset{m})
    ensures CoveredBy(s.mbox, Signalled(s, m).sem, credits)
  {
  }

  lemma MailCovers(s: State, b: Buf, m: nat, credits: multiset<nat>)
    requires m < |s.mbox| == |s.linked| && CoveredBy(s.mbox, s.sem, credits)
    ensures CoveredBy(Mailed(s, b, m).mbox, s.sem, credits + multiset{m})
  {
  }

  lemma LinkCovers(c: Config, s: State, a: nat, b: Buf, m: nat)
    requires CanStep(c, s, Link(a, b, m)) && Covered(s)
    ensures Covered(Apply(c, s, Link(a, b, m)))
  {
    hide Credits, AgentShaped, Known;
    MovedCredits(s, a, Posting(m), s.agents[a].hand - multiset{b});
    MailCovers(s, b, m, Credits(s.agents, s.tick));
  }

  lemma ReleaseCovers(c: Config, s: State, a: nat)
    requires CanStep(c, s, Release(a)) && Covered(s) && WithinCap(s.mbox)
    ensures Covered(Apply(c, s, Release(a)))
  {
    hide Credits, Known;
    var m := s.agents[a].phase.m;
    var s1 := Moved(s, a, Idle, s.agents[a].hand);
    MovedCredits(s, a, Idle, s.agents[a].hand);
    SignalCovers(s1, m, Credits(s1.agents, s.tick));
  }

  lemma WaitPays(mbox: seq<seq<Buf>>, sem: seq<nat>, m: nat, credits: multiset<nat>, credits': multiset<nat>)
    requires CoveredBy(mbox, sem, credits) && m < |sem| && sem[m] > 0
    requires credits' + multiset{} == credits + multiset{m}
    ensures CoveredBy(mbox, sem[m := sem[m] - 1], credits')
  {
    assert forall x: nat :: credits'[x] == (credits' + multiset{})[x];
  }

  /** The waiter's count goes with the message it takes; a message dropped after that one
      only makes room. */
  lemma PopPays(mbox: seq<seq<Buf>>, sem: seq<nat>, m: nat, phase: Phase,
                credits: multiset<nat>, credits': multiset<nat>)
    requires CoveredBy(mbox, sem, credits) && m < |mbox| && (phase == Woken(m) || phase == Looking(m))
    requires credits' + Credit(phase) == credits + multiset{}
    ensures CoveredBy(if mbox[m] == [] then mbox else mbox[m := mbox[m][1..]], sem, credits')
  {
    assert forall x: nat :: credits[x] == (credits + multiset{})[x];
  }

  lemma WaitCovers(c: Config, s: State, a: nat, m: nat)
    requires CanStep(c, s, Wait(a, m)) && Covered(s)
    ensures Covered(Apply(c, s, Wait(a, m)))
  {
    hide Credits, CoveredBy, AgentShaped, Known;
    MovedCredits(s, a, Woken(m), s.agents[a].hand);
    var t := Apply(c, s, Wait(a, m));
    assert |s.mbox| == |s.sem|;
    WaitPays(s.mbox, s.sem, m, Credits(s.agents, s.tick), Credits(t.agents, t.tick));
  }

  lemma PopCovers(c: Config, s: State, a: nat)
    requires CanStep(c, s, Pop(a)) && Covered(s)
    ensures Covered(Apply(c, s, Pop(a)))
  {
    hide Credits, CoveredBy, Known, TickShaped;
    var m := s.agents[a].phase.m;
    MovedCredits(s, a, if s.mbox[m] == [] then Idle else Popped(s.mbox[m][0], m, |s.popped[m]|), s.agents[a].hand);
    var t := Apply(c, s, Pop(a));
    PopPays(s.mbox, s.sem, m, s.agents[a].phase, Credits(s.agents, s.tick), Credits(t.agents, t.tick));
  }

  lemma TickLinkCovers(c: Config, s: State)
    requires CanStep(c, s, TickLink) && Covered(s)
    ensures Covered(Apply(c, s, TickLink))
  {
    hide AgentShaped, Known, Union;
    var m := s.target[s.tick.e.buf];
    MailCovers(s, s.tick.e.buf, m, Credits(s.agents, s.tick));
    assert Credits(s.agents, Posted(m)) == Credits(s.agents, s.tick) + multiset{m};
  }

  lemma TickReleaseCovers(c: Config, s: State)
    requires CanStep(c, s, TickRelease) && Covered(s) && WithinCap(s.mbox)
    ensures Covered(Apply(c, s, TickRelease))
  {
    hide AgentShaped, Known, Union;
    assert Credits(s.agents, s.tick) == Credits(s.agents, Draining) + multiset{s.tick.m};
    SignalCovers(s, s.tick.m, Credits(s.agents, Draining));
  }

  lemma IdleCovers(s: State, t: State)
    requires Covered(s) && t.mbox == s.mbox && t.sem == s.sem
    requires Credits(t.agents, t.tick) == Credits(s.agents, s.tick)
    ensures Covered(t)
  {
  }

  lemma StepCovers(c: Config, s: State, act: Action)
    requires CanStep(c, s, act) && Covered(s) && WithinCap(s.mbox)
    ensures Covered(Apply(c, s, act))
  {
    hide Covered, WithinCap, Known, AgentShaped;
    match act
    case Link(a, b, m) => LinkCovers(c, s, a, b, m);
    case Release(a) => ReleaseCovers(c, s, a);
    case Wait(a, m) => WaitCovers(c, s, a, m);
    case Pop(a) => PopCovers(c, s, a);
    case TickLink => TickLinkCovers(c, s);
    case TickRelease => TickReleaseCovers(c, s);
    case _ => OtherCovers(c, s, act);
  }

  lemma OtherCovers(c: Config, s: State, act: Action)
    requires CanStep(c, s, act) && Covered(s)
    requires !act.Link? && !act.Release? && !act.Wait? && !act.Pop? && !act.TickLink? && !act.TickRelease?
    ensures Covered(Apply(c, s, act))
  {
    hide Covered, Known, AgentShaped, Insert, Place, Credits;
    if act.Acquire? || act.GiveBack? || act.Start? {
      OwnerCovers(c, s, act);
    } else if act.Poll? || act.Check? || act.Drop? {
      ReaderCovers(c, s, act);
    } else {
      assert Credits(s.agents, Apply(c, s, act).tick) == Credits(s.agents, s.tick) by {
        SameCredits(s.agents, Apply(c, s, act).tick, s.tick);
      }
      IdleCovers(s, Apply(c, s, act));
    }
  }

  lemma SameCredits(agents: seq<Agent>, t: Tick, u: Tick)
    requires TickCredit(t) == TickCredit(u)
    ensures Credits(agents, t) == Credits(agents, u)
  {
  }

  lemma OwnerCovers(c: Config, s: State, act: Action)
    requires CanStep(c, s, act) && Covered(s)
    requires act.Acquire? || act.GiveBack? || act.Start?
    ensures Covered(Apply(c, s, act))
  {
    hide Covered, Known, AgentShaped, TickShaped, Insert, Place, Credits;
    var t := Apply(c, s, act);
    Quiet(s, act.a, Idle, t.agents[act.a].hand);
    IdleCovers(s, t);
  }

  lemma ReaderCovers(c: Config, s: State, act: Action)
    requires CanStep(c, s, act) && Covered(s)
    requires act.Poll? || act.Check? || act.Drop?
    ensures Covered(Apply(c, s, act))
  {
    hide Covered, Known, AgentShaped, TickShaped, Credits;
    var t := Apply(c, s, act);
    Quiet(s, act.a, t.agents[act.a].phase, t.agents[act.a].hand);
    IdleCovers(s, t);
  }

  // ---------- whole runs ----------

  lemma {:induction false} RunCovers(c: Config, s: State, acts: seq<Action>)
    requires Runs(c, s, acts) && Conserved(c, s) && Covered(s) && |c.size| <= SEMAPHORE_CAP
    ensures Conserved(c, Exec(c, s, acts)) && Covered(Exec(c, s, acts))
    decreases |acts|
  {
    hide Covered, WithinCap, Conserved, Apply, Enabled, Shaped;
    if acts != [] {
      PoolWithinCap(c, s);
      StepCovers(c, s, acts[0]);
      StepConserves(c, s, acts[0]);
      RunCovers(c, Apply(c, s, acts[0]), acts[1..]);
    }
  }

  lemma InitCovers(c: Config)
    requires Sane(c)
    ensures Covered(Init(c))
  {
  }

  /** A blocked wait is never the last word on a message: while mailbox `m` holds one and
      its semaphore is at zero, some thread or the interrupt handler is between link and
      release, or between wait and dequeue. */
  lemma BlockedOnlyWhilePending(c: Config, s: State, m: nat) returns (a: nat)
    requires Shaped(c, s) && Covered(s) && m < c.boxes && s.mbox[m] != [] && s.sem[m] == 0
    ensures s.tick == Posted(m) || (a < |s.agents| && (s.agents[a].phase == Woken(m) || s.agents[a].phase == Posting(m)))
  {
    hide Known, AgentShaped, TickShaped, Union;
    a := CreditHolder(s.agents, s.tick, m);
  }

  lemma CreditHolder(agents: seq<Agent>, tick: Tick, m: nat) returns (a: nat)
    requires Credits(agents, tick)[m] > 0
    ensures tick == Posted(m) || (a < |agents| && (agents[a].phase == Woken(m) || agents[a].phase == Posting(m)))
  {
    hide Credit, Union;
    a := 0;
    if tick != Posted(m) {
      assert m in Union(ThreadCredits(agents));
      a := UnionFinds(ThreadCredits(agents), m);
      CreditNames(agents[a].phase, m);
    }
  }

  lemma CreditNames(phase: Phase, m: nat)
    requires m in Credit(phase)
    ensures phase == Woken(m) || phase == Posting(m)
  {
  }
}
