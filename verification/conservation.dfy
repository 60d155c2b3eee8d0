/** Every buffer is always in exactly one place. */
module Conservation {
  import opened Sequences
  import opened Words
  import opened Bags
  import opened Deltas
  import opened Machine

  function AgentBag(agent: Agent): multiset<Buf> {
    match agent.phase
    case Popped(b, m, n) => agent.hand + multiset{b}
    case Dropping(b, m, n) => agent.hand + multiset{b}
    case _ => agent.hand
  }

  function Hands(agents: seq<Agent>): (r: seq<multiset<Buf>>)
    ensures |r| == |agents|
    ensures forall a :: 0 <= a < |agents| ==> r[a] == AgentBag(agents[a])
  {
    seq(|agents|, a requires 0 <= a < |agents| => AgentBag(agents[a]))
  }

  function TickBag(t: Tick): multiset<Buf> {
    if t.Carrying? then multiset{t.e.buf} else multiset{}
  }

  function Bufs(timers: seq<Entry>): (r: seq<Buf>)
    ensures |r| == |timers|
    ensures forall i :: 0 <= i < |timers| ==> r[i] == timers[i].buf
  {
    seq(|timers|, i requires 0 <= i < |timers| => timers[i].buf)
  }

  /** All buffers in all places, counted with repetition. */
  function Total(s: State): multiset<Buf> {
    Contents(s.free) + Contents(s.mbox) + multiset(Bufs(s.timers)) + Union(Hands(s.agents)) + TickBag(s.tick)
  }

  /** The places hold each buffer once, and a free queue holds its own class only. */
  predicate Conserved(c: Config, s: State) {
    && Shaped(c, s)
    && Total(s) == Below(|c.size|)
    && Pure(c, s.free)
  }

  // ---------- what a change of one place does ----------

  lemma AgentChanges(agents: seq<Agent>, a: nat, x: Agent)
    requires a < |agents|
    ensures Union(Hands(agents[a := x])) + AgentBag(agents[a]) == Union(Hands(agents)) + AgentBag(x)
  {
    UnionUpdate(Hands(agents), a, AgentBag(x));
    assert Hands(agents[a := x]) == Hands(agents)[a := AgentBag(x)];
  }

  lemma AgentGains(agents: seq<Agent>, a: nat, x: Agent, bag: multiset<Buf>)
    requires a < |agents| && AgentBag(x) == AgentBag(agents[a]) + bag
    ensures Union(Hands(agents[a := x])) == Union(Hands(agents)) + bag
  {
    AgentChanges(agents, a, x);
    assert Union(Hands(agents)) + AgentBag(x) == Union(Hands(agents)) + bag + AgentBag(agents[a]);
    Cancel(Union(Hands(agents[a := x])), Union(Hands(agents)) + bag, AgentBag(agents[a]));
  }

  lemma AgentLoses(agents: seq<Agent>, a: nat, x: Agent, b: Buf)
    requires a < |agents| && AgentBag(agents[a]) == AgentBag(x) + multiset{b}
    ensures Union(Hands(agents)) == Union(Hands(agents[a := x])) + multiset{b}
  {
    assert agents[a := x][a := agents[a]] == agents;
    AgentGains(agents[a := x], a, agents[a], multiset{b});
  }

  lemma TimerGains(timers: seq<Entry>, p: nat, e: Entry)
    requires p <= |timers|
    ensures multiset(Bufs(Spliced(timers, p, e))) == multiset(Bufs(timers)) + multiset{e.buf}
  {
    assert Bufs(timers) == Bufs(timers)[..p] + Bufs(timers)[p..];
    assert Bufs(Spliced(timers, p, e)) == Bufs(timers)[..p] + [e.buf] + Bufs(timers)[p..];
  }

  lemma TimerLoses(timers: seq<Entry>)
    requires timers != []
    ensures multiset(Bufs(timers)) == multiset{timers[0].buf} + multiset(Bufs(timers[1..]))
  {
    assert Bufs(timers) == [timers[0].buf] + Bufs(timers[1..]);
  }

  // ---------- the steps, one place to another ----------

  /** A thread changes phase with the same buffers in hand. */
  lemma Turns(s: State, a: nat, phase: Phase)
    requires a < |s.agents| && AgentBag(Agent(phase, s.agents[a].hand)) == AgentBag(s.agents[a])
    ensures Total(Moved(s, a, phase, s.agents[a].hand)) == Total(s)
  {
    hide Contents, Union, Hands, Bufs;
    AgentGains(s.agents, a, Agent(phase, s.agents[a].hand), multiset{});
  }

  /** A thread lets go of `b`. */
  lemma Loses(s: State, a: nat, phase: Phase, hand: multiset<Buf>, b: Buf)
    requires a < |s.agents| && AgentBag(s.agents[a]) == AgentBag(Agent(phase, hand)) + multiset{b}
    ensures Total(s) == Total(Moved(s, a, phase, hand)) + multiset{b}
  {
    hide Contents, Union, Hands, Bufs;
    AgentLoses(s.agents, a, Agent(phase, hand), b);
  }

  lemma Gains(s: State, a: nat, phase: Phase, hand: multiset<Buf>, b: Buf)
    requires a < |s.agents| && AgentBag(Agent(phase, hand)) == AgentBag(s.agents[a]) + multiset{b}
    ensures Total(Moved(s, a, phase, hand)) == Total(s) + multiset{b}
  {
    hide Contents, Union, Hands, Bufs;
    AgentGains(s.agents, a, Agent(phase, hand), multiset{b});
  }

  lemma FreeGains(c: Config, s: State, b: Buf)
    requires Sane(c) && |s.free| == c.classes && b < |c.size|
    ensures Total(Returned(c, s, b)) == Total(s) + multiset{b}
  {
    hide Contents, Union, Hands, Bufs;
    Append(s.free, c.size[b], b);
  }

  lemma FreeLoses(s: State, i: nat)
    requires i < |s.free| && s.free[i] != []
    ensures Total(s) == Total(s.(free := s.free[i := s.free[i][1..]])) + multiset{s.free[i][0]}
  {
    hide Contents, Union, Hands, Bufs;
    RemoveFront(s.free, i);
  }

  lemma MailGains(s: State, b: Buf, m: nat)
    requires m < |s.mbox| == |s.linked|
    ensures Total(Mailed(s, b, m)) == Total(s) + multiset{b}
  {
    hide Contents, Union, Hands, Bufs;
    Append(s.mbox, m, b);
  }

  lemma MailLoses(s: State, m: nat)
    requires m < |s.mbox| && s.mbox[m] != []
    ensures Total(s) == Total(s.(mbox := s.mbox[m := s.mbox[m][1..]])) + multiset{s.mbox[m][0]}
  {
    hide Contents, Union, Hands, Bufs;
    RemoveFront(s.mbox, m);
  }

  lemma AcquireMoves(c: Config, s: State, a: nat, i: nat)
    requires CanStep(c, s, Acquire(a, i))
    ensures Total(Apply(c, s, Acquire(a, i))) == Total(s)
  {
    var b := s.free[i][0];
    FreeLoses(s, i);
    var s1 := s.(free := s.free[i := s.free[i][1..]]);
    Gains(s1, a, Idle, s.agents[a].hand + multiset{b}, b);
    assert Apply(c, s, Acquire(a, i)) == Moved(s1, a, Idle, s.agents[a].hand + multiset{b});
  }

  lemma GiveBackMoves(c: Config, s: State, a: nat, b: Buf)
    requires CanStep(c, s, GiveBack(a, b))
    ensures Total(Apply(c, s, GiveBack(a, b))) == Total(s)
  {
    hide Total;
    var hand := s.agents[a].hand - multiset{b};
    Loses(s, a, Idle, hand, b);
    FreeGains(c, Moved(s, a, Idle, hand), b);
  }

  lemma DropMoves(c: Config, s: State, a: nat)
    requires CanStep(c, s, Drop(a))
    ensures Total(Apply(c, s, Drop(a))) == Total(s)
  {
    hide Total;
    var Dropping(b, m, n) := s.agents[a].phase;
    var s1 := Moved(s, a, Looking(m), s.agents[a].hand);
    Loses(s, a, Looking(m), s.agents[a].hand, b);
    FreeGains(c, s1, b);
    NothingMoves(Returned(c, s1, b), Apply(c, s, Drop(a)));
  }

  lemma LinkMoves(c: Config, s: State, a: nat, b: Buf, m: nat)
    requires CanStep(c, s, Link(a, b, m))
    ensures Total(Apply(c, s, Link(a, b, m))) == Total(s)
  {
    hide Total;
    var hand := s.agents[a].hand - multiset{b};
    Loses(s, a, Posting(m), hand, b);
    MailGains(Moved(s, a, Posting(m), hand), b, m);
  }

  lemma PopMoves(c: Config, s: State, a: nat)
    requires CanStep(c, s, Pop(a))
    ensures Total(Apply(c, s, Pop(a))) == Total(s)
  {
    hide Total;
    var m := s.agents[a].phase.m;
    if s.mbox[m] == [] {
      Turns(s, a, Idle);
    } else {
      var b, n := s.mbox[m][0], |s.popped[m]|;
      var s1 := Moved(s, a, Popped(b, m, n), s.agents[a].hand);
      Gains(s, a, Popped(b, m, n), s.agents[a].hand, b);
      MailLoses(s1, m);
      NothingMoves(s1.(mbox := s.mbox[m := s.mbox[m][1..]]), Apply(c, s, Pop(a)));
      Cancel(Total(s), Total(Apply(c, s, Pop(a))), multiset{b});
    }
  }

  lemma CheckMoves(c: Config, s: State, a: nat)
    requires CanStep(c, s, Check(a))
    ensures Total(Apply(c, s, Check(a))) == Total(s)
  {
    hide Total;
    var Popped(b, m, n) := s.agents[a].phase;
    var hand := s.agents[a].hand;
    if s.code[b] == DISCARDED {
      Turns(s, a, Dropping(b, m, n));
      NothingMoves(Moved(s, a, Dropping(b, m, n), hand), Apply(c, s, Check(a)));
    } else {
      CheckDelivers(s, a, b);
      NothingMoves(Moved(s, a, Idle, hand + multiset{b}), Apply(c, s, Check(a)));
    }
  }

  lemma CheckDelivers(s: State, a: nat, b: Buf)
    requires a < |s.agents| && s.agents[a].phase.Popped? && b == s.agents[a].phase.b
    ensures Total(Moved(s, a, Idle, s.agents[a].hand + multiset{b})) == Total(s)
  {
    hide Contents, Union, Hands, Bufs;
    AgentGains(s.agents, a, Agent(Idle, s.agents[a].hand + multiset{b}), multiset{});
  }

  lemma StartMoves(c: Config, s: State, a: nat, b: Buf, m: nat, count: nat)
    requires CanStep(c, s, Start(a, b, m, count))
    ensures Total(Apply(c, s, Start(a, b, m, count))) == Total(s)
  {
    hide Contents, Union, Hands, Bufs, Insert, AgentShaped, Known, TickShaped;
    AgentLoses(s.agents, a, Agent(Idle, s.agents[a].hand - multiset{b}), b);
    TimerGains(s.timers, Place(s.deltas, count), Entry(b, |s.starts|));
  }

  lemma TimerTaken(s: State, deltas: seq<nat>)
    requires s.timers != [] && !s.tick.Carrying?
    ensures Total(s.(tick := Carrying(s.timers[0]), timers := s.timers[1..], deltas := deltas)) == Total(s)
  {
    hide Contents, Union, Hands, Bufs;
    TimerLoses(s.timers);
  }

  lemma TickTakeMoves(c: Config, s: State)
    requires CanStep(c, s, TickTake)
    ensures Total(Apply(c, s, TickTake)) == Total(s)
  {
    hide Total, AgentShaped, Known;
    TimerTaken(s, s.deltas[1..]);
  }

  lemma TickLinkMoves(c: Config, s: State)
    requires CanStep(c, s, TickLink)
    ensures Total(Apply(c, s, TickLink)) == Total(s)
  {
    hide Contents, Union, Hands, Bufs, AgentShaped, Known;
    Append(s.mbox, s.target[s.tick.e.buf], s.tick.e.buf);
  }

  lemma ReleaseMoves(c: Config, s: State, a: nat)
    requires CanStep(c, s, Release(a))
    ensures Total(Apply(c, s, Release(a))) == Total(s)
  {
    hide Total;
    Turns(s, a, Idle);
    NothingMoves(Moved(s, a, Idle, s.agents[a].hand), Apply(c, s, Release(a)));
  }

  lemma WaitMoves(c: Config, s: State, a: nat, m: nat)
    requires CanStep(c, s, Wait(a, m))
    ensures Total(Apply(c, s, Wait(a, m))) == Total(s)
  {
    hide Total;
    Turns(s, a, Woken(m));
    NothingMoves(Moved(s, a, Woken(m), s.agents[a].hand), Apply(c, s, Wait(a, m)));
  }

  lemma NothingMoves(s: State, t: State)
    requires t.free == s.free && t.mbox == s.mbox && t.timers == s.timers && t.agents == s.agents
    requires TickBag(t.tick) == TickBag(s.tick)
    ensures Total(t) == Total(s)
  {
  }

  /** No step loses or duplicates a buffer. */
  lemma StepMoves(c: Config, s: State, act: Action)
    requires CanStep(c, s, act)
    ensures Total(Apply(c, s, act)) == Total(s)
  {
    hide Total, Known, TickShaped;
    match act
    case Acquire(a, i) => AcquireMoves(c, s, a, i);
    case GiveBack(a, b) => GiveBackMoves(c, s, a, b);
    case Link(a, b, m) => LinkMoves(c, s, a, b, m);
    case Release(a) => ReleaseMoves(c, s, a);
    case Start(a, b, m, count) => StartMoves(c, s, a, b, m, count);
    case Wait(a, m) => WaitMoves(c, s, a, m);
    case Poll(a, m) => Turns(s, a, Looking(m));
    case Pop(a) => PopMoves(c, s, a);
    case Check(a) => CheckMoves(c, s, a);
    case Drop(a) => DropMoves(c, s, a);
    case TickTake => TickTakeMoves(c, s);
    case TickLink => TickLinkMoves(c, s);
    case _ => NothingMoves(s, Apply(c, s, act));
  }

  /** A free queue holds buffers of its own class only. */
  predicate Pure(c: Config, free: seq<seq<Buf>>) {
    forall i, k :: 0 <= i < |free| && 0 <= k < |free[i]| ==> free[i][k] < |c.size| && c.size[free[i][k]] == i
  }

  lemma StepPure(c: Config, s: State, act: Action)
    requires CanStep(c, s, act) && Pure(c, s.free)
    ensures Pure(c, Apply(c, s, act).free)
  {
    hide Insert, Place;
  }

  lemma StepConserves(c: Config, s: State, act: Action)
    requires CanStep(c, s, act) && Conserved(c, s)
    ensures Conserved(c, Apply(c, s, act))
  {
    StepMoves(c, s, act);
    StepPure(c, s, act);
    StepShaped(c, s, act);
  }

  lemma {:induction false} CarvedHolds(c: Config, n: nat)
    requires Sane(c) && n <= |c.size|
    ensures Contents(Carved(c, n)) == Below(n)
  {
    hide Contents;
    if n == 0 {
      EmptyHolds(Carved(c, 0));
    } else {
      CarvedHolds(c, n - 1);
      CarveOne(Carved(c, n - 1), c.size[n - 1], n);
    }
  }

  lemma CarveOne(qs: seq<seq<Buf>>, i: nat, n: nat)
    requires i < |qs| && n > 0 && Contents(qs) == Below(n - 1)
    ensures Contents(qs[i := qs[i] + [n - 1]]) == Below(n)
  {
    Append<Buf>(qs, i, n - 1);
  }

  lemma EmptyHolds(qs: seq<seq<Buf>>)
    requires forall i :: 0 <= i < |qs| ==> qs[i] == []
    ensures Contents(qs) == multiset{}
  {
    UnionEmpty(Queues(qs));
  }

  lemma {:induction false} CarvedPure(c: Config, n: nat)
    requires Sane(c) && n <= |c.size|
    ensures Pure(c, Carved(c, n))
  {
    if n > 0 {
      CarvedPure(c, n - 1);
    }
  }

  lemma InitConserves(c: Config)
    requires Sane(c)
    ensures Conserved(c, Init(c))
  {
    hide Contents;
    CarvedHolds(c, |c.size|);
    CarvedPure(c, |c.size|);
    EmptyHolds(Init(c).mbox);
    UnionEmpty(Hands(Init(c).agents));
  }
}
