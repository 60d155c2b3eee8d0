/** Which counts the delta list can bear: a count of zero delays other timers, and does so
    exactly when there is another buffer to make a timer of. */
module Exactness {
  import opened Bags
  import opened Deltas
  import opened Machine
  import opened Conservation
  import opened Places
  import opened Overflow
  import opened Expiry

  // ---------- one buffer: a zero count has nobody to delay ----------

  /** As EntryTimed, for a start with a positive count. */
  predicate SoloEntry(s: State, e: Entry, left: nat) {
    && e.id < |s.starts| && e.buf < |s.target|
    && s.starts[e.id].buf == e.buf && s.starts[e.id].m == s.target[e.buf]
    && (s.starts[e.id].count >= 1 ==> s.starts[e.id].when + s.starts[e.id].count == s.now + left)
  }

  predicate SoloPost(s: State, p: Post) {
    p.id < |s.starts| && (s.starts[p.id].count >= 1 ==> PostTimed(s.starts, s.now, p))
  }

  predicate Solo(s: State) {
    && |s.timers| == |s.deltas| <= 1
    && (s.tick.Carrying? ==> s.timers == [] && SoloEntry(s, s.tick.e, 0))
    && (s.timers != [] ==> SoloEntry(s, s.timers[0], s.deltas[0]))
    && (s.timers != [] && s.tick == Off && s.starts[s.timers[0].id].count >= 1 ==> s.deltas[0] >= 1)
    && (forall j :: 0 <= j < |s.posts| ==> SoloPost(s, s.posts[j]))
  }

  /** With one buffer in a thread's hand the timer list is empty. */
  lemma SoloIdle(c: Config, s: State, a: nat, b: Buf)
    requires Conserved(c, s) && Solo(s) && |c.size| <= 1 && Owns(s, a, b)
    ensures s.timers == [] && !s.tick.Carrying?
  {
    OwnedAlone(c, s, a, b);
  }

  lemma SoloStart(c: Config, s: State, a: nat, b: Buf, m: nat, count: nat)
    requires CanStep(c, s, Start(a, b, m, count)) && Conserved(c, s) && Solo(s) && |c.size| <= 1
    ensures Solo(Apply(c, s, Start(a, b, m, count)))
  {
    hide Conserved, Known, TickShaped;
    SoloIdle(c, s, a, b);
    var t := Apply(c, s, Start(a, b, m, count));
    assert s.deltas == [] && t.deltas == [count] && t.timers == [Entry(b, |s.starts|)];
    forall j | 0 <= j < |t.posts|
      ensures SoloPost(t, t.posts[j])
    {
      assert SoloPost(s, s.posts[j]);
    }
  }

  lemma SoloTicks(c: Config, s: State, act: Action)
    requires CanStep(c, s, act) && Solo(s) && OfTimer(act) && !act.Start?
    ensures Solo(Apply(c, s, act))
  {
    hide Known, AgentShaped;
  }

  lemma SoloStep(c: Config, s: State, act: Action)
    requires CanStep(c, s, act) && Conserved(c, s) && Solo(s) && |c.size| <= 1
    ensures Solo(Apply(c, s, act))
  {
    hide Conserved, Insert, Place, Known, AgentShaped, TickShaped;
    if !OfTimer(act) {
      Untouched(c, s, act);
    } else if act.Start? {
      SoloStart(c, s, act.a, act.b, act.m, act.count);
    } else {
      SoloTicks(c, s, act);
    }
  }

  lemma SoloPunctual(s: State, k: nat)
    requires Ticketed(s) && Solo(s) && k < |s.starts| && s.starts[k].count >= 1
    ensures Punctual(s, k)
  {
    forall i, j | 0 <= i < j < |s.posts|
      ensures s.posts[i].id != s.posts[j].id
    {
      PostedOnce(s, i, j);
    }
    if s.tick == Off && s.now >= s.starts[k].when + s.starts[k].count {
      BelowCounts(|s.starts|);
      assert AllIds(s.timers, s.tick, s.posts)[k] == 1;
      assert forall i :: 0 <= i < |s.timers| ==> Ids(s.timers)[i] != k;
      assert k !in multiset(Ids(s.timers));
      assert k in multiset(PostIds(s.posts));
      var j :| 0 <= j < |s.posts| && PostIds(s.posts)[j] == k;
    }
  }

  lemma {:induction false} SoloRun(c: Config, s: State, acts: seq<Action>)
    requires Runs(c, s, acts) && Conserved(c, s) && Ticketed(s) && Solo(s) && |c.size| <= 1
    ensures var t := Exec(c, s, acts); Ticketed(t) && Solo(t)
    decreases |acts|
  {
    hide Conserved, Ticketed, Solo, Apply, Enabled, Shaped;
    if acts != [] {
      StepConserves(c, s, acts[0]);
      StepTickets(c, s, acts[0]);
      SoloStep(c, s, acts[0]);
      SoloRun(c, Apply(c, s, acts[0]), acts[1..]);
    }
  }

  lemma SoloRunPunctual(c: Config, acts: seq<Action>)
    requires Sane(c) && Runs(c, Init(c), acts) && |c.size| <= 1
    ensures AllPunctual(Exec(c, Init(c), acts)) && AllOnTime(acts, Exec(c, Init(c), acts))
  {
    hide Conserved, Apply, Enabled, Shaped, OnTime;
    AllOnTimeIff(c, acts);
    InitConserves(c);
    SoloRun(c, Init(c), acts);
    forall k | 0 <= k < |Exec(c, Init(c), acts).starts| && Exec(c, Init(c), acts).starts[k].count >= 1
      ensures Punctual(Exec(c, Init(c), acts), k)
    {
      SoloPunctual(Exec(c, Init(c), acts), k);
    }
  }

  // ---------- two buffers: a zero count delays the other timer ----------

  /** After one buffer was taken from a full pool of at least two, another is free. */
  lemma AnotherFree(c: Config, s: State, i: nat) returns (j: nat)
    requires Resting(c, s, 0) && |c.size| >= 2 && CanStep(c, s, Acquire(0, i))
    ensures j < c.classes && Apply(c, s, Acquire(0, i)).free[j] != []
  {
    UnionEmpty(Hands(s.agents));
    assert Bufs(s.timers) == [];
    BelowSize(|c.size|);
    assert Total(s) == Contents(s.free) + Contents(s.mbox);
    var t := Apply(c, s, Acquire(0, i));
    RemoveFront(s.free, i);
    assert |Contents(t.free)| >= 1;
    var b :| b in Contents(t.free);
    j := UnionFinds(Queues(t.free), b);
  }

  /** Thread 0 has two buffers in hand and nothing else has happened. */
  predicate TwoInHand(c: Config, s: State, b0: Buf, b1: Buf) {
    && Shaped(c, s) && c.agents > 0 && c.boxes > 0
    && s.agents[0] == Agent(Idle, multiset{b0, b1})
    && s.tick == Off && s.timers == [] && s.starts == [] && s.posts == [] && s.now == 0
  }

  lemma TakeTwo(c: Config) returns (acts: seq<Action>, b0: Buf, b1: Buf)
    requires Sane(c) && c.boxes > 0 && c.agents > 0 && |c.size| >= 2
    ensures Runs(c, Init(c), acts) && TwoInHand(c, Exec(c, Init(c), acts), b0, b1)
  {
    hide Conserved;
    var s := Init(c);
    InitRests(c);
    InitShaped(c);
    var i := FreeLeft(c, s, 0);
    var one := Acquire(0, i);
    var j := AnotherFree(c, s, i);
    StepShaped(c, s, one);
    var s1 := Apply(c, s, one);
    var two := Acquire(0, j);
    StepShaped(c, s1, two);
    RunOfOne(c, s, one);
    RunsOn(c, s, [one], two);
    acts, b0, b1 := [one] + [two], s.free[i][0], s1.free[j][0];
    assert multiset{} + multiset{b0} + multiset{b1} == multiset{b0, b1};
  }

  /** Start one timer for one tick, another for none: after the tick the list holds 2^32 - 1
      in front of 1, and the first timer is late. */
  lemma ZeroDelaysOther(c: Config) returns (acts: seq<Action>)
    requires Sane(c) && c.boxes > 0 && c.agents > 0 && |c.size| >= 2 && c.least == 0
    ensures Runs(c, Init(c), acts) && !AllOnTime(acts, Exec(c, Init(c), acts))
  {
    hide AllPunctual, AllOnTime, TwoInHand;
    var b0, b1;
    acts, b0, b1 := TakeTwo(c);
    var s := Exec(c, Init(c), acts);
    var more := StartBoth(c, s, b0, b1);
    RunsAppend(c, Init(c), acts, more);
    var s1 := Exec(c, s, more);
    var tick := WrapTick(c, s1, b0, b1);
    RunsAppend(c, Init(c), acts + more, tick);
    acts := acts + more + tick;
    AllOnTimeIff(c, acts);
  }

  lemma StartBoth(c: Config, s: State, b0: Buf, b1: Buf) returns (acts: seq<Action>)
    requires TwoInHand(c, s, b0, b1) && c.least == 0
    ensures Runs(c, s, acts)
    ensures var t := Exec(c, s, acts);
            && Shaped(c, t) && t.tick == Off && t.deltas == [0, 1] && t.posts == [] && t.now == 0
            && t.starts == [Started(b0, 0, 1, 0), Started(b1, 0, 0, 0)]
  {
    hide Known, TickShaped;
    var one, two := Start(0, b0, 0, 1), Start(0, b1, 0, 0);
    StepShaped(c, s, one);
    var s1 := Apply(c, s, one);
    assert s1.deltas == [1];
    assert multiset{b0, b1} - multiset{b0} == multiset{b1};
    StepShaped(c, s1, two);
    assert Insert([1], 0) == [0, 1];
    RunOfOne(c, s, one);
    RunsOn(c, s, [one], two);
    acts := [one] + [two];
  }

  lemma WrapTick(c: Config, s: State, b0: Buf, b1: Buf) returns (acts: seq<Action>)
    requires Shaped(c, s) && s.tick == Off && s.deltas == [0, 1] && s.posts == [] && s.now == 0
    requires s.starts == [Started(b0, 0, 1, 0), Started(b1, 0, 0, 0)]
    ensures Runs(c, s, acts) && !AllPunctual(Exec(c, s, acts))
  {
    hide Known, AgentShaped;
    StepShaped(c, s, TickBegin);
    var s1 := Apply(c, s, TickBegin);
    assert s1.deltas == [COUNT_MAX, 1];
    RunOfOne(c, s, TickBegin);
    RunsOn(c, s, [TickBegin], TickEnd);
    acts := [TickBegin] + [TickEnd];
    assert !Punctual(Apply(c, s1, TickEnd), 0);
  }

  /** Exact expiry of every started timer with a positive count, in every run, exactly when no
      caller passes a scaled count of zero or there is no second buffer to do it with. */
  lemma ExactExpiryIff(c: Config)
    requires Sane(c) && c.boxes > 0 && c.agents > 0
    ensures (forall acts :: Runs(c, Init(c), acts) ==> AllOnTime(acts, Exec(c, Init(c), acts)))
            <==> c.least >= 1 || |c.size| <= 1
  {
    hide AllPunctual, AllOnTime, Shaped, Ticketed, Timed;
    if c.least >= 1 || |c.size| <= 1 {
      forall acts | Runs(c, Init(c), acts)
        ensures AllOnTime(acts, Exec(c, Init(c), acts))
      {
        if c.least >= 1 {
          RunPunctual(c, acts);
        } else {
          SoloRunPunctual(c, acts);
        }
      }
    } else {
      var acts := ZeroDelaysOther(c);
      assert Runs(c, Init(c), acts) && !AllOnTime(acts, Exec(c, Init(c), acts));
    }
  }
}
