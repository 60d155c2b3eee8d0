/** The interleaved steps, run without interruption, do what the operations of the
    sequential modules do in one call: the end states are related by the same relations,
    Deltas.Drained for a tick and Mail.Got for a Get. */
module Sequential {
  import opened Words
  import opened Sequences
  import opened Mail
  import opened Deltas
  import opened Machine
  import opened Conservation

  // ---------- one whole tick: TimerIntHandler ----------

  predicate OfHandler(acts: seq<Action>) {
    forall i :: 0 <= i < |acts| ==>
      acts[i].TickBegin? || acts[i].TickTake? || acts[i].TickLink? || acts[i].TickRelease? || acts[i].TickEnd?
  }

  predicate Deliverable(timers: seq<Entry>, target: seq<nat>, boxes: nat) {
    forall i :: 0 <= i < |timers| ==> timers[i].buf < |target| && target[timers[i].buf] < boxes
  }

  /** Each timer with the mailbox it names, and what posting it logs. */
  function Letters(timers: seq<Entry>, target: seq<nat>): (r: seq<(nat, Buf)>)
    requires forall i :: 0 <= i < |timers| ==> timers[i].buf < |target|
    ensures |r| == |timers|
    ensures forall i :: 0 <= i < |r| ==> r[i] == (target[timers[i].buf], timers[i].buf)
  {
    seq(|timers|, i requires 0 <= i < |timers| => (target[timers[i].buf], timers[i].buf))
  }

  function Records(timers: seq<Entry>, target: seq<nat>, now: nat): (r: seq<Post>)
    requires forall i :: 0 <= i < |timers| ==> timers[i].buf < |target|
    ensures |r| == |timers|
    ensures forall i :: 0 <= i < |r| ==> r[i] == Post(timers[i].id, timers[i].buf, target[timers[i].buf], now)
  {
    seq(|timers|, i requires 0 <= i < |timers| =>
      Post(timers[i].id, timers[i].buf, target[timers[i].buf], now))
  }

  /** The whole state after the first `k` timers were posted and the handler has left. */
  function AfterDrain(s: State, k: nat): State
    requires k <= |s.timers| == |s.deltas| && |s.mbox| == |s.linked| == |s.sem|
    requires Deliverable(s.timers, s.target, |s.mbox|)
  {
    var mail := Letters(s.timers, s.target)[..k];
    s.(timers := s.timers[k..], deltas := s.deltas[k..], tick := Off,
       mbox := Mail.Posted(s.mbox, mail), linked := Mail.Posted(s.linked, mail), sem := Raises(s.sem, mail),
       posts := s.posts + Records(s.timers, s.target, s.now)[..k])
  }

  /** The state after the front timer was posted, the handler still at work. */
  function AfterOne(s: State): State
    requires s.timers != [] && |s.deltas| == |s.timers| && |s.mbox| == |s.linked| == |s.sem|
    requires Deliverable(s.timers, s.target, |s.mbox|)
  {
    var e := s.timers[0];
    var m := s.target[e.buf];
    s.(timers := s.timers[1..], deltas := s.deltas[1..],
       mbox := Appended(s.mbox, m, e.buf), linked := Appended(s.linked, m, e.buf), sem := Raised(s.sem, m),
       posts := s.posts + [Post(e.id, e.buf, m, s.now)])
  }

  /** The front timer is posted: take, link, release. */
  lemma PostOne(c: Config, s: State) returns (acts: seq<Action>)
    requires CanStep(c, s, TickTake)
    ensures OfHandler(acts) && Runs(c, s, acts)
    ensures Exec(c, s, acts) == AfterOne(s) && Shaped(c, AfterOne(s))
  {
    hide Known, AgentShaped;
    StepShaped(c, s, TickTake);
    var s1 := Apply(c, s, TickTake);
    StepShaped(c, s1, TickLink);
    var s2 := Apply(c, s1, TickLink);
    StepShaped(c, s2, TickRelease);
    RunOfOne(c, s, TickTake);
    RunsOn(c, s, [TickTake], TickLink);
    RunsOn(c, s, [TickTake] + [TickLink], TickRelease);
    acts := [TickTake] + [TickLink] + [TickRelease];
  }

  lemma AfterOneMore(s: State, k: nat)
    requires s.timers != [] && |s.deltas| == |s.timers| && |s.mbox| == |s.linked| == |s.sem|
    requires Deliverable(s.timers, s.target, |s.mbox|) && k < |s.timers|
    ensures Deliverable(AfterOne(s).timers, s.target, |s.mbox|)
    ensures AfterDrain(AfterOne(s), k) == AfterDrain(s, k + 1)
  {
    var mail, log := Letters(s.timers, s.target), Records(s.timers, s.target, s.now);
    assert Letters(s.timers[1..], s.target) == mail[1..] && Records(s.timers[1..], s.target, s.now) == log[1..];
    hide Letters, Records, Mail.Posted, Raises;
    FrontAndRest(mail, k);
    FrontAndRest(log, k);
    FrontAndRest(s.timers, k);
    FrontAndRest(s.deltas, k);
    PostedCons(s.mbox, mail[0], mail[1..][..k]);
    PostedCons(s.linked, mail[0], mail[1..][..k]);
    RaisesCons(s.sem, mail[0], mail[1..][..k]);
    Assoc(s.posts, [log[0]], log[1..][..k]);
  }

  /** From the decrement to the end of the tick the due timers are posted in list order; the
      drain always ends, and nothing but its own fields has changed. */
  lemma {:induction false} DrainRun(c: Config, s: State) returns (acts: seq<Action>)
    requires Shaped(c, s) && s.tick == Draining
    ensures OfHandler(acts) && Runs(c, s, acts)
    ensures Deliverable(s.timers, s.target, |s.mbox|) && Exec(c, s, acts) == AfterDrain(s, Zeros(s.deltas))
    decreases |s.timers|
  {
    hide Apply, Known, AgentShaped, TickShaped, AfterDrain, AfterOne;
    if s.timers == [] || s.deltas[0] != 0 {
      acts := EndRun(c, s);
    } else {
      var first := PostOne(c, s);
      AfterOneFields(s);
      var rest := DrainRun(c, AfterOne(s));
      RunsAppend(c, s, first, rest);
      acts := first + rest;
      AfterOneMore(s, Zeros(s.deltas[1..]));
    }
  }

  lemma EndRun(c: Config, s: State) returns (acts: seq<Action>)
    requires CanStep(c, s, TickEnd)
    ensures OfHandler(acts) && Runs(c, s, acts)
    ensures Deliverable(s.timers, s.target, |s.mbox|) && Exec(c, s, acts) == AfterDrain(s, 0)
  {
    hide Known, AgentShaped, TickShaped, AfterDrain;
    RunOfOne(c, s, TickEnd);
    acts := [TickEnd];
    AfterNone(s);
  }

  lemma AfterOneFields(s: State)
    requires s.timers != [] && |s.deltas| == |s.timers| && |s.mbox| == |s.linked| == |s.sem|
    requires Deliverable(s.timers, s.target, |s.mbox|)
    ensures var t := AfterOne(s);
            t.tick == s.tick && |t.timers| == |s.timers| - 1 && t.deltas == s.deltas[1..]
  {
  }

  lemma AfterNone(s: State)
    requires |s.timers| == |s.deltas| && |s.mbox| == |s.linked| == |s.sem|
    requires Deliverable(s.timers, s.target, |s.mbox|) && s.tick == Draining
    ensures s.(tick := Off) == AfterDrain(s, 0)
  {
    assert s.timers[0..] == s.timers && s.deltas[0..] == s.deltas && s.posts + [] == s.posts;
    assert Letters(s.timers, s.target)[..0] == [];
  }

  /** One uninterrupted tick: the relation of Timers.Timer.TimerIntHandler between the lists
      before and after, and no other field changed. */
  lemma TickRun(c: Config, s: State) returns (acts: seq<Action>)
    requires Shaped(c, s) && s.tick == Off && FrontPositive(s.deltas)
    ensures OfHandler(acts) && Runs(c, s, acts)
    ensures var d := Decrement(s.deltas);
            var t := Exec(c, s, acts);
            && Deliverable(s.timers, s.target, |s.mbox|)
            && t == AfterDrain(s.(deltas := d, now := s.now + 1), Zeros(d))
            && t.deltas == Deltas.Tick(s.deltas)
            && Drained(d, Bufs(s.timers), Letters(s.timers, s.target), Zeros(d), t.deltas, Bufs(t.timers),
                       s.mbox, s.sem, t.mbox, t.sem)
  {
    hide Known, AgentShaped, TickShaped, AfterDrain, Drained, Zeros;
    StepShaped(c, s, TickBegin);
    RunOfOne(c, s, TickBegin);
    var s1 := Apply(c, s, TickBegin);
    var rest := DrainRun(c, s1);
    RunsAppend(c, s, [TickBegin], rest);
    acts := [TickBegin] + rest;
    AfterDrainDrains(s1, s.(deltas := s1.deltas, now := s.now + 1), Zeros(s1.deltas));
  }

  lemma AfterDrainDrains(s1: State, s: State, k: nat)
    requires s1 == s.(tick := Draining) && k <= |s.timers| == |s.deltas| && |s.mbox| == |s.linked| == |s.sem|
    requires Deliverable(s.timers, s.target, |s.mbox|) && k == Zeros(s.deltas)
    ensures AfterDrain(s1, k) == AfterDrain(s, k)
    ensures var t := AfterDrain(s, k);
            && t.deltas == s.deltas[k..]
            && Drained(s.deltas, Bufs(s.timers), Letters(s.timers, s.target), k, t.deltas, Bufs(t.timers),
                       s.mbox, s.sem, t.mbox, t.sem)
  {
    assert Bufs(s.timers[k..]) == Bufs(s.timers)[k..];
  }

  // ---------- one whole Get: TMailBox::Get ----------

  /** Only dequeuing steps of thread `a`. */
  predicate OfReader(acts: seq<Action>, a: nat) {
    forall i :: 0 <= i < |acts| ==> acts[i] == Pop(a) || acts[i] == Check(a) || acts[i] == Drop(a)
  }

  predicate GetDue(s: State, a: nat, m: nat) {
    a < |s.agents| && (s.agents[a].phase == Woken(m) || s.agents[a].phase == Looking(m))
  }

  function CodesAt(s: State, q: seq<Buf>): (r: seq<uint16>)
    requires forall i :: 0 <= i < |q| ==> q[i] < |s.code|
    ensures |r| == |q| && forall i :: 0 <= i < |r| ==> r[i] == s.code[q[i]]
  {
    seq(|q|, i requires 0 <= i < |q| => s.code[q[i]])
  }

  function ClassesAt(c: Config, q: seq<Buf>): (r: seq<nat>)
    requires forall i :: 0 <= i < |q| ==> q[i] < |c.size|
    ensures |r| == |q| && forall i :: 0 <= i < |r| ==> r[i] == c.size[q[i]]
  {
    seq(|q|, i requires 0 <= i < |q| => c.size[q[i]])
  }

  predicate Within(c: Config, s: State, q: seq<Buf>) {
    forall i :: 0 <= i < |q| ==> q[i] < |c.size| && q[i] < |s.code|
  }

  /** Nothing has changed but thread `a`, mailbox `m`, the free queues, the handles and the
      histories of dequeuing. */
  predicate OnlyRead(s: State, t: State, m: nat) {
    && m < |s.mbox| == |t.mbox|
    && t == s.(agents := t.agents, mbox := s.mbox[m := t.mbox[m]], free := t.free, armed := t.armed,
               popped := t.popped, fate := t.fate, received := t.received, reclaimed := t.reclaimed)
  }

  /** What one whole Get leaves behind: the relation of MailBoxes.MailBox.Get between mailbox
      and free queues, and the first live message, if any, in the thread's hand. */
  predicate GetDone(c: Config, s: State, t: State, a: nat, m: nat, k: nat) {
    && OnlyRead(s, t, m) && a < |s.agents| && Within(c, s, s.mbox[m])
    && Got(s.mbox[m], CodesAt(s, s.mbox[m]), ClassesAt(c, s.mbox[m]), k, t.mbox[m], s.free, t.free)
    && (k == |s.mbox[m]| ==> t.agents == s.agents[a := Agent(Idle, s.agents[a].hand)] && t.armed == s.armed)
    && (k < |s.mbox[m]| ==>
          && t.agents == s.agents[a := Agent(Idle, s.agents[a].hand + multiset{s.mbox[m][k]})]
          && t.armed == s.armed - {s.mbox[m][k]})
  }

  /** The front message is unlinked. */
  lemma PopFront(c: Config, s: State, a: nat, m: nat) returns (t: State)
    requires Shaped(c, s) && GetDue(s, a, m) && m < c.boxes && s.mbox[m] != []
    ensures CanStep(c, s, Pop(a)) && t == Apply(c, s, Pop(a)) && Shaped(c, t)
    ensures OnlyRead(s, t, m) && t.mbox[m] == s.mbox[m][1..] && t.free == s.free && t.armed == s.armed
    ensures t.agents == s.agents[a := Agent(Popped(s.mbox[m][0], m, |s.popped[m]|), s.agents[a].hand)]
  {
    hide Known, TickShaped, AgentShaped;
    StepShaped(c, s, Pop(a));
    t := Apply(c, s, Pop(a));
  }

  /** A cancelled message in front is dropped: pop, check, drop. */
  lemma DropFront(c: Config, s: State, a: nat, m: nat) returns (acts: seq<Action>)
    requires Shaped(c, s) && GetDue(s, a, m) && m < c.boxes && s.mbox[m] != []
    requires s.mbox[m][0] < |c.size| && s.code[s.mbox[m][0]] == DISCARDED
    ensures OfReader(acts, a) && Runs(c, s, acts)
    ensures var t, b := Exec(c, s, acts), s.mbox[m][0];
            && Shaped(c, t) && OnlyRead(s, t, m) && t.mbox[m] == s.mbox[m][1..] && t.armed == s.armed
            && t.agents == s.agents[a := Agent(Looking(m), s.agents[a].hand)]
            && t.free == Appended(s.free, c.size[b], b)
  {
    hide Known, TickShaped, AgentShaped;
    var s1 := PopFront(c, s, a, m);
    StepShaped(c, s1, Check(a));
    var s2 := Apply(c, s1, Check(a));
    StepShaped(c, s2, Drop(a));
    RunOfOne(c, s, Pop(a));
    RunsOn(c, s, [Pop(a)], Check(a));
    RunsOn(c, s, [Pop(a)] + [Check(a)], Drop(a));
    acts := [Pop(a)] + [Check(a)] + [Drop(a)];
  }

  /** A live message in front is delivered: pop, check. */
  lemma DeliverFront(c: Config, s: State, a: nat, m: nat) returns (acts: seq<Action>)
    requires Shaped(c, s) && GetDue(s, a, m) && m < c.boxes && s.mbox[m] != []
    requires s.mbox[m][0] < |c.size| && s.code[s.mbox[m][0]] != DISCARDED
    ensures OfReader(acts, a) && Runs(c, s, acts)
    ensures var t, b := Exec(c, s, acts), s.mbox[m][0];
            && OnlyRead(s, t, m) && t.mbox[m] == s.mbox[m][1..] && t.free == s.free && t.armed == s.armed - {b}
            && t.agents == s.agents[a := Agent(Idle, s.agents[a].hand + multiset{b})]
  {
    hide Known, TickShaped, AgentShaped;
    var s1 := PopFront(c, s, a, m);
    RunOfOne(c, s, Pop(a));
    RunsOn(c, s, [Pop(a)], Check(a));
    acts := [Pop(a)] + [Check(a)];
  }

  /** An empty mailbox sends the thread away. */
  lemma FindNothing(c: Config, s: State, a: nat, m: nat) returns (acts: seq<Action>)
    requires Shaped(c, s) && GetDue(s, a, m) && m < c.boxes && s.mbox[m] == []
    ensures OfReader(acts, a) && Runs(c, s, acts)
    ensures Exec(c, s, acts) == s.(agents := s.agents[a := Agent(Idle, s.agents[a].hand)])
  {
    hide Known, TickShaped;
    RunOfOne(c, s, Pop(a));
    acts := [Pop(a)];
  }

  lemma KnownWithin(c: Config, s: State, m: nat)
    requires Shaped(c, s) && m < c.boxes
    ensures m < |s.mbox| && Within(c, s, s.mbox[m])
    ensures forall i :: 0 <= i < |s.mbox[m]| ==> c.size[s.mbox[m][i]] < |s.free|
  {
  }

  /** An uninterrupted Get always ends, and is the Get of one call. */
  lemma {:induction false} GetRun(c: Config, s: State, a: nat, m: nat) returns (acts: seq<Action>, k: nat)
    requires Shaped(c, s) && GetDue(s, a, m) && m < c.boxes
    ensures OfReader(acts, a) && Runs(c, s, acts) && GetDone(c, s, Exec(c, s, acts), a, m, k)
    decreases |s.mbox[m]|
  {
    hide GetDone, OnlyRead, Shaped, Apply, Enabled, Within;
    KnownWithin(c, s, m);
    if s.mbox[m] == [] {
      acts := FindNothing(c, s, a, m);
      k := 0;
      NothingDone(c, s, Exec(c, s, acts), a, m);
    } else if FrontCode(c, s, m) != DISCARDED {
      acts := DeliverFront(c, s, a, m);
      k := 0;
      FirstDone(c, s, Exec(c, s, acts), a, m);
    } else {
      var first := DropFront(c, s, a, m);
      var s1 := Exec(c, s, first);
      var rest;
      rest, k := GetRun(c, s1, a, m);
      RunsAppend(c, s, first, rest);
      acts := first + rest;
      MoreDone(c, s, s1, Exec(c, s1, rest), a, m, k);
      k := k + 1;
    }
  }

  function FrontCode(c: Config, s: State, m: nat): (code: uint16)
    requires m < |s.mbox| && s.mbox[m] != [] && Within(c, s, s.mbox[m])
    ensures s.mbox[m][0] < |c.size| && s.mbox[m][0] < |s.code| && code == s.code[s.mbox[m][0]]
  {
    s.code[s.mbox[m][0]]
  }

  lemma NothingDone(c: Config, s: State, t: State, a: nat, m: nat)
    requires Shaped(c, s) && a < |s.agents| && m < c.boxes && s.mbox[m] == []
    requires t == s.(agents := s.agents[a := Agent(Idle, s.agents[a].hand)])
    ensures GetDone(c, s, t, a, m, 0)
  {
  }

  lemma FirstDone(c: Config, s: State, t: State, a: nat, m: nat)
    requires Shaped(c, s) && a < |s.agents| && m < c.boxes && s.mbox[m] != [] && Within(c, s, s.mbox[m])
    requires s.code[s.mbox[m][0]] != DISCARDED && OnlyRead(s, t, m)
    requires t.agents == s.agents[a := Agent(Idle, s.agents[a].hand + multiset{s.mbox[m][0]})]
    requires t.mbox[m] == s.mbox[m][1..] && t.free == s.free && t.armed == s.armed - {s.mbox[m][0]}
    ensures GetDone(c, s, t, a, m, 0)
  {
    KnownWithin(c, s, m);
  }

  lemma MoreDone(c: Config, s: State, s1: State, t: State, a: nat, m: nat, k: nat)
    requires Shaped(c, s) && m < c.boxes && s.mbox[m] != [] && Within(c, s, s.mbox[m])
    requires OnlyRead(s, s1, m) && s1.mbox[m] == s.mbox[m][1..] && s1.armed == s.armed && a < |s.agents|
    requires s1.agents == s.agents[a := Agent(Looking(m), s.agents[a].hand)]
    requires s.code[s.mbox[m][0]] == DISCARDED && c.size[s.mbox[m][0]] < |s.free|
    requires s1.free == Appended(s.free, c.size[s.mbox[m][0]], s.mbox[m][0])
    requires GetDone(c, s1, t, a, m, k)
    ensures GetDone(c, s, t, a, m, k + 1)
  {
    hide Got, Shaped;
    var q := s.mbox[m];
    assert CodesAt(s1, s1.mbox[m]) == CodesAt(s, q)[1..] && ClassesAt(c, s1.mbox[m]) == ClassesAt(c, q)[1..];
    GotCons(q, CodesAt(s, q), ClassesAt(c, q), k, t.mbox[m], s.free, t.free);
    GotBound(q, CodesAt(s, q), ClassesAt(c, q), k + 1, t.mbox[m], s.free, t.free);
    assert k < |s1.mbox[m]| ==> s1.mbox[m][k] == q[k + 1];
  }

  lemma GotBound(q: seq<Buf>, codes: seq<uint16>, classes: seq<nat>, k: nat, q': seq<Buf>,
                 free: seq<seq<Buf>>, free': seq<seq<Buf>>)
    requires Got(q, codes, classes, k, q', free, free')
    ensures k <= |q|
  {
  }

  // ---------- posting, buffers and timers ----------

  /** The first half of a post: the mailbox as by MailBoxes.PostOffice.Link. */
  lemma LinkRun(c: Config, s: State, a: nat, b: Buf, m: nat)
    requires Shaped(c, s) && Owns(s, a, b) && m < c.boxes
    ensures Runs(c, s, [Link(a, b, m)])
    ensures Exec(c, s, [Link(a, b, m)])
         == s.(agents := s.agents[a := Agent(Posting(m), s.agents[a].hand - multiset{b})],
               mbox := Appended(s.mbox, m, b), linked := Appended(s.linked, m, b))
  {
    hide Known, AgentShaped, TickShaped;
    RunOfOne(c, s, Link(a, b, m));
  }

  /** The second half, whatever happened in between. */
  lemma ReleaseRun(c: Config, s: State, a: nat, m: nat)
    requires Shaped(c, s) && a < c.agents && s.agents[a].phase == Posting(m)
    ensures Runs(c, s, [Release(a)]) && m < |s.sem|
    ensures Exec(c, s, [Release(a)])
         == s.(agents := s.agents[a := Agent(Idle, s.agents[a].hand)], sem := Raised(s.sem, m))
  {
    hide Known, TickShaped;
    RunOfOne(c, s, Release(a));
  }

  /** One uninterrupted post: mailbox and semaphore as by MailBoxes.PostOffice.Add. Nothing but
      the thread's hand and phase has changed otherwise. */
  lemma PostRun(c: Config, s: State, a: nat, b: Buf, m: nat)
    requires Shaped(c, s) && Owns(s, a, b) && m < c.boxes
    ensures Runs(c, s, [Link(a, b, m), Release(a)])
    ensures Exec(c, s, [Link(a, b, m), Release(a)])
         == s.(agents := s.agents[a := Agent(Idle, s.agents[a].hand - multiset{b})],
               mbox := Appended(s.mbox, m, b), linked := Appended(s.linked, m, b), sem := Raised(s.sem, m))
  {
    hide Known, AgentShaped, TickShaped;
    StepShaped(c, s, Link(a, b, m));
    LinkRun(c, s, a, b, m);
    RunsOn(c, s, [Link(a, b, m)], Release(a));
    assert [Link(a, b, m)] + [Release(a)] == [Link(a, b, m), Release(a)];
  }

  /** A buffer given back: the free queues as by BufferPools.BufferPool.RetBuffer. */
  lemma ReturnRun(c: Config, s: State, a: nat, b: Buf)
    requires Shaped(c, s) && Owns(s, a, b) && b < |c.size|
    ensures Runs(c, s, [GiveBack(a, b)]) && c.size[b] < |s.free|
    ensures Exec(c, s, [GiveBack(a, b)])
         == s.(agents := s.agents[a := Agent(Idle, s.agents[a].hand - multiset{b})],
               free := Appended(s.free, c.size[b], b))
  {
    hide Known, AgentShaped, TickShaped;
    RunOfOne(c, s, GiveBack(a, b));
  }

  /** A buffer taken from a class: as by BufferPools.BufferPool.GetFrom. */
  lemma TakeRun(c: Config, s: State, a: nat, i: nat)
    requires Shaped(c, s) && Ready(s, a) && i < c.classes && s.free[i] != []
    ensures Runs(c, s, [Acquire(a, i)])
    ensures Exec(c, s, [Acquire(a, i)])
         == s.(agents := s.agents[a := Agent(Idle, s.agents[a].hand + multiset{s.free[i][0]})],
               free := s.free[i := s.free[i][1..]])
  {
    hide Known, AgentShaped, TickShaped;
    RunOfOne(c, s, Acquire(a, i));
  }

  /** A timer started: list and counts as by Timers.Timer.StartTimer, with the scaled count. */
  lemma StartRun(c: Config, s: State, a: nat, b: Buf, m: nat, count: nat)
    requires Shaped(c, s) && Owns(s, a, b) && b < |c.size| && m < c.boxes && c.least <= count <= COUNT_MAX && s.tick == Off
    ensures Runs(c, s, [Start(a, b, m, count)])
    ensures var t := Exec(c, s, [Start(a, b, m, count)]);
            && t.deltas == Insert(s.deltas, count)
            && t.timers == Spliced(s.timers, Place(s.deltas, count), Entry(b, |s.starts|))
            && t.target == s.target[b := m] && t.code == s.code
            && t.agents == s.agents[a := Agent(Idle, s.agents[a].hand - multiset{b})]
            && t == s.(agents := t.agents, timers := t.timers, deltas := t.deltas, target := t.target,
                       armed := t.armed, starts := t.starts)
  {
    hide Known, AgentShaped, TickShaped, Insert, Place;
    RunOfOne(c, s, Start(a, b, m, count));
  }

  /** A timer stopped: only its code changes, as by Timers.Timer.StopTimer. */
  lemma StopRun(c: Config, s: State, b: Buf)
    requires Shaped(c, s) && b in s.armed && b < |c.size|
    ensures Runs(c, s, [Stop(b)]) && b < |s.code|
    ensures Exec(c, s, [Stop(b)]) == s.(code := s.code[b := DISCARDED], armed := s.armed - {b})
  {
    hide Known, AgentShaped, TickShaped;
    RunOfOne(c, s, Stop(b));
  }

  /** A code written by the owner of a buffer. */
  lemma WriteRun(c: Config, s: State, a: nat, b: Buf, code: uint16)
    requires Shaped(c, s) && Owns(s, a, b) && b < |c.size|
    ensures Runs(c, s, [Write(a, b, code)]) && b < |s.code|
    ensures Exec(c, s, [Write(a, b, code)]) == s.(code := s.code[b := code])
  {
    hide Known, AgentShaped, TickShaped;
    RunOfOne(c, s, Write(a, b, code));
  }

  /** A tick that finds a zero in front: it wraps, and nothing is posted. */
  lemma WrapRun(c: Config, s: State)
    requires Shaped(c, s) && s.tick == Off && s.deltas != [] && s.deltas[0] == 0
    ensures Runs(c, s, [TickBegin, TickEnd])
    ensures Exec(c, s, [TickBegin, TickEnd]) == s.(deltas := s.deltas[0 := 0xFFFF_FFFF], now := s.now + 1)
  {
    hide Known, AgentShaped;
    StepShaped(c, s, TickBegin);
    RunOfOne(c, s, TickBegin);
    RunsOn(c, s, [TickBegin], TickEnd);
    assert [TickBegin] + [TickEnd] == [TickBegin, TickEnd];
  }

  /** A signalled wait and the Get behind it: semaphores, mailbox and free queues as by
      MailBoxes.PostOffice.GetSync on that mailbox. */
  lemma GetSyncRun(c: Config, s: State, a: nat, m: nat) returns (acts: seq<Action>, k: nat)
    requires Shaped(c, s) && Ready(s, a) && m < c.boxes && s.sem[m] > 0
    ensures OfReader(acts, a) && Runs(c, s, [Wait(a, m)]) && Runs(c, s, [Wait(a, m)] + acts)
    ensures Exec(c, s, [Wait(a, m)])
         == s.(agents := s.agents[a := Agent(Woken(m), s.agents[a].hand)], sem := s.sem[m := s.sem[m] - 1])
    ensures GetDone(c, s.(sem := s.sem[m := s.sem[m] - 1]), Exec(c, s, [Wait(a, m)] + acts), a, m, k)
  {
    hide GetDone, Known, AgentShaped, TickShaped;
    StepShaped(c, s, Wait(a, m));
    var s1 := Apply(c, s, Wait(a, m));
    acts, k := GetRun(c, s1, a, m);
    RunOfOne(c, s, Wait(a, m));
    RunsAppend(c, s, [Wait(a, m)], acts);
    PhaseForgotten(c, s.(sem := s.sem[m := s.sem[m] - 1]), s1, Exec(c, s1, acts), a, m, k);
  }

  /** A Get without a wait: as by MailBoxes.PostOffice.Get. */
  lemma PollRun(c: Config, s: State, a: nat, m: nat) returns (acts: seq<Action>, k: nat)
    requires Shaped(c, s) && Ready(s, a) && m < c.boxes
    ensures OfReader(acts, a) && Runs(c, s, [Poll(a, m)]) && Runs(c, s, [Poll(a, m)] + acts)
    ensures Exec(c, s, [Poll(a, m)]) == s.(agents := s.agents[a := Agent(Looking(m), s.agents[a].hand)])
    ensures GetDone(c, s, Exec(c, s, [Poll(a, m)] + acts), a, m, k)
  {
    hide GetDone, Known, AgentShaped, TickShaped;
    StepShaped(c, s, Poll(a, m));
    var s1 := Apply(c, s, Poll(a, m));
    acts, k := GetRun(c, s1, a, m);
    RunOfOne(c, s, Poll(a, m));
    RunsAppend(c, s, [Poll(a, m)], acts);
    PhaseForgotten(c, s, s1, Exec(c, s1, acts), a, m, k);
  }

  /** Where the thread stood before the Get does not show behind it. */
  lemma PhaseForgotten(c: Config, s: State, s1: State, t: State, a: nat, m: nat, k: nat)
    requires GetDone(c, s1, t, a, m, k) && a < |s.agents|
    requires exists phase :: s1 == s.(agents := s.agents[a := Agent(phase, s.agents[a].hand)])
    ensures GetDone(c, s, t, a, m, k)
  {
    hide Got;
    var phase :| s1 == s.(agents := s.agents[a := Agent(phase, s.agents[a].hand)]);
    assert CodesAt(s1, s1.mbox[m]) == CodesAt(s, s.mbox[m]);
  }

  // ---------- start-up ----------

  /** The machine starts as the constructors leave the kernel: empty mailboxes, semaphores at
      zero, no timer, nothing in hand, and in the free queue of each class its buffers in the
      order they were carved. */
  lemma StartUp(c: Config)
    requires Sane(c)
    ensures var s := Init(c);
            && |s.free| == c.classes && |s.mbox| == |s.sem| == c.boxes && |s.agents| == c.agents
            && (forall m :: 0 <= m < c.boxes ==> s.mbox[m] == [] && s.sem[m] == 0)
            && (forall a :: 0 <= a < c.agents ==> s.agents[a] == Agent(Idle, multiset{}))
            && s.timers == [] && s.deltas == [] && s.tick == Off && s.armed == {}
            && (forall i :: 0 <= i < c.classes ==> InOrder(c, s.free[i], |c.size|, i))
  {
    forall i | 0 <= i < c.classes
      ensures InOrder(c, Carved(c, |c.size|)[i], |c.size|, i)
    {
      CarvedInOrder(c, |c.size|, i);
    }
  }

  ghost predicate InOrder(c: Config, q: seq<Buf>, n: nat, i: nat) {
    && n <= |c.size|
    && (forall b :: b in q <==> 0 <= b < n && c.size[b] == i)
    && forall k, l :: 0 <= k < l < |q| ==> q[k] < q[l]
  }

  lemma {:induction false} CarvedInOrder(c: Config, n: nat, i: nat)
    requires Sane(c) && n <= |c.size| && i < c.classes
    ensures InOrder(c, Carved(c, n)[i], n, i)
  {
    hide InOrder;
    if n == 0 {
      CarvedNone(c, i);
    } else {
      CarvedInOrder(c, n - 1, i);
      CarvedOne(c, Carved(c, n - 1)[i], n - 1, i);
    }
  }

  lemma CarvedNone(c: Config, i: nat)
    ensures InOrder(c, [], 0, i)
  {
  }

  lemma CarvedOne(c: Config, q: seq<Buf>, n: nat, i: nat)
    requires n < |c.size| && InOrder(c, q, n, i)
    ensures InOrder(c, if c.size[n] == i then q + [n] else q, n + 1, i)
  {
    assert forall k :: 0 <= k < |q| ==> q[k] in q;
  }
}
