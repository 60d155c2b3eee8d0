/** The running kernel as interleaved atomic steps: one step is one critical section, one
    semaphore call, or one write by the owner of a buffer. Buffers are numbered. */
module Machine {
  import opened Sequences
  import opened Words
  import opened Mail
  import opened Deltas

  type Buf = nat

  const COUNT_MAX: nat := 0xFFFF_FFFF

  /** The pool, the number of mailboxes and of threads, and the least scaled count that
      any caller ever gives a timer. */
  datatype Config = Config(size: seq<nat>, classes: nat, boxes: nat, agents: nat, least: nat)

  /** Where a thread stands. Between a wait and the end of its Get it is Woken, Looking,
      Popped and Dropping; between the two halves of an Add it is Posting. */
  datatype Phase =
    | Idle
    | Woken(m: nat)           // a semaphore count was taken, nothing dequeued yet
    | Looking(m: nat)         // about to dequeue without one
    | Popped(b: Buf, m: nat, n: nat)    // unlinked message number n, code not read yet
    | Dropping(b: Buf, m: nat, n: nat)  // its code was DISCARDED
    | Posting(m: nat)         // linked a message, semaphore not released yet

  /** The thread has started a Get on mailbox `m` and not ended it. */
  predicate InGet(phase: Phase, m: nat) {
    (phase.Woken? || phase.Looking? || phase.Popped? || phase.Dropping?) && phase.m == m
  }

  datatype Agent = Agent(phase: Phase, hand: multiset<Buf>)

  /** An entry of the timer list, with the number of the start that made it. */
  datatype Entry = Entry(buf: Buf, id: nat)

  /** Where the interrupt handler stands. Except in Off it owns the timer's lock. */
  datatype Tick = Off | Draining | Carrying(e: Entry) | Posted(m: nat)

  /** History: a timer start, and a timer put into a mailbox. */
  datatype Started = Started(buf: Buf, m: nat, count: nat, when: nat)
  datatype Post = Post(id: nat, buf: Buf, m: nat, when: nat)

  /** History: what a Get found in the code of a message it had unlinked. */
  datatype Fate = Unread | Read(code: uint16)

  datatype State = State(
    free: seq<seq<Buf>>,      // the queue of each size class
    mbox: seq<seq<Buf>>,
    sem: seq<nat>,
    agents: seq<Agent>,
    timers: seq<Entry>,
    deltas: seq<nat>,
    tick: Tick,
    code: seq<uint16>,        // MSG_CODE of each buffer
    target: seq<nat>,         // TIMER_MBX_ID of each buffer
    armed: set<Buf>,          // the timer handles that the automates keep
    now: nat,                 // ticks begun
    starts: seq<Started>,
    posts: seq<Post>,
    linked: seq<seq<Buf>>,    // per mailbox, everything ever linked
    popped: seq<seq<Buf>>,    // everything ever dequeued, and what its code was
    fate: seq<seq<Fate>>,
    received: seq<seq<(nat, Buf)>>,   // what was handed to a thread, by number
    reclaimed: seq<seq<(nat, Buf)>>)  // what went back to the pool, by number

  datatype Action =
    | Acquire(a: nat, i: nat)                 // TBufferQue::Get
    | Write(a: nat, b: Buf, code: uint16)     // the owner sets the message code
    | GiveBack(a: nat, b: Buf)                // RetBuffer
    | Link(a: nat, b: Buf, m: nat)            // TMailBox::Add
    | Release(a: nat)                         // ReleaseSemaphore
    | Start(a: nat, b: Buf, m: nat, count: nat)  // CTimer::StartTimer
    | Stop(b: Buf)                            // CTimer::StopTimer
    | Wait(a: nat, m: nat)                    // WaitForMultipleObjects
    | Poll(a: nat, m: nat)                    // TPostOffice::Get: dequeue without waiting
    | Pop(a: nat)                             // TMailBox::GetFromHead
    | Check(a: nat)                           // is the message DISCARDED?
    | Drop(a: nat)                            // it is: RetBuffer
    | TickBegin | TickTake | TickLink | TickRelease | TickEnd

  // ---------- the initial state ----------

  predicate Sane(c: Config) {
    forall b :: 0 <= b < |c.size| ==> c.size[b] < c.classes
  }

  /** The free queues after the first `n` buffers have been carved. */
  function Carved(c: Config, n: nat): (r: seq<seq<Buf>>)
    requires Sane(c) && n <= |c.size|
    ensures |r| == c.classes && forall i, k :: 0 <= i < |r| && 0 <= k < |r[i]| ==> r[i][k] < n
  {
    if n == 0 then seq(c.classes, _ => [])
    else
      var qs, i := Carved(c, n - 1), c.size[n - 1];
      qs[i := qs[i] + [n - 1]]
  }

  function Repeat<T>(n: nat, x: T): (r: seq<T>)
    ensures |r| == n && forall i :: 0 <= i < n ==> r[i] == x
  {
    seq(n, _ => x)
  }

  function Init(c: Config): State
    requires Sane(c)
  {
    State(Carved(c, |c.size|), Repeat(c.boxes, []), Repeat(c.boxes, 0),
          Repeat(c.agents, Agent(Idle, multiset{})), [], [], Off,
          Repeat(|c.size|, 0), Repeat(|c.size|, 0), {}, 0, [], [],
          Repeat(c.boxes, []), Repeat(c.boxes, []), Repeat(c.boxes, []), Repeat(c.boxes, []), Repeat(c.boxes, []))
  }

  // ---------- the steps ----------

  predicate Shaped(c: Config, s: State) {
    && Sane(c)
    && |s.free| == c.classes && |s.agents| == c.agents
    && |s.mbox| == |s.sem| == |s.linked| == |s.popped| == |s.fate| == c.boxes
    && |s.received| == |s.reclaimed| == c.boxes
    && |s.code| == |s.target| == |c.size|
    && |s.deltas| == |s.timers|
    && (forall i :: 0 <= i < |s.timers| ==> s.timers[i].buf < |c.size| && s.target[s.timers[i].buf] < c.boxes)
    && Known(c, s.free) && Known(c, s.mbox)
    && TickShaped(c, s.tick, s.target)
    && (forall a :: 0 <= a < c.agents ==> AgentShaped(c, s.agents[a]))
  }

  predicate Known(c: Config, qs: seq<seq<Buf>>) {
    forall i, k :: 0 <= i < |qs| && 0 <= k < |qs[i]| ==> qs[i][k] < |c.size|
  }

  predicate TickShaped(c: Config, tick: Tick, target: seq<nat>)
    requires |target| == |c.size|
  {
    match tick
    case Off => true
    case Draining => true
    case Carrying(e) => e.buf < |c.size| && target[e.buf] < c.boxes
    case Posted(m) => m < c.boxes
  }

  predicate AgentShaped(c: Config, agent: Agent) {
    && (forall b <- agent.hand :: b < |c.size|)
    && match agent.phase
       case Idle => true
       case Woken(m) => m < c.boxes
       case Looking(m) => m < c.boxes
       case Popped(b, m, n) => m < c.boxes && b < |c.size|
       case Dropping(b, m, n) => m < c.boxes && b < |c.size|
       case Posting(m) => m < c.boxes
  }

  /** Thread `a` is between operations. */
  predicate Ready(s: State, a: nat) {
    a < |s.agents| && s.agents[a].phase == Idle
  }

  predicate Owns(s: State, a: nat, b: Buf) {
    Ready(s, a) && b in s.agents[a].hand
  }

  predicate Enabled(c: Config, s: State, act: Action)
    requires Shaped(c, s)
  {
    match act
    case Acquire(a, i) => Ready(s, a) && i < c.classes && s.free[i] != []
    case Write(a, b, code) => Owns(s, a, b)
    case GiveBack(a, b) => Owns(s, a, b)
    case Link(a, b, m) => Owns(s, a, b) && m < c.boxes
    case Release(a) => a < c.agents && s.agents[a].phase.Posting?
    case Start(a, b, m, count) =>
      Owns(s, a, b) && m < c.boxes && c.least <= count <= COUNT_MAX && s.tick == Off
    case Stop(b) => b in s.armed && b < |c.size|
    case Wait(a, m) => Ready(s, a) && m < c.boxes && s.sem[m] > 0
    case Poll(a, m) => Ready(s, a) && m < c.boxes
    case Pop(a) => a < c.agents && (s.agents[a].phase.Woken? || s.agents[a].phase.Looking?)
    case Check(a) => a < c.agents && s.agents[a].phase.Popped?
    case Drop(a) => a < c.agents && s.agents[a].phase.Dropping?
    case TickBegin => s.tick == Off
    case TickTake => s.tick == Draining && s.timers != [] && s.deltas[0] == 0
    case TickLink => s.tick.Carrying?
    case TickRelease => s.tick.Posted?
    case TickEnd => s.tick == Draining && (s.timers == [] || s.deltas[0] != 0)
  }

  function Moved(s: State, a: nat, phase: Phase, hand: multiset<Buf>): State
    requires a < |s.agents|
  {
    s.(agents := s.agents[a := Agent(phase, hand)])
  }

  /** RetBuffer, TMailBox::Add and ReleaseSemaphore. */
  function Returned(c: Config, s: State, b: Buf): State
    requires Sane(c) && |s.free| == c.classes && b < |c.size|
  {
    s.(free := Appended(s.free, c.size[b], b))
  }

  function Mailed(s: State, b: Buf, m: nat): State
    requires m < |s.mbox| == |s.linked|
  {
    s.(mbox := Appended(s.mbox, m, b), linked := Appended(s.linked, m, b))
  }

  function Signalled(s: State, m: nat): State
    requires m < |s.sem|
  {
    s.(sem := Raised(s.sem, m))
  }

  /** GetFromHead on mailbox `m`; null sends the thread back with nothing. */
  function Dequeued(s: State, a: nat, m: nat): State
    requires a < |s.agents| && m < |s.mbox| == |s.popped| == |s.fate|
  {
    if s.mbox[m] == [] then Moved(s, a, Idle, s.agents[a].hand)
    else
      var b := s.mbox[m][0];
      Moved(s, a, Popped(b, m, |s.popped[m]|), s.agents[a].hand)
        .(mbox := s.mbox[m := s.mbox[m][1..]], popped := Appended(s.popped, m, b), fate := Appended(s.fate, m, Unread))
  }

  function Noted(fate: seq<seq<Fate>>, m: nat, n: nat, f: Fate): (r: seq<seq<Fate>>)
    requires m < |fate|
    ensures |r| == |fate|
  {
    if n < |fate[m]| then fate[m := fate[m][n := f]] else fate
  }

  /** Get reads the code: a cancelled message is dropped, any other handed to the thread. */
  function Checked(s: State, a: nat, b: Buf, m: nat, n: nat): State
    requires a < |s.agents| && b < |s.code| && m < |s.fate| == |s.received|
  {
    var t := s.(fate := Noted(s.fate, m, n, Read(s.code[b])));
    if s.code[b] == DISCARDED then Moved(t, a, Dropping(b, m, n), s.agents[a].hand)
    else
      Moved(t, a, Idle, s.agents[a].hand + multiset{b})
        .(armed := s.armed - {b}, received := Appended(s.received, m, (n, b)))
  }

  /** CTimer::StartTimer under the timer's lock. The handle of a message that carries the
      code for cancelled ones is worthless from the start. */
  function Begun(s: State, a: nat, b: Buf, m: nat, count: nat): State
    requires a < |s.agents| && b < |s.target| == |s.code| && |s.timers| == |s.deltas|
  {
    Moved(s, a, Idle, s.agents[a].hand - multiset{b})
      .(timers := Spliced(s.timers, Place(s.deltas, count), Entry(b, |s.starts|)),
        deltas := Insert(s.deltas, count),
        target := s.target[b := m],
        armed := if s.code[b] == DISCARDED then s.armed else s.armed + {b},
        starts := s.starts + [Started(b, m, count, s.now)])
  }

  /** The 32-bit decrement of the front entry. */
  function Counted(ds: seq<nat>): (r: seq<nat>)
    ensures |r| == |ds|
  {
    if ds == [] then [] else ds[0 := if ds[0] == 0 then COUNT_MAX else ds[0] - 1]
  }

  function Apply(c: Config, s: State, act: Action): State
    requires Shaped(c, s) && Enabled(c, s, act)
  {
    match act
    case Acquire(a, i) =>
      Moved(s, a, Idle, s.agents[a].hand + multiset{s.free[i][0]}).(free := s.free[i := s.free[i][1..]])
    case Write(a, b, code) => s.(code := s.code[b := code])
    case GiveBack(a, b) => Returned(c, Moved(s, a, Idle, s.agents[a].hand - multiset{b}), b)
    case Link(a, b, m) => Mailed(Moved(s, a, Posting(m), s.agents[a].hand - multiset{b}), b, m)
    case Release(a) => Signalled(Moved(s, a, Idle, s.agents[a].hand), s.agents[a].phase.m)
    case Start(a, b, m, count) => Begun(s, a, b, m, count)
    case Stop(b) => s.(code := s.code[b := DISCARDED], armed := s.armed - {b})
    case Wait(a, m) => Moved(s, a, Woken(m), s.agents[a].hand).(sem := s.sem[m := s.sem[m] - 1])
    case Poll(a, m) => Moved(s, a, Looking(m), s.agents[a].hand)
    case Pop(a) => Dequeued(s, a, s.agents[a].phase.m)
    case Check(a) => Checked(s, a, s.agents[a].phase.b, s.agents[a].phase.m, s.agents[a].phase.n)
    case Drop(a) =>
      var Dropping(b, m, n) := s.agents[a].phase;
      Returned(c, Moved(s, a, Looking(m), s.agents[a].hand), b).(reclaimed := Appended(s.reclaimed, m, (n, b)))
    case TickBegin => s.(tick := Draining, now := s.now + 1, deltas := Counted(s.deltas))
    case TickTake => s.(tick := Carrying(s.timers[0]), timers := s.timers[1..], deltas := s.deltas[1..])
    case TickLink =>
      var e, m := s.tick.e, s.target[s.tick.e.buf];
      Mailed(s, e.buf, m).(tick := Posted(m), posts := s.posts + [Post(e.id, e.buf, m, s.now)])
    case TickRelease => Signalled(s, s.tick.m).(tick := Draining)
    case TickEnd => s.(tick := Off)
  }

  // ---------- runs ----------

  predicate CanStep(c: Config, s: State, act: Action) {
    Shaped(c, s) && Enabled(c, s, act)
  }

  predicate Runs(c: Config, s: State, acts: seq<Action>)
    decreases |acts|
  {
    acts == [] || (CanStep(c, s, acts[0]) && Runs(c, Apply(c, s, acts[0]), acts[1..]))
  }

  function Exec(c: Config, s: State, acts: seq<Action>): State
    requires Runs(c, s, acts)
    decreases |acts|
  {
    if acts == [] then s else Exec(c, Apply(c, s, acts[0]), acts[1..])
  }

  lemma {:induction false} RunsAppend(c: Config, s: State, xs: seq<Action>, ys: seq<Action>)
    requires Runs(c, s, xs) && Runs(c, Exec(c, s, xs), ys)
    ensures Runs(c, s, xs + ys) && Exec(c, s, xs + ys) == Exec(c, Exec(c, s, xs), ys)
    decreases |xs|
  {
    hide Apply, Shaped, Enabled;
    if xs == [] {
      assert xs + ys == ys;
    } else {
      assert (xs + ys)[1..] == xs[1..] + ys;
      RunsAppend(c, Apply(c, s, xs[0]), xs[1..], ys);
    }
  }

  lemma RunOfOne(c: Config, s: State, act: Action)
    requires CanStep(c, s, act)
    ensures Runs(c, s, [act]) && Exec(c, s, [act]) == Apply(c, s, act)
  {
    hide Apply, Shaped, Enabled;
    assert [act][1..] == [];
  }

  /** One more step at the end of a run. */
  lemma RunsOn(c: Config, s: State, xs: seq<Action>, act: Action)
    requires Runs(c, s, xs) && CanStep(c, Exec(c, s, xs), act)
    ensures Runs(c, s, xs + [act]) && Exec(c, s, xs + [act]) == Apply(c, Exec(c, s, xs), act)
  {
    hide Apply, Shaped, Enabled;
    RunOfOne(c, Exec(c, s, xs), act);
    RunsAppend(c, s, xs, [act]);
  }

  /** The step is not one of thread `a`'s: another thread's, the timer's, or a stop, which
      only writes a code and may be anybody's. */
  predicate ByOther(act: Action, a: nat) {
    match act
    case Acquire(x, _) => x != a
    case Write(x, _, _) => x != a
    case GiveBack(x, _) => x != a
    case Link(x, _, _) => x != a
    case Release(x) => x != a
    case Start(x, _, _, _) => x != a
    case Wait(x, _) => x != a
    case Poll(x, _) => x != a
    case Pop(x) => x != a
    case Check(x) => x != a
    case Drop(x) => x != a
    case _ => true
  }

  lemma ByOtherKeeps(c: Config, s: State, act: Action, a: nat)
    requires CanStep(c, s, act) && ByOther(act, a) && a < |s.agents|
    ensures |Apply(c, s, act).agents| == |s.agents| && Apply(c, s, act).agents[a] == s.agents[a]
  {
    hide Known, TickShaped, AgentShaped, Insert, Place;
  }

  lemma InitShaped(c: Config)
    requires Sane(c)
    ensures Shaped(c, Init(c))
  {
  }

  predicate OwnerStep(act: Action) {
    act.Acquire? || act.Write? || act.GiveBack?
  }

  predicate PosterStep(act: Action) {
    act.Link? || act.Release? || act.TickLink? || act.TickRelease?
  }

  predicate ReaderStep(act: Action) {
    act.Wait? || act.Poll? || act.Pop? || act.Check? || act.Drop?
  }

  lemma MovedShaped(c: Config, s: State, a: nat, phase: Phase, hand: multiset<Buf>)
    requires Shaped(c, s) && a < c.agents && AgentShaped(c, Agent(phase, hand))
    ensures Shaped(c, Moved(s, a, phase, hand))
  {
    hide AgentShaped, Known;
  }

  lemma MailedShaped(c: Config, s: State, b: Buf, m: nat)
    requires Shaped(c, s) && b < |c.size| && m < c.boxes
    ensures Shaped(c, Mailed(s, b, m))
  {
    hide AgentShaped;
  }

  lemma ReturnedShaped(c: Config, s: State, b: Buf)
    requires Shaped(c, s) && b < |c.size|
    ensures Shaped(c, Returned(c, s, b))
  {
    hide AgentShaped;
  }

  lemma OwnerShaped(c: Config, s: State, act: Action)
    requires CanStep(c, s, act) && OwnerStep(act)
    ensures Shaped(c, Apply(c, s, act))
  {
    hide TickShaped;
    match act
    case GiveBack(a, b) =>
      var hand := s.agents[a].hand - multiset{b};
      MovedShaped(c, s, a, Idle, hand);
      ReturnedShaped(c, Moved(s, a, Idle, hand), b);
    case _ =>
  }

  lemma PosterShaped(c: Config, s: State, act: Action)
    requires CanStep(c, s, act) && PosterStep(act)
    ensures Shaped(c, Apply(c, s, act))
  {
    hide Known;
    match act
    case Link(a, b, m) =>
      var hand := s.agents[a].hand - multiset{b};
      MovedShaped(c, s, a, Posting(m), hand);
      MailedShaped(c, Moved(s, a, Posting(m), hand), b, m);
    case Release(a) =>
    case TickLink => MailedShaped(c, s, s.tick.e.buf, s.target[s.tick.e.buf]);
    case TickRelease =>
  }

  lemma ReaderShaped(c: Config, s: State, act: Action)
    requires CanStep(c, s, act) && ReaderStep(act)
    ensures Shaped(c, Apply(c, s, act))
  {
    hide TickShaped;
    match act
    case Drop(a) =>
      var Dropping(b, m, n) := s.agents[a].phase;
      MovedShaped(c, s, a, Looking(m), s.agents[a].hand);
      ReturnedShaped(c, Moved(s, a, Looking(m), s.agents[a].hand), b);
    case Pop(a) => PopShaped(c, s, a);
    case Check(a) => CheckShaped(c, s, a);
    case _ =>
  }

  lemma CheckShaped(c: Config, s: State, a: nat)
    requires CanStep(c, s, Check(a))
    ensures Shaped(c, Apply(c, s, Check(a)))
  {
    hide TickShaped, Known;
  }

  lemma PopShaped(c: Config, s: State, a: nat)
    requires CanStep(c, s, Pop(a))
    ensures Shaped(c, Apply(c, s, Pop(a)))
  {
    hide TickShaped;
  }

  lemma TimerShaped(c: Config, s: State, act: Action)
    requires CanStep(c, s, act) && !OwnerStep(act) && !PosterStep(act) && !ReaderStep(act)
    ensures Shaped(c, Apply(c, s, act))
  {
    hide Insert, Place;
  }

  lemma StepShaped(c: Config, s: State, act: Action)
    requires CanStep(c, s, act)
    ensures Shaped(c, Apply(c, s, act))
  {
    hide CanStep, Apply, Shaped;
    if OwnerStep(act) {
      OwnerShaped(c, s, act);
    } else if PosterStep(act) {
      PosterShaped(c, s, act);
    } else if ReaderStep(act) {
      ReaderShaped(c, s, act);
    } else {
      TimerShaped(c, s, act);
    }
  }
}
