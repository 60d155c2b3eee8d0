/** A timer started with count c is posted to its own mailbox in exactly the c-th tick,
    once, whatever else is started, stopped or posted meanwhile. */
module Expiry {
  import opened Sequences
  import opened Bags
  import opened Deltas
  import opened Machine
  import opened Conservation
  import opened Places
  import opened Calls

  // ---------- every start is pending, in transit or posted ----------

  function Ids(timers: seq<Entry>): (r: seq<nat>)
    ensures |r| == |timers|
    ensures forall i :: 0 <= i < |r| ==> r[i] == timers[i].id
  {
    seq(|timers|, i requires 0 <= i < |timers| => timers[i].id)
  }

  function PostIds(posts: seq<Post>): (r: seq<nat>)
    ensures |r| == |posts|
    ensures forall i :: 0 <= i < |r| ==> r[i] == posts[i].id
  {
    seq(|posts|, i requires 0 <= i < |posts| => posts[i].id)
  }

  function TickIds(tick: Tick): multiset<nat> {
    if tick.Carrying? then multiset{tick.e.id} else multiset{}
  }

  function AllIds(timers: seq<Entry>, tick: Tick, posts: seq<Post>): multiset<nat> {
    multiset(Ids(timers)) + TickIds(tick) + multiset(PostIds(posts))
  }

  predicate Ticketed(s: State) {
    AllIds(s.timers, s.tick, s.posts) == Below(|s.starts|)
  }

  lemma InsertIds(timers: seq<Entry>, p: nat, e: Entry)
    requires p <= |timers|
    ensures multiset(Ids(Spliced(timers, p, e))) == multiset(Ids(timers)) + multiset{e.id}
  {
    assert Ids(timers) == Ids(timers)[..p] + Ids(timers)[p..];
    assert Ids(Spliced(timers, p, e)) == Ids(timers)[..p] + [e.id] + Ids(timers)[p..];
  }

  lemma NewTicket(timers: seq<Entry>, p: nat, e: Entry, tick: Tick, posts: seq<Post>)
    requires p <= |timers| && AllIds(timers, tick, posts) == Below(e.id)
    ensures AllIds(Spliced(timers, p, e), tick, posts) == Below(e.id + 1)
  {
    hide Ids, PostIds;
    InsertIds(timers, p, e);
  }

  lemma RemoveIds(timers: seq<Entry>)
    requires timers != []
    ensures multiset(Ids(timers)) == multiset{timers[0].id} + multiset(Ids(timers[1..]))
  {
    assert Ids(timers) == [timers[0].id] + Ids(timers[1..]);
  }

  lemma StartTickets(c: Config, s: State, a: nat, b: Buf, m: nat, count: nat)
    requires CanStep(c, s, Start(a, b, m, count)) && Ticketed(s)
    ensures Ticketed(Apply(c, s, Start(a, b, m, count)))
  {
    hide Insert, Known, AgentShaped, TickShaped, AllIds, Below;
    NewTicket(s.timers, Place(s.deltas, count), Entry(b, |s.starts|), s.tick, s.posts);
  }

  lemma TakeTickets(c: Config, s: State)
    requires CanStep(c, s, TickTake) && Ticketed(s)
    ensures Ticketed(Apply(c, s, TickTake))
  {
    hide Known, AgentShaped, TickShaped, Ids, PostIds;
    RemoveIds(s.timers);
  }

  lemma LinkTickets(c: Config, s: State)
    requires CanStep(c, s, TickLink) && Ticketed(s)
    ensures Ticketed(Apply(c, s, TickLink))
  {
    hide Known, AgentShaped;
    var t := Apply(c, s, TickLink);
    assert PostIds(t.posts) == PostIds(s.posts) + [s.tick.e.id];
  }

  lemma StepTickets(c: Config, s: State, act: Action)
    requires CanStep(c, s, act) && Ticketed(s)
    ensures Ticketed(Apply(c, s, act))
  {
    hide Insert, Place, Known, AgentShaped, TickShaped, AllIds, Below;
    if !OfTimer(act) {
      Untouched(c, s, act);
      return;
    }
    match act
    case Start(a, b, m, count) => StartTickets(c, s, a, b, m, count);
    case TickTake => TakeTickets(c, s);
    case TickLink => LinkTickets(c, s);
    case _ => TickTickets(c, s, act);
  }

  lemma TickTickets(c: Config, s: State, act: Action)
    requires CanStep(c, s, act) && Ticketed(s) && (act.TickBegin? || act.TickRelease? || act.TickEnd?)
    ensures Ticketed(Apply(c, s, act))
  {
    hide Apply, Shaped, Enabled, AllIds, Below;
    TickKeeps(c, s, act);
    SameIds(s.timers, s.tick, Apply(c, s, act).tick, s.posts);
  }

  lemma TickKeeps(c: Config, s: State, act: Action)
    requires CanStep(c, s, act) && (act.TickBegin? || act.TickRelease? || act.TickEnd?)
    ensures var t := Apply(c, s, act);
            t.timers == s.timers && t.posts == s.posts && t.starts == s.starts && TickIds(t.tick) == TickIds(s.tick)
  {
    hide Known, AgentShaped, TickShaped;
  }

  predicate OfTimer(act: Action) {
    act.Start? || act.TickBegin? || act.TickTake? || act.TickLink? || act.TickRelease? || act.TickEnd?
  }

  /** No other step touches the timers. */
  lemma Untouched(c: Config, s: State, act: Action)
    requires CanStep(c, s, act) && !OfTimer(act)
    ensures var t := Apply(c, s, act);
            && t.timers == s.timers && t.deltas == s.deltas && t.tick == s.tick && t.target == s.target
            && t.starts == s.starts && t.posts == s.posts && t.now == s.now
  {
    hide Known, AgentShaped, TickShaped;
  }

  lemma SameIds(timers: seq<Entry>, t: Tick, u: Tick, posts: seq<Post>)
    requires TickIds(t) == TickIds(u)
    ensures AllIds(timers, t, posts) == AllIds(timers, u, posts)
  {
  }

  // ---------- the deltas say how long each start still has ----------

  /** Entry `e` is the start it claims to be, and expires `left` ticks from now. */
  predicate EntryTimed(starts: seq<Started>, target: seq<nat>, now: nat, e: Entry, left: nat) {
    && e.id < |starts| && e.buf < |target|
    && starts[e.id].buf == e.buf && starts[e.id].m == target[e.buf]
    && starts[e.id].when + starts[e.id].count == now + left
  }

  predicate ListTimed(starts: seq<Started>, target: seq<nat>, now: nat, timers: seq<Entry>, deltas: seq<nat>) {
    && |timers| == |deltas|
    && forall i :: 0 <= i < |timers| ==> EntryTimed(starts, target, now, timers[i], Deadlines(deltas)[i])
  }

  /** A post is that of its start, in the tick that was due. */
  predicate PostTimed(starts: seq<Started>, now: nat, p: Post) {
    && p.id < |starts| && p.when <= now
    && var st := starts[p.id];
       p == Post(p.id, st.buf, st.m, st.when + st.count)
  }

  predicate Timed(s: State) {
    && ListTimed(s.starts, s.target, s.now, s.timers, s.deltas)
    && (s.tick.Carrying? ==> EntryTimed(s.starts, s.target, s.now, s.tick.e, 0))
    && (s.tick == Off ==> FrontPositive(s.deltas))
    && (forall j :: 0 <= j < |s.posts| ==> PostTimed(s.starts, s.now, s.posts[j]))
  }

  lemma StartList(starts: seq<Started>, target: seq<nat>, now: nat, timers: seq<Entry>, deltas: seq<nat>,
                  b: Buf, m: nat, count: nat)
    requires ListTimed(starts, target, now, timers, deltas) && b < |target|
    requires forall i :: 0 <= i < |timers| ==> timers[i].buf != b
    ensures ListTimed(starts + [Started(b, m, count, now)], target[b := m], now,
                      Spliced(timers, Place(deltas, count), Entry(b, |starts|)), Insert(deltas, count))
  {
    InsertRefinesDeadlines(deltas, count);
    hide Insert, Place, Deadlines;
  }

  lemma BeginList(starts: seq<Started>, target: seq<nat>, now: nat, timers: seq<Entry>, deltas: seq<nat>)
    requires ListTimed(starts, target, now, timers, deltas) && FrontPositive(deltas)
    ensures ListTimed(starts, target, now + 1, timers, Counted(deltas))
  {
    hide Deadlines;
    DecrementLowersAll(deltas);
  }

  lemma {:induction false} RestDeadlines(ds: seq<nat>, i: nat)
    requires i + 1 < |ds|
    ensures Deadlines(ds)[i + 1] == Deadlines(ds[1..])[i] + ds[0]
  {
  }

  lemma TakeList(starts: seq<Started>, target: seq<nat>, now: nat, timers: seq<Entry>, deltas: seq<nat>)
    requires ListTimed(starts, target, now, timers, deltas) && timers != [] && deltas[0] == 0
    ensures ListTimed(starts, target, now, timers[1..], deltas[1..])
    ensures EntryTimed(starts, target, now, timers[0], 0)
  {
    forall i | 0 <= i < |timers| - 1
      ensures EntryTimed(starts, target, now, timers[1..][i], Deadlines(deltas[1..])[i])
    {
      RestDeadlines(deltas, i);
      assert EntryTimed(starts, target, now, timers[i + 1], Deadlines(deltas)[i + 1]);
    }
  }

  lemma StartTimes(c: Config, s: State, a: nat, b: Buf, m: nat, count: nat)
    requires CanStep(c, s, Start(a, b, m, count)) && Conserved(c, s) && Timed(s) && c.least >= 1
    ensures Timed(Apply(c, s, Start(a, b, m, count)))
  {
    hide Conserved, ListTimed, Insert, Place, Known, AgentShaped, TickShaped;
    OwnedAlone(c, s, a, b);
    StartList(s.starts, s.target, s.now, s.timers, s.deltas, b, m, count);
    InsertKeepsFrontPositive(s.deltas, count);
  }

  lemma StepTimes(c: Config, s: State, act: Action)
    requires CanStep(c, s, act) && Conserved(c, s) && Timed(s) && c.least >= 1
    ensures Timed(Apply(c, s, act))
  {
    hide Conserved, ListTimed, Insert, Place, Known, AgentShaped;
    if !OfTimer(act) {
      Untouched(c, s, act);
      return;
    }
    match act
    case Start(a, b, m, count) => StartTimes(c, s, a, b, m, count);
    case TickBegin => BeginList(s.starts, s.target, s.now, s.timers, s.deltas);
    case TickTake => TakeList(s.starts, s.target, s.now, s.timers, s.deltas);
    case _ =>
  }

  // ---------- exact expiry ----------

  /** Start number `k` was posted by the tick it asked for, to its own mailbox: not before
      that tick, exactly once, and by the end of it. */
  predicate Punctual(s: State, k: nat)
    requires k < |s.starts|
  {
    var due := s.starts[k].when + s.starts[k].count;
    && (forall j :: 0 <= j < |s.posts| && s.posts[j].id == k ==>
          s.posts[j] == Post(k, s.starts[k].buf, s.starts[k].m, due))
    && (forall i, j :: 0 <= i < j < |s.posts| ==> s.posts[i].id != k || s.posts[j].id != k)
    && (s.now < due ==> forall j :: 0 <= j < |s.posts| ==> s.posts[j].id != k)
    && (s.now >= due && s.tick == Off ==> exists j :: 0 <= j < |s.posts| && s.posts[j].id == k)
  }

  /** Every start with a positive count is. */
  predicate AllPunctual(s: State) {
    forall k :: 0 <= k < |s.starts| && s.starts[k].count >= 1 ==> Punctual(s, k)
  }

  /** The same over the run's own actions: action number `i`, a start, is posted in the tick
      that is its count after the ticks begun before it, once, to the mailbox it names. */
  predicate OnTime(acts: seq<Action>, t: State, i: nat)
    requires i < |acts| && acts[i].Start?
  {
    var k, due := Starts(acts[..i]), Ticks(acts[..i]) + acts[i].count;
    && (forall j :: 0 <= j < |t.posts| && t.posts[j].id == k ==>
          t.posts[j] == Post(k, acts[i].b, acts[i].m, due))
    && (forall j, l :: 0 <= j < l < |t.posts| ==> t.posts[j].id != k || t.posts[l].id != k)
    && (Ticks(acts) < due ==> forall j :: 0 <= j < |t.posts| ==> t.posts[j].id != k)
    && (Ticks(acts) >= due && t.tick == Off ==> exists j :: 0 <= j < |t.posts| && t.posts[j].id == k)
  }

  predicate AllOnTime(acts: seq<Action>, t: State) {
    forall i :: 0 <= i < |acts| && acts[i].Start? && acts[i].count >= 1 ==> OnTime(acts, t, i)
  }

  lemma OnTimeIff(acts: seq<Action>, t: State, i: nat)
    requires i < |acts| && acts[i].Start? && t.starts == Asked(acts, 0) && t.now == Ticks(acts)
    ensures var k := Starts(acts[..i]);
            k < |t.starts| && t.starts[k].count == acts[i].count && (OnTime(acts, t, i) <==> Punctual(t, k))
  {
    AskedAt(acts, 0, i);
  }

  /** The log of starts says nothing else than the actions. */
  lemma AllOnTimeIff(c: Config, acts: seq<Action>)
    requires Sane(c) && Runs(c, Init(c), acts)
    ensures AllOnTime(acts, Exec(c, Init(c), acts)) <==> AllPunctual(Exec(c, Init(c), acts))
  {
    hide Apply, Enabled, Shaped, OnTime, Punctual;
    var t := Exec(c, Init(c), acts);
    RunAsks(c, Init(c), acts);
    assert t.starts == [] + Asked(acts, 0) == Asked(acts, 0);
    if AllPunctual(t) {
      forall i | 0 <= i < |acts| && acts[i].Start? && acts[i].count >= 1
        ensures OnTime(acts, t, i)
      {
        OnTimeIff(acts, t, i);
      }
    }
    if AllOnTime(acts, t) {
      forall k | 0 <= k < |t.starts| && t.starts[k].count >= 1
        ensures Punctual(t, k)
      {
        var i := AskedBy(acts, k);
        OnTimeIff(acts, t, i);
      }
    }
  }

  lemma PostedOnce(s: State, i: nat, j: nat)
    requires Ticketed(s) && i < j < |s.posts|
    ensures s.posts[i].id != s.posts[j].id
  {
    if s.posts[i].id == s.posts[j].id {
      BelowCounts(|s.starts|);
      assert AllIds(s.timers, s.tick, s.posts)[s.posts[i].id] <= 1;
      Twice(PostIds(s.posts), i, j);
    }
  }

  /** Once its tick is over, a start can only be among the posts. */
  lemma PostedWhenDue(s: State, k: nat) returns (j: nat)
    requires Ticketed(s) && Timed(s) && k < |s.starts| && s.tick == Off
    requires s.now >= s.starts[k].when + s.starts[k].count
    ensures j < |s.posts| && s.posts[j].id == k
  {
    BelowCounts(|s.starts|);
    assert AllIds(s.timers, s.tick, s.posts)[k] == 1;
    forall i | 0 <= i < |s.timers|
      ensures Ids(s.timers)[i] != k
    {
      assert EntryTimed(s.starts, s.target, s.now, s.timers[i], Deadlines(s.deltas)[i]);
      assert Deadlines(s.deltas)[i] >= 1;
    }
    assert k !in multiset(Ids(s.timers));
    assert k in multiset(PostIds(s.posts));
    j :| j < |s.posts| && PostIds(s.posts)[j] == k;
  }

  lemma TimedIsPunctual(s: State, k: nat)
    requires Ticketed(s) && Timed(s) && k < |s.starts|
    ensures Punctual(s, k)
  {
    hide Ticketed, ListTimed;
    forall i, j | 0 <= i < j < |s.posts|
      ensures s.posts[i].id != s.posts[j].id
    {
      PostedOnce(s, i, j);
    }
    if s.tick == Off && s.now >= s.starts[k].when + s.starts[k].count {
      var j := PostedWhenDue(s, k);
    }
  }

  lemma {:induction false} RunTimed(c: Config, s: State, acts: seq<Action>)
    requires Runs(c, s, acts) && Conserved(c, s) && Ticketed(s) && Timed(s) && c.least >= 1
    ensures var t := Exec(c, s, acts); Ticketed(t) && Timed(t)
    decreases |acts|
  {
    hide Conserved, Ticketed, Timed, Apply, Enabled, Shaped;
    if acts != [] {
      StepConserves(c, s, acts[0]);
      StepTickets(c, s, acts[0]);
      StepTimes(c, s, acts[0]);
      RunTimed(c, Apply(c, s, acts[0]), acts[1..]);
    }
  }

  /** With positive counts only, every timer is posted in exactly the tick it asked for. */
  lemma RunPunctual(c: Config, acts: seq<Action>)
    requires Sane(c) && Runs(c, Init(c), acts) && c.least >= 1
    ensures AllPunctual(Exec(c, Init(c), acts)) && AllOnTime(acts, Exec(c, Init(c), acts))
  {
    hide Conserved, Apply, Enabled, Shaped, OnTime;
    AllOnTimeIff(c, acts);
    InitConserves(c);
    RunTimed(c, Init(c), acts);
    forall k | 0 <= k < |Exec(c, Init(c), acts).starts| && Exec(c, Init(c), acts).starts[k].count >= 1
      ensures Punctual(Exec(c, Init(c), acts), k)
    {
      TimedIsPunctual(Exec(c, Init(c), acts), k);
    }
  }

  // ---------- with any counts: to whom a timer is posted ----------

  predicate EntryNamed(starts: seq<Started>, target: seq<nat>, e: Entry) {
    e.id < |starts| && e.buf < |target| && starts[e.id].buf == e.buf && starts[e.id].m == target[e.buf]
  }

  /** Late or not, a timer is posted as the message and to the mailbox of its start. */
  predicate PostNamed(starts: seq<Started>, p: Post) {
    p.id < |starts| && p.buf == starts[p.id].buf && p.m == starts[p.id].m
  }

  predicate AllNamed(s: State) {
    && (forall i :: 0 <= i < |s.timers| ==> EntryNamed(s.starts, s.target, s.timers[i]))
    && (s.tick.Carrying? ==> EntryNamed(s.starts, s.target, s.tick.e))
    && (forall j :: 0 <= j < |s.posts| ==> PostNamed(s.starts, s.posts[j]))
  }

  lemma StartNames(c: Config, s: State, a: nat, b: Buf, m: nat, count: nat)
    requires CanStep(c, s, Start(a, b, m, count)) && Conserved(c, s) && AllNamed(s)
    ensures AllNamed(Apply(c, s, Start(a, b, m, count)))
  {
    hide Conserved, Insert, Place, Known, AgentShaped, TickShaped;
    OwnedAlone(c, s, a, b);
  }

  lemma StepNames(c: Config, s: State, act: Action)
    requires CanStep(c, s, act) && Conserved(c, s) && AllNamed(s)
    ensures AllNamed(Apply(c, s, act))
  {
    hide Conserved, Insert, Place, Known, AgentShaped, TickShaped;
    if !OfTimer(act) {
      Untouched(c, s, act);
    } else if act.Start? {
      StartNames(c, s, act.a, act.b, act.m, act.count);
    }
  }

  lemma {:induction false} RunNames(c: Config, s: State, acts: seq<Action>)
    requires Runs(c, s, acts) && Conserved(c, s) && AllNamed(s)
    ensures AllNamed(Exec(c, s, acts))
    decreases |acts|
  {
    hide Conserved, AllNamed, Apply, Enabled, Shaped;
    if acts != [] {
      StepConserves(c, s, acts[0]);
      StepNames(c, s, acts[0]);
      RunNames(c, Apply(c, s, acts[0]), acts[1..]);
    }
  }

  /** Every post of the timer, in every run, is that of a start among the actions: its buffer,
      to its mailbox. */
  lemma PostsAreAsked(c: Config, acts: seq<Action>, j: nat) returns (i: nat)
    requires Sane(c) && Runs(c, Init(c), acts) && j < |Exec(c, Init(c), acts).posts|
    ensures i < |acts| && acts[i].Start?
    ensures var p := Exec(c, Init(c), acts).posts[j];
            p.id == Starts(acts[..i]) && p.buf == acts[i].b && p.m == acts[i].m
  {
    hide Conserved, Apply, Enabled, Shaped;
    InitConserves(c);
    RunNames(c, Init(c), acts);
    RunAsks(c, Init(c), acts);
    var t := Exec(c, Init(c), acts);
    assert t.starts == [] + Asked(acts, 0) == Asked(acts, 0);
    assert PostNamed(t.starts, t.posts[j]);
    i := AskedBy(acts, t.posts[j].id);
    AskedAt(acts, 0, i);
  }
}
