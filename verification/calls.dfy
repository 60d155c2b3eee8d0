/** What the calls of a run ask for, read off its actions alone: which timers are started, in
    which tick, and which messages are posted where. */
module Calls {
  import opened Mail
  import opened Deltas
  import opened Machine

  // ---------- the starts ----------

  /** The ticks that begin. */
  function Ticks(acts: seq<Action>): nat {
    if acts == [] then 0 else (if acts[0].TickBegin? then 1 else 0) + Ticks(acts[1..])
  }

  function Starts(acts: seq<Action>): nat {
    if acts == [] then 0 else (if acts[0].Start? then 1 else 0) + Starts(acts[1..])
  }

  /** The timers started, each with the buffer, mailbox and count of its call and the number
      of ticks begun by then. */
  function Asked(acts: seq<Action>, now: nat): (r: seq<Started>)
    ensures |r| == Starts(acts)
  {
    if acts == [] then []
    else
      match acts[0]
      case Start(a, b, m, count) => [Started(b, m, count, now)] + Asked(acts[1..], now)
      case TickBegin => Asked(acts[1..], now + 1)
      case _ => Asked(acts[1..], now)
  }

  /** A start that is an action of the run is asked for at its number, with its own arguments. */
  lemma {:induction false} AskedAt(acts: seq<Action>, now: nat, i: nat)
    requires i < |acts| && acts[i].Start?
    ensures Starts(acts[..i]) < Starts(acts)
    ensures Asked(acts, now)[Starts(acts[..i])]
         == Started(acts[i].b, acts[i].m, acts[i].count, now + Ticks(acts[..i]))
  {
    if i > 0 {
      assert acts[..i][1..] == acts[1..][..i - 1];
      AskedAt(acts[1..], if acts[0].TickBegin? then now + 1 else now, i - 1);
    }
  }

  /** Everything asked for is an action of the run. */
  lemma {:induction false} AskedBy(acts: seq<Action>, k: nat) returns (i: nat)
    requires k < Starts(acts)
    ensures i < |acts| && acts[i].Start? && Starts(acts[..i]) == k
  {
    if acts[0].Start? && k == 0 {
      i := 0;
    } else {
      i := AskedBy(acts[1..], if acts[0].Start? then k - 1 else k);
      i := i + 1;
      assert acts[..i][1..] == acts[1..][..i - 1];
    }
  }

  lemma StepAsks(c: Config, s: State, act: Action)
    requires CanStep(c, s, act)
    ensures var t := Apply(c, s, act);
            && t.now == s.now + (if act.TickBegin? then 1 else 0)
            && t.starts == s.starts + (if act.Start? then [Started(act.b, act.m, act.count, s.now)] else [])
  {
    hide Known, AgentShaped, TickShaped, Insert, Place;
  }

  /** The log of starts is what was asked for, and the clock counts the ticks. */
  lemma {:induction false} RunAsks(c: Config, s: State, acts: seq<Action>)
    requires Runs(c, s, acts)
    ensures var t := Exec(c, s, acts); t.now == s.now + Ticks(acts) && t.starts == s.starts + Asked(acts, s.now)
    decreases |acts|
  {
    hide Apply, Enabled, Shaped;
    if acts != [] {
      StepAsks(c, s, acts[0]);
      RunAsks(c, Apply(c, s, acts[0]), acts[1..]);
    }
  }

  // ---------- the messages ----------

  /** The posts of the timer, by the tick they happen in. */
  function PostTicks(acts: seq<Action>, now: nat): seq<nat> {
    if acts == [] then []
    else
      match acts[0]
      case TickLink => [now] + PostTicks(acts[1..], now)
      case TickBegin => PostTicks(acts[1..], now + 1)
      case _ => PostTicks(acts[1..], now)
  }

  /** The messages posted, in order: those of the threads to the mailboxes they name, and
      those of the timer, which `posts` lists. */
  function Sent(acts: seq<Action>, posts: seq<Post>): seq<(nat, Buf)> {
    if acts == [] then []
    else
      match acts[0]
      case Link(a, b, m) => [(m, b)] + Sent(acts[1..], posts)
      case TickLink =>
        if posts == [] then Sent(acts[1..], posts)
        else [(posts[0].m, posts[0].buf)] + Sent(acts[1..], posts[1..])
      case _ => Sent(acts[1..], posts)
  }

  lemma {:induction false} ToCons<B>(x: (nat, B), rest: seq<(nat, B)>, m: nat)
    ensures To([x] + rest, m) == (if x.0 == m then [x.1] else []) + To(rest, m)
  {
    if rest == [] {
      assert [x] + rest == [x] && [x][..0] == [];
    } else {
      var n := |rest| - 1;
      assert ([x] + rest)[..n + 1] == [x] + rest[..n];
      ToCons(x, rest[..n], m);
    }
  }

  /** What one step posts. */
  lemma StepSends(c: Config, s: State, act: Action, m: nat)
    requires CanStep(c, s, act) && m < c.boxes
    ensures var t := Apply(c, s, act);
            && m < |t.linked| && |t.posts| == |s.posts| + (if act.TickLink? then 1 else 0) && t.posts[..|s.posts|] == s.posts
            && (act.TickLink? ==> t.posts[|s.posts|].when == s.now)
            && t.linked[m] == s.linked[m] + (match act
                 case Link(a, b, to) => if to == m then [b] else []
                 case TickLink => if t.posts[|s.posts|].m == m then [t.posts[|s.posts|].buf] else []
                 case _ => [])
  {
    hide Known, AgentShaped, Insert, Place;
  }

  /** What a run has linked to mailbox `m`, apart from `linked`: the messages that its actions
      posted there; and each post of the timer is logged in the tick of its action. */
  predicate SentSince(s: State, acts: seq<Action>, t: State, m: nat) {
    && m < |s.linked| && m < |t.linked| && |s.posts| <= |t.posts| && t.posts[..|s.posts|] == s.posts
    && var posts := t.posts[|s.posts|..];
       && |posts| == |PostTicks(acts, s.now)|
       && (forall j :: 0 <= j < |posts| ==> posts[j].when == PostTicks(acts, s.now)[j])
       && t.linked[m] == s.linked[m] + To(Sent(acts, posts), m)
  }

  lemma {:induction false} RunSends(c: Config, s: State, acts: seq<Action>, m: nat)
    requires Runs(c, s, acts) && Shaped(c, s) && m < c.boxes
    ensures SentSince(s, acts, Exec(c, s, acts), m)
    decreases |acts|
  {
    hide Apply, Enabled;
    if acts == [] {
      assert s.linked[m] + [] == s.linked[m];
    } else {
      var act, u := acts[0], Apply(c, s, acts[0]);
      StepShaped(c, s, act);
      StepSends(c, s, act, m);
      StepAsks(c, s, act);
      RunSends(c, u, acts[1..], m);
      SentMore(s, act, u, acts[1..], Exec(c, u, acts[1..]), m);
      assert [act] + acts[1..] == acts;
    }
  }

  lemma SentMore(s: State, act: Action, u: State, rest: seq<Action>, t: State, m: nat)
    requires SentSince(u, rest, t, m) && m < |s.linked|
    requires u.now == s.now + (if act.TickBegin? then 1 else 0)
    requires |u.posts| == |s.posts| + (if act.TickLink? then 1 else 0) && u.posts[..|s.posts|] == s.posts
    requires act.TickLink? ==> u.posts[|s.posts|].when == s.now
    requires u.linked[m] == s.linked[m] + (match act
               case Link(a, b, to) => if to == m then [b] else []
               case TickLink => if u.posts[|s.posts|].m == m then [u.posts[|s.posts|].buf] else []
               case _ => [])
    ensures SentSince(s, [act] + rest, t, m)
  {
    hide To;
    assert ([act] + rest)[0] == act && ([act] + rest)[1..] == rest;
    var posts, more := t.posts[|s.posts|..], t.posts[|u.posts|..];
    match act
    case Link(a, b, to) => ToCons((to, b), Sent(rest, more), m);
    case TickLink =>
      assert u.posts[|s.posts|] == t.posts[|s.posts|];
      assert posts[0] == u.posts[|s.posts|] && posts[1..] == more;
      ToCons((posts[0].m, posts[0].buf), Sent(rest, more), m);
    case _ =>
  }

  /** In every run from the start: a mailbox has been linked exactly the messages that threads
      posted to it and the timers that were posted to it, in the order of the actions. */
  lemma MailboxGetsItsPosts(c: Config, acts: seq<Action>, m: nat)
    requires Sane(c) && Runs(c, Init(c), acts) && m < c.boxes
    ensures var t := Exec(c, Init(c), acts);
            && m < |t.linked| && t.linked[m] == To(Sent(acts, t.posts), m)
            && |t.posts| == |PostTicks(acts, 0)|
            && forall j :: 0 <= j < |t.posts| ==> t.posts[j].when == PostTicks(acts, 0)[j]
  {
    hide Apply, Enabled, Shaped, To;
    InitShaped(c);
    RunSends(c, Init(c), acts, m);
    var t := Exec(c, Init(c), acts);
    assert t.posts[0..] == t.posts && [] + To(Sent(acts, t.posts), m) == To(Sent(acts, t.posts), m);
  }
}
