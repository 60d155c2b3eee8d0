/** Restarting a timer: the old message is cancelled and a copy takes its place. */
module Restarts {
  import opened Words
  import opened Deltas
  import opened Machine
  import opened Conservation
  import opened Places
  import opened Cancellation

  /** The steps of RestartTimer by thread `a`: a new buffer from class `i`, the code copied,
      the copy started to the same mailbox, the old timer stopped. */
  function Restart(s: State, a: nat, gone: Buf, copy: Buf, i: nat, count: nat): seq<Action>
    requires gone < |s.code| == |s.target|
  {
    [Acquire(a, i)] + [Write(a, copy, s.code[gone])] + [Start(a, copy, s.target[gone], count)] + [Stop(gone)]
  }

  /** After a restart the old timer is cancelled, and the copy, with the same code and
      mailbox, is the live handle. */
  lemma RestartSwapsHandles(c: Config, s: State, a: nat, gone: Buf, i: nat, count: nat)
    requires Sound(c, s) && gone in s.armed && gone < |c.size| && Ready(s, a) && s.tick == Off
    requires i < c.classes && s.free[i] != [] && c.least <= count <= COUNT_MAX && s.target[gone] < c.boxes
    ensures var copy, acts := s.free[i][0], Restart(s, a, gone, s.free[i][0], i, count);
            && Runs(c, s, acts)
            && var t := Exec(c, s, acts);
            && Sound(c, t) && Cancelled(t, gone) && Live(t, copy) && copy in t.armed && gone !in t.armed
            && copy < |c.size| && t.code[copy] == s.code[gone] && t.target[copy] == s.target[gone]
  {
    hide Insert, Place, Known, TickShaped, AgentShaped, Total, Pure, HandlesLive, DropsCancelled, Live, Cancelled;
    var copy := s.free[i][0];
    var s1 := AcquireStep(c, s, a, i);
    LiveHandle(s, gone);
    var s2 := WriteStep(c, s1, a, copy, s.code[gone]);
    var s3 := StartStep(c, s2, a, copy, s.target[gone], count);
    var s4 := StopStep(c, s3, gone);
    LiveHandle(s4, copy);
    RunOfOne(c, s, Acquire(a, i));
    RunsOn(c, s, [Acquire(a, i)], Write(a, copy, s.code[gone]));
    RunsOn(c, s, [Acquire(a, i)] + [Write(a, copy, s.code[gone])], Start(a, copy, s.target[gone], count));
    RunsOn(c, s, [Acquire(a, i)] + [Write(a, copy, s.code[gone])] + [Start(a, copy, s.target[gone], count)], Stop(gone));
  }

  lemma AcquireStep(c: Config, s: State, a: nat, i: nat) returns (t: State)
    requires Sound(c, s) && CanStep(c, s, Acquire(a, i))
    ensures Shaped(c, t) && t == Apply(c, s, Acquire(a, i)) && Sound(c, t)
    ensures Owns(t, a, s.free[i][0]) && s.free[i][0] < |c.size|
    ensures t.armed == s.armed && t.code == s.code && t.target == s.target && t.tick == s.tick
  {
    hide Total, Pure, HandlesLive, DropsCancelled;
    t := Apply(c, s, Acquire(a, i));
    StepSound(c, s, Acquire(a, i));
  }

  lemma WriteStep(c: Config, s: State, a: nat, b: Buf, code: uint16) returns (t: State)
    requires Sound(c, s) && CanStep(c, s, Write(a, b, code)) && b < |c.size|
    ensures Shaped(c, t) && t == Apply(c, s, Write(a, b, code)) && Sound(c, t) && Owns(t, a, b)
    ensures t.armed == s.armed && t.code == s.code[b := code] && t.target == s.target && t.tick == s.tick
  {
    hide Total, Pure, HandlesLive, DropsCancelled;
    t := Apply(c, s, Write(a, b, code));
    StepSound(c, s, Write(a, b, code));
  }

  lemma StartStep(c: Config, s: State, a: nat, b: Buf, m: nat, count: nat) returns (t: State)
    requires Sound(c, s) && CanStep(c, s, Start(a, b, m, count)) && b < |c.size| && s.code[b] != DISCARDED
    ensures Shaped(c, t) && t == Apply(c, s, Start(a, b, m, count)) && Sound(c, t)
    ensures t.armed == s.armed + {b} && t.code == s.code && t.target == s.target[b := m]
  {
    hide Total, Pure, HandlesLive, DropsCancelled;
    t := Apply(c, s, Start(a, b, m, count));
    StepSound(c, s, Start(a, b, m, count));
  }

  lemma StopStep(c: Config, s: State, b: Buf) returns (t: State)
    requires Sound(c, s) && CanStep(c, s, Stop(b))
    ensures Shaped(c, t) && t == Apply(c, s, Stop(b)) && Sound(c, t) && Cancelled(t, b)
    ensures t.armed == s.armed - {b} && t.code == s.code[b := DISCARDED] && t.target == s.target
  {
    hide Total, Pure, HandlesLive, DropsCancelled, Cancelled;
    t := Apply(c, s, Stop(b));
    StepSound(c, s, Stop(b));
    StopCancels(c, s, b);
  }

  lemma LiveHandle(s: State, b: Buf)
    requires HandlesLive(s) && b in s.armed
    ensures Live(s, b) && s.code[b] != DISCARDED
    ensures forall i :: 0 <= i < |s.free| ==> b !in s.free[i]
  {
  }

  // ---------- the same with anything between the steps ----------

  predicate ByOthers(acts: seq<Action>, a: nat) {
    forall i :: 0 <= i < |acts| ==> ByOther(acts[i], a)
  }

  /** The step ends the life of handle `b`: a thread receives its message, or it is stopped. */
  predicate Resolves(s: State, act: Action, b: Buf) {
    Delivers(s, act, b) || act == Stop(b)
  }

  predicate Resolved(c: Config, s: State, acts: seq<Action>, b: Buf)
    requires Runs(c, s, acts)
    decreases |acts|
  {
    acts != [] && (Resolves(s, acts[0], b) || Resolved(c, Apply(c, s, acts[0]), acts[1..], b))
  }

  /** Handle `b` is as it was: live, with the same code and the same mailbox. */
  predicate StillArmed(s: State, t: State, b: Buf) {
    && b in t.armed && Live(t, b)
    && b < |s.code| == |t.code| && b < |s.target| == |t.target|
    && t.code[b] == s.code[b] && t.target[b] == s.target[b]
  }

  predicate StillOwned(s: State, t: State, a: nat, b: Buf) {
    Owns(t, a, b) && b < |s.code| == |t.code| && t.code[b] == s.code[b]
  }

  lemma StepArmed(c: Config, s: State, act: Action, b: Buf)
    requires CanStep(c, s, act) && Sound(c, s) && b in s.armed && b < |c.size| && !Resolves(s, act, b)
    ensures StillArmed(s, Apply(c, s, act), b)
  {
    hide Conserved, DropsCancelled, Insert, Place, Known, TickShaped, AgentShaped;
    assert Live(s, b);
    StepLive(c, s, act, b);
    StepShaped(c, s, act);
  }

  /** A held buffer is no handle and in no other hand, so no step touches its code but its owner's. */
  lemma StepOwned(c: Config, s: State, act: Action, a: nat, b: Buf)
    requires CanStep(c, s, act) && Sound(c, s) && Owns(s, a, b) && b < |c.size| && ByOther(act, a)
    ensures StillOwned(s, Apply(c, s, act), a, b)
  {
    hide Conserved, DropsCancelled, Insert, Place, Known, TickShaped, AgentShaped;
    OwnedAlone(c, s, a, b);
    if act.Stop? {
      assert Live(s, act.b);
    } else if act.Write? {
      assert act.b in AgentBag(s.agents[act.a]);
    }
    StepShaped(c, s, act);
  }

  lemma {:induction false} RunArmed(c: Config, s: State, acts: seq<Action>, b: Buf)
    requires Runs(c, s, acts) && Sound(c, s) && Shaped(c, s) && b in s.armed && b < |c.size|
    ensures Resolved(c, s, acts, b) || StillArmed(s, Exec(c, s, acts), b)
    decreases |acts|
  {
    hide Conserved, DropsCancelled, Apply, Enabled, Resolves, Live;
    if acts == [] {
      assert Live(s, b);
    } else if !Resolves(s, acts[0], b) {
      StepArmed(c, s, acts[0], b);
      StepSound(c, s, acts[0]);
      StepShaped(c, s, acts[0]);
      RunArmed(c, Apply(c, s, acts[0]), acts[1..], b);
    }
  }

  lemma {:induction false} RunOwned(c: Config, s: State, acts: seq<Action>, a: nat, b: Buf)
    requires Runs(c, s, acts) && Sound(c, s) && Shaped(c, s) && Owns(s, a, b) && b < |c.size| && ByOthers(acts, a)
    ensures StillOwned(s, Exec(c, s, acts), a, b)
    decreases |acts|
  {
    hide Conserved, HandlesLive, DropsCancelled, Apply, Enabled, Owns;
    if acts != [] {
      StepOwned(c, s, acts[0], a, b);
      StepSound(c, s, acts[0]);
      StepShaped(c, s, acts[0]);
      RunOwned(c, Apply(c, s, acts[0]), acts[1..], a, b);
    }
  }

  /** From `s`, thread `a` does `act`, then others do `rest`, and the state is `t`. */
  predicate Segment(c: Config, s: State, act: Action, rest: seq<Action>, a: nat, t: State) {
    CanStep(c, s, act) && Runs(c, Apply(c, s, act), rest) && ByOthers(rest, a) && t == Exec(c, Apply(c, s, act), rest)
  }

  lemma SegmentRuns(c: Config, s: State, act: Action, rest: seq<Action>, a: nat, t: State)
    requires Segment(c, s, act, rest, a, t)
    ensures Runs(c, s, [act] + rest) && Exec(c, s, [act] + rest) == t
  {
    hide Apply, Shaped, Enabled;
    RunOfOne(c, s, act);
    RunsAppend(c, s, [act], rest);
  }

  /** During the segment a thread receives the message of handle `b`, or it is stopped. */
  predicate ResolvedIn(c: Config, s: State, act: Action, rest: seq<Action>, b: Buf)
    requires CanStep(c, s, act) && Runs(c, Apply(c, s, act), rest)
  {
    Resolves(s, act, b) || Resolved(c, Apply(c, s, act), rest, b)
  }

  predicate Reads(s: State, b: Buf, code: uint16, m: nat) {
    b < |s.code| && b < |s.target| && s.code[b] == code && s.target[b] == m
  }

  /** Over a segment a handle stays as it was unless it is resolved. */
  lemma SegmentArmed(c: Config, s: State, act: Action, rest: seq<Action>, a: nat, t: State, b: Buf)
    requires Segment(c, s, act, rest, a, t) && Sound(c, s) && b in s.armed && b < |c.size|
    ensures Sound(c, t)
    ensures ResolvedIn(c, s, act, rest, b) || StillArmed(s, t, b)
  {
    hide Conserved, HandlesLive, DropsCancelled, Apply, Enabled, Resolves, Live;
    StepSound(c, s, act);
    StepShaped(c, s, act);
    RunSound(c, Apply(c, s, act), rest);
    if !Resolves(s, act, b) {
      StepArmed(c, s, act, b);
      RunArmed(c, Apply(c, s, act), rest, b);
    }
  }

  lemma SegmentOwned(c: Config, s: State, act: Action, rest: seq<Action>, a: nat, t: State, b: Buf)
    requires Segment(c, s, act, rest, a, t) && Sound(c, s)
    requires b < |c.size| && Owns(Apply(c, s, act), a, b)
    ensures Sound(c, t) && StillOwned(Apply(c, s, act), t, a, b)
  {
    hide Conserved, HandlesLive, DropsCancelled, Apply, Enabled, Owns;
    StepSound(c, s, act);
    StepShaped(c, s, act);
    RunSound(c, Apply(c, s, act), rest);
    RunOwned(c, Apply(c, s, act), rest, a, b);
  }

  lemma StartedSegment(c: Config, s: State, a: nat, b: Buf, m: nat, count: nat, rest: seq<Action>, t: State)
    requires Segment(c, s, Start(a, b, m, count), rest, a, t) && Sound(c, s)
    requires b < |c.size| && s.code[b] != DISCARDED
    ensures Sound(c, t)
    ensures ResolvedIn(c, s, Start(a, b, m, count), rest, b) || (b in t.armed && Live(t, b) && Reads(t, b, s.code[b], m))
  {
    hide Conserved, HandlesLive, DropsCancelled, Apply, Enabled, Resolves, Live;
    var u := StartStep(c, s, a, b, m, count);
    RunSound(c, u, rest);
    RunArmed(c, u, rest, b);
  }

  /** RestartTimer by thread `a` with anything that other threads, the tick and stops do
      between its four steps. It copies the code and the mailbox it reads in `s1`. Then
      - the old message was received or stopped before the last step, or it is still the
        handle it was, the copy has its code and mailbox, and the last step cancels it;
      - the copy, unless it was made of a message stopped before, is live with that code and
        mailbox, or it was received or stopped after its start. */
  lemma RestartUnderInterleaving(c: Config, s: State, a: nat, gone: Buf, copy: Buf, i: nat, count: nat,
                                 code: uint16, m: nat, x1: seq<Action>, s1: State,
                                 x2: seq<Action>, s2: State, x3: seq<Action>, s3: State)
    requires Sound(c, s) && gone in s.armed && gone < |c.size|
    requires Segment(c, s, Acquire(a, i), x1, a, s1) && copy == s.free[i][0]
    requires Reads(s1, gone, code, m)
    requires Segment(c, s1, Write(a, copy, code), x2, a, s2)
    requires Segment(c, s2, Start(a, copy, m, count), x3, a, s3)
    ensures Sound(c, s3) && copy != gone
    ensures
      || ResolvedIn(c, s, Acquire(a, i), x1, gone)
      || ResolvedIn(c, s1, Write(a, copy, code), x2, gone)
      || ResolvedIn(c, s2, Start(a, copy, m, count), x3, gone)
      || (&& Reads(s, gone, code, m) && CanStep(c, s3, Stop(gone))
          && Cancelled(Apply(c, s3, Stop(gone)), gone) && gone !in Apply(c, s3, Stop(gone)).armed)
    ensures code != DISCARDED ==>
      || ResolvedIn(c, s2, Start(a, copy, m, count), x3, copy)
      || (copy in s3.armed && Live(s3, copy) && Reads(s3, copy, code, m)
          && (CanStep(c, s3, Stop(gone)) ==>
                var t := Apply(c, s3, Stop(gone)); copy in t.armed && Live(t, copy) && Reads(t, copy, code, m)))
  {
    hide Apply, Enabled, Insert, Place, Known, TickShaped, AgentShaped, Conserved, DropsCancelled, ResolvedIn, Resolved;
    var u0 := AcquireStep(c, s, a, i);
    LiveHandle(s, gone);
    hide HandlesLive, Live, Cancelled, Owns;
    SegmentOwned(c, s, Acquire(a, i), x1, a, s1, copy);
    SegmentArmed(c, s, Acquire(a, i), x1, a, s1, gone);
    var u1 := WriteStep(c, s1, a, copy, code);
    SegmentOwned(c, s1, Write(a, copy, code), x2, a, s2, copy);
    RestartEnds(c, s2, a, gone, copy, code, m, count, x3, s3);
    if StillArmed(s, s1, gone) {
      SegmentArmed(c, s1, Write(a, copy, code), x2, a, s2, gone);
    }
  }

  lemma StopSpares(c: Config, s: State, b: Buf, gone: Buf, code: uint16, m: nat)
    requires CanStep(c, s, Stop(gone)) && b != gone && b in s.armed && Live(s, b) && Reads(s, b, code, m)
    ensures var t := Apply(c, s, Stop(gone)); b in t.armed && Live(t, b) && Reads(t, b, code, m)
  {
  }

  /** The last two steps. */
  lemma RestartEnds(c: Config, s: State, a: nat, gone: Buf, copy: Buf, code: uint16, m: nat, count: nat,
                    rest: seq<Action>, t: State)
    requires Sound(c, s) && copy < |c.size| && gone < |c.size| && copy != gone && s.code[copy] == code
    requires Segment(c, s, Start(a, copy, m, count), rest, a, t)
    ensures Sound(c, t)
    ensures gone in s.armed ==>
      || ResolvedIn(c, s, Start(a, copy, m, count), rest, gone)
      || (CanStep(c, t, Stop(gone))
          && Cancelled(Apply(c, t, Stop(gone)), gone) && gone !in Apply(c, t, Stop(gone)).armed)
    ensures code != DISCARDED ==>
      || ResolvedIn(c, s, Start(a, copy, m, count), rest, copy)
      || (copy in t.armed && Live(t, copy) && Reads(t, copy, code, m)
          && (CanStep(c, t, Stop(gone)) ==>
                var u := Apply(c, t, Stop(gone)); copy in u.armed && Live(u, copy) && Reads(u, copy, code, m)))
  {
    hide Apply, Conserved, DropsCancelled, HandlesLive, Live, Cancelled, ResolvedIn, Known, TickShaped, AgentShaped;
    SegmentRuns(c, s, Start(a, copy, m, count), rest, a, t);
    RunSound(c, s, [Start(a, copy, m, count)] + rest);
    if gone in s.armed {
      SegmentArmed(c, s, Start(a, copy, m, count), rest, a, t, gone);
      if StillArmed(s, t, gone) {
        assert CanStep(c, t, Stop(gone)) by { SoundShaped(c, t); }
        var u := StopStep(c, t, gone);
      }
    }
    if code != DISCARDED {
      StartedSegment(c, s, a, copy, m, count, rest, t);
      if copy in t.armed && Live(t, copy) && Reads(t, copy, code, m) && CanStep(c, t, Stop(gone)) {
        StopSpares(c, t, copy, gone, code, m);
      }
    }
  }

  lemma SoundShaped(c: Config, s: State)
    requires Sound(c, s)
    ensures Shaped(c, s)
  {
  }
}
