/** What conservation means: one place per buffer, no list shares a buffer with another,
    and free plus in use is the number carved. */
module Places {
  import opened Bags
  import opened Machine
  import opened Conservation

  lemma {:induction false} RunConserves(c: Config, s: State, acts: seq<Action>)
    requires Runs(c, s, acts) && Conserved(c, s)
    ensures Conserved(c, Exec(c, s, acts))
    decreases |acts|
  {
    hide Conserved, Apply, Enabled, Shaped;
    if acts != [] {
      StepConserves(c, s, acts[0]);
      RunConserves(c, Apply(c, s, acts[0]), acts[1..]);
    }
  }

  /** In every reachable state each buffer is in exactly one place, once. */
  lemma OnePlace(c: Config, acts: seq<Action>, b: Buf)
    requires Sane(c) && Runs(c, Init(c), acts) && b < |c.size|
    ensures var s := Exec(c, Init(c), acts);
            Contents(s.free)[b] + Contents(s.mbox)[b] + multiset(Bufs(s.timers))[b]
            + Union(Hands(s.agents))[b] + TickBag(s.tick)[b] == 1
  {
    hide Contents, Union, Bufs, Hands, Shaped, Apply, Enabled;
    InitConserves(c);
    RunConserves(c, Init(c), acts);
    BelowCounts(|c.size|);
    assert Total(Exec(c, Init(c), acts))[b] == 1;
  }

  lemma Twice(q: seq<Buf>, k: nat, l: nat)
    requires k < l < |q| && q[k] == q[l]
    ensures multiset(q)[q[k]] >= 2
  {
    assert q == q[..k + 1] + q[k + 1..];
    assert q[..k + 1][k] == q[k] && q[k + 1..][l - k - 1] == q[k];
    assert multiset(q)[q[k]] == multiset(q[..k + 1])[q[k]] + multiset(q[k + 1..])[q[k]];
  }

  lemma TwiceInAll(qs: seq<seq<Buf>>, i: nat, k: nat, j: nat, l: nat)
    requires i <= j < |qs| && k < |qs[i]| && l < |qs[j]| && qs[i][k] == qs[j][l]
    requires i != j || k != l
    ensures Contents(qs)[qs[i][k]] >= 2
  {
    if i < j {
      UnionSplits(Queues(qs), i, j);
    } else {
      UnionHolds(Queues(qs), i);
      Twice(qs[i], if k < l then k else l, if k < l then l else k);
    }
  }

  /** All lists: the free queues, the mailboxes, the timer list. */
  function Lists(s: State): seq<seq<Buf>> {
    s.free + s.mbox + [Bufs(s.timers)]
  }

  /** A buffer at one position of a list is at no other position of any list. */
  lemma QueuesApart(c: Config, s: State, i: nat, k: nat, j: nat, l: nat)
    requires Conserved(c, s)
    requires var qs := Lists(s); i <= j < |qs| && k < |qs[i]| && l < |qs[j]| && qs[i][k] == qs[j][l]
    ensures i == j && k == l
  {
    hide Contents, Union, Hands, Bufs;
    var qs := Lists(s);
    ContentsAppend(s.free + s.mbox, [Bufs(s.timers)]);
    ContentsAppend(s.free, s.mbox);
    ContentsOne(Bufs(s.timers));
    BelowCounts(|c.size|);
    assert Total(s)[qs[i][k]] <= 1;
    if i != j || k != l {
      TwiceInAll(qs, i, k, j, l);
    }
  }

  /** What a thread has in hand is nowhere else. */
  lemma OwnedAlone(c: Config, s: State, a: nat, b: Buf)
    requires Conserved(c, s) && Owns(s, a, b)
    ensures b < |c.size|
    ensures forall i :: 0 <= i < |s.free| ==> b !in s.free[i]
    ensures forall m :: 0 <= m < |s.mbox| ==> b !in s.mbox[m]
    ensures forall i :: 0 <= i < |s.timers| ==> s.timers[i].buf != b
    ensures s.tick.Carrying? ==> s.tick.e.buf != b
    ensures forall x :: 0 <= x < |s.agents| && x != a ==> b !in AgentBag(s.agents[x])
    ensures s.agents[a].hand[b] == 1
  {
    BelowCounts(|c.size|);
    var hands := Hands(s.agents);
    UnionHolds(hands, a);
    assert Total(s)[b] == 1 && Union(hands)[b] == 1;
    NowhereIn(s.free, b);
    NowhereIn(s.mbox, b);
    assert b !in multiset(Bufs(s.timers));
    forall i | 0 <= i < |s.timers|
      ensures s.timers[i].buf != b
    {
      assert Bufs(s.timers)[i] in multiset(Bufs(s.timers));
    }
    forall x | 0 <= x < |s.agents| && x != a
      ensures b !in AgentBag(s.agents[x])
    {
      UnionSplits(hands, if x < a then x else a, if x < a then a else x);
    }
  }

  lemma NowhereIn(qs: seq<seq<Buf>>, b: Buf)
    requires Contents(qs)[b] == 0
    ensures forall i :: 0 <= i < |qs| ==> b !in qs[i]
  {
    forall i | 0 <= i < |qs|
      ensures b !in qs[i]
    {
      UnionHolds(Queues(qs), i);
      assert multiset(qs[i])[b] == 0;
    }
  }

  // ---------- free plus in use ----------

  /** The buffers of size class `i`, and those of them that are not free. */
  function OfClass(c: Config, i: nat): set<Buf> {
    set b | 0 <= b < |c.size| && c.size[b] == i
  }

  function InUse(c: Config, s: State, i: nat): set<Buf>
    requires i < |s.free|
  {
    set b <- OfClass(c, i) | b !in s.free[i]
  }

  /** Per class, the free queue and the buffers in use add up to the number carved; what
      is in use is in a mailbox, a timer or a hand. */
  lemma FreePlusInUse(c: Config, s: State, i: nat)
    requires Conserved(c, s) && i < c.classes
    ensures |s.free[i]| + |InUse(c, s, i)| == |OfClass(c, i)|
    ensures forall b <- InUse(c, s, i) ::
              Contents(s.mbox)[b] + multiset(Bufs(s.timers))[b] + Union(Hands(s.agents))[b] + TickBag(s.tick)[b] == 1
  {
    var free := set b <- s.free[i];
    forall k, l | 0 <= k < l < |s.free[i]|
      ensures s.free[i][k] != s.free[i][l]
    {
      if s.free[i][k] == s.free[i][l] {
        QueuesApart(c, s, i, k, i, l);
      }
    }
    SizeOfDistinct(s.free[i], free);
    assert free <= OfClass(c, i);
    assert InUse(c, s, i) == OfClass(c, i) - free;
    forall b <- InUse(c, s, i)
      ensures Contents(s.mbox)[b] + multiset(Bufs(s.timers))[b] + Union(Hands(s.agents))[b] + TickBag(s.tick)[b] == 1
    {
      NotFree(c, s, b);
    }
  }

  lemma NotFree(c: Config, s: State, b: Buf)
    requires Conserved(c, s) && b < |c.size| && b !in s.free[c.size[b]]
    ensures Contents(s.mbox)[b] + multiset(Bufs(s.timers))[b] + Union(Hands(s.agents))[b] + TickBag(s.tick)[b] == 1
  {
    BelowCounts(|c.size|);
    assert Total(s)[b] == 1;
    if Contents(s.free)[b] > 0 {
      var i, k := SomewhereIn(s.free, b);
    }
  }

  lemma SomewhereIn(qs: seq<seq<Buf>>, b: Buf) returns (i: nat, k: nat)
    requires Contents(qs)[b] > 0
    ensures i < |qs| && k < |qs[i]| && qs[i][k] == b
  {
    i := UnionFinds(Queues(qs), b);
    k :| k < |qs[i]| && qs[i][k] == b;
  }

  lemma {:induction false} SizeOfDistinct(q: seq<Buf>, elems: set<Buf>)
    requires elems == set b <- q
    requires forall k, l :: 0 <= k < l < |q| ==> q[k] != q[l]
    ensures |elems| == |q|
  {
    if q != [] {
      var rest := set b <- q[1..];
      assert elems == {q[0]} + rest;
      SizeOfDistinct(q[1..], rest);
    }
  }
}
