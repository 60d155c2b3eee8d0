/** What Get returns over whole runs: the messages added to a mailbox, in order, minus those
    whose code was DISCARDED when it was read; these go back to the pool. */
module MailOrder {
  import opened Words
  import opened Mail
  import opened Deltas
  import opened Bags
  import opened Machine
  import opened Calls

  // ---------- the fates of dequeued messages ----------

  datatype Kind = Open | Live | Dead

  function KindOf(f: Fate): Kind {
    match f
    case Unread => Open
    case Read(code) => if code == DISCARDED then Dead else Live
  }

  /** The dequeued messages of one kind, in the order in which they were dequeued, each with
      its number. */
  function Pick(bs: seq<Buf>, fs: seq<Fate>, k: Kind): (r: seq<(nat, Buf)>)
    requires |bs| == |fs|
  {
    if bs == [] then []
    else
      var n := |bs| - 1;
      Pick(bs[..n], fs[..n], k) + (if KindOf(fs[n]) == k then [(n, bs[n])] else [])
  }

  /** A message is picked exactly when it has that kind. */
  lemma {:induction false} PickIff(bs: seq<Buf>, fs: seq<Fate>, k: Kind, x: (nat, Buf))
    requires |bs| == |fs|
    ensures x in Pick(bs, fs, k) <==> x.0 < |bs| && bs[x.0] == x.1 && KindOf(fs[x.0]) == k
  {
    if bs != [] {
      var n := |bs| - 1;
      PickIff(bs[..n], fs[..n], k, x);
    }
  }

  /** In order: the numbers ascend. */
  lemma {:induction false} PickAscends(bs: seq<Buf>, fs: seq<Fate>, k: Kind, i: nat, j: nat)
    requires |bs| == |fs| && i < j < |Pick(bs, fs, k)|
    ensures Pick(bs, fs, k)[i].0 < Pick(bs, fs, k)[j].0
  {
    var n := |bs| - 1;
    var before := Pick(bs[..n], fs[..n], k);
    if j < |before| {
      PickAscends(bs[..n], fs[..n], k, i, j);
    } else {
      PickIff(bs[..n], fs[..n], k, before[i]);
    }
  }

  lemma PickMore(bs: seq<Buf>, fs: seq<Fate>, k: Kind, b: Buf, f: Fate)
    requires |bs| == |fs|
    ensures Pick(bs + [b], fs + [f], k) == Pick(bs, fs, k) + (if KindOf(f) == k then [(|bs|, b)] else [])
  {
    assert (bs + [b])[..|bs|] == bs && (fs + [f])[..|fs|] == fs;
  }

  function Bag(x: (nat, Buf), counts: bool): multiset<(nat, Buf)> {
    if counts then multiset{x} else multiset{}
  }

  lemma BagsWithTail(p: seq<(nat, Buf)>, q: seq<(nat, Buf)>, tail: seq<(nat, Buf)>,
                     x: multiset<(nat, Buf)>, y: multiset<(nat, Buf)>)
    requires multiset(p) + x == multiset(q) + y
    ensures multiset(p + tail) + x == multiset(q + tail) + y
  {
    assert multiset(p + tail) + x == multiset(p) + x + multiset(tail);
    assert multiset(q + tail) + y == multiset(q) + y + multiset(tail);
  }

  lemma PickLast(bs: seq<Buf>, fs: seq<Fate>, k: Kind)
    requires |bs| == |fs| > 0
    ensures var n := |bs| - 1;
            Pick(bs, fs, k) == Pick(bs[..n], fs[..n], k) + (if KindOf(fs[n]) == k then [(n, bs[n])] else [])
  {
  }

  /** Reading the code of an open message moves it to its kind. */
  lemma {:induction false} PickRead(bs: seq<Buf>, fs: seq<Fate>, n: nat, f: Fate, k: Kind)
    requires |bs| == |fs| && n < |bs| && fs[n] == Unread && f != Unread
    ensures multiset(Pick(bs, fs, k)) + Bag((n, bs[n]), KindOf(f) == k)
         == multiset(Pick(bs, fs[n := f], k)) + Bag((n, bs[n]), k == Open)
  {
    hide Pick;
    var l := |bs| - 1;
    PickLast(bs, fs, k);
    PickLast(bs, fs[n := f], k);
    if n == l {
      assert fs[n := f][..l] == fs[..l];
    } else {
      PickRead(bs[..l], fs[..l], n, f, k);
      assert fs[n := f][..l] == fs[..l][n := f];
      BagsWithTail(Pick(bs[..l], fs[..l], k), Pick(bs[..l], fs[..l][n := f], k),
                   if KindOf(fs[l]) == k then [(l, bs[l])] else [],
                   Bag((n, bs[n]), KindOf(f) == k), Bag((n, bs[n]), k == Open));
    }
  }

  lemma PickReads(bs: seq<Buf>, fs: seq<Fate>, n: nat, f: Fate, k: Kind)
    requires |bs| == |fs| && n < |bs| && fs[n] == Unread && f != Unread
    ensures var was, now, x := multiset(Pick(bs, fs, k)), multiset(Pick(bs, fs[n := f], k)), multiset{(n, bs[n])};
            && (k == Open ==> was == now + x)
            && (k == KindOf(f) ==> now == was + x)
            && (k != Open && k != KindOf(f) ==> now == was)
  {
    hide Pick;
    PickRead(bs, fs, n, f, k);
    var was, now := multiset(Pick(bs, fs, k)), multiset(Pick(bs, fs[n := f], k));
    assert was + multiset{} == was && now + multiset{} == now;
  }

  // ---------- threads that have a message between mailbox and hand ----------

  function OpenAt(phase: Phase, m: nat): multiset<(nat, Buf)> {
    if phase.Popped? && phase.m == m then multiset{(phase.n, phase.b)} else multiset{}
  }

  function DeadAt(phase: Phase, m: nat): multiset<(nat, Buf)> {
    if phase.Dropping? && phase.m == m then multiset{(phase.n, phase.b)} else multiset{}
  }

  function OpenBags(agents: seq<Agent>, m: nat): (r: seq<multiset<(nat, Buf)>>)
    ensures |r| == |agents|
    ensures forall a :: 0 <= a < |agents| ==> r[a] == OpenAt(agents[a].phase, m)
  {
    seq(|agents|, a requires 0 <= a < |agents| => OpenAt(agents[a].phase, m))
  }

  function DeadBags(agents: seq<Agent>, m: nat): (r: seq<multiset<(nat, Buf)>>)
    ensures |r| == |agents|
    ensures forall a :: 0 <= a < |agents| ==> r[a] == DeadAt(agents[a].phase, m)
  {
    seq(|agents|, a requires 0 <= a < |agents| => DeadAt(agents[a].phase, m))
  }

  lemma OpenChange(agents: seq<Agent>, a: nat, x: Agent, m: nat)
    requires a < |agents|
    ensures Union(OpenBags(agents[a := x], m)) + OpenAt(agents[a].phase, m)
         == Union(OpenBags(agents, m)) + OpenAt(x.phase, m)
  {
    hide OpenAt;
    UnionUpdate(OpenBags(agents, m), a, OpenAt(x.phase, m));
    assert OpenBags(agents[a := x], m) == OpenBags(agents, m)[a := OpenAt(x.phase, m)];
  }

  lemma DeadChange(agents: seq<Agent>, a: nat, x: Agent, m: nat)
    requires a < |agents|
    ensures Union(DeadBags(agents[a := x], m)) + DeadAt(agents[a].phase, m)
         == Union(DeadBags(agents, m)) + DeadAt(x.phase, m)
  {
    hide DeadAt;
    UnionUpdate(DeadBags(agents, m), a, DeadAt(x.phase, m));
    assert DeadBags(agents[a := x], m) == DeadBags(agents, m)[a := DeadAt(x.phase, m)];
  }

  // ---------- the account of one mailbox ----------

  /** Everything linked was dequeued or still waits, in that order. What was dequeued is
      being looked at by a thread, or was handed to one, or was dropped: exactly by its kind. */
  predicate Account(linked: seq<Buf>, popped: seq<Buf>, mbox: seq<Buf>, fate: seq<Fate>,
                    received: seq<(nat, Buf)>, reclaimed: seq<(nat, Buf)>,
                    open: multiset<(nat, Buf)>, dead: multiset<(nat, Buf)>)
  {
    && linked == popped + mbox && |fate| == |popped|
    && multiset(Pick(popped, fate, Open)) == open
    && multiset(Pick(popped, fate, Live)) == multiset(received)
    && multiset(Pick(popped, fate, Dead)) == multiset(reclaimed) + dead
  }

  predicate AccountOf(s: State, m: nat) {
    && m < |s.mbox| == |s.linked| == |s.popped| == |s.fate| == |s.received| == |s.reclaimed|
    && Account(s.linked[m], s.popped[m], s.mbox[m], s.fate[m], s.received[m], s.reclaimed[m],
               Union(OpenBags(s.agents, m)), Union(DeadBags(s.agents, m)))
  }

  predicate Accounted(s: State) {
    forall m :: 0 <= m < |s.mbox| ==> AccountOf(s, m)
  }

  lemma AccountLink(linked: seq<Buf>, popped: seq<Buf>, mbox: seq<Buf>, fate: seq<Fate>,
                    received: seq<(nat, Buf)>, reclaimed: seq<(nat, Buf)>,
                    open: multiset<(nat, Buf)>, dead: multiset<(nat, Buf)>, b: Buf)
    requires Account(linked, popped, mbox, fate, received, reclaimed, open, dead)
    ensures Account(linked + [b], popped, mbox + [b], fate, received, reclaimed, open, dead)
  {
    hide Pick;
    assert popped + (mbox + [b]) == popped + mbox + [b];
  }

  lemma AccountPop(linked: seq<Buf>, popped: seq<Buf>, mbox: seq<Buf>, fate: seq<Fate>,
                   received: seq<(nat, Buf)>, reclaimed: seq<(nat, Buf)>,
                   open: multiset<(nat, Buf)>, dead: multiset<(nat, Buf)>)
    requires Account(linked, popped, mbox, fate, received, reclaimed, open, dead) && mbox != []
    ensures Account(linked, popped + [mbox[0]], mbox[1..], fate + [Unread], received, reclaimed,
                    open + multiset{(|popped|, mbox[0])}, dead)
  {
    PickMore(popped, fate, Open, mbox[0], Unread);
    PickMore(popped, fate, Live, mbox[0], Unread);
    PickMore(popped, fate, Dead, mbox[0], Unread);
    hide Pick;
    assert mbox == [mbox[0]] + mbox[1..];
    assert popped + [mbox[0]] + mbox[1..] == popped + mbox;
  }

  lemma AccountRead(linked: seq<Buf>, popped: seq<Buf>, mbox: seq<Buf>, fate: seq<Fate>,
                    received: seq<(nat, Buf)>, reclaimed: seq<(nat, Buf)>,
                    open: multiset<(nat, Buf)>, dead: multiset<(nat, Buf)>, n: nat, b: Buf, code: uint16)
    requires Account(linked, popped, mbox, fate, received, reclaimed, open + multiset{(n, b)}, dead)
    ensures n < |fate|
    ensures code != DISCARDED ==>
              Account(linked, popped, mbox, fate[n := Read(code)], received + [(n, b)], reclaimed, open, dead)
    ensures code == DISCARDED ==>
              Account(linked, popped, mbox, fate[n := Read(code)], received, reclaimed, open, dead + multiset{(n, b)})
  {
    hide Pick;
    assert (n, b) in multiset(Pick(popped, fate, Open));
    PickIff(popped, fate, Open, (n, b));
    var f := Read(code);
    PickReads(popped, fate, n, f, Open);
    PickReads(popped, fate, n, f, Live);
    PickReads(popped, fate, n, f, Dead);
    Cancel(multiset(Pick(popped, fate[n := f], Open)), open, multiset{(n, b)});
    assert multiset(received + [(n, b)]) == multiset(received) + multiset{(n, b)};
  }

  lemma AccountDrop(linked: seq<Buf>, popped: seq<Buf>, mbox: seq<Buf>, fate: seq<Fate>,
                    received: seq<(nat, Buf)>, reclaimed: seq<(nat, Buf)>,
                    open: multiset<(nat, Buf)>, dead: multiset<(nat, Buf)>, x: (nat, Buf))
    requires Account(linked, popped, mbox, fate, received, reclaimed, open, dead + multiset{x})
    ensures Account(linked, popped, mbox, fate, received, reclaimed + [x], open, dead)
  {
    hide Pick;
    assert multiset(reclaimed + [x]) + dead == multiset(reclaimed) + (dead + multiset{x});
  }

  // ---------- the steps ----------

  predicate Between(phase: Phase, m: nat) {
    (phase.Popped? || phase.Dropping?) && phase.m == m
  }

  /** A thread whose change of phase does not concern mailbox `m`. */
  lemma ElsewhereSame(agents: seq<Agent>, a: nat, x: Agent, m: nat)
    requires a < |agents| && !Between(agents[a].phase, m) && !Between(x.phase, m)
    ensures Union(OpenBags(agents[a := x], m)) == Union(OpenBags(agents, m))
    ensures Union(DeadBags(agents[a := x], m)) == Union(DeadBags(agents, m))
  {
    OpenChange(agents, a, x, m);
    DeadChange(agents, a, x, m);
    Cancel(Union(OpenBags(agents[a := x], m)), Union(OpenBags(agents, m)), multiset{});
    Cancel(Union(DeadBags(agents[a := x], m)), Union(DeadBags(agents, m)), multiset{});
  }

  /** The histories and queues of mailbox `m` are the same in both states. */
  predicate SameBox(s: State, t: State, m: nat) {
    && m < |s.mbox| == |s.linked| == |s.popped| == |s.fate| == |s.received| == |s.reclaimed|
    && m < |t.mbox| == |t.linked| == |t.popped| == |t.fate| == |t.received| == |t.reclaimed|
    && t.mbox[m] == s.mbox[m] && t.linked[m] == s.linked[m] && t.popped[m] == s.popped[m]
    && t.fate[m] == s.fate[m] && t.received[m] == s.received[m] && t.reclaimed[m] == s.reclaimed[m]
  }

  lemma BoxKept(s: State, t: State, m: nat, a: nat, x: Agent)
    requires SameBox(s, t, m) && AccountOf(s, m)
    requires t.agents == s.agents || (a < |s.agents| && t.agents == s.agents[a := x]
                                      && !Between(s.agents[a].phase, m) && !Between(x.phase, m))
    ensures AccountOf(t, m)
  {
    hide Account;
    if t.agents != s.agents {
      ElsewhereSame(s.agents, a, x, m);
    }
  }

  predicate Dequeues(act: Action) {
    act.Link? || act.TickLink? || act.Pop? || act.Check? || act.Drop?
  }

  lemma QuietAccounts(c: Config, s: State, act: Action, m: nat)
    requires CanStep(c, s, act) && !Dequeues(act) && m < c.boxes && AccountOf(s, m)
    ensures AccountOf(Apply(c, s, act), m)
  {
    hide AccountOf, Insert, Place, Known, TickShaped;
    var t := Apply(c, s, act);
    if act.Acquire? || act.GiveBack? || act.Release? || act.Start? || act.Wait? || act.Poll? {
      BoxKept(s, t, m, act.a, t.agents[act.a]);
    } else {
      BoxKept(s, t, m, 0, Agent(Idle, multiset{}));
    }
  }

  lemma LinkAccounts(s: State, t: State, to: nat, b: Buf, a: nat, x: Agent, m: nat)
    requires AccountOf(s, m) && to < |s.mbox|
    requires t.mbox == Appended(s.mbox, to, b) && t.linked == Appended(s.linked, to, b)
    requires t.popped == s.popped && t.fate == s.fate && t.received == s.received && t.reclaimed == s.reclaimed
    requires t.agents == s.agents || (a < |s.agents| && t.agents == s.agents[a := x]
                                      && !Between(s.agents[a].phase, m) && !Between(x.phase, m))
    ensures AccountOf(t, m)
  {
    hide Account;
    if t.agents != s.agents {
      ElsewhereSame(s.agents, a, x, m);
    }
    if m == to {
      AccountLink(s.linked[m], s.popped[m], s.mbox[m], s.fate[m], s.received[m], s.reclaimed[m],
                  Union(OpenBags(s.agents, m)), Union(DeadBags(s.agents, m)), b);
    }
  }

  // What the phases of a thread on mailbox `m` do to the two unions.

  lemma NoMore(bag: multiset<(nat, Buf)>)
    ensures bag + multiset{} == bag
  {
  }

  lemma Unlinks(agents: seq<Agent>, a: nat, x: Agent, m: nat, b: Buf, n: nat)
    requires a < |agents| && !Between(agents[a].phase, m) && x.phase == Popped(b, m, n)
    ensures Union(OpenBags(agents[a := x], m)) == Union(OpenBags(agents, m)) + multiset{(n, b)}
    ensures Union(DeadBags(agents[a := x], m)) == Union(DeadBags(agents, m))
  {
    hide Union, OpenBags, DeadBags;
    OpenChange(agents, a, x, m);
    DeadChange(agents, a, x, m);
    NoMore(Union(OpenBags(agents[a := x], m)));
    NoMore(Union(DeadBags(agents[a := x], m)));
    NoMore(Union(DeadBags(agents, m)));
  }

  lemma Delivers(agents: seq<Agent>, a: nat, x: Agent, m: nat, b: Buf, n: nat)
    requires a < |agents| && agents[a].phase == Popped(b, m, n) && !Between(x.phase, m)
    ensures Union(OpenBags(agents, m)) == Union(OpenBags(agents[a := x], m)) + multiset{(n, b)}
    ensures Union(DeadBags(agents[a := x], m)) == Union(DeadBags(agents, m))
  {
    hide Union, OpenBags, DeadBags;
    OpenChange(agents, a, x, m);
    DeadChange(agents, a, x, m);
    NoMore(Union(OpenBags(agents, m)));
    NoMore(Union(DeadBags(agents[a := x], m)));
    NoMore(Union(DeadBags(agents, m)));
  }

  lemma Drops(agents: seq<Agent>, a: nat, x: Agent, m: nat, b: Buf, n: nat)
    requires a < |agents| && agents[a].phase == Popped(b, m, n) && x.phase == Dropping(b, m, n)
    ensures Union(OpenBags(agents, m)) == Union(OpenBags(agents[a := x], m)) + multiset{(n, b)}
    ensures Union(DeadBags(agents[a := x], m)) == Union(DeadBags(agents, m)) + multiset{(n, b)}
  {
    hide Union, OpenBags, DeadBags;
    OpenChange(agents, a, x, m);
    DeadChange(agents, a, x, m);
    NoMore(Union(OpenBags(agents, m)));
    NoMore(Union(DeadBags(agents[a := x], m)));
  }

  lemma Returns(agents: seq<Agent>, a: nat, x: Agent, m: nat, b: Buf, n: nat)
    requires a < |agents| && agents[a].phase == Dropping(b, m, n) && !Between(x.phase, m)
    ensures Union(OpenBags(agents[a := x], m)) == Union(OpenBags(agents, m))
    ensures Union(DeadBags(agents, m)) == Union(DeadBags(agents[a := x], m)) + multiset{(n, b)}
  {
    hide Union, OpenBags, DeadBags;
    OpenChange(agents, a, x, m);
    DeadChange(agents, a, x, m);
    NoMore(Union(OpenBags(agents, m)));
    NoMore(Union(OpenBags(agents[a := x], m)));
    NoMore(Union(DeadBags(agents, m)));
  }

  lemma PopAccounts(s: State, t: State, a: nat, from: nat, m: nat)
    requires AccountOf(s, m) && a < |s.agents| && from < |s.mbox| && s.mbox[from] != []
    requires s.agents[a].phase == Woken(from) || s.agents[a].phase == Looking(from)
    requires var b := s.mbox[from][0];
             && t.agents == s.agents[a := Agent(Popped(b, from, |s.popped[from]|), s.agents[a].hand)]
             && t.mbox == s.mbox[from := s.mbox[from][1..]] && t.linked == s.linked
             && t.popped == Appended(s.popped, from, b) && t.fate == Appended(s.fate, from, Unread)
             && t.received == s.received && t.reclaimed == s.reclaimed
    ensures AccountOf(t, m)
  {
    hide Account, Union, OpenBags, DeadBags;
    if m != from {
      BoxKept(s, t, m, a, t.agents[a]);
    } else {
      Unlinks(s.agents, a, t.agents[a], m, s.mbox[m][0], |s.popped[m]|);
      AccountPop(s.linked[m], s.popped[m], s.mbox[m], s.fate[m], s.received[m], s.reclaimed[m],
                 Union(OpenBags(s.agents, m)), Union(DeadBags(s.agents, m)));
    }
  }

  lemma CheckAccounts(s: State, t: State, a: nat, b: Buf, from: nat, n: nat, code: uint16, m: nat)
    requires AccountOf(s, m) && a < |s.agents| && from < |s.mbox| && s.agents[a].phase == Popped(b, from, n)
    requires t.mbox == s.mbox && t.linked == s.linked && t.popped == s.popped && t.reclaimed == s.reclaimed
    requires |s.fate| == |s.received| == |s.mbox| && t.fate == Noted(s.fate, from, n, Read(code))
    requires code == DISCARDED ==>
               && t.agents == s.agents[a := Agent(Dropping(b, from, n), s.agents[a].hand)]
               && t.received == s.received
    requires code != DISCARDED ==>
               && t.agents == s.agents[a := Agent(Idle, s.agents[a].hand + multiset{b})]
               && t.received == Appended(s.received, from, (n, b))
    ensures AccountOf(t, m)
  {
    hide Account, Union, OpenBags, DeadBags;
    if m != from {
      BoxKept(s, t, m, a, t.agents[a]);
    } else {
      if code == DISCARDED {
        Drops(s.agents, a, t.agents[a], m, b, n);
      } else {
        Delivers(s.agents, a, t.agents[a], m, b, n);
      }
      AccountRead(s.linked[m], s.popped[m], s.mbox[m], s.fate[m], s.received[m], s.reclaimed[m],
                  Union(OpenBags(t.agents, m)), Union(DeadBags(s.agents, m)), n, b, code);
    }
  }

  lemma DropAccounts(s: State, t: State, a: nat, b: Buf, from: nat, n: nat, m: nat)
    requires AccountOf(s, m) && a < |s.agents| && from < |s.mbox| && s.agents[a].phase == Dropping(b, from, n)
    requires t.agents == s.agents[a := Agent(Looking(from), s.agents[a].hand)]
    requires t.mbox == s.mbox && t.linked == s.linked && t.popped == s.popped && t.fate == s.fate
    requires t.received == s.received && |s.reclaimed| == |s.mbox| && t.reclaimed == Appended(s.reclaimed, from, (n, b))
    ensures AccountOf(t, m)
  {
    hide Account, Union, OpenBags, DeadBags;
    if m != from {
      BoxKept(s, t, m, a, t.agents[a]);
    } else {
      Returns(s.agents, a, t.agents[a], m, b, n);
      AccountDrop(s.linked[m], s.popped[m], s.mbox[m], s.fate[m], s.received[m], s.reclaimed[m],
                  Union(OpenBags(s.agents, m)), Union(DeadBags(t.agents, m)), (n, b));
    }
  }

  /** Every step keeps the account of every mailbox. */
  lemma StepAccounts(c: Config, s: State, act: Action)
    requires CanStep(c, s, act) && Accounted(s)
    ensures Accounted(Apply(c, s, act))
  {
    hide AccountOf, Apply, Enabled;
    StepShaped(c, s, act);
    forall m | 0 <= m < c.boxes
      ensures AccountOf(Apply(c, s, act), m)
    {
      StepAccount(c, s, act, m);
    }
  }

  lemma StepAccount(c: Config, s: State, act: Action, m: nat)
    requires CanStep(c, s, act) && m < c.boxes && AccountOf(s, m)
    ensures AccountOf(Apply(c, s, act), m)
  {
    hide AccountOf, Known, Noted;
    var t := Apply(c, s, act);
    match act
    case Link(a, b, to) => LinkAccounts(s, t, to, b, a, t.agents[a], m);
    case TickLink => LinkAccounts(s, t, s.target[s.tick.e.buf], s.tick.e.buf, 0, Agent(Idle, multiset{}), m);
    case Pop(a) => PopAccount(c, s, a, m);
    case Check(a) => CheckAccount(c, s, a, m);
    case Drop(a) => DropAccount(c, s, a, m);
    case _ => QuietAccounts(c, s, act, m);
  }

  lemma CheckAccount(c: Config, s: State, a: nat, m: nat)
    requires CanStep(c, s, Check(a)) && m < c.boxes && AccountOf(s, m)
    ensures AccountOf(Apply(c, s, Check(a)), m)
  {
    hide AccountOf, Known, Noted, TickShaped;
    var Popped(b, from, n) := s.agents[a].phase;
    CheckAccounts(s, Apply(c, s, Check(a)), a, b, from, n, s.code[b], m);
  }

  lemma DropAccount(c: Config, s: State, a: nat, m: nat)
    requires CanStep(c, s, Drop(a)) && m < c.boxes && AccountOf(s, m)
    ensures AccountOf(Apply(c, s, Drop(a)), m)
  {
    hide AccountOf, Known, TickShaped;
    var Dropping(b, from, n) := s.agents[a].phase;
    DropAccounts(s, Apply(c, s, Drop(a)), a, b, from, n, m);
  }

  lemma PopAccount(c: Config, s: State, a: nat, m: nat)
    requires CanStep(c, s, Pop(a)) && m < c.boxes && AccountOf(s, m)
    ensures AccountOf(Apply(c, s, Pop(a)), m)
  {
    hide AccountOf, Known, TickShaped;
    var t := Apply(c, s, Pop(a));
    if s.mbox[s.agents[a].phase.m] == [] {
      BoxKept(s, t, m, a, t.agents[a]);
    } else {
      PopAccounts(s, t, a, s.agents[a].phase.m, m);
    }
  }

  lemma InitAccounted(c: Config)
    requires Sane(c)
    ensures Accounted(Init(c))
  {
    forall m | 0 <= m < c.boxes
      ensures AccountOf(Init(c), m)
    {
      UnionEmpty(OpenBags(Init(c).agents, m));
      UnionEmpty(DeadBags(Init(c).agents, m));
    }
  }

  lemma {:induction false} RunAccounts(c: Config, s: State, acts: seq<Action>)
    requires Runs(c, s, acts) && Accounted(s)
    ensures Accounted(Exec(c, s, acts))
    decreases |acts|
  {
    hide Accounted, Apply, Enabled, Shaped;
    if acts != [] {
      StepAccounts(c, s, acts[0]);
      RunAccounts(c, Apply(c, s, acts[0]), acts[1..]);
    }
  }

  /** In every reachable state: what the actions posted to a mailbox was dequeued or waits, in
      the order of the actions; the messages handed to threads are exactly those dequeued whose code was live when it
      was read; and with nobody in between, exactly the others went back to the pool. */
  lemma GetReturnsTheLive(c: Config, acts: seq<Action>, m: nat)
    requires Sane(c) && Runs(c, Init(c), acts) && m < c.boxes
    ensures AccountOf(Exec(c, Init(c), acts), m) && Settles(Exec(c, Init(c), acts), m)
    ensures var t := Exec(c, Init(c), acts);
            m < |t.popped| && m < |t.mbox| && t.popped[m] + t.mbox[m] == To(Sent(acts, t.posts), m)
  {
    hide Accounted, AccountOf, Settles, Apply, Enabled, Shaped, To;
    InitAccounted(c);
    InitShaped(c);
    RunAccounts(c, Init(c), acts);
    RunShaped(c, Init(c), acts);
    var s := Exec(c, Init(c), acts);
    AccountAt(c, s, m);
    AccountSettles(s, m);
    MailboxGetsItsPosts(c, acts, m);
    AccountQueues(s, m);
  }

  lemma AccountQueues(s: State, m: nat)
    requires AccountOf(s, m)
    ensures m < |s.linked| && m < |s.popped| && m < |s.mbox| && s.linked[m] == s.popped[m] + s.mbox[m]
  {
  }

  /** Once no thread has a message of mailbox `m` between mailbox and hand, every one that was
      dequeued has been handed over or has gone back. */
  predicate Settles(s: State, m: nat) {
    (forall a :: 0 <= a < |s.agents| ==> !Between(s.agents[a].phase, m)) ==>
      && m < |s.popped| == |s.fate| == |s.received| == |s.reclaimed| && |s.popped[m]| == |s.fate[m]|
      && Pick(s.popped[m], s.fate[m], Open) == []
      && multiset(s.received[m]) == multiset(Pick(s.popped[m], s.fate[m], Live))
      && multiset(s.reclaimed[m]) == multiset(Pick(s.popped[m], s.fate[m], Dead))
  }

  lemma AccountAt(c: Config, s: State, m: nat)
    requires Shaped(c, s) && Accounted(s) && m < c.boxes
    ensures AccountOf(s, m)
  {
  }

  lemma AccountSettles(s: State, m: nat)
    requires AccountOf(s, m)
    ensures Settles(s, m)
  {
    if forall a :: 0 <= a < |s.agents| ==> !Between(s.agents[a].phase, m) {
      UnionEmpty(OpenBags(s.agents, m));
      UnionEmpty(DeadBags(s.agents, m));
      hide Pick;
      assert |multiset(Pick(s.popped[m], s.fate[m], Open))| == 0;
      NoMore(multiset(s.reclaimed[m]));
    }
  }

  lemma {:induction false} RunShaped(c: Config, s: State, acts: seq<Action>)
    requires Runs(c, s, acts) && Shaped(c, s)
    ensures Shaped(c, Exec(c, s, acts))
    decreases |acts|
  {
    hide Shaped, Apply, Enabled;
    if acts != [] {
      StepShaped(c, s, acts[0]);
      RunShaped(c, Apply(c, s, acts[0]), acts[1..]);
    }
  }

  // ---------- one reader per mailbox: in order, exactly ----------

  /** Along the run only thread `a` reads mailbox `m`. */
  predicate ReadBy(acts: seq<Action>, m: nat, a: nat) {
    forall i :: 0 <= i < |acts| && (acts[i].Wait? || acts[i].Poll?) && acts[i].m == m ==> acts[i].a == a
  }

  /** What reader `phase` still has to give back. */
  function InHand(phase: Phase, m: nat): seq<(nat, Buf)> {
    if phase.Dropping? && phase.m == m then [(phase.n, phase.b)] else []
  }

  predicate Ledger(phase: Phase, m: nat, popped: seq<Buf>, fate: seq<Fate>,
                   received: seq<(nat, Buf)>, reclaimed: seq<(nat, Buf)>)
  {
    && |fate| == |popped|
    && received == Pick(popped, fate, Live)
    && reclaimed + InHand(phase, m) == Pick(popped, fate, Dead)
    && (phase.Popped? && phase.m == m ==>
          |popped| > 0 && phase.n == |popped| - 1 && popped[phase.n] == phase.b && fate[phase.n] == Unread)
  }

  predicate SoleReader(s: State, m: nat, a: nat) {
    && a < |s.agents| && m < |s.popped| == |s.fate| == |s.received| == |s.reclaimed|
    && (forall x :: 0 <= x < |s.agents| && x != a ==> !InGet(s.agents[x].phase, m))
    && Ledger(s.agents[a].phase, m, s.popped[m], s.fate[m], s.received[m], s.reclaimed[m])
  }

  lemma LedgerPop(phase: Phase, m: nat, popped: seq<Buf>, fate: seq<Fate>,
                  received: seq<(nat, Buf)>, reclaimed: seq<(nat, Buf)>, b: Buf)
    requires Ledger(phase, m, popped, fate, received, reclaimed) && InHand(phase, m) == []
    ensures Ledger(Popped(b, m, |popped|), m, popped + [b], fate + [Unread], received, reclaimed)
  {
    PickMore(popped, fate, Live, b, Unread);
    PickMore(popped, fate, Dead, b, Unread);
    hide Pick;
  }

  lemma LedgerCheck(phase: Phase, m: nat, popped: seq<Buf>, fate: seq<Fate>,
                    received: seq<(nat, Buf)>, reclaimed: seq<(nat, Buf)>, code: uint16)
    requires Ledger(phase, m, popped, fate, received, reclaimed) && phase.Popped? && phase.m == m
    ensures phase.n < |fate|
    ensures var fate', x := fate[phase.n := Read(code)], (phase.n, phase.b);
            if code == DISCARDED then Ledger(Dropping(phase.b, m, phase.n), m, popped, fate', received, reclaimed)
            else Ledger(Idle, m, popped, fate', received + [x], reclaimed)
  {
    var n, fate' := phase.n, fate[phase.n := Read(code)];
    assert fate'[..n] == fate[..n];
    PickLast(popped, fate, Live);
    PickLast(popped, fate, Dead);
    PickLast(popped, fate', Live);
    PickLast(popped, fate', Dead);
    hide Pick;
    assert reclaimed + [] == reclaimed && forall p: seq<(nat, Buf)> :: p + [] == p;
  }

  lemma LedgerDrop(phase: Phase, m: nat, popped: seq<Buf>, fate: seq<Fate>,
                   received: seq<(nat, Buf)>, reclaimed: seq<(nat, Buf)>)
    requires Ledger(phase, m, popped, fate, received, reclaimed) && phase.Dropping? && phase.m == m
    ensures Ledger(Looking(m), m, popped, fate, received, reclaimed + [(phase.n, phase.b)])
  {
    hide Pick;
    assert reclaimed + [(phase.n, phase.b)] + [] == reclaimed + [(phase.n, phase.b)];
  }

  lemma LedgerPhase(phase: Phase, phase': Phase, m: nat, popped: seq<Buf>, fate: seq<Fate>,
                    received: seq<(nat, Buf)>, reclaimed: seq<(nat, Buf)>)
    requires Ledger(phase, m, popped, fate, received, reclaimed)
    requires !Between(phase, m) && !Between(phase', m)
    ensures Ledger(phase', m, popped, fate, received, reclaimed)
  {
  }

  /** The reader's own steps on mailbox `m`. */
  lemma ReaderStep(c: Config, s: State, act: Action, m: nat, a: nat)
    requires CanStep(c, s, act) && SoleReader(s, m, a) && (act == Pop(a) || act == Check(a) || act == Drop(a))
    requires s.agents[a].phase.m == m
    ensures SoleReader(Apply(c, s, act), m, a)
  {
    hide Ledger, Known, TickShaped;
    var t, phase := Apply(c, s, act), s.agents[a].phase;
    match act
    case Pop(_) =>
      if s.mbox[m] == [] {
        LedgerPhase(phase, Idle, m, s.popped[m], s.fate[m], s.received[m], s.reclaimed[m]);
      } else {
        LedgerPop(phase, m, s.popped[m], s.fate[m], s.received[m], s.reclaimed[m], s.mbox[m][0]);
      }
    case Check(_) =>
      LedgerCheck(phase, m, s.popped[m], s.fate[m], s.received[m], s.reclaimed[m], s.code[phase.b]);
    case Drop(_) =>
      LedgerDrop(phase, m, s.popped[m], s.fate[m], s.received[m], s.reclaimed[m]);
  }

  predicate Foreign(s: State, act: Action, m: nat, a: nat) {
    && ((act.Wait? || act.Poll?) && act.m == m ==> act.a == a)
    && ((act.Pop? || act.Check? || act.Drop?) && act.a < |s.agents| ==> !InGet(s.agents[act.a].phase, m))
  }

  lemma OtherKeeps(c: Config, s: State, act: Action, m: nat, a: nat)
    requires CanStep(c, s, act) && m < c.boxes && Foreign(s, act, m, a)
    ensures var t := Apply(c, s, act);
            && |t.agents| == |s.agents| && m < |t.popped| == |t.fate| == |t.received| == |t.reclaimed|
            && t.popped[m] == s.popped[m] && t.fate[m] == s.fate[m]
            && t.received[m] == s.received[m] && t.reclaimed[m] == s.reclaimed[m]
  {
    hide Known, TickShaped, AgentShaped, Insert, Place;
  }

  /** No other thread comes to the mailbox, and the reader's message stays what it is. */
  lemma OtherPhases(c: Config, s: State, act: Action, m: nat, a: nat, x: nat)
    requires CanStep(c, s, act) && Foreign(s, act, m, a) && x < |s.agents|
    ensures var t := Apply(c, s, act);
            && x < |t.agents|
            && (x != a && !InGet(s.agents[x].phase, m) ==> !InGet(t.agents[x].phase, m))
            && (t.agents[x].phase == s.agents[x].phase
                || (!Between(s.agents[x].phase, m) && !Between(t.agents[x].phase, m)))
  {
    hide Known, TickShaped, AgentShaped, Insert, Place;
    if ByOther(act, x) {
      hide Apply, Enabled;
      ByOtherKeeps(c, s, act, x);
    } else {
      assert act.a == x;
    }
  }

  /** All other steps leave the histories of mailbox `m` and the reader's message alone. */
  lemma OtherStep(c: Config, s: State, act: Action, m: nat, a: nat)
    requires CanStep(c, s, act) && m < c.boxes && SoleReader(s, m, a) && Foreign(s, act, m, a)
    ensures SoleReader(Apply(c, s, act), m, a)
  {
    hide Ledger, Apply, Enabled, Shaped, InGet, Foreign;
    var t := Apply(c, s, act);
    OtherKeeps(c, s, act, m, a);
    forall x | 0 <= x < |s.agents| && x != a
      ensures !InGet(t.agents[x].phase, m)
    {
      OtherPhases(c, s, act, m, a, x);
    }
    OtherPhases(c, s, act, m, a, a);
    if t.agents[a].phase != s.agents[a].phase {
      LedgerPhase(s.agents[a].phase, t.agents[a].phase, m, s.popped[m], s.fate[m], s.received[m], s.reclaimed[m]);
    }
  }

  lemma StepSole(c: Config, s: State, act: Action, m: nat, a: nat)
    requires CanStep(c, s, act) && m < c.boxes && SoleReader(s, m, a)
    requires (act.Wait? || act.Poll?) && act.m == m ==> act.a == a
    ensures SoleReader(Apply(c, s, act), m, a)
  {
    hide Apply, Ledger;
    if (act.Pop? || act.Check? || act.Drop?) && s.agents[act.a].phase.m == m {
      ReaderStep(c, s, act, m, a);
    } else {
      OtherStep(c, s, act, m, a);
    }
  }

  lemma {:induction false} RunSole(c: Config, s: State, acts: seq<Action>, m: nat, a: nat)
    requires Runs(c, s, acts) && m < c.boxes && SoleReader(s, m, a) && ReadBy(acts, m, a)
    ensures SoleReader(Exec(c, s, acts), m, a)
    decreases |acts|
  {
    hide SoleReader, Apply, Enabled, Shaped;
    if acts != [] {
      StepSole(c, s, acts[0], m, a);
      RunSole(c, Apply(c, s, acts[0]), acts[1..], m, a);
    }
  }

  /** With one reader, as in the dispatch loop, the sequence that Get has returned from a
      mailbox is the sequence dequeued minus the messages whose code was DISCARDED when it
      was read, in order; the pool has got back the others, in order. */
  lemma SoleReaderGetsInOrder(c: Config, acts: seq<Action>, m: nat, a: nat)
    requires Sane(c) && Runs(c, Init(c), acts) && ReadBy(acts, m, a) && m < c.boxes && a < c.agents
    ensures SoleReader(Exec(c, Init(c), acts), m, a)
  {
    hide Apply, Enabled, Shaped;
    RunSole(c, Init(c), acts, m, a);
  }
}
