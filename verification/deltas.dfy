/** The delta list of timer.cpp as a value: each entry holds the ticks left after its
    predecessor, so the deadline of an entry is the sum of the entries up to it. */
module Deltas {
  import opened Sequences
  import opened Mail

  /** CTimer::Add: walk while the remaining count is not below the entry, subtracting. */
  function Insert(ds: seq<nat>, c: nat): (r: seq<nat>)
    ensures |r| == |ds| + 1
  {
    if ds == [] then [c]
    else if c < ds[0] then [c, ds[0] - c] + ds[1..]
    else [ds[0]] + Insert(ds[1..], c - ds[0])
  }

  /** Where Insert puts the new entry. */
  function Place(ds: seq<nat>, c: nat): (k: nat)
    ensures k <= |ds|
  {
    if ds == [] || c < ds[0] then 0 else 1 + Place(ds[1..], c - ds[0])
  }

  function Sum(ds: seq<nat>): nat {
    if ds == [] then 0 else ds[0] + Sum(ds[1..])
  }

  /** A walk for count `c` has passed `p` entries and has `rest` ticks still to place. */
  predicate Reached(ds: seq<nat>, c: nat, p: nat, rest: nat) {
    p <= |ds| && Sum(ds[..p]) + rest == c
  }

  lemma {:induction false} SumSnoc(ds: seq<nat>, p: nat)
    requires p < |ds|
    ensures Sum(ds[..p + 1]) == Sum(ds[..p]) + ds[p]
  {
    if p > 0 {
      SumSnoc(ds[1..], p - 1);
      assert ds[..p + 1][1..] == ds[1..][..p] && ds[..p][1..] == ds[1..][..p - 1];
    }
  }

  lemma {:induction false} WalkStopsBefore(ds: seq<nat>, c: nat, p: nat, rest: nat)
    requires Reached(ds, c, p, rest) && p < |ds| && rest < ds[p]
    ensures Place(ds, c) == p && Insert(ds, c) == Spliced(ds[p := ds[p] - rest], p, rest)
  {
    if p > 0 {
      assert ds[..p][1..] == ds[1..][..p - 1];
      WalkStopsBefore(ds[1..], c - ds[0], p - 1, rest);
    }
  }

  lemma {:induction false} WalkEnds(ds: seq<nat>, c: nat, rest: nat)
    requires Reached(ds, c, |ds|, rest)
    ensures Place(ds, c) == |ds| && Insert(ds, c) == ds + [rest]
  {
    assert ds[..|ds|] == ds;
    if ds != [] {
      assert ds[1..][..|ds| - 1] == ds[1..];
      WalkEnds(ds[1..], c - ds[0], rest);
    }
  }

  /** The list of absolute deadlines that a delta list stands for, in ticks from now. */
  function Deadlines(ds: seq<nat>): (r: seq<nat>)
    ensures |r| == |ds|
  {
    if ds == [] then [] else [ds[0]] + Shift(Deadlines(ds[1..]), ds[0])
  }

  function Shift(ts: seq<nat>, d: nat): (r: seq<nat>)
    ensures |r| == |ts|
    ensures forall i :: 0 <= i < |ts| ==> r[i] == ts[i] + d
  {
    seq(|ts|, i requires 0 <= i < |ts| => ts[i] + d)
  }

  lemma {:induction false} DeadlineIsPrefixSum(ds: seq<nat>, i: nat)
    requires i < |ds|
    ensures Deadlines(ds)[i] == Sum(ds[..i + 1])
  {
    assert ds[..i + 1][1..] == ds[1..][..i];
    if i > 0 {
      DeadlineIsPrefixSum(ds[1..], i - 1);
    }
  }

  /** Adding is a stable sorted insert into the list of absolute deadlines: no other
      deadline moves, the new one is `c`, and it stands after every deadline <= c and
      before every deadline > c. */
  lemma {:induction false} InsertRefinesDeadlines(ds: seq<nat>, c: nat)
    ensures Deadlines(Insert(ds, c)) == Deadlines(ds)[..Place(ds, c)] + [c] + Deadlines(ds)[Place(ds, c)..]
    ensures forall i :: 0 <= i < Place(ds, c) ==> Deadlines(ds)[i] <= c
    ensures forall i :: Place(ds, c) <= i < |ds| ==> c < Deadlines(ds)[i]
  {
    InsertAddsDeadline(ds, c);
    PlaceDividesDeadlines(ds, c);
  }

  lemma {:induction false} InsertAddsDeadline(ds: seq<nat>, c: nat)
    ensures Deadlines(Insert(ds, c)) == Deadlines(ds)[..Place(ds, c)] + [c] + Deadlines(ds)[Place(ds, c)..]
  {
    hide Deadlines, Insert, Place;
    InsertCases(ds, c);
    if ds == [] {
      DeadlinesCons(c, ds);
    } else if c < ds[0] {
      InsertInFront(ds[0], ds[1..], c);
    } else {
      InsertAddsDeadline(ds[1..], c - ds[0]);
      InsertBehind(ds[0], ds[1..], Insert(ds[1..], c - ds[0]), Place(ds[1..], c - ds[0]), c);
    }
  }

  lemma {:induction false} InsertCases(ds: seq<nat>, c: nat)
    ensures ds == [] ==> Insert(ds, c) == [c] + ds && Place(ds, c) == 0
    ensures ds != [] ==> ds == [ds[0]] + ds[1..]
    ensures ds != [] && c < ds[0] ==> Insert(ds, c) == [c, ds[0] - c] + ds[1..] && Place(ds, c) == 0
    ensures ds != [] && ds[0] <= c ==>
              && Insert(ds, c) == [ds[0]] + Insert(ds[1..], c - ds[0])
              && Place(ds, c) == Place(ds[1..], c - ds[0]) + 1
  {
  }

  lemma {:induction false} InsertInFront(front: nat, rest: seq<nat>, c: nat)
    requires c < front
    ensures Deadlines([c, front - c] + rest) == [c] + Deadlines([front] + rest)
  {
    hide Deadlines, Shift;
    assert [c, front - c] + rest == [c] + ([front - c] + rest);
    DeadlinesCons(c, [front - c] + rest);
    DeadlinesCons(front - c, rest);
    DeadlinesCons(front, rest);
    ShiftCons(front - c, Deadlines(rest), front - c, c);
  }

  /** `r` holds the deadlines of `rest` with one more at position `k`; so it does once
      `front` stands before both. */
  lemma {:induction false} InsertBehind(front: nat, rest: seq<nat>, r: seq<nat>, k: nat, c: nat)
    requires front <= c && k <= |rest|
    requires Deadlines(r) == Deadlines(rest)[..k] + [c - front] + Deadlines(rest)[k..]
    ensures var was := Deadlines([front] + rest);
            Deadlines([front] + r) == was[..k + 1] + [c] + was[k + 1..]
  {
    hide Deadlines, Shift;
    DeadlinesCons(front, rest);
    DeadlinesCons(front, r);
    ShiftInsert(Deadlines(rest), k, c - front, front);
    SplitCons(front, Shift(Deadlines(rest), front), k, c);
  }

  lemma {:induction false} DeadlinesCons(d: nat, rest: seq<nat>)
    ensures Deadlines([d] + rest) == [d] + Shift(Deadlines(rest), d)
  {
    assert ([d] + rest)[1..] == rest;
  }

  lemma ShiftCons(x: nat, ts: seq<nat>, d: nat, e: nat)
    ensures Shift([x] + Shift(ts, d), e) == [x + e] + Shift(ts, d + e)
  {
  }

  lemma ShiftInsert(ts: seq<nat>, k: nat, c: nat, d: nat)
    requires k <= |ts|
    ensures Shift(ts[..k] + [c] + ts[k..], d) == Shift(ts, d)[..k] + [c + d] + Shift(ts, d)[k..]
  {
  }

  lemma SplitCons(x: nat, ts: seq<nat>, k: nat, c: nat)
    requires k <= |ts|
    ensures [x] + (ts[..k] + [c] + ts[k..]) == ([x] + ts)[..k + 1] + [c] + ([x] + ts)[k + 1..]
  {
  }

  lemma {:induction false} PlaceDividesDeadlines(ds: seq<nat>, c: nat)
    ensures forall i :: 0 <= i < Place(ds, c) ==> Deadlines(ds)[i] <= c
    ensures forall i :: Place(ds, c) <= i < |ds| ==> c < Deadlines(ds)[i]
  {
    if ds != [] && c >= ds[0] {
      PlaceDividesDeadlines(ds[1..], c - ds[0]);
    }
  }

  /** The front entry is positive: the state between two ticks. */
  predicate FrontPositive(ds: seq<nat>) {
    ds != [] ==> ds[0] >= 1
  }

  /** Between ticks the list stays ready for the next decrement exactly when the count
      added is not zero. */
  lemma InsertKeepsFrontPositive(ds: seq<nat>, c: nat)
    requires FrontPositive(ds)
    ensures FrontPositive(Insert(ds, c)) <==> c >= 1
  {
  }

  /** The number of leading zero entries: what one tick posts after its decrement. */
  function Zeros(ds: seq<nat>): (k: nat)
    ensures k <= |ds|
    ensures forall i :: 0 <= i < k ==> ds[i] == 0
    ensures k < |ds| ==> ds[k] != 0
  {
    if ds == [] || ds[0] != 0 then 0 else 1 + Zeros(ds[1..])
  }

  /** Exactly the first `k` entries are the leading zeros. */
  predicate Leading(ds: seq<nat>, k: nat) {
    k <= |ds| && (forall i :: 0 <= i < k ==> ds[i] == 0) && (k < |ds| ==> ds[k] != 0)
  }

  lemma {:induction false} ZerosAre(ds: seq<nat>, k: nat)
    requires Leading(ds, k)
    ensures Zeros(ds) == k
  {
    if k > 0 {
      ZerosAre(ds[1..], k - 1);
    }
  }

  /** What a drain of `k` entries does to the deltas, the timers, the mailboxes and their
      semaphores, where `mail` says to which mailbox each timer goes. */
  predicate Drained<T(==)>(ds: seq<nat>, ns: seq<T>, mail: seq<(nat, T)>, k: nat, ds': seq<nat>, ns': seq<T>,
                           boxes: seq<seq<T>>, sem: seq<nat>, boxes': seq<seq<T>>, sem': seq<nat>)
  {
    && |ds| == |ns| == |mail| && |boxes| == |sem| && Addressed(mail, |boxes|)
    && (forall i :: 0 <= i < |ns| ==> mail[i].1 == ns[i])
    && k <= |ds| && (forall i :: 0 <= i < k ==> ds[i] == 0)
    && ds' == ds[k..] && ns' == ns[k..]
    && boxes' == Posted(boxes, mail[..k]) && sem' == Raises(sem, mail[..k])
  }

  lemma DrainStarts<T>(ds: seq<nat>, ns: seq<T>, mail: seq<(nat, T)>, boxes: seq<seq<T>>, sem: seq<nat>)
    requires |ds| == |ns| == |mail| && |boxes| == |sem| && Addressed(mail, |boxes|)
    requires forall i :: 0 <= i < |ns| ==> mail[i].1 == ns[i]
    ensures Drained(ds, ns, mail, 0, ds, ns, boxes, sem, boxes, sem)
  {
  }

  lemma DrainOne<T>(ds: seq<nat>, ns: seq<T>, mail: seq<(nat, T)>, k: nat, ds': seq<nat>, ns': seq<T>,
                    boxes: seq<seq<T>>, sem: seq<nat>, boxes': seq<seq<T>>, sem': seq<nat>)
    requires Drained(ds, ns, mail, k, ds', ns', boxes, sem, boxes', sem')
    requires ds' != [] && ds'[0] == 0
    ensures k < |ns| && ns' != [] && ns'[0] == ns[k] && mail[k].0 < |boxes'| == |sem'|
    ensures Drained(ds, ns, mail, k + 1, ds'[1..], ns'[1..], boxes, sem,
                    Appended(boxes', mail[k].0, ns[k]), Raised(sem', mail[k].0))
  {
    PostedStep(boxes, mail, k);
    RaisesStep(sem, mail, k);
  }

  /** A drain that stops at a positive entry, or at the end, has taken the leading zeros. */
  lemma DrainEnds<T>(ds: seq<nat>, ns: seq<T>, mail: seq<(nat, T)>, k: nat, ds': seq<nat>, ns': seq<T>,
                     boxes: seq<seq<T>>, sem: seq<nat>, boxes': seq<seq<T>>, sem': seq<nat>)
    requires Drained(ds, ns, mail, k, ds', ns', boxes, sem, boxes', sem')
    requires ds' == [] || ds'[0] != 0
    ensures k == Zeros(ds)
  {
    ZerosAre(ds, k);
  }

  /** Nothing was drained: the front entry is positive. */
  lemma DrainedNone<T>(ds': seq<nat>, ns': seq<T>, mail: seq<(nat, T)>, ds: seq<nat>, ns: seq<T>,
                       boxes': seq<seq<T>>, sem': seq<nat>, boxes: seq<seq<T>>, sem: seq<nat>)
    requires Drained(ds, ns, mail, Zeros(ds), ds', ns', boxes, sem, boxes', sem')
    requires ds != [] && ds[0] != 0
    ensures ds' == ds && ns' == ns && boxes' == boxes && sem' == sem
  {
  }

  /** TimerIntHandler's single decrement. */
  function Decrement(ds: seq<nat>): (r: seq<nat>)
    requires FrontPositive(ds)
    ensures |r| == |ds|
  {
    if ds == [] then [] else ds[0 := ds[0] - 1]
  }

  /** One tick touches a single entry, yet every deadline drops by exactly one. */
  lemma {:induction false} DecrementLowersAll(ds: seq<nat>)
    requires FrontPositive(ds)
    ensures forall i :: 0 <= i < |ds| ==> Deadlines(ds)[i] >= 1
    ensures forall i :: 0 <= i < |ds| ==> Deadlines(Decrement(ds))[i] == Deadlines(ds)[i] - 1
  {
    if ds != [] {
      assert Decrement(ds)[1..] == ds[1..];
    }
  }

  /** The entries drained are exactly those whose deadline has come, in order, and the
      deadlines of the rest do not move. */
  lemma {:induction false} DrainTakesDue(ds: seq<nat>)
    ensures var k := Zeros(ds);
            && (forall i :: 0 <= i < |ds| ==> (i < k <==> Deadlines(ds)[i] == 0))
            && Deadlines(ds[k..]) == Deadlines(ds)[k..]
            && FrontPositive(ds[k..])
  {
    var k := Zeros(ds);
    if ds == [] || ds[0] != 0 {
      assert ds[0..] == ds;
    } else {
      DrainTakesDue(ds[1..]);
      assert ds[k..] == ds[1..][k - 1..];
    }
  }

  /** One whole tick, on the deltas: decrement the front, drop the due entries. */
  function Tick(ds: seq<nat>): seq<nat>
    requires FrontPositive(ds)
  {
    var d := Decrement(ds);
    d[Zeros(d)..]
  }

  /** A tick equals "subtract one from every deadline and take out the zeros": an entry
      leaves in this tick exactly when its deadline was 1. */
  lemma {:induction false} TickRefinesDeadlines(ds: seq<nat>)
    requires FrontPositive(ds)
    ensures var k := Zeros(Decrement(ds));
            && FrontPositive(Tick(ds))
            && |Tick(ds)| == |ds| - k
            && (forall i :: 0 <= i < |ds| ==> (i < k <==> Deadlines(ds)[i] == 1))
            && (forall i :: k <= i < |ds| ==> Deadlines(Tick(ds))[i - k] == Deadlines(ds)[i] - 1)
  {
    hide Deadlines, Decrement;
    DecrementLowersAll(ds);
    DrainTakesDue(Decrement(ds));
  }
}
