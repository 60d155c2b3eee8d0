/** Multisets counted over a sequence of places. */
module Bags {

  function Union<T>(bags: seq<multiset<T>>): multiset<T> {
    if bags == [] then multiset{} else bags[0] + Union(bags[1..])
  }

  lemma {:induction false} UnionUpdate<T>(bags: seq<multiset<T>>, i: nat, x: multiset<T>)
    requires i < |bags|
    ensures Union(bags[i := x]) + bags[i] == Union(bags) + x
  {
    if i == 0 {
      assert bags[0 := x][1..] == bags[1..];
    } else {
      UnionUpdate(bags[1..], i - 1, x);
      assert bags[i := x][1..] == bags[1..][i - 1 := x];
      assert Union(bags[i := x]) + bags[i] == bags[0] + (Union(bags[1..][i - 1 := x]) + bags[i]);
    }
  }

  lemma {:induction false} UnionHolds<T>(bags: seq<multiset<T>>, i: nat)
    requires i < |bags|
    ensures bags[i] <= Union(bags)
  {
    if i > 0 {
      UnionHolds(bags[1..], i - 1);
    }
  }

  lemma {:induction false} UnionSplits<T>(bags: seq<multiset<T>>, i: nat, j: nat)
    requires i < j < |bags|
    ensures bags[i] + bags[j] <= Union(bags)
  {
    if i > 0 {
      UnionSplits(bags[1..], i - 1, j - 1);
    } else {
      UnionHolds(bags[1..], j - 1);
    }
  }

  lemma {:induction false} UnionFinds<T>(bags: seq<multiset<T>>, x: T) returns (i: nat)
    requires x in Union(bags)
    ensures i < |bags| && x in bags[i]
  {
    if x in bags[0] {
      i := 0;
    } else {
      i := UnionFinds(bags[1..], x);
      i := i + 1;
    }
  }

  lemma {:induction false} UnionEmpty<T>(bags: seq<multiset<T>>)
    requires forall i :: 0 <= i < |bags| ==> bags[i] == multiset{}
    ensures Union(bags) == multiset{}
  {
    if bags != [] {
      UnionEmpty(bags[1..]);
    }
  }

  lemma {:induction false} UnionAppend<T>(xs: seq<multiset<T>>, ys: seq<multiset<T>>)
    ensures Union(xs + ys) == Union(xs) + Union(ys)
  {
    if xs == [] {
      assert xs + ys == ys;
    } else {
      assert (xs + ys)[1..] == xs[1..] + ys;
      UnionAppend(xs[1..], ys);
    }
  }

  /** What a sequence of queues holds. */
  function Queues<T>(qs: seq<seq<T>>): (r: seq<multiset<T>>)
    ensures |r| == |qs|
    ensures forall i :: 0 <= i < |qs| ==> r[i] == multiset(qs[i])
  {
    seq(|qs|, i requires 0 <= i < |qs| => multiset(qs[i]))
  }

  function Contents<T>(qs: seq<seq<T>>): multiset<T> {
    Union(Queues(qs))
  }

  lemma ContentsAppend<T>(xs: seq<seq<T>>, ys: seq<seq<T>>)
    ensures Contents(xs + ys) == Contents(xs) + Contents(ys)
  {
    UnionAppend(Queues(xs), Queues(ys));
    assert Queues(xs + ys) == Queues(xs) + Queues(ys);
  }

  lemma ContentsOne<T>(q: seq<T>)
    ensures Contents([q]) == multiset(q)
  {
    assert Queues([q]) == [multiset(q)];
    assert Union([multiset(q)][1..]) == multiset{};
  }

  lemma ContentsUpdate<T>(qs: seq<seq<T>>, i: nat, q: seq<T>)
    requires i < |qs|
    ensures Contents(qs[i := q]) + multiset(qs[i]) == Contents(qs) + multiset(q)
  {
    UnionUpdate(Queues(qs), i, multiset(q));
    assert Queues(qs[i := q]) == Queues(qs)[i := multiset(q)];
  }

  lemma Cancel<T>(a: multiset<T>, b: multiset<T>, x: multiset<T>)
    requires a + x == b + x
    ensures a == b
  {
    forall t: T
      ensures a[t] == b[t]
    {
      assert (a + x)[t] == (b + x)[t];
    }
  }

  lemma Append<T>(qs: seq<seq<T>>, i: nat, x: T)
    requires i < |qs|
    ensures Contents(qs[i := qs[i] + [x]]) == Contents(qs) + multiset{x}
  {
    ContentsUpdate(qs, i, qs[i] + [x]);
    assert Contents(qs) + multiset(qs[i] + [x]) == Contents(qs) + multiset{x} + multiset(qs[i]);
    Cancel(Contents(qs[i := qs[i] + [x]]), Contents(qs) + multiset{x}, multiset(qs[i]));
  }

  lemma RemoveFront<T>(qs: seq<seq<T>>, i: nat)
    requires i < |qs| && qs[i] != []
    ensures Contents(qs) == Contents(qs[i := qs[i][1..]]) + multiset{qs[i][0]}
  {
    ContentsUpdate(qs, i, qs[i][1..]);
    var rest := multiset(qs[i][1..]);
    assert qs[i] == [qs[i][0]] + qs[i][1..];
    assert Contents(qs[i := qs[i][1..]]) + multiset(qs[i]) == Contents(qs[i := qs[i][1..]]) + multiset{qs[i][0]} + rest;
    Cancel(Contents(qs), Contents(qs[i := qs[i][1..]]) + multiset{qs[i][0]}, rest);
  }

  /** The numbers below `n`, once each. */
  function Below(n: nat): multiset<nat> {
    if n == 0 then multiset{} else Below(n - 1) + multiset{n - 1}
  }

  lemma {:induction false} BelowCounts(n: nat)
    ensures forall x: nat :: Below(n)[x] == if x < n then 1 else 0
  {
    if n > 0 {
      BelowCounts(n - 1);
    }
  }

  lemma {:induction false} BelowSize(n: nat)
    ensures |Below(n)| == n
  {
    if n > 0 {
      BelowSize(n - 1);
    }
  }
}
