/** What posting, signalling and giving back do to the contents of the queues, as values. */
module Mail {
  import opened Words
  import opened Sequences

  // The maximum count given to CreateSemaphore.
  const SEMAPHORE_CAP := 10000

  /** `x` at the tail of queue `i`. */
  function Appended<B>(qs: seq<seq<B>>, i: nat, x: B): (r: seq<seq<B>>)
    requires i < |qs|
    ensures |r| == |qs|
  {
    qs[i := qs[i] + [x]]
  }

  /** One ReleaseSemaphore: refused at the cap. */
  function Raised(sem: seq<nat>, m: nat): (r: seq<nat>)
    requires m < |sem|
    ensures |r| == |sem|
  {
    sem[m := if sem[m] < SEMAPHORE_CAP then sem[m] + 1 else sem[m]]
  }

  predicate Addressed<B>(mail: seq<(nat, B)>, boxes: nat) {
    forall i :: 0 <= i < |mail| ==> mail[i].0 < boxes
  }

  /** The mailboxes after the messages were posted one by one, and their semaphores. */
  function Posted<B>(boxes: seq<seq<B>>, mail: seq<(nat, B)>): (r: seq<seq<B>>)
    requires Addressed(mail, |boxes|)
    ensures |r| == |boxes|
  {
    if mail == [] then boxes
    else
      var n := |mail| - 1;
      Appended(Posted(boxes, mail[..n]), mail[n].0, mail[n].1)
  }

  function Raises<B>(sem: seq<nat>, mail: seq<(nat, B)>): (r: seq<nat>)
    requires Addressed(mail, |sem|)
    ensures |r| == |sem|
  {
    if mail == [] then sem else Raised(Raises(sem, mail[..|mail| - 1]), mail[|mail| - 1].0)
  }

  /** The free queues after `bs` were given back one by one, each to its class. */
  function GivenBack<B>(free: seq<seq<B>>, bs: seq<B>, classes: seq<nat>): (r: seq<seq<B>>)
    requires |bs| == |classes| && forall i :: 0 <= i < |classes| ==> classes[i] < |free|
    ensures |r| == |free|
  {
    if bs == [] then free
    else
      var n := |bs| - 1;
      Appended(GivenBack(free, bs[..n], classes[..n]), classes[n], bs[n])
  }

  /** The loop of Get, over one mailbox `q` with the codes and the size classes of its
      messages: the `k` messages in front were cancelled and went back to the pool, the next
      one came out, what follows it stays. */
  predicate Getting<B(==)>(q: seq<B>, codes: seq<uint16>, classes: seq<nat>, k: nat,
                           q': seq<B>, free: seq<seq<B>>, free': seq<seq<B>>)
  {
    && |q| == |codes| == |classes| && k <= |q|
    && (forall i :: 0 <= i < |q| ==> classes[i] < |free|)
    && (forall i :: 0 <= i < k ==> codes[i] == DISCARDED)
    && q' == (if k < |q| then q[k + 1..] else [])
    && free' == GivenBack(free, q[..k], classes[..k])
  }

  /** What the whole Get has done: the message that came out, if any, is the first live one. */
  predicate Got<B(==)>(q: seq<B>, codes: seq<uint16>, classes: seq<nat>, k: nat,
                       q': seq<B>, free: seq<seq<B>>, free': seq<seq<B>>)
  {
    Getting(q, codes, classes, k, q', free, free') && (k < |q| ==> codes[k] != DISCARDED)
  }

  lemma GettingStarts<B>(q: seq<B>, codes: seq<uint16>, classes: seq<nat>, free: seq<seq<B>>)
    requires |q| == |codes| == |classes| && forall i :: 0 <= i < |q| ==> classes[i] < |free|
    ensures Getting(q, codes, classes, 0, if q == [] then [] else q[1..], free, free)
  {
  }

  /** Dropping one more: the next message in the mailbox, if any, comes out. */
  lemma GettingStep<B>(q: seq<B>, codes: seq<uint16>, classes: seq<nat>, k: nat,
                       q': seq<B>, free: seq<seq<B>>, free': seq<seq<B>>)
    requires Getting(q, codes, classes, k, q', free, free') && k < |q| && codes[k] == DISCARDED
    ensures |free'| == |free| && classes[k] < |free|
    ensures Getting(q, codes, classes, k + 1, if q' == [] then [] else q'[1..], free, Appended(free', classes[k], q[k]))
    ensures q' == [] <==> k + 1 == |q|
    ensures q' != [] ==> q'[0] == q[k + 1]
  {
    GivenBackStep(free, q, classes, k);
  }

  /** A Get that drops its first message goes on as a Get from the rest. */
  lemma GotCons<B>(q: seq<B>, codes: seq<uint16>, classes: seq<nat>, k: nat,
                   q': seq<B>, free: seq<seq<B>>, free': seq<seq<B>>)
    requires |q| == |codes| == |classes| && q != [] && codes[0] == DISCARDED && classes[0] < |free|
    requires Got(q[1..], codes[1..], classes[1..], k, q', Appended(free, classes[0], q[0]), free')
    ensures Got(q, codes, classes, k + 1, q', free, free')
  {
    assert forall i :: 0 < i < |q| ==> codes[i] == codes[1..][i - 1] && classes[i] == classes[1..][i - 1];
    FrontAndRest(q, k);
    FrontAndRest(classes, k);
    GivenBackCons(free, q[0], classes[0], q[1..][..k], classes[1..][..k]);
    if k + 1 < |q| {
      assert q[1..][k + 1..] == q[k + 2..];
    }
  }

  /** A purge under way: the first `k` messages went back to the pool. */
  predicate Purged<B(==)>(q: seq<B>, classes: seq<nat>, k: nat, q': seq<B>, free: seq<seq<B>>, free': seq<seq<B>>) {
    && |q| == |classes| && k <= |q|
    && (forall i :: 0 <= i < |q| ==> classes[i] < |free|)
    && q' == q[k..] && free' == GivenBack(free, q[..k], classes[..k])
  }

  /** A Get in between, with what it returned given back too. */
  lemma PurgedGet<B>(q: seq<B>, classes: seq<nat>, k: nat, q': seq<B>, free: seq<seq<B>>, free': seq<seq<B>>,
                     codes: seq<uint16>, j: nat, q'': seq<B>, free'': seq<seq<B>>)
    requires Purged(q, classes, k, q', free, free') && q' != []
    requires Got(q', codes, classes[k..], j, q'', free', free'')
    ensures k + j <= |q| && |free''| == |free|
    ensures j == |q'| ==> Purged(q, classes, |q|, q'', free, free'')
    ensures j < |q'| ==>
              && k + j < |q| && q'[j] == q[k + j] && classes[k + j] < |free''|
              && Purged(q, classes, k + j + 1, q'', free, Appended(free'', classes[k + j], q[k + j]))
  {
    hide GivenBack;
    GivenBackMore(free, q, classes, k, j);
    if j < |q'| {
      GivenBackStep(free, q, classes, k + j);
      DropMore(q, k, j);
    } else {
      assert q[..k + j] == q[..|q|] && q[|q|..] == [];
    }
  }

  lemma PurgedOne<B>(q: seq<B>, classes: seq<nat>, k: nat, q': seq<B>, free: seq<seq<B>>, free': seq<seq<B>>)
    requires Purged(q, classes, k, q', free, free') && q' != []
    ensures k < |q| && |free'| == |free| && classes[k] < |free| && q'[0] == q[k]
    ensures Purged(q, classes, k + 1, q'[1..], free, Appended(free', classes[k], q[k]))
  {
    GivenBackStep(free, q, classes, k);
  }

  // ---------- one step of each ----------

  lemma PostedStep<B>(boxes: seq<seq<B>>, mail: seq<(nat, B)>, k: nat)
    requires Addressed(mail, |boxes|) && k < |mail|
    ensures Posted(boxes, mail[..k + 1]) == Appended(Posted(boxes, mail[..k]), mail[k].0, mail[k].1)
  {
    assert mail[..k + 1][..k] == mail[..k];
  }

  lemma RaisesStep<B>(sem: seq<nat>, mail: seq<(nat, B)>, k: nat)
    requires Addressed(mail, |sem|) && k < |mail|
    ensures Raises(sem, mail[..k + 1]) == Raised(Raises(sem, mail[..k]), mail[k].0)
  {
    assert mail[..k + 1][..k] == mail[..k];
  }

  lemma {:induction false} PostedCons<B>(boxes: seq<seq<B>>, x: (nat, B), rest: seq<(nat, B)>)
    requires Addressed([x] + rest, |boxes|)
    ensures x.0 < |boxes| && Addressed(rest, |boxes|)
    ensures Posted(boxes, [x] + rest) == Posted(Appended(boxes, x.0, x.1), rest)
  {
    assert ([x] + rest)[0] == x && forall i :: 0 <= i < |rest| ==> rest[i] == ([x] + rest)[i + 1];
    if rest == [] {
      assert [x] + rest == [x] && [x][..0] == [];
    } else {
      var n := |rest| - 1;
      assert ([x] + rest)[..n + 1] == [x] + rest[..n];
      PostedCons(boxes, x, rest[..n]);
    }
  }

  lemma {:induction false} RaisesCons<B>(sem: seq<nat>, x: (nat, B), rest: seq<(nat, B)>)
    requires Addressed([x] + rest, |sem|)
    ensures x.0 < |sem| && Addressed(rest, |sem|)
    ensures Raises(sem, [x] + rest) == Raises(Raised(sem, x.0), rest)
  {
    assert ([x] + rest)[0] == x && forall i :: 0 <= i < |rest| ==> rest[i] == ([x] + rest)[i + 1];
    if rest == [] {
      assert [x] + rest == [x] && [x][..0] == [];
    } else {
      var n := |rest| - 1;
      assert ([x] + rest)[..n + 1] == [x] + rest[..n];
      RaisesCons(sem, x, rest[..n]);
    }
  }

  lemma {:induction false} GivenBackCons<B>(free: seq<seq<B>>, b: B, c: nat, bs: seq<B>, classes: seq<nat>)
    requires |bs| == |classes| && c < |free| && forall i :: 0 <= i < |classes| ==> classes[i] < |free|
    ensures GivenBack(free, [b] + bs, [c] + classes) == GivenBack(Appended(free, c, b), bs, classes)
  {
    if bs == [] {
      assert [b] + bs == [b] && [c] + classes == [c] && [b][..0] == [] && [c][..0] == [];
    } else {
      var n := |bs| - 1;
      assert ([b] + bs)[..n + 1] == [b] + bs[..n] && ([c] + classes)[..n + 1] == [c] + classes[..n];
      GivenBackCons(free, b, c, bs[..n], classes[..n]);
    }
  }

  lemma GivenBackStep<B>(free: seq<seq<B>>, bs: seq<B>, classes: seq<nat>, k: nat)
    requires |bs| == |classes| && (forall i :: 0 <= i < |classes| ==> classes[i] < |free|) && k < |bs|
    ensures GivenBack(free, bs[..k + 1], classes[..k + 1])
         == Appended(GivenBack(free, bs[..k], classes[..k]), classes[k], bs[k])
  {
    assert bs[..k + 1][..k] == bs[..k] && classes[..k + 1][..k] == classes[..k];
  }

  lemma {:induction false} GivenBackMore<B>(free: seq<seq<B>>, bs: seq<B>, classes: seq<nat>, k: nat, j: nat)
    requires |bs| == |classes| && (forall i :: 0 <= i < |classes| ==> classes[i] < |free|) && k + j <= |bs|
    ensures GivenBack(GivenBack(free, bs[..k], classes[..k]), bs[k..][..j], classes[k..][..j])
         == GivenBack(free, bs[..k + j], classes[..k + j])
  {
    if j > 0 {
      GivenBackMore(free, bs, classes, k, j - 1);
      GivenBackStep(GivenBack(free, bs[..k], classes[..k]), bs[k..], classes[k..], j - 1);
      GivenBackStep(free, bs, classes, k + j - 1);
    }
  }

  // ---------- what they come to, queue by queue ----------

  /** The messages for mailbox `m`, in order; the buffers of class `i`, in order. */
  function To<B>(mail: seq<(nat, B)>, m: nat): seq<B> {
    if mail == [] then []
    else To(mail[..|mail| - 1], m) + (if mail[|mail| - 1].0 == m then [mail[|mail| - 1].1] else [])
  }

  function OfClass<B>(bs: seq<B>, classes: seq<nat>, i: nat): seq<B>
    requires |bs| == |classes|
  {
    if bs == [] then []
    else
      var n := |bs| - 1;
      OfClass(bs[..n], classes[..n], i) + (if classes[n] == i then [bs[n]] else [])
  }

  /** Every mailbox has gained exactly the messages addressed to it, in order. */
  lemma {:induction false} PostedAppends<B>(boxes: seq<seq<B>>, mail: seq<(nat, B)>, m: nat)
    requires Addressed(mail, |boxes|) && m < |boxes|
    ensures Posted(boxes, mail)[m] == boxes[m] + To(mail, m)
  {
    if mail == [] {
      assert boxes[m] + [] == boxes[m];
    } else {
      var n := |mail| - 1;
      PostedAppends(boxes, mail[..n], m);
      Assoc(boxes[m], To(mail[..n], m), if mail[n].0 == m then [mail[n].1] else []);
    }
  }

  /** Every free queue has gained exactly the buffers of its class, in order. */
  lemma {:induction false} GivenBackAppends<B>(free: seq<seq<B>>, bs: seq<B>, classes: seq<nat>, i: nat)
    requires |bs| == |classes| && (forall k :: 0 <= k < |classes| ==> classes[k] < |free|) && i < |free|
    ensures GivenBack(free, bs, classes)[i] == free[i] + OfClass(bs, classes, i)
  {
    if bs == [] {
      assert free[i] + [] == free[i];
    } else {
      var n := |bs| - 1;
      GivenBackAppends(free, bs[..n], classes[..n], i);
      Assoc(free[i], OfClass(bs[..n], classes[..n], i), if classes[n] == i then [bs[n]] else []);
    }
  }

  /** What was given back is in the queue of its class. */
  lemma {:induction false} GivenBackHolds<B>(free: seq<seq<B>>, bs: seq<B>, classes: seq<nat>, k: nat)
    requires |bs| == |classes| && (forall i :: 0 <= i < |classes| ==> classes[i] < |free|) && k < |bs|
    ensures bs[k] in GivenBack(free, bs, classes)[classes[k]]
  {
    var n := |bs| - 1;
    if k < n {
      GivenBackHolds(free, bs[..n], classes[..n], k);
    }
  }

  /** What was posted is in the mailbox it was addressed to. */
  lemma {:induction false} PostedHolds<B>(boxes: seq<seq<B>>, mail: seq<(nat, B)>, i: nat)
    requires Addressed(mail, |boxes|) && i < |mail|
    ensures mail[i].1 in Posted(boxes, mail)[mail[i].0]
  {
    var n := |mail| - 1;
    if i < n {
      PostedHolds(boxes, mail[..n], i);
    }
  }
}
