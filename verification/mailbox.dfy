/** mailbox.cpp and postOffice.cpp: mailboxes that drop cancelled messages on the way
    out, and the post office with one counting semaphore per mailbox. */
module MailBoxes {
  import opened Words
  import opened Buffers
  import opened Mail
  import opened BufferPools

  /** The code of each message. */
  ghost function CodesOf(bs: seq<Buffer>): (r: seq<uint16>)
    reads bs
    ensures |r| == |bs|
    ensures forall i :: 0 <= i < |r| ==> r[i] == bs[i].msgCode
  {
    if bs == [] then [] else [bs[0].msgCode] + CodesOf(bs[1..])
  }

  /** The size class of each buffer, which never changes. */
  function ClassesOf(bs: seq<Buffer>): (r: seq<nat>)
    ensures |r| == |bs|
    ensures forall i :: 0 <= i < |r| ==> r[i] == bs[i].code
  {
    seq(|bs|, i requires 0 <= i < |bs| => bs[i].code as nat)
  }

  class MailBox {
    const list: Chain
    const buff: BufferPool

    /** A proper list that holds exactly the buffers which name it as their holder. */
    ghost predicate Valid()
      reads list, buff.owned
    {
      && list !in buff.chains && list.members <= buff.owned
      && (forall b {:trigger b in list.members} :: b in buff.owned && b.holder == list ==> b in list.members)
      && list.Valid()
    }

    constructor (buffers: BufferPool)
      ensures Valid() && fresh(list) && list.nodes == [] && list.members == {} && buff == buffers
    {
      list := new Chain();
      buff := buffers;
      new;
      assert list.members == {};
    }

    method Add(info: Buffer)
      requires Valid() && info in buff.owned && info.holder == null
      modifies list, list.LastNode()`next, info`next, info`holder
      ensures Valid() && list.nodes == old(list.nodes) + [info]
      ensures list.members == old(list.members) + {info} && info.holder == list
    {
      list.PutOnTail(info);
    }

    /** `info` has been unlinked from the front of the list. */
    ghost predicate Taken(info: Buffer?)
      reads list, buff, buff.chains, buff.owned
    {
      && Valid() && buff.Valid()
      && (info == null ==> list.nodes == [])
      && (info != null ==> info in buff.owned && info.holder == null)
    }

    /** The buffers in this mailbox or in a free queue. */
    ghost function Movable(): set<Buffer>
      reads buff.owned
    {
      set b <- buff.owned | b.holder == list || b.holder in buff.chains
    }

    /** TMailBox::Get: the relation Got between mailbox and free queues before and after,
        and each dropped buffer is held by the queue of its class. */
    method Get() returns (info: Buffer?, ghost k: nat)
      requires Valid() && buff.Valid()
      modifies list, buff`contents, buff.chains, Movable()`next, Movable()`holder
      ensures Taken(info) && Movable() <= old(Movable())
      ensures forall b <- buff.owned :: b.holder == old(b.holder) || b.holder == null || b.holder in buff.chains
      ensures Got(old(list.nodes), old(CodesOf(list.nodes)), ClassesOf(old(list.nodes)), k,
                  list.nodes, old(buff.contents), buff.contents)
      ensures info == if k < |old(list.nodes)| then old(list.nodes)[k] else null
      ensures info != null ==> info in old(Movable())
      ensures forall i :: 0 <= i < k ==> old(list.nodes)[i].holder in buff.chains
    {
      hide Valid, BufferPool.Valid, Taken, Getting, Movable, CodesOf, ClassesOf;
      ghost var was, codes, free := list.nodes, CodesOf(list.nodes), buff.contents;
      ghost var classes := ClassesOf(was);
      Classed();
      GettingStarts(was, codes, classes, free);
      k := 0;
      info := TakeHead();
      while info != null && info.msgCode == DISCARDED
        invariant Taken(info) && Movable() <= old(Movable())
        invariant forall b <- buff.owned :: b.holder == old(b.holder) || b.holder == null || b.holder in buff.chains
        invariant Getting(was, codes, classes, k, list.nodes, free, buff.contents)
        invariant k <= |was| && info == if k < |was| then was[k] else null
        invariant info != null ==> info in old(Movable())
        decreases |was| - k
      {
        GettingStep(was, codes, classes, k, list.nodes, free, buff.contents);
        info := DropAndTake(info);
        k := k + 1;
      }
      DroppedAreFree(info, was, codes, classes, k, free);
    }

    /** The buffers that went back are held by the queues of their classes. */
    lemma DroppedAreFree(info: Buffer?, was: seq<Buffer>, codes: seq<uint16>, classes: seq<nat>, k: nat,
                         free: seq<seq<Buffer>>)
      requires Taken(info) && Getting(was, codes, classes, k, list.nodes, free, buff.contents)
      requires |free| == |buff.queues|
      ensures forall i :: 0 <= i < k ==> was[i].holder in buff.chains
    {
      forall i | 0 <= i < k
        ensures was[i].holder in buff.chains
      {
        GivenBackHolds(free, was[..k], classes[..k], i);
        buff.ContentsHeld(classes[i], was[i]);
      }
    }

    /** The messages come from the pool, so their classes are classes of the pool. */
    lemma Classed()
      requires Valid() && buff.Valid()
      ensures forall i :: 0 <= i < |list.nodes| ==> ClassesOf(list.nodes)[i] < |buff.contents|
      ensures |buff.contents| == |buff.queues|
    {
    }

    /** GetFromHead, seen from the mailbox. */
    method TakeHead() returns (info: Buffer?)
      requires Valid() && buff.Valid()
      modifies list, Movable()`holder
      ensures Taken(info) && Movable() <= old(Movable())
      ensures forall b <- buff.owned :: b.holder == old(b.holder) || b.holder == null || b.holder in buff.chains
      ensures info == null <==> old(list.nodes) == []
      ensures info != null ==>
                && info == old(list.nodes)[0] && list.nodes == old(list.nodes)[1..]
                && info in old(Movable())
    {
      assert list.FirstNode() <= list.members;
      info := list.GetFromHead();
      buff.Untouched();
    }

    /** RetBuffer, seen from the mailbox. */
    method GiveBack(info: Buffer)
      requires Taken(info)
      modifies buff`contents, buff.chains, info`next, info`holder, buff.Free()`next
      ensures Valid() && buff.Valid() && info.holder in buff.chains
      ensures Movable() <= old(Movable()) + {info}
      ensures buff.contents == Appended(old(buff.contents), info.code, info)
      ensures forall b <- buff.owned :: b != info ==> b.holder == old(b.holder)
    {
      buff.RetBuffer(info);
    }

    /** One turn of the loop: the cancelled message goes back, the next one comes out. */
    method DropAndTake(info: Buffer) returns (next: Buffer?)
      requires Taken(info)
      modifies list, buff`contents, buff.chains, info`next, info`holder, Movable()`next, Movable()`holder
      ensures Taken(next) && Movable() <= old(Movable()) + {info}
      ensures forall b <- buff.owned :: b.holder == old(b.holder) || b.holder == null || b.holder in buff.chains
      ensures next == null <==> old(list.nodes) == []
      ensures next != null ==>
                && next == old(list.nodes)[0] && list.nodes == old(list.nodes)[1..]
                && next in old(Movable())
      ensures buff.contents == Appended(old(buff.contents), info.code, info)
    {
      GiveBack(info);
      next := TakeHead();
    }

    /** TMailBox::Purge: every message goes back to the pool, in order. */
    method Purge()
      requires Valid() && buff.Valid()
      modifies list, buff`contents, buff.chains, Movable()`next, Movable()`holder
      ensures Valid() && buff.Valid() && Movable() <= old(Movable())
      ensures forall b <- buff.owned :: b.holder == old(b.holder) || b.holder == null || b.holder in buff.chains
      ensures list.nodes == []
      ensures buff.contents == GivenBack(old(buff.contents), old(list.nodes), ClassesOf(old(list.nodes)))
    {
      hide Valid, BufferPool.Valid, Purged;
      ghost var was, free, k := list.nodes, buff.contents, 0;
      ghost var classes := ClassesOf(was);
      Classed();
      PurgeStarts(was, classes, free);
      while list.head != null
        invariant Valid() && buff.Valid() && Movable() <= old(Movable())
        invariant forall b <- buff.owned :: b.holder == old(b.holder) || b.holder == null || b.holder in buff.chains
        invariant k <= |was| && Purged(was, classes, k, list.nodes, free, buff.contents)
        decreases |was| - k
      {
        k := PurgeSome(was, classes, free, k);
      }
      HeadOf();
      PurgeEnds(was, classes, k, list.nodes, free, buff.contents);
    }

    /** One turn of the loop: a Get, and what it returned goes back too. */
    method PurgeSome(ghost was: seq<Buffer>, ghost classes: seq<nat>, ghost free: seq<seq<Buffer>>, ghost k: nat)
      returns (ghost next: nat)
      requires Valid() && buff.Valid() && list.head != null && classes == ClassesOf(was)
      requires Purged(was, classes, k, list.nodes, free, buff.contents)
      modifies list, buff`contents, buff.chains, Movable()`next, Movable()`holder
      ensures Valid() && buff.Valid() && Movable() <= old(Movable())
      ensures forall b <- buff.owned :: b.holder == old(b.holder) || b.holder == null || b.holder in buff.chains
      ensures k < next <= |was| && Purged(was, classes, next, list.nodes, free, buff.contents)
    {
      hide Valid, BufferPool.Valid, Purged, Got, Taken, Movable, CodesOf, ClassesOf;
      HeadOf();
      ghost var q, codes, free0 := list.nodes, CodesOf(list.nodes), buff.contents;
      ClassesFrom(was, classes, k, q, free, free0);
      var tmp, j := Get();
      PurgedGet(was, classes, k, q, free, free0, codes, j, list.nodes, buff.contents);
      next := k + j;
      TakenValid(tmp);
      FreeMovable();
      if tmp != null {
        GiveBack(tmp);
        next := next + 1;
      }
    }

    lemma FreeMovable()
      ensures buff.Free() <= Movable()
    {
    }

    lemma TakenValid(info: Buffer?)
      requires Taken(info)
      ensures Valid() && buff.Valid()
    {
    }

    lemma HeadOf()
      requires Valid()
      ensures list.head == null <==> list.nodes == []
    {
    }
  }

  lemma PurgeStarts(was: seq<Buffer>, classes: seq<nat>, free: seq<seq<Buffer>>)
    requires |was| == |classes| && forall i :: 0 <= i < |was| ==> classes[i] < |free|
    ensures Purged(was, classes, 0, was, free, free)
  {
  }

  lemma PurgeEnds(was: seq<Buffer>, classes: seq<nat>, k: nat, now: seq<Buffer>,
                  free: seq<seq<Buffer>>, free': seq<seq<Buffer>>)
    requires Purged(was, classes, k, now, free, free') && now == []
    ensures k == |was| && free' == GivenBack(free, was, classes)
  {
    assert was[..k] == was && classes[..k] == classes;
  }

  lemma ClassesFrom(was: seq<Buffer>, classes: seq<nat>, k: nat, q: seq<Buffer>,
                    free: seq<seq<Buffer>>, free': seq<seq<Buffer>>)
    requires classes == ClassesOf(was) && Purged(was, classes, k, q, free, free')
    ensures ClassesOf(q) == classes[k..] && k + |q| == |was|
    ensures forall i :: 0 <= i < |q| ==> q[i] == was[k + i] && was[k + i].code == classes[k + i]
  {
  }

  class PostOffice {
    const boxes: seq<MailBox>
    const buff: BufferPool
    ghost const lists: set<Chain>
    var sem: seq<nat>                         // the count of each mailbox's semaphore
    ghost var contents: seq<seq<Buffer>>      // the mailboxes, front first

    /** Mailboxes and free queues share buffers and links but no list. */
    ghost predicate Valid()
      reads this, lists, buff.owned
    {
      && lists !! buff.chains
      && |sem| == |boxes| == |contents|
      && (forall i, j :: 0 <= i < j < |boxes| ==> boxes[i].list != boxes[j].list)
      && (forall i :: 0 <= i < |boxes| ==>
            && boxes[i].list in lists && boxes[i].buff == buff
            && boxes[i].Valid() && boxes[i].list.nodes == contents[i])
    }

    /** What keeps the mailboxes as they are. */
    twostate predicate Same()
      reads this, lists, buff.owned
    {
      && contents == old(contents) && |sem| == |old(sem)|
      && (forall q <- lists :: q.head == old(q.head) && q.tail == old(q.tail) && q.count == old(q.count)
                               && q.nodes == old(q.nodes) && q.members == old(q.members))
      && (forall b <- buff.owned :: old(b.holder) in lists || b.holder in lists ==>
                                      b.holder == old(b.holder) && b.next == old(b.next))
    }

    twostate lemma Untouched()
      requires old(Valid()) && Same()
      ensures Valid()
    {
    }

    /** What keeps all mailboxes but number `m`. */
    twostate predicate SameBut(m: nat)
      requires m < |boxes|
      reads this, lists, buff.owned
    {
      && |sem| == |old(sem)|
      && (forall q <- lists :: q != boxes[m].list ==>
                                 && q.head == old(q.head) && q.tail == old(q.tail) && q.count == old(q.count)
                                 && q.nodes == old(q.nodes) && q.members == old(q.members))
      && (forall b <- buff.owned :: Elsewhere(old(b.holder), m) || Elsewhere(b.holder, m) ==>
                                      b.holder == old(b.holder) && b.next == old(b.next))
    }

    /** A mailbox other than number `m`. */
    ghost predicate Elsewhere(holder: object?, m: nat)
      requires m < |boxes|
    {
      holder in lists && holder != boxes[m].list
    }

    twostate lemma OthersUntouched(m: nat)
      requires old(Valid()) && m < |boxes| && SameBut(m)
      requires contents == old(contents)[m := boxes[m].list.nodes] && boxes[m].Valid()
      ensures Valid()
    {
    }

    /** The constructor's loop: `n` empty mailboxes over one pool. */
    static method MakeBoxes(n: nat, buffers: BufferPool) returns (bs: seq<MailBox>, ghost cs: set<Chain>)
      ensures |bs| == n && fresh(cs)
      ensures forall i, j :: 0 <= i < j < n ==> bs[i].list != bs[j].list
      ensures forall i :: 0 <= i < n ==>
                && bs[i].list in cs && bs[i].buff == buffers && bs[i].Valid() && bs[i].list.nodes == []
    {
      bs, cs := [], {};
      while |bs| < n
        invariant |bs| <= n && fresh(cs)
        invariant forall i, j :: 0 <= i < j < |bs| ==> bs[i].list != bs[j].list
        invariant forall i :: 0 <= i < |bs| ==>
                    && bs[i].list in cs && bs[i].buff == buffers && bs[i].Valid() && bs[i].list.nodes == []
      {
        var box := new MailBox(buffers);
        bs, cs := bs + [box], cs + {box.list};
      }
    }

    constructor (mailBoxesNum: byte, buffers: BufferPool)
      requires mailBoxesNum > 0
      ensures Valid() && |boxes| == mailBoxesNum && buff == buffers && fresh(lists)
      ensures contents == seq(mailBoxesNum, _ => []) && sem == seq(mailBoxesNum, _ => 0)
    {
      var bs, cs := MakeBoxes(mailBoxesNum, buffers);
      boxes, buff, lists := bs, buffers, cs;
      sem, contents := seq(mailBoxesNum, _ => 0), seq(mailBoxesNum, _ => []);
    }

    /** The buffers that are in some mailbox. */
    ghost function Queued(): set<Buffer>
      reads buff.owned
    {
      set b <- buff.owned | b.holder in lists
    }

    /** First half of Add: link the message into its mailbox. */
    method Link(m: nat, info: Buffer)
      requires Valid() && m < |boxes| && info in buff.owned && info.holder == null
      modifies `contents, lists, info`next, info`holder, Queued()`next
      ensures Valid() && contents == Appended(old(contents), m, info)
      ensures forall b <- buff.owned :: b.holder == if b == info then boxes[m].list else old(b.holder)
    {
      assert boxes[m].list.LastNode() <= boxes[m].list.members;
      boxes[m].Add(info);
      contents := Appended(contents, m, info);
      OthersUntouched(m);
    }

    /** TPostOffice::Add: link, then release the semaphore unless it is at its cap. */
    method Add(m: byte, info: Buffer) returns (ok: bool)
      requires Valid() && info in buff.owned && info.holder == null
      modifies this, lists, info`next, info`holder, Queued()`next
      ensures Valid() && ok == (m < |boxes|)
      ensures !ok ==> sem == old(sem) && contents == old(contents)
      ensures ok ==> contents == Appended(old(contents), m, info) && sem == Raised(old(sem), m)
      ensures forall b <- buff.owned :: b.holder == if ok && b == info then boxes[m].list else old(b.holder)
    {
      if m >= |boxes| {
        return false;
      }
      Link(m, info);
      sem := Raised(sem, m);
      return true;
    }

    /** The wait of GetSync: the lowest mailbox whose semaphore is signalled gives up one
        count; with none signalled the caller blocks. */
    method Wait() returns (m: nat, blocked: bool)
      requires Valid()
      modifies `sem
      ensures Valid()
      ensures blocked <==> forall i :: 0 <= i < |boxes| ==> old(sem)[i] == 0
      ensures blocked ==> sem == old(sem)
      ensures !blocked ==>
                && m < |boxes| && old(sem)[m] > 0 && sem == old(sem)[m := old(sem)[m] - 1]
                && forall i :: 0 <= i < m ==> old(sem)[i] == 0
    {
      m := 0;
      while m < |boxes| && sem[m] == 0
        invariant m <= |boxes|
        invariant forall i :: 0 <= i < m ==> sem[i] == 0
      {
        m := m + 1;
      }
      blocked := m == |boxes|;
      if !blocked {
        sem := sem[m := sem[m] - 1];
      }
    }

    /** The buffers in mailbox `m` or in a free queue. */
    ghost function Movable(m: nat): set<Buffer>
      requires m < |boxes|
      reads buff.owned
    {
      set b <- buff.owned | b.holder == boxes[m].list || b.holder in buff.chains
    }

    /** A buffer changes holder only by coming out or by going back to the pool. */
    twostate predicate OnlyFreed()
      reads buff.owned
    {
      forall b <- buff.owned :: b.holder == old(b.holder) || b.holder == null || b.holder in buff.chains
    }

    lemma BoxLists()
      requires Valid()
      ensures forall i :: 0 <= i < |boxes| ==> boxes[i].list in lists
    {
    }

    /** The list of mailbox `m`, and the buffers in it or in a free queue; nothing of an
        unknown mailbox. */
    ghost function BoxAt(m: nat): set<Chain> {
      if m < |boxes| then {boxes[m].list} else {}
    }

    ghost function MovableAt(m: nat): set<Buffer>
      reads buff.owned
    {
      if m < |boxes| then Movable(m) else {}
    }

    /** TPostOffice::Get: false stands for the exception on an unknown mailbox. */
    method Get(m: byte) returns (ok: bool, info: Buffer?, ghost k: nat)
      requires Valid() && buff.Valid()
      modifies `contents, BoxAt(m), buff`contents, buff.chains, MovableAt(m)`next, MovableAt(m)`holder
      ensures Valid() && buff.Valid() && |contents| == |old(contents)| == |boxes| && OnlyFreed()
      ensures ok == (m < |boxes|)
      ensures !ok ==> info == null && contents == old(contents) && buff.contents == old(buff.contents)
      ensures ok ==>
                && contents == old(contents)[m := contents[m]]
                && Got(old(contents)[m], old(CodesOf(contents[m])), ClassesOf(old(contents)[m]), k,
                       contents[m], old(buff.contents), buff.contents)
                && info == (if k < |old(contents)[m]| then old(contents)[m][k] else null)
                && (info != null ==> info in buff.owned && info.holder == null)
                && (forall i :: 0 <= i < k ==> old(contents)[m][i].holder in buff.chains)
    {
      hide Got, MailBox.Valid, BufferPool.Valid;
      ok, info, k := m < |boxes|, null, 0;
      if ok {
        info, k := GetKnown(m);
      }
    }

    method GetKnown(m: nat) returns (info: Buffer?, ghost k: nat)
      requires Valid() && buff.Valid() && m < |boxes|
      modifies `contents, boxes[m].list, buff`contents, buff.chains, Movable(m)`next, Movable(m)`holder
      ensures Valid() && buff.Valid() && |contents| == |old(contents)| == |boxes| && OnlyFreed()
      ensures contents == old(contents)[m := contents[m]]
      ensures Got(old(contents)[m], old(CodesOf(contents[m])), ClassesOf(old(contents)[m]), k,
                  contents[m], old(buff.contents), buff.contents)
      ensures info == if k < |old(contents)[m]| then old(contents)[m][k] else null
      ensures info != null ==> info in buff.owned && info.holder == null
      ensures forall i :: 0 <= i < k ==> old(contents)[m][i].holder in buff.chains
    {
      hide Got, Chain.Valid, BufferPool.Valid, CodesOf, ClassesOf;
      info, k := boxes[m].Get();
      contents := contents[m := boxes[m].list.nodes];
      OthersUntouched(m);
    }

    /** TPostOffice::PurgeMailBox: false stands for the exception on an unknown mailbox. */
    method PurgeMailBox(m: byte) returns (ok: bool)
      requires Valid() && buff.Valid()
      modifies `contents, BoxAt(m), buff`contents, buff.chains, MovableAt(m)`next, MovableAt(m)`holder
      ensures Valid() && buff.Valid() && |old(contents)| == |boxes| && OnlyFreed()
      ensures ok == (m < |boxes|)
      ensures !ok ==> contents == old(contents) && buff.contents == old(buff.contents)
      ensures ok ==>
                && contents == old(contents)[m := []] && Fit(old(buff.contents), old(contents)[m])
                && buff.contents == GivenBack(old(buff.contents), old(contents)[m], ClassesOf(old(contents)[m]))
    {
      hide MailBox.Valid, BufferPool.Valid;
      ok := m < |boxes|;
      if ok {
        PurgeKnown(m);
      }
    }

    method PurgeKnown(m: nat)
      requires Valid() && buff.Valid() && m < |boxes|
      modifies `contents, boxes[m].list, buff`contents, buff.chains, Movable(m)`next, Movable(m)`holder
      ensures Valid() && buff.Valid() && contents == old(contents)[m := []]
      ensures Fit(old(buff.contents), old(contents)[m]) && Movable(m) <= old(Movable(m)) && OnlyFreed()
      ensures buff.contents == GivenBack(old(buff.contents), old(contents)[m], ClassesOf(old(contents)[m]))
    {
      hide Chain.Valid;
      boxes[m].Classed();
      boxes[m].Purge();
      contents := contents[m := boxes[m].list.nodes];
      OthersUntouched(m);
    }

    /** The buffers in any mailbox or free queue. */
    ghost function Listed(): set<Buffer>
      reads buff.owned
    {
      set b <- buff.owned | b.holder in lists || b.holder in buff.chains
    }

    /** TPostOffice::GetSync: wait for a signal, then Get from that mailbox, which may have
        nothing left to return. */
    method GetSync() returns (m: nat, blocked: bool, info: Buffer?, ghost k: nat)
      requires Valid() && buff.Valid()
      modifies this, lists, buff`contents, buff.chains, Listed()`next, Listed()`holder
      ensures Valid() && buff.Valid() && OnlyFreed()
      ensures blocked <==> forall i :: 0 <= i < |boxes| ==> old(sem)[i] == 0
      ensures blocked ==> sem == old(sem) && contents == old(contents) && buff.contents == old(buff.contents) && info == null
      ensures !blocked ==>
                && m < |boxes| && old(sem)[m] > 0 && sem == old(sem)[m := old(sem)[m] - 1]
                && (forall i :: 0 <= i < m ==> old(sem)[i] == 0)
                && |old(contents)| == |contents| == |boxes|
                && contents == old(contents)[m := contents[m]]
                && Got(old(contents)[m], old(CodesOf(contents[m])), ClassesOf(old(contents)[m]), k,
                       contents[m], old(buff.contents), buff.contents)
                && info == (if k < |old(contents)[m]| then old(contents)[m][k] else null)
                && (info != null ==> info in buff.owned && info.holder == null)
                && (forall i :: 0 <= i < k ==> old(contents)[m][i].holder in buff.chains)
    {
      hide Got, MailBox.Valid, BufferPool.Valid;
      m, blocked := Wait();
      info, k := null, 0;
      if !blocked {
        info, k := GetKnown(m);
      }
    }

    lemma Fitting()
      requires Valid() && buff.Valid()
      ensures AllFit(buff.contents, contents)
    {
      forall m | 0 <= m < |contents|
        ensures Fit(buff.contents, contents[m])
      {
        boxes[m].Classed();
      }
    }

    /** TPostOffice::Purge: every mailbox in turn. */
    method Purge()
      requires Valid() && buff.Valid()
      modifies `contents, lists, buff`contents, buff.chains, Listed()`next, Listed()`holder
      ensures Valid() && buff.Valid() && OnlyFreed()
      ensures |contents| == |old(contents)| && forall i :: 0 <= i < |contents| ==> contents[i] == []
      ensures AllFit(old(buff.contents), old(contents))
      ensures buff.contents == AllGivenBack(old(buff.contents), old(contents))
    {
      hide MailBox.Valid, BufferPool.Valid, Fit;
      Fitting();
      var i := 0;
      while i < |boxes|
        invariant i <= |boxes| == |contents| == |old(contents)| && Valid() && buff.Valid()
        invariant forall j :: 0 <= j < i ==> contents[j] == []
        invariant forall j :: i <= j < |contents| ==> contents[j] == old(contents)[j]
        invariant buff.contents == AllGivenBack(old(buff.contents), old(contents)[..i])
        invariant Listed() <= old(Listed()) && OnlyFreed()
      {
        AllGivenBackStep(old(buff.contents), old(contents), i);
        PurgeKnown(i);
        i := i + 1;
      }
      assert old(contents)[..i] == old(contents);
    }
  }

  /** The buffers belong to classes of the pool. */
  predicate Fit(free: seq<seq<Buffer>>, bs: seq<Buffer>) {
    forall i :: 0 <= i < |bs| ==> bs[i].code < |free|
  }

  predicate AllFit(free: seq<seq<Buffer>>, boxes: seq<seq<Buffer>>) {
    forall m :: 0 <= m < |boxes| ==> Fit(free, boxes[m])
  }

  /** The free queues after one mailbox after the other was given back. */
  function AllGivenBack(free: seq<seq<Buffer>>, boxes: seq<seq<Buffer>>): (r: seq<seq<Buffer>>)
    requires AllFit(free, boxes)
    ensures |r| == |free|
  {
    if boxes == [] then free
    else
      var n := |boxes| - 1;
      GivenBack(AllGivenBack(free, boxes[..n]), boxes[n], ClassesOf(boxes[n]))
  }

  lemma AllGivenBackStep(free: seq<seq<Buffer>>, boxes: seq<seq<Buffer>>, i: nat)
    requires i < |boxes| && AllFit(free, boxes)
    ensures AllGivenBack(free, boxes[..i + 1])
         == GivenBack(AllGivenBack(free, boxes[..i]), boxes[i], ClassesOf(boxes[i]))
  {
    assert boxes[..i + 1][..i] == boxes[..i];
  }
}
