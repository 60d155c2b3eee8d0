/** kernelAPI.h and kernelAPI.cpp: pool, post office and timer list together. They thread
    their lists through one link field of the same buffers. */
module Kernels {
  import opened Words
  import opened Sequences
  import opened Mail
  import opened Deltas
  import opened Buffers
  import opened BufferPools
  import opened MailBoxes
  import opened Timers

  /** A list of the kernel: a free queue, a mailbox, or the timers. */
  datatype Spot = Free(i: nat) | Box(m: nat) | Waiting

  class KernelAPI {
    const buff: BufferPool
    const office: PostOffice
    const timer: Timer

    constructor (counts: array<uint32>, sizes: array<uint32>, mailBoxesNum: byte, timerRes: Resolution)
      requires counts != sizes && counts.Length == sizes.Length && 0 < counts.Length <= 32 && mailBoxesNum > 0
      modifies counts, sizes
      ensures Valid() && timer.nodes == [] && |office.boxes| == mailBoxesNum
      ensures office.contents == seq(mailBoxesNum, _ => []) && office.sem == seq(mailBoxesNum, _ => 0)
      ensures timer.resolution == timerRes && SamePairs(buff.lengths, buff.initiated, old(sizes[..]), old(counts[..]))
      ensures forall i :: 0 <= i < |buff.queues| ==> buff.queues[i].count == buff.initiated[i]
      ensures forall b <- buff.owned :: b.holder in buff.chains
    {
      hide BufferPool.Valid, PostOffice.Valid, SamePairs;
      var pool := new BufferPool(counts, sizes);
      buff := pool;
      office := new PostOffice(mailBoxesNum, pool);
      timer := new Timer(timerRes, pool);
    }

    /** All lists are proper, no two are the same list, and every buffer that names a holder
        is in the list of that holder. */
    ghost predicate Valid()
      reads buff, buff.chains, buff.owned, office, office.lists, office.buff.owned, timer, timer.head, timer.buff.owned
    {
      && office.buff == buff && timer.buff == buff && Separate(buff.owned)
      && office.lists !! buff.chains && timer.head !in buff.owned
      && buff.Valid() && timer.Deliverable(office)
    }

    /** The sequence of buffers at a place. */
    ghost function At(p: Spot): seq<Buffer>
      reads buff, office, timer
    {
      match p
      case Free(i) => if i < |buff.contents| then buff.contents[i] else []
      case Box(m) => if m < |office.contents| then office.contents[m] else []
      case Waiting => timer.nodes
    }

    /** The object that holds the buffers at a place. */
    ghost function Holder(p: Spot): object?
    {
      match p
      case Free(i) => if i < |buff.queues| then buff.queues[i] else null
      case Box(m) => if m < |office.boxes| then office.boxes[m].list else null
      case Waiting => timer
    }

    lemma HeldAt(p: Spot, b: Buffer)
      requires Valid() && b in At(p)
      ensures b in buff.owned && b.holder == Holder(p) && b.holder != null
    {
      match p
      case Free(i) => assert b in buff.queues[i].members;
      case Box(m) => assert b in office.boxes[m].list.members;
      case Waiting => assert b in timer.members;
    }

    /** No two lists share a buffer, and a buffer is in the list that it names. */
    lemma ListsDisjoint(p: Spot, q: Spot, b: Buffer)
      requires Valid() && b in At(p) && b in At(q)
      ensures p == q
    {
      HeldAt(p, b);
      HeldAt(q, b);
    }

    /** No list runs through a buffer twice: the shared links are acyclic. */
    lemma NoRepeats(p: Spot, i: nat, j: nat)
      requires Valid() && i < j < |At(p)|
      ensures At(p)[i] != At(p)[j]
    {
      match p
      case Free(k) => assert buff.queues[k].Valid();
      case Box(m) => assert office.boxes[m].Valid();
      case Waiting =>
    }

    /** Along the links: each buffer of a list leads to the next, the last to nothing. */
    lemma LinksLead(p: Spot, i: nat)
      requires Valid() && i < |At(p)|
      ensures At(p)[i].next == if i + 1 < |At(p)| then At(p)[i + 1] else null
    {
      match p
      case Free(k) => assert buff.queues[k].Valid();
      case Box(m) => assert office.boxes[m].Valid();
      case Waiting =>
    }

    /** A buffer that names the holder of a place is at that place. */
    lemma InItsList(p: Spot, b: Buffer)
      requires Valid() && b in buff.owned && b.holder == Holder(p) && Holder(p) != null
      ensures b in At(p)
    {
      match p
      case Free(i) =>
        assert b in buff.queues[b.code].members;
        buff.queues[i].MembersAreNodes();
      case Box(m) =>
        assert office.boxes[m].Valid();
        assert b in office.boxes[m].list.members;
        office.boxes[m].list.MembersAreNodes();
      case Waiting =>
        assert b in timer.members;
        DistinctFill(timer.nodes, timer.members);
    }

    /** Nothing but the free queues has changed. */
    twostate predicate MailKept()
      reads office, timer
    {
      && office.contents == old(office.contents) && office.sem == old(office.sem)
      && timer.nodes == old(timer.nodes) && timer.deltas == old(timer.deltas)
    }

    /** Only `b` has changed hands: it is now held by `holder`. */
    twostate predicate OnlyMoved(new b: Buffer?, new holder: object?)
      reads buff.owned
    {
      forall x <- buff.owned :: x.holder == if x == b then holder else old(x.holder)
    }

    method GetBuffer(length: uint32) returns (r: Buffer?)
      requires Valid()
      modifies buff`contents, buff.chains, buff.Free()`holder
      ensures Valid() && MailKept() && OnlyMoved(r, null)
      ensures |old(buff.contents)| == |buff.lengths|
      ensures r == null <==> old(buff.Exhausted(length))
      ensures r == null ==> buff.contents == old(buff.contents)
      ensures r != null ==>
                && r in buff.owned && r.data.Length >= length && old(r.holder) in buff.chains
                && r.code < |old(buff.contents)| && old(buff.contents)[r.code] != [] && r == old(buff.contents)[r.code][0]
                && buff.contents == old(buff.contents)[r.code := old(buff.contents)[r.code][1..]]
      ensures r != null ==> forall k :: 0 <= k < |buff.lengths| && buff.lengths[k] >= length && old(buff.contents)[k] != [] ==>
                              r.code <= k && r.data.Length <= buff.lengths[k]
    {
      hide PostOffice.Valid, Timer.Valid;
      r := buff.GetBuffer(length);
      office.Untouched();
      timer.Untouched();
    }

    method RetBuffer(b: Buffer)
      requires Valid() && b in buff.owned && b.holder == null
      modifies buff`contents, buff.chains, b`next, b`holder, buff.Free()`next
      ensures Valid() && MailKept() && OnlyMoved(b, Holder(Free(b.code)))
      ensures b.code < |old(buff.contents)| && buff.contents == Appended(old(buff.contents), b.code, b)
    {
      hide PostOffice.Valid, Timer.Valid;
      buff.RetBuffer(b);
      office.Untouched();
      timer.Untouched();
    }

    /** SendMessage: the post office's Add. */
    method SendMessage(m: byte, b: Buffer) returns (ok: bool)
      requires Valid() && b in buff.owned && b.holder == null
      modifies office, office.lists, b`next, b`holder, office.Queued()`next
      ensures Valid() && buff.contents == old(buff.contents)
      ensures timer.nodes == old(timer.nodes) && timer.deltas == old(timer.deltas)
      ensures ok == (m < |office.boxes|) && |old(office.contents)| == |old(office.sem)| == |office.boxes|
      ensures ok ==> office.contents == Appended(old(office.contents), m, b) && office.sem == Raised(old(office.sem), m)
      ensures !ok ==> office.contents == old(office.contents) && office.sem == old(office.sem)
      ensures OnlyMoved(b, if ok then Holder(Box(m)) else null)
    {
      hide BufferPool.Valid, Timer.Valid;
      ok := office.Add(m, b);
      buff.Untouched();
      timer.Untouched();
    }

    /** GetMsg: the cancelled messages in front of the mailbox go to the free queues of their
        classes, the first live one comes out; an unknown mailbox is refused. */
    method GetMsg(m: byte) returns (ok: bool, info: Buffer?, ghost k: nat)
      requires Valid()
      modifies office`contents, office.BoxAt(m)
      modifies buff`contents, buff.chains, office.MovableAt(m)`next, office.MovableAt(m)`holder
      ensures Valid() && office.OnlyFreed() && timer.nodes == old(timer.nodes) && timer.deltas == old(timer.deltas)
      ensures office.sem == old(office.sem) && |office.contents| == |old(office.contents)| == |office.boxes|
      ensures ok == (m < |office.boxes|)
      ensures !ok ==> info == null && office.contents == old(office.contents) && buff.contents == old(buff.contents)
      ensures ok ==>
                && office.contents == old(office.contents)[m := office.contents[m]]
                && Got(old(office.contents)[m], old(CodesOf(office.contents[m])), ClassesOf(old(office.contents)[m]), k,
                       office.contents[m], old(buff.contents), buff.contents)
                && info == (if k < |old(office.contents)[m]| then old(office.contents)[m][k] else null)
                && (info != null ==> info in buff.owned && info.holder == null)
                && (forall i :: 0 <= i < k ==> old(office.contents)[m][i].holder in buff.chains)
    {
      hide Timer.Valid, Got, MailBox.Valid, BufferPool.Valid;
      ok, info, k := office.Get(m);
      timer.Untouched();
    }

    /** GetMsgSync: wait for a signal, then the same. */
    method GetMsgSync() returns (m: nat, blocked: bool, info: Buffer?, ghost k: nat)
      requires Valid()
      modifies office, office.lists, buff`contents, buff.chains, office.Listed()`next, office.Listed()`holder
      ensures Valid() && office.OnlyFreed() && timer.nodes == old(timer.nodes) && timer.deltas == old(timer.deltas)
      ensures |old(office.sem)| == |old(office.contents)| == |office.contents| == |office.boxes|
      ensures blocked <==> forall i :: 0 <= i < |office.boxes| ==> old(office.sem)[i] == 0
      ensures blocked ==> info == null && office.sem == old(office.sem)
                          && office.contents == old(office.contents) && buff.contents == old(buff.contents)
      ensures !blocked ==>
                && m < |office.boxes| && old(office.sem)[m] > 0 && (forall i :: 0 <= i < m ==> old(office.sem)[i] == 0)
                && office.sem == old(office.sem)[m := old(office.sem)[m] - 1]
                && office.contents == old(office.contents)[m := office.contents[m]]
                && Got(old(office.contents)[m], old(CodesOf(office.contents[m])), ClassesOf(old(office.contents)[m]), k,
                       office.contents[m], old(buff.contents), buff.contents)
                && info == (if k < |old(office.contents)[m]| then old(office.contents)[m][k] else null)
                && (info != null ==> info in buff.owned && info.holder == null)
                && (forall i :: 0 <= i < k ==> old(office.contents)[m][i].holder in buff.chains)
    {
      hide Timer.Valid, Got, MailBox.Valid, BufferPool.Valid;
      m, blocked, info, k := office.GetSync();
      timer.Untouched();
    }

    /** CTimer::StartTimer on a buffer in hand; a count of zero is refused. */
    method AddTimer(t: Buffer, mbx: byte, count: uint32, timerRes: uint32) returns (ok: bool)
      requires Valid() && t in buff.owned && t.holder == null && mbx < |office.boxes|
      modifies timer, timer.head`next, timer.members`next, timer.members`count
      modifies t`next, t`holder, t`count, t`mbx
      ensures Valid() && buff.contents == old(buff.contents)
      ensures office.contents == old(office.contents) && office.sem == old(office.sem)
      ensures ok == (count != 0) && OnlyMoved(t, if ok then timer else null)
      ensures !ok ==> timer.nodes == old(timer.nodes) && timer.deltas == old(timer.deltas)
      ensures ok ==>
                var c := Scaled(count, timerRes, timer.resolution);
                && t.mbx == mbx && timer.deltas == Insert(old(timer.deltas), c)
                && timer.nodes == Spliced(old(timer.nodes), Place(old(timer.deltas), c), t)
    {
      hide Timer.Valid, PostOffice.Valid, BufferPool.Valid;
      timer.Holders();
      ok := timer.StartTimer(t, mbx, count, timerRes);
      timer.Holders();
      office.Untouched();
      buff.Untouched();
    }

    /** KernelAPI::StartTimer: a header-sized buffer from the pool, with the code, is put into
        the timer list. With a count of zero the exception comes after the buffer was taken. */
    method StartTimer(code: uint16, count: uint32, timerRes: uint32, mbx: byte) returns (t: Buffer?, ok: bool)
      requires Valid() && mbx < |office.boxes|
      modifies timer, timer.head`next, timer.members`next, timer.members`count
      modifies buff`contents, buff.chains
      modifies buff.Free()`next, buff.Free()`holder, buff.Free()`count, buff.Free()`mbx, buff.Free()`msgCode
      ensures Valid() && office.contents == old(office.contents) && office.sem == old(office.sem)
      ensures |old(buff.contents)| == |buff.lengths|
      ensures t == null <==> old(buff.Exhausted(MSG_HEADER_LENGTH))
      ensures ok <==> t != null && count != 0
      ensures t == null ==> buff.contents == old(buff.contents)
      ensures t != null ==>
                && t in buff.owned && t.msgCode == code && old(t.holder) in buff.chains
                && t.code < |old(buff.contents)| && old(buff.contents)[t.code] != []
                && buff.contents == old(buff.contents)[t.code := old(buff.contents)[t.code][1..]]
      ensures !ok ==> timer.nodes == old(timer.nodes) && timer.deltas == old(timer.deltas)
      ensures ok ==>
                var c := Scaled(count, timerRes, timer.resolution);
                && t.mbx == mbx && timer.deltas == Insert(old(timer.deltas), c)
                && timer.nodes == Spliced(old(timer.nodes), Place(old(timer.deltas), c), t)
      ensures OnlyMoved(t, if ok then timer else null)
    {
      hide Timer.Valid, PostOffice.Valid, BufferPool.Valid;
      ok := false;
      t := GetBuffer(MSG_HEADER_LENGTH);
      if t != null {
        SetCode(t, code);
        ok := AddTimer(t, mbx, count, timerRes);
      }
    }

    /** A code written into a message, by its owner or by StopTimer. */
    method SetCode(b: Buffer, code: uint16)
      requires Valid() && b in buff.owned
      modifies b`msgCode
      ensures Valid() && b.msgCode == code
    {
      hide Timer.Valid, PostOffice.Valid, BufferPool.Valid;
      timer.HeadApart();
      b.msgCode := code;
      timer.Untouched();
      office.Untouched();
      buff.Untouched();
    }

    /** CTimer::StopTimer: only the code changes; the message stays where it is. */
    method StopTimer(b: Buffer)
      requires Valid() && b in buff.owned
      modifies b`msgCode
      ensures Valid() && b.msgCode == DISCARDED
    {
      SetCode(b, DISCARDED);
    }

    /** CTimer::RestartTimer: the copy is in the timer list, the old message cancelled. */
    method RestartTimer(b: Buffer, length: uint16, count: uint32, timerRes: uint32) returns (tmp: Buffer?)
      requires Valid() && b in buff.owned && b.holder !in buff.chains && b.mbx < |office.boxes|
      requires MSG_HEADER_LENGTH + length <= b.data.Length
      modifies timer, timer.head`next, timer.Freeable()`next, timer.Freeable()`count
      modifies buff.Free()`holder, buff.Free()`msgCode, buff.Free()`mbx
      modifies buff`contents, buff.chains, b`msgCode, set x <- buff.owned :: x.data
      ensures Valid() && office.contents == old(office.contents) && office.sem == old(office.sem)
      ensures |old(buff.contents)| == |buff.lengths|
      ensures tmp == null <==> count == 0 || old(b.msgCode) == DISCARDED
                               || old(buff.Exhausted(MSG_HEADER_LENGTH + length))
      ensures tmp == null ==>
                && timer.nodes == old(timer.nodes) && b.msgCode == old(b.msgCode) && buff.contents == old(buff.contents)
      ensures tmp != null ==>
                var c := Scaled(count, timerRes, timer.resolution);
                && tmp in buff.owned && old(tmp.holder) in buff.chains && tmp != b && b.msgCode == DISCARDED
                && tmp.msgCode == old(b.msgCode) && tmp.mbx == old(b.mbx)
                && MSG_HEADER_LENGTH + length <= tmp.data.Length
                && tmp.data[..MSG_HEADER_LENGTH + length] == old(b.data[..MSG_HEADER_LENGTH + length])
                && timer.deltas == Insert(old(timer.deltas), c)
                && timer.nodes == Spliced(old(timer.nodes), Place(old(timer.deltas), c), tmp)
                && tmp.code < |old(buff.contents)| && old(buff.contents)[tmp.code] != []
                && buff.contents == old(buff.contents)[tmp.code := old(buff.contents)[tmp.code][1..]]
      ensures OnlyMoved(tmp, timer)
    {
      hide Timer.Valid, PostOffice.Valid, BufferPool.Valid;
      timer.Holders();
      tmp := timer.RestartTimer(b, length, count, timerRes);
      timer.Holders();
      assert forall x :: x in timer.members ==> x == tmp || x in old(timer.members);
      office.Untouched();
    }

    /** One tick: the expired timers, and no others, move to the tails of their mailboxes. */
    method Tick()
      requires Valid()
      modifies timer, timer.head`next, timer.Front()`count
      modifies office, office.lists, timer.Movable(office)`next, timer.Movable(office)`holder
      ensures Valid() && timer.OnlyPosted(office) && buff.contents == old(buff.contents)
      ensures FrontPositive(old(timer.deltas)) ==>
                var d := Decrement(old(timer.deltas));
                Drained(d, old(timer.nodes), old(timer.Addresses(timer.nodes)), Zeros(d), timer.deltas, timer.nodes,
                        old(office.contents), old(office.sem), office.contents, office.sem)
      ensures FrontPositive(old(timer.deltas)) ==>
                forall i :: 0 <= i < Zeros(Decrement(old(timer.deltas))) && i < |old(timer.nodes)| ==>
                  old(timer.nodes)[i].holder in office.lists
      ensures !FrontPositive(old(timer.deltas)) ==>
                && timer.deltas == old(timer.deltas)[0 := UINT32_MAX] && timer.nodes == old(timer.nodes)
                && office.contents == old(office.contents) && office.sem == old(office.sem)
    {
      hide Timer.Valid, PostOffice.Valid, BufferPool.Valid, Drained;
      office.BoxLists();
      ghost var ds, ns, boxes, sem, mail := timer.deltas, timer.nodes, office.contents, office.sem, timer.Addresses(timer.nodes);
      timer.TimerIntHandler(office);
      buff.Untouched();
      if FrontPositive(ds) {
        ExpiredAreQueued(Decrement(ds), ns, mail, Zeros(Decrement(ds)), boxes, sem);
      }
    }

    /** The expired timers are held by the mailboxes they named. */
    lemma ExpiredAreQueued(ds: seq<nat>, ns: seq<Buffer>, mail: seq<(nat, Buffer)>, k: nat,
                           boxes: seq<seq<Buffer>>, sem: seq<nat>)
      requires Valid()
      requires Drained(ds, ns, mail, k, timer.deltas, timer.nodes, boxes, sem, office.contents, office.sem)
      ensures k <= |ns| == |mail| && forall i :: 0 <= i < k ==> ns[i].holder == Holder(Box(mail[i].0)) && ns[i].holder in office.lists
    {
      forall i | 0 <= i < k
        ensures ns[i].holder == Holder(Box(mail[i].0)) && ns[i].holder in office.lists
      {
        PostedHolds(boxes, mail[..k], i);
        assert mail[..k][i] == mail[i];
        HeldAt(Box(mail[i].0), ns[i]);
      }
    }

    /** TPostOffice::PurgeMailBox, TPostOffice::Purge and CTimer::Purge. */
    method PurgeMailBox(m: byte) returns (ok: bool)
      requires Valid()
      modifies office`contents, office.BoxAt(m)
      modifies buff`contents, buff.chains, office.MovableAt(m)`next, office.MovableAt(m)`holder
      ensures Valid() && timer.nodes == old(timer.nodes) && timer.deltas == old(timer.deltas) && office.OnlyFreed()
      ensures ok == (m < |office.boxes|) && |old(office.contents)| == |office.boxes|
      ensures !ok ==> office.contents == old(office.contents) && buff.contents == old(buff.contents)
      ensures ok ==>
                && office.contents == old(office.contents)[m := []]
                && Fit(old(buff.contents), old(office.contents)[m])
                && buff.contents == GivenBack(old(buff.contents), old(office.contents)[m], ClassesOf(old(office.contents)[m]))
    {
      hide Timer.Valid, MailBox.Valid, BufferPool.Valid;
      ok := office.PurgeMailBox(m);
      timer.Untouched();
    }

    method PurgeOffice()
      requires Valid()
      modifies office`contents, office.lists, buff`contents, buff.chains, office.Listed()`next, office.Listed()`holder
      ensures Valid() && timer.nodes == old(timer.nodes) && timer.deltas == old(timer.deltas) && office.OnlyFreed()
      ensures |office.contents| == |old(office.contents)|
      ensures forall i :: 0 <= i < |office.contents| ==> office.contents[i] == []
      ensures AllFit(old(buff.contents), old(office.contents))
      ensures buff.contents == AllGivenBack(old(buff.contents), old(office.contents))
    {
      hide Timer.Valid, MailBox.Valid, BufferPool.Valid;
      office.Purge();
      timer.Untouched();
    }

    method PurgeTimers()
      requires Valid()
      modifies timer, timer.head`next, buff`contents, buff.chains, timer.Freeable()`next, timer.Freeable()`holder
      ensures Valid() && timer.nodes == [] && office.contents == old(office.contents) && office.sem == old(office.sem)
      ensures Fit(old(buff.contents), old(timer.nodes))
      ensures buff.contents == GivenBack(old(buff.contents), old(timer.nodes), ClassesOf(old(timer.nodes)))
    {
      hide Timer.Valid, PostOffice.Valid, BufferPool.Valid;
      timer.Purge();
      office.Untouched();
      timer.NoneLeft();
    }
  }
}
