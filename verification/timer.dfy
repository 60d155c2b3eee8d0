/** timer.cpp: the delta list of timers, threaded through the message buffers. */
module Timers {
  import opened Sequences
  import opened Words
  import opened Mail
  import opened Deltas
  import opened Buffers
  import opened BufferPools
  import opened MailBoxes

  const UINT32_MAX: uint32 := 0xFFFF_FFFF

  /** The length of a tick, in milliseconds. */
  type Resolution = x: nat | 0 < x < 0x1_0000_0000 witness 1

  /** The product of StartTimer, in the source's 32-bit arithmetic. */
  function Scaled(count: uint32, timerRes: uint32, resolution: Resolution): uint32
  {
    count * (timerRes / resolution) % 0x1_0000_0000
  }

  /** Without overflow the product is the wanted number of ticks, and it is positive, as the
      delta list needs, exactly when the timer's unit is not below the tick. */
  lemma ScaledPositiveIff(count: uint32, timerRes: uint32, resolution: Resolution)
    requires count >= 1 && count * (timerRes / resolution) < 0x1_0000_0000
    ensures Scaled(count, timerRes, resolution) == count * (timerRes / resolution)
    ensures Scaled(count, timerRes, resolution) >= 1 <==> timerRes >= resolution
  {
    hide Scaled;
    var f := timerRes / resolution;
    FactorPositiveIff(timerRes, resolution);
    TimesAtLeast(count, f);
    ScaledExact(count, f, timerRes, resolution);
  }

  /** With overflow it is the product less a multiple of 2^32. */
  lemma ScaledWraps(count: uint32, timerRes: uint32, resolution: Resolution)
    ensures var product, scaled := count * (timerRes / resolution), Scaled(count, timerRes, resolution);
            scaled <= product && (product - scaled) % 0x1_0000_0000 == 0
  {
    RemainderWraps(count * (timerRes / resolution));
  }

  lemma RemainderWraps(product: nat)
    ensures product % 0x1_0000_0000 <= product && (product - product % 0x1_0000_0000) % 0x1_0000_0000 == 0
  {
  }

  lemma FactorPositiveIff(a: nat, b: nat)
    requires b > 0
    ensures a / b >= 1 <==> a >= b
  {
  }

  lemma TimesAtLeast(c: nat, f: nat)
    requires c >= 1
    ensures c * f >= f && (f == 0 ==> c * f == 0)
  {
  }

  lemma ScaledExact(count: uint32, f: nat, timerRes: uint32, resolution: Resolution)
    requires f == timerRes / resolution && count * f < 0x1_0000_0000
    ensures Scaled(count, timerRes, resolution) == count * f
  {
  }

  /** The TIMER_COUNT words of a list of timers. */
  ghost predicate Counts(bs: seq<Buffer>, ds: seq<nat>)
    reads bs
  {
    |ds| == |bs| && forall i :: 0 <= i < |bs| ==> bs[i].count == ds[i]
  }

  lemma CountsSpliced(bs: seq<Buffer>, ds: seq<nat>, p: nat, b: Buffer)
    requires Counts(bs, ds) && p <= |bs|
    ensures Counts(Spliced(bs, p, b), Spliced(ds, p, b.count))
  {
  }

  class Timer {
    const head: Buffer               // DummyMessage: count 0, never removed
    const resolution: Resolution     // TimerResolution
    const buff: BufferPool           // Buffers
    ghost var nodes: seq<Buffer>     // the timers, soonest first
    ghost var deltas: seq<nat>       // their TIMER_COUNT words
    ghost var members: set<Buffer>

    /** A proper list that holds exactly the buffers which name it as their holder. */
    ghost predicate Valid()
      reads this, head, buff.owned
    {
      && head !in buff.owned && head.count == 0 && members <= buff.owned
      && (forall b {:trigger b in members} :: b in buff.owned ==> (b in members <==> b.holder == this))
      && |members| == |nodes|
      && (forall i :: 0 <= i < |nodes| ==> nodes[i] in members)
      && Counts(nodes, deltas)
      && Linked(head.next, nodes)
    }

    /** What keeps the timer list as it is. */
    twostate predicate Same()
      reads this, head, buff.owned
    {
      && nodes == old(nodes) && deltas == old(deltas) && members == old(members)
      && head.next == old(head.next) && head.count == old(head.count)
      && (forall b <- buff.owned :: old(b.holder) == this || b.holder == this ==>
                                      b.holder == old(b.holder) && b.next == old(b.next) && b.count == old(b.count))
    }

    twostate lemma Untouched()
      requires old(Valid()) && Same()
      ensures Valid()
    {
    }

    constructor (timerRes: Resolution, buffers: BufferPool)
      ensures Valid() && buff == buffers && nodes == [] && deltas == [] && resolution == timerRes && fresh(head)
    {
      head := new Buffer(0, MSG_HEADER_LENGTH + 5);
      resolution, buff := timerRes, buffers;
      nodes, deltas, members := [], [], {};
      new;
      head.count := 0;
    }

    /** Entry `p` is the one the walk stands on; the dummy counts as standing before 0. */
    ghost predicate At(current: Buffer, prev: Buffer?, p: nat)
      reads this
    {
      && (current == head ==> prev == null && p == 0)
      && (current != head ==>
            && p < |nodes| && current == nodes[p]
            && prev == (if p == 0 then head else nodes[p - 1]))
    }

    /** Where the walk goes next, and where it ends. */
    lemma Follow(current: Buffer, prev: Buffer?, p: nat)
      requires Valid() && At(current, prev, p)
      ensures var q := if current == head then 0 else p + 1;
              && (q < |nodes| ==> current.next == nodes[q])
              && (q == |nodes| <==> current.next == null)
    {
      if current != head && p + 1 < |nodes| {
        assert nodes[p].next == nodes[p + 1];
      }
    }

    /** The walking loop of CTimer::Add: it subtracts each entry it passes, and no
        subtraction goes below zero. */
    method Walk(timer: Buffer) returns (current: Buffer, prev: Buffer?, ghost p: nat)
      requires Valid() && timer.holder == null && timer in buff.owned
      modifies timer`count
      ensures Valid() && At(current, prev, p)
      ensures timer.count < current.count || current.next == null
      ensures Reached(deltas, old(timer.count), p, timer.count)
    {
      current, prev, p := head, null, 0;
      ghost var c: nat := timer.count;
      while timer.count >= current.count && current.next != null
        invariant Valid() && At(current, prev, p)
        invariant Reached(deltas, c, p, timer.count)
        decreases |nodes| - p, if current == head then 1 else 0
      {
        Follow(current, prev, p);
        if current != head {
          SumSnoc(deltas, p);
          p := p + 1;
        }
        timer.count := timer.count - current.count;
        prev := current;
        current := current.next;
      }
    }

    /** Rewire the two links around the new timer. */
    method LinkBefore(timer: Buffer, current: Buffer, prev: Buffer, ghost p: nat)
      requires Linked(head.next, nodes) && head !in nodes && timer !in nodes && timer != head
      requires At(current, prev, p) && current != head
      modifies prev`next, timer`next
      ensures Linked(head.next, Spliced(nodes, p, timer))
    {
      timer.next := current;
      prev.next := timer;
    }

    method Lower(current: Buffer, amount: uint32, ghost p: nat)
      requires Valid() && p < |nodes| && current == nodes[p] && amount <= current.count
      modifies current`count, `deltas
      ensures Valid() && deltas == old(deltas)[p := old(deltas)[p] - amount]
    {
      current.count := current.count - amount;
      deltas := deltas[p := current.count];
    }

    method LinkIn(timer: Buffer, current: Buffer, prev: Buffer, ghost p: nat)
      requires Valid() && timer.holder == null && timer in buff.owned
      requires At(current, prev, p) && current != head
      modifies this, prev`next, timer`next, timer`holder
      ensures Valid() && members == old(members) + {timer}
      ensures nodes == Spliced(old(nodes), p, timer)
      ensures deltas == Spliced(old(deltas), p, timer.count)
    {
      hide Linked;
      timer.holder := this;
      LinkBefore(timer, current, prev, p);
      CountsSpliced(nodes, deltas, p, timer);
      nodes, deltas := Spliced(nodes, p, timer), Spliced(deltas, p, timer.count);
      members := members + {timer};
    }

    /** Queue `timer` in front of entry `p`, which from now on counts from the timer. */
    method QueueBefore(timer: Buffer, current: Buffer, prev: Buffer, ghost p: nat, ghost c: nat)
      requires Valid() && timer.holder == null && timer in buff.owned
      requires At(current, prev, p) && current != head
      requires timer.count < current.count && Reached(deltas, c, p, timer.count)
      modifies this, prev`next, timer`next, timer`holder, current`count
      ensures Valid() && members == old(members) + {timer}
      ensures nodes == Spliced(old(nodes), Place(old(deltas), c), timer)
      ensures deltas == Insert(old(deltas), c)
    {
      WalkStopsBefore(deltas, c, p, timer.count);
      Lower(current, timer.count, p);
      LinkIn(timer, current, prev, p);
    }

    /** Queue `timer` behind the last entry, or behind the dummy of an empty list. */
    method QueueLast(timer: Buffer, current: Buffer, ghost c: nat)
      requires Valid() && timer.holder == null && timer in buff.owned
      requires current == if nodes == [] then head else nodes[|nodes| - 1]
      requires timer.count >= current.count
      requires Reached(deltas, c, |deltas|, timer.count - current.count)
      modifies this, current`next, timer`next, timer`holder, timer`count
      ensures Valid() && members == old(members) + {timer}
      ensures nodes == Spliced(old(nodes), Place(old(deltas), c), timer)
      ensures deltas == Insert(old(deltas), c)
    {
      WalkEnds(deltas, c, timer.count - current.count);
      timer.count := timer.count - current.count;
      LinkLast(timer, current);
      SplicedLast(old(nodes), timer);
    }

    method LinkLast(timer: Buffer, current: Buffer)
      requires Valid() && timer.holder == null && timer in buff.owned
      requires current == if nodes == [] then head else nodes[|nodes| - 1]
      modifies this, current`next, timer`next, timer`holder
      ensures Valid() && members == old(members) + {timer}
      ensures nodes == old(nodes) + [timer] && deltas == old(deltas) + [timer.count]
    {
      timer.next := null;
      current.next := timer;
      timer.holder := this;
      nodes, deltas, members := nodes + [timer], deltas + [timer.count], members + {timer};
    }

    /** CTimer::Add: the deltas become those of Insert, with the new timer at its Place. */
    method Add(timer: Buffer)
      requires Valid() && timer.holder == null && timer in buff.owned
      modifies this, head`next, members`next, members`count, timer`next, timer`holder, timer`count
      ensures Valid() && members == old(members) + {timer}
      ensures deltas == Insert(old(deltas), old(timer.count))
      ensures nodes == Spliced(old(nodes), Place(old(deltas), old(timer.count)), timer)
    {
      ghost var c: nat := timer.count;
      var current, prev, p := Walk(timer);
      if timer.count < current.count {
        QueueBefore(timer, current, prev, p, c);
      } else {
        Follow(current, prev, p);
        if current != head {
          SumSnoc(deltas, p);
        }
        QueueLast(timer, current, c);
      }
    }

    ghost function Front(): set<Buffer>
      reads this
    {
      if nodes == [] then {} else {nodes[0]}
    }

    /** Take the front timer off the list. */
    method Unlink() returns (tmp: Buffer)
      requires Valid() && nodes != []
      modifies this, head`next, Front()`holder
      ensures Valid() && members == old(members) - {tmp}
      ensures tmp == old(nodes)[0] && tmp.holder == null
      ensures nodes == old(nodes)[1..] && deltas == old(deltas)[1..]
    {
      tmp := head.next;
      head.next := tmp.next;
      tmp.holder := null;
      nodes, deltas, members := nodes[1..], deltas[1..], members - {tmp};
    }

    /** The decrement of TimerIntHandler, in 32-bit arithmetic. */
    method CountDown()
      requires Valid() && nodes != []
      modifies `deltas, Front()`count
      ensures Valid()
      ensures deltas == old(deltas)[0 := if old(deltas)[0] == 0 then UINT32_MAX else old(deltas)[0] - 1]
    {
      var tmp := head.next;
      tmp.count := if tmp.count == 0 then UINT32_MAX else tmp.count - 1;
      deltas := deltas[0 := tmp.count];
    }

    /** What the interrupt handler relies on: every timer names an existing mailbox. */
    ghost predicate Deliverable(office: PostOffice)
      reads this, head, office, office.lists, buff.owned, office.buff.owned
    {
      && office.buff == buff && Valid() && office.Valid()
      && forall b {:trigger b in members} :: b in members ==> b.mbx < |office.boxes|
    }

    /** A holder changes only by being posted to the mailbox that the timer names. */
    twostate predicate OnlyPosted(office: PostOffice)
      reads buff.owned
    {
      forall b <- buff.owned :: b.holder == old(b.holder)
        || (old(b.holder) == this && b.mbx < |office.boxes| && b.holder == office.boxes[b.mbx].list)
    }

    /** The buffers in this list or in a mailbox. */
    ghost function Movable(office: PostOffice): set<Buffer>
      reads buff.owned
    {
      set b <- buff.owned | b.holder == this || b.holder in office.lists
    }

    /** One turn of the drain loop: the front timer goes to its mailbox. */
    method PostFront(office: PostOffice)
      requires Deliverable(office) && nodes != []
      modifies this, head`next, office, office.lists, Movable(office)`next, Movable(office)`holder
      ensures Deliverable(office) && OnlyPosted(office)
      ensures nodes == old(nodes)[1..] && deltas == old(deltas)[1..]
      ensures old(nodes)[0].mbx < |old(office.contents)| == |old(office.sem)|
      ensures office.contents == Appended(old(office.contents), old(nodes)[0].mbx, old(nodes)[0])
      ensures office.sem == Raised(old(office.sem), old(nodes)[0].mbx)
    {
      hide Valid, PostOffice.Valid;
      var tmp := TakeFront(office);
      PostTaken(office, tmp);
    }

    method TakeFront(office: PostOffice) returns (tmp: Buffer)
      requires Deliverable(office) && nodes != []
      modifies this, head`next, Movable(office)`holder
      ensures Deliverable(office) && tmp in buff.owned && tmp.mbx < |office.boxes| && tmp == old(nodes)[0]
      ensures |office.contents| == |office.sem| == |office.boxes|
      ensures nodes == old(nodes)[1..] && deltas == old(deltas)[1..]
      ensures old(tmp.holder) == this && tmp.holder == null
      ensures forall b <- buff.owned :: b != tmp ==> b.holder == old(b.holder)
    {
      tmp := Unlink();
      office.Untouched();
    }

    method PostTaken(office: PostOffice, tmp: Buffer)
      requires Deliverable(office) && tmp in buff.owned && tmp.holder == null && tmp.mbx < |office.boxes|
      modifies office, office.lists, tmp`next, tmp`holder, office.Queued()`next
      ensures Deliverable(office) && |old(office.contents)| == |old(office.sem)| == |office.boxes|
      ensures office.contents == Appended(old(office.contents), tmp.mbx, tmp)
      ensures office.sem == Raised(old(office.sem), tmp.mbx)
      ensures forall b <- buff.owned :: b.holder == if b == tmp then office.boxes[tmp.mbx].list else old(b.holder)
    {
      var ok := office.Add(tmp.mbx, tmp);
      Untouched();
    }

    /** The timers with the mailbox each will be posted to. */
    ghost function Addresses(bs: seq<Buffer>): (r: seq<(nat, Buffer)>)
      reads bs
      ensures |r| == |bs|
      ensures forall i :: 0 <= i < |r| ==> r[i] == (bs[i].mbx, bs[i])
    {
      if bs == [] then [] else [(bs[0].mbx as nat, bs[0])] + Addresses(bs[1..])
    }

    ghost predicate Mailing(mail: seq<(nat, Buffer)>)
      reads this, nodes
    {
      |mail| == |nodes| && forall i :: 0 <= i < |nodes| ==> mail[i] == (nodes[i].mbx, nodes[i])
    }

    /** The drain loop of TimerIntHandler: the leading timers whose count is zero are
        posted, in list order. */
    method Drain(office: PostOffice, ghost mail: seq<(nat, Buffer)>) returns (ghost k: nat)
      requires Deliverable(office) && Mailing(mail)
      modifies this, head`next, office, office.lists, Movable(office)`next, Movable(office)`holder
      ensures Deliverable(office) && OnlyPosted(office)
      ensures k == Zeros(old(deltas))
      ensures Drained(old(deltas), old(nodes), mail, k, deltas, nodes,
                      old(office.contents), old(office.sem), office.contents, office.sem)
    {
      hide Valid, PostOffice.Valid, Drained;
      k := 0;
      DrainReady(office, mail);
      ghost var ds, ns, boxes, sem := deltas, nodes, office.contents, office.sem;
      while !Done()
        invariant Deliverable(office) && OnlyPosted(office)
        invariant forall i :: 0 <= i < |ns| ==> mail[i] == (ns[i].mbx, ns[i])
        invariant Drained(ds, ns, mail, k, deltas, nodes, boxes, sem, office.contents, office.sem)
        decreases |ns| - k
      {
        DrainOne(ds, ns, mail, k, deltas, nodes, boxes, sem, office.contents, office.sem);
        PostFront(office);
        k := k + 1;
      }
      DrainEnds(ds, ns, mail, k, deltas, nodes, boxes, sem, office.contents, office.sem);
    }

    lemma DrainReady(office: PostOffice, mail: seq<(nat, Buffer)>)
      requires Deliverable(office) && Mailing(mail)
      ensures Drained(deltas, nodes, mail, 0, deltas, nodes, office.contents, office.sem, office.contents, office.sem)
    {
      DrainStarts(deltas, nodes, mail, office.contents, office.sem);
    }

    /** The list is empty or its front count positive. */
    predicate Done()
      requires Valid()
      reads this, head, buff.owned
      ensures Done() <==> deltas == [] || deltas[0] != 0
    {
      head.next == null || head.next.count != 0
    }

    /** TimerIntHandler. Between ticks the front entry is positive, and then one call is
        exactly Deltas.Tick: the expired timers are posted, in list order, each to its own
        mailbox. A zero entry in front wraps round and nothing is posted. */
    method TimerIntHandler(office: PostOffice)
      requires Deliverable(office)
      modifies this, head`next, Front()`count
      modifies office, office.lists, Movable(office)`next, Movable(office)`holder
      ensures Deliverable(office) && OnlyPosted(office)
      ensures FrontPositive(old(deltas)) ==>
                var d := Decrement(old(deltas));
                Drained(d, old(nodes), old(Addresses(nodes)), Zeros(d), deltas, nodes,
                        old(office.contents), old(office.sem), office.contents, office.sem)
      ensures !FrontPositive(old(deltas)) ==>
                && deltas == old(deltas)[0 := UINT32_MAX] && nodes == old(nodes)
                && office.contents == old(office.contents) && office.sem == old(office.sem)
    {
      hide Valid, PostOffice.Valid, Drained, Counts;
      ghost var mail := Addresses(nodes);
      Fronts();
      if head.next == null {
        DrainReady(office, mail);
      } else {
        CountDownFor(office);
        ghost var k := Drain(office, mail);
        if !FrontPositive(old(deltas)) {
          DrainedNone(deltas, nodes, mail, old(deltas)[0 := UINT32_MAX], old(nodes), office.contents, office.sem,
                      old(office.contents), old(office.sem));
        }
      }
    }

    lemma Fronts()
      requires Valid()
      ensures head.next == null <==> nodes == []
      ensures |nodes| == |deltas|
    {
    }

    lemma Holders()
      requires Valid()
      ensures members <= buff.owned
      ensures forall b {:trigger b in members} :: b in buff.owned ==> (b in members <==> b.holder == this)
    {
    }

    lemma NoneLeft()
      requires Valid() && nodes == []
      ensures members == {}
    {
    }

    /** The decrement, seen from the post office. */
    method CountDownFor(office: PostOffice)
      requires Deliverable(office) && nodes != [] && |deltas| == |nodes|
      modifies `deltas, Front()`count
      ensures Deliverable(office) && |deltas| == |old(deltas)|
      ensures deltas == old(deltas)[0 := if old(deltas)[0] == 0 then UINT32_MAX else old(deltas)[0] - 1]
    {
      CountDown();
      office.Untouched();
    }

    /** The buffers in this list or in a free queue. */
    ghost function Freeable(): set<Buffer>
      reads buff.owned
    {
      set b <- buff.owned | b.holder == this || b.holder in buff.chains
    }

    /** CTimer::Purge: every timer goes back to the pool, in list order. */
    method Purge()
      requires Pooled()
      modifies this, head`next, buff`contents, buff.chains, Freeable()`next, Freeable()`holder
      ensures Pooled() && nodes == [] && Freeable() <= old(Freeable())
      ensures forall b <- buff.owned :: b.holder == old(b.holder) || b.holder in buff.chains
      ensures Fit(old(buff.contents), old(nodes))
      ensures buff.contents == GivenBack(old(buff.contents), old(nodes), ClassesOf(old(nodes)))
    {
      hide Valid, BufferPool.Valid, Purged;
      ghost var was, free, k := nodes, buff.contents, 0;
      ghost var classes := ClassesOf(was);
      Classed();
      PurgeStarts(was, classes, free);
      Fronts();
      while head.next != null
        invariant Pooled() && Freeable() <= old(Freeable())
        invariant forall b <- buff.owned :: b.holder == old(b.holder) || b.holder in buff.chains
        invariant (head.next == null <==> nodes == []) && |nodes| == |was| - k
        invariant k <= |was| && Purged(was, classes, k, nodes, free, buff.contents)
        decreases |was| - k
      {
        PurgedOne(was, classes, k, nodes, free, buff.contents);
        PurgeFront();
        k := k + 1;
        Fronts();
      }
      PurgeEnds(was, classes, k, nodes, free, buff.contents);
    }

    lemma Classed()
      requires Pooled()
      ensures Fit(buff.contents, nodes)
      ensures forall i :: 0 <= i < |nodes| ==> ClassesOf(nodes)[i] < |buff.contents|
    {
    }

    method PurgeFront()
      requires Pooled() && nodes != []
      modifies this, head`next, buff`contents, buff.chains, Freeable()`next, Freeable()`holder
      ensures Pooled() && nodes == old(nodes)[1..] && Freeable() <= old(Freeable())
      ensures forall b <- buff.owned :: b.holder == old(b.holder) || b.holder in buff.chains
      ensures old(nodes)[0].code < |old(buff.contents)|
      ensures buff.contents == Appended(old(buff.contents), old(nodes)[0].code, old(nodes)[0])
    {
      hide Valid, BufferPool.Valid;
      FrontClassed();
      var tmp := UnlinkPooled();
      GiveBack(tmp);
    }

    lemma FrontClassed()
      requires Pooled() && nodes != []
      ensures nodes[0].code < |buff.contents|
    {
    }

    method UnlinkPooled() returns (tmp: Buffer)
      requires Pooled() && nodes != []
      modifies this, head`next, Freeable()`holder
      ensures Pooled() && tmp in buff.owned && tmp == old(nodes)[0] && nodes == old(nodes)[1..]
      ensures old(tmp.holder) == this && tmp.holder == null
      ensures forall b <- buff.owned :: b != tmp ==> b.holder == old(b.holder)
    {
      hide BufferPool.Valid, Linked;
      tmp := Unlink();
      buff.Untouched();
    }

    method GiveBack(tmp: Buffer)
      requires Pooled() && tmp in buff.owned && tmp.holder == null
      modifies buff`contents, buff.chains, tmp`next, tmp`holder, buff.Free()`next
      ensures Pooled() && tmp.code < |old(buff.contents)| && tmp.holder in buff.chains
      ensures buff.contents == Appended(old(buff.contents), tmp.code, tmp)
      ensures forall b <- buff.owned :: b != tmp ==> b.holder == old(b.holder)
    {
      buff.RetBuffer(tmp);
      Untouched();
    }

    /** Timers and free buffers come from the same pool. */
    ghost predicate Pooled()
      reads this, head, buff, buff.owned, buff.chains
    {
      Valid() && buff.Valid()
    }

    /** CTimer::StartTimer: false stands for the exception on a count of zero. */
    method StartTimer(timer: Buffer, mailBoxId: byte, count: uint32, timerRes: uint32) returns (ok: bool)
      requires Valid() && timer.holder == null && timer in buff.owned
      modifies this, head`next, members`next, members`count
      modifies timer`next, timer`holder, timer`count, timer`mbx
      ensures Valid() && ok == (count != 0)
      ensures !ok ==> nodes == old(nodes) && deltas == old(deltas)
                      && timer.count == old(timer.count) && timer.mbx == old(timer.mbx)
                      && members == old(members) && timer.holder == null
      ensures ok ==>
                var c := Scaled(count, timerRes, resolution);
                && timer.mbx == mailBoxId && members == old(members) + {timer}
                && deltas == Insert(old(deltas), c)
                && nodes == Spliced(old(nodes), Place(old(deltas), c), timer)
    {
      if count == 0 {
        return false;
      }
      timer.count := Scaled(count, timerRes, resolution);
      timer.mbx := mailBoxId;
      Add(timer);
      return true;
    }

    /** CTimer::StopTimer only marks the message; the timer stays in the list. */
    method StopTimer(timer: Buffer)
      requires Valid()
      modifies timer`msgCode
      ensures Valid() && timer.msgCode == DISCARDED
      ensures old(buff.Valid()) ==> buff.Valid()
    {
      hide Valid, BufferPool.Valid;
      timer.msgCode := DISCARDED;
      Untouched();
      if old(buff.Valid()) {
        buff.Untouched();
      }
    }

    /** CTimer::TimerRunning. */
    method TimerRunning(timer: Buffer) returns (running: bool)
      ensures running <==> timer.msgCode != DISCARDED
    {
      running := timer.msgCode != DISCARDED;
    }

    /** GetBuffer, seen from the timer list: null stands for its exception. */
    method TakeBuffer(n: uint32) returns (tmp: Buffer?)
      requires Pooled()
      modifies buff`contents, buff.chains, buff.Free()`holder
      ensures Pooled() && |old(buff.contents)| == |buff.lengths|
      ensures tmp == null <==> old(buff.Exhausted(n))
      ensures tmp == null ==> buff.contents == old(buff.contents)
      ensures tmp != null ==>
                && tmp in buff.owned && tmp.data.Length >= n && tmp.code < |old(buff.contents)|
                && old(buff.contents)[tmp.code] != [] && old(tmp.holder) in buff.chains
                && buff.contents == old(buff.contents)[tmp.code := old(buff.contents)[tmp.code][1..]]
      ensures forall b <- buff.owned :: b.holder == if b == tmp then null else old(b.holder)
    {
      tmp := buff.GetBuffer(n);
      Untouched();
    }

    /** The memcpy of RestartTimer, header words and `length` parameter bytes, and the new
        count over it. */
    method CopyMessage(tmp: Buffer, timer: Buffer, length: uint16, c: uint32)
      requires Pooled() && tmp in buff.owned && tmp.holder == null
      requires tmp != timer && tmp.data != timer.data
      requires MSG_HEADER_LENGTH + length <= timer.data.Length
      requires MSG_HEADER_LENGTH + length <= tmp.data.Length
      modifies tmp`msgCode, tmp`mbx, tmp`count, tmp.data
      ensures Pooled() && tmp.msgCode == timer.msgCode && tmp.mbx == timer.mbx && tmp.count == c
      ensures tmp.data[..MSG_HEADER_LENGTH + length] == timer.data[..MSG_HEADER_LENGTH + length]
    {
      hide Valid, BufferPool.Valid;
      HeadApart();
      tmp.msgCode, tmp.mbx, tmp.count := timer.msgCode, timer.mbx, c;
      forall i | 0 <= i < MSG_HEADER_LENGTH + length {
        tmp.data[i] := timer.data[i];
      }
      Untouched();
      buff.Untouched();
    }

    lemma HeadApart()
      requires Valid()
      ensures head !in buff.owned
    {
    }

    /** Add, seen from the pool. */
    method AddPooled(timer: Buffer)
      requires Pooled() && timer in buff.owned && timer.holder == null
      modifies this, head`next, Freeable()`next, Freeable()`count, timer`next, timer`holder, timer`count
      ensures Pooled()
      ensures deltas == Insert(old(deltas), old(timer.count))
      ensures nodes == Spliced(old(nodes), Place(old(deltas), old(timer.count)), timer)
      ensures forall b <- buff.owned :: b.holder == if b == timer then this else old(b.holder)
    {
      Add(timer);
      buff.Untouched();
    }

    /** CTimer::RestartTimer: null stands for its exceptions. On success the old message is
        cancelled wherever it is, and only the copy is live. */
    method RestartTimer(timer: Buffer, length: uint16, count: uint32, timerRes: uint32)
      returns (tmp: Buffer?)
      requires Pooled() && Separate(buff.owned)
      requires timer in buff.owned && timer.holder !in buff.chains
      requires MSG_HEADER_LENGTH + length <= timer.data.Length
      modifies this, head`next, Freeable()`next, Freeable()`count, buff.Free()`holder, buff.Free()`msgCode, buff.Free()`mbx
      modifies buff`contents, buff.chains, timer`msgCode, set b <- buff.owned :: b.data
      ensures Pooled() && |old(buff.contents)| == |buff.lengths|
      ensures tmp == null <==> count == 0 || old(timer.msgCode) == DISCARDED
                               || old(buff.Exhausted(MSG_HEADER_LENGTH + length))
      ensures tmp == null ==> nodes == old(nodes) && timer.msgCode == old(timer.msgCode) && buff.contents == old(buff.contents)
      ensures tmp != null ==>
                var c := Scaled(count, timerRes, resolution);
                && tmp in buff.owned && old(tmp.holder) in buff.chains && tmp != timer
                && timer.msgCode == DISCARDED
                && tmp.msgCode == old(timer.msgCode) && tmp.mbx == old(timer.mbx)
                && MSG_HEADER_LENGTH + length <= tmp.data.Length
                && tmp.data[..MSG_HEADER_LENGTH + length] == old(timer.data[..MSG_HEADER_LENGTH + length])
                && deltas == Insert(old(deltas), c)
                && nodes == Spliced(old(nodes), Place(old(deltas), c), tmp)
                && tmp.code < |old(buff.contents)| && old(buff.contents)[tmp.code] != []
                && buff.contents == old(buff.contents)[tmp.code := old(buff.contents)[tmp.code][1..]]
      ensures forall b <- buff.owned :: b.holder == if b == tmp then this else old(b.holder)
    {
      hide Timer.Valid, BufferPool.Valid;
      if count == 0 || timer.msgCode == DISCARDED {
        Sizes();
        return null;
      }
      tmp := TakeBuffer(MSG_HEADER_LENGTH + length);
      if tmp == null {
        return;
      }
      CopyMessage(tmp, timer, length, Scaled(count, timerRes, resolution));
      AddPooled(tmp);
      StopTimer(timer);
    }

    lemma Sizes()
      requires Pooled()
      ensures |buff.contents| == |buff.lengths|
    {
    }
  }
}
