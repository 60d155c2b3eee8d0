/** A message buffer with its hidden header, and the singly linked queue over the
    shared BUFF_NEXT field that both TMailBox and TBufferQue keep. */
module Buffers {
  import opened Words

  class Buffer {
    const code: byte            // BUFF_CODE: the size class the buffer belongs to
    const data: array<byte>     // the message block
    var next: Buffer?           // BUFF_NEXT: one link, shared by every list
    var msgCode: uint16         // the header word MSG_CODE
    var count: uint32           // the header word TIMER_COUNT
    var mbx: byte               // the header byte TIMER_MBX_ID
    ghost var holder: object?   // BUFF_TRACKING_DATA: the list the buffer is in, if any

    constructor (code: byte, length: nat)
      ensures this.code == code && data.Length == length && fresh(data)
      ensures next == null && holder == null
    {
      this.code := code;
      this.data := new byte[length];
      this.next := null;
      this.holder := null;
    }
  }

  /** The links lead from `first` through exactly `nodes`: acyclic and without repeats. */
  ghost predicate Linked(first: Buffer?, nodes: seq<Buffer>)
    reads nodes
  {
    && (forall i, j :: 0 <= i < j < |nodes| ==> nodes[i] != nodes[j])
    && first == (if nodes == [] then null else nodes[0])
    && (forall i :: 0 <= i < |nodes| - 1 ==> nodes[i].next == nodes[i + 1])
    && (nodes != [] ==> nodes[|nodes| - 1].next == null)
  }

  /** Without repeats, as many nodes as members are all of them. */
  lemma {:induction false} DistinctFill<T>(nodes: seq<T>, members: set<T>)
    requires forall i, j :: 0 <= i < j < |nodes| ==> nodes[i] != nodes[j]
    requires forall i :: 0 <= i < |nodes| ==> nodes[i] in members
    requires |nodes| == |members|
    ensures forall b :: b in members ==> b in nodes
  {
    if nodes != [] {
      var rest := nodes[1..];
      DistinctFill(rest, members - {nodes[0]});
      forall b | b in members
        ensures b in nodes
      {
        if b != nodes[0] {
          assert b in rest;
        }
      }
    }
  }

  /** Head, Tail and Count of a queue of buffers. */
  class Chain {
    var head: Buffer?
    var tail: Buffer?
    var count: nat
    ghost var nodes: seq<Buffer>     // the queue, front first
    ghost var members: set<Buffer>   // the same buffers as a set

    ghost predicate Valid()
      reads this, members
    {
      && (forall i :: 0 <= i < |nodes| ==> nodes[i] in members)
      && (forall b {:trigger b in members} :: b in members ==> b.holder == this)
      && |nodes| == |members| == count
      && Linked(head, nodes)
      && tail == (if nodes == [] then null else nodes[|nodes| - 1])
    }

    /** Nothing else is a member. */
    lemma MembersAreNodes()
      requires Valid()
      ensures forall b {:trigger b in members} :: b in members ==> b in nodes
    {
      DistinctFill(nodes, members);
    }

    ghost function FirstNode(): set<Buffer>
      reads this
    {
      if nodes == [] then {} else {nodes[0]}
    }

    /** The one node whose link an append rewrites. */
    ghost function LastNode(): set<Buffer>
      reads this
    {
      if nodes == [] then {} else {nodes[|nodes| - 1]}
    }

    constructor ()
      ensures Valid() && nodes == [] && members == {}
    {
      head, tail, count := null, null, 0;
      nodes, members := [], {};
    }

    method GetFromHead() returns (info: Buffer?)
      requires Valid()
      modifies this, FirstNode()`holder
      ensures Valid()
      ensures info == null <==> old(nodes) == []
      ensures info == null ==> nodes == [] && members == old(members)
      ensures info != null ==>
                && info == old(nodes)[0] && nodes == old(nodes)[1..]
                && info in old(members) && members == old(members) - {info}
                && info.holder == null
    {
      if head == null {
        return null;
      }
      info := head;
      head := head.next;
      if head == null {
        tail := null;
      }
      count := count - 1;
      nodes, members := nodes[1..], members - {info};
      info.holder := null;
    }

    /** The buffer must not be in any list: the check BUFF_TRACKING_DATA exists for. */
    method PutOnTail(info: Buffer)
      requires Valid() && info.holder == null
      modifies this, info`next, info`holder, LastNode()`next
      ensures Valid()
      ensures nodes == old(nodes) + [info] && members == old(members) + {info}
    {
      info.next := null;
      if tail == null {
        head := info;
      } else {
        tail.next := info;
      }
      tail := info;
      count := count + 1;
      nodes, members := nodes + [info], members + {info};
      info.holder := this;
    }
  }
}
