/** buffers.cpp and buffersQueue.cpp: a pool of buffers in size classes. */
module BufferPools {
  import opened Words
  import opened Buffers
  import opened Mail

  // ---------- the constructor's sort ----------

  function Zip(lengths: seq<uint32>, counts: seq<uint32>): seq<(uint32, uint32)>
    requires |lengths| == |counts|
  {
    seq(|lengths|, i requires 0 <= i < |lengths| => (lengths[i], counts[i]))
  }

  predicate Ascending(s: seq<uint32>) {
    forall i, j :: 0 <= i < j < |s| ==> s[i] <= s[j]
  }

  predicate SamePairs(lengths: seq<uint32>, counts: seq<uint32>, lengths': seq<uint32>, counts': seq<uint32>) {
    && |lengths| == |counts| == |lengths'| == |counts'|
    && multiset(Zip(lengths, counts)) == multiset(Zip(lengths', counts'))
  }

  method Exchange(lengths: array<uint32>, counts: array<uint32>, i: nat, j: nat)
    requires lengths != counts && lengths.Length == counts.Length && i < j < lengths.Length
    modifies lengths, counts
    ensures lengths[..] == old(lengths[..][i := lengths[j]][j := lengths[i]])
    ensures SamePairs(lengths[..], counts[..], old(lengths[..]), old(counts[..]))
  {
    var tmp := lengths[i];
    lengths[i] := lengths[j];
    lengths[j] := tmp;
    tmp := counts[i];
    counts[i] := counts[j];
    counts[j] := tmp;
    ghost var was := old(Zip(lengths[..], counts[..]));
    assert Zip(lengths[..], counts[..]) == was[i := was[j]][j := was[i]];
  }

  /** Everything before `i` is in place. */
  predicate SortedBefore(s: seq<uint32>, i: nat) {
    forall p, q :: 0 <= p < q < |s| && p < i ==> s[p] <= s[q]
  }

  /** TBuffers::TBuffers, lines 46-57: sort the lengths, carrying each count along. */
  method ExchangeSort(lengths: array<uint32>, counts: array<uint32>)
    requires lengths != counts && lengths.Length == counts.Length > 0
    modifies lengths, counts
    ensures Ascending(lengths[..])
    ensures SamePairs(lengths[..], counts[..], old(lengths[..]), old(counts[..]))
  {
    var i := 0;
    while i < lengths.Length - 1
      invariant 0 <= i <= lengths.Length - 1
      invariant SortedBefore(lengths[..], i)
      invariant SamePairs(lengths[..], counts[..], old(lengths[..]), old(counts[..]))
    {
      var j := i + 1;
      while j < lengths.Length
        invariant i < j <= lengths.Length
        invariant SortedBefore(lengths[..], i)
        invariant forall q :: i < q < j ==> lengths[i] <= lengths[q]
        invariant SamePairs(lengths[..], counts[..], old(lengths[..]), old(counts[..]))
      {
        if lengths[i] > lengths[j] {
          Exchange(lengths, counts, i, j);
        }
        j := j + 1;
      }
      i := i + 1;
    }
  }

  // ---------- the pool ----------

  /** No two buffers share their block. */
  ghost predicate Separate(bs: set<Buffer>) {
    forall a, b :: a in bs && b in bs && a.data == b.data ==> a == b
  }

  lemma SeparateUnion(a: set<Buffer>, b: set<Buffer>)
    requires Separate(a) && Separate(b)
    requires forall x, y :: x in a && y in b ==> x.data != y.data
    ensures Separate(a + b)
  {
  }

  /** The sets of buffers carved per class: `all` of them, each in the set of its class. */
  ghost predicate Racked(racks: seq<set<Buffer>>, all: set<Buffer>, sizes: seq<uint32>) {
    && |racks| <= |sizes| && Separate(all)
    && (forall k, b :: 0 <= k < |racks| && b in racks[k] ==> b in all && b.code == k)
    && (forall b <- all :: b.code < |racks| && b.data.Length == sizes[b.code] && b in racks[b.code])
  }

  lemma RackNone(sizes: seq<uint32>)
    ensures Racked([], {}, sizes)
  {
  }

  lemma RackOne(racks: seq<set<Buffer>>, all: set<Buffer>, sizes: seq<uint32>, rack: set<Buffer>)
    requires Racked(racks, all, sizes) && |racks| < |sizes| && Separate(rack)
    requires forall b <- rack :: b.code == |racks| && b.data.Length == sizes[|racks|]
    requires forall x, y :: x in all && y in rack ==> x.data != y.data
    ensures Racked(racks + [rack], all + rack, sizes)
  {
    SeparateUnion(all, rack);
  }

  class BufferPool {
    const queues: seq<Chain>     // Buffers[i]: the free buffers of class i
    const lengths: seq<uint32>   // BuffersLength[i]
    const initiated: seq<uint32> // BuffersInitiated of class i
    ghost const chains: set<Chain>
    ghost const owned: set<Buffer>
    ghost var contents: seq<seq<Buffer>>  // the free queues, front first

    /** What never changes: every buffer carries its class and has that class's length. */
    ghost predicate Carved() {
      && |queues| == |lengths| == |initiated|
      && 0 < |queues| <= 32
      && Ascending(lengths)
      && (forall b {:trigger b.code} :: b in owned ==> b.code < |queues| && b.data.Length == lengths[b.code])
      && (forall i :: 0 <= i < |queues| ==> queues[i] in chains)
      && (forall i, j :: 0 <= i < j < |queues| ==> queues[i] != queues[j])
    }

    /** The free queues are proper lists, each holding buffers of its own class only. */
    ghost predicate Valid()
      reads this, chains, owned
    {
      && Carved() && |contents| == |queues|
      && (forall i :: 0 <= i < |queues| ==>
            && (forall b {:trigger b in queues[i].members} :: b in queues[i].members ==> b in owned && b.code == i)
            && queues[i].Valid() && queues[i].nodes == contents[i])
      && (forall b {:trigger b in owned} :: b in owned && b.holder in chains ==> b in queues[b.code].members)
    }

    /** What keeps the free queues as they are: nobody touches them or the links and holders
        of free buffers. */
    twostate predicate Same()
      reads this, chains, owned
    {
      && contents == old(contents)
      && (forall q <- chains :: q.head == old(q.head) && q.tail == old(q.tail) && q.count == old(q.count)
                                && q.nodes == old(q.nodes) && q.members == old(q.members))
      && (forall b <- owned :: old(b.holder) in chains || b.holder in chains ==> b.holder == old(b.holder) && b.next == old(b.next))
    }

    twostate lemma Untouched()
      requires old(Valid()) && Same()
      ensures Valid()
    {
    }

    /** The buffers in the free queues. */
    ghost function Free(): set<Buffer>
      reads owned
    {
      set b <- owned | b.holder in chains
    }

    /** TBufferQue::TBufferQue: carve `n` buffers of one class and queue them. */
    static method Carve(n: uint32, length: uint32, code: byte) returns (q: Chain)
      ensures fresh(q) && q.Valid() && q.count == n
      ensures forall b <- q.members :: fresh(b) && fresh(b.data) && b.code == code && b.data.Length == length
      ensures Separate(q.members) && forall b <- q.members :: b.holder == q
    {
      q := new Chain();
      var i := 0;
      while i < n
        invariant 0 <= i <= n
        invariant fresh(q) && q.Valid() && q.count == i
        invariant forall b <- q.members :: fresh(b) && fresh(b.data) && b.code == code && b.data.Length == length
        invariant Separate(q.members)
      {
        var tmp := new Buffer(code, length);
        assert forall b <- q.LastNode() :: b in q.members;
        q.PutOnTail(tmp);
        i := i + 1;
      }
    }

    /** One carved queue per class. */
    static method CarveAll(counts: seq<uint32>, sizes: seq<uint32>)
      returns (qs: seq<Chain>, ghost cs: set<Chain>, ghost ns: seq<seq<Buffer>>,
               ghost racks: seq<set<Buffer>>, ghost all: set<Buffer>)
      requires |counts| == |sizes| <= 32
      ensures |qs| == |sizes| == |ns| == |racks| && Racked(racks, all, sizes)
      ensures fresh(all) && fresh(cs) && forall b <- all :: fresh(b.data)
      ensures forall k :: 0 <= k < |qs| ==>
                && qs[k] in cs && qs[k].Valid() && qs[k].count == counts[k]
                && qs[k].nodes == ns[k] && qs[k].members == racks[k]
      ensures forall k, l :: 0 <= k < l < |qs| ==> qs[k] != qs[l]
    {
      hide Chain.Valid, Racked, Separate;
      qs, cs, ns, racks, all := [], {}, [], [], {};
      assert Racked(racks, all, sizes) by {
        RackNone(sizes);
      }
      while |qs| < |sizes|
        invariant |ns| == |qs| == |racks| <= |sizes| && Racked(racks, all, sizes)
        invariant fresh(all) && fresh(cs) && forall b <- all :: fresh(b.data)
        invariant forall k :: 0 <= k < |qs| ==>
                    && qs[k] in cs && qs[k].Valid() && qs[k].count == counts[k]
                    && qs[k].nodes == ns[k] && qs[k].members == racks[k]
        invariant forall k, l :: 0 <= k < l < |qs| ==> qs[k] != qs[l]
      {
        var q := Carve(counts[|qs|], sizes[|qs|], |qs|);
        RackOne(racks, all, sizes, q.members);
        qs, cs, ns, racks, all := qs + [q], cs + {q}, ns + [q.nodes], racks + [q.members], all + q.members;
      }
    }

    constructor (counts: array<uint32>, sizes: array<uint32>)
      requires counts != sizes && counts.Length == sizes.Length && 0 < counts.Length <= 32
      modifies counts, sizes
      ensures Valid() && fresh(owned) && fresh(chains) && Separate(owned)
      ensures forall i :: 0 <= i < |queues| ==> queues[i].count == initiated[i]
      ensures SamePairs(lengths, initiated, old(sizes[..]), old(counts[..]))
      ensures forall b <- owned :: b.holder in chains && fresh(b.data)
    {
      ExchangeSort(sizes, counts);
      var ns, ls := counts[..], sizes[..];
      var qs, cs, free, racks, all := CarveAll(ns, ls);
      queues, lengths, initiated, chains, owned, contents := qs, ls, ns, cs, all, free;
    }

    /** Buffers[i]->Get(): null when the class is empty. */
    method GetFrom(i: nat) returns (r: Buffer?)
      requires Valid() && i < |queues|
      modifies `contents, chains, Free()`holder
      ensures Valid() && |old(contents)| == |contents| == |queues|
      ensures r == null <==> old(contents)[i] == []
      ensures r == null ==> contents == old(contents)
      ensures r != null ==> r in owned && r.code == i && r == old(contents)[i][0] && r.holder == null
      ensures r != null ==> contents == old(contents)[i := old(contents)[i][1..]]
      ensures forall b <- owned :: b.holder == if b == r then null else old(b.holder)
    {
      hide Linked;
      assert forall b <- queues[i].FirstNode() :: b in queues[i].members;
      r := queues[i].GetFromHead();
      contents := contents[i := queues[i].nodes];
    }

    lemma ContentsHeld(i: nat, b: Buffer)
      requires Valid() && i < |contents| && b in contents[i]
      ensures b in owned && b.code == i && b.holder == queues[i] && b.holder in chains
    {
      assert b in queues[i].members;
    }

    /** No class that is long enough has a free buffer. */
    ghost predicate Exhausted(n: nat)
      requires |contents| == |lengths|
      reads this
    {
      forall k :: 0 <= k < |contents| && lengths[k] >= n ==> contents[k] == []
    }

    /** The first class long enough, by the search loop of GetBuffer. */
    method FirstFit(n: uint32) returns (i: nat)
      requires Carved()
      ensures i <= |queues| && (i < |queues| ==> n <= lengths[i])
      ensures forall k :: 0 <= k < i ==> lengths[k] < n
    {
      i := 0;
      while i < |queues| && n > lengths[i]
        invariant 0 <= i <= |queues|
        invariant forall k :: 0 <= k < i ==> lengths[k] < n
      {
        i := i + 1;
      }
    }

    /** The fallback loop of GetBuffer: the first class from `i` on that is not empty. */
    method GetFromOrAbove(i: nat) returns (r: Buffer?)
      requires Valid() && i < |queues|
      modifies `contents, chains, Free()`holder
      ensures Valid()
      ensures forall b <- owned :: b.holder == if b == r then null else old(b.holder)
      ensures r == null ==> contents == old(contents) && forall k :: i <= k < |queues| ==> contents[k] == []
      ensures r != null ==>
                && r in owned && i <= r.code && old(contents)[r.code] != [] && r == old(contents)[r.code][0]
                && contents == old(contents)[r.code := old(contents)[r.code][1..]]
                && forall k :: i <= k < r.code ==> old(contents)[k] == []
    {
      hide Valid;
      var k := i;
      r := GetFrom(k);
      while r == null
        invariant i <= k < |queues| == |contents| && Valid()
        invariant forall b <- owned :: b.holder == if b == r then null else old(b.holder)
        invariant forall l :: i <= l < k ==> old(contents)[l] == []
        invariant r == null ==> contents == old(contents) && contents[k] == []
        invariant r != null ==>
                    && r in owned && r.code == k && old(contents)[k] != [] && r == old(contents)[k][0]
                    && contents == old(contents)[k := old(contents)[k][1..]]
        decreases |queues| - k, if r == null then 1 else 0
      {
        k := k + 1;
        if k == |queues| {
          return null;
        }
        r := GetFrom(k);
      }
    }

    /** TBuffers::GetBuffer: null stands for the exception thrown when nothing fits.
        The buffer comes from the smallest class that is long enough and not empty. */
    method GetBuffer(n: uint32) returns (r: Buffer?)
      requires Valid()
      modifies `contents, chains, Free()`holder
      ensures Valid()
      ensures forall b <- owned :: b.holder == if b == r then null else old(b.holder)
      ensures r == null <==> old(Exhausted(n))
      ensures r == null ==> contents == old(contents)
      ensures r != null ==>
                && r in owned && r.data.Length >= n && old(contents)[r.code] != [] && r == old(contents)[r.code][0]
                && contents == old(contents)[r.code := old(contents)[r.code][1..]]
                && old(r.holder) in chains
      ensures r != null ==> forall k :: 0 <= k < |queues| && lengths[k] >= n && old(contents)[k] != [] ==>
                              r.code <= k && r.data.Length <= lengths[k]
    {
      var i := FirstFit(n);
      if i == |queues| {
        return null;
      }
      r := GetFromOrAbove(i);
    }

    /** TBuffers::RetBuffer. */
    method RetBuffer(info: Buffer)
      requires Valid() && info in owned && info.holder == null
      modifies `contents, chains, info`next, info`holder, Free()`next
      ensures Valid() && contents == Appended(old(contents), info.code, info)
      ensures forall b <- owned :: b.holder == if b == info then queues[info.code] else old(b.holder)
    {
      hide Linked;
      assert queues[info.code].LastNode() <= queues[info.code].members;
      queues[info.code].PutOnTail(info);
      contents := Appended(contents, info.code, info);
    }

    /** KernelAPI::IsBufferSmall over TBuffers::GetLength. */
    method IsBufferSmall(buff: Buffer, length: uint32) returns (small: bool)
      requires Carved() && buff in owned
      ensures small <==> buff.data.Length <= length
    {
      small := lengths[buff.code] <= length;
    }
  }
}
