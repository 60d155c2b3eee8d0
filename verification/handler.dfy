/** messages.cpp: the message an automate is writing, in a buffer that grows on demand. */
module MessageHandlers {
  import opened Words
  import opened Sequences
  import opened Params
  import opened Mail
  import opened Buffers
  import opened BufferPools
  import opened StdMessages

  // The slack of CheckBufferSize: what it asks for, and what it allocates.
  const CHECKED_SLACK := 8
  const GROWN_SLACK := 10

  /** Any buffer that passes the check, and any buffer the check allocates, has room for the
      parameter: its header, its value, and the terminator of an empty message. */
  lemma RoomAfterCheck(s: seq<byte>, ps: seq<Param>, n: nat)
    requires MessageOf(s, ps)
    ensures MSG_INFO + |Encode(ps)| + PARAM_HEADER_LENGTH + n < InfoLength(s) + MSG_HEADER_LENGTH + n + CHECKED_SLACK
    ensures InfoLength(s) == 0 || InfoLength(s) == |Encode(ps)|
  {
  }

  class MessageHandler {
    const pool: BufferPool
    const iface: StdMsg
    var newMessage: Buffer?

    constructor (buffers: BufferPool)
      ensures pool == buffers && newMessage == null
    {
      pool := buffers;
      iface := new StdMsg();
      newMessage := null;
    }

    /** The automate owns the buffer it writes, and the interface writes into that one. */
    ghost predicate Writing(ps: seq<Param>)
      reads this, iface, pool, pool.owned, pool.chains, if newMessage == null then {} else {newMessage.data}
    {
      && pool.Valid() && Separate(pool.owned)
      && newMessage != null && newMessage in pool.owned && newMessage.holder == null
      && iface.newMessage == newMessage.data
      && MessageOf(newMessage.data[..], ps)
    }

    /** The buffers that a reallocation may touch: the free ones and the own one. */
    ghost function Spare(): set<Buffer>
      reads this, pool.owned
    {
      set b <- pool.owned | b.holder in pool.chains || b == newMessage
    }

    ghost function SpareBlocks(): set<array<byte>>
      reads this, pool.owned
    {
      set b <- Spare() :: b.data
    }

    /** GetBuffer: null stands for its exception. */
    method TakeBuffer(length: uint32) returns (r: Buffer?)
      requires pool.Valid()
      modifies pool`contents, pool.chains, pool.Free()`holder
      ensures pool.Valid() && |old(pool.contents)| == |pool.lengths| && (r == null <==> old(pool.Exhausted(length)))
      ensures r == null ==> pool.contents == old(pool.contents)
      ensures r != null ==>
                && r in pool.owned && old(r.holder) in pool.chains && r.data.Length >= length
                && Taken(old(pool.contents), r, pool.contents)
      ensures forall b <- pool.owned :: b.holder == if b == r then null else old(b.holder)
    {
      r := pool.GetBuffer(length);
    }

    /** The memcpy of CheckBufferSize. */
    method CopyBlock(tmp1: Buffer, from: Buffer, used: nat)
      requires pool.Valid() && tmp1 in pool.owned && tmp1.holder == null
      requires tmp1.data != from.data && used <= tmp1.data.Length && used <= from.data.Length
      modifies tmp1`msgCode, tmp1`count, tmp1`mbx, tmp1.data
      ensures pool.Valid() && tmp1.data[..used] == from.data[..used]
      ensures tmp1.msgCode == from.msgCode && tmp1.count == from.count && tmp1.mbx == from.mbx
    {
      hide BufferPool.Valid;
      forall i | 0 <= i < used {
        tmp1.data[i] := from.data[i];
      }
      tmp1.msgCode, tmp1.count, tmp1.mbx := from.msgCode, from.count, from.mbx;
      pool.Untouched();
    }

    /** RetBuffer. */
    method GiveBack(b: Buffer)
      requires pool.Valid() && b in pool.owned && b.holder == null
      modifies pool`contents, pool.chains, b`next, b`holder, pool.Free()`next
      ensures pool.Valid() && b.code < |old(pool.contents)| && pool.contents == Appended(old(pool.contents), b.code, b)
      ensures b.holder in pool.chains && forall x <- pool.owned :: x != b ==> x.holder == old(x.holder)
    {
      pool.RetBuffer(b);
    }

    /** The reallocation: header and parameters move to the new buffer, the old one goes to
        the free queue of its class. False stands for the exception of GetBuffer. */
    method Grow(length: uint32, used: nat) returns (ok: bool)
      requires pool.Valid() && Separate(pool.owned)
      requires newMessage != null && newMessage in pool.owned && newMessage.holder == null
      requires used <= newMessage.data.Length && used <= length
      modifies this, iface`newMessage, pool`contents, pool.chains
      modifies Spare()`next, Spare()`holder, Spare()`msgCode, Spare()`count, Spare()`mbx, SpareBlocks()
      ensures pool.Valid() && newMessage != null && newMessage in old(Spare()) && newMessage.holder == null
      ensures used <= newMessage.data.Length && newMessage.data[..used] == old(newMessage.data[..used])
      ensures FieldsKept(old(newMessage.msgCode), old(newMessage.count), old(newMessage.mbx))
      ensures |old(pool.contents)| == |pool.lengths| && (!ok <==> old(pool.Exhausted(length)))
      ensures !ok ==> newMessage == old(newMessage) && pool.contents == old(pool.contents)
                      && iface.newMessage == old(iface.newMessage)
                      && newMessage.data[..] == old(newMessage.data[..])
      ensures ok ==> newMessage.data.Length >= length && iface.newMessage == newMessage.data
                     && Replaced(old(pool.contents), newMessage, old(newMessage), pool.contents)
                     && old(newMessage).holder in pool.chains
    {
      hide BufferPool.Valid;
      var tmp1 := TakeBuffer(length);
      if tmp1 == null {
        return false;
      }
      assert tmp1.data != newMessage.data;
      CopyBlock(tmp1, newMessage, used);
      GiveBack(newMessage);
      newMessage := tmp1;
      iface.newMessage := newMessage.data;
      return true;
    }

    /** The header that PrepareNewMessage writes. */
    method InitBlock(b: Buffer, code: uint16, coding: byte)
      requires pool.Valid() && b in pool.owned && b.holder == null && MSG_HEADER_LENGTH <= b.data.Length
      modifies b`msgCode, b.data
      ensures pool.Valid() && MessageOf(b.data[..], [])
      ensures b.msgCode == code && Word16(b.data[..], MSG_CODE) == code && b.data[MSG_INFO_CODING] == coding
    {
      hide BufferPool.Valid;
      b.data[MSG_INFO_CODING] := coding;
      SetUint16(b.data, MSG_CODE, code);
      Word16RoundTrip(old(b.data[..])[MSG_INFO_CODING := coding], MSG_CODE, code);
      SetUint16(b.data, MSG_LENGTH, 0);
      b.msgCode := code;
      pool.Untouched();
    }

    /** PrepareNewMessage: an owned message without parameters. */
    method PrepareNewMessage(length: uint32, code: uint16, coding: byte) returns (ok: bool)
      requires pool.Valid() && Separate(pool.owned) && newMessage == null
      requires length + MSG_HEADER_LENGTH < 0x1_0000_0000
      modifies this, iface`newMessage, pool`contents, pool.chains
      modifies Spare()`holder, Spare()`msgCode, SpareBlocks()
      ensures ok ==> Writing([]) && Taken(old(pool.contents), newMessage, pool.contents)
      ensures ok ==> newMessage.msgCode == code && newMessage.data.Length >= length + MSG_HEADER_LENGTH
      ensures ok ==> Word16(newMessage.data[..], MSG_CODE) == code && newMessage.data[MSG_INFO_CODING] == coding
      ensures !ok ==> newMessage == null && pool.Valid() && pool.contents == old(pool.contents)
      ensures |old(pool.contents)| == |pool.lengths| && (!ok <==> old(pool.Exhausted(length + MSG_HEADER_LENGTH)))
    {
      hide BufferPool.Valid;
      var msg := TakeBuffer(length + MSG_HEADER_LENGTH);
      if msg == null {
        return false;
      }
      newMessage := msg;
      InitBlock(newMessage, code, coding);
      iface.newMessage := newMessage.data;
      return true;
    }

    /** The header words that the kernel reads: those given. */
    ghost predicate FieldsKept(code: uint16, count: uint32, mbx: byte)
      requires newMessage != null
      reads this, newMessage
    {
      newMessage.msgCode == code && newMessage.count == count && newMessage.mbx == mbx
    }

    /** Whether CheckBufferSize finds the buffer too small for `n` more bytes. */
    ghost predicate TooSmall(n: nat)
      requires newMessage != null && MSG_HEADER_LENGTH <= newMessage.data.Length
      reads this, newMessage.data
    {
      newMessage.data.Length <= MSG_HEADER_LENGTH + InfoLength(newMessage.data[..]) + n + CHECKED_SLACK
    }

    /** GetBuffer would fail for the buffer that CheckBufferSize asks for. */
    ghost predicate NoneLonger(n: nat)
      requires newMessage != null && MSG_HEADER_LENGTH <= newMessage.data.Length && |pool.contents| == |pool.lengths|
      reads this, newMessage.data, pool
    {
      pool.Exhausted(MSG_HEADER_LENGTH + InfoLength(newMessage.data[..]) + n + GROWN_SLACK)
    }

    /** CheckBufferSize: afterwards a parameter of `n` bytes fits and the message holds the same
        header and parameters. A buffer that was too small is replaced, and is free again. */
    method CheckBufferSize(n: uint32, ghost ps: seq<Param>) returns (ok: bool)
      requires Writing(ps) && MSG_HEADER_LENGTH + 0x1_0000 + n + GROWN_SLACK < 0x1_0000_0000
      modifies this, iface`newMessage, pool`contents, pool.chains
      modifies Spare()`next, Spare()`holder, Spare()`msgCode, Spare()`count, Spare()`mbx, SpareBlocks()
      ensures Writing(ps) && newMessage in old(Spare()) && |old(pool.contents)| == |pool.lengths|
      ensures ok ==> MSG_INFO + |Encode(ps)| + PARAM_HEADER_LENGTH + n < newMessage.data.Length
      ensures !ok <==> old(TooSmall(n)) && old(NoneLonger(n))
      ensures var used := MSG_HEADER_LENGTH + InfoLength(old(newMessage.data[..]));
              used <= newMessage.data.Length && newMessage.data[..used] == old(newMessage.data[..])[..used]
      ensures FieldsKept(old(newMessage.msgCode), old(newMessage.count), old(newMessage.mbx))
      ensures !ok || !old(TooSmall(n)) ==> newMessage == old(newMessage) && pool.contents == old(pool.contents)
      ensures ok && old(TooSmall(n)) ==> Replaced(old(pool.contents), newMessage, old(newMessage), pool.contents)
    {
      hide BufferPool.Valid, Terminated, Separate;
      Sizes();
      var len := GetUint16(newMessage.data, MSG_LENGTH);
      ghost var was := newMessage.data[..];
      RoomAfterCheck(was, ps, n);
      StoredWithin(was, ps);
      var small := pool.IsBufferSmall(newMessage, len + MSG_HEADER_LENGTH + n + CHECKED_SLACK);
      ok := true;
      if small {
        ok := Grow(len + MSG_HEADER_LENGTH + n + GROWN_SLACK, len + MSG_HEADER_LENGTH);
        assert newMessage.data[..][..len + MSG_HEADER_LENGTH] == was[..len + MSG_HEADER_LENGTH];
        PrefixHolds(was, newMessage.data[..], ps);
      }
    }

    lemma Sizes()
      requires pool.Valid()
      ensures pool.Carved() && |pool.contents| == |pool.lengths|
    {
    }

    /** AddParam of an automate: grow first, then insert in place. It fails exactly when the
        buffer is too small and no longer one is free, and then changes nothing. */
    method AddParam(code: uint16, value: seq<byte>, ghost ps: seq<Param>) returns (ok: bool)
      requires Writing(ps) && code >= 1
      requires |Encode(ps)| + PARAM_HEADER_LENGTH + |value| < 0x1_0000
      modifies this, iface, pool`contents, pool.chains
      modifies Spare()`next, Spare()`holder, Spare()`msgCode, Spare()`count, Spare()`mbx, SpareBlocks()
      ensures |old(pool.contents)| == |pool.lengths|
      ensures !ok <==> old(TooSmall(|value|)) && old(NoneLonger(|value|))
      ensures !ok ==> Writing(ps) && newMessage == old(newMessage) && pool.contents == old(pool.contents)
      ensures ok ==>
                && Writing(Inserted(ps, Param(code, value))) && MSG_LENGTH <= newMessage.data.Length
                && newMessage.data[..MSG_LENGTH] == old(newMessage.data[..])[..MSG_LENGTH]
                && Word16(newMessage.data[..], MSG_CODE) == Word16(old(newMessage.data[..]), MSG_CODE)
                && newMessage.data[MSG_INFO_CODING] == old(newMessage.data[MSG_INFO_CODING])
                && FieldsKept(old(newMessage.msgCode), old(newMessage.count), old(newMessage.mbx))
      ensures ok && old(TooSmall(|value|)) ==>
                Replaced(old(pool.contents), newMessage, old(newMessage), pool.contents)
      ensures ok && !old(TooSmall(|value|)) ==> newMessage == old(newMessage) && pool.contents == old(pool.contents)
    {
      hide BufferPool.Valid, Separate, Terminated;
      ghost var was := newMessage.data[..];
      ok := CheckBufferSize(|value|, ps);
      StoredWithin(was, ps);
      HeaderKept(was, newMessage.data[..], MSG_HEADER_LENGTH + InfoLength(was));
      if ok {
        InsertIntoBlock(code, value, ps);
        HeaderFields(was, newMessage.data[..]);
      }
    }

    method InsertIntoBlock(code: uint16, value: seq<byte>, ghost ps: seq<Param>)
      requires Writing(ps) && code >= 1
      requires |Encode(ps)| + PARAM_HEADER_LENGTH + |value| < 0x1_0000
      requires MSG_INFO + |Encode(ps)| + PARAM_HEADER_LENGTH + |value| < newMessage.data.Length
      modifies iface`currentOffset, newMessage.data
      ensures Writing(Inserted(ps, Param(code, value)))
      ensures newMessage.data[..][..MSG_LENGTH] == old(newMessage.data[..])[..MSG_LENGTH]
    {
      hide Inserted, Encode, BufferPool.Valid;
      ghost var was := newMessage.data[..];
      iface.AddParam(code, value, ps);
      pool.Untouched();
      InsertedCoded(ps, Param(code, value));
      assert newMessage.data[..MSG_LENGTH] == newMessage.data[..][..MSG_LENGTH];
    }
  }

  /** The buffer `r` came from the front of its class's queue. */
  ghost predicate Taken(contents: seq<seq<Buffer>>, r: Buffer, contents': seq<seq<Buffer>>) {
    && r.code < |contents| && contents[r.code] != [] && r == contents[r.code][0]
    && contents' == contents[r.code := contents[r.code][1..]]
  }

  /** The buffer `r` came out and `back` went in. */
  ghost predicate Replaced(contents: seq<seq<Buffer>>, r: Buffer, back: Buffer, contents': seq<seq<Buffer>>) {
    && r.code < |contents| && contents[r.code] != [] && r == contents[r.code][0] && back.code < |contents|
    && contents' == Appended(contents[r.code := contents[r.code][1..]], back.code, back)
  }

  lemma HeaderKept(s: seq<byte>, t: seq<byte>, used: nat)
    requires MSG_HEADER_LENGTH <= used <= |s| && used <= |t| && t[..used] == s[..used]
    ensures t[..MSG_LENGTH] == s[..MSG_LENGTH]
  {
    assert t[..MSG_LENGTH] == t[..used][..MSG_LENGTH];
  }

  lemma HeaderFields(s: seq<byte>, t: seq<byte>)
    requires MSG_LENGTH <= |s| && MSG_LENGTH <= |t| && t[..MSG_LENGTH] == s[..MSG_LENGTH]
    ensures Word16(t, MSG_CODE) == Word16(s, MSG_CODE) && t[MSG_INFO_CODING] == s[MSG_INFO_CODING]
  {
    assert forall i :: 0 <= i < MSG_LENGTH ==> t[i] == t[..MSG_LENGTH][i] == s[..MSG_LENGTH][i] == s[i];
  }

  lemma InsertedCoded(ps: seq<Param>, p: Param)
    requires Coded(ps) && p.code >= 1
    ensures Coded(Inserted(ps, p))
  {
  }

  lemma StoredWithin(s: seq<byte>, ps: seq<Param>)
    requires MessageOf(s, ps)
    ensures MSG_HEADER_LENGTH + InfoLength(s) <= |s|
  {
  }

  /** The message is its header and its parameters; bytes behind them do not matter. */
  lemma PrefixHolds(s: seq<byte>, t: seq<byte>, ps: seq<Param>)
    requires MessageOf(s, ps)
    requires MSG_HEADER_LENGTH + InfoLength(s) <= |s| && MSG_HEADER_LENGTH + InfoLength(s) <= |t|
    requires var used := MSG_HEADER_LENGTH + InfoLength(s); t[..used] == s[..used]
    ensures MessageOf(t, ps) && InfoLength(t) == InfoLength(s)
  {
    var used := MSG_HEADER_LENGTH + InfoLength(s);
    assert t[..used][MSG_LENGTH] == t[MSG_LENGTH] && t[..used][MSG_LENGTH + 1] == t[MSG_LENGTH + 1];
    if InfoLength(s) != 0 {
      SubSlice(s, 0, used, MSG_INFO, used);
      SubSlice(t, 0, used, MSG_INFO, used);
    }
  }
}
