/** kernelAPI.cpp: the expiry message. The timer keeps its mailbox and its count inside the
    header of the message it will deliver. */
module Headers {
  import opened Words

  /** What KernelAPI::StartTimer writes about the automate that will get the message. */
  datatype Expiry = Expiry(automate: byte, group: byte, code: uint16, target: uint32, call: uint32, coding: byte)

  predicate Carries(s: seq<byte>, e: Expiry, length: uint16) {
    && MSG_HEADER_LENGTH <= |s|
    && s[MSG_TO_AUTOMATE] == e.automate && s[MSG_TO_GROUP] == e.group
    && Word16(s, MSG_CODE) == e.code && Word32(s, MSG_OBJECT_ID_TO) == e.target
    && Word32(s, CALL_ID) == e.call && s[MSG_INFO_CODING] == e.coding
    && Word16(s, MSG_LENGTH) == length
  }

  function Written(s: seq<byte>, e: Expiry, length: uint16): (r: seq<byte>)
    requires MSG_HEADER_LENGTH <= |s|
    ensures |r| == |s|
  {
    var s1 := Put16(s[MSG_TO_AUTOMATE := e.automate][MSG_TO_GROUP := e.group], MSG_CODE, e.code);
    var s2 := Put32(s1, CALL_ID, e.call);
    var s3 := Put32(s2, MSG_OBJECT_ID_TO, e.target);
    Put16(s3[MSG_INFO_CODING := e.coding], MSG_LENGTH, length)
  }

  lemma WrittenCarries(s: seq<byte>, e: Expiry, length: uint16)
    requires MSG_HEADER_LENGTH <= |s|
    ensures Carries(Written(s, e, length), e, length)
  {
    var s0 := s[MSG_TO_AUTOMATE := e.automate][MSG_TO_GROUP := e.group];
    var s1 := Put16(s0, MSG_CODE, e.code);
    var s2 := Put32(s1, CALL_ID, e.call);
    var s3 := Put32(s2, MSG_OBJECT_ID_TO, e.target);
    var s4 := s3[MSG_INFO_CODING := e.coding];
    Word16RoundTrip(s0, MSG_CODE, e.code);
    Word32RoundTrip(s1, CALL_ID, e.call);
    Word32RoundTrip(s2, MSG_OBJECT_ID_TO, e.target);
    Word16RoundTrip(s4, MSG_LENGTH, length);
  }

  /** The header part of KernelAPI::StartTimer. */
  method WriteHeader(timer: array<byte>, e: Expiry, length: uint16)
    requires MSG_HEADER_LENGTH <= timer.Length
    modifies timer
    ensures timer[..] == Written(old(timer[..]), e, length)
  {
    timer[MSG_TO_AUTOMATE] := e.automate;
    timer[MSG_TO_GROUP] := e.group;
    assert timer[..] == old(timer[..])[MSG_TO_AUTOMATE := e.automate][MSG_TO_GROUP := e.group];
    SetUint16(timer, MSG_CODE, e.code);
    SetUint32(timer, CALL_ID, e.call);
    SetUint32(timer, MSG_OBJECT_ID_TO, e.target);
    ghost var s3: seq<byte> := timer[..];
    timer[MSG_INFO_CODING] := e.coding;
    assert timer[..] == s3[MSG_INFO_CODING := e.coding];
    SetUint16(timer, MSG_LENGTH, length);
  }

  function Addressed(s: seq<byte>, mbx: byte): (r: seq<byte>)
    requires MSG_HEADER_LENGTH <= |s|
    ensures |r| == |s|
  {
    s[MSG_FROM_AUTOMATE := TIMER][TIMER_MBX_ID := mbx]
  }

  /** The header part of CTimer::StartTimer. */
  method Stamp(timer: array<byte>, mbx: byte, count: uint32)
    requires MSG_HEADER_LENGTH <= timer.Length
    modifies timer
    ensures timer[..] == Put32(Addressed(old(timer[..]), mbx), TIMER_COUNT, count)
  {
    SetUint32(timer, TIMER_COUNT, count);
    timer[MSG_FROM_AUTOMATE] := TIMER;
    timer[TIMER_MBX_ID] := mbx;
  }

  /** Any number of delta updates, by CTimer::Add and by the ticks. */
  function Recounted(s: seq<byte>, counts: seq<uint32>): (r: seq<byte>)
    requires MSG_HEADER_LENGTH <= |s|
    ensures |r| == |s|
    decreases |counts|
  {
    if counts == [] then s else Recounted(Put32(s, TIMER_COUNT, counts[0]), counts[1..])
  }

  /** The two headers agree outside the count, and the parameters agree. */
  predicate SameBut(r: seq<byte>, s: seq<byte>) {
    |r| == |s| && forall i :: 0 <= i < |s| && !(TIMER_COUNT <= i < TIMER_COUNT + 4) ==> r[i] == s[i]
  }

  lemma {:induction false} RecountedSame(s: seq<byte>, counts: seq<uint32>)
    requires MSG_HEADER_LENGTH <= |s|
    ensures SameBut(Recounted(s, counts), s)
    decreases |counts|
  {
    if counts != [] {
      RecountedSame(Put32(s, TIMER_COUNT, counts[0]), counts[1..]);
    }
  }

  lemma {:induction false} RecountedLast(s: seq<byte>, counts: seq<uint32>)
    requires MSG_HEADER_LENGTH <= |s| && counts != []
    ensures Word32(Recounted(s, counts), TIMER_COUNT) == counts[|counts| - 1]
    decreases |counts|
  {
    if |counts| == 1 {
      Word32RoundTrip(s, TIMER_COUNT, counts[0]);
    } else {
      RecountedLast(Put32(s, TIMER_COUNT, counts[0]), counts[1..]);
    }
  }

  lemma SameCarries(r: seq<byte>, s: seq<byte>, e: Expiry, length: uint16)
    requires SameBut(r, s) && Carries(s, e, length)
    ensures Carries(r, e, length) && r[MSG_INFO..] == s[MSG_INFO..]
    ensures r[TIMER_MBX_ID] == s[TIMER_MBX_ID] && r[MSG_FROM_AUTOMATE] == s[MSG_FROM_AUTOMATE]
  {
  }

  lemma AddressedCarries(s: seq<byte>, e: Expiry, length: uint16, mbx: byte)
    requires Carries(s, e, length)
    ensures Carries(Addressed(s, mbx), e, length)
    ensures Addressed(s, mbx)[MSG_INFO..] == s[MSG_INFO..]
  {
  }

  lemma WrittenKeepsInfo(s: seq<byte>, e: Expiry, length: uint16)
    requires MSG_HEADER_LENGTH <= |s|
    ensures Written(s, e, length)[MSG_INFO..] == s[MSG_INFO..]
  {
  }

  /** The delivered message carries what the automate asked for, and while it waits the
      timer finds in it the mailbox and the last count written. */
  lemma ExpiryIntact(s: seq<byte>, e: Expiry, length: uint16, mbx: byte, counts: seq<uint32>)
    requires MSG_HEADER_LENGTH <= |s| && counts != []
    ensures var r := Recounted(Addressed(Written(s, e, length), mbx), counts);
            && Carries(r, e, length)
            && r[TIMER_MBX_ID] == mbx && r[MSG_FROM_AUTOMATE] == TIMER
            && Word32(r, TIMER_COUNT) == counts[|counts| - 1]
            && r[MSG_INFO..] == s[MSG_INFO..]
  {
    hide Carries, Written, Word32, Put32, Recounted, SameBut;
    var w := Written(s, e, length);
    var st := Addressed(w, mbx);
    WrittenCarries(s, e, length);
    WrittenKeepsInfo(s, e, length);
    AddressedCarries(w, e, length, mbx);
    RecountedSame(st, counts);
    SameCarries(Recounted(st, counts), st, e, length);
    RecountedLast(st, counts);
  }
}
