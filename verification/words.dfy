/** KernelFunctions.cpp: little-endian words inside a byte buffer, and the header
    offsets of kernelConsts.h. */
module Words {

  type byte = x: nat | x < 0x100
  type uint16 = x: nat | x < 0x1_0000
  type uint32 = x: nat | x < 0x1_0000_0000

  const MSG_FROM_AUTOMATE := 0
  const MSG_FROM_GROUP := 1
  const MSG_TO_AUTOMATE := 2
  const MSG_TO_GROUP := 3
  const MSG_CODE := 4
  const MSG_OBJECT_ID_FROM := 6
  const MSG_OBJECT_ID_TO := 10
  const CALL_ID := 14
  const MSG_INFO_CODING := 18
  const MSG_LENGTH := 19
  const MSG_INFO := 21
  const MSG_HEADER_LENGTH := 21

  // The timer reuses two fields of the sender's address.
  const TIMER_MBX_ID := MSG_FROM_GROUP
  const TIMER_COUNT := MSG_OBJECT_ID_FROM

  // Message code of a cancelled message, and the automate id of the timer itself.
  const DISCARDED: uint16 := 0x7FFF
  const TIMER: byte := 0

  /** The little-endian words at an offset of a byte sequence. */
  function Word16(s: seq<byte>, at: nat): uint16
    requires at + 2 <= |s|
  {
    s[at] as int + 0x100 * s[at + 1] as int
  }

  function Word32(s: seq<byte>, at: nat): uint32
    requires at + 4 <= |s|
  {
    s[at] as int + 0x100 * s[at + 1] as int + 0x1_0000 * s[at + 2] as int + 0x100_0000 * s[at + 3] as int
  }

  /** GetUint16 and GetUint32 on a buffer. */
  function GetUint16(a: array<byte>, at: nat): (v: uint16)
    requires at + 2 <= a.Length
    reads a
    ensures v == Word16(a[..], at)
  {
    a[at] as int + 0x100 * a[at + 1] as int
  }

  function GetUint32(a: array<byte>, at: nat): (v: uint32)
    requires at + 4 <= a.Length
    reads a
    ensures v == Word32(a[..], at)
  {
    a[at] as int + 0x100 * a[at + 1] as int + 0x1_0000 * a[at + 2] as int + 0x100_0000 * a[at + 3] as int
  }

  function Bytes16(v: uint16): seq<byte> {
    [v % 0x100, v / 0x100]
  }

  function Bytes32(v: uint32): seq<byte> {
    [v % 0x100, v / 0x100 % 0x100, v / 0x1_0000 % 0x100, v / 0x100_0000]
  }

  /** `s` with `w` written over it from offset `at` on. */
  function Overwrite(s: seq<byte>, at: nat, w: seq<byte>): (r: seq<byte>)
    requires at + |w| <= |s|
    ensures |r| == |s|
    ensures forall i :: 0 <= i < |s| ==> r[i] == if at <= i < at + |w| then w[i - at] else s[i]
  {
    s[..at] + w + s[at + |w|..]
  }

  function Put16(s: seq<byte>, at: nat, v: uint16): seq<byte>
    requires at + 2 <= |s|
  {
    Overwrite(s, at, Bytes16(v))
  }

  function Put32(s: seq<byte>, at: nat, v: uint32): seq<byte>
    requires at + 4 <= |s|
  {
    Overwrite(s, at, Bytes32(v))
  }

  /** The number that bytes spell, lowest first. */
  function Number(bs: seq<byte>): nat {
    if bs == [] then 0 else bs[0] as int + 0x100 * Number(bs[1..])
  }

  /** Words are read and written lowest byte first. */
  lemma WordsAreNumbers(s: seq<byte>, at: nat, v: uint16, w: uint32)
    ensures at + 2 <= |s| ==> Word16(s, at) == Number(s[at..at + 2])
    ensures at + 4 <= |s| ==> Word32(s, at) == Number(s[at..at + 4])
    ensures Number(Bytes16(v)) == v && Number(Bytes32(w)) == w
  {
    hide Number, Bytes32;
    if at + 2 <= |s| {
      NumberOfTwo(s[at..at + 2]);
    }
    if at + 4 <= |s| {
      NumberOfFour(s[at..at + 4]);
    }
    NumberOfTwo(Bytes16(v));
    NumberOfBytes(w);
  }

  lemma NumberOfBytes(w: uint32)
    ensures Number(Bytes32(w)) == w
  {
    NumberOfFour(Bytes32(w));
    hide Number;
    assert w / 0x100 == w / 0x1_0000 * 0x100 + w / 0x100 % 0x100;
    assert w / 0x1_0000 == w / 0x100_0000 * 0x100 + w / 0x1_0000 % 0x100;
  }

  lemma NumberOfTwo(bs: seq<byte>)
    requires |bs| == 2
    ensures Number(bs) == bs[0] as int + 0x100 * bs[1] as int
  {
    assert bs[1..] == [bs[1]] && bs[1..][1..] == [];
    assert Number([bs[1]]) == bs[1] as int + 0x100 * Number([]);
  }

  lemma NumberOfFour(bs: seq<byte>)
    requires |bs| == 4
    ensures Number(bs) == bs[0] as int + 0x100 * bs[1] as int + 0x1_0000 * bs[2] as int + 0x100_0000 * bs[3] as int
  {
    NumberOfTwo(bs[2..]);
    assert bs[1..][1..] == bs[2..];
    assert Number(bs[1..]) == bs[1] as int + 0x100 * Number(bs[2..]);
  }

  lemma Word16RoundTrip(s: seq<byte>, at: nat, v: uint16)
    requires at + 2 <= |s|
    ensures Word16(Put16(s, at, v), at) == v
  {
    var r := Put16(s, at, v);
    assert r[at] == Bytes16(v)[0] && r[at + 1] == Bytes16(v)[1];
  }

  lemma Word32RoundTrip(s: seq<byte>, at: nat, v: uint32)
    requires at + 4 <= |s|
    ensures Word32(Put32(s, at, v), at) == v
  {
    var r := Put32(s, at, v);
    assert forall k :: 0 <= k < 4 ==> r[at + k] == Bytes32(v)[k];
    assert v / 0x100 == v / 0x1_0000 * 0x100 + v / 0x100 % 0x100;
    assert v / 0x1_0000 == v / 0x100_0000 * 0x100 + v / 0x1_0000 % 0x100;
  }

  /** Reading back what was read writes the same bytes: the two encodings are inverse. */
  lemma Word32Surjective(s: seq<byte>, at: nat)
    requires at + 4 <= |s|
    ensures Put32(s, at, Word32(s, at)) == s
  {
    var v := Word32(s, at);
    var hi: int := s[at + 3];
    var mid: int := s[at + 2] as int + 0x100 * hi;
    var low: int := s[at + 1] as int + 0x100 * mid;
    assert v == s[at] as int + 0x100 * low;
    assert v / 0x100 == low && v % 0x100 == s[at];
    assert v / 0x1_0000 == mid && low % 0x100 == s[at + 1];
    assert v / 0x100_0000 == hi && mid % 0x100 == s[at + 2];
  }

  method SetUint16(a: array<byte>, at: nat, v: uint16)
    requires at + 2 <= a.Length
    modifies a
    ensures a[..] == Put16(old(a[..]), at, v)
  {
    a[at] := v % 0x100;
    a[at + 1] := v / 0x100 % 0x100;
  }

  method SetUint32(a: array<byte>, at: nat, v: uint32)
    requires at + 4 <= a.Length
    modifies a
    ensures a[..] == Put32(old(a[..]), at, v)
  {
    a[at] := v % 0x100;
    a[at + 1] := v / 0x100 % 0x100;
    a[at + 2] := v / 0x1_0000 % 0x100;
    a[at + 3] := v / 0x100_0000 % 0x100;
  }
}
