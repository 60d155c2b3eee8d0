/** stdMsgpc16pl16.cpp: parameters of a message, written and read in place. */
module StdMessages {
  import opened Sequences
  import opened Words
  import opened Params

  function InfoLength(s: seq<byte>): uint16
    requires MSG_HEADER_LENGTH <= |s|
  {
    Word16(s, MSG_LENGTH)
  }

  /** The message `s` holds the parameters `ps`; a message without any has length zero
      until the first one is added. */
  predicate MessageOf(s: seq<byte>, ps: seq<Param>) {
    && MSG_HEADER_LENGTH <= |s| && Sized(ps) && Coded(ps)
    && ((InfoLength(s) == 0 && ps == []) || Terminated(s, ps))
  }

  predicate Terminated(s: seq<byte>, ps: seq<Param>) {
    && MSG_HEADER_LENGTH <= |s| && ListAt(s, MSG_INFO, ps)
    && InfoLength(s) == |Encode(ps)|
  }

  /** SetENDOfParams: the terminator behind the stored length, which counts it, in 16 bits. */
  function WithEnd(s: seq<byte>): (r: seq<byte>)
    requires MSG_HEADER_LENGTH <= |s| && MSG_INFO + InfoLength(s) + 2 <= |s|
    ensures |r| == |s|
  {
    Put16(Put16(s, MSG_INFO + InfoLength(s), 0), MSG_LENGTH, (InfoLength(s) + 2) % 0x1_0000)
  }

  /** Behind a list that has no terminator yet, it is the terminator. */
  lemma WithEndTerminates(s: seq<byte>, ps: seq<Param>)
    requires MSG_HEADER_LENGTH <= |s| && MSG_INFO + InfoLength(s) + 2 <= |s|
    requires Sized(ps) && |Body(ps)| == InfoLength(s) < 0x1_0000 - 2
    requires s[MSG_INFO..MSG_INFO + InfoLength(s)] == Body(ps)
    ensures Terminated(WithEnd(s), ps) && WithEnd(s)[..MSG_LENGTH] == s[..MSG_LENGTH]
  {
    hide Body, Word16;
    var n := InfoLength(s);
    var w := Put16(s, MSG_INFO + n, 0);
    Word16RoundTrip(w, MSG_LENGTH, n + 2);
    assert WithEnd(s)[MSG_INFO + n..MSG_INFO + n + 2] == END;
    assert WithEnd(s)[MSG_INFO..MSG_INFO + n] == s[MSG_INFO..MSG_INFO + n];
    assert WithEnd(s)[MSG_INFO..MSG_INFO + n + 2] == Body(ps) + END;
  }

  /** AddParam's four writes: shift the tail, write the entry, set the length. */
  function Shifted(s: seq<byte>, at: nat, n: nat, end: nat): (r: seq<byte>)
    requires at <= end && end + PARAM_HEADER_LENGTH + n <= |s|
    ensures |r| == |s|
  {
    Overwrite(s, at + PARAM_HEADER_LENGTH + n, s[at..end])
  }

  function WithEntry(s: seq<byte>, at: nat, p: Param): (r: seq<byte>)
    requires at + PARAM_HEADER_LENGTH + |p.value| <= |s| && |p.value| < 0x1_0000
    ensures |r| == |s|
  {
    Overwrite(Put16(Put16(s, at, p.code), at + PARAM_LENGTH_OFFSET, |p.value|), at + PARAM_HEADER_LENGTH, p.value)
  }

  function Added(s: seq<byte>, at: nat, p: Param): (r: seq<byte>)
    requires MSG_HEADER_LENGTH <= |s| && MSG_INFO <= at <= MSG_INFO + InfoLength(s)
    requires MSG_INFO + InfoLength(s) + PARAM_HEADER_LENGTH + |p.value| <= |s|
    requires InfoLength(s) + PARAM_HEADER_LENGTH + |p.value| < 0x1_0000
    ensures |r| == |s|
  {
    var n := InfoLength(s);
    Put16(WithEntry(Shifted(s, at, |p.value|, MSG_INFO + n), at, p), MSG_LENGTH, n + PARAM_HEADER_LENGTH + |p.value|)
  }

  lemma ListOf(s: seq<byte>, ps: seq<Param>)
    requires MessageOf(s, ps) && ps != []
    ensures ListAt(s, MSG_INFO, ps)
  {
  }

  lemma WithEntryWrites(s: seq<byte>, at: nat, p: Param)
    requires at + PARAM_HEADER_LENGTH + |p.value| <= |s| && |p.value| < 0x1_0000
    ensures WithEntry(s, at, p) == Overwrite(s, at, Entry(p))
  {
  }

  predicate Fits(s: seq<byte>, at: nat, p: Param) {
    && MSG_HEADER_LENGTH <= |s| && MSG_INFO <= at <= MSG_INFO + InfoLength(s)
    && MSG_INFO + InfoLength(s) + PARAM_HEADER_LENGTH + |p.value| <= |s|
    && InfoLength(s) + PARAM_HEADER_LENGTH + |p.value| < 0x1_0000
  }

  lemma AddedLength(s: seq<byte>, at: nat, p: Param)
    requires Fits(s, at, p)
    ensures InfoLength(Added(s, at, p)) == InfoLength(s) + PARAM_HEADER_LENGTH + |p.value|
    ensures Added(s, at, p)[..MSG_LENGTH] == s[..MSG_LENGTH]
  {
    var n := InfoLength(s);
    var w := WithEntry(Shifted(s, at, |p.value|, MSG_INFO + n), at, p);
    Word16RoundTrip(w, MSG_LENGTH, n + PARAM_HEADER_LENGTH + |p.value|);
  }

  /** The bytes after an add: what stood before the place, the entry, what stood after. */
  lemma AddedBytes(s: seq<byte>, at: nat, p: Param)
    requires Fits(s, at, p)
    ensures var n := InfoLength(s);
            Added(s, at, p)[MSG_INFO..MSG_INFO + n + PARAM_HEADER_LENGTH + |p.value|]
            == s[MSG_INFO..at] + Entry(p) + s[at..MSG_INFO + n]
  {
    WithEntryWrites(Shifted(s, at, |p.value|, MSG_INFO + InfoLength(s)), at, p);
    hide Entry, WithEntry, InfoLength;
  }

  lemma InsertedBody(ps: seq<Param>, p: Param)
    requires Sized(ps) && |p.value| < 0x1_0000
    ensures var k := PlaceFor(ps, p.code);
            && Sized(Inserted(ps, p))
            && Body(Inserted(ps, p)) == Body(ps[..k]) + Entry(p) + Body(ps[k..])
  {
    var k, r := PlaceFor(ps, p.code), Inserted(ps, p);
    BodySplits(r, k);
    assert r[..k] == ps[..k] && r[k..] == [p] + ps[k..];
    BodyOf([p] + ps[k..]);
    assert ([p] + ps[k..])[1..] == ps[k..];
    Assoc(Body(ps[..k]), Entry(p), Body(ps[k..]));
  }

  /** The stored list around entry `k`. */
  lemma AroundEntry(s: seq<byte>, ps: seq<Param>, k: nat)
    requires Terminated(s, ps) && k <= |ps|
    ensures var at := MSG_INFO + At(ps, k);
            && at + 2 <= MSG_INFO + InfoLength(s) <= |s|
            && s[MSG_INFO..at] == Body(ps[..k])
            && s[at..MSG_INFO + InfoLength(s)] == Body(ps[k..]) + END
  {
    BodySplits(ps, k);
    var x, y, n := Body(ps[..k]), Body(ps[k..]), InfoLength(s);
    hide Body;
    Assoc(x, y, END);
    var w := s[MSG_INFO..MSG_INFO + n];
    assert w == x + (y + END);
    SubSlice(s, MSG_INFO, MSG_INFO + n, 0, |x|);
    SubSlice(s, MSG_INFO, MSG_INFO + n, |x|, n);
  }

  lemma EncodeInserted(ps: seq<Param>, p: Param)
    requires Sized(ps) && |p.value| < 0x1_0000
    ensures var k := PlaceFor(ps, p.code);
            && Sized(Inserted(ps, p))
            && Encode(Inserted(ps, p)) == Body(ps[..k]) + Entry(p) + (Body(ps[k..]) + END)
  {
    var k := PlaceFor(ps, p.code);
    InsertedBody(ps, p);
    Assoc(Body(ps[..k]) + Entry(p), Body(ps[k..]), END);
  }

  /** AddParam's writes make the message hold the list with the parameter inserted. */
  lemma AddedHolds(s: seq<byte>, ps: seq<Param>, p: Param)
    requires Terminated(s, ps)
    requires Fits(s, MSG_INFO + At(ps, PlaceFor(ps, p.code)), p)
    ensures Terminated(Added(s, MSG_INFO + At(ps, PlaceFor(ps, p.code)), p), Inserted(ps, p))
  {
    hide Body, Entry, Added, PlaceFor, Inserted, Encode, InfoLength;
    var k := PlaceFor(ps, p.code);
    var at := MSG_INFO + At(ps, k);
    AroundEntry(s, ps, k);
    AddedBytes(s, at, p);
    AddedLength(s, at, p);
    EncodeInserted(ps, p);
  }

  // ---------- reading ----------

  /** The first entry of the code from entry `j` on. */
  function NextOf(ps: seq<Param>, code: uint16, j: nat): (f: nat)
    requires j <= |ps|
    ensures j <= f <= |ps| && (f < |ps| ==> ps[f].code == code)
    ensures forall i :: j <= i < f ==> ps[i].code != code
    decreases |ps| - j
  {
    if j == |ps| || ps[j].code == code then j else NextOf(ps, code, j + 1)
  }

  lemma {:induction false} NextOfSkips(ps: seq<Param>, code: uint16, j: nat, k: nat)
    requires j <= k <= |ps| && forall i :: j <= i < k ==> ps[i].code != code
    ensures NextOf(ps, code, j) == NextOf(ps, code, k)
    decreases k - j
  {
    if j < k {
      NextOfSkips(ps, code, j + 1, k);
    }
  }

  /** Looking for the next one again and again goes through exactly the entries of the code. */
  lemma {:induction false} OfCodeFrom(ps: seq<Param>, code: uint16, j: nat)
    requires j <= |ps|
    ensures var f := NextOf(ps, code, j);
            OfCode(ps[j..], code) == if f == |ps| then [] else [ps[f]] + OfCode(ps[f + 1..], code)
    decreases |ps| - j
  {
    if j < |ps| {
      assert ps[j..][1..] == ps[j + 1..];
      if ps[j].code != code {
        OfCodeFrom(ps, code, j + 1);
      }
    }
  }

  function Values(ps: seq<Param>): (r: seq<seq<byte>>)
    ensures |r| == |ps|
    ensures forall i :: 0 <= i < |r| ==> r[i] == ps[i].value
  {
    if ps == [] then [] else [ps[0].value] + Values(ps[1..])
  }

  /** `values` are those of the code that stand before entry `j`. */
  predicate Collected(ps: seq<Param>, code: uint16, j: nat, values: seq<seq<byte>>) {
    j <= |ps| && values + Values(OfCode(ps[j..], code)) == Values(OfCode(ps, code))
  }

  lemma CollectNone(ps: seq<Param>, code: uint16)
    ensures Collected(ps, code, 0, [])
  {
    assert ps[0..] == ps;
  }

  lemma ValuesCons(p: Param, rest: seq<Param>)
    ensures Values([p] + rest) == [p.value] + Values(rest)
  {
    assert ([p] + rest)[1..] == rest;
  }

  lemma CollectOne(ps: seq<Param>, code: uint16, j: nat, values: seq<seq<byte>>)
    requires Collected(ps, code, j, values) && NextOf(ps, code, j) < |ps|
    ensures var f := NextOf(ps, code, j); Collected(ps, code, f + 1, values + [ps[f].value])
  {
    hide OfCode, Values;
    var f := NextOf(ps, code, j);
    OfCodeFrom(ps, code, j);
    var rest := OfCode(ps[f + 1..], code);
    ValuesCons(ps[f], rest);
    Assoc(values, [ps[f].value], Values(rest));
  }

  lemma CollectEnds(ps: seq<Param>, code: uint16, j: nat, values: seq<seq<byte>>)
    requires Collected(ps, code, j, values) && NextOf(ps, code, j) == |ps|
    ensures values == Values(OfCode(ps, code))
  {
    OfCodeFrom(ps, code, j);
    assert values + [] == values;
  }

  // ---------- the interface ----------

  /** memmove and memcpy within a buffer. */
  method Move(a: array<byte>, to: nat, from: nat, n: nat)
    requires to + n <= a.Length && from + n <= a.Length
    modifies a
    ensures a[..] == Overwrite(old(a[..]), to, old(a[from..from + n]))
  {
    forall i | 0 <= i < n {
      a[to + i] := a[from + i];
    }
  }

  method CopyIn(a: array<byte>, to: nat, v: seq<byte>)
    requires to + |v| <= a.Length
    modifies a
    ensures a[..] == Overwrite(old(a[..]), to, v)
  {
    forall i | 0 <= i < |v| {
      a[to + i] := v[i];
    }
  }

  class StdMsg {
    var currentOffset: nat
    var currentMessage: array?<byte>
    var newMessage: array?<byte>

    constructor ()
      ensures currentOffset == 0 && currentMessage == null && newMessage == null
    {
      currentOffset, currentMessage, newMessage := 0, null, null;
    }

    method SetENDOfParams()
      requires newMessage != null && MSG_HEADER_LENGTH <= newMessage.Length
      requires MSG_INFO + InfoLength(newMessage[..]) + 2 <= newMessage.Length
      modifies newMessage
      ensures newMessage[..] == WithEnd(old(newMessage[..]))
    {
      var n := GetUint16(newMessage, MSG_LENGTH);
      SetUint16(newMessage, MSG_INFO + n, 0);
      SetUint16(newMessage, MSG_LENGTH, (GetUint16(newMessage, MSG_LENGTH) + PARAM_LENGTH_OFFSET) % 0x1_0000);
    }

    /** Where a parameter goes; an empty message gets its terminator on the way. The walk
        stays inside the stored length, as the source asserts. */
    method FindParamPlace(code: uint16, ghost ps: seq<Param>) returns (tmp: nat)
      requires newMessage != null && MessageOf(newMessage[..], ps)
      requires MSG_INFO + |Encode(ps)| <= newMessage.Length
      modifies `currentOffset, newMessage
      ensures Terminated(newMessage[..], ps)
      ensures newMessage[..MSG_LENGTH] == old(newMessage[..MSG_LENGTH])
      ensures currentOffset == At(ps, PlaceFor(ps, code)) && tmp == MSG_INFO + currentOffset
    {
      hide Stands, Terminated;
      var length := GetUint16(newMessage, MSG_LENGTH);
      tmp := MSG_INFO;
      currentOffset := 0;
      if length == 0 {
        NothingInEmpty(newMessage[..], ps);
        WithEndTerminates(newMessage[..], []);
        SetENDOfParams();
      }
      ghost var s, k := newMessage[..], 0;
      Starts(s, ps, 0);
      while GetUint16(newMessage, tmp) != 0
        invariant newMessage[..] == s && k <= |ps|
        invariant Stands(s, ps, k, currentOffset) && tmp == MSG_INFO + currentOffset
        invariant tmp + 2 <= newMessage.Length
        invariant forall i :: 0 <= i < k ==> ps[i].code <= code
        decreases |ps| - k
      {
        ghost var next := WalkOn(s, ps, k, currentOffset);
        if GetUint16(newMessage, tmp) > code {
          PlaceReached(s, ps, code, k, currentOffset);
          return;
        }
        currentOffset := currentOffset + GetUint16(newMessage, tmp + PARAM_LENGTH_OFFSET) + PARAM_HEADER_LENGTH;
        tmp := tmp + GetUint16(newMessage, tmp + PARAM_LENGTH_OFFSET) + PARAM_HEADER_LENGTH;
        k := k + 1;
        assert currentOffset < InfoLength(s);
      }
      WalkEnds(s, ps, k, currentOffset);
      PlaceReached(s, ps, code, k, currentOffset);
    }

    /** AddParam: the message then holds the list with the parameter inserted. */
    method AddParam(code: uint16, value: seq<byte>, ghost ps: seq<Param>)
      requires newMessage != null && MessageOf(newMessage[..], ps)
      requires MSG_INFO + |Encode(ps)| + PARAM_HEADER_LENGTH + |value| <= newMessage.Length
      requires |Encode(ps)| + PARAM_HEADER_LENGTH + |value| < 0x1_0000
      modifies `currentOffset, newMessage
      ensures Terminated(newMessage[..], Inserted(ps, Param(code, value)))
      ensures newMessage[..MSG_LENGTH] == old(newMessage[..MSG_LENGTH])
      ensures currentOffset == At(ps, PlaceFor(ps, code))
    {
      hide Body, Stands, Inserted, Added;
      var tmp := FindParamPlace(code, ps);
      ghost var s := newMessage[..];
      var p := Param(code, value);
      AroundEntry(s, ps, PlaceFor(ps, code));
      AddedHolds(s, ps, p);
      AddedLength(s, tmp, p);
      var n := GetUint16(newMessage, MSG_LENGTH);
      Write(tmp, n, p);
    }

    /** The writes of AddParam. */
    method Write(tmp: nat, n: uint16, p: Param)
      requires newMessage != null && Fits(newMessage[..], tmp, p) && n == InfoLength(newMessage[..])
      modifies newMessage
      ensures newMessage[..] == Added(old(newMessage[..]), tmp, p)
    {
      hide Overwrite, Put16;
      ghost var s := newMessage[..];
      assert newMessage[tmp..tmp + (MSG_INFO + n - tmp)] == s[tmp..MSG_INFO + n];
      Move(newMessage, tmp + |p.value| + PARAM_HEADER_LENGTH, tmp, MSG_INFO + n - tmp);
      assert newMessage[..] == Shifted(s, tmp, |p.value|, MSG_INFO + n);
      SetUint16(newMessage, tmp, p.code);
      SetUint16(newMessage, tmp + PARAM_LENGTH_OFFSET, |p.value|);
      CopyIn(newMessage, tmp + PARAM_HEADER_LENGTH, p.value);
      SetUint16(newMessage, MSG_LENGTH, n + |p.value| + PARAM_HEADER_LENGTH);
    }

    /** FindParam from a cursor that stands before entry `j`. Found, the cursor stands behind
        the entry; not found, it is back at zero. */
    method FindParam(code: uint16, startOffset: nat, ghost ps: seq<Param>, ghost j: nat)
      returns (found: bool, tmp: nat)
      requires currentMessage != null && MessageOf(currentMessage[..], ps)
      requires j <= |ps| && startOffset == At(ps, j)
      modifies `currentOffset
      ensures found <==> NextOf(ps, code, j) < |ps|
      ensures found ==>
                var f := NextOf(ps, code, j);
                tmp == MSG_INFO + At(ps, f) && currentOffset == At(ps, f + 1)
      ensures !found ==> currentOffset == 0
    {
      hide Stands, Terminated, At;
      currentOffset := startOffset;
      tmp := MSG_INFO + startOffset;
      var length := GetUint16(currentMessage, MSG_LENGTH) + MSG_HEADER_LENGTH;
      if length == MSG_HEADER_LENGTH {
        NothingInEmpty(currentMessage[..], ps);
        return false, tmp;
      }
      ghost var s, k := currentMessage[..], j;
      Starts(s, ps, k);
      while GetUint16(currentMessage, tmp) != 0
        invariant j <= k <= |ps|
        invariant Stands(s, ps, k, currentOffset) && tmp == MSG_INFO + currentOffset
        invariant tmp + 2 <= currentMessage.Length
        invariant forall i :: j <= i < k ==> ps[i].code != code
        decreases |ps| - k
      {
        ghost var next := WalkOn(s, ps, k, currentOffset);
        currentOffset := currentOffset + GetUint16(currentMessage, tmp + PARAM_LENGTH_OFFSET) + PARAM_HEADER_LENGTH;
        if GetUint16(currentMessage, tmp) == code {
          NextReached(s, ps, code, j, k, tmp - MSG_INFO, currentOffset);
          return true, tmp;
        }
        tmp := tmp + GetUint16(currentMessage, tmp + PARAM_LENGTH_OFFSET) + PARAM_HEADER_LENGTH;
        k := k + 1;
        assert currentOffset < length;
      }
      WalkEnds(s, ps, k, currentOffset);
      NextOfSkips(ps, code, j, k);
      currentOffset := 0;
      return false, tmp;
    }

    /** GetParam with a length: the first entry of the code. */
    method GetParam(code: uint16, ghost ps: seq<Param>) returns (r: Option<seq<byte>>)
      requires currentMessage != null && MessageOf(currentMessage[..], ps)
      modifies `currentOffset
      ensures var f := NextOf(ps, code, 0);
              && r == (if f < |ps| then Some(ps[f].value) else None)
              && currentOffset == if f < |ps| then At(ps, f + 1) else 0
    {
      var found, tmp := FindParam(code, 0, ps, 0);
      r := Read(found, tmp, ps, NextOf(ps, code, 0));
    }

    /** GetNextParam: the next entry of the code behind the cursor. */
    method GetNextParam(code: uint16, ghost ps: seq<Param>, ghost j: nat) returns (r: Option<seq<byte>>)
      requires currentMessage != null && MessageOf(currentMessage[..], ps)
      requires j <= |ps| && currentOffset == At(ps, j)
      modifies `currentOffset
      ensures var f := NextOf(ps, code, j);
              && r == (if f < |ps| then Some(ps[f].value) else None)
              && currentOffset == if f < |ps| then At(ps, f + 1) else 0
    {
      var found, tmp := FindParam(code, currentOffset, ps, j);
      r := Read(found, tmp, ps, NextOf(ps, code, j));
    }

    /** The value behind the pointer that FindParam returned. */
    method Read(found: bool, tmp: nat, ghost ps: seq<Param>, ghost f: nat) returns (r: Option<seq<byte>>)
      requires currentMessage != null && MessageOf(currentMessage[..], ps)
      requires found ==> f < |ps| && tmp == MSG_INFO + At(ps, f)
      ensures r == if found then Some(ps[f].value) else None
    {
      hide Terminated, Sized, Coded, At, Encode;
      if !found {
        return None;
      }
      ListOf(currentMessage[..], ps);
      hide MessageOf, ListAt;
      EntryAt(currentMessage[..], MSG_INFO, ps, f);
      var n := GetUint16(currentMessage, tmp + PARAM_LENGTH_OFFSET);
      r := Some(currentMessage[tmp + PARAM_HEADER_LENGTH..tmp + PARAM_HEADER_LENGTH + n]);
    }

    /** A reader's loop: GetParam, then GetNextParam until there is none. It sees every entry
        of the code once, in list order, and leaves the cursor at zero. */
    method ReadAll(code: uint16, ghost ps: seq<Param>) returns (values: seq<seq<byte>>)
      requires currentMessage != null && MessageOf(currentMessage[..], ps)
      modifies `currentOffset
      ensures values == Values(OfCode(ps, code)) && currentOffset == 0
    {
      hide Terminated, At, Collected;
      values := [];
      CollectNone(ps, code);
      ghost var j := 0;
      var r := GetParam(code, ps);
      while r.Some?
        invariant MessageOf(currentMessage[..], ps) && Sized(ps) && j <= |ps|
        invariant var f := NextOf(ps, code, j);
                  && r == (if f < |ps| then Some(ps[f].value) else None)
                  && currentOffset == if f < |ps| then At(ps, f + 1) else 0
        invariant Collected(ps, code, j, values)
        decreases |ps| - j
      {
        CollectOne(ps, code, j, values);
        values := values + [r.value];
        j := NextOf(ps, code, j) + 1;
        r := GetNextParam(code, ps, j);
      }
      CollectEnds(ps, code, j, values);
    }
  }

  lemma NothingInEmpty(s: seq<byte>, ps: seq<Param>)
    requires MessageOf(s, ps) && InfoLength(s) == 0
    ensures ps == [] && At(ps, 0) == 0
  {
  }

  lemma PlaceReached(s: seq<byte>, ps: seq<Param>, code: uint16, k: nat, offset: nat)
    requires Stands(s, ps, k, offset)
    requires (forall i :: 0 <= i < k ==> ps[i].code <= code) && (k < |ps| ==> ps[k].code > code)
    ensures offset == At(ps, PlaceFor(ps, code))
  {
    PlaceForIs(ps, code, k);
  }

  lemma NextReached(s: seq<byte>, ps: seq<Param>, code: uint16, j: nat, k: nat, offset: nat, next: nat)
    requires Stands(s, ps, k, offset) && Stands(s, ps, k + 1, next)
    requires j <= k < |ps| && ps[k].code == code && (forall i :: j <= i < k ==> ps[i].code != code)
    ensures NextOf(ps, code, j) == k && offset == At(ps, k) && next == At(ps, k + 1)
  {
    NextOfSkips(ps, code, j, k);
  }

  /** A walk over the list stands before entry `k`, or at the terminator. */
  predicate Stands(s: seq<byte>, ps: seq<Param>, k: nat, offset: nat) {
    Terminated(s, ps) && k <= |ps| && offset == At(ps, k)
  }

  lemma Starts(s: seq<byte>, ps: seq<Param>, k: nat)
    requires Terminated(s, ps) && k <= |ps|
    ensures Stands(s, ps, k, At(ps, k)) && MSG_INFO + At(ps, k) + 2 <= |s|
    ensures At(ps, 0) == 0
  {
    AtWithin(ps, k);
  }

  /** One step of a walk: the next entry is within the stored length. */
  lemma WalkOn(s: seq<byte>, ps: seq<Param>, k: nat, offset: nat) returns (next: nat)
    requires Stands(s, ps, k, offset)
    requires MSG_INFO + offset + 2 <= |s| && Word16(s, MSG_INFO + offset) != 0
    ensures k < |ps| && MSG_INFO + offset + PARAM_HEADER_LENGTH <= |s|
    ensures Word16(s, MSG_INFO + offset) == ps[k].code
    ensures next == offset + Word16(s, MSG_INFO + offset + PARAM_LENGTH_OFFSET) + PARAM_HEADER_LENGTH
    ensures Stands(s, ps, k + 1, next) && next < InfoLength(s) && MSG_INFO + next + 2 <= |s|
  {
    AtWithin(ps, k);
    if k == |ps| {
      TerminatorAt(s, MSG_INFO, ps);
    } else {
      EntryAt(s, MSG_INFO, ps, k);
      AtNext(ps, k);
      AtWithin(ps, k + 1);
    }
    next := At(ps, k + 1);
  }

  lemma WalkEnds(s: seq<byte>, ps: seq<Param>, k: nat, offset: nat)
    requires Stands(s, ps, k, offset) && Coded(ps)
    requires MSG_INFO + offset + 2 <= |s| && Word16(s, MSG_INFO + offset) == 0
    ensures k == |ps|
  {
    if k < |ps| {
      EntryAt(s, MSG_INFO, ps, k);
    }
  }
}
