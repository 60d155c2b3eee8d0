/** The parameter list of stdMsgpc16pl16.cpp as bytes and as a value: entries of a 16-bit
    code, a 16-bit length and that many bytes, ended by a zero code. */
module Params {
  import opened Words
  import opened Sequences

  const PARAM_LENGTH_OFFSET := 2
  const PARAM_HEADER_LENGTH := 4
  const END: seq<byte> := [0, 0]

  datatype Param = Param(code: uint16, value: seq<byte>)

  predicate Sized(ps: seq<Param>) {
    forall i :: 0 <= i < |ps| ==> |ps[i].value| < 0x1_0000
  }

  /** A zero code would end the list. */
  predicate Coded(ps: seq<Param>) {
    forall i :: 0 <= i < |ps| ==> ps[i].code >= 1
  }

  function Entry(p: Param): (r: seq<byte>)
    requires |p.value| < 0x1_0000
    ensures |r| == PARAM_HEADER_LENGTH + |p.value|
  {
    Bytes16(p.code) + Bytes16(|p.value|) + p.value
  }

  /** The entries without the terminator, and with it. */
  function Body(ps: seq<Param>): (r: seq<byte>)
    requires Sized(ps)
    ensures |r| >= PARAM_HEADER_LENGTH * |ps|
  {
    if ps == [] then [] else Entry(ps[0]) + Body(ps[1..])
  }

  function Encode(ps: seq<Param>): (r: seq<byte>)
    requires Sized(ps)
    ensures |r| == |Body(ps)| + 2
  {
    Body(ps) + END
  }

  /** What a reader of the list finds, walking entry by entry from offset `at`; None if
      the walk leaves the bytes before it meets a zero code. */
  function Decode(s: seq<byte>, at: nat): Option<seq<Param>>
    decreases |s| - at
  {
    if at + 2 > |s| then None
    else if Word16(s, at) == 0 then Some([])
    else if at + PARAM_HEADER_LENGTH > |s| then None
    else
      var n := Word16(s, at + PARAM_LENGTH_OFFSET);
      var next := at + PARAM_HEADER_LENGTH + n;
      if next > |s| then None
      else
        match Decode(s, next)
        case None => None
        case Some(rest) => Some([Param(Word16(s, at), s[at + PARAM_HEADER_LENGTH..next])] + rest)
  }

  // ---------- the bytes of a list ----------

  lemma BodyOf(ps: seq<Param>)
    requires Sized(ps)
    ensures Body(ps) == if ps == [] then [] else Entry(ps[0]) + Body(ps[1..])
  {
  }

  lemma {:induction false} BodySplits(ps: seq<Param>, k: nat)
    requires Sized(ps) && k <= |ps|
    ensures Body(ps) == Body(ps[..k]) + Body(ps[k..])
  {
    hide Body, Entry;
    BodyOf(ps[..k]);
    if k > 0 {
      BodyOf(ps);
      BodySplits(ps[1..], k - 1);
      assert ps[..k][1..] == ps[1..][..k - 1];
      assert ps[k..] == ps[1..][k - 1..];
      Assoc(Entry(ps[0]), Body(ps[1..][..k - 1]), Body(ps[k..]));
    } else {
      assert ps[0..] == ps;
      assert [] + Body(ps) == Body(ps);
    }
  }

  lemma {:induction false} BodyStep(ps: seq<Param>, k: nat)
    requires Sized(ps) && k < |ps|
    ensures Body(ps[..k + 1]) == Body(ps[..k]) + Entry(ps[k])
    ensures Body(ps[k..]) == Entry(ps[k]) + Body(ps[k + 1..])
  {
    BodySplits(ps[..k + 1], k);
    assert ps[..k + 1][..k] == ps[..k];
    assert ps[..k + 1][k..] == [ps[k]];
    assert Body([ps[k]]) == Entry(ps[k]) by {
      assert [ps[k]][1..] == [];
    }
    assert ps[k..][1..] == ps[k + 1..];
  }

  /** Where entry `k` stands. */
  function At(ps: seq<Param>, k: nat): nat
    requires Sized(ps) && k <= |ps|
  {
    |Body(ps[..k])|
  }

  lemma AtNext(ps: seq<Param>, k: nat)
    requires Sized(ps) && k < |ps|
    ensures At(ps, k + 1) == At(ps, k) + PARAM_HEADER_LENGTH + |ps[k].value|
  {
    BodyStep(ps, k);
  }

  lemma AtWithin(ps: seq<Param>, k: nat)
    requires Sized(ps) && k <= |ps|
    ensures At(ps, k) <= |Body(ps)|
    ensures k == |ps| ==> At(ps, k) == |Body(ps)|
    ensures k < |ps| ==> At(ps, k) + PARAM_HEADER_LENGTH + |ps[k].value| <= |Body(ps)|
  {
    BodySplits(ps, k);
    if k < |ps| {
      BodyStep(ps, k);
    } else {
      assert ps[..k] == ps;
    }
  }

  /** The bytes at offset `at` of `s` are the list `ps`. */
  predicate ListAt(s: seq<byte>, at: nat, ps: seq<Param>) {
    Sized(ps) && at + |Encode(ps)| <= |s| && s[at..at + |Encode(ps)|] == Encode(ps)
  }

  /** What a reader at entry `k` sees. */
  lemma EntryAt(s: seq<byte>, at: nat, ps: seq<Param>, k: nat)
    requires ListAt(s, at, ps) && k < |ps|
    ensures var p := at + At(ps, k);
            && p + PARAM_HEADER_LENGTH + |ps[k].value| <= |s|
            && Word16(s, p) == ps[k].code && Word16(s, p + PARAM_LENGTH_OFFSET) == |ps[k].value|
            && s[p + PARAM_HEADER_LENGTH..p + PARAM_HEADER_LENGTH + |ps[k].value|] == ps[k].value
  {
    hide Body, Word16;
    AtWithin(ps, k);
    BodySplits(ps, k);
    BodyStep(ps, k);
    var o, e := At(ps, k), Entry(ps[k]);
    Middle(Body(ps[..k]), e, Body(ps[k + 1..]) + END);
    assert Encode(ps) == Body(ps[..k]) + e + (Body(ps[k + 1..]) + END);
    SubSlice(s, at, at + |Encode(ps)|, o, o + |e|);
    EntryRead(s, at + o, ps[k]);
  }

  lemma EntryRead(s: seq<byte>, at: nat, p: Param)
    requires |p.value| < 0x1_0000
    requires at + PARAM_HEADER_LENGTH + |p.value| <= |s|
    requires s[at..at + PARAM_HEADER_LENGTH + |p.value|] == Entry(p)
    ensures Word16(s, at) == p.code && Word16(s, at + PARAM_LENGTH_OFFSET) == |p.value|
    ensures s[at + PARAM_HEADER_LENGTH..at + PARAM_HEADER_LENGTH + |p.value|] == p.value
  {
    var e := Entry(p);
    assert e[0] == s[at] && e[1] == s[at + 1] && e[2] == s[at + 2] && e[3] == s[at + 3];
    assert e[4..] == p.value;
    SubSlice(s, at, at + |e|, 4, |e|);
  }

  lemma TerminatorAt(s: seq<byte>, at: nat, ps: seq<Param>)
    requires ListAt(s, at, ps)
    ensures at + |Body(ps)| + 2 <= |s| && Word16(s, at + |Body(ps)|) == 0
  {
    var w := s[at..at + |Encode(ps)|];
    assert w[|Body(ps)|] == 0 && w[|Body(ps)| + 1] == 0;
  }

  /** A reader finds the list that was written, when no code in it is zero. */
  lemma {:induction false} DecodeFrom(s: seq<byte>, at: nat, ps: seq<Param>, k: nat)
    requires ListAt(s, at, ps) && Coded(ps) && k <= |ps|
    ensures Decode(s, at + At(ps, k)) == Some(ps[k..])
    decreases |ps| - k
  {
    if k == |ps| {
      AtWithin(ps, k);
      TerminatorAt(s, at, ps);
      assert ps[k..] == [];
    } else {
      EntryAt(s, at, ps, k);
      AtNext(ps, k);
      DecodeFrom(s, at, ps, k + 1);
      hide At, Encode, Body;
      assert ps[k..] == [ps[k]] + ps[k + 1..];
    }
  }

  lemma DecodeOfList(s: seq<byte>, at: nat, ps: seq<Param>)
    requires ListAt(s, at, ps) && Coded(ps)
    ensures Decode(s, at) == Some(ps)
  {
    assert ps[..0] == [] && ps[0..] == ps;
    DecodeFrom(s, at, ps, 0);
  }

  /** Up to the first zero code the entries are found, and nothing after it. */
  lemma {:induction false} DecodeStopsAt(s: seq<byte>, at: nat, ps: seq<Param>, z: nat, k: nat)
    requires ListAt(s, at, ps) && k <= z < |ps| && ps[z].code == 0 && Coded(ps[..z])
    ensures Decode(s, at + At(ps, k)) == Some(ps[k..z])
    decreases z - k
  {
    EntryAt(s, at, ps, k);
    if k < z {
      assert ps[..z][k].code >= 1;
      AtNext(ps, k);
      DecodeStopsAt(s, at, ps, z, k + 1);
      hide At, Encode, Body;
      assert ps[k..z] == [ps[k]] + ps[k + 1..z];
    } else {
      assert ps[k..z] == [];
    }
  }

  // ---------- insertion ----------

  predicate Sorted(ps: seq<Param>) {
    forall i, j :: 0 <= i < j < |ps| ==> ps[i].code <= ps[j].code
  }

  /** FindParamPlace: the first entry with a greater code. */
  function PlaceFor(ps: seq<Param>, code: uint16): (k: nat)
    ensures k <= |ps|
    ensures forall i :: 0 <= i < k ==> ps[i].code <= code
    ensures k < |ps| ==> ps[k].code > code
  {
    if ps == [] || ps[0].code > code then 0 else 1 + PlaceFor(ps[1..], code)
  }

  lemma {:induction false} PlaceForIs(ps: seq<Param>, code: uint16, k: nat)
    requires k <= |ps| && (forall i :: 0 <= i < k ==> ps[i].code <= code) && (k < |ps| ==> ps[k].code > code)
    ensures PlaceFor(ps, code) == k
  {
    if k > 0 {
      PlaceForIs(ps[1..], code, k - 1);
    }
  }

  function Inserted(ps: seq<Param>, p: Param): (r: seq<Param>)
    ensures |r| == |ps| + 1
  {
    var k := PlaceFor(ps, p.code);
    ps[..k] + [p] + ps[k..]
  }

  function OfCode(ps: seq<Param>, code: uint16): seq<Param> {
    if ps == [] then []
    else IfCode(ps[0], code) + OfCode(ps[1..], code)
  }

  function IfCode(p: Param, code: uint16): seq<Param> {
    if p.code == code then [p] else []
  }

  lemma OfCodeOf(ps: seq<Param>, code: uint16)
    ensures OfCode(ps, code) == if ps == [] then [] else IfCode(ps[0], code) + OfCode(ps[1..], code)
  {
  }

  lemma {:induction false} OfCodeSplits(xs: seq<Param>, ys: seq<Param>, code: uint16)
    ensures OfCode(xs + ys, code) == OfCode(xs, code) + OfCode(ys, code)
  {
    hide OfCode, IfCode;
    OfCodeOf(xs, code);
    if xs == [] {
      assert xs + ys == ys;
      assert [] + OfCode(ys, code) == OfCode(ys, code);
    } else {
      OfCodeOf(xs + ys, code);
      OfCodeSplits(xs[1..], ys, code);
      assert (xs + ys)[1..] == xs[1..] + ys;
      Assoc(IfCode(xs[0], code), OfCode(xs[1..], code), OfCode(ys, code));
    }
  }

  lemma {:induction false} NoneOfCode(ps: seq<Param>, code: uint16)
    requires forall i :: 0 <= i < |ps| ==> ps[i].code != code
    ensures OfCode(ps, code) == []
  {
    if ps != [] {
      NoneOfCode(ps[1..], code);
    }
  }

  /** Insertion keeps the codes ascending and is stable: entries of one code stay in the
      order in which they were added, the new one last. */
  lemma InsertedIsStable(ps: seq<Param>, p: Param, code: uint16)
    requires Sorted(ps)
    ensures Sorted(Inserted(ps, p))
    ensures OfCode(Inserted(ps, p), code) == OfCode(ps, code) + IfCode(p, code)
  {
    InsertedSorted(ps, p);
    InsertedOfCode(ps, p, code);
  }

  lemma InsertedSorted(ps: seq<Param>, p: Param)
    requires Sorted(ps)
    ensures Sorted(Inserted(ps, p))
  {
    var k, r := PlaceFor(ps, p.code), Inserted(ps, p);
    assert forall i :: 0 <= i < |r| ==> r[i] == if i < k then ps[i] else if i == k then p else ps[i - 1];
  }

  lemma {:induction false} InsertedOfCode(ps: seq<Param>, p: Param, code: uint16)
    requires Sorted(ps)
    ensures OfCode(Inserted(ps, p), code) == OfCode(ps, code) + IfCode(p, code)
  {
    hide OfCode, PlaceFor;
    var k := PlaceFor(ps, p.code);
    assert ps == ps[..k] + ps[k..];
    OfCodeSplits(ps[..k], ps[k..], code);
    OfCodeSplits(ps[..k] + [p], ps[k..], code);
    OfCodeSplits(ps[..k], [p], code);
    OfCodeOne(p, code);
    if p.code == code {
      NoneOfCode(ps[k..], code);
    }
  }

  lemma OfCodeOne(p: Param, code: uint16)
    ensures OfCode([p], code) == IfCode(p, code)
  {
    assert [p][1..] == [];
  }

  /** A message built by adding `adds` one after the other. */
  function Built(adds: seq<Param>): seq<Param> {
    if adds == [] then [] else Inserted(Built(adds[..|adds| - 1]), adds[|adds| - 1])
  }

  /** Whatever the order of the adds, the message is sorted and holds the entries of each
      code in the order in which they were added. */
  lemma {:induction false} BuiltKeepsOrder(adds: seq<Param>, code: uint16)
    ensures Sorted(Built(adds))
    ensures OfCode(Built(adds), code) == OfCode(adds, code)
  {
    if adds != [] {
      var before, last := adds[..|adds| - 1], adds[|adds| - 1];
      BuiltKeepsOrder(before, code);
      InsertedIsStable(Built(before), last, code);
      assert adds == before + [last];
      OfCodeSplits(before, [last], code);
      OfCodeOne(last, code);
    }
  }

  /** Inserting is visible to a reader exactly when the code is not zero; a zero code goes
      to the front and hides the whole list. */
  lemma InsertVisibleIff(s: seq<byte>, at: nat, ps: seq<Param>, p: Param)
    requires Coded(ps) && ListAt(s, at, Inserted(ps, p))
    ensures Decode(s, at) == Some(Inserted(ps, p)) <==> p.code >= 1
    ensures p.code == 0 ==> Decode(s, at) == Some([])
  {
    var qs := Inserted(ps, p);
    if p.code >= 1 {
      DecodeOfList(s, at, qs);
    } else {
      assert PlaceFor(ps, 0) == 0 && qs[0] == p;
      assert qs[..0] == [] && qs[0..0] == [];
      DecodeStopsAt(s, at, qs, 0, 0);
    }
  }
}
