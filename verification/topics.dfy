/** The topic store of ChAuto.cpp: texts of the form NAME ':' data, looked up by SUB and
    listed by LIST. What is sent of a record stops at the end mark '`'. */
module Topics {
  import opened Sequences

  const MARK: char := '`'
  const NUL: char := '\0'

  type CString = s: string | NUL !in s witness ""

  /** `tail` is the end mark and whatever stands behind it; a record may have none. */
  datatype Topic = Topic(name: CString, data: CString, tail: CString)

  predicate WellFormed(t: Topic) {
    && ':' !in t.name && MARK !in t.name && MARK !in t.data
    && (t.tail == "" || t.tail[0] == MARK) && t.data + t.tail != ""
  }

  function Text(t: Topic): string {
    t.name + ":" + t.data + t.tail
  }

  /** The record up to its end mark. */
  function Record(t: Topic): string {
    t.name + ":" + t.data
  }

  predicate Stored(texts: seq<string>, ts: seq<Topic>) {
    |texts| == |ts| && forall i :: 0 <= i < |ts| ==> WellFormed(ts[i]) && texts[i] == Text(ts[i])
  }

  predicate IsPrefix(x: string, y: string) {
    |x| <= |y| && forall i :: 0 <= i < |x| ==> x[i] == y[i]
  }

  /** The longest common prefix. */
  function Common(x: string, y: string): (r: string)
    ensures IsPrefix(r, x) && IsPrefix(r, y)
    ensures |r| < |x| && |r| < |y| ==> x[|r|] != y[|r|]
  {
    if x == "" || y == "" || x[0] != y[0] then "" else [x[0]] + Common(x[1..], y[1..])
  }

  /** Once a record is being copied, copying goes on into the next records up to an end mark. */
  function Copied(ts: seq<Topic>): string {
    if ts == [] then ""
    else if ts[0].tail != "" then Record(ts[0])
    else Record(ts[0]) + Copied(ts[1..])
  }

  /** What SUB answers: the first record whose name begins the requested topic, and what is
      copied behind it; in front of it, or of the end mark, what the records before it had in
      common with the topic. */
  function Lookup(ts: seq<Topic>, topic: string): string {
    if ts == [] then [MARK]
    else if IsPrefix(ts[0].name, topic) then Copied(ts) + [MARK]
    else Common(ts[0].name, topic) + Lookup(ts[1..], topic)
  }

  // ---------- the loop of FSM_Ch_Share_Topic_Data ----------

  /** A character of a C string. */
  function CharAt(s: string, k: nat): char {
    if k < |s| then s[k] else NUL
  }

  lemma TakeCons(x: string, j: nat)
    requires 0 < j <= |x|
    ensures x[..j] == [x[0]] + x[1..][..j - 1]
  {
  }

  lemma {:induction false} CommonUpTo(x: string, y: string, j: nat)
    requires j <= |x| && j <= |y| && (forall i :: 0 <= i < j ==> x[i] == y[i])
    requires j == |x| || j == |y| || x[j] != y[j]
    ensures Common(x, y) == x[..j]
    decreases j
  {
    hide IsPrefix;
    if j > 0 {
      CommonUpTo(x[1..], y[1..], j - 1);
      TakeCons(x, j);
    }
  }

  lemma CommonIs(x: string, y: string, j: nat)
    requires j < |x| && j <= |y| && (forall i :: 0 <= i < j ==> x[i] == y[i])
    requires j == |y| || x[j] != y[j]
    ensures Common(x, y) == x[..j] && !IsPrefix(x, y)
  {
    CommonUpTo(x, y, j);
  }

  lemma TextChars(t: Topic)
    requires WellFormed(t)
    ensures var s, n, m := Text(t), |t.name|, |Record(t)|;
            && n < m <= |s| && s[..m] == Record(t)
            && (forall j :: 0 <= j < n ==> s[j] == t.name[j] && s[j] != ':' && s[j] != MARK && s[j] != NUL)
            && s[n] == ':'
            && (forall j :: n < j < m ==> s[j] != MARK)
            && (m < |s| <==> t.tail != "") && (m < |s| ==> s[m] == MARK)
  {
    assert Text(t) == Record(t) + t.tail;
  }

  /** One record: the inner loop. `finished` once a name has been found; `done` when the
      record was copied to its end mark. */
  method CopyRecord(text: string, topic: string, onTopicData: string, was: bool, ghost t: Topic)
    returns (out: string, finished: bool, done: bool)
    requires WellFormed(t) && text == Text(t)
    ensures finished <==> was || IsPrefix(t.name, topic)
    ensures done <==> finished && t.tail != ""
    ensures out == onTopicData + (if finished then Record(t) else Common(t.name, topic))
  {
    hide Record, Text, Common;
    TextChars(t);
    out, finished, done := onTopicData, was, false;
    ghost var m := |Record(t)|;
    var eq, j, k := true, 0, 0;
    while j < |text|
      invariant j <= m
      invariant !done && eq
      invariant finished <==> was || j > |t.name|
      invariant !was && j <= |t.name| ==> k == j && k <= |topic|
      invariant !was ==> var i := if j < |t.name| then j else |t.name|;
                i <= |topic| && forall x :: 0 <= x < i ==> text[x] == topic[x]
      invariant out == onTopicData + text[..j]
      decreases |text| - j
    {
      if text[j] != ':' && !finished {
        k := k + 1;
        if text[j] != CharAt(topic, k - 1) {
          eq := false;
          k := 0;
          CommonIs(t.name, topic, j);
          assert text[..j] == t.name[..j];
          break;
        } else {
          eq := true;
        }
      } else if text[j] == ':' {
        eq := true;
        finished := true;
      }
      if eq {
        if text[j] == MARK {
          done := true;
          break;
        }
        out := out + [text[j]];
      }
      j := j + 1;
    }
  }

  /** FSM_Ch_Share_Topic_Data: the text that is sent. */
  method ShareTopicData(allServerData: seq<string>, topic: string, ghost ts: seq<Topic>) returns (onTopicData: string)
    requires Stored(allServerData, ts)
    ensures onTopicData == Lookup(ts, topic)
  {
    hide WellFormed, Text, Lookup, Copied;
    onTopicData := "";
    var i, finished, done := 0, false, false;
    SendNone(ts, topic);
    while i < |allServerData|
      invariant i <= |ts| && !done
      invariant onTopicData + ToSend(ts[i..], topic, finished) == Lookup(ts, topic)
      decreases |ts| - i
    {
      ghost var was, before := onTopicData, finished;
      onTopicData, finished, done := CopyRecord(allServerData[i], topic, onTopicData, finished, ts[i]);
      SendStep(ts, topic, i, was, before);
      if done {
        break;
      }
      i := i + 1;
    }
    onTopicData := onTopicData + [MARK];
  }

  /** What is still to be sent of the records `ts`. */
  function ToSend(ts: seq<Topic>, topic: string, finished: bool): string {
    if finished then Copied(ts) + [MARK] else Lookup(ts, topic)
  }

  lemma SendNone(ts: seq<Topic>, topic: string)
    ensures "" + ToSend(ts[0..], topic, false) == Lookup(ts, topic)
    ensures ToSend([], topic, true) == ToSend([], topic, false) == [MARK]
    ensures ts[|ts|..] == []
  {
    assert ts[0..] == ts;
  }

  lemma SendStep(ts: seq<Topic>, topic: string, i: nat, was: string, finished: bool)
    requires i < |ts|
    ensures var t := ts[i];
            var now := finished || IsPrefix(t.name, topic);
            var out := was + (if now then Record(t) else Common(t.name, topic));
            was + ToSend(ts[i..], topic, finished)
            == if now && t.tail != "" then out + [MARK] else out + ToSend(ts[i + 1..], topic, now)
  {
    hide Record, Common, IsPrefix;
    var t := ts[i];
    assert ts[i..][0] == t && ts[i..][1..] == ts[i + 1..];
    if finished || IsPrefix(t.name, topic) {
      Assoc(was, Record(t), [MARK]);
      Assoc(Record(t), Copied(ts[i + 1..]), [MARK]);
      Assoc(was, Record(t), Copied(ts[i + 1..]) + [MARK]);
    } else {
      Assoc(was, Common(t.name, topic), Lookup(ts[i + 1..], topic));
    }
  }

  // ---------- what the answers are worth ----------

  predicate SharesFirst(t: Topic, topic: string) {
    t.name != "" && topic != "" && t.name[0] == topic[0]
  }

  predicate DistinctFirst(ts: seq<Topic>) {
    forall i, j :: 0 <= i < j < |ts| && ts[i].name != "" && ts[j].name != "" ==> ts[i].name[0] != ts[j].name[0]
  }

  /** The record found: the first whose name begins the topic. */
  predicate Hit(ts: seq<Topic>, topic: string, h: nat) {
    && h < |ts| && IsPrefix(ts[h].name, topic)
    && forall i :: 0 <= i < h ==> !IsPrefix(ts[i].name, topic)
  }

  lemma CommonEmptyIff(x: string, y: string)
    ensures Common(x, y) == "" <==> (x == "" || y == "" || x[0] != y[0])
  {
  }

  lemma CopiedLength(ts: seq<Topic>, h: nat)
    requires h < |ts|
    ensures |Copied(ts[h..])| >= |Record(ts[h])|
    ensures Copied(ts[h..]) == Record(ts[h]) <==> Closed(ts, h)
  {
    hide Record;
    assert ts[h..][0] == ts[h] && ts[h..][1..] == ts[h + 1..];
    if !Closed(ts, h) {
      assert ts[h + 1..][0] == ts[h + 1];
      assert |Record(ts[h + 1])| >= 1 by { RecordLength(ts[h + 1]); }
    }
  }

  lemma RecordLength(t: Topic)
    ensures |Record(t)| >= 1
  {
  }

  /** Copying ends with record `h`. */
  predicate Closed(ts: seq<Topic>, h: nat) {
    h < |ts| && (ts[h].tail != "" || h == |ts| - 1)
  }

  /** SUB answers with exactly the record it hits if and only if no earlier record shares
      its first letter with the topic, and the record has an end mark or is the last. */
  lemma {:induction false} LookupExactIff(ts: seq<Topic>, topic: string, h: nat)
    requires Hit(ts, topic, h)
    ensures Lookup(ts, topic) == Record(ts[h]) + [MARK]
            <==> Closed(ts, h) && forall i :: 0 <= i < h ==> !SharesFirst(ts[i], topic)
    ensures |Lookup(ts, topic)| >= |Record(ts[h])| + 1
  {
    hide Record, Copied, IsPrefix;
    if h == 0 {
      assert ts[0..] == ts;
      CopiedLength(ts, 0);
      SameEnds(Copied(ts), Record(ts[0]));
    } else {
      var rest := ts[1..];
      assert forall i :: 0 <= i < |rest| ==> rest[i] == ts[i + 1];
      assert Hit(rest, topic, h - 1);
      LookupExactIff(rest, topic, h - 1);
      CommonEmptyIff(ts[0].name, topic);
      assert Closed(rest, h - 1) <==> Closed(ts, h);
      HitNamed(ts, topic, h);
    }
  }

  /** `c` is all that `x` and `y` have in common from their first characters on. */
  predicate Longest(c: string, x: string, y: string) {
    IsPrefix(c, x) && IsPrefix(c, y) && (|c| < |x| && |c| < |y| ==> x[|c|] != y[|c|])
  }

  lemma LongestIs(c: string, x: string, y: string)
    requires Longest(c, x, y)
    ensures c == Common(x, y)
  {
    CommonUpTo(x, y, |c|);
    assert c == x[..|c|];
  }

  /** The whole answer, for any store: in front, for each of the `h` records before the one
      that is hit, or for all when none is, what its name has in common with the topic; then
      the record that is hit and what is copied behind it; then the end mark. */
  lemma {:induction false} LookupIs(ts: seq<Topic>, topic: string, h: nat, cs: seq<string>)
    requires h <= |ts| && |cs| == h && (h < |ts| ==> IsPrefix(ts[h].name, topic))
    requires forall i :: 0 <= i < h ==> !IsPrefix(ts[i].name, topic) && Longest(cs[i], ts[i].name, topic)
    ensures Lookup(ts, topic) == Flattened(cs) + Copied(ts[h..]) + [MARK]
    decreases h
  {
    hide Copied, IsPrefix, Longest;
    if h == 0 {
      assert ts[0..] == ts && "" + Copied(ts) == Copied(ts);
      assert Copied([]) == "" by { CopiedIs([], 0); }
    } else {
      LongestIs(cs[0], ts[0].name, topic);
      assert ts[1..][h - 1..] == ts[h..];
      LookupIs(ts[1..], topic, h - 1, cs[1..]);
      Assoc(cs[0], Flattened(cs[1..]) + Copied(ts[h..]), [MARK]);
      Assoc(cs[0], Flattened(cs[1..]), Copied(ts[h..]));
    }
  }

  function Records(ts: seq<Topic>): (r: seq<string>)
    ensures |r| == |ts| && forall i :: 0 <= i < |r| ==> r[i] == Record(ts[i])
  {
    seq(|ts|, i requires 0 <= i < |ts| => Record(ts[i]))
  }

  /** Copying takes the records up to the first that has an end mark, or all. */
  lemma {:induction false} CopiedIs(ts: seq<Topic>, n: nat)
    requires n <= |ts| && (forall i :: 0 <= i < n - 1 ==> ts[i].tail == "")
    requires if n == |ts| then true else n > 0 && ts[n - 1].tail != ""
    ensures Copied(ts) == Flattened(Records(ts[..n]))
    decreases n
  {
    hide Record;
    if ts != [] {
      assert Records(ts[..n])[0] == Record(ts[0]);
      assert Records(ts[..n])[1..] == Records(ts[1..][..n - 1]);
      if ts[0].tail == "" {
        CopiedIs(ts[1..], n - 1);
      } else {
        assert n == 1;
        assert Flattened(Records(ts[..1])) == Record(ts[0]) + "";
      }
    }
  }

  lemma SameEnds(x: string, y: string)
    ensures x + [MARK] == y + [MARK] <==> x == y
  {
    assert (x + [MARK])[..|x|] == x && (y + [MARK])[..|y|] == y;
  }

  lemma HitNamed(ts: seq<Topic>, topic: string, h: nat)
    requires Hit(ts, topic, h) && h > 0
    ensures ts[0].name != ""
  {
  }

  predicate Named(ts: seq<Topic>) {
    forall i :: 0 <= i < |ts| ==> ts[i].name != ""
  }

  /** On a store whose names differ in their first letters, SUB of a stored name answers
      with exactly that record if and only if it has an end mark or is the last. */
  lemma SubscribeStored(ts: seq<Topic>, h: nat)
    requires DistinctFirst(ts) && Named(ts) && h < |ts|
    ensures Lookup(ts, ts[h].name) == Record(ts[h]) + [MARK] <==> Closed(ts, h)
  {
    var topic := ts[h].name;
    forall i | 0 <= i < h
      ensures !IsPrefix(ts[i].name, topic) && !SharesFirst(ts[i], topic)
    {
      assert ts[i].name[0] != topic[0];
    }
    LookupExactIff(ts, topic, h);
  }

  lemma LookupEnds(ts: seq<Topic>, topic: string)
    ensures |Lookup(ts, topic)| >= 1
  {
  }

  /** A topic is answered by the end mark alone if and only if it shares its first letter with
      no record; a record without a name would be sent for every topic. */
  lemma {:induction false} SubscribeUnknown(ts: seq<Topic>, topic: string)
    ensures Lookup(ts, topic) == [MARK] <==> Named(ts) && forall i :: 0 <= i < |ts| ==> !SharesFirst(ts[i], topic)
  {
    hide Record, Copied;
    if ts != [] {
      SubscribeUnknown(ts[1..], topic);
      CommonEmptyIff(ts[0].name, topic);
      LookupEnds(ts[1..], topic);
      assert ts[0..] == ts;
      CopiedLength(ts, 0);
      RecordLength(ts[0]);
      assert forall i :: 1 <= i < |ts| ==> ts[i] == ts[1..][i - 1];
    }
  }

  predicate AllClosed(ts: seq<Topic>) {
    forall i :: 0 <= i < |ts| ==> Closed(ts, i)
  }

  /** On a store whose names differ in their first letters and whose records but the last have
      end marks, every answer fits a buffer that holds any one record. */
  lemma {:induction false} LookupFits(ts: seq<Topic>, topic: string, size: nat)
    requires forall i :: 0 <= i < |ts| ==> |Record(ts[i])| + 1 <= size
    requires DistinctFirst(ts) && Named(ts) && AllClosed(ts) && size >= 1
    ensures |Lookup(ts, topic)| <= size
  {
    hide Record, Copied;
    if ts != [] {
      assert forall i :: 0 <= i < |ts| - 1 ==> ts[1..][i] == ts[i + 1];
      if IsPrefix(ts[0].name, topic) {
        assert ts[0..] == ts;
        CopiedLength(ts, 0);
      } else if SharesFirst(ts[0], topic) {
        SubscribeUnknown(ts[1..], topic);
        CommonShort(ts[0], topic);
      } else {
        CommonEmptyIff(ts[0].name, topic);
        assert AllClosed(ts[1..]) by {
          forall i | 0 <= i < |ts| - 1
            ensures Closed(ts[1..], i)
          {
            assert Closed(ts, i + 1);
          }
        }
        LookupFits(ts[1..], topic, size);
      }
    }
  }

  lemma CommonShort(t: Topic, topic: string)
    ensures |Common(t.name, topic)| < |Record(t)|
  {
  }

  /** A text with one end mark, its last character. */
  predicate Ends(text: string) {
    text != "" && text[|text| - 1] == MARK && MARK !in text[..|text| - 1]
  }

  lemma EndsBehind(x: string, y: string)
    requires MARK !in x && Ends(y)
    ensures Ends(x + y)
  {
    assert (x + y)[..|x + y| - 1] == x + y[..|y| - 1];
  }

  lemma {:induction false} CopiedUnmarked(ts: seq<Topic>)
    requires forall i :: 0 <= i < |ts| ==> WellFormed(ts[i])
    ensures MARK !in Copied(ts)
  {
    if ts != [] {
      CopiedUnmarked(ts[1..]);
    }
  }

  /** Every answer to SUB ends with the one mark in it. */
  lemma {:induction false} LookupMarked(ts: seq<Topic>, topic: string)
    requires forall i :: 0 <= i < |ts| ==> WellFormed(ts[i])
    ensures Ends(Lookup(ts, topic))
  {
    if ts != [] {
      var c := Common(ts[0].name, topic);
      assert forall i :: 0 <= i < |c| ==> c[i] == ts[0].name[i];
      LookupMarked(ts[1..], topic);
      EndsBehind(c, Lookup(ts[1..], topic));
      CopiedUnmarked(ts);
      EndsBehind(Copied(ts), [MARK]);
    }
  }

  // ---------- LIST ----------

  function Listing(ts: seq<Topic>): string {
    if ts == [] then [MARK] else ts[0].name + "\n" + Listing(ts[1..])
  }

  /** One record: its name up to the colon, then a line break. */
  method CopyName(text: string, allTopicBuffer: string, ghost t: Topic) returns (out: string)
    requires WellFormed(t) && text == Text(t)
    ensures out == allTopicBuffer + (t.name + "\n")
  {
    TextChars(t);
    hide Text, Record;
    out := allTopicBuffer;
    var j := 0;
    while j < |text|
      invariant j <= |t.name| && out == allTopicBuffer + text[..j]
    {
      if text[j] == ':' {
        assert text[..j] == t.name;
        out := out + "\n";
        break;
      } else {
        out := out + [text[j]];
      }
      j := j + 1;
    }
  }

  /** FSM_Ch_Share_All_Topics: the text that is sent. */
  method ShareAllTopics(allServerData: seq<string>, ghost ts: seq<Topic>) returns (allTopicBuffer: string)
    requires Stored(allServerData, ts)
    ensures allTopicBuffer == Listing(ts)
  {
    allTopicBuffer := "";
    var i := 0;
    while i < |allServerData|
      invariant i <= |ts|
      invariant allTopicBuffer + Listing(ts[i..]) == Listing(ts)
    {
      ghost var was := allTopicBuffer;
      allTopicBuffer := CopyName(allServerData[i], allTopicBuffer, ts[i]);
      assert ts[i..][1..] == ts[i + 1..];
      assert was + (ts[i].name + "\n" + Listing(ts[i + 1..])) == was + (ts[i].name + "\n") + Listing(ts[i + 1..]);
      i := i + 1;
    }
    allTopicBuffer := allTopicBuffer + [MARK];
  }

  /** A client can read the listing back: it splits it at the line breaks up to the mark. */
  function Names(listing: string, name: string): seq<string>
    decreases |listing|
  {
    if listing == "" || listing[0] == MARK then []
    else if listing[0] == '\n' then [name] + Names(listing[1..], "")
    else Names(listing[1..], name + [listing[0]])
  }

  lemma {:induction false} NamesAfter(part: string, name: string, rest: string)
    requires '\n' !in part && MARK !in part
    ensures Names(part + "\n" + rest, name) == [name + part] + Names(rest, "")
    decreases |part|
  {
    var s := part + "\n" + rest;
    if part == "" {
      assert s == "\n" + rest && s[1..] == rest && name + part == name;
    } else {
      NamesAfter(part[1..], name + [part[0]], rest);
      assert s[1..] == part[1..] + "\n" + rest;
      assert name + [part[0]] + part[1..] == name + part;
    }
  }

  /** So does the answer to LIST. */
  lemma {:induction false} ListingMarked(ts: seq<Topic>)
    requires forall i :: 0 <= i < |ts| ==> WellFormed(ts[i])
    ensures Ends(Listing(ts))
  {
    if ts != [] {
      ListingMarked(ts[1..]);
      EndsBehind(ts[0].name + "\n", Listing(ts[1..]));
    }
  }

  /** LIST names every topic once, in store order. */
  lemma {:induction false} ListingNamesAll(ts: seq<Topic>)
    requires forall i :: 0 <= i < |ts| ==> WellFormed(ts[i]) && '\n' !in ts[i].name
    ensures |Names(Listing(ts), "")| == |ts|
    ensures forall i :: 0 <= i < |ts| ==> Names(Listing(ts), "")[i] == ts[i].name
  {
    if ts != [] {
      ListingNamesAll(ts[1..]);
      NamesAfter(ts[0].name, "", Listing(ts[1..]));
      assert "" + ts[0].name == ts[0].name;
    }
  }
}
