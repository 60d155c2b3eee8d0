/** A publication, PUB TOPIC data: the store gains a record, or a record gains the data. */
module Publications {
  import opened Sequences
  import opened Topics

  const SPACE: char := ' '
  const FIRST_LETTER_OF_TOPIC := 4

  // ---------- what is published ----------

  /** The topic is read up to a space, and what follows the space is the data; without a space
      reading goes on behind the request, and the data is what stands there. */
  function PubTopic(text: CString): CString {
    if |text| < FIRST_LETTER_OF_TOPIC then ""
    else text[FIRST_LETTER_OF_TOPIC..Find(text, SPACE, FIRST_LETTER_OF_TOPIC)]
  }

  function PubBody(text: CString, behind: CString): CString {
    if |text| < FIRST_LETTER_OF_TOPIC then behind
    else
      var i := Find(text, SPACE, FIRST_LETTER_OF_TOPIC);
      if i < |text| then text[i + 1..] else behind
  }

  /** Topic, space and data make up the request behind its first four characters. */
  lemma PublicationRead(text: CString, behind: CString)
    requires |text| >= FIRST_LETTER_OF_TOPIC
    ensures var topic, body, rest := PubTopic(text), PubBody(text, behind), text[FIRST_LETTER_OF_TOPIC..];
            && SPACE !in topic
            && (SPACE in rest ==> rest == topic + [SPACE] + body)
            && (SPACE !in rest ==> rest == topic && body == behind)
  {
    var i, rest := Find(text, SPACE, FIRST_LETTER_OF_TOPIC), text[FIRST_LETTER_OF_TOPIC..];
    assert rest[..i - FIRST_LETTER_OF_TOPIC] == PubTopic(text);
    if i < |text| {
      assert rest[i - FIRST_LETTER_OF_TOPIC] == SPACE;
    } else {
      assert forall k :: 0 <= k < |rest| ==> rest[k] == text[k + FIRST_LETTER_OF_TOPIC];
    }
  }

  /** A record is named by the capital letters that the topic begins with. */
  function Capitals(topic: CString): (r: CString)
    ensures IsPrefix(r, topic) && forall i :: 0 <= i < |r| ==> 'A' <= r[i] <= 'Z'
    ensures |r| < |topic| ==> !('A' <= topic[|r|] <= 'Z')
  {
    if topic == "" || !('A' <= topic[0] <= 'Z') then "" else [topic[0]] + Capitals(topic[1..])
  }

  /** The record of this name with `rest` behind its colon. */
  function Parsed(name: CString, rest: CString): (t: Topic)
    ensures Text(t) == name + ":" + rest
  {
    var k := Find(rest, MARK, 0);
    Topic(name, rest[..k], rest[k..])
  }

  function Entry(topic: CString, body: CString): Topic {
    Parsed(Capitals(topic), " " + body)
  }

  /** The last character of the record, meant to be its end mark, becomes a space; the data
      and an end mark follow, and then `stale`, what the array still held behind them. */
  function Amended(t: Topic, body: CString, stale: CString): Topic
    requires t.data + t.tail != ""
  {
    var rest := t.data + t.tail;
    Parsed(t.name, rest[..|rest| - 1] + " " + body + [MARK] + stale)
  }

  /** The record of this name, or the number of records. */
  function PlaceOf(ts: seq<Topic>, topic: string): (j: nat)
    ensures j <= |ts| && (j < |ts| ==> ts[j].name == topic)
    ensures forall i :: 0 <= i < j ==> ts[i].name != topic
  {
    if ts == [] || ts[0].name == topic then 0 else 1 + PlaceOf(ts[1..], topic)
  }

  function Published(ts: seq<Topic>, topic: CString, body: CString, stale: CString): seq<Topic>
    requires forall i :: 0 <= i < |ts| ==> WellFormed(ts[i])
  {
    var j := PlaceOf(ts, topic);
    if j == |ts| then ts + [Entry(topic, body)]
    else
      assert WellFormed(ts[j]);
      ts[j := Amended(ts[j], body, stale)]
  }

  lemma PublishedWellFormed(ts: seq<Topic>, topic: CString, body: CString, stale: CString)
    requires forall i :: 0 <= i < |ts| ==> WellFormed(ts[i])
    ensures var r := Published(ts, topic, body, stale); forall i :: 0 <= i < |r| ==> WellFormed(r[i])
  {
    EntryWellFormed(topic, body);
    var j := PlaceOf(ts, topic);
    if j < |ts| {
      AmendedWellFormed(ts[j], body, stale);
    }
    hide Entry, Amended;
  }

  lemma ParsedWellFormed(name: CString, rest: CString)
    requires ':' !in name && MARK !in name && rest != ""
    ensures WellFormed(Parsed(name, rest))
  {
    var k := Find(rest, MARK, 0);
    assert rest == rest[..k] + rest[k..];
  }

  lemma EntryWellFormed(topic: CString, body: CString)
    ensures WellFormed(Entry(topic, body))
  {
    ParsedWellFormed(Capitals(topic), " " + body);
    hide Parsed;
  }

  lemma AmendedWellFormed(t: Topic, body: CString, stale: CString)
    requires WellFormed(t)
    ensures WellFormed(Amended(t, body, stale))
  {
    var rest := t.data + t.tail;
    ParsedWellFormed(t.name, rest[..|rest| - 1] + " " + body + [MARK] + stale);
    hide Parsed;
  }

  // ---------- the loops of FSM_Ch_Store_Data_SubPub ----------

  /** getTopic. */
  method GetTopic(serverData: string, ghost t: Topic) returns (topic: string)
    requires WellFormed(t) && serverData == Text(t)
    ensures topic == t.name
  {
    TextChars(t);
    hide Text, Record;
    topic := "";
    var i := 0;
    while serverData[i] != ':'
      invariant i <= |t.name| && topic == serverData[..i]
      decreases |t.name| - i
    {
      topic := topic + [serverData[i]];
      i := i + 1;
    }
    assert serverData[..i] == t.name;
  }

  method FindTopic(allServerData: seq<string>, topic: string, ghost ts: seq<Topic>) returns (index: nat)
    requires Stored(allServerData, ts)
    ensures index == PlaceOf(ts, topic)
  {
    hide Text, WellFormed;
    index := 0;
    while index < |allServerData|
      invariant index <= |ts| && forall i :: 0 <= i < index ==> ts[i].name != topic
      decreases |ts| - index
    {
      var topicTmp := GetTopic(allServerData[index], ts[index]);
      if topicTmp == topic {
        break;
      }
      index := index + 1;
    }
  }

  /** The text of a new record. */
  method NewRecord(topic: CString, body: CString) returns (text: string)
    ensures text == Text(Entry(topic, body))
  {
    hide Text, Entry;
    text := "";
    var j := 0;
    while j < |topic|
      invariant j <= |Capitals(topic)| && text == topic[..j]
      decreases |topic| - j
    {
      if topic[j] < 'A' || topic[j] > 'Z' {
        break;
      }
      text := text + [topic[j]];
      j := j + 1;
    }
    assert text == Capitals(topic);
    text := text + ":" + " ";
    j := 0;
    while j < |body|
      invariant j <= |body| && text == Capitals(topic) + ":" + " " + body[..j]
    {
      text := text + [body[j]];
      j := j + 1;
    }
    assert body[..|body|] == body;
    EntryText(topic, body);
  }

  lemma EntryText(topic: CString, body: CString)
    ensures Text(Entry(topic, body)) == Capitals(topic) + ":" + " " + body
  {
    hide Parsed;
    assert Capitals(topic) + ":" + " " + body == Capitals(topic) + ":" + (" " + body);
  }

  /** The array that holds a record, whose text ends at its NUL; `stale` is what follows the
      end mark that is written. */
  method Append(text: string, body: CString, stale: CString, ghost t: Topic) returns (out: string)
    requires WellFormed(t) && text == Text(t)
    ensures out == Text(Amended(t, body, stale))
  {
    var n := |text|;
    out := text[..n - 1] + " ";
    ghost var kept := out;
    var m := 0;
    while m < |body|
      invariant m <= |body| && out == kept + body[..m]
    {
      out := out + [body[m]];
      m := m + 1;
    }
    assert body[..|body|] == body;
    out := out + [MARK] + stale;
    AmendedText(t, body, stale);
    hide Text, Amended;
  }

  lemma AmendedText(t: Topic, body: CString, stale: CString)
    requires WellFormed(t)
    ensures |Text(t)| > 0
    ensures Text(Amended(t, body, stale)) == Text(t)[..|Text(t)| - 1] + " " + body + [MARK] + stale
  {
    var rest := t.data + t.tail;
    var head := t.name + ":";
    assert Text(t) == head + rest;
    assert Text(t)[..|Text(t)| - 1] == head + rest[..|rest| - 1];
    hide Parsed;
    var more := rest[..|rest| - 1];
    assert head + (more + " " + body + [MARK] + stale) == head + more + " " + body + [MARK] + stale;
  }

  /** The branch for publishers: what is stored, and the topic it was stored under. */
  method StorePublication(allServerData: seq<string>, text: CString, behind: CString, stale: CString, ghost ts: seq<Topic>)
    returns (texts: seq<string>, currentTopic: CString)
    requires Stored(allServerData, ts)
    ensures currentTopic == PubTopic(text)
    ensures Stored(texts, Published(ts, PubTopic(text), PubBody(text, behind), stale))
  {
    hide Text, WellFormed, Entry, Amended;
    PublishedWellFormed(ts, PubTopic(text), PubBody(text, behind), stale);
    var body;
    currentTopic, body := ReadPublication(text, behind);
    var index := FindTopic(allServerData, currentTopic, ts);
    if index == |allServerData| {
      var record := NewRecord(currentTopic, body);
      texts := allServerData + [record];
    } else {
      var record := Append(allServerData[index], body, stale, ts[index]);
      texts := allServerData[index := record];
    }
  }

  method ReadPublication(text: CString, behind: CString) returns (topic: CString, body: CString)
    ensures topic == PubTopic(text) && body == PubBody(text, behind)
  {
    var i := FIRST_LETTER_OF_TOPIC;
    topic := "";
    if |text| < i {
      return topic, behind;
    }
    while i < |text| && text[i] != SPACE
      invariant FIRST_LETTER_OF_TOPIC <= i <= Find(text, SPACE, FIRST_LETTER_OF_TOPIC)
      invariant topic == text[FIRST_LETTER_OF_TOPIC..i]
    {
      topic := topic + [text[i]];
      i := i + 1;
    }
    body := if i < |text| then text[i + 1..] else behind;
  }

  // ---------- what a publication is worth ----------

  /** A known topic keeps its place, a new one is listed last, by the capitals it begins with. */
  lemma PublishedNames(ts: seq<Topic>, topic: CString, body: CString, stale: CString)
    requires forall i :: 0 <= i < |ts| ==> WellFormed(ts[i])
    ensures var r := Published(ts, topic, body, stale);
            var unknown := forall i :: 0 <= i < |ts| ==> ts[i].name != topic;
            && |r| == |ts| + (if unknown then 1 else 0)
            && (forall i :: 0 <= i < |ts| ==> r[i].name == ts[i].name && (ts[i].name != topic ==> r[i] == ts[i]))
            && (unknown ==> r[|ts|].name == Capitals(topic))
  {
    hide WellFormed, Capitals;
    var j := PlaceOf(ts, topic);
    if j < |ts| {
      assert ts[j].name == topic;
    }
  }

  /** New data for a known topic is shown behind the old if and only if the record ends with
      its end mark and the data holds none. Without an end mark the old data loses a character;
      with anything behind it the new data is hidden. */
  lemma AmendedIff(t: Topic, body: CString, stale: CString)
    requires WellFormed(t)
    ensures Record(Amended(t, body, stale)) == Record(t) + " " + body <==> t.tail == [MARK] && MARK !in body
  {
    var rest := t.data + t.tail;
    var whole := rest[..|rest| - 1] + " " + body + [MARK] + stale;
    var k := Find(whole, MARK, 0);
    assert Record(Amended(t, body, stale)) == t.name + ":" + whole[..k];
    assert Record(t) + " " + body == t.name + ":" + (t.data + " " + body);
    SameBehind(t.name + ":", whole[..k], t.data + " " + body);
    if t.tail == [MARK] {
      assert rest[..|rest| - 1] == t.data;
      var d := |t.data| + 1;
      assert whole[..d] == t.data + " ";
      assert forall i :: 0 <= i < |body| ==> whole[d + i] == body[i];
      assert whole[d + |body|] == MARK;
      if MARK !in body {
        assert k == d + |body|;
        assert whole[..k] == t.data + " " + body;
      } else {
        var i :| 0 <= i < |body| && body[i] == MARK;
        assert whole[d + i] == MARK;
        assert k <= d + i;
      }
    } else if t.tail == "" {
      assert whole[|rest| + |body|] == MARK;
      assert k <= |rest| + |body|;
    } else {
      assert whole[|t.data|] == MARK;
      assert k <= |t.data|;
    }
  }

  lemma SameBehind(x: string, y: string, z: string)
    ensures x + y == x + z <==> y == z
  {
    assert (x + y)[|x|..] == y && (x + z)[|x|..] == z;
  }

  /** What a client that published `body` on `topic` expects of SUB. */
  function Expected(topic: string, body: string): string {
    topic + ": " + body + [MARK]
  }

  lemma EntryRecord(topic: CString, body: CString)
    ensures Record(Entry(topic, body)) + [MARK] == Expected(topic, body) <==> topic == Capitals(topic) && MARK !in body
    ensures MARK !in body ==> Entry(topic, body).tail == "" && Record(Entry(topic, body)) == Capitals(topic) + ": " + body
  {
    var rest := " " + body;
    var k := Find(rest, MARK, 0);
    var name := Capitals(topic);
    SameEnds(Record(Entry(topic, body)), topic + ": " + body);
    if MARK !in body {
      assert k == |rest| && rest[..k] == rest;
      assert name + ":" + rest == name + ": " + body && topic + ": " + body == topic + ":" + rest;
      if name + ":" + rest == topic + ":" + rest {
        assert |name| == |topic|;
      }
    } else {
      var i :| 0 <= i < |body| && body[i] == MARK;
      assert rest[i + 1] == MARK;
      assert |Record(Entry(topic, body))| == |name| + 1 + k < |topic + ": " + body|;
    }
  }

  /** A new topic that shares its first letter with no record is answered as published if and
      only if it is all capitals and the data holds no end mark. */
  lemma PublishedAnswered(ts: seq<Topic>, topic: CString, body: CString, stale: CString)
    requires (forall i :: 0 <= i < |ts| ==> WellFormed(ts[i]) && !SharesFirst(ts[i], topic)) && Named(ts)
    ensures Lookup(Published(ts, topic, body, stale), topic) == Expected(topic, body)
            <==> topic == Capitals(topic) && MARK !in body
  {
    hide WellFormed, Capitals, Record, Entry, Expected;
    var r := Published(ts, topic, body, stale);
    var h := |ts|;
    NotBeginning(ts, topic);
    EntryNamed(topic, body);
    assert r == ts + [Entry(topic, body)];
    assert Hit(r, topic, h);
    LookupExactIff(r, topic, h);
    EntryRecord(topic, body);
  }

  lemma EntryNamed(topic: CString, body: CString)
    ensures Entry(topic, body).name == Capitals(topic) && IsPrefix(Capitals(topic), topic)
  {
  }

  lemma NotBeginning(ts: seq<Topic>, topic: string)
    requires Named(ts) && forall i :: 0 <= i < |ts| ==> !SharesFirst(ts[i], topic)
    ensures forall i :: 0 <= i < |ts| ==> !IsPrefix(ts[i].name, topic) && ts[i].name != topic
    ensures PlaceOf(ts, topic) == |ts|
  {
  }

  /** The next new topic ends that: a new record has no end mark, so its answer then runs on
      into the record behind it. */
  lemma PublishedUntilNext(ts: seq<Topic>, topic: CString, body: CString, next: CString, data: CString)
    requires (forall i :: 0 <= i < |ts| ==> WellFormed(ts[i]) && !SharesFirst(ts[i], topic)) && Named(ts)
    requires topic == Capitals(topic) && MARK !in body && MARK !in data
    requires next != topic && forall i :: 0 <= i < |ts| ==> ts[i].name != next
    ensures var r := ts + [Entry(topic, body), Entry(next, data)];
            && Published(ts, topic, body, "") == r[..|ts| + 1]
            && (forall i :: 0 <= i <= |ts| ==> WellFormed(r[i]))
            && Published(r[..|ts| + 1], next, data, "") == r
            && Lookup(r, topic) == topic + ": " + body + Expected(Capitals(next), data)
  {
    hide WellFormed, Capitals, Record, Entry, Lookup, Copied;
    var one, r := ts + [Entry(topic, body)], ts + [Entry(topic, body), Entry(next, data)];
    assert r[..|ts| + 1] == one;
    NotBeginning(ts, topic);
    EntryNamed(topic, body);
    EntryWellFormed(topic, body);
    assert PlaceOf(one, next) == |one|;
    assert one + [Entry(next, data)] == r;
    EntryRecord(topic, body);
    EntryRecord(next, data);
    LookupBehind(ts, r, topic);
    CopiedBoth(Entry(topic, body), Entry(next, data));
    assert r[|ts|..] == [Entry(topic, body), Entry(next, data)];
    assert topic + ": " + body + (Capitals(next) + ": " + data) + [MARK]
        == topic + ": " + body + (Capitals(next) + ": " + data + [MARK]);
  }

  lemma CopiedBoth(x: Topic, y: Topic)
    requires x.tail == "" && y.tail == ""
    ensures Copied([x, y]) == Record(x) + Record(y)
  {
    hide Record;
    assert [x, y][1..] == [y] && [y][1..] == [];
    assert Copied([y]) == Record(y) + "" == Record(y);
  }

  /** Records that share no first letter with the topic leave nothing behind. */
  lemma {:induction false} LookupBehind(ts: seq<Topic>, r: seq<Topic>, topic: string)
    requires Named(ts) && forall i :: 0 <= i < |ts| ==> !SharesFirst(ts[i], topic)
    requires |ts| < |r| && r[..|ts|] == ts && IsPrefix(r[|ts|].name, topic)
    ensures Lookup(r, topic) == Copied(r[|ts|..]) + [MARK]
  {
    hide Copied;
    if ts == [] {
      assert r[0..] == r;
    } else {
      assert r[0] == ts[0];
      CommonEmptyIff(ts[0].name, topic);
      assert r[1..][..|ts| - 1] == ts[1..] && r[1..][|ts| - 1..] == r[|ts|..];
      LookupBehind(ts[1..], r[1..], topic);
    }
  }
}
