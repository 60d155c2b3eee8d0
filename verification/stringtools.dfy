/** StringTools.cpp: splitting a text at a separator and wrapping it at a column. */
module StringTools {
  import opened Sequences

  const LINE_BREAK: char := '\n'

  /** The parts from position `from` on; at least one. */
  function PartsFrom(text: string, separator: char, from: nat): (r: seq<string>)
    requires from <= |text|
    ensures r != []
    decreases |text| - from
  {
    var i := Find(text, separator, from);
    if i == |text| then [text[from..]] else [text[from..i]] + PartsFrom(text, separator, i + 1)
  }

  function Parts(text: string, separator: char): seq<string> {
    if text == "" then [] else PartsFrom(text, separator, 0)
  }

  function Join(parts: seq<string>, separator: char): string {
    if parts == [] then ""
    else if |parts| == 1 then parts[0]
    else parts[0] + [separator] + Join(parts[1..], separator)
  }

  predicate Free(parts: seq<string>, separator: char) {
    forall i :: 0 <= i < |parts| ==> separator !in parts[i]
  }

  /** StringTools::split. */
  method Split(text: string, separator: char) returns (splittedText: seq<string>)
    ensures splittedText == Parts(text, separator)
  {
    splittedText := [];
    var start := 0;
    while text != ""
      invariant start <= |text| && (text == "" ==> splittedText == [])
      invariant text != "" ==> splittedText + PartsFrom(text, separator, start) == Parts(text, separator)
      decreases |text| - start
    {
      var sep := Find(text, separator, start);
      ghost var was := splittedText;
      splittedText := splittedText + [text[start..sep]];
      if sep == |text| {
        assert text[start..sep] == text[start..];
        return;
      }
      Assoc(was, [text[start..sep]], PartsFrom(text, separator, sep + 1));
      start := sep + 1;
    }
  }

  lemma JoinCons(part: string, rest: seq<string>, separator: char)
    requires rest != []
    ensures Join([part] + rest, separator) == part + [separator] + Join(rest, separator)
  {
    assert ([part] + rest)[1..] == rest;
  }

  lemma CutAt(text: string, from: nat, i: nat)
    requires from <= i < |text|
    ensures text[from..] == text[from..i] + [text[i]] + text[i + 1..]
  {
  }

  lemma {:induction false} JoinPartsFrom(text: string, separator: char, from: nat)
    requires from <= |text|
    ensures Join(PartsFrom(text, separator, from), separator) == text[from..]
    ensures Free(PartsFrom(text, separator, from), separator)
    decreases |text| - from
  {
    hide Join;
    var i := Find(text, separator, from);
    if i < |text| {
      JoinPartsFrom(text, separator, i + 1);
      JoinCons(text[from..i], PartsFrom(text, separator, i + 1), separator);
      CutAt(text, from, i);
    } else {
      JoinOne(text[from..], separator);
    }
  }

  lemma JoinOne(part: string, separator: char)
    ensures Join([part], separator) == part
  {
  }

  /** Splitting loses nothing: joining gives the text back. */
  lemma JoinOfSplit(text: string, separator: char)
    ensures Join(Parts(text, separator), separator) == text && Free(Parts(text, separator), separator)
  {
    if text != "" {
      JoinPartsFrom(text, separator, 0);
    }
  }

  lemma {:induction false} FindIs(text: string, separator: char, from: nat, i: nat)
    requires from <= i <= |text| && (i < |text| ==> text[i] == separator)
    requires forall k :: from <= k < i ==> text[k] != separator
    ensures Find(text, separator, from) == i
    decreases i - from
  {
    if from < i {
      FindIs(text, separator, from + 1, i);
    }
  }

  lemma {:induction false} PartsFromOfJoin(before: string, parts: seq<string>, separator: char)
    requires parts != [] && Free(parts, separator)
    ensures PartsFrom(before + Join(parts, separator), separator, |before|) == parts
    decreases |parts|
  {
    if |parts| == 1 {
      LastPart(before, parts[0], separator);
    } else {
      var rest := Join(parts[1..], separator);
      NextPart(before, parts[0], rest, separator);
      PartsFromOfJoin(before + parts[0] + [separator], parts[1..], separator);
      assert parts == [parts[0]] + parts[1..];
      JoinCons(parts[0], parts[1..], separator);
      Assoc(before, parts[0] + [separator], rest);
      Assoc(before, parts[0], [separator]);
    }
  }

  lemma LastPart(before: string, part: string, separator: char)
    requires separator !in part
    ensures PartsFrom(before + part, separator, |before|) == [part]
  {
    var text := before + part;
    assert forall k :: |before| <= k < |text| ==> text[k] == part[k - |before|];
    FindIs(text, separator, |before|, |text|);
    assert text[|before|..] == part;
  }

  lemma NextPart(before: string, part: string, rest: string, separator: char)
    requires separator !in part
    ensures var text := before + part + [separator] + rest;
            var next := |before + part + [separator]|;
            PartsFrom(text, separator, |before|) == [part] + PartsFrom(text, separator, next)
  {
    var text, end := before + part + [separator] + rest, |before| + |part|;
    assert forall k :: |before| <= k < end ==> text[k] == part[k - |before|];
    assert text[end] == separator;
    FindIs(text, separator, |before|, end);
    assert text[|before|..end] == part;
  }

  lemma JoinNotEmpty(parts: seq<string>, separator: char)
    requires parts != [] && parts != [""]
    ensures Join(parts, separator) != ""
  {
    if |parts| == 1 {
      assert parts == [parts[0]];
    }
  }

  /** Joining loses nothing either, exactly when the joined text is not empty: split turns
      the empty text into no parts at all. */
  lemma SplitOfJoinIff(parts: seq<string>, separator: char)
    requires parts != [] && Free(parts, separator)
    ensures Parts(Join(parts, separator), separator) == parts <==> parts != [""]
  {
    PartsFromOfJoin("", parts, separator);
    assert "" + Join(parts, separator) == Join(parts, separator);
    if parts == [""] {
      assert Join(parts, separator) == "";
    } else {
      JoinNotEmpty(parts, separator);
    }
  }

  // ---------- wrap ----------

  /** A line in pieces of `column` characters; an empty line is one empty piece. */
  function Chunks(line: string, column: nat): (r: seq<string>)
    requires column > 0
    ensures r != []
    decreases |line|
  {
    if |line| <= column then [line] else [line[..column]] + Chunks(line[column..], column)
  }

  function AllChunks(lines: seq<string>, column: nat): (r: seq<string>)
    requires column > 0
    ensures lines != [] ==> r != []
  {
    if lines == [] then [] else Chunks(lines[0], column) + AllChunks(lines[1..], column)
  }

  function Wrapped(text: string, column: nat): string
    requires column > 0
  {
    Join(AllChunks(Parts(text, LINE_BREAK), column), LINE_BREAK)
  }

  /** The inner loop of wrap. */
  method WrapLine(line: string, column: nat, wrapped: string) returns (out: string)
    requires column > 0
    ensures out == wrapped + Join(Chunks(line, column), LINE_BREAK)
  {
    out := wrapped;
    var index := 0;
    assert line[0..] == line;
    while index < |line|
      invariant index <= |line| ==> out + Join(Chunks(line[index..], column), LINE_BREAK)
                                    == wrapped + Join(Chunks(line, column), LINE_BREAK)
      invariant index > |line| ==> out == wrapped + Join(Chunks(line, column), LINE_BREAK)
    {
      var end := if index + column < |line| then index + column else |line|;
      ghost var was := out;
      out := out + line[index..end];
      index := index + column;
      if index < |line| {
        out := out + [LINE_BREAK];
        ChunkStep(line, index - column, column, was);
      }
    }
  }

  lemma ChunkStep(line: string, index: nat, column: nat, was: string)
    requires column > 0 && index + column < |line|
    ensures was + line[index..index + column] + [LINE_BREAK] + Join(Chunks(line[index + column..], column), LINE_BREAK)
         == was + Join(Chunks(line[index..], column), LINE_BREAK)
  {
    assert line[index..][..column] == line[index..index + column];
    assert line[index..][column..] == line[index + column..];
    JoinCons(line[index..index + column], Chunks(line[index + column..], column), LINE_BREAK);
  }

  /** StringTools::wrap, for a positive column. */
  method Wrap(text: string, wrapColumn: nat) returns (wrapped: string)
    requires wrapColumn > 0
    ensures wrapped == Wrapped(text, wrapColumn)
  {
    var lines := Split(text, LINE_BREAK);
    wrapped := "";
    var it := 0;
    while it < |lines|
      invariant it <= |lines|
      invariant wrapped == Join(AllChunks(lines[..it], wrapColumn), LINE_BREAK)
    {
      if it != 0 {
        wrapped := wrapped + [LINE_BREAK];
      }
      wrapped := WrapLine(lines[it], wrapColumn, wrapped);
      LinesStep(lines, it, wrapColumn);
      it := it + 1;
    }
    assert lines[..it] == lines;
  }

  lemma {:induction false} JoinAppend(xs: seq<string>, ys: seq<string>, separator: char)
    requires xs != [] && ys != []
    ensures Join(xs + ys, separator) == Join(xs, separator) + [separator] + Join(ys, separator)
  {
    if |xs| == 1 {
      JoinCons(xs[0], ys, separator);
      assert xs + ys == [xs[0]] + ys;
    } else {
      JoinAppend(xs[1..], ys, separator);
      JoinCons(xs[0], xs[1..] + ys, separator);
      assert xs + ys == [xs[0]] + (xs[1..] + ys);
      Assoc(xs[0] + [separator], Join(xs[1..], separator) + [separator], Join(ys, separator));
      Assoc(xs[0] + [separator], Join(xs[1..], separator), [separator]);
    }
  }

  lemma {:induction false} AllChunksAppend(lines: seq<string>, line: string, column: nat)
    requires column > 0
    ensures AllChunks(lines + [line], column) == AllChunks(lines, column) + Chunks(line, column)
  {
    if lines == [] {
      assert lines + [line] == [line] && [line][1..] == [];
    } else {
      AllChunksAppend(lines[1..], line, column);
      assert (lines + [line])[1..] == lines[1..] + [line];
      Assoc(Chunks(lines[0], column), AllChunks(lines[1..], column), Chunks(line, column));
    }
  }

  lemma LinesStep(lines: seq<string>, it: nat, column: nat)
    requires column > 0 && it < |lines|
    ensures var before := Join(AllChunks(lines[..it], column), LINE_BREAK);
            Join(AllChunks(lines[..it + 1], column), LINE_BREAK)
            == (if it == 0 then before else before + [LINE_BREAK]) + Join(Chunks(lines[it], column), LINE_BREAK)
  {
    assert lines[..it + 1] == lines[..it] + [lines[it]];
    AllChunksAppend(lines[..it], lines[it], column);
    if it > 0 {
      JoinAppend(AllChunks(lines[..it], column), Chunks(lines[it], column), LINE_BREAK);
    } else {
      assert [] + Chunks(lines[0], column) == Chunks(lines[0], column);
    }
  }

  // ---------- what wrapping promises ----------

  predicate Fits(lines: seq<string>, column: nat) {
    forall i :: 0 <= i < |lines| ==> |lines[i]| <= column
  }

  lemma {:induction false} ChunksFit(line: string, column: nat)
    requires column > 0 && LINE_BREAK !in line
    ensures Fits(Chunks(line, column), column) && Free(Chunks(line, column), LINE_BREAK)
    decreases |line|
  {
    if |line| > column {
      ChunksFit(line[column..], column);
    }
  }

  lemma {:induction false} AllChunksFit(lines: seq<string>, column: nat)
    requires column > 0 && Free(lines, LINE_BREAK)
    ensures Fits(AllChunks(lines, column), column) && Free(AllChunks(lines, column), LINE_BREAK)
  {
    if lines != [] {
      ChunksFit(lines[0], column);
      AllChunksFit(lines[1..], column);
    }
  }

  lemma {:induction false} FittingUnchanged(lines: seq<string>, column: nat)
    requires column > 0 && Fits(lines, column)
    ensures AllChunks(lines, column) == lines
  {
    if lines != [] {
      FittingUnchanged(lines[1..], column);
      assert lines == [lines[0]] + lines[1..];
    }
  }

  /** `pieces` are `line`, cut as late as the column allows. */
  predicate Filled(pieces: seq<string>, line: string, column: nat) {
    && pieces != [] && Flattened(pieces) == line
    && (forall i :: 0 <= i < |pieces| - 1 ==> |pieces[i]| == column)
    && |pieces[|pieces| - 1]| <= column
    && (|pieces| > 1 ==> pieces[|pieces| - 1] != "")
  }

  /** There is one way to cut a line as late as possible, and it is the one taken. */
  lemma {:induction false} ChunksIff(line: string, column: nat, pieces: seq<string>)
    requires column > 0
    ensures pieces == Chunks(line, column) <==> Filled(pieces, line, column)
    decreases |pieces|
  {
    if pieces == [] {
    } else if |pieces| == 1 {
      assert Flattened(pieces) == pieces[0] + "" == pieces[0];
      assert pieces == [pieces[0]];
      assert |line| > column ==> |Chunks(line, column)| > 1;
    } else {
      var rest := pieces[1..];
      assert pieces == [pieces[0]] + rest;
      assert Flattened(pieces) == pieces[0] + Flattened(rest);
      FlattenedLength(rest, |rest| - 1);
      if |line| > column {
        ChunksIff(line[column..], column, rest);
        assert line == line[..column] + line[column..];
        assert forall i :: 0 <= i < |rest| ==> rest[i] == pieces[i + 1];
        if Filled(pieces, line, column) {
          assert Flattened(rest) == line[column..];
        }
      }
    }
  }

  lemma {:induction false} FlattenedLength(pieces: seq<string>, i: nat)
    requires i < |pieces|
    ensures |Flattened(pieces)| >= |pieces[i]|
  {
    if i > 0 {
      FlattenedLength(pieces[1..], i - 1);
    }
  }

  /** The lines of the wrapped text: those of the text in order, each cut so. */
  lemma WrappedLines(text: string, column: nat, i: nat)
    requires column > 0 && i < |Parts(text, LINE_BREAK)|
    ensures var lines := Parts(text, LINE_BREAK);
            Parts(Wrapped(text, column), LINE_BREAK)
            == AllChunks(lines[..i], column) + Chunks(lines[i], column) + AllChunks(lines[i + 1..], column)
  {
    var lines := Parts(text, LINE_BREAK);
    JoinOfSplit(text, LINE_BREAK);
    AllChunksFit(lines, column);
    SplitOfJoinIff(AllChunks(lines, column), LINE_BREAK);
    AllChunksAround(lines, column, i);
  }

  lemma {:induction false} AllChunksAround(lines: seq<string>, column: nat, i: nat)
    requires column > 0 && i < |lines|
    ensures AllChunks(lines, column)
         == AllChunks(lines[..i], column) + Chunks(lines[i], column) + AllChunks(lines[i + 1..], column)
  {
    hide Chunks;
    if i == 0 {
      assert lines[..0] == [];
    } else {
      AllChunksAround(lines[1..], column, i - 1);
      assert lines[..i][1..] == lines[1..][..i - 1] && lines[1..][i..] == lines[i + 1..];
      Assoc(Chunks(lines[0], column), AllChunks(lines[1..][..i - 1], column) + Chunks(lines[i], column),
            AllChunks(lines[i + 1..], column));
      Assoc(Chunks(lines[0], column), AllChunks(lines[1..][..i - 1], column), Chunks(lines[i], column));
    }
  }

  /** The lines of the wrapped text are the chunks, each at most `column` characters. */
  lemma WrappedFits(text: string, column: nat)
    requires column > 0
    ensures Fits(Parts(Wrapped(text, column), LINE_BREAK), column)
  {
    var lines := Parts(text, LINE_BREAK);
    JoinOfSplit(text, LINE_BREAK);
    AllChunksFit(lines, column);
    if lines != [] {
      SplitOfJoinIff(AllChunks(lines, column), LINE_BREAK);
    }
  }

  /** A text is left alone exactly when its lines already fit. */
  lemma WrapUnchangedIff(text: string, column: nat)
    requires column > 0
    ensures Wrapped(text, column) == text <==> Fits(Parts(text, LINE_BREAK), column)
  {
    JoinOfSplit(text, LINE_BREAK);
    if Fits(Parts(text, LINE_BREAK), column) {
      FittingUnchanged(Parts(text, LINE_BREAK), column);
    }
    WrappedFits(text, column);
  }

  /** Wrapping twice is wrapping once. */
  lemma WrapIdempotent(text: string, column: nat)
    requires column > 0
    ensures Wrapped(Wrapped(text, column), column) == Wrapped(text, column)
  {
    WrappedFits(text, column);
    WrapUnchangedIff(Wrapped(text, column), column);
  }

  /** The characters that are not line breaks. */
  function Printed(text: string): string {
    if text == "" then "" else Ink(text[0]) + Printed(text[1..])
  }

  function Ink(ch: char): string {
    if ch == LINE_BREAK then "" else [ch]
  }

  lemma PrintedOf(text: string)
    ensures Printed(text) == if text == "" then "" else Ink(text[0]) + Printed(text[1..])
  {
  }

  lemma {:induction false} PrintedAppend(x: string, y: string)
    ensures Printed(x + y) == Printed(x) + Printed(y)
  {
    hide Printed, Ink;
    PrintedOf(x);
    if x == "" {
      assert x + y == y && "" + Printed(y) == Printed(y);
    } else {
      PrintedOf(x + y);
      PrintedAppend(x[1..], y);
      assert (x + y)[1..] == x[1..] + y;
      Assoc(Ink(x[0]), Printed(x[1..]), Printed(y));
    }
  }

  lemma {:induction false} PrintedOfChunks(line: string, column: nat)
    requires column > 0
    ensures Printed(Join(Chunks(line, column), LINE_BREAK)) == Printed(line)
    decreases |line|
  {
    hide Printed;
    if |line| > column {
      var front, rest := line[..column], line[column..];
      PrintedOfChunks(rest, column);
      JoinCons(front, Chunks(rest, column), LINE_BREAK);
      PrintedAppend(front, rest);
      assert line == front + rest;
      PrintedBreak(front, Join(Chunks(rest, column), LINE_BREAK));
    }
  }

  lemma PrintedBreak(front: string, rest: string)
    ensures Printed(front + [LINE_BREAK] + rest) == Printed(front) + Printed(rest)
  {
    assert [LINE_BREAK][1..] == "" && Printed([LINE_BREAK]) == "" + "";
    hide Printed;
    PrintedAppend(front + [LINE_BREAK], rest);
    PrintedAppend(front, [LINE_BREAK]);
    assert Printed(front) + "" == Printed(front);
  }

  lemma {:induction false} PrintedOfLines(lines: seq<string>, column: nat)
    requires column > 0
    ensures Printed(Join(AllChunks(lines, column), LINE_BREAK)) == Printed(Join(lines, LINE_BREAK))
  {
    hide Printed;
    if lines != [] {
      var head, rest := Chunks(lines[0], column), lines[1..];
      PrintedOfChunks(lines[0], column);
      if rest == [] {
        assert head + [] == head;
      } else {
        PrintedOfLines(rest, column);
        JoinAppend(head, AllChunks(rest, column), LINE_BREAK);
        PrintedBreak(Join(head, LINE_BREAK), Join(AllChunks(rest, column), LINE_BREAK));
        PrintedBreak(lines[0], Join(rest, LINE_BREAK));
      }
    }
  }

  /** Wrapping moves line breaks only: every other character stays, in order. */
  lemma WrapKeepsCharacters(text: string, column: nat)
    requires column > 0
    ensures Printed(Wrapped(text, column)) == Printed(text)
  {
    JoinOfSplit(text, LINE_BREAK);
    PrintedOfLines(Parts(text, LINE_BREAK), column);
  }
}
