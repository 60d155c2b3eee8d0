/** Sequences: facts about slices and concatenations, kept away from any heap. */
module Sequences {

  datatype Option<T> = None | Some(value: T)

  /** The first separator at or after `from`, or the length. */
  function Find(text: string, separator: char, from: nat): (i: nat)
    requires from <= |text|
    ensures from <= i <= |text| && (i < |text| ==> text[i] == separator)
    ensures forall k :: from <= k < i ==> text[k] != separator
    decreases |text| - from
  {
    if from == |text| || text[from] == separator then from else Find(text, separator, from + 1)
  }

  function Flattened(pieces: seq<string>): string {
    if pieces == [] then "" else pieces[0] + Flattened(pieces[1..])
  }

  /** `s` with `x` put before position `p`. */
  function Spliced<T>(s: seq<T>, p: nat, x: T): (r: seq<T>)
    requires p <= |s|
    ensures |r| == |s| + 1
    ensures forall i :: 0 <= i < p ==> r[i] == s[i]
    ensures r[p] == x
    ensures forall i :: p < i <= |s| ==> r[i] == s[i - 1]
  {
    s[..p] + [x] + s[p..]
  }

  lemma SplicedLast<T>(s: seq<T>, x: T)
    ensures Spliced(s, |s|, x) == s + [x]
  {
  }

  lemma FrontAndRest<T>(s: seq<T>, k: nat)
    requires k < |s|
    ensures s[..k + 1] == [s[0]] + s[1..][..k] && s[k + 1..] == s[1..][k..]
  {
  }

  lemma DropMore<T>(s: seq<T>, k: nat, j: nat)
    requires k <= |s| && j < |s| - k
    ensures s[k..][j] == s[k + j] && s[k..][j + 1..] == s[k + j + 1..]
  {
  }

  lemma Assoc<T>(x: seq<T>, y: seq<T>, z: seq<T>)
    ensures x + (y + z) == x + y + z
  {
  }

  lemma Middle<T>(x: seq<T>, e: seq<T>, y: seq<T>)
    ensures (x + e + y)[|x|..|x| + |e|] == e
  {
  }

  lemma SubSlice<T>(s: seq<T>, lo: nat, hi: nat, a: nat, b: nat)
    requires lo <= hi <= |s| && a <= b <= hi - lo
    ensures s[lo..hi][a..b] == s[lo + a..lo + b]
  {
    var w := s[lo..hi];
    forall i | 0 <= i < b - a
      ensures w[a..b][i] == s[lo + a..lo + b][i]
    {
      assert w[a..b][i] == w[a + i];
    }
  }
}
