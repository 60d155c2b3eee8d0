/** TestPath.cpp and Test.cpp: paths through a tree of tests, their text, and finding a
    test in the tree. */
module TestPaths {
  import opened Sequences
  import opened StringTools

  const SLASH: char := '/'

  /** A test is an object; its name and children do not change while paths are made. */
  class Test {
    const name: string
    const children: seq<Test>
    ghost const height: nat

    constructor (name: string, children: seq<Test>, ghost height: nat)
      requires forall i :: 0 <= i < |children| ==> children[i].height < height
      ensures this.name == name && this.children == children && this.height == height
    {
      this.name := name;
      this.children := children;
      this.height := height;
    }
  }

  /** Children stand lower than their parent, all the way down. */
  ghost predicate Tree(t: Test)
    decreases t.height
  {
    forall i :: 0 <= i < |t.children| ==> t.children[i].height < t.height && Tree(t.children[i])
  }

  ghost predicate InSubtree(t: Test, x: Test)
    requires Tree(t)
    decreases t.height
  {
    t == x || exists i :: 0 <= i < |t.children| && InSubtree(t.children[i], x)
  }

  // ---------- findTestPath ----------

  /** The way to the first test that hits, searching parents before children and children
      in order; empty if none does. */
  ghost function FirstChain(t: Test, hit: Test -> bool): seq<Test>
    requires Tree(t)
    decreases t.height, 1
  {
    if hit(t) then [t]
    else
      var below := FirstAmong(t, 0, hit);
      if below == [] then [] else [t] + below
  }

  ghost function FirstAmong(t: Test, i: nat, hit: Test -> bool): seq<Test>
    requires Tree(t) && i <= |t.children|
    decreases t.height, 0, |t.children| - i
  {
    if i == |t.children| then []
    else
      var c := FirstChain(t.children[i], hit);
      if c != [] then c else FirstAmong(t, i + 1, hit)
  }

  /** Each test is a child of the one before it. */
  ghost predicate IsChain(p: seq<Test>) {
    p != [] && forall i :: 0 <= i < |p| - 1 ==> p[i + 1] in p[i].children
  }

  /** What is found is a chain from `t` to a hit. */
  lemma {:induction false} FirstChainIsChain(t: Test, hit: Test -> bool)
    requires Tree(t) && FirstChain(t, hit) != []
    ensures var p := FirstChain(t, hit);
            IsChain(p) && p[0] == t && hit(p[|p| - 1]) && InSubtree(t, p[|p| - 1])
    decreases t.height, 1
  {
    if !hit(t) {
      var i := FirstAmongIsChain(t, 0, hit);
      var below := FirstAmong(t, 0, hit);
      var p := FirstChain(t, hit);
      assert forall k :: 0 < k < |p| ==> p[k] == below[k - 1];
    }
  }

  lemma {:induction false} FirstAmongIsChain(t: Test, i: nat, hit: Test -> bool) returns (k: nat)
    requires Tree(t) && i <= |t.children| && FirstAmong(t, i, hit) != []
    ensures k < |t.children|
    ensures var p := FirstAmong(t, i, hit);
            IsChain(p) && p[0] == t.children[k] && hit(p[|p| - 1]) && InSubtree(t.children[k], p[|p| - 1])
    decreases t.height, 0, |t.children| - i
  {
    if FirstChain(t.children[i], hit) != [] {
      FirstChainIsChain(t.children[i], hit);
      k := i;
    } else {
      k := FirstAmongIsChain(t, i + 1, hit);
    }
  }

  /** A hit anywhere in the subtree is enough to find one. */
  lemma {:induction false} FirstChainComplete(t: Test, hit: Test -> bool, x: Test)
    requires Tree(t) && InSubtree(t, x) && hit(x)
    ensures FirstChain(t, hit) != []
    decreases t.height, 1
  {
    if t != x {
      var i :| 0 <= i < |t.children| && InSubtree(t.children[i], x);
      FirstChainComplete(t.children[i], hit, x);
      FirstAmongComplete(t, 0, i, hit);
    }
  }

  lemma {:induction false} FirstAmongComplete(t: Test, from: nat, i: nat, hit: Test -> bool)
    requires Tree(t) && from <= i < |t.children| && FirstChain(t.children[i], hit) != []
    ensures FirstAmong(t, from, hit) != []
    decreases i - from
  {
    if from < i {
      FirstAmongComplete(t, from + 1, i, hit);
    }
  }

  /** Searching for one test finds the chain down to it exactly when it is in the subtree. */
  lemma FindTestIff(t: Test, x: Test)
    requires Tree(t)
    ensures var p := FirstChain(t, y => y == x);
            && (p != [] <==> InSubtree(t, x))
            && (p != [] ==> IsChain(p) && p[0] == t && p[|p| - 1] == x)
  {
    var hit := y => y == x;
    if FirstChain(t, hit) != [] {
      FirstChainIsChain(t, hit);
    }
    if InSubtree(t, x) {
      FirstChainComplete(t, hit, x);
    }
  }

  /** No test of the subtree hits. */
  ghost predicate Misses(t: Test, hit: Test -> bool)
    requires Tree(t)
    decreases t.height
  {
    !hit(t) && forall i :: 0 <= i < |t.children| ==> Misses(t.children[i], hit)
  }

  lemma {:induction false} MissesAll(t: Test, hit: Test -> bool, x: Test)
    requires Tree(t) && Misses(t, hit) && InSubtree(t, x)
    ensures !hit(x)
    decreases t.height
  {
    if t != x {
      var i :| 0 <= i < |t.children| && InSubtree(t.children[i], x);
      MissesAll(t.children[i], hit, x);
    }
  }

  /** The way `p` ends at the first hit below its start: it ends at a hit, none of the tests
      on the way hits, and no test hits below a child in front of the one taken. */
  ghost predicate Foremost(p: seq<Test>, hit: Test -> bool)
    requires p != [] && Tree(p[0])
    decreases |p|
  {
    if |p| == 1 then hit(p[0])
    else !hit(p[0]) && exists k :: 0 <= k < |p[0].children| && Takes(p, hit, k)
  }

  ghost predicate Takes(p: seq<Test>, hit: Test -> bool, k: nat)
    requires |p| > 1 && Tree(p[0]) && k < |p[0].children|
    decreases |p|, 0
  {
    && p[0].children[k] == p[1] && Foremost(p[1..], hit)
    && forall j :: 0 <= j < k ==> Misses(p[0].children[j], hit)
  }

  lemma {:induction false} MissesIff(t: Test, hit: Test -> bool)
    requires Tree(t)
    ensures Misses(t, hit) <==> FirstChain(t, hit) == []
    decreases t.height, 1
  {
    if !hit(t) {
      MissesAmongIff(t, 0, hit);
    }
  }

  lemma {:induction false} MissesAmongIff(t: Test, i: nat, hit: Test -> bool)
    requires Tree(t) && i <= |t.children|
    ensures FirstAmong(t, i, hit) == [] <==> forall j :: i <= j < |t.children| ==> Misses(t.children[j], hit)
    decreases t.height, 0, |t.children| - i
  {
    if i < |t.children| {
      MissesIff(t.children[i], hit);
      MissesAmongIff(t, i + 1, hit);
    }
  }

  /** The search finds the first hit in tree order, parents before children and children in
      order, and the way to it; and it finds nothing else. */
  lemma {:induction false} FirstChainIff(t: Test, hit: Test -> bool, p: seq<Test>)
    requires Tree(t) && p != []
    ensures FirstChain(t, hit) == p <==> p[0] == t && Foremost(p, hit)
    decreases t.height, 2
  {
    if FirstChain(t, hit) == p {
      FirstIsForemost(t, hit);
    }
    if p[0] == t && Foremost(p, hit) {
      ForemostIsFirst(p, hit);
    }
  }

  lemma {:induction false} FirstIsForemost(t: Test, hit: Test -> bool)
    requires Tree(t) && FirstChain(t, hit) != []
    ensures FirstChain(t, hit)[0] == t && Foremost(FirstChain(t, hit), hit)
    decreases t.height, 1
  {
    if !hit(t) {
      var p, below := FirstChain(t, hit), FirstAmong(t, 0, hit);
      var k := FirstAmongTakes(t, 0, hit);
      assert p[1..] == below;
      assert Takes(p, hit, k);
    }
  }

  lemma {:induction false} FirstAmongTakes(t: Test, i: nat, hit: Test -> bool) returns (k: nat)
    requires Tree(t) && i <= |t.children| && FirstAmong(t, i, hit) != []
    ensures i <= k < |t.children| && FirstAmong(t, i, hit)[0] == t.children[k]
    ensures Foremost(FirstAmong(t, i, hit), hit)
    ensures forall j :: i <= j < k ==> Misses(t.children[j], hit)
    decreases t.height, 0, |t.children| - i
  {
    MissesIff(t.children[i], hit);
    if FirstChain(t.children[i], hit) != [] {
      FirstIsForemost(t.children[i], hit);
      k := i;
    } else {
      k := FirstAmongTakes(t, i + 1, hit);
    }
  }

  lemma {:induction false} ForemostIsFirst(p: seq<Test>, hit: Test -> bool)
    requires p != [] && Tree(p[0]) && Foremost(p, hit)
    ensures FirstChain(p[0], hit) == p
    decreases |p|
  {
    if |p| == 1 {
      assert p == [p[0]];
    } else {
      var k :| 0 <= k < |p[0].children| && Takes(p, hit, k);
      ForemostIsFirst(p[1..], hit);
      FirstAmongIs(p[0], 0, k, hit);
      assert p == [p[0]] + p[1..];
    }
  }

  lemma {:induction false} FirstAmongIs(t: Test, i: nat, k: nat, hit: Test -> bool)
    requires Tree(t) && i <= k < |t.children| && FirstChain(t.children[k], hit) != []
    requires forall j :: i <= j < k ==> Misses(t.children[j], hit)
    ensures FirstAmong(t, i, hit) == FirstChain(t.children[k], hit)
    decreases k - i
  {
    if i < k {
      MissesIff(t.children[i], hit);
      FirstAmongIs(t, i + 1, k, hit);
    }
  }

  // ---------- the text of a path ----------

  function Names(p: seq<Test>): (r: seq<string>)
    ensures |r| == |p|
    ensures forall i :: 0 <= i < |r| ==> r[i] == p[i].name
  {
    seq(|p|, i requires 0 <= i < |p| => p[i].name)
  }

  function PathText(p: seq<Test>): string {
    "/" + Join(Names(p), SLASH)
  }

  /** splitPathString: the names of a path, and whether it is relative. */
  function SplitPath(text: string): (r: (bool, seq<string>))
    ensures text != "" ==> r.1 != []
  {
    if text == "" then (true, [])
    else if text[0] != SLASH then (true, PartsFrom(text, SLASH, 0))
    else (false, PartsFrom(text, SLASH, 1))
  }

  datatype Result<T> = Success(value: T) | Failure

  /** The first child of that name. */
  function ChildNamed(t: Test, name: string, i: nat): (k: nat)
    requires i <= |t.children|
    ensures i <= k <= |t.children| && (k < |t.children| ==> t.children[k].name == name)
    ensures forall j :: i <= j < k ==> t.children[j].name != name
    decreases |t.children| - i
  {
    if i == |t.children| || t.children[i].name == name then i else ChildNamed(t, name, i + 1)
  }

  /** The loop of the parsing constructor: from a parent down the remaining names. */
  function Descend(parent: Test, names: seq<string>): (r: Result<seq<Test>>)
    ensures r.Success? ==> |r.value| == |names|
  {
    if names == [] then Success([])
    else
      var k := ChildNamed(parent, names[0], 0);
      if k == |parent.children| then Failure
      else
        match Descend(parent.children[k], names[1..])
        case Failure => Failure
        case Success(rest) => Success([parent.children[k]] + rest)
  }

  function Named(name: string): Test -> bool {
    (t: Test) => t.name == name
  }

  ghost function ActualRoot(searchRoot: Test, text: string): Result<Test>
    requires Tree(searchRoot)
  {
    var (isRelative, names) := SplitPath(text);
    if text == "" then Success(searchRoot)
    else if isRelative then
      var p := FirstChain(searchRoot, Named(names[0]));
      if p == [] then Failure else Success(p[|p| - 1])
    else if searchRoot.name == names[0] then Success(searchRoot)
    else Failure
  }

  /** TestPath(searchRoot, pathAsString): the path that the text names, or an exception. */
  ghost function Resolve(searchRoot: Test, text: string): Result<seq<Test>>
    requires Tree(searchRoot)
  {
    match ActualRoot(searchRoot, text)
    case Failure => Failure
    case Success(root) =>
      if text == "" then Success([root])
      else
        match Descend(root, SplitPath(text).1[1..])
        case Failure => Failure
        case Success(rest) => Success([root] + rest)
  }

  // ---------- printing and parsing are inverse ----------

  predicate FirstSiblings(p: seq<Test>) {
    forall i :: 0 <= i < |p| - 1 ==>
      var k := ChildNamed(p[i], p[i + 1].name, 0);
      k < |p[i].children| && p[i].children[k] == p[i + 1]
  }

  predicate Clean(p: seq<Test>) {
    Free(Names(p), SLASH)
  }

  lemma {:induction false} DescendAlong(p: seq<Test>)
    requires p != [] && FirstSiblings(p)
    ensures Descend(p[0], Names(p)[1..]) == Success(p[1..])
  {
    if |p| > 1 {
      var rest := p[1..];
      assert forall i :: 0 <= i < |rest| ==> rest[i] == p[i + 1];
      DescendAlong(rest);
      assert Names(p)[1..][1..] == Names(rest)[1..];
      assert p[1..] == [p[1]] + rest[1..];
    }
  }

  lemma {:induction false} DescendOnlyAlong(p: seq<Test>)
    requires p != [] && Descend(p[0], Names(p)[1..]) == Success(p[1..])
    ensures FirstSiblings(p)
  {
    if |p| > 1 {
      var rest := p[1..];
      assert forall i :: 0 <= i < |rest| ==> rest[i] == p[i + 1];
      assert Names(p)[1..][1..] == Names(rest)[1..];
      assert p[1..] == [p[1]] + rest[1..];
      DescendOnlyAlong(rest);
    }
  }

  /** The names that are read back: those of the path, if none holds a slash. */
  lemma NamesOfText(p: seq<Test>)
    requires p != []
    ensures SplitPath(PathText(p)).0 == false
    ensures Clean(p) ==> SplitPath(PathText(p)).1 == Names(p)
  {
    if Clean(p) {
      PartsFromOfJoin("/", Names(p), SLASH);
    }
  }

  /** A resolved path has the names that were read. */
  lemma {:induction false} DescendNames(parent: Test, names: seq<string>)
    requires Descend(parent, names).Success?
    ensures Names(Descend(parent, names).value) == names
  {
    if names != [] {
      var k := ChildNamed(parent, names[0], 0);
      DescendNames(parent.children[k], names[1..]);
      var rest := Descend(parent.children[k], names[1..]).value;
      assert Names([parent.children[k]] + rest) == [names[0]] + Names(rest);
      assert names == [names[0]] + names[1..];
    }
  }

  /** The names read, joined again, are the text; the path is relative unless the text begins
      with a slash. */
  lemma SplitPathJoins(text: string)
    requires text != ""
    ensures SplitPath(text).0 <==> text[0] != SLASH
    ensures Free(SplitPath(text).1, SLASH)
    ensures (if SplitPath(text).0 then "" else "/") + Join(SplitPath(text).1, SLASH) == text
  {
    if text[0] == SLASH {
      JoinPartsFrom(text, SLASH, 1);
      assert text == "/" + text[1..];
    } else {
      JoinPartsFrom(text, SLASH, 0);
      assert text[0..] == text;
    }
  }

  /** Resolving, absolute or relative: the path has exactly the names that were read, and
      starts at the search root or, if relative, at the first test of the first name below it.
      The empty text names the search root. */
  lemma ResolvedNames(searchRoot: Test, text: string)
    requires Tree(searchRoot) && Resolve(searchRoot, text).Success?
    ensures var p := Resolve(searchRoot, text).value;
            && p != [] && InSubtree(searchRoot, p[0]) && FirstSiblings(p)
            && (text == "" ==> p == [searchRoot])
            && (text != "" ==> Names(p) == SplitPath(text).1 && Clean(p))
            && (text != "" && text[0] == SLASH ==> p[0] == searchRoot)
            && (text != "" && text[0] != SLASH ==> FirstNamed(searchRoot, p[0]))
  {
    if text != "" {
      var names, root := SplitPath(text).1, ActualRoot(searchRoot, text).value;
      FirstNamedIs(searchRoot, names[0]);
      DescendNames(root, names[1..]);
      var rest := Descend(root, names[1..]).value;
      assert Names([root] + rest) == [names[0]] + Names(rest);
      assert names == [names[0]] + names[1..];
      SplitPathJoins(text);
      assert ([root] + rest)[1..] == rest;
      DescendOnlyAlong([root] + rest);
    }
  }

  /** `x` is the first hit below `t`, in tree order. */
  ghost predicate FirstHit(t: Test, hit: Test -> bool, x: Test)
    requires Tree(t)
    decreases t.height
  {
    if hit(t) then t == x
    else exists k :: 0 <= k < |t.children| && FirstHit(t.children[k], hit, x)
                     && forall j :: 0 <= j < k ==> Misses(t.children[j], hit)
  }

  ghost predicate FirstNamed(t: Test, x: Test)
    requires Tree(t)
  {
    FirstHit(t, Named(x.name), x)
  }

  lemma {:induction false} FirstHitIff(t: Test, hit: Test -> bool, x: Test)
    requires Tree(t)
    ensures var p := FirstChain(t, hit); FirstHit(t, hit, x) <==> p != [] && p[|p| - 1] == x
    decreases t.height
  {
    if !hit(t) {
      MissesIff(t, hit);
      var p, below := FirstChain(t, hit), FirstAmong(t, 0, hit);
      if p != [] {
        var k := FirstAmongTakes(t, 0, hit);
        ForemostIsFirst(below, hit);
        FirstHitIff(t.children[k], hit, x);
        assert p[|p| - 1] == below[|below| - 1];
      }
      if FirstHit(t, hit, x) {
        var k :| 0 <= k < |t.children| && FirstHit(t.children[k], hit, x)
                 && forall j :: 0 <= j < k ==> Misses(t.children[j], hit);
        FirstHitIff(t.children[k], hit, x);
        FirstAmongIs(t, 0, k, hit);
        assert p[|p| - 1] == below[|below| - 1];
      }
    }
  }

  /** There is at most one, and there is one exactly if some test has the name. */
  lemma FirstNamedIs(t: Test, name: string)
    requires Tree(t)
    ensures var p := FirstChain(t, Named(name));
            && (p != [] ==> InSubtree(t, p[|p| - 1]) && p[|p| - 1].name == name && FirstNamed(t, p[|p| - 1]))
            && (p == [] <==> Misses(t, Named(name)))
  {
    var p := FirstChain(t, Named(name));
    MissesIff(t, Named(name));
    if p != [] {
      FirstChainIsChain(t, Named(name));
      FirstHitIff(t, Named(name), p[|p| - 1]);
    }
  }

  lemma FirstNamedOnly(t: Test, x: Test)
    requires Tree(t) && FirstNamed(t, x)
    ensures var p := FirstChain(t, Named(x.name)); p != [] && p[|p| - 1] == x
  {
    FirstHitIff(t, Named(x.name), x);
  }

  /** Resolving the names of a path below the search root, joined by slashes, gives the path
      back exactly when no name in it holds a slash, every step goes to the first sibling of
      its name, and its first test is the first of its name. A first test without a name
      leaves an absolute text or none at all; then the path can only be the search root. */
  lemma RelativeParseIff(searchRoot: Test, q: seq<Test>)
    requires q != [] && Tree(searchRoot)
    ensures Resolve(searchRoot, Join(Names(q), SLASH)) == Success(q)
            <==> Clean(q) && FirstSiblings(q)
                 && if q[0].name == "" then q == [searchRoot] else FirstNamed(searchRoot, q[0])
  {
    var text := Join(Names(q), SLASH);
    if q[0].name == "" {
      NamelessText(q);
    } else {
      TextStarts(q);
    }
    if q[0].name != "" && Clean(q) {
      RelativeText(q);
      if FirstNamed(searchRoot, q[0]) && FirstSiblings(q) {
        FirstNamedOnly(searchRoot, q[0]);
        DescendAlong(q);
        assert q == [q[0]] + q[1..];
      }
    }
    if Resolve(searchRoot, text) == Success(q) {
      ResolvedNames(searchRoot, text);
      if text != "" {
        SplitPathJoins(text);
      }
    }
  }

  lemma TextStarts(q: seq<Test>)
    requires q != [] && q[0].name != ""
    ensures var text := Join(Names(q), SLASH); text != "" && text[0] == q[0].name[0]
  {
    assert Names(q)[0] == q[0].name;
  }

  /** A text that starts with a name, and one that does not. */
  lemma RelativeText(q: seq<Test>)
    requires q != [] && q[0].name != "" && Clean(q)
    ensures var text := Join(Names(q), SLASH); text != "" && text[0] != SLASH && SplitPath(text).1 == Names(q)
  {
    var names, text := Names(q), Join(Names(q), SLASH);
    PartsFromOfJoin("", names, SLASH);
    assert "" + text == text;
    TextStarts(q);
    assert names[0] == q[0].name && SLASH !in names[0];
  }

  lemma NamelessText(q: seq<Test>)
    requires q != [] && q[0].name == ""
    ensures var text := Join(Names(q), SLASH); if |q| == 1 then text == "" else text != "" && text[0] == SLASH
  {
    assert Names(q)[0] == "";
    assert |q| > 1 ==> Join(Names(q), SLASH) == "" + [SLASH] + Join(Names(q)[1..], SLASH);
  }

  // ---------- when resolving fails ----------

  /** `p` leads along first siblings of the first names to a test without a child of the
      next one. */
  predicate Stuck(p: seq<Test>, names: seq<string>) {
    && 0 < |p| <= |names| && FirstSiblings(p) && Names(p)[1..] == names[..|p| - 1]
    && NoChild(p[|p| - 1], names[|p| - 1])
  }

  predicate NoChild(t: Test, name: string) {
    forall i :: 0 <= i < |t.children| ==> t.children[i].name != name
  }

  lemma {:induction false} DescendStuck(parent: Test, names: seq<string>) returns (p: seq<Test>)
    requires Descend(parent, names).Failure?
    ensures Stuck(p, names) && p[0] == parent
  {
    var k := ChildNamed(parent, names[0], 0);
    if k == |parent.children| {
      p := [parent];
    } else {
      var rest := DescendStuck(parent.children[k], names[1..]);
      p := [parent] + rest;
      StuckBelow(parent, rest, names);
    }
  }

  lemma StuckBelow(parent: Test, rest: seq<Test>, names: seq<string>)
    requires names != [] && Stuck(rest, names[1..])
    requires var k := ChildNamed(parent, names[0], 0); k < |parent.children| && rest[0] == parent.children[k]
    ensures Stuck([parent] + rest, names)
  {
    hide ChildNamed, NoChild;
    var p := [parent] + rest;
    assert forall i :: 0 < i < |p| ==> p[i] == rest[i - 1];
    assert Names(p)[1..] == [names[0]] + Names(rest)[1..];
    assert names[..|p| - 1] == [names[0]] + names[1..][..|rest| - 1];
  }

  lemma {:induction false} StuckFails(p: seq<Test>, names: seq<string>)
    requires Stuck(p, names)
    ensures Descend(p[0], names).Failure?
    decreases |p|
  {
    if |p| > 1 {
      var rest := p[1..];
      assert forall i :: 0 <= i < |rest| ==> rest[i] == p[i + 1];
      assert Names(p)[1] == names[..|p| - 1][0];
      assert Names(rest)[1..] == Names(p)[1..][1..] == names[1..][..|rest| - 1];
      StuckFails(rest, names[1..]);
    }
  }

  /** The test a path starts at: the search root, which an absolute path must name, or the
      first test of the first name. */
  ghost predicate StartsAt(searchRoot: Test, text: string, x: Test)
    requires Tree(searchRoot) && text != ""
  {
    && x.name == SplitPath(text).1[0]
    && if text[0] == SLASH then x == searchRoot else FirstNamed(searchRoot, x)
  }

  /** Resolving fails if and only if the text is not empty, and no test can be the start, or
      from the start some name has no child. */
  lemma ResolveFailsIff(searchRoot: Test, text: string)
    requires Tree(searchRoot)
    ensures Resolve(searchRoot, text).Failure?
            <==> && text != ""
                 && var names := SplitPath(text).1;
                    || (if text[0] == SLASH then searchRoot.name != names[0] else Misses(searchRoot, Named(names[0])))
                    || (exists p: seq<Test> :: Stuck(p, names[1..]) && StartsAt(searchRoot, text, p[0]))
  {
    if text != "" {
      var names := SplitPath(text).1;
      FirstNamedIs(searchRoot, names[0]);
      match ActualRoot(searchRoot, text)
      case Failure =>
      case Success(root) =>
        assert StartsAt(searchRoot, text, root);
        if Descend(root, names[1..]).Failure? {
          var p := DescendStuck(root, names[1..]);
        }
        forall p: seq<Test> | Stuck(p, names[1..]) && StartsAt(searchRoot, text, p[0])
          ensures Descend(root, names[1..]).Failure?
        {
          if text[0] != SLASH {
            FirstNamedOnly(searchRoot, p[0]);
          }
          StuckFails(p, names[1..]);
        }
    }
  }

  /** Printing a path and resolving the text from its root gives the path back exactly when
      no name in it holds a slash and every step goes to the first sibling of its name. */
  lemma PrintParseIff(p: seq<Test>)
    requires p != [] && Tree(p[0])
    ensures Resolve(p[0], PathText(p)) == Success(p) <==> Clean(p) && FirstSiblings(p)
  {
    var text := PathText(p);
    assert p == [p[0]] + p[1..];
    NamesOfText(p);
    if Clean(p) && FirstSiblings(p) {
      DescendAlong(p);
    }
    if Resolve(p[0], text) == Success(p) {
      ResolvedNames(p[0], text);
      var rest := Descend(p[0], Names(p)[1..]).value;
      assert ([p[0]] + rest)[1..] == rest;
      DescendOnlyAlong(p);
    }
  }

  // ---------- the path object ----------

  /** What the slice constructor takes: the positions from `indexFirst` on, `count` of them,
      that exist; all of them for a negative count. */
  function Slice(p: seq<Test>, indexFirst: int, count: int): seq<Test> {
    var first := if indexFirst < 0 then 0 else if indexFirst > |p| then |p| else indexFirst;
    var last := if count < 0 then |p| else indexFirst + count;
    p[first..if last < first then first else if last > |p| then |p| else last]
  }

  /** Position by position: a test is in the slice exactly when its index is asked for; a
      negative count asks for all from the first index on. */
  lemma SliceHolds(p: seq<Test>, indexFirst: int, count: int, i: nat)
    requires i < |p|
    ensures var s, first := Slice(p, indexFirst, count), if indexFirst < 0 then 0 else indexFirst;
            var asked := indexFirst <= i && (count < 0 || i < indexFirst + count);
            && (asked <==> first <= i && i - first < |s|)
            && (asked ==> s[i - first] == p[i])
            && (s == [] || first + |s| <= |p|)
  {
  }

  /** `p` with `middle` put before position `index`. */
  function Around(p: seq<Test>, index: nat, middle: seq<Test>): (r: seq<Test>)
    requires index <= |p|
    ensures |r| == |p| + |middle|
  {
    p[..index] + middle + p[index..]
  }

  lemma AroundAgain(p: seq<Test>, index: nat, middle: seq<Test>, x: Test)
    requires index <= |p|
    ensures Around(Around(p, index, middle), index, [x]) == Around(p, index, [x] + middle)
  {
    var now := Around(p, index, middle);
    assert now[..index] == p[..index];
    assert now[index..] == middle + p[index..];
    Assoc(p[..index] + [x], middle, p[index..]);
    Assoc(p[..index], [x], middle);
  }

  /** The tests of `path` from `item` on stand in front of position `index` of `was`. */
  predicate InsertedFrom(was: seq<Test>, index: int, path: seq<Test>, item: nat, now: seq<Test>) {
    item <= |path| && if item == |path| then now == was
                      else 0 <= index <= |was| && now == Around(was, index, path[item..])
  }

  lemma InsertStep(was: seq<Test>, index: int, path: seq<Test>, item: nat, now: seq<Test>)
    requires InsertedFrom(was, index, path, item + 1, now) && 0 <= index <= |now| && item < |path|
    ensures InsertedFrom(was, index, path, item, Around(now, index, [path[item]]))
  {
    if item + 1 == |path| {
      assert path[item..] == [path[item]];
    } else {
      assert path[item..] == [path[item]] + path[item + 1..];
      AroundAgain(was, index, path[item + 1..], path[item]);
    }
  }

  lemma InsertDone(was: seq<Test>, index: int, path: seq<Test>, now: seq<Test>)
    requires InsertedFrom(was, index, path, 0, now)
    ensures path == [] ==> now == was
    ensures path != [] ==> 0 <= index <= |was| && now == Around(was, index, path)
  {
    assert path[0..] == path;
  }

  lemma InsertNone(was: seq<Test>, index: int, path: seq<Test>)
    ensures InsertedFrom(was, index, path, |path|, was)
  {
  }

  /** The first insertion decides: its index is good exactly when it is good for `was`. */
  lemma IndexStaysGood(was: seq<Test>, index: int, path: seq<Test>, item: nat, now: seq<Test>)
    requires InsertedFrom(was, index, path, item, now) && item > 0
    ensures 0 <= index <= |now| <==> 0 <= index <= |was|
    ensures !(0 <= index <= |was|) ==> now == was
  {
  }

  // ---------- a path inserted into itself ----------

  /** The loop of insert reading the path it grows: `item` tests still to be read. */
  function OwnInserted(now: seq<Test>, index: nat, item: nat): (r: seq<Test>)
    requires index <= |now| && item <= |now|
    ensures |r| == |now| + item
    decreases item
  {
    if item == 0 then now else OwnInserted(Around(now, index, [now[item - 1]]), index, item - 1)
  }

  /** What stands behind the index moves back by one test a turn. */
  lemma {:induction false} OwnMoves(now: seq<Test>, index: nat, item: nat, k: nat)
    requires index + k < |now| && item <= |now|
    ensures OwnInserted(now, index, item)[index + item + k] == now[index + k]
    decreases item
  {
    if item > 0 {
      var next := Around(now, index, [now[item - 1]]);
      assert next[index + k + 1] == now[index + k];
      OwnMoves(next, index, item - 1, k + 1);
    }
  }

  lemma {:induction false} OwnAtTheEnd(was: seq<Test>, index: nat, item: nat, now: seq<Test>)
    requires |was| - 1 <= index <= |was| && item <= |was| && now == Around(was, index, was[item..])
    ensures OwnInserted(now, index, item) == Around(was, index, was)
    decreases item
  {
    if item == 0 {
      assert was[0..] == was;
    } else {
      assert now[item - 1] == was[item - 1];
      assert was[item - 1..] == [was[item - 1]] + was[item..];
      AroundAgain(was, index, was[item..], was[item - 1]);
      OwnAtTheEnd(was, index, item - 1, Around(now, index, [now[item - 1]]));
    }
  }

  /** The second test that is read is the wrong one. */
  lemma OwnBefore(was: seq<Test>, index: nat)
    requires index < |was| - 1 && forall i, j :: 0 <= i < j < |was| ==> was[i] != was[j]
    ensures OwnInserted(was, index, |was|) != Around(was, index, was)
  {
    var n := |was|;
    var one := Around(was, index, [was[n - 1]]);
    var two := Around(one, index, [one[n - 2]]);
    assert OwnInserted(was, index, n) == OwnInserted(two, index, n - 2);
    OwnMoves(two, index, n - 2, 0);
    assert two[index] == one[n - 2] == if n - 2 == index then was[n - 1] else was[n - 3];
    assert Around(was, index, was)[index + (n - 2)] == was[n - 2];
  }

  /** A path of different tests, inserted into itself, is the path around itself if and only if
      it is inserted at its end or before its last test; elsewhere the loop reads what it has
      just inserted or moved. */
  lemma OwnInsertedIff(was: seq<Test>, index: nat)
    requires index <= |was| && forall i, j :: 0 <= i < j < |was| ==> was[i] != was[j]
    ensures OwnInserted(was, index, |was|) == Around(was, index, was) <==> index >= |was| - 1
  {
    hide Around, OwnInserted;
    if index >= |was| - 1 {
      OwnStarts(was, index);
      OwnAtTheEnd(was, index, |was|, was);
    } else {
      OwnBefore(was, index);
    }
  }

  lemma OwnStarts(was: seq<Test>, index: nat)
    requires index <= |was|
    ensures was == Around(was, index, was[|was|..])
  {
  }

  /** The loop has `item` tests of this very path to go. */
  ghost predicate OwnFrom(was: seq<Test>, index: int, item: nat, now: seq<Test>) {
    && item <= |was| <= |now|
    && (item == |was| ==> now == was)
    && (item < |was| ==> 0 <= index <= |was|)
    && (0 <= index <= |was| ==> OwnInserted(now, index, item) == OwnInserted(was, index, |was|))
  }

  lemma OwnNone(was: seq<Test>, index: int)
    ensures OwnFrom(was, index, |was|, was)
  {
  }

  lemma OwnStep(was: seq<Test>, index: int, item: nat, now: seq<Test>)
    requires OwnFrom(was, index, item + 1, now) && 0 <= index <= |now|
    ensures 0 <= index <= |was| && OwnFrom(was, index, item, Around(now, index, [now[item]]))
  {
  }

  lemma OwnStays(was: seq<Test>, index: int, item: nat, now: seq<Test>)
    requires OwnFrom(was, index, item, now) && item > 0
    ensures 0 <= index <= |now| <==> 0 <= index <= |was|
    ensures !(0 <= index <= |was|) ==> now == was
  {
  }

  lemma OwnDone(was: seq<Test>, index: int, now: seq<Test>)
    requires OwnFrom(was, index, 0, now)
    ensures was == [] ==> now == was
    ensures was != [] ==> 0 <= index <= |was| && now == OwnInserted(was, index, |was|)
  {
  }

  class TestPath {
    var tests: seq<Test>

    constructor ()
      ensures tests == []
    {
      tests := [];
    }

    constructor FromSlice(other: TestPath, indexFirst: int, count: int)
      ensures tests == Slice(other.tests, indexFirst, count)
    {
      var first, adjustment := indexFirst, 0;
      if indexFirst < 0 {
        adjustment := indexFirst;
        first := 0;
      }
      var left := if count < 0 then |other.tests| else count + adjustment;
      var index, taken, total := first, [], left;
      while left > 0 && index < |other.tests|
        invariant left <= total && index == first + (total - left)
        invariant left >= 0 || (left == total && taken == [])
        invariant index <= |other.tests| || taken == []
        invariant index <= |other.tests| ==> taken == other.tests[first..index]
        invariant index > |other.tests| ==> index == first
        decreases left
      {
        taken := taken + [other.tests[index]];
        left := left - 1;
        index := index + 1;
      }
      tests := taken;
    }

    method Add(test: Test)
      modifies this
      ensures tests == old(tests) + [test]
    {
      tests := tests + [test];
    }

    /** False stands for the out_of_range exception. */
    method Insert(test: Test, index: int) returns (ok: bool)
      modifies this
      ensures ok <==> 0 <= index <= |old(tests)|
      ensures tests == if ok then Around(old(tests), index, [test]) else old(tests)
    {
      if index < 0 || index > |tests| {
        return false;
      }
      tests := tests[..index] + [test] + tests[index..];
      return true;
    }

    /** Inserting a path: its tests one by one, last first, each at the same index. */
    method InsertPath(path: TestPath, index: int) returns (ok: bool)
      modifies this
      ensures ok <==> old(path.tests) == [] || 0 <= index <= |old(tests)|
      ensures !ok || old(path.tests) == [] ==> tests == old(tests)
      ensures ok && path != this && path.tests != [] ==> tests == Around(old(tests), index, path.tests)
      ensures ok && path == this && old(tests) != [] ==> tests == OwnInserted(old(tests), index, |old(tests)|)
    {
      hide Around, InsertedFrom, OwnFrom;
      var itemIndex := |path.tests| - 1;
      ghost var was := tests;
      ok := true;
      InsertNone(was, index, path.tests);
      OwnNone(was, index);
      while itemIndex >= 0
        invariant -1 <= itemIndex < |path.tests| && ok
        invariant path == this || InsertedFrom(was, index, path.tests, itemIndex + 1, tests)
        invariant path != this || OwnFrom(was, index, itemIndex + 1, tests)
      {
        ghost var now := tests;
        if path == this {
          OwnStays(was, index, itemIndex + 1, now);
        } else {
          IndexStaysGood(was, index, path.tests, itemIndex + 1, now);
        }
        var item := path.tests[itemIndex];
        ok := Insert(item, index);
        if !ok {
          return;
        }
        if path == this {
          OwnStep(was, index, itemIndex, now);
        } else {
          InsertStep(was, index, path.tests, itemIndex, now);
        }
        itemIndex := itemIndex - 1;
      }
      if path == this {
        OwnDone(was, index, tests);
      } else {
        InsertDone(was, index, path.tests, tests);
      }
    }

    method ToString() returns (asString: string)
      ensures asString == PathText(tests)
    {
      asString := "/";
      var index := 0;
      while index < |tests|
        invariant index <= |tests| && asString == PathText(tests[..index])
      {
        if index > 0 {
          asString := asString + "/";
        }
        asString := asString + tests[index].name;
        TextGrows(tests, index);
        index := index + 1;
      }
      assert tests[..index] == tests;
    }
  }

  lemma TextGrows(p: seq<Test>, k: nat)
    requires k < |p|
    ensures PathText(p[..k + 1]) == (if k > 0 then PathText(p[..k]) + "/" else PathText(p[..k])) + p[k].name
  {
    assert Names(p[..k + 1]) == Names(p[..k]) + [p[k].name];
    if k > 0 {
      JoinAppend(Names(p[..k]), [p[k].name], SLASH);
    }
  }

  /** findTestPath of Test, by object and by name: the ancestors go in front of what the path
      held, the test found behind it. */
  method FindTestPath(t: Test, test: Test, testPath: TestPath) returns (found: bool)
    requires Tree(t)
    modifies testPath
    ensures var p := FirstChain(t, (y: Test) => y == test);
            && (found <==> p != [])
            && testPath.tests == if found then Extended(p, old(testPath.tests)) else old(testPath.tests)
    decreases t.height
  {
    hide Extended, Around;
    if t == test {
      FoundHere(t, testPath.tests);
      testPath.Add(t);
      return true;
    }
    var childIndex := 0;
    ghost var hit := (y: Test) => y == test;
    while childIndex < |t.children|
      invariant childIndex <= |t.children| && testPath.tests == old(testPath.tests)
      invariant FirstAmong(t, childIndex, hit) == FirstAmong(t, 0, hit)
    {
      found := FindTestPath(t.children[childIndex], test, testPath);
      if found {
        var ok := testPath.Insert(t, 0);
        ChainGrows(t, hit, FirstChain(t.children[childIndex], hit), old(testPath.tests));
        return true;
      }
      childIndex := childIndex + 1;
    }
    return false;
  }

  lemma FoundHere(t: Test, held: seq<Test>)
    ensures Extended([t], held) == held + [t]
  {
    assert [t][..0] + held == held;
  }

  lemma ChainGrows(t: Test, hit: Test -> bool, below: seq<Test>, held: seq<Test>)
    requires Tree(t) && !hit(t) && below != [] && FirstAmong(t, 0, hit) == below
    ensures FirstChain(t, hit) == [t] + below
    ensures Around(Extended(below, held), 0, [t]) == Extended([t] + below, held)
  {
    var x := Extended(below, held);
    assert x[..0] == [] && x[0..] == x && [] + [t] == [t];
    assert ([t] + below)[..|below|] == [t] + below[..|below| - 1];
    Assoc([t], below[..|below| - 1] + held, [below[|below| - 1]]);
    Assoc([t], below[..|below| - 1], held);
  }

  /** A path that held `held` after the chain `p` was found: the last test is added behind,
      the others are inserted in front. */
  function Extended(p: seq<Test>, held: seq<Test>): seq<Test>
    requires p != []
  {
    p[..|p| - 1] + held + [p[|p| - 1]]
  }

  method FindTestPathByName(t: Test, testName: string, testPath: TestPath) returns (found: bool)
    requires Tree(t)
    modifies testPath
    ensures var p := FirstChain(t, Named(testName));
            && (found <==> p != [])
            && testPath.tests == if found then Extended(p, old(testPath.tests)) else old(testPath.tests)
    decreases t.height
  {
    hide Extended, Around;
    if t.name == testName {
      FoundHere(t, testPath.tests);
      testPath.Add(t);
      return true;
    }
    var childIndex := 0;
    ghost var hit := Named(testName);
    while childIndex < |t.children|
      invariant childIndex <= |t.children| && testPath.tests == old(testPath.tests)
      invariant FirstAmong(t, childIndex, hit) == FirstAmong(t, 0, hit)
    {
      found := FindTestPathByName(t.children[childIndex], testName, testPath);
      if found {
        var ok := testPath.Insert(t, 0);
        ChainGrows(t, hit, FirstChain(t.children[childIndex], hit), old(testPath.tests));
        return true;
      }
      childIndex := childIndex + 1;
    }
    return false;
  }

  // ---------- the parsing constructor ----------

  /** splitPathString. */
  method SplitPathString(text: string) returns (isRelative: bool, testNames: seq<string>)
    ensures (isRelative, testNames) == SplitPath(text)
  {
    testNames := [];
    if text == "" {
      return true, testNames;
    }
    isRelative := text[0] != SLASH;
    var index := if isRelative then 0 else 1;
    ghost var start := index;
    while true
      invariant index <= |text|
      invariant testNames + PartsFrom(text, SLASH, index) == PartsFrom(text, SLASH, start)
      decreases |text| - index
    {
      var separatorIndex := Find(text, SLASH, index);
      ghost var was := testNames;
      if separatorIndex < |text| {
        testNames := testNames + [text[index..separatorIndex]];
        Assoc(was, [text[index..separatorIndex]], PartsFrom(text, SLASH, separatorIndex + 1));
        index := separatorIndex + 1;
      } else {
        testNames := testNames + [text[index..]];
        break;
      }
    }
  }

  /** findActualRoot: null stands for its exceptions. */
  method FindActualRoot(searchRoot: Test, text: string) returns (root: Test?, testNames: seq<string>)
    requires Tree(searchRoot)
    ensures testNames == SplitPath(text).1
    ensures root == null <==> ActualRoot(searchRoot, text).Failure?
    ensures root != null ==> ActualRoot(searchRoot, text).value == root
  {
    var isRelative;
    isRelative, testNames := SplitPathString(text);
    if isRelative && text == "" {
      return searchRoot, testNames;
    }
    root := searchRoot;
    if isRelative {
      var path := new TestPath();
      var found := FindTestPathByName(searchRoot, testNames[0], path);
      if !found {
        return null, testNames;
      }
      ghost var p := FirstChain(searchRoot, Named(testNames[0]));
      FirstChainIsChain(searchRoot, Named(testNames[0]));
      root := path.tests[|path.tests| - 1];
      assert root == p[|p| - 1];
    }
    if root.name != testNames[0] {
      return null, testNames;
    }
  }

  /** The loop that looks for a child by name. */
  method FindChild(parentTest: Test, name: string) returns (childIndex: nat)
    ensures childIndex == ChildNamed(parentTest, name, 0)
  {
    childIndex := 0;
    while childIndex < |parentTest.children|
      invariant childIndex <= |parentTest.children|
      invariant ChildNamed(parentTest, name, childIndex) == ChildNamed(parentTest, name, 0)
    {
      if parentTest.children[childIndex].name == name {
        return;
      }
      childIndex := childIndex + 1;
    }
  }

  /** TestPath(searchRoot, pathAsString): null stands for its exceptions. */
  method ResolveTestPath(searchRoot: Test, text: string) returns (path: TestPath?)
    requires Tree(searchRoot)
    ensures path == null <==> Resolve(searchRoot, text).Failure?
    ensures path != null ==> fresh(path) && Resolve(searchRoot, text) == Success(path.tests)
  {
    var root, testNames := FindActualRoot(searchRoot, text);
    if root == null {
      return null;
    }
    var found := new TestPath();
    found.Add(root);
    var parentTest: Test, index := root, 1;
    while index < |testNames|
      invariant 1 <= index && (testNames != [] ==> index <= |testNames|)
      invariant found.tests != []
      invariant text == "" ==> found.tests == [root]
      invariant text != "" ==> DescendedTo(root, testNames[1..], parentTest, testNames[index..], found.tests)
      decreases |testNames| - index
    {
      var childIndex := FindChild(parentTest, testNames[index]);
      assert testNames[index..][1..] == testNames[index + 1..];
      DescendStep(root, testNames[1..], parentTest, testNames[index..], found.tests);
      if childIndex == |parentTest.children| {
        return null;
      }
      parentTest := parentTest.children[childIndex];
      found.Add(parentTest);
      index := index + 1;
    }
    if text != "" {
      DescendEnds(root, testNames[1..], parentTest, testNames[index..], found.tests);
    }
    path := found;
  }

  lemma DescendStep(root: Test, names: seq<string>, parent: Test, left: seq<string>, taken: seq<Test>)
    requires DescendedTo(root, names, parent, left, taken) && left != []
    ensures var k := ChildNamed(parent, left[0], 0);
            if k == |parent.children| then Descend(root, names).Failure?
            else DescendedTo(root, names, parent.children[k], left[1..], taken + [parent.children[k]])
  {
    var k := ChildNamed(parent, left[0], 0);
    if k < |parent.children| {
      match Descend(parent.children[k], left[1..])
      case Failure =>
      case Success(rest) => Assoc(taken, [parent.children[k]], rest);
    }
  }

  lemma DescendEnds(root: Test, names: seq<string>, parent: Test, left: seq<string>, taken: seq<Test>)
    requires DescendedTo(root, names, parent, left, taken) && left == []
    ensures Descend(root, names) == Success(taken[1..]) && taken == [root] + taken[1..]
  {
    assert taken + [] == taken;
  }

  /** `taken` leads from `root` to `parent`, and only `left` of `names` is still to go. */
  ghost predicate DescendedTo(root: Test, names: seq<string>, parent: Test, left: seq<string>, taken: seq<Test>) {
    taken != [] && taken[0] == root
    && match Descend(parent, left)
       case Failure => Descend(root, names).Failure?
       case Success(rest) => Descend(root, names) == Success((taken + rest)[1..])
  }
}
