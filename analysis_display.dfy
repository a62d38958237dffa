/**
 * The data computed by display/analysis-display.js once a movie is loaded:
 * the character order by line count, the rows of the character selects and
 * table, the nodes and edges of the social graph, and the series behind the
 * character breakdown, pairwise interaction and direction sentiment charts.
 *
 * The document's `characters` object is a map plus the order of its keys
 * (`Object.keys` follows insertion order). A threshold comes from an input
 * field and is compared as a JavaScript number, so it may be NaN, in which
 * case `line_count <= threshold` never holds.
 */
module AnalysisDisplay {
  import opened Wrappers
  import opened Screenplay
  import opened DisplayUtils

  datatype CharacterInfo = CharacterInfo(name: string, lineCount: int, avgCs: real)
  datatype Cooccurrence = Cooccurrence(count: int, avgCs: real)

  /** `c.line_count <= threshold`, false whenever the threshold is not a number. */
  predicate AtMost(lineCount: int, threshold: JsNum) {
    threshold.Num? && lineCount as real <= threshold.v
  }

  function LineCount(characters: map<string, CharacterInfo>, name: string): int {
    if name in characters then characters[name].lineCount else 0
  }

  /** Every pair of positions in s is ordered by non-increasing line count. */
  predicate ByLineCount(s: seq<string>, characters: map<string, CharacterInfo>) {
    forall p, q :: 0 <= p < q < |s| ==> LineCount(characters, s[p]) >= LineCount(characters, s[q])
  }

  // ------------------------------------------------------------------ sort

  /** The keys of s with line count c, in their order in s. */
  function WithCount(s: seq<string>, characters: map<string, CharacterInfo>, c: int): seq<string> {
    if s == [] then []
    else
      var last := s[|s| - 1];
      WithCount(s[..|s| - 1], characters, c) + (if LineCount(characters, last) == c then [last] else [])
  }

  /** Keys with equal line counts keep their relative order. */
  ghost predicate SameTies(s: seq<string>, t: seq<string>, characters: map<string, CharacterInfo>) {
    forall c :: WithCount(s, characters, c) == WithCount(t, characters, c)
  }

  /**
   * `sortedCharacterNames.sort((a, b) => b.line_count - a.line_count)`: the
   * keys, rearranged in place into non-increasing line count. The sort is
   * stable, as `Array.prototype.sort` is: keys with equal line counts keep
   * their order.
   */
  method SortCharacterNames(a: array<string>, characters: map<string, CharacterInfo>)
    modifies a
    ensures multiset(a[..]) == multiset(old(a[..]))
    ensures ByLineCount(a[..], characters)
    ensures SameTies(a[..], old(a[..]), characters)
  {
    var i := 0;
    while i < a.Length
      invariant 0 <= i <= a.Length
      invariant multiset(a[..]) == multiset(old(a[..]))
      invariant SameTies(a[..], old(a[..]), characters)
      invariant OrderedUpTo(a[..], i, characters)
    {
      SinkDown(a, i, characters);
      i := i + 1;
    }
  }

  /** The first n keys of s are in non-increasing line count. */
  predicate OrderedUpTo(s: seq<string>, n: int, characters: map<string, CharacterInfo>) {
    forall p, q :: 0 <= p < q < n && q < |s| ==> LineCount(characters, s[p]) >= LineCount(characters, s[q])
  }

  /** One insertion step: a[i] moves left past every key with fewer lines. */
  method SinkDown(a: array<string>, i: int, characters: map<string, CharacterInfo>)
    requires 0 <= i < a.Length
    requires OrderedUpTo(a[..], i, characters)
    modifies a
    ensures multiset(a[..]) == multiset(old(a[..]))
    ensures SameTies(a[..], old(a[..]), characters)
    ensures OrderedUpTo(a[..], i + 1, characters)
  {
    var j := i;
    SinkStart(a[..], i, characters);
    while j > 0 && LineCount(characters, a[j - 1]) < LineCount(characters, a[j])
      invariant 0 <= j <= i
      invariant multiset(a[..]) == multiset(old(a[..]))
      invariant SameTies(a[..], old(a[..]), characters)
      invariant Sinking(a[..], i, j, characters)
    {
      SwapDown(a, i, j, characters);
      j := j - 1;
    }
    SinkDone(a[..], i, j, characters);
  }

  /** One swap of the insertion step: the key at j moves one place left, past a key with fewer lines. */
  method SwapDown(a: array<string>, i: int, j: int, characters: map<string, CharacterInfo>)
    requires Sinking(a[..], i, j, characters) && j > 0
    requires LineCount(characters, a[j - 1]) < LineCount(characters, a[j])
    modifies a
    ensures multiset(a[..]) == multiset(old(a[..]))
    ensures SameTies(a[..], old(a[..]), characters)
    ensures Sinking(a[..], i, j - 1, characters)
  {
    ghost var s := a[..];
    a[j - 1], a[j] := a[j], a[j - 1];
    assert a[..] == s[j - 1 := s[j]][j := s[j - 1]];
    SinkStep(s, i, j, characters);
    SwapKeepsTies(s, j, characters);
  }

  lemma SinkStart(s: seq<string>, i: int, characters: map<string, CharacterInfo>)
    requires 0 <= i < |s| && OrderedUpTo(s, i, characters)
    ensures Sinking(s, i, i, characters)
  {
  }

  /** The prefix s[..i+1] is ordered except for the key at j, which outranks everything after it. */
  predicate Sinking(s: seq<string>, i: int, j: int, characters: map<string, CharacterInfo>) {
    && 0 <= j <= i < |s|
    && (forall p, q :: 0 <= p < q <= i && p != j && q != j ==> LineCount(characters, s[p]) >= LineCount(characters, s[q]))
    && (forall q :: j < q <= i ==> LineCount(characters, s[j]) > LineCount(characters, s[q]))
  }

  lemma SinkStep(s: seq<string>, i: int, j: int, characters: map<string, CharacterInfo>)
    requires Sinking(s, i, j, characters) && j > 0
    requires LineCount(characters, s[j - 1]) < LineCount(characters, s[j])
    ensures Sinking(s[j - 1 := s[j]][j := s[j - 1]], i, j - 1, characters)
  {
  }

  /** WithCount distributes over concatenation. */
  lemma {:induction false} WithCountAppend(s: seq<string>, t: seq<string>, characters: map<string, CharacterInfo>, c: int)
    ensures WithCount(s + t, characters, c) == WithCount(s, characters, c) + WithCount(t, characters, c)
    decreases |t|
  {
    if t == [] {
      assert s + t == s;
    } else {
      var init := t[..|t| - 1];
      assert (s + t)[..|s + t| - 1] == s + init;
      assert (s + t)[|s + t| - 1] == t[|t| - 1];
      WithCountAppend(s, init, characters, c);
    }
  }

  lemma WithCountCons(x: string, r: seq<string>, characters: map<string, CharacterInfo>, c: int)
    ensures WithCount([x] + r, characters, c) == (if LineCount(characters, x) == c then [x] else []) + WithCount(r, characters, c)
  {
    WithCountAppend([x], r, characters, c);
    assert [x][..0] == [];
  }

  /** No key of s reaches c, so none has line count c. */
  lemma {:induction false} WithCountBelow(s: seq<string>, characters: map<string, CharacterInfo>, c: int)
    requires forall k :: 0 <= k < |s| ==> LineCount(characters, s[k]) < c
    ensures WithCount(s, characters, c) == []
    decreases |s|
  {
    if s != [] {
      WithCountBelow(s[..|s| - 1], characters, c);
    }
  }

  /**
   * The sort's contract fixes its result: two orderings by line count that
   * keep the same ties are the same sequence.
   */
  lemma {:induction false} SortedTiesUnique(s: seq<string>, t: seq<string>, characters: map<string, CharacterInfo>)
    requires ByLineCount(s, characters) && ByLineCount(t, characters)
    requires SameTies(s, t, characters)
    ensures s == t
    decreases |s| + |t|
  {
    if s == [] && t == [] {
      return;
    }
    TiesFirstFails(s, t, characters);
    var cs := LineCount(characters, s[0]);
    assert s == [s[0]] + s[1..] && t == [t[0]] + t[1..];
    WithCountCons(s[0], s[1..], characters, cs);
    WithCountCons(t[0], t[1..], characters, cs);
    assert WithCount(s, characters, cs) == [s[0]] + WithCount(s[1..], characters, cs);
    assert WithCount(t, characters, cs) == [t[0]] + WithCount(t[1..], characters, cs);
    assert WithCount(s, characters, cs) == WithCount(t, characters, cs);
    assert s[0] == WithCount(s, characters, cs)[0] == t[0];
    forall c
      ensures WithCount(s[1..], characters, c) == WithCount(t[1..], characters, c)
    {
      var head := if LineCount(characters, s[0]) == c then [s[0]] else [];
      WithCountCons(s[0], s[1..], characters, c);
      WithCountCons(t[0], t[1..], characters, c);
      assert WithCount(s, characters, c) == WithCount(t, characters, c);
      assert WithCount(s[1..], characters, c) == WithCount(s, characters, c)[|head|..];
      assert WithCount(t[1..], characters, c) == WithCount(t, characters, c)[|head|..];
    }
    SortedTiesUnique(s[1..], t[1..], characters);
  }

  /** Under the same ties, the two orderings cannot start with different line counts, nor one be empty. */
  lemma TiesFirstFails(s: seq<string>, t: seq<string>, characters: map<string, CharacterInfo>)
    requires ByLineCount(s, characters) && ByLineCount(t, characters)
    requires SameTies(s, t, characters)
    requires s != [] || t != []
    ensures s != [] && t != [] && LineCount(characters, s[0]) == LineCount(characters, t[0])
  {
    if s != [] && (t == [] || LineCount(characters, s[0]) > LineCount(characters, t[0])) {
      HeadMissing(s, t, characters);
    } else if t != [] && (s == [] || LineCount(characters, t[0]) > LineCount(characters, s[0])) {
      HeadMissing(t, s, characters);
    }
  }

  /** A first key whose count every key of t stays below breaks the ties. */
  lemma HeadMissing(s: seq<string>, t: seq<string>, characters: map<string, CharacterInfo>)
    requires s != [] && ByLineCount(t, characters)
    requires t == [] || LineCount(characters, s[0]) > LineCount(characters, t[0])
    ensures WithCount(s, characters, LineCount(characters, s[0])) != WithCount(t, characters, LineCount(characters, s[0]))
  {
    var c := LineCount(characters, s[0]);
    assert s == [s[0]] + s[1..];
    WithCountCons(s[0], s[1..], characters, c);
    WithCountBelow(t, characters, c);
  }

  /** Swapping two neighbours with different line counts keeps every tie in order. */
  lemma SwapKeepsTies(s: seq<string>, j: int, characters: map<string, CharacterInfo>)
    requires 0 < j < |s| && LineCount(characters, s[j - 1]) != LineCount(characters, s[j])
    ensures SameTies(s[j - 1 := s[j]][j := s[j - 1]], s, characters)
  {
    var t := s[j - 1 := s[j]][j := s[j - 1]];
    var pre, post := s[..j - 1], s[j + 1..];
    assert s == pre + [s[j - 1], s[j]] + post;
    assert t == pre + [s[j], s[j - 1]] + post;
    forall c
      ensures WithCount(t, characters, c) == WithCount(s, characters, c)
    {
      WithCountAppend(pre + [s[j - 1], s[j]], post, characters, c);
      WithCountAppend(pre, [s[j - 1], s[j]], characters, c);
      WithCountAppend(pre + [s[j], s[j - 1]], post, characters, c);
      WithCountAppend(pre, [s[j], s[j - 1]], characters, c);
      assert [s[j - 1], s[j]][..1] == [s[j - 1]] && [s[j], s[j - 1]][..1] == [s[j]];
    }
  }

  lemma SinkDone(s: seq<string>, i: int, j: int, characters: map<string, CharacterInfo>)
    requires Sinking(s, i, j, characters)
    requires j == 0 || LineCount(characters, s[j - 1]) >= LineCount(characters, s[j])
    ensures OrderedUpTo(s, i + 1, characters)
  {
  }

  // ---------------------------------------------------- selects and table

  /** The keys that pass a threshold, in the given order. */
  function Shown(order: seq<string>, characters: map<string, CharacterInfo>, threshold: JsNum): (r: seq<string>)
    requires forall k :: 0 <= k < |order| ==> order[k] in characters
    ensures |r| <= |order|
    ensures forall k :: 0 <= k < |r| ==> r[k] in characters
  {
    if order == [] then []
    else
      var rest := Shown(order[..|order| - 1], characters, threshold);
      var last := order[|order| - 1];
      if AtMost(characters[last].lineCount, threshold) then rest else rest + [last]
  }

  /** A key is shown exactly when it is in the order and has more lines than the threshold. */
  lemma {:induction false} ShownMembers(order: seq<string>, characters: map<string, CharacterInfo>, threshold: JsNum)
    requires forall k :: 0 <= k < |order| ==> order[k] in characters
    ensures forall x :: x in Shown(order, characters, threshold) <==> x in order && !AtMost(characters[x].lineCount, threshold)
  {
    if order != [] {
      var init := order[..|order| - 1];
      ShownMembers(init, characters, threshold);
      assert order == init + [order[|order| - 1]];
    }
  }

  /** Filtering keeps the relative order: a sorted order stays sorted. */
  lemma {:induction false} ShownKeepsOrder(order: seq<string>, characters: map<string, CharacterInfo>, threshold: JsNum)
    requires forall k :: 0 <= k < |order| ==> order[k] in characters
    requires ByLineCount(order, characters)
    ensures ByLineCount(Shown(order, characters, threshold), characters)
  {
    if order != [] {
      var init := order[..|order| - 1];
      var last := order[|order| - 1];
      assert ByLineCount(init, characters);
      ShownKeepsOrder(init, characters, threshold);
      ShownMembers(init, characters, threshold);
      var rest := Shown(init, characters, threshold);
      forall x | x in rest
        ensures LineCount(characters, x) >= LineCount(characters, last)
      {
        var k :| 0 <= k < |init| && init[k] == x;
        assert order[k] == x;
      }
      if !AtMost(characters[last].lineCount, threshold) {
        forall p, q | 0 <= p < q < |rest| + 1
          ensures LineCount(characters, (rest + [last])[p]) >= LineCount(characters, (rest + [last])[q])
        {
          if q == |rest| {
            assert rest[p] in rest;
          }
        }
      }
    }
  }

  /** fillCharacterSelect: one option, the character's name, per shown key. */
  method FillCharacterSelect(sortedNames: seq<string>, characters: map<string, CharacterInfo>, minLinesThreshold: JsNum)
    returns (options: seq<string>)
    requires forall k :: 0 <= k < |sortedNames| ==> sortedNames[k] in characters
    ensures |options| == |Shown(sortedNames, characters, minLinesThreshold)|
    ensures forall k :: 0 <= k < |options| ==> options[k] == characters[Shown(sortedNames, characters, minLinesThreshold)[k]].name
  {
    options := [];
    var i := 0;
    while i < |sortedNames|
      invariant 0 <= i <= |sortedNames|
      invariant |options| == |Shown(sortedNames[..i], characters, minLinesThreshold)|
      invariant forall k :: 0 <= k < |options| ==> options[k] == characters[Shown(sortedNames[..i], characters, minLinesThreshold)[k]].name
    {
      assert sortedNames[..i + 1][..i] == sortedNames[..i];
      var c := characters[sortedNames[i]];
      if !AtMost(c.lineCount, minLinesThreshold) {
        options := options + [c.name];
      }
      i := i + 1;
    }
    assert sortedNames[..i] == sortedNames;
  }

  datatype TableRow = TableRow(rank: int, name: string, lineCount: int, avgCs: real)

  /** The character table: shown characters in order, ranked 1, 2, 3, ... over the shown rows only. */
  method CharacterTableRows(sortedNames: seq<string>, characters: map<string, CharacterInfo>, minLinesThreshold: JsNum)
    returns (rows: seq<TableRow>)
    requires forall k :: 0 <= k < |sortedNames| ==> sortedNames[k] in characters
    ensures |rows| == |Shown(sortedNames, characters, minLinesThreshold)|
    ensures forall k :: 0 <= k < |rows| ==>
      var c := characters[Shown(sortedNames, characters, minLinesThreshold)[k]];
      rows[k] == TableRow(k + 1, c.name, c.lineCount, c.avgCs)
  {
    rows := [];
    var rank := 1;
    var n := 0;
    while n < |sortedNames|
      invariant 0 <= n <= |sortedNames|
      invariant rank == |rows| + 1
      invariant |rows| == |Shown(sortedNames[..n], characters, minLinesThreshold)|
      invariant forall k :: 0 <= k < |rows| ==>
        var c := characters[Shown(sortedNames[..n], characters, minLinesThreshold)[k]];
        rows[k] == TableRow(k + 1, c.name, c.lineCount, c.avgCs)
    {
      assert sortedNames[..n + 1][..n] == sortedNames[..n];
      var c := characters[sortedNames[n]];
      if !AtMost(c.lineCount, minLinesThreshold) {
        rows := rows + [TableRow(rank, c.name, c.lineCount, c.avgCs)];
        rank := rank + 1;
      }
      n := n + 1;
    }
    assert sortedNames[..n] == sortedNames;
  }

  // ------------------------------------------------------------ social graph

  datatype Node = Node(id: string, caption: string)
  datatype Edge = Edge(id: string, source: string, target: string)

  /** Every lookup `cooccurrences[ci.name][cj.name]` the graph loop makes succeeds. */
  predicate CooccurrencesCover(order: seq<string>, characters: map<string, CharacterInfo>,
                               cooccurrences: map<string, map<string, Cooccurrence>>, threshold: JsNum)
    requires forall k :: 0 <= k < |order| ==> order[k] in characters
  {
    forall p, q :: 0 <= p < |order| && 0 <= q < |order| && !AtMost(characters[order[p]].lineCount, threshold) ==>
      characters[order[p]].name in cooccurrences && characters[order[q]].name in cooccurrences[characters[order[p]].name]
  }

  /** The edge pushed for ci, cj, if any. */
  function EdgeFor(ci: string, cj: string, characters: map<string, CharacterInfo>,
                   cooccurrences: map<string, map<string, Cooccurrence>>, threshold: JsNum): Option<Edge>
    requires ci in characters && cj in characters
    requires characters[ci].name in cooccurrences && characters[cj].name in cooccurrences[characters[ci].name]
  {
    var a := characters[ci];
    var b := characters[cj];
    var co := cooccurrences[a.name][b.name];
    if ci == cj || co.count == 0 || AtMost(b.lineCount, threshold) then None
    else Some(Edge(a.name + "-" + b.name, a.name, b.name))
  }

  /** The edges from ci to the first q keys of the order. */
  function RowEdges(order: seq<string>, p: nat, q: nat, characters: map<string, CharacterInfo>,
                    cooccurrences: map<string, map<string, Cooccurrence>>, threshold: JsNum): seq<Edge>
    requires forall k :: 0 <= k < |order| ==> order[k] in characters
    requires p < |order| && q <= |order| && !AtMost(characters[order[p]].lineCount, threshold)
    requires CooccurrencesCover(order, characters, cooccurrences, threshold)
  {
    if q == 0 then []
    else
      var e := EdgeFor(order[p], order[q - 1], characters, cooccurrences, threshold);
      RowEdges(order, p, q - 1, characters, cooccurrences, threshold) + (if e.Some? then [e.value] else [])
  }

  /** The edges from the first p keys of the order. */
  function GraphEdges(order: seq<string>, p: nat, characters: map<string, CharacterInfo>,
                      cooccurrences: map<string, map<string, Cooccurrence>>, threshold: JsNum): seq<Edge>
    requires forall k :: 0 <= k < |order| ==> order[k] in characters
    requires p <= |order|
    requires CooccurrencesCover(order, characters, cooccurrences, threshold)
  {
    if p == 0 then []
    else if AtMost(characters[order[p - 1]].lineCount, threshold) then GraphEdges(order, p - 1, characters, cooccurrences, threshold)
    else GraphEdges(order, p - 1, characters, cooccurrences, threshold) + RowEdges(order, p - 1, |order|, characters, cooccurrences, threshold)
  }

  /** createSocialGraph, without the layout and styling: one node per shown character, and the edges. */
  method CreateSocialGraph(order: seq<string>, characters: map<string, CharacterInfo>,
                           cooccurrences: map<string, map<string, Cooccurrence>>, minLinesThresholdGraph: JsNum)
    returns (nodes: seq<Node>, edges: seq<Edge>)
    requires forall k :: 0 <= k < |order| ==> order[k] in characters
    requires CooccurrencesCover(order, characters, cooccurrences, minLinesThresholdGraph)
    ensures |nodes| == |Shown(order, characters, minLinesThresholdGraph)|
    ensures forall k :: 0 <= k < |nodes| ==>
      var c := characters[Shown(order, characters, minLinesThresholdGraph)[k]];
      nodes[k] == Node(c.name, c.name)
    ensures edges == GraphEdges(order, |order|, characters, cooccurrences, minLinesThresholdGraph)
  {
    nodes := SocialGraphNodes(order, characters, minLinesThresholdGraph);
    edges := [];
    var p := 0;
    while p < |order|
      invariant 0 <= p <= |order|
      invariant edges == GraphEdges(order, p, characters, cooccurrences, minLinesThresholdGraph)
    {
      var ci := characters[order[p]];
      if !AtMost(ci.lineCount, minLinesThresholdGraph) {
        var row := CharacterEdges(order, p, characters, cooccurrences, minLinesThresholdGraph);
        edges := edges + row;
      }
      p := p + 1;
    }
  }

  /** The node loop of createSocialGraph: one node per shown character, named and labelled by its name. */
  method SocialGraphNodes(order: seq<string>, characters: map<string, CharacterInfo>, minLinesThresholdGraph: JsNum)
    returns (nodes: seq<Node>)
    requires forall k :: 0 <= k < |order| ==> order[k] in characters
    ensures |nodes| == |Shown(order, characters, minLinesThresholdGraph)|
    ensures forall k :: 0 <= k < |nodes| ==>
      var c := characters[Shown(order, characters, minLinesThresholdGraph)[k]];
      nodes[k] == Node(c.name, c.name)
  {
    nodes := [];
    var n := 0;
    while n < |order|
      invariant 0 <= n <= |order|
      invariant |nodes| == |Shown(order[..n], characters, minLinesThresholdGraph)|
      invariant forall k :: 0 <= k < |nodes| ==>
        var c := characters[Shown(order[..n], characters, minLinesThresholdGraph)[k]];
        nodes[k] == Node(c.name, c.name)
    {
      ShownSnoc(order, n, characters, minLinesThresholdGraph);
      var c := characters[order[n]];
      if !AtMost(c.lineCount, minLinesThresholdGraph) {
        nodes := nodes + [Node(c.name, c.name)];
      }
      n := n + 1;
    }
    assert order[..n] == order;
  }

  /** One more key joins the shown keys when it passes the threshold. */
  lemma ShownSnoc(order: seq<string>, n: int, characters: map<string, CharacterInfo>, threshold: JsNum)
    requires forall k :: 0 <= k < |order| ==> order[k] in characters
    requires 0 <= n < |order|
    ensures Shown(order[..n + 1], characters, threshold)
      == Shown(order[..n], characters, threshold) + (if AtMost(characters[order[n]].lineCount, threshold) then [] else [order[n]])
  {
    assert order[..n + 1][..n] == order[..n];
  }

  /** The inner loop of createSocialGraph: the edges from order[p] to every key. */
  method CharacterEdges(order: seq<string>, p: nat, characters: map<string, CharacterInfo>,
                        cooccurrences: map<string, map<string, Cooccurrence>>, minLinesThresholdGraph: JsNum)
    returns (row: seq<Edge>)
    requires forall k :: 0 <= k < |order| ==> order[k] in characters
    requires p < |order| && !AtMost(characters[order[p]].lineCount, minLinesThresholdGraph)
    requires CooccurrencesCover(order, characters, cooccurrences, minLinesThresholdGraph)
    ensures row == RowEdges(order, p, |order|, characters, cooccurrences, minLinesThresholdGraph)
  {
    var ci := characters[order[p]];
    row := [];
    var q := 0;
    while q < |order|
      invariant 0 <= q <= |order|
      invariant row == RowEdges(order, p, q, characters, cooccurrences, minLinesThresholdGraph)
    {
      var cj := characters[order[q]];
      var co := cooccurrences[ci.name][cj.name];
      if !(order[p] == order[q] || co.count == 0 || AtMost(cj.lineCount, minLinesThresholdGraph)) {
        row := row + [Edge(ci.name + "-" + cj.name, ci.name, cj.name)];
      }
      q := q + 1;
    }
  }

  /** The two characters share at least one scene. */
  predicate SharedScene(cooccurrences: map<string, map<string, Cooccurrence>>, a: string, b: string) {
    a in cooccurrences && b in cooccurrences[a] && cooccurrences[a][b].count != 0
  }

  /** Names agree with their keys, as the analyzer writes them. */
  predicate NamedByKey(characters: map<string, CharacterInfo>) {
    forall k :: k in characters ==> characters[k].name == k
  }

  /** e joins order[i] to order[j]: distinct keys, both above the threshold, that share a scene. */
  predicate EdgeAt(order: seq<string>, characters: map<string, CharacterInfo>,
                   cooccurrences: map<string, map<string, Cooccurrence>>, threshold: JsNum, e: Edge, i: int, j: int)
    requires forall k :: 0 <= k < |order| ==> order[k] in characters
  {
    && 0 <= i < |order| && 0 <= j < |order|
    && e == Edge(order[i] + "-" + order[j], order[i], order[j])
    && order[i] != order[j] && SharedScene(cooccurrences, order[i], order[j])
    && !AtMost(characters[order[i]].lineCount, threshold) && !AtMost(characters[order[j]].lineCount, threshold)
  }

  lemma {:induction false} RowEdgesSpec(order: seq<string>, p: nat, q: nat, characters: map<string, CharacterInfo>,
                                        cooccurrences: map<string, map<string, Cooccurrence>>, threshold: JsNum, e: Edge)
    requires forall k :: 0 <= k < |order| ==> order[k] in characters
    requires p < |order| && q <= |order| && !AtMost(characters[order[p]].lineCount, threshold)
    requires CooccurrencesCover(order, characters, cooccurrences, threshold)
    requires NamedByKey(characters)
    ensures e in RowEdges(order, p, q, characters, cooccurrences, threshold) <==>
      exists k :: 0 <= k < q && EdgeAt(order, characters, cooccurrences, threshold, e, p, k)
  {
    if q > 0 {
      RowEdgesSpec(order, p, q - 1, characters, cooccurrences, threshold, e);
      var ef := EdgeFor(order[p], order[q - 1], characters, cooccurrences, threshold);
      assert characters[order[p]].name == order[p] && characters[order[q - 1]].name == order[q - 1];
      assert (ef.Some? && e == ef.value) <==> EdgeAt(order, characters, cooccurrences, threshold, e, p, q - 1);
    }
  }

  lemma GraphEdgesSpec(order: seq<string>, p: nat, characters: map<string, CharacterInfo>,
                       cooccurrences: map<string, map<string, Cooccurrence>>, threshold: JsNum, e: Edge)
    requires forall k :: 0 <= k < |order| ==> order[k] in characters
    requires p <= |order|
    requires CooccurrencesCover(order, characters, cooccurrences, threshold)
    requires NamedByKey(characters)
    ensures e in GraphEdges(order, p, characters, cooccurrences, threshold) <==>
      exists i, j :: 0 <= i < p && EdgeAt(order, characters, cooccurrences, threshold, e, i, j)
  {
    if e in GraphEdges(order, p, characters, cooccurrences, threshold) {
      GraphEdgesSound(order, p, characters, cooccurrences, threshold, e);
    }
    if exists i, j :: 0 <= i < p && EdgeAt(order, characters, cooccurrences, threshold, e, i, j) {
      var i, j :| 0 <= i < p && EdgeAt(order, characters, cooccurrences, threshold, e, i, j);
      GraphEdgesComplete(order, p, characters, cooccurrences, threshold, e, i, j);
    }
  }

  /** Every edge of the graph joins two keys that pass and share a scene. */
  lemma {:induction false} GraphEdgesSound(order: seq<string>, p: nat, characters: map<string, CharacterInfo>,
                                           cooccurrences: map<string, map<string, Cooccurrence>>, threshold: JsNum, e: Edge)
    requires forall k :: 0 <= k < |order| ==> order[k] in characters
    requires p <= |order|
    requires CooccurrencesCover(order, characters, cooccurrences, threshold)
    requires NamedByKey(characters)
    requires e in GraphEdges(order, p, characters, cooccurrences, threshold)
    ensures exists i, j :: 0 <= i < p && EdgeAt(order, characters, cooccurrences, threshold, e, i, j)
  {
    var before := GraphEdges(order, p - 1, characters, cooccurrences, threshold);
    var passes := !AtMost(characters[order[p - 1]].lineCount, threshold);
    var row := if passes then RowEdges(order, p - 1, |order|, characters, cooccurrences, threshold) else [];
    assert GraphEdges(order, p, characters, cooccurrences, threshold) == before + row;
    if e in before {
      GraphEdgesSound(order, p - 1, characters, cooccurrences, threshold, e);
      var i, j :| 0 <= i < p - 1 && EdgeAt(order, characters, cooccurrences, threshold, e, i, j);
      assert 0 <= i < p && EdgeAt(order, characters, cooccurrences, threshold, e, i, j);
    } else {
      assert passes && e in row;
      RowEdgesSpec(order, p - 1, |order|, characters, cooccurrences, threshold, e);
      var j :| 0 <= j < |order| && EdgeAt(order, characters, cooccurrences, threshold, e, p - 1, j);
      assert 0 <= p - 1 < p && EdgeAt(order, characters, cooccurrences, threshold, e, p - 1, j);
    }
  }

  /** Every pair of keys that pass and share a scene has its edge in the graph. */
  lemma {:induction false} GraphEdgesComplete(order: seq<string>, p: nat, characters: map<string, CharacterInfo>,
                                              cooccurrences: map<string, map<string, Cooccurrence>>, threshold: JsNum,
                                              e: Edge, i: nat, j: nat)
    requires forall k :: 0 <= k < |order| ==> order[k] in characters
    requires p <= |order|
    requires CooccurrencesCover(order, characters, cooccurrences, threshold)
    requires NamedByKey(characters)
    requires i < p && EdgeAt(order, characters, cooccurrences, threshold, e, i, j)
    ensures e in GraphEdges(order, p, characters, cooccurrences, threshold)
  {
    var before := GraphEdges(order, p - 1, characters, cooccurrences, threshold);
    var passes := !AtMost(characters[order[p - 1]].lineCount, threshold);
    var row := if passes then RowEdges(order, p - 1, |order|, characters, cooccurrences, threshold) else [];
    assert GraphEdges(order, p, characters, cooccurrences, threshold) == before + row;
    if i < p - 1 {
      GraphEdgesComplete(order, p - 1, characters, cooccurrences, threshold, e, i, j);
      assert e in before;
    } else {
      assert i == p - 1;
      assert EdgeAt(order, characters, cooccurrences, threshold, e, p - 1, j);
      RowEdgesSpec(order, p - 1, |order|, characters, cooccurrences, threshold, e);
      assert e in row;
    }
  }

  /**
   * The social graph has an edge a -> b, with id a + "-" + b, exactly when a
   * and b are distinct keys, both above the threshold, that share a scene.
   */
  lemma SocialGraphEdges(order: seq<string>, characters: map<string, CharacterInfo>,
                         cooccurrences: map<string, map<string, Cooccurrence>>, threshold: JsNum, a: string, b: string)
    requires forall k :: 0 <= k < |order| ==> order[k] in characters
    requires CooccurrencesCover(order, characters, cooccurrences, threshold)
    requires NamedByKey(characters)
    ensures Edge(a + "-" + b, a, b) in GraphEdges(order, |order|, characters, cooccurrences, threshold) <==>
      a in order && b in order && a != b && SharedScene(cooccurrences, a, b)
        && !AtMost(characters[a].lineCount, threshold) && !AtMost(characters[b].lineCount, threshold)
  {
    var e := Edge(a + "-" + b, a, b);
    GraphEdgesSpec(order, |order|, characters, cooccurrences, threshold, e);
    if e in GraphEdges(order, |order|, characters, cooccurrences, threshold) {
      var i, j :| 0 <= i < |order| && EdgeAt(order, characters, cooccurrences, threshold, e, i, j);
      assert order[i] == a && order[j] == b;
    }
    if a in order && b in order && a != b && SharedScene(cooccurrences, a, b)
        && !AtMost(characters[a].lineCount, threshold) && !AtMost(characters[b].lineCount, threshold) {
      var i :| 0 <= i < |order| && order[i] == a;
      var j :| 0 <= j < |order| && order[j] == b;
      assert EdgeAt(order, characters, cooccurrences, threshold, e, i, j);
    }
  }

  // ---------------------------------------------------- character breakdown

  /** JavaScript `sum / count` where a zero count only ever meets a zero sum (0/0 is NaN). */
  function JsDiv(sum: JsNum, count: int): JsNum {
    if sum.Num? && count != 0 then Num(sum.v / count as real) else NaN
  }

  /** The JavaScript sum of a series, starting from 0. */
  function JsSum(s: seq<JsNum>): JsNum {
    if s == [] then Num(0.0) else JsAdd(JsSum(s[..|s| - 1]), s[|s| - 1])
  }

  function Repeat(x: JsNum, n: nat): (r: seq<JsNum>)
    ensures |r| == n && forall k :: 0 <= k < n ==> r[k] == x
  {
    if n == 0 then [] else Repeat(x, n - 1) + [x]
  }

  datatype Breakdown = Breakdown(lineIndices: seq<int>, lines: seq<string>, scores: seq<JsNum>,
                                 scoresSceneAvg: seq<JsNum>, lineIndex: int, sceneLines: nat, sceneSum: JsNum)

  /** The loop state of showCharacterBreakdown after the iterations i = 1 .. n-1. */
  function BreakdownUpTo(entries: seq<Entry>, name: string, n: nat): Breakdown
    requires n <= |entries|
  {
    if n <= 1 then Breakdown([], [], [], [], 0, 0, Num(0.0))
    else
      var st := BreakdownUpTo(entries, name, n - 1);
      var i := n - 1;
      var e := entries[i];
      if e.kind == Speech && entries[i - 1].kind == Character then
        if entries[i - 1].content == name then
          st.(lineIndices := st.lineIndices + [st.lineIndex], lines := st.lines + [e.content],
              scores := st.scores + [ScoreOf(e)], sceneLines := st.sceneLines + 1,
              sceneSum := JsAdd(st.sceneSum, ScoreOf(e)), lineIndex := st.lineIndex + 1)
        else st.(lineIndex := st.lineIndex + 1)
      else if e.kind == Location then
        st.(scoresSceneAvg := st.scoresSceneAvg + Repeat(JsDiv(st.sceneSum, st.sceneLines), st.sceneLines),
            sceneLines := 0, sceneSum := Num(0.0))
      else st
  }

  predicate StrictlyIncreasing(s: seq<int>) {
    forall p, q :: 0 <= p < q < |s| ==> s[p] < s[q]
  }

  /**
   * The breakdown series of `name`: one index, text and score per line of
   * `name`; the index counts the lines of every speaker, so it strictly
   * increases; the per-scene series is flushed only at a LOCATION and holds
   * exactly the lines before the last one, its open scene being summed.
   */
  lemma BreakdownShape(entries: seq<Entry>, name: string, n: nat)
    requires n <= |entries|
    ensures var st := BreakdownUpTo(entries, name, n);
      && |st.lineIndices| == |st.lines| == |st.scores| == CountLinesOf(entries, name, n)
      && st.lineIndex == CountLines(entries, n)
      && StrictlyIncreasing(st.lineIndices)
      && (forall k :: 0 <= k < |st.lineIndices| ==> 0 <= st.lineIndices[k] < st.lineIndex)
      && |st.scoresSceneAvg| + st.sceneLines == |st.scores|
      && st.sceneSum == JsSum(st.scores[|st.scoresSceneAvg|..])
  {
    BreakdownLines(entries, name, n);
    BreakdownScenes(entries, name, n);
  }

  /** One index, text and score per line of `name`; the index counts every speaker's lines and strictly increases. */
  lemma {:induction false} BreakdownLines(entries: seq<Entry>, name: string, n: nat)
    requires n <= |entries|
    ensures var st := BreakdownUpTo(entries, name, n);
      && |st.lineIndices| == |st.lines| == |st.scores| == CountLinesOf(entries, name, n)
      && st.lineIndex == CountLines(entries, n)
      && StrictlyIncreasing(st.lineIndices)
      && (forall k :: 0 <= k < |st.lineIndices| ==> 0 <= st.lineIndices[k] < st.lineIndex)
  {
    if n > 1 {
      BreakdownLines(entries, name, n - 1);
    }
  }

  /** The per-scene series holds every score before the open scene, whose scores are summed. */
  lemma {:induction false} BreakdownScenes(entries: seq<Entry>, name: string, n: nat)
    requires n <= |entries|
    ensures var st := BreakdownUpTo(entries, name, n);
      && |st.scoresSceneAvg| + st.sceneLines == |st.scores|
      && st.sceneSum == JsSum(st.scores[|st.scoresSceneAvg|..])
  {
    if n > 1 {
      BreakdownScenes(entries, name, n - 1);
      var st := BreakdownUpTo(entries, name, n - 1);
      var i := n - 1;
      var e := entries[i];
      if e.kind == Speech && entries[i - 1].kind == Character && entries[i - 1].content == name {
        var pending := st.scores[|st.scoresSceneAvg|..];
        assert (st.scores + [ScoreOf(e)])[|st.scoresSceneAvg|..] == pending + [ScoreOf(e)];
        assert (pending + [ScoreOf(e)])[..|pending|] == pending;
      } else if !(e.kind == Speech && entries[i - 1].kind == Character) && e.kind == Location {
        assert st.scores[|st.scores|..] == [];
      }
    }
  }

  /** With every line scored within [lo, hi], each per-scene average is a number within [lo, hi]. */
  lemma {:induction false} BreakdownSceneAveragesWithin(entries: seq<Entry>, name: string, n: nat, lo: real, hi: real)
    requires n <= |entries|
    requires forall i :: 0 <= i < |entries| && entries[i].kind == Speech ==> entries[i].cs.Some? && lo <= entries[i].cs.value <= hi
    ensures NumsWithin(BreakdownUpTo(entries, name, n).scores, lo, hi)
    ensures NoUndefined(BreakdownUpTo(entries, name, n).scores)
    ensures NumsWithin(BreakdownUpTo(entries, name, n).scoresSceneAvg, lo, hi)
    ensures NoUndefined(BreakdownUpTo(entries, name, n).scoresSceneAvg)
    ensures forall k :: 0 <= k < |BreakdownUpTo(entries, name, n).scoresSceneAvg| ==> BreakdownUpTo(entries, name, n).scoresSceneAvg[k].Num?
    ensures BreakdownUpTo(entries, name, n).sceneSum.Num?
    ensures SumWithin(BreakdownUpTo(entries, name, n).sceneSum.v, BreakdownUpTo(entries, name, n).sceneLines as real, lo, hi)
  {
    if n > 1 {
      BreakdownSceneAveragesWithin(entries, name, n - 1, lo, hi);
      var st := BreakdownUpTo(entries, name, n - 1);
      var i := n - 1;
      var e := entries[i];
      if e.kind == Speech && entries[i - 1].kind == Character && entries[i - 1].content == name {
        SumStepBounds(st.sceneSum.v, st.sceneLines as real, e.cs.value, lo, hi,
                      BreakdownUpTo(entries, name, n).sceneSum.v, BreakdownUpTo(entries, name, n).sceneLines as real);
      } else if !(e.kind == Speech && entries[i - 1].kind == Character) && e.kind == Location {
        if st.sceneLines > 0 {
          MeanBounds(st.sceneSum.v, st.sceneLines as real, lo, hi);
        }
      }
    } else {
      assert SumWithin(0.0, 0.0, lo, hi);
    }
  }

  /** showCharacterBreakdown's loop, with the chart's smoothed series. */
  method ShowCharacterBreakdown(entries: seq<Entry>, name: string)
    returns (lineIndices: seq<int>, lines: seq<string>, scores: seq<JsNum>, scoresSceneAvg: seq<JsNum>, smoothed: seq<JsNum>)
    ensures var st := BreakdownUpTo(entries, name, |entries|);
      lineIndices == st.lineIndices && lines == st.lines && scores == st.scores && scoresSceneAvg == st.scoresSceneAvg
    ensures smoothed == Smooth(scores, None)
  {
    lineIndices, lines, scores, scoresSceneAvg := [], [], [], [];
    var lineIndex := 0;
    var sceneLines: nat, sceneSum := 0, Num(0.0);
    var i := 1;
    while i < |entries|
      invariant 1 <= i <= |entries| || (|entries| == 0 && i == 1)
      invariant BreakdownUpTo(entries, name, if |entries| == 0 then 0 else i)
        == Breakdown(lineIndices, lines, scores, scoresSceneAvg, lineIndex, sceneLines, sceneSum)
    {
      var prevE := entries[i - 1];
      var e := entries[i];
      if e.kind == Speech && prevE.kind == Character {
        if prevE.content == name {
          lineIndices := lineIndices + [lineIndex];
          lines := lines + [e.content];
          scores := scores + [ScoreOf(e)];
          sceneLines := sceneLines + 1;
          sceneSum := JsAdd(sceneSum, ScoreOf(e));
        }
        lineIndex := lineIndex + 1;
      } else if e.kind == Location {
        var sceneAvg := JsDiv(sceneSum, sceneLines);
        var j := 0;
        ghost var before := scoresSceneAvg;
        while j < sceneLines
          invariant 0 <= j <= sceneLines
          invariant scoresSceneAvg == before + Repeat(sceneAvg, j)
        {
          scoresSceneAvg := scoresSceneAvg + [sceneAvg];
          j := j + 1;
        }
        sceneLines := 0;
        sceneSum := Num(0.0);
      }
      i := i + 1;
    }
    smoothed := SmoothMovingWindow(scores, None);
  }

  // ------------------------------------------------- character interactions

  datatype InteractionState = InteractionState(lineIndices: seq<int>, lines: seq<string>, scoresA: seq<JsNum>,
                                               scoresB: seq<JsNum>, numInteractions: nat, lineIndex: nat)

  /** The loop `for (i = 2; i < length - 2; i++)` stops here. */
  function ScanEnd(entries: seq<Entry>): nat {
    if |entries| >= 4 then |entries| - 2 else 2
  }

  /** The two tests of one CHARACTER entry at i: A talks to B, and B talks to A. */
  function Turn(entries: seq<Entry>, nameA: string, nameB: string, i: nat): (bool, bool)
    requires 0 < i < |entries| - 1
  {
    var e := entries[i];
    var isA := e.content == nameA;
    var isB := e.content == nameB;
    var previousCharacter := PreviousCharacter(entries, i);
    var nextCharacter := NextCharacter(entries, i);
    (isA && (previousCharacter == Some(nameB) || nextCharacter == Some(nameB)),
     isB && (previousCharacter == Some(nameA) || nextCharacter == Some(nameA)))
  }

  /** The loop state of showCharacterInteractions after the iterations i = 2 .. n-1. */
  function InteractionsUpTo(entries: seq<Entry>, nameA: string, nameB: string, n: nat): InteractionState
    requires 2 <= n <= ScanEnd(entries)
  {
    if n == 2 then InteractionState([], [], [], [], 0, 0)
    else
      var st := InteractionsUpTo(entries, nameA, nameB, n - 1);
      var i := n - 1;
      if entries[i].kind != Character then st
      else
        var speech := entries[i + 1];
        var (aToB, bToA) := Turn(entries, nameA, nameB, i);
        var sA := st.scoresA + (if aToB then [ScoreOf(speech)] else []) + (if bToA then [NaN] else []);
        var sB := st.scoresB + (if aToB then [NaN] else []) + (if bToA then [ScoreOf(speech)] else []);
        if aToB || bToA then
          InteractionState(st.lineIndices + [st.lineIndex], st.lines + [speech.content], sA, sB,
                           st.numInteractions + 1, st.lineIndex + 1)
        else
          InteractionState(st.lineIndices, st.lines, sA, sB, st.numInteractions, st.lineIndex + 1)
  }

  /** At every position exactly one of the two series holds the NaN gap. */
  predicate OneGapEach(sA: seq<JsNum>, sB: seq<JsNum>)
    requires |sA| == |sB|
  {
    forall k :: 0 <= k < |sA| ==> (sA[k] == NaN <==> sB[k] != NaN)
  }

  /**
   * The pairwise series: both score series have one slot per pushed score,
   * each slot a score in one series and the NaN gap in the other; there is
   * one line and one index per turn, the indices strictly increasing; and a
   * turn pushes two slots only when it counts both ways.
   */
  lemma {:induction false} InteractionsShape(entries: seq<Entry>, nameA: string, nameB: string, n: nat)
    requires 2 <= n <= ScanEnd(entries)
    ensures var st := InteractionsUpTo(entries, nameA, nameB, n);
      && |st.lines| == |st.lineIndices| == st.numInteractions
      && |st.scoresA| == |st.scoresB|
      && st.numInteractions <= |st.scoresA| <= 2 * st.numInteractions
      && OneGapEach(st.scoresA, st.scoresB)
      && StrictlyIncreasing(st.lineIndices)
      && (forall k :: 0 <= k < |st.lineIndices| ==> 0 <= st.lineIndices[k] < st.lineIndex)
      && (nameA != nameB ==> |st.scoresA| == st.numInteractions)
  {
    if n > 2 {
      InteractionsShape(entries, nameA, nameB, n - 1);
    }
  }

  /** `(x || 0)`: NaN, undefined and 0 all count as 0. */
  function OrZero(x: JsNum): real {
    if x.Num? then x.v else 0.0
  }

  function SumOrZero(s: seq<JsNum>): real {
    if s == [] then 0.0 else SumOrZero(s[..|s| - 1]) + OrZero(s[|s| - 1])
  }

  /** One series' share of averageScore: gaps count as 0 and the divisor is the full length. */
  function SeriesShare(s: seq<JsNum>): real {
    if |s| == 0 then 0.0 else SumOrZero(s) / |s| as real
  }

  /** averageScore accumulated over a series, one `(s[i] || 0) / s.length` at a time. */
  method AccumulateShare(s: seq<JsNum>, start: real) returns (averageScore: real)
    ensures averageScore == start + SeriesShare(s)
  {
    averageScore := start;
    var i := 0;
    while i < |s|
      invariant 0 <= i <= |s|
      invariant averageScore == start + (if |s| == 0 then 0.0 else SumOrZero(s[..i]) / |s| as real)
    {
      assert s[..i + 1][..i] == s[..i];
      DivAdd(SumOrZero(s[..i]), OrZero(s[i]), |s| as real);
      averageScore := averageScore + OrZero(s[i]) / |s| as real;
      i := i + 1;
    }
    assert s[..i] == s;
  }

  lemma DivAdd(a: real, b: real, d: real)
    requires d != 0.0
    ensures a / d + b / d == (a + b) / d
  {
  }

  datatype InteractionView =
    | NoInteractions
    | Chart(exchanges: int, averageScore: real, lineIndices: seq<int>, lines: seq<string>,
            scoresA: seq<JsNum>, scoresB: seq<JsNum>, smoothedA: seq<JsNum>, smoothedB: seq<JsNum>)

  /** showCharacterInteractions: "No interactions" when no turn qualifies, otherwise the exchange count, the average and the series. */
  method ShowCharacterInteractions(entries: seq<Entry>, nameA: string, nameB: string) returns (view: InteractionView)
    ensures var st := InteractionsUpTo(entries, nameA, nameB, ScanEnd(entries));
      view == if st.numInteractions == 0 then NoInteractions
              else Chart(st.numInteractions / 2, SeriesShare(st.scoresA) + SeriesShare(st.scoresB), st.lineIndices, st.lines,
                         st.scoresA, st.scoresB, Smooth(st.scoresA, None), Smooth(st.scoresB, None))
  {
    var lineIndices: seq<int> := [];
    var lines: seq<string> := [];
    var lineIndex: nat := 0;
    var scoresA: seq<JsNum> := [];
    var scoresB: seq<JsNum> := [];
    var numInteractions: nat := 0;
    var i := 2;
    while i < |entries| - 2
      invariant 2 <= i <= ScanEnd(entries)
      invariant InteractionsUpTo(entries, nameA, nameB, i)
        == InteractionState(lineIndices, lines, scoresA, scoresB, numInteractions, lineIndex)
    {
      var e := entries[i];
      if e.kind == Character {
        var speech := entries[i + 1];
        var isA, isB := e.content == nameA, e.content == nameB;
        var previousCharacter := GetPreviousCharacter(entries, i);
        var nextCharacter := GetNextCharacter(entries, i);
        var aToB := isA && (previousCharacter == Some(nameB) || nextCharacter == Some(nameB));
        var bToA := isB && (previousCharacter == Some(nameA) || nextCharacter == Some(nameA));
        if aToB {
          scoresA := scoresA + [ScoreOf(speech)];
          scoresB := scoresB + [NaN];
        }
        if bToA {
          scoresB := scoresB + [ScoreOf(speech)];
          scoresA := scoresA + [NaN];
        }
        if aToB || bToA {
          numInteractions := numInteractions + 1;
          lines := lines + [speech.content];
          lineIndices := lineIndices + [lineIndex];
        }
        lineIndex := lineIndex + 1;
      }
      i := i + 1;
    }

    var averageScore := AccumulateShare(scoresA, 0.0);
    averageScore := AccumulateShare(scoresB, averageScore);

    if numInteractions == 0 {
      return NoInteractions;
    }
    var smoothedA := SmoothMovingWindow(scoresA, None);
    var smoothedB := SmoothMovingWindow(scoresB, None);
    view := Chart(numInteractions / 2, averageScore, lineIndices, lines, scoresA, scoresB, smoothedA, smoothedB);
  }

  /**
   * The scene A, B, A, B closed by a LOCATION, pinned: only index 2 is
   * scanned, so one turn (B answering A) is counted and the average is the
   * gap-as-zero mean of each series, summed.
   */
  lemma TwoSpeakerScene()
    ensures var entries := [Entry(Character, "A", None), Entry(Speech, "hi", Some(0.5)),
                            Entry(Character, "B", None), Entry(Speech, "no", Some(-0.5)),
                            Entry(Location, "EXT. ROAD", None)];
      var st := InteractionsUpTo(entries, "A", "B", ScanEnd(entries));
      && st.numInteractions == 1
      && st.scoresA == [NaN] && st.scoresB == [Num(-0.5)]
      && SeriesShare(st.scoresA) + SeriesShare(st.scoresB) == -0.5
  {
    var entries := [Entry(Character, "A", None), Entry(Speech, "hi", Some(0.5)),
                    Entry(Character, "B", None), Entry(Speech, "no", Some(-0.5)),
                    Entry(Location, "EXT. ROAD", None)];
    assert ScanBackward(entries, "B", 0) == Some("A");
    assert PreviousCharacter(entries, 2) == Some("A");
    assert ScanForward(entries, "B", 4) == None;
    assert NextCharacter(entries, 2) == None;
    assert [NaN][..0] == [];
    assert [Num(-0.5)][..0] == [];
  }

  /**
   * When both selects name the same character, one cue can count both ways:
   * a cue whose forward scan ends on a same-name cue at the last entry pushes
   * two slots into each series for one interaction.
   */
  lemma SameNameCountsTwice()
    ensures var entries := [Entry(Direction, "FADE IN", Some(0.0)), Entry(Direction, "NIGHT", Some(0.0)),
                            Entry(Character, "X", None), Entry(Speech, "hello", Some(0.2)),
                            Entry(Character, "X", None)];
      var st := InteractionsUpTo(entries, "X", "X", ScanEnd(entries));
      st.numInteractions == 1 && |st.scoresA| == 2 && |st.scoresB| == 2
  {
    var entries := [Entry(Direction, "FADE IN", Some(0.0)), Entry(Direction, "NIGHT", Some(0.0)),
                    Entry(Character, "X", None), Entry(Speech, "hello", Some(0.2)),
                    Entry(Character, "X", None)];
    assert ScanForward(entries, "X", 4) == Some("X");
    assert ScanForward(entries, "X", 3) == Some("X");
    assert NextCharacter(entries, 2) == Some("X");
  }

  // ------------------------------------------------------ direction chart

  /** The DIRECTION entries, in script order. */
  function Directions(entries: seq<Entry>): (ds: seq<Entry>)
    ensures |ds| <= |entries|
    ensures forall k :: 0 <= k < |ds| ==> ds[k].kind == Direction
  {
    if entries == [] then []
    else
      var init := entries[..|entries| - 1];
      var last := entries[|entries| - 1];
      Directions(init) + (if last.kind == Direction then [last] else [])
  }

  /** Every DIRECTION entry is among the directions, and nothing else is. */
  lemma {:induction false} DirectionsMembers(entries: seq<Entry>)
    ensures forall e :: e in entries && e.kind == Direction ==> e in Directions(entries)
    ensures forall e :: e in Directions(entries) ==> e in entries
    decreases |entries|
  {
    if entries != [] {
      var init := entries[..|entries| - 1];
      DirectionsMembers(init);
      assert entries == init + [entries[|entries| - 1]];
    }
  }

  /** The positions of the DIRECTION entries, in script order. */
  ghost function DirectionIndices(entries: seq<Entry>): seq<int> {
    if entries == [] then []
    else
      var last := entries[|entries| - 1];
      DirectionIndices(entries[..|entries| - 1]) + (if last.kind == Direction then [|entries| - 1] else [])
  }

  /**
   * Directions keeps every DIRECTION entry, repeated ones included, in
   * script order: its k-th element is the entry at the k-th position of a
   * strictly increasing list holding every DIRECTION position.
   */
  lemma DirectionsIndexed(entries: seq<Entry>)
    ensures var idx, ds := DirectionIndices(entries), Directions(entries);
      && |idx| == |ds|
      && (forall k :: 0 <= k < |idx| ==> 0 <= idx[k] < |entries| && ds[k] == entries[idx[k]])
      && (forall k, l :: 0 <= k < l < |idx| ==> idx[k] < idx[l])
      && (forall n :: 0 <= n < |entries| && entries[n].kind == Direction ==> n in idx)
  {
    IndicesAlign(entries);
    IndicesOrdered(entries);
  }

  /** The k-th DIRECTION entry sits at the k-th DIRECTION position. */
  lemma {:induction false} IndicesAlign(entries: seq<Entry>)
    ensures var idx, ds := DirectionIndices(entries), Directions(entries);
      && |idx| == |ds|
      && (forall k :: 0 <= k < |idx| ==> 0 <= idx[k] < |entries| && ds[k] == entries[idx[k]])
    decreases |entries|
  {
    if entries != [] {
      var init, last := entries[..|entries| - 1], entries[|entries| - 1];
      IndicesAlign(init);
      var idx0, ds0 := DirectionIndices(init), Directions(init);
      var idx, ds := DirectionIndices(entries), Directions(entries);
      assert idx == idx0 + (if last.kind == Direction then [|entries| - 1] else []);
      assert ds == ds0 + (if last.kind == Direction then [last] else []);
      forall k | 0 <= k < |idx|
        ensures 0 <= idx[k] < |entries| && ds[k] == entries[idx[k]]
      {
        if k < |idx0| {
          assert idx[k] == idx0[k] && ds[k] == ds0[k] && init[idx0[k]] == entries[idx0[k]];
        }
      }
    }
  }

  /** The DIRECTION positions increase strictly and miss none. */
  lemma {:induction false} IndicesOrdered(entries: seq<Entry>)
    ensures forall k :: 0 <= k < |DirectionIndices(entries)| ==> 0 <= DirectionIndices(entries)[k] < |entries|
    ensures forall k, l :: 0 <= k < l < |DirectionIndices(entries)| ==> DirectionIndices(entries)[k] < DirectionIndices(entries)[l]
    ensures forall n :: 0 <= n < |entries| && entries[n].kind == Direction ==> n in DirectionIndices(entries)
    decreases |entries|
  {
    if entries != [] {
      var init, last := entries[..|entries| - 1], entries[|entries| - 1];
      IndicesOrdered(init);
      var idx0 := DirectionIndices(init);
      var idx := DirectionIndices(entries);
      assert idx == idx0 + (if last.kind == Direction then [|entries| - 1] else []);
      forall k, l | 0 <= k < l < |idx|
        ensures idx[k] < idx[l]
      {
        assert idx[k] == idx0[k] < |init|;
        if l < |idx0| {
          assert idx[l] == idx0[l];
        }
      }
      forall n | 0 <= n < |entries| && entries[n].kind == Direction
        ensures n in idx
      {
        if n < |init| {
          assert init[n] == entries[n];
        }
      }
    }
  }

  /** One more entry adds itself to the DIRECTION entries when it is one. */
  lemma DirectionsSnoc(entries: seq<Entry>, i: int)
    requires 0 <= i < |entries|
    ensures Directions(entries[..i + 1]) == Directions(entries[..i]) + (if entries[i].kind == Direction then [entries[i]] else [])
  {
    assert entries[..i + 1][..i] == entries[..i];
  }

  /** createDirectionSentimentChart, without the chart: the direction series and their smoothing. */
  method CreateDirectionSentimentChart(entries: seq<Entry>)
    returns (lineIndices: seq<int>, lines: seq<string>, scores: seq<JsNum>, smoothed: seq<JsNum>)
    ensures |lineIndices| == |lines| == |scores| == |Directions(entries)|
    ensures forall k :: 0 <= k < |lineIndices| ==>
      lineIndices[k] == k && lines[k] == Directions(entries)[k].content && scores[k] == ScoreOf(Directions(entries)[k])
    ensures smoothed == Smooth(scores, None)
  {
    lineIndices, lines, scores := DirectionSeries(entries);
    smoothed := SmoothMovingWindow(scores, None);
  }

  /** createDirectionSentimentChart's loop: indices 0, 1, 2, ..., one per DIRECTION entry, with its score and text. */
  method DirectionSeries(entries: seq<Entry>) returns (lineIndices: seq<int>, lines: seq<string>, scores: seq<JsNum>)
    ensures |lineIndices| == |lines| == |scores| == |Directions(entries)|
    ensures forall k :: 0 <= k < |lineIndices| ==>
      lineIndices[k] == k && lines[k] == Directions(entries)[k].content && scores[k] == ScoreOf(Directions(entries)[k])
  {
    lineIndices, lines, scores := [], [], [];
    var lineIndex := 0;
    var i := 0;
    ghost var ds: seq<Entry> := [];
    while i < |entries|
      invariant 0 <= i <= |entries| && ds == Directions(entries[..i])
      invariant lineIndex == |lineIndices| == |lines| == |scores| == |ds|
      invariant forall k :: 0 <= k < |ds| ==> lineIndices[k] == k && lines[k] == ds[k].content && scores[k] == ScoreOf(ds[k])
    {
      var e := entries[i];
      DirectionsSnoc(entries, i);
      if e.kind == Direction {
        lineIndices := lineIndices + [lineIndex];
        scores := scores + [ScoreOf(e)];
        lineIndex := lineIndex + 1;
        lines := lines + [e.content];
        ds := ds + [e];
      }
      i := i + 1;
    }
    assert entries[..i] == entries;
  }
}
