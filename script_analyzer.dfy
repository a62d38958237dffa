/**
 * script_analyzer.py: the aggregation the analyzer performs once a script
 * is parsed. Every SPEECH and DIRECTION entry receives a sentiment score;
 * every character receives its line count and the running mean of its
 * line scores; and every ordered pair of characters receives the number of
 * scenes (closed by a LOCATION) they share and the running mean of their
 * mutual scene score.
 *
 * The sentiment scorer is a parameter `score`. The nested co-occurrence
 * dictionary `m[a][b]` is a map keyed by the ordered pair (a, b).
 */
module ScriptAnalyzer {
  import opened Wrappers
  import opened Screenplay
  import opened PyStrings
  import ScriptParser

  datatype CharacterStats = CharacterStats(name: string, lineCount: nat, avgCs: real)
  datatype Cooccurrence = Cooccurrence(count: nat, avgCs: real)

  /** One character's accumulator in `characters_in_scene`. */
  datatype SceneTally = SceneTally(sumCs: real, numLines: nat)

  function Sum(s: seq<real>): real {
    if s == [] then 0.0 else Sum(s[..|s| - 1]) + s[|s| - 1]
  }

  /** The arithmetic mean, 0 for no values (the initial `avg_cs`). */
  function Mean(s: seq<real>): real {
    if |s| == 0 then 0.0 else Sum(s) / |s| as real
  }

  /** The update `(count * avg + x) / (count + 1)` turns the mean of s into the mean of s + [x]. */
  lemma RunningMean(s: seq<real>, x: real)
    ensures (|s| as real * Mean(s) + x) / (|s| as real + 1.0) == Mean(s + [x])
  {
    assert (s + [x])[..|s|] == s;
    assert Sum(s + [x]) == Sum(s) + x;
    if |s| > 0 {
      var c := |s| as real;
      assert c * (Sum(s) / c) == Sum(s);
    }
  }

  // ------------------------------------------------------------- scoring

  /** Lines 24-26: SPEECH and DIRECTION entries get `score(content)`, other entries are kept. */
  function ScoreAll(entries: seq<Entry>, score: string -> real): (r: seq<Entry>)
    ensures |r| == |entries|
  {
    seq(|entries|, k requires 0 <= k < |entries| =>
      if entries[k].kind in {Speech, Direction} then entries[k].(cs := Some(score(entries[k].content))) else entries[k])
  }

  /** Scoring touches only scores, and leaves every SPEECH and DIRECTION entry scored. */
  lemma ScoreAllFacts(entries: seq<Entry>, score: string -> real)
    ensures Scored(ScoreAll(entries, score))
    ensures forall k :: 0 <= k < |entries| ==>
      ScoreAll(entries, score)[k].kind == entries[k].kind && ScoreAll(entries, score)[k].content == entries[k].content
    ensures forall k :: 0 <= k < |entries| && entries[k].kind in {Speech, Direction} ==>
      ScoreAll(entries, score)[k].cs == Some(score(entries[k].content))
  {
  }

  // ----------------------------------------------------------- characters

  /** The scores of the lines spoken by `name` at indices below n. */
  function LineScores(entries: seq<Entry>, name: string, n: nat): seq<real>
    requires Scored(entries) && n <= |entries|
  {
    if n == 0 then []
    else if IsLineOf(entries, name, n - 1) then LineScores(entries, name, n - 1) + [entries[n - 1].cs.value]
    else LineScores(entries, name, n - 1)
  }

  /** There is one score per spoken line of `name`. */
  lemma {:induction false} LineScoresCount(entries: seq<Entry>, name: string, n: nat)
    requires Scored(entries) && n <= |entries|
    ensures |LineScores(entries, name, n)| == CountLinesOf(entries, name, n)
  {
    if n > 0 {
      LineScoresCount(entries, name, n - 1);
    }
  }

  /** `characters[n]` holds n's line count and the mean score of n's lines, for every listed name and no other key. */
  predicate StatsHold(entries: seq<Entry>, names: seq<string>, characters: map<string, CharacterStats>)
    requires Scored(entries)
  {
    StatsUpTo(entries, names, characters, |entries|)
  }

  /** Lines 30-31: every listed name starts with no lines and average 0. */
  method InitialStats(names: seq<string>) returns (characters: map<string, CharacterStats>)
    ensures characters.Keys == (set n | n in names)
    ensures forall n :: n in characters ==> characters[n] == CharacterStats(n, 0, 0.0)
  {
    characters := map[];
    var k := 0;
    while k < |names|
      invariant 0 <= k <= |names|
      invariant characters.Keys == (set n | n in names[..k])
      invariant forall n :: n in characters ==> characters[n] == CharacterStats(n, 0, 0.0)
    {
      assert names[..k + 1] == names[..k] + [names[k]];
      characters := characters[names[k] := CharacterStats(names[k], 0, 0.0)];
      k := k + 1;
    }
    assert names[..k] == names;
  }

  /** The statistics after the spoken lines below i. */
  predicate StatsUpTo(entries: seq<Entry>, names: seq<string>, characters: map<string, CharacterStats>, i: nat)
    requires Scored(entries) && i <= |entries|
  {
    && characters.Keys == (set n | n in names)
    && forall n :: n in names ==>
         characters[n] == CharacterStats(n, |LineScores(entries, n, i)|, Mean(LineScores(entries, n, i)))
  }

  /** One spoken line at i updates its speaker by the running mean and nobody else. */
  lemma LineStep(entries: seq<Entry>, names: seq<string>, characters: map<string, CharacterStats>, i: nat,
                 characters': map<string, CharacterStats>)
    requires Scored(entries) && 1 <= i < |entries| && IsLine(entries, i)
    requires StatsUpTo(entries, names, characters, i)
    requires var name := entries[i - 1].content;
      name in characters && characters' == characters[name := Record(characters[name], entries[i].cs.value)]
    ensures StatsUpTo(entries, names, characters', i + 1)
  {
    var name := entries[i - 1].content;
    forall n | n in names
      ensures characters'[n] == CharacterStats(n, |LineScores(entries, n, i + 1)|, Mean(LineScores(entries, n, i + 1)))
    {
      if n == name {
        assert LineScores(entries, n, i + 1) == LineScores(entries, n, i) + [entries[i].cs.value];
        RecordMean(n, LineScores(entries, n, i), entries[i].cs.value);
      } else {
        assert LineScores(entries, n, i + 1) == LineScores(entries, n, i);
      }
    }
  }

  /** Lines 30-39: the initial statistics, then one running-mean update per spoken line. */
  method CharacterStatsOf(entries: seq<Entry>, names: seq<string>) returns (stats: map<string, CharacterStats>)
    requires Scored(entries) && CuesNamed(entries, names)
    ensures StatsHold(entries, names, stats)
  {
    stats := InitialStats(names);
    StatsStart(entries, names, stats);
    if |entries| == 0 {
      return;
    }
    var i := 1;
    while i < |entries|
      invariant 1 <= i <= |entries|
      invariant StatsUpTo(entries, names, stats, i)
    {
      stats := StatsStep(entries, names, stats, i);
      i := i + 1;
    }
  }

  /** Lines 35-39, one entry: a spoken line updates its speaker's count and running mean. */
  method StatsStep(entries: seq<Entry>, names: seq<string>, stats: map<string, CharacterStats>, i: nat)
    returns (stats': map<string, CharacterStats>)
    requires Scored(entries) && CuesNamed(entries, names) && 1 <= i < |entries|
    requires StatsUpTo(entries, names, stats, i)
    ensures StatsUpTo(entries, names, stats', i + 1)
  {
    var e := entries[i];
    var prevE := entries[i - 1];
    if e.kind == Speech && prevE.kind == Character {
      var name := prevE.content;
      SpeakerListed(entries, names, stats, i);
      var c := stats[name];
      stats' := stats[name := Record(c, e.cs.value)];
      LineStep(entries, names, stats, i, stats');
    } else {
      stats' := stats;
      StatsSkip(entries, names, stats, i);
    }
  }

  /** The speaker of a spoken line has statistics to update. */
  lemma SpeakerListed(entries: seq<Entry>, names: seq<string>, characters: map<string, CharacterStats>, i: nat)
    requires Scored(entries) && CuesNamed(entries, names) && 1 <= i < |entries|
    requires entries[i].kind == Speech && entries[i - 1].kind == Character
    requires StatsUpTo(entries, names, characters, i)
    ensures IsLine(entries, i) && entries[i - 1].content in characters
  {
    assert IsLine(entries, i);
    assert entries[i - 1].content in names;
  }

  /** Before index 1 nobody has spoken a line, so the initial statistics hold. */
  lemma StatsStart(entries: seq<Entry>, names: seq<string>, characters: map<string, CharacterStats>)
    requires Scored(entries)
    requires characters.Keys == (set n | n in names)
    requires forall n :: n in characters ==> characters[n] == CharacterStats(n, 0, 0.0)
    ensures StatsUpTo(entries, names, characters, if |entries| == 0 then 0 else 1)
  {
    var m := if |entries| == 0 then 0 else 1;
    forall n | n in names
      ensures characters[n] == CharacterStats(n, |LineScores(entries, n, m)|, Mean(LineScores(entries, n, m)))
    {
      assert n in characters.Keys;
      assert LineScores(entries, n, m) == [];
    }
  }

  /** An entry at i that is not a spoken line changes nobody's statistics. */
  lemma StatsSkip(entries: seq<Entry>, names: seq<string>, characters: map<string, CharacterStats>, i: nat)
    requires Scored(entries) && 1 <= i < |entries| && !IsLine(entries, i)
    requires StatsUpTo(entries, names, characters, i)
    ensures StatsUpTo(entries, names, characters, i + 1)
  {
    forall n | n in names
      ensures characters[n] == CharacterStats(n, |LineScores(entries, n, i + 1)|, Mean(LineScores(entries, n, i + 1)))
    {
      assert !IsLineOf(entries, n, i);
      assert LineScores(entries, n, i + 1) == LineScores(entries, n, i);
    }
  }

  /** Line 38-39: one more line, and `avg_cs` updated by `(line_count * avg_cs + cs) / (line_count + 1)`. */
  function Record(c: CharacterStats, cs: real): CharacterStats {
    c.(avgCs := (c.lineCount as real * c.avgCs + cs) / (c.lineCount as real + 1.0), lineCount := c.lineCount + 1)
  }

  lemma RecordMean(n: string, s: seq<real>, x: real)
    ensures Record(CharacterStats(n, |s|, Mean(s)), x) == CharacterStats(n, |s + [x]|, Mean(s + [x]))
  {
    RunningMean(s, x);
  }

  /** A listed character with no lines keeps the initial statistics. */
  lemma SilentCharacter(entries: seq<Entry>, names: seq<string>, characters: map<string, CharacterStats>, n: string)
    requires Scored(entries) && StatsHold(entries, names, characters)
    requires n in names && CountLinesOf(entries, n, |entries|) == 0
    ensures characters[n] == CharacterStats(n, 0, 0.0)
  {
    LineScoresCount(entries, n, |entries|);
  }

  /** Every cue a lookup in the analyzer reaches is a listed name: a cue of a spoken line, and a cue of a scene that a LOCATION closes. */
  predicate CuesNamed(entries: seq<Entry>, names: seq<string>) {
    && (forall i :: 1 <= i < |entries| && IsLine(entries, i) ==> entries[i - 1].content in names)
    && (forall k, j :: 0 <= k < j < |entries| && entries[k].kind == Character && entries[j].kind == Location ==>
          entries[k].content in names)
  }

  /**
   * The names finalize stores list every cue, so no lookup of the analyzer
   * misses: a parsed script can always be analyzed.
   */
  lemma FinalizedCuesNamed(names: seq<string>, entries: seq<Entry>)
    ensures CuesNamed(entries, ScriptParser.AddNames(names, entries))
  {
    ScriptParser.AddNamesMembers(names, entries);
  }

  // ---------------------------------------------------- co-occurrences

  /** The score a cue at i adds to its scene: the score of the SPEECH right after it, or nothing. */
  function NextSpeechScore(entries: seq<Entry>, i: nat): real
    requires Scored(entries) && i < |entries|
  {
    if i + 1 < |entries| && entries[i + 1].kind == Speech then entries[i + 1].cs.value else 0.0
  }

  /** `characters_in_scene[a]` as it stands before entry n, zero when `a` is absent. */
  function TallyOf(entries: seq<Entry>, a: string, n: nat): (t: SceneTally)
    requires Scored(entries) && n <= |entries|
    ensures t.numLines == 0 ==> t.sumCs == 0.0
  {
    if n == 0 then SceneTally(0.0, 0)
    else
      var prev := TallyOf(entries, a, n - 1);
      var e := entries[n - 1];
      if e.kind == Location then SceneTally(0.0, 0)
      else if e.kind == Character && e.content == a then SceneTally(prev.sumCs + NextSpeechScore(entries, n - 1), prev.numLines + 1)
      else prev
  }

  /** A character is in the open scene before n exactly when it has a cue after the last LOCATION before n. */
  lemma {:induction false} TallyMeansInScene(entries: seq<Entry>, a: string, n: nat)
    requires Scored(entries) && n <= |entries|
    ensures TallyOf(entries, a, n).numLines >= 1 <==>
      exists k :: 0 <= k < n && entries[k].kind == Character && entries[k].content == a && SceneOpen(entries, k, n)
  {
    if n > 0 {
      TallyMeansInScene(entries, a, n - 1);
      var e := entries[n - 1];
      if e.kind == Location {
        forall k | 0 <= k < n
          ensures !SceneOpen(entries, k, n)
        {
          assert entries[n - 1].kind == Location;
        }
      } else if e.kind == Character && e.content == a {
        assert SceneOpen(entries, n - 1, n);
      } else {
        if exists k :: 0 <= k < n && entries[k].kind == Character && entries[k].content == a && SceneOpen(entries, k, n) {
          var k :| 0 <= k < n && entries[k].kind == Character && entries[k].content == a && SceneOpen(entries, k, n);
          assert k < n - 1 && SceneOpen(entries, k, n - 1);
        }
        if exists k :: 0 <= k < n - 1 && entries[k].kind == Character && entries[k].content == a && SceneOpen(entries, k, n - 1) {
          var k :| 0 <= k < n - 1 && entries[k].kind == Character && entries[k].content == a && SceneOpen(entries, k, n - 1);
          assert SceneOpen(entries, k, n);
        }
      }
    }
  }

  /** No LOCATION lies at an index in [k, n). */
  predicate SceneOpen(entries: seq<Entry>, k: int, n: int)
    requires 0 <= k && n <= |entries|
  {
    forall j :: k <= j < n ==> entries[j].kind != Location
  }

  function SceneAvg(t: SceneTally): real
    requires t.numLines >= 1
  {
    t.sumCs / t.numLines as real
  }

  /** The mutual scores of a and b: one per LOCATION before n closing a scene where both have a cue. */
  function MutualScores(entries: seq<Entry>, a: string, b: string, n: nat): seq<real>
    requires Scored(entries) && n <= |entries|
  {
    if n == 0 then []
    else
      var prev := MutualScores(entries, a, b, n - 1);
      var ta := TallyOf(entries, a, n - 1);
      var tb := TallyOf(entries, b, n - 1);
      if entries[n - 1].kind == Location && ta.numLines >= 1 && tb.numLines >= 1 then
        prev + [(SceneAvg(ta) + SceneAvg(tb)) / 2.0]
      else prev
  }

  /** The mutual scores do not depend on the order of the pair. */
  lemma {:induction false} MutualScoresSymmetric(entries: seq<Entry>, a: string, b: string, n: nat)
    requires Scored(entries) && n <= |entries|
    ensures MutualScores(entries, a, b, n) == MutualScores(entries, b, a, n)
  {
    if n > 0 {
      MutualScoresSymmetric(entries, a, b, n - 1);
    }
  }

  /** Cues after the last LOCATION are never counted: without a LOCATION in [n, k) nothing is added. */
  lemma {:induction false} MutualScoresNeedLocation(entries: seq<Entry>, a: string, b: string, n: nat, k: nat)
    requires Scored(entries) && n <= k <= |entries|
    requires SceneOpen(entries, n, k)
    ensures MutualScores(entries, a, b, k) == MutualScores(entries, a, b, n)
  {
    if k > n {
      MutualScoresNeedLocation(entries, a, b, n, k - 1);
    }
  }

  function CooccurrenceOf(s: seq<real>): Cooccurrence {
    Cooccurrence(|s|, Mean(s))
  }

  /** `m[a][b]` holds the number of shared scenes and the mean mutual score, for every pair of listed names and no other key. */
  predicate MatrixHolds(entries: seq<Entry>, names: seq<string>, m: map<(string, string), Cooccurrence>)
    requires Scored(entries)
  {
    && (forall p :: p in m ==> p.0 in names && p.1 in names)
    && forall a, b :: a in names && b in names ==>
         (a, b) in m && m[(a, b)] == CooccurrenceOf(MutualScores(entries, a, b, |entries|))
  }

  /** The matrix is symmetric. */
  lemma MatrixSymmetric(entries: seq<Entry>, names: seq<string>, m: map<(string, string), Cooccurrence>, a: string, b: string)
    requires Scored(entries) && MatrixHolds(entries, names, m)
    requires (a, b) in m
    ensures (b, a) in m && m[(b, a)] == m[(a, b)]
  {
    MutualScoresSymmetric(entries, a, b, |entries|);
  }

  /** One scene's contribution to a cell: one more shared scene, and the running mean of the mutual scores. */
  function Bump(c: Cooccurrence, mutual: real): Cooccurrence {
    Cooccurrence(c.count + 1, (c.avgCs * c.count as real + mutual) / (c.count as real + 1.0))
  }

  lemma BumpMean(s: seq<real>, x: real)
    ensures Bump(CooccurrenceOf(s), x) == CooccurrenceOf(s + [x])
  {
    RunningMean(s, x);
  }

  /** The mutual score of a scene: the mean of both characters' scene averages. */
  function Mutual(scene: map<string, SceneTally>, a: string, b: string): real
    requires a in scene && b in scene && scene[a].numLines >= 1 && scene[b].numLines >= 1
  {
    (SceneAvg(scene[a]) + SceneAvg(scene[b])) / 2.0
  }

  predicate Tallied(scene: map<string, SceneTally>) {
    forall a :: a in scene ==> scene[a].numLines >= 1
  }

  /** The flush at a LOCATION: every ordered pair of characters in the scene, the diagonal included, is bumped once. */
  method FlushScene(m: map<(string, string), Cooccurrence>, scene: map<string, SceneTally>)
    returns (m': map<(string, string), Cooccurrence>)
    requires Tallied(scene)
    requires forall a, b :: a in scene && b in scene ==> (a, b) in m
    ensures m'.Keys == m.Keys
    ensures forall a, b :: (a, b) in m ==>
      m'[(a, b)] == if a in scene && b in scene then Bump(m[(a, b)], Mutual(scene, a, b)) else m[(a, b)]
  {
    m' := m;
    var rows := scene.Keys;
    while rows != {}
      invariant rows <= scene.Keys
      invariant m'.Keys == m.Keys
      invariant forall a, b :: (a, b) in m ==>
        m'[(a, b)] == if a in scene && a !in rows && b in scene then Bump(m[(a, b)], Mutual(scene, a, b)) else m[(a, b)]
      decreases rows
    {
      var namei :| namei in rows;
      var cols := scene.Keys;
      while cols != {}
        invariant cols <= scene.Keys
        invariant m'.Keys == m.Keys
        invariant forall a, b :: (a, b) in m ==>
          m'[(a, b)] == if a in scene && b in scene && (a !in rows || (a == namei && b !in cols))
                        then Bump(m[(a, b)], Mutual(scene, a, b)) else m[(a, b)]
        decreases cols
      {
        var namej :| namej in cols;
        m' := m'[(namei, namej) := Bump(m'[(namei, namej)], Mutual(scene, namei, namej))];
        cols := cols - {namej};
      }
      rows := rows - {namei};
    }
  }

  /** Lines 47-51: every ordered pair of names, the diagonal included, starts at count 0 and average 0. */
  method EmptyMatrix(names: seq<string>) returns (m: map<(string, string), Cooccurrence>)
    ensures forall p :: p in m ==> p.0 in names && p.1 in names
    ensures forall a, b :: a in names && b in names ==> (a, b) in m && m[(a, b)] == Cooccurrence(0, 0.0)
  {
    m := map[];
    var i := 0;
    while i < |names|
      invariant 0 <= i <= |names|
      invariant forall p :: p in m ==> p.0 in names[..i] && p.1 in names
      invariant forall a, b :: a in names[..i] && b in names ==> (a, b) in m && m[(a, b)] == Cooccurrence(0, 0.0)
    {
      var j := 0;
      while j < |names|
        invariant 0 <= j <= |names|
        invariant forall p :: p in m ==> (p.0 in names[..i] || p.0 == names[i]) && p.1 in names
        invariant forall a, b :: ((a in names[..i] && b in names) || (a == names[i] && b in names[..j])) ==>
          (a, b) in m && m[(a, b)] == Cooccurrence(0, 0.0)
      {
        m := m[(names[i], names[j]) := Cooccurrence(0, 0.0)];
        j := j + 1;
      }
      assert names[..i + 1] == names[..i] + [names[i]];
      i := i + 1;
    }
    assert names[..i] == names;
  }

  // ----------------------------------------------------------- the class

  class AnalyzedMovieScript {
    var entries: seq<Entry>
    var characterNames: seq<string>
    var characters: map<string, CharacterStats>
    var cooccurrences: map<(string, string), Cooccurrence>

    /** `AnalyzedMovieScript(parsed_script)`: scores the entries, then computes the statistics and the matrix. */
    constructor (parsedEntries: seq<Entry>, parsedNames: seq<string>, score: string -> real)
      requires CuesNamed(parsedEntries, parsedNames)
      ensures entries == ScoreAll(parsedEntries, score) && characterNames == parsedNames
      ensures Scored(entries)
      ensures StatsHold(entries, characterNames, characters)
      ensures MatrixHolds(entries, characterNames, cooccurrences)
    {
      entries := parsedEntries;
      characterNames := parsedNames;
      characters := map[];
      cooccurrences := map[];
      new;
      ScoreEntries(score);
      ScoreAllKeepsCues(parsedEntries, parsedNames, score);
      ComputeCharacterStats();
      cooccurrences := CreateCooccurrencesMatrix();
    }

    /** Lines 24-26. */
    method ScoreEntries(score: string -> real)
      modifies this
      ensures entries == ScoreAll(old(entries), score) && Scored(entries)
      ensures characterNames == old(characterNames) && characters == old(characters) && cooccurrences == old(cooccurrences)
    {
      var i := 0;
      ghost var parsed := entries;
      while i < |entries|
        invariant |entries| == |parsed| && 0 <= i <= |entries|
        invariant forall k :: 0 <= k < i ==> entries[k] == ScoreAll(parsed, score)[k]
        invariant forall k :: i <= k < |entries| ==> entries[k] == parsed[k]
        invariant characterNames == old(characterNames) && characters == old(characters) && cooccurrences == old(cooccurrences)
      {
        var e := entries[i];
        if e.kind in {Speech, Direction} {
          entries := entries[i := e.(cs := Some(score(e.content)))];
        }
        i := i + 1;
      }
      ScoreAllFacts(parsed, score);
    }

    /** Lines 29-39: initial statistics, then one running-mean update per spoken line. */
    method ComputeCharacterStats()
      requires Scored(entries) && CuesNamed(entries, characterNames)
      modifies this
      ensures entries == old(entries) && characterNames == old(characterNames) && cooccurrences == old(cooccurrences)
      ensures StatsHold(entries, characterNames, characters)
    {
      characters := CharacterStatsOf(entries, characterNames);
    }

    /** create_cooccurrences_matrix. */
    method CreateCooccurrencesMatrix() returns (m: map<(string, string), Cooccurrence>)
      requires Scored(entries) && CuesNamed(entries, characterNames)
      ensures MatrixHolds(entries, characterNames, m)
    {
      var es, names := entries, characterNames;
      m := EmptyMatrix(names);
      var scene: map<string, SceneTally> := map[];
      var i := 0;
      while i < |es|
        invariant 0 <= i <= |es|
        invariant MatrixUpTo(es, names, m, scene, i)
      {
        m, scene := ScanEntry(es, names, m, scene, i);
        i := i + 1;
      }
    }
  }

  /** Lines 55-76, one entry: a LOCATION flushes the scene into the matrix, a cue adds its line to its speaker's tally. */
  method ScanEntry(es: seq<Entry>, names: seq<string>, m: map<(string, string), Cooccurrence>,
                   scene: map<string, SceneTally>, i: nat)
    returns (m': map<(string, string), Cooccurrence>, scene': map<string, SceneTally>)
    requires Scored(es) && i < |es| && CuesNamed(es, names)
    requires MatrixUpTo(es, names, m, scene, i)
    ensures MatrixUpTo(es, names, m', scene', i + 1)
  {
    var e := es[i];
    m', scene' := m, scene;
    if e.kind == Location {
      if |scene| > 0 {
        ScenePairsListed(es, names, scene, i);
        m' := FlushScene(m, scene);
      }
      LocationStep(es, names, m, scene, i, m');
      scene' := map[];
    } else if e.kind == Character {
      var name := e.content;
      if name !in scene' {
        scene' := scene'[name := SceneTally(0.0, 0)];
      }
      scene' := scene'[name := scene'[name].(numLines := scene'[name].numLines + 1)];
      if i + 1 < |es| && es[i + 1].kind == Speech {
        scene' := scene'[name := scene'[name].(sumCs := scene'[name].sumCs + es[i + 1].cs.value)];
      }
      CueStep(es, names, m, scene, i, scene');
    } else {
      OtherStep(es, names, m, scene, i);
    }
  }

  /** The state of create_cooccurrences_matrix before entry i: the cells hold the scenes closed so far, the open scene its tallies. */
  ghost predicate MatrixUpTo(entries: seq<Entry>, names: seq<string>, m: map<(string, string), Cooccurrence>,
                       scene: map<string, SceneTally>, i: nat)
    requires Scored(entries) && i <= |entries|
  {
    && (forall p :: p in m ==> p.0 in names && p.1 in names)
    && (forall a, b :: a in names && b in names ==>
          (a, b) in m && m[(a, b)] == CooccurrenceOf(MutualScores(entries, a, b, i)))
    && (forall a :: a in scene <==> TallyOf(entries, a, i).numLines >= 1)
    && (forall a :: a in scene ==> scene[a] == TallyOf(entries, a, i))
  }

  lemma LocationStep(entries: seq<Entry>, names: seq<string>, m: map<(string, string), Cooccurrence>,
                     scene: map<string, SceneTally>, i: nat, m': map<(string, string), Cooccurrence>)
    requires Scored(entries) && i < |entries| && entries[i].kind == Location
    requires MatrixUpTo(entries, names, m, scene, i)
    requires Tallied(scene)
    requires m'.Keys == m.Keys
    requires forall a, b :: (a, b) in m ==>
      m'[(a, b)] == if a in scene && b in scene then Bump(m[(a, b)], Mutual(scene, a, b)) else m[(a, b)]
    ensures MatrixUpTo(entries, names, m', map[], i + 1)
  {
    forall a, b | a in names && b in names
      ensures (a, b) in m' && m'[(a, b)] == CooccurrenceOf(MutualScores(entries, a, b, i + 1))
    {
      if a in scene && b in scene {
        BumpMean(MutualScores(entries, a, b, i), Mutual(scene, a, b));
      }
    }
  }

  lemma CueStep(entries: seq<Entry>, names: seq<string>, m: map<(string, string), Cooccurrence>,
                scene: map<string, SceneTally>, i: nat, scene': map<string, SceneTally>)
    requires Scored(entries) && i < |entries| && entries[i].kind == Character
    requires MatrixUpTo(entries, names, m, scene, i)
    requires var name := entries[i].content;
      var t := if name in scene then scene[name] else SceneTally(0.0, 0);
      scene' == scene[name := SceneTally(t.sumCs + NextSpeechScore(entries, i), t.numLines + 1)]
    ensures MatrixUpTo(entries, names, m, scene', i + 1)
  {
    forall a, b | a in names && b in names
      ensures MutualScores(entries, a, b, i + 1) == MutualScores(entries, a, b, i)
    {
    }
    forall a
      ensures a in scene' <==> TallyOf(entries, a, i + 1).numLines >= 1
      ensures a in scene' ==> scene'[a] == TallyOf(entries, a, i + 1)
    {
      if a != entries[i].content {
        assert TallyOf(entries, a, i + 1) == TallyOf(entries, a, i);
      }
    }
  }

  lemma OtherStep(entries: seq<Entry>, names: seq<string>, m: map<(string, string), Cooccurrence>,
                  scene: map<string, SceneTally>, i: nat)
    requires Scored(entries) && i < |entries| && entries[i].kind != Location && entries[i].kind != Character
    requires MatrixUpTo(entries, names, m, scene, i)
    ensures MatrixUpTo(entries, names, m, scene, i + 1)
  {
    forall a, b | a in names && b in names
      ensures MutualScores(entries, a, b, i + 1) == MutualScores(entries, a, b, i)
    {
    }
  }

  /** Scoring keeps kinds and contents, so it keeps the cues named. */
  lemma ScoreAllKeepsCues(entries: seq<Entry>, names: seq<string>, score: string -> real)
    requires CuesNamed(entries, names)
    ensures CuesNamed(ScoreAll(entries, score), names)
  {
    ScoreAllFacts(entries, score);
    var scored := ScoreAll(entries, score);
    forall i | 1 <= i < |scored| && IsLine(scored, i)
      ensures scored[i - 1].content in names
    {
      assert IsLine(entries, i);
    }
  }

  /** At a LOCATION every character of the open scene is a listed name, so every lookup of the flush succeeds. */
  lemma ScenePairsListed(entries: seq<Entry>, names: seq<string>, scene: map<string, SceneTally>, i: nat)
    requires Scored(entries) && CuesNamed(entries, names)
    requires i < |entries| && entries[i].kind == Location
    requires forall a :: a in scene <==> TallyOf(entries, a, i).numLines >= 1
    ensures forall a :: a in scene ==> a in names
  {
    forall a | a in scene
      ensures a in names
    {
      TallyMeansInScene(entries, a, i);
    }
  }

  // ------------------------------------------------------------ file name

  /** The file name of an analyzed movie: the title lower-cased, spaces turned to '-', colons dropped. */
  function SafeName(title: string): (r: string)
    ensures ' ' !in r && ':' !in r
    ensures forall k :: 0 <= k < |r| ==> !IsAsciiUpper(r[k])
    ensures |r| <= |title|
  {
    var lower := LowerAscii(title);
    var dashed := Replace(lower, " ", "-");
    var r := Replace(dashed, ":", "");
    assert ' ' !in r && ':' !in r && |r| <= |title| by {
      ReplaceRemovesChar(lower, ' ', "-");
      ReplaceKeepsAbsent(dashed, ":", "", ' ');
      ReplaceRemovesChar(dashed, ':', "");
      ReplaceCharKeepsLength(lower, ' ', '-');
      ReplaceByEmptyShrinks(dashed, ":");
    }
    assert forall k :: 0 <= k < |r| ==> !IsAsciiUpper(r[k]) by {
      forall c | IsAsciiUpper(c)
        ensures c !in r
      {
        assert c !in lower;
        ReplaceKeepsAbsent(lower, " ", "-", c);
        ReplaceKeepsAbsent(dashed, ":", "", c);
      }
    }
    r
  }

  /** A safe name is its own safe name. */
  lemma SafeNameIdempotent(title: string)
    ensures SafeName(SafeName(title)) == SafeName(title)
  {
    var s := SafeName(title);
    assert LowerAscii(s) == s;
    ReplaceAbsentChar(s, ' ', "-");
    ReplaceAbsentChar(s, ':', "");
  }
}
