/**
 * script_parser.py: the `MovieScript` state machine that turns the lines of
 * a screenplay into typed entries. Each line is cleaned, classified from
 * its text, its boldness and the kind of the entry before it, and appended;
 * `finalize` then repairs character names, retypes stray SPEECH entries,
 * drops newlines and lists the characters.
 *
 * The regular expressions are a `Patterns` record of tests on a line; only
 * their names carry meaning here. `exp_has_alphanumeric` and the blank-run
 * substitution of `basic_cleanup` are simple enough to be written out.
 */
module ScriptParser {
  import opened Wrappers
  import opened Screenplay
  import opened PyStrings
  import opened MovieUtils

  // ------------------------------------------------------------- cleanup

  /** The HTML tags `basic_cleanup` deletes, in the order it deletes them. */
  const DeleteTokens: seq<string> := ["<b>", "</b>", "<pre>", "</pre>", "<html>", "</html>"]

  function DeleteAll(l: string, tokens: seq<string>): (r: string)
    requires forall k :: 0 <= k < |tokens| ==> |tokens[k]| > 0
    ensures |r| <= |l|
    decreases |tokens|
  {
    if tokens == [] then l
    else
      var once := Replace(l, tokens[0], "");
      ReplaceByEmptyShrinks(l, tokens[0]);
      DeleteAll(once, tokens[1..])
  }

  predicate IsBlank(c: char) { c == ' ' || c == '\t' }

  function DropBlanks(s: string): (r: string)
    ensures |r| <= |s| && r == s[|s| - |r|..]
    ensures r == [] || !IsBlank(r[0])
    ensures s != [] && !IsBlank(s[|s| - 1]) ==> r != []
  {
    if s != [] && IsBlank(s[0]) then DropBlanks(s[1..]) else s
  }

  /** `re.sub(r"[\t ]+", " ", s)`: every run of spaces and tabs becomes one space. */
  function CollapseBlanks(s: string): (r: string)
    ensures |r| <= |s|
    ensures s != [] ==> r != [] && (IsBlank(s[0]) ==> r[0] == ' ') && (!IsBlank(s[0]) ==> r[0] == s[0])
    decreases |s|
  {
    if s == [] then []
    else if IsBlank(s[0]) then [' '] + CollapseBlanks(DropBlanks(s[1..]))
    else [s[0]] + CollapseBlanks(s[1..])
  }

  /** The collapsed line holds no tab, no two spaces in a row, and keeps a last character that is not blank. */
  lemma CollapseBlanksFacts(s: string)
    ensures '\t' !in CollapseBlanks(s)
    ensures NoDoubleSpace(CollapseBlanks(s))
    ensures s != [] && !IsBlank(s[|s| - 1]) ==> CollapseBlanks(s)[|CollapseBlanks(s)| - 1] == s[|s| - 1]
  {
    CollapseNoTab(s);
    CollapseNoDoubleSpace(s);
    if s != [] && !IsBlank(s[|s| - 1]) {
      CollapseKeepsLast(s);
    }
  }

  lemma {:induction false} CollapseNoTab(s: string)
    ensures '\t' !in CollapseBlanks(s)
    decreases |s|
  {
    if s == [] {
    } else if IsBlank(s[0]) {
      CollapseNoTab(DropBlanks(s[1..]));
    } else {
      CollapseNoTab(s[1..]);
    }
  }

  lemma {:induction false} CollapseNoDoubleSpace(s: string)
    ensures NoDoubleSpace(CollapseBlanks(s))
    decreases |s|
  {
    if s == [] {
    } else if IsBlank(s[0]) {
      var d := DropBlanks(s[1..]);
      var t := CollapseBlanks(d);
      CollapseNoDoubleSpace(d);
      assert t != [] ==> t[0] != ' ';
      PrependKeepsNoDoubleSpace(' ', t);
    } else {
      CollapseNoDoubleSpace(s[1..]);
      PrependKeepsNoDoubleSpace(s[0], CollapseBlanks(s[1..]));
    }
  }

  lemma PrependKeepsNoDoubleSpace(c: char, t: string)
    requires NoDoubleSpace(t) && (c == ' ' ==> t == [] || t[0] != ' ')
    ensures NoDoubleSpace([c] + t)
  {
    var r := [c] + t;
    forall k | 0 <= k < |r| - 1
      ensures !(r[k] == ' ' && r[k + 1] == ' ')
    {
      if k > 0 {
        assert r[k] == t[k - 1] && r[k + 1] == t[k];
      }
    }
  }

  lemma {:induction false} CollapseKeepsLast(s: string)
    requires s != [] && !IsBlank(s[|s| - 1])
    ensures CollapseBlanks(s)[|CollapseBlanks(s)| - 1] == s[|s| - 1]
    decreases |s|
  {
    if IsBlank(s[0]) {
      var d := DropBlanks(s[1..]);
      assert s[1..] != [] && s[1..][|s[1..]| - 1] == s[|s| - 1];
      assert d != [] && d[|d| - 1] == s[|s| - 1];
      CollapseKeepsLast(d);
    } else if |s| > 1 {
      assert s[1..][|s[1..]| - 1] == s[|s| - 1];
      CollapseKeepsLast(s[1..]);
    }
  }

  predicate NoDoubleSpace(r: string) {
    forall k :: 0 <= k < |r| - 1 ==> !(r[k] == ' ' && r[k + 1] == ' ')
  }

  /**
   * basic_cleanup: the tags deleted, the ends stripped and blank runs
   * collapsed. The result neither starts nor ends with whitespace, holds no
   * tab and no two spaces in a row, and is never longer than the line.
   */
  function BasicCleanup(l: string): (r: string)
    ensures |r| <= |l|
    ensures r == [] || (!IsSpace(r[0]) && !IsSpace(r[|r| - 1]))
    ensures '\t' !in r
    ensures forall k :: 0 <= k < |r| - 1 ==> !(r[k] == ' ' && r[k + 1] == ' ')
  {
    var stripped := Strip(DeleteAll(l, DeleteTokens));
    assert stripped != [] ==> !IsBlank(stripped[0]) && !IsBlank(stripped[|stripped| - 1]);
    CollapseBlanksFacts(stripped);
    CollapseBlanks(stripped)
  }

  predicate IsAsciiAlnum(c: char) { ('0' <= c <= '9') || ('A' <= c <= 'Z') || ('a' <= c <= 'z') }

  /** `exp_has_alphanumeric.search(s) != None` */
  predicate HasAlphanumeric(s: string) {
    exists k :: 0 <= k < |s| && IsAsciiAlnum(s[k])
  }

  function CountChar(s: string, c: char): nat {
    if s == [] then 0 else CountChar(s[..|s| - 1], c) + (if s[|s| - 1] == c then 1 else 0)
  }

  // ------------------------------------------------------------ patterns

  /**
   * The compiled expressions of the parser, each as the test the code makes
   * with it. `characterColonSpeech` gives the end of the match (it is
   * anchored at the start of the line); `characterSuffixes` is the
   * substitution of `character_cleanup_pattern_1`.
   */
  datatype Patterns = Patterns(
    numberPeriod: string -> bool,
    numericOnly: string -> bool,
    location: string -> bool,
    locationNumbered: string -> bool,
    direction: string -> bool,
    characterColonSpeech: string -> Option<nat>,
    directionContinued: string -> bool,
    colonEnding: string -> bool,
    periodEnding: string -> bool,
    parenthesisCaps: string -> bool,
    characterSuffixes: string -> string)

  /** cleanup_character_name: voice-over and continuation marks removed, " --" dropped, ends stripped. */
  function CleanupCharacterName(name: string, pats: Patterns): (r: string)
    ensures r == [] || (!IsSpace(r[0]) && !IsSpace(r[|r| - 1]))
  {
    Strip(Replace(pats.characterSuffixes(name), " --", ""))
  }

  // ------------------------------------------------------ classification

  /** The part of classify_entry_type before the META override. */
  datatype Decision = Decision(kind: Kind, raw: string, finishesMeta: bool, cue: Option<string>)

  /** The outcome of classify_entry_type: the kind, the (possibly cut) line, the flag, and the cue it appended. */
  datatype Classification = Classification(kind: Kind, raw: string, metaFinished: bool, cue: Option<string>)

  function LastKind(entries: seq<Entry>): Option<Kind> {
    if |entries| == 0 then None else Some(entries[|entries| - 1].kind)
  }

  function Min(a: int, b: int): int { if a < b then a else b }

  /** The name of a "NAME: speech" line: the match stripped, with 'l' read as 'I'. */
  function ColonCue(raw: string, end: nat): string {
    Replace(Strip(raw[..Min(end, |raw|)]), "l", "I")
  }

  /** `raw[match.end()+1:]`, clamped as Python slices are. */
  function AfterMatch(raw: string, end: nat): string {
    if end + 1 <= |raw| then raw[end + 1..] else []
  }

  /**
   * The branches of classify_entry_type. `afterCue` is the kind a bold line
   * right after a CHARACTER cue receives at line 94, which differs between
   * the code as written and as intended.
   */
  function Decide(last: Option<Kind>, raw: string, isBold: bool, pats: Patterns, afterCue: Kind): Decision {
    if pats.numberPeriod(raw) || pats.numericOnly(raw) then Decision(Direction, raw, false, None)
    else if isBold && (pats.location(raw) || pats.locationNumbered(raw)) then Decision(Location, raw, true, None)
    else if pats.direction(raw) then Decision(Direction, raw, true, None)
    else if pats.characterColonSpeech(raw).Some? then
      var end := pats.characterColonSpeech(raw).value;
      Decision(Speech, AfterMatch(raw, end), false, Some(ColonCue(raw, end)))
    else if isBold then Decision(BoldKind(last, raw, pats, afterCue), raw, false, None)
    else if pats.location(raw) then Decision(Location, raw, true, None)
    else Decision(PlainKind(last, raw, pats), raw, false, None)
  }

  /** Lines 89-104: a bold line no earlier test claimed. */
  function BoldKind(last: Option<Kind>, raw: string, pats: Patterns, afterCue: Kind): Kind {
    if pats.directionContinued(raw) || pats.colonEnding(raw) || pats.periodEnding(raw) then Direction
    else if last == Some(Character) then afterCue
    else if '!' in raw || CountChar(Strip(raw), ' ') >= 4 then Speech
    else if pats.parenthesisCaps(raw) then
      (if last == Some(Character) || last == Some(Speech) then Speech else Direction)
    else Character
  }

  /** Lines 105-114: a plain line that is not a location. */
  function PlainKind(last: Option<Kind>, raw: string, pats: Patterns): Kind {
    if pats.colonEnding(raw) then Direction
    else if last == Some(Character) || last == Some(Speech) then Speech
    else Direction
  }

  /** Lines 116-117: until a LOCATION or a sure DIRECTION has been seen, everything is META. */
  function Finish(d: Decision, metaFinished: bool): Classification {
    var finished := metaFinished || d.finishesMeta;
    Classification(if finished then d.kind else Meta, d.raw, finished, d.cue)
  }

  /** classify_entry_type as written: line 94 compares instead of assigning, so the line stays DIRECTION. */
  function ClassifyAsWritten(last: Option<Kind>, metaFinished: bool, raw: string, isBold: bool, pats: Patterns): Classification {
    Finish(Decide(last, raw, isBold, pats, Direction), metaFinished)
  }

  /** classify_entry_type as intended: a bold line right after a CHARACTER cue that no earlier test claims is the cue's SPEECH. */
  function Classify(last: Option<Kind>, metaFinished: bool, raw: string, isBold: bool, pats: Patterns): Classification {
    Finish(Decide(last, raw, isBold, pats, Speech), metaFinished)
  }

  /**
   * The flag only ever turns on; while it is off the kind is META; the line
   * is kept or, after a "NAME: speech" match, cut to a suffix; and the cue
   * appended then never holds a lower-case 'l' and precedes a SPEECH line.
   */
  lemma ClassifyFacts(last: Option<Kind>, metaFinished: bool, raw: string, isBold: bool, pats: Patterns)
    ensures var c := Classify(last, metaFinished, raw, isBold, pats);
      && (metaFinished ==> c.metaFinished)
      && (!c.metaFinished ==> c.kind == Meta)
      && |c.raw| <= |raw| && c.raw == raw[|raw| - |c.raw|..]
      && (c.cue.None? ==> c.raw == raw)
      && (c.cue.Some? ==> 'l' !in c.cue.value && (c.metaFinished ==> c.kind == Speech))
  {
    var d := Decide(last, raw, isBold, pats, Speech);
    DecideFacts(last, raw, isBold, pats, Speech);
    FinishFacts(d, metaFinished);
  }

  /** Lines 116-117 only turn the flag on, and read META while it is off. */
  lemma FinishFacts(d: Decision, metaFinished: bool)
    ensures var c := Finish(d, metaFinished);
      && c.raw == d.raw && c.cue == d.cue
      && (metaFinished ==> c.metaFinished)
      && (c.metaFinished ==> c.kind == d.kind)
      && (!c.metaFinished ==> c.kind == Meta)
  {
  }

  /** The cue of a "NAME: speech" line has every 'l' read as 'I'. */
  lemma ColonCueHasNoL(raw: string, end: nat)
    ensures 'l' !in ColonCue(raw, end)
  {
    assert "l" == ['l'];
    assert 'l' !in "I";
    ReplaceRemovesChar(Strip(raw[..Min(end, |raw|)]), 'l', "I");
  }

  /** Only a "NAME: speech" match cuts the line, to a suffix, and appends a cue, which has no 'l'. */
  lemma DecideFacts(last: Option<Kind>, raw: string, isBold: bool, pats: Patterns, afterCue: Kind)
    ensures var d := Decide(last, raw, isBold, pats, afterCue);
      && |d.raw| <= |raw| && d.raw == raw[|raw| - |d.raw|..]
      && (d.cue.None? ==> d.raw == raw)
      && (d.cue.Some? ==> 'l' !in d.cue.value && d.kind == Speech)
  {
    var colon := !(pats.numberPeriod(raw) || pats.numericOnly(raw))
      && !(isBold && (pats.location(raw) || pats.locationNumbered(raw)))
      && !pats.direction(raw) && pats.characterColonSpeech(raw).Some?;
    if colon {
      var end := pats.characterColonSpeech(raw).value;
      ColonCueHasNoL(raw, end);
      assert Decide(last, raw, isBold, pats, afterCue)
        == Decision(Speech, AfterMatch(raw, end), false, Some(ColonCue(raw, end)));
    } else {
      assert Decide(last, raw, isBold, pats, afterCue).cue.None?;
      assert Decide(last, raw, isBold, pats, afterCue).raw == raw;
    }
  }

  /** The lines line 94 affects: bold, after a cue, and claimed by none of the earlier tests. */
  predicate UnclaimedBoldAfterCue(raw: string, pats: Patterns) {
    && !pats.numberPeriod(raw) && !pats.numericOnly(raw)
    && !pats.location(raw) && !pats.locationNumbered(raw)
    && !pats.direction(raw) && pats.characterColonSpeech(raw).None?
    && !pats.directionContinued(raw) && !pats.colonEnding(raw) && !pats.periodEnding(raw)
  }

  /** As written, such a line is classified DIRECTION. */
  lemma CueLineAsWrittenIsDirection(raw: string, pats: Patterns)
    requires UnclaimedBoldAfterCue(raw, pats)
    ensures ClassifyAsWritten(Some(Character), true, raw, true, pats).kind == Direction
  {
  }

  /** As intended, the same line is the cue's SPEECH. */
  lemma CueLineIsSpeech(raw: string, pats: Patterns)
    requires UnclaimedBoldAfterCue(raw, pats)
    ensures Classify(Some(Character), true, raw, true, pats).kind == Speech
  {
  }

  /** The tests that claim nothing: every line falls through to the structural rules. */
  function NoMatches(): Patterns {
    Patterns(_ => false, _ => false, _ => false, _ => false, _ => false, _ => None,
             _ => false, _ => false, _ => false, _ => false, s => s)
  }

  /**
   * As written, add_entry then turns the cue before such a line into
   * DIRECTION, whether or not the line itself is kept; as intended the cue
   * stays a CHARACTER.
   */
  lemma CueLostAsWritten(entries: seq<Entry>, raw: string, pats: Patterns)
    requires |entries| > 0 && entries[|entries| - 1].kind == Character
    requires UnclaimedBoldAfterCue(raw, pats)
    ensures AddWith(entries, pats, ClassifyAsWritten(LastKind(entries), true, raw, true, pats)).entries[|entries| - 1]
      == entries[|entries| - 1].(kind := Direction)
    ensures AfterAdd(entries, true, raw, true, pats).entries[|entries| - 1] == entries[|entries| - 1]
  {
    var written := ClassifyAsWritten(LastKind(entries), true, raw, true, pats);
    assert written.cue.None? && written.kind == Direction;
    var st := AddWith(entries, pats, written);
    assert entries + CueEntries(written.cue) == entries;
    assert st.entries[..|entries|] == RetypeLast(entries, Direction);
    var c := Classify(LastKind(entries), true, raw, true, pats);
    assert c.cue.None? && c.kind == Speech;
    assert entries + CueEntries(c.cue) == entries;
    assert AfterAdd(entries, true, raw, true, pats).entries[..|entries|] == RetypeLast(entries, Speech) == entries;
  }

  /**
   * The line "Hello" in bold after the cue "RICK", with no pattern
   * matching: as written it is classified DIRECTION and the cue becomes
   * DIRECTION too, so the exchange is lost.
   */
  lemma CueLineCounterexample()
    ensures var entries := [Entry(Character, "RICK", None)];
      var written := ClassifyAsWritten(LastKind(entries), true, "Hello", true, NoMatches());
      && written.kind == Direction
      && AddWith(entries, NoMatches(), written).entries[0] == Entry(Direction, "RICK", None)
  {
    var entries := [Entry(Character, "RICK", None)];
    assert UnclaimedBoldAfterCue("Hello", NoMatches());
    CueLineAsWrittenIsDirection("Hello", NoMatches());
    CueLostAsWritten(entries, "Hello", NoMatches());
  }

  /** As intended, such a line that cleanup leaves alone is stored as the cue's SPEECH. */
  lemma CueLineStored(entries: seq<Entry>, raw: string, pats: Patterns)
    requires |entries| > 0 && entries[|entries| - 1].kind == Character
    requires UnclaimedBoldAfterCue(raw, pats)
    requires BasicCleanup(raw) == raw && HasAlphanumeric(raw)
    ensures AfterAdd(entries, true, raw, true, pats).entries == entries + [Entry(Speech, raw, None)]
  {
    var c := Classify(LastKind(entries), true, raw, true, pats);
    assert c == Classification(Speech, raw, true, None);
    assert EntryContent(Speech, raw, pats) == raw;
    assert entries + CueEntries(c.cue) == entries;
    assert RetypeLast(entries, Speech) == entries;
  }

  lemma {:induction false} DeleteAllKeepsPlain(l: string, tokens: seq<string>)
    requires forall k :: 0 <= k < |tokens| ==> |tokens[k]| > 0 && tokens[k][0] == '<'
    requires '<' !in l
    ensures DeleteAll(l, tokens) == l
    decreases |tokens|
  {
    if tokens != [] {
      ReplaceNoMatch(l, tokens[0]);
      DeleteAllKeepsPlain(l, tokens[1..]);
    }
  }

  lemma {:induction false} CollapseKeepsPlain(s: string)
    requires forall k :: 0 <= k < |s| ==> !IsSpace(s[k])
    ensures CollapseBlanks(s) == s
    decreases |s|
  {
    if s != [] {
      CollapseKeepsPlain(s[1..]);
    }
  }

  /** A line of letters and digits comes through basic_cleanup unchanged. */
  lemma BasicCleanupKeepsPlain(line: string)
    requires forall k :: 0 <= k < |line| ==> IsAsciiAlnum(line[k])
    ensures BasicCleanup(line) == line
  {
    assert '<' !in line by {
      forall k | 0 <= k < |line| ensures line[k] != '<' { }
    }
    assert forall k :: 0 <= k < |line| ==> !IsSpace(line[k]);
    DeleteAllKeepsPlain(line, DeleteTokens);
    assert LStrip(line) == line;
    assert RStrip(line) == line;
    CollapseKeepsPlain(line);
  }

  /** A pattern starting with '<' leaves a line without '<' unchanged. */
  lemma {:induction false} ReplaceNoMatch(s: string, pat: string)
    requires |pat| > 0 && pat[0] == '<' && '<' !in s
    ensures Replace(s, pat, "") == s
    decreases |s|
  {
    if |s| >= |pat| {
      assert s[0] in s;
      assert s[..|pat|][0] == s[0];
      ReplaceNoMatch(s[1..], pat);
      assert [s[0]] + s[1..] == s;
    }
  }

  // ------------------------------------------------------------ add_entry

  datatype ScriptState = ScriptState(entries: seq<Entry>, metaFinished: bool)

  /** The content add_entry stores for a classified line. */
  function EntryContent(kind: Kind, raw: string, pats: Patterns): string {
    var content := BasicCleanup(raw);
    if kind == Character then CleanupCharacterName(content, pats) else content
  }

  /** Lines 127-129: a CHARACTER entry not followed by SPEECH is retyped DIRECTION. */
  function RetypeLast(es: seq<Entry>, kind: Kind): (r: seq<Entry>)
    ensures |r| == |es|
    ensures forall k :: 0 <= k < |es| - 1 ==> r[k] == es[k]
    ensures |es| > 0 ==> (r[|es| - 1] == es[|es| - 1]
      || (es[|es| - 1].kind == Character && kind != Speech && r[|es| - 1] == es[|es| - 1].(kind := Direction)))
  {
    var n := |es|;
    if n > 0 && es[n - 1].kind == Character && kind != Speech then es[n - 1 := es[n - 1].(kind := Direction)]
    else es
  }

  /** Lines 137-138: the cleaned line is appended only when it holds a letter or digit. */
  function AppendLine(es: seq<Entry>, kind: Kind, content: string): (r: seq<Entry>)
    ensures |es| <= |r| <= |es| + 1 && r[..|es|] == es
    ensures |r| > |es| ==> r[|es|] == Entry(kind, content, None) && HasAlphanumeric(content)
  {
    if |content| > 0 && HasAlphanumeric(content) then es + [Entry(kind, content, None)] else es
  }

  function CueEntries(cue: Option<string>): seq<Entry> {
    if cue.Some? then [Entry(Character, cue.value, None)] else []
  }

  /** add_entry given the classification of the line. */
  function AddWith(entries: seq<Entry>, pats: Patterns, c: Classification): ScriptState {
    var retyped := RetypeLast(entries + CueEntries(c.cue), c.kind);
    ScriptState(AppendLine(retyped, c.kind, EntryContent(c.kind, c.raw, pats)), c.metaFinished)
  }

  function AfterAdd(entries: seq<Entry>, metaFinished: bool, raw: string, isBold: bool, pats: Patterns): ScriptState {
    AddWith(entries, pats, Classify(LastKind(entries), metaFinished, raw, isBold, pats))
  }

  /**
   * add_entry changes no entry but the last, and that one only from
   * CHARACTER to DIRECTION; it appends at most the colon cue and the line.
   */
  lemma AddWithKeepsPrefix(entries: seq<Entry>, pats: Patterns, c: Classification)
    ensures var st := AddWith(entries, pats, c);
      && |entries| <= |st.entries| <= |entries| + 2
      && (forall k :: 0 <= k < |entries| - 1 ==> st.entries[k] == entries[k])
      && (|entries| > 0 ==>
            st.entries[|entries| - 1] == entries[|entries| - 1]
            || (entries[|entries| - 1].kind == Character && st.entries[|entries| - 1] == entries[|entries| - 1].(kind := Direction)))
  {
    StoredPrefix(entries, c.cue, c.kind, EntryContent(c.kind, c.raw, pats));
  }

  lemma StoredPrefix(entries: seq<Entry>, cue: Option<string>, kind: Kind, content: string)
    ensures var r := AppendLine(RetypeLast(entries + CueEntries(cue), kind), kind, content);
      && |entries| <= |r| <= |entries| + 2
      && (forall k :: 0 <= k < |entries| - 1 ==> r[k] == entries[k])
      && (|entries| > 0 ==>
            r[|entries| - 1] == entries[|entries| - 1]
            || (entries[|entries| - 1].kind == Character && r[|entries| - 1] == entries[|entries| - 1].(kind := Direction)))
  {
    var withCue := entries + CueEntries(cue);
    var retyped := RetypeLast(withCue, kind);
    var r := AppendLine(retyped, kind, content);
    assert r[..|retyped|] == retyped;
    forall k | 0 <= k < |entries| - 1
      ensures r[k] == entries[k]
    {
      assert r[k] == retyped[k] == withCue[k];
    }
    if |entries| > 0 {
      var n := |entries|;
      assert r[n - 1] == retyped[n - 1];
      if cue.Some? {
        assert retyped[n - 1] == withCue[n - 1] == entries[n - 1];
      }
    }
  }

  /** What add_entry appends is the cue, possibly retyped DIRECTION, and a line of the classified kind with a letter or digit in it. */
  lemma AddWithAppends(entries: seq<Entry>, pats: Patterns, c: Classification)
    ensures var st := AddWith(entries, pats, c);
      forall k :: |entries| <= k < |st.entries| ==>
        (st.entries[k].kind == c.kind && HasAlphanumeric(st.entries[k].content))
        || (c.cue.Some? && st.entries[k].content == c.cue.value && st.entries[k].kind in {Character, Direction})
  {
    StoredTail(entries, c.cue, c.kind, EntryContent(c.kind, c.raw, pats));
  }

  lemma StoredTail(entries: seq<Entry>, cue: Option<string>, kind: Kind, content: string)
    ensures var r := AppendLine(RetypeLast(entries + CueEntries(cue), kind), kind, content);
      forall k :: |entries| <= k < |r| ==>
        (r[k].kind == kind && HasAlphanumeric(r[k].content))
        || (cue.Some? && r[k].content == cue.value && r[k].kind in {Character, Direction})
  {
    var withCue := entries + CueEntries(cue);
    var retyped := RetypeLast(withCue, kind);
    var r := AppendLine(retyped, kind, content);
    forall k | |entries| <= k < |r|
      ensures (r[k].kind == kind && HasAlphanumeric(r[k].content))
        || (cue.Some? && r[k].content == cue.value && r[k].kind in {Character, Direction})
    {
      if k < |retyped| {
        assert cue.Some? && k == |entries| == |retyped| - 1;
        assert r[k] == retyped[k];
        assert withCue[k] == Entry(Character, cue.value, None);
      }
    }
  }

  /**
   * Through add_entry the metadata flag only turns on, and while it is off
   * every entry appended is META or a colon cue.
   */
  lemma AddEntryMeta(entries: seq<Entry>, metaFinished: bool, raw: string, isBold: bool, pats: Patterns)
    ensures var st := AfterAdd(entries, metaFinished, raw, isBold, pats);
      && (metaFinished ==> st.metaFinished)
      && (!st.metaFinished ==> forall k :: |entries| <= k < |st.entries| ==> st.entries[k].kind in {Meta, Character, Direction})
  {
    var c := Classify(LastKind(entries), metaFinished, raw, isBold, pats);
    ClassifyFacts(LastKind(entries), metaFinished, raw, isBold, pats);
    AddWithAppends(entries, pats, c);
  }

  // ----------------------------------------------------- occurrence dict

  function AddOccurrence(d: CountDict, name: string): CountDict {
    if name in d.count then CountDict(d.order, d.count[name := d.count[name] + 1])
    else CountDict(d.order + [name], d.count[name := 1])
  }

  /** The occurrence dict of a list of entries: CHARACTER contents in first-occurrence order with their counts. */
  function Occurrences(es: seq<Entry>): CountDict {
    if es == [] then CountDict([], map[])
    else
      var d := Occurrences(es[..|es| - 1]);
      var e := es[|es| - 1];
      if e.kind == Character then AddOccurrence(d, e.content) else d
  }

  /** The number of CHARACTER entries whose content is `name`. */
  function CueCount(es: seq<Entry>, name: string): nat {
    if es == [] then 0
    else CueCount(es[..|es| - 1], name) + (if es[|es| - 1].kind == Character && es[|es| - 1].content == name then 1 else 0)
  }

  /** The number of CHARACTER entries. */
  function Cues(es: seq<Entry>): nat {
    if es == [] then 0 else Cues(es[..|es| - 1]) + (if es[|es| - 1].kind == Character then 1 else 0)
  }

  function Total(order: seq<string>, count: map<string, int>): int
    requires forall k :: 0 <= k < |order| ==> order[k] in count
  {
    if order == [] then 0 else Total(order[..|order| - 1], count) + count[order[|order| - 1]]
  }

  lemma {:induction false} TotalOther(order: seq<string>, count: map<string, int>, name: string, v: int)
    requires forall k :: 0 <= k < |order| ==> order[k] in count
    requires name !in order
    ensures Total(order, count[name := v]) == Total(order, count)
  {
    if order != [] {
      TotalOther(order[..|order| - 1], count, name, v);
    }
  }

  lemma {:induction false} TotalBump(order: seq<string>, count: map<string, int>, name: string)
    requires forall k :: 0 <= k < |order| ==> order[k] in count
    requires forall i, j :: 0 <= i < j < |order| ==> order[i] != order[j]
    requires name in order
    ensures Total(order, count[name := count[name] + 1]) == Total(order, count) + 1
  {
    var init := order[..|order| - 1];
    if order[|order| - 1] == name {
      TotalOther(init, count, name, count[name] + 1);
    } else {
      TotalBump(init, count, name);
    }
  }

  /** The occurrence dict is well formed: its order lists each key once. */
  lemma {:induction false} OccurrencesWellFormed(es: seq<Entry>)
    ensures WellFormed(Occurrences(es))
  {
    if es != [] {
      var init := es[..|es| - 1];
      OccurrencesWellFormed(init);
      var d := Occurrences(init);
      var e := es[|es| - 1];
      if e.kind == Character && e.content !in d.count {
        assert e.content !in d.order;
      }
    }
  }

  /** A name is a key exactly when some CHARACTER entry holds it, and its count is how many do. */
  lemma {:induction false} OccurrencesCount(es: seq<Entry>)
    ensures forall name :: name in Occurrences(es).count <==> CueCount(es, name) >= 1
    ensures forall name :: name in Occurrences(es).count ==> Occurrences(es).count[name] == CueCount(es, name)
  {
    if es != [] {
      OccurrencesCount(es[..|es| - 1]);
    }
  }

  /** The counts add up to the number of CHARACTER entries. */
  lemma {:induction false} OccurrencesTotal(es: seq<Entry>)
    ensures WellFormed(Occurrences(es))
    ensures Total(Occurrences(es).order, Occurrences(es).count) == Cues(es)
  {
    OccurrencesWellFormed(es);
    if es != [] {
      var init := es[..|es| - 1];
      var e := es[|es| - 1];
      OccurrencesTotal(init);
      var d := Occurrences(init);
      if e.kind == Character {
        if e.content in d.count {
          TotalBump(d.order, d.count, e.content);
        } else {
          assert e.content !in d.order;
          TotalOther(d.order, d.count, e.content, 1);
          assert (d.order + [e.content])[..|d.order|] == d.order;
        }
      }
    }
  }

  /** Every CHARACTER content is a key, so the scan-error repair against the dict never fails. */
  lemma CuesAreKeys(es: seq<Entry>, k: nat)
    requires k < |es| && es[k].kind == Character
    ensures es[k].content in Occurrences(es).count
  {
    OccurrencesCount(es);
    CueCountPositive(es, k);
  }

  lemma {:induction false} CueCountPositive(es: seq<Entry>, k: nat)
    requires k < |es| && es[k].kind == Character
    ensures CueCount(es, es[k].content) >= 1
  {
    if k < |es| - 1 {
      CueCountPositive(es[..|es| - 1], k);
    }
  }

  // ---------------------------------------------------------- finalize

  /** fix_character_scan_errors: every CHARACTER content repaired against the dict. */
  function FixAll(es: seq<Entry>, d: CountDict): (r: seq<Entry>)
    requires WellFormed(d)
    requires forall k :: 0 <= k < |es| && es[k].kind == Character ==> FixScan(es[k].content, d).Some?
    ensures |r| == |es|
  {
    seq(|es|, k requires 0 <= k < |es| =>
      if es[k].kind == Character then es[k].(content := FixScan(es[k].content, d).value) else es[k])
  }

  /** Lines 201-203: a SPEECH entry not right after a CHARACTER becomes DIRECTION; the first entry is not examined. */
  function RetypeStraySpeech(es: seq<Entry>): (r: seq<Entry>)
    ensures |r| == |es|
  {
    seq(|es|, i requires 0 <= i < |es| =>
      if i >= 1 && es[i].kind == Speech && es[i - 1].kind != Character then es[i].(kind := Direction) else es[i])
  }

  /** Lines 206-207. */
  function RemoveNewlines(es: seq<Entry>): (r: seq<Entry>)
    ensures |r| == |es|
  {
    seq(|es|, i requires 0 <= i < |es| => es[i].(content := Replace(es[i].content, "\n", "")))
  }

  /** Lines 210-214: CHARACTER contents not yet listed are appended in order. */
  function AddNames(names: seq<string>, es: seq<Entry>): seq<string> {
    if es == [] then names
    else
      var prev := AddNames(names, es[..|es| - 1]);
      var e := es[|es| - 1];
      if e.kind == Character && e.content !in prev then prev + [e.content] else prev
  }

  /** Every CHARACTER content can be repaired against the occurrence dict of the same entries. */
  lemma FixableCues(es: seq<Entry>)
    ensures WellFormed(Occurrences(es))
    ensures forall k :: 0 <= k < |es| && es[k].kind == Character ==> FixScan(es[k].content, Occurrences(es)).Some?
  {
    OccurrencesWellFormed(es);
    forall k | 0 <= k < |es| && es[k].kind == Character
      ensures FixScan(es[k].content, Occurrences(es)).Some?
    {
      CuesAreKeys(es, k);
      FixScanSpec(es[k].content, Occurrences(es));
    }
  }

  /** The entries finalize leaves, the occurrence dict taken before any repair. */
  function Finalized(es: seq<Entry>): seq<Entry> {
    FixableCues(es);
    RemoveNewlines(RetypeStraySpeech(FixAll(es, Occurrences(es))))
  }

  /**
   * After finalize: as many entries as before, the same kinds but for stray
   * SPEECH turned DIRECTION, every SPEECH past the first entry right after a
   * CHARACTER, and no newline in any content.
   */
  lemma FinalizedFacts(es: seq<Entry>)
    ensures |Finalized(es)| == |es|
    ensures forall i :: 1 <= i < |es| && Finalized(es)[i].kind == Speech ==> Finalized(es)[i - 1].kind == Character
    ensures forall i :: 0 <= i < |es| ==> '\n' !in Finalized(es)[i].content
    ensures forall i :: 0 <= i < |es| ==>
      Finalized(es)[i].kind == es[i].kind || (es[i].kind == Speech && Finalized(es)[i].kind == Direction)
  {
    FixableCues(es);
    var retyped := RetypeStraySpeech(FixAll(es, Occurrences(es)));
    forall i | 0 <= i < |es|
      ensures '\n' !in Finalized(es)[i].content
    {
      ReplaceRemovesChar(retyped[i].content, '\n', "");
    }
  }

  /** The stored names hold every CHARACTER content and nothing but the old names and CHARACTER contents. */
  lemma {:induction false} AddNamesMembers(names: seq<string>, es: seq<Entry>)
    ensures forall k :: 0 <= k < |es| && es[k].kind == Character ==> es[k].content in AddNames(names, es)
    ensures forall n :: n in AddNames(names, es) ==> n in names || exists k :: 0 <= k < |es| && es[k].kind == Character && es[k].content == n
  {
    if es != [] {
      var init := es[..|es| - 1];
      AddNamesMembers(names, init);
      var prev := AddNames(names, init);
      forall n | n in AddNames(names, es)
        ensures n in names || exists k :: 0 <= k < |es| && es[k].kind == Character && es[k].content == n
      {
        if n in prev && n !in names {
          var k :| 0 <= k < |init| && init[k].kind == Character && init[k].content == n;
          assert es[k] == init[k];
        }
      }
    }
  }

  /** The stored names repeat nothing when the old ones did not. */
  lemma {:induction false} AddNamesDistinct(names: seq<string>, es: seq<Entry>)
    requires forall i, j :: 0 <= i < j < |names| ==> names[i] != names[j]
    ensures forall i, j :: 0 <= i < j < |AddNames(names, es)| ==> AddNames(names, es)[i] != AddNames(names, es)[j]
  {
    if es != [] {
      AddNamesDistinct(names, es[..|es| - 1]);
    }
  }

  /** From an empty list, the stored names are the keys of the occurrence dict in its order. */
  lemma {:induction false} AddNamesFromEmpty(es: seq<Entry>)
    ensures AddNames([], es) == Occurrences(es).order
  {
    if es != [] {
      var init := es[..|es| - 1];
      AddNamesFromEmpty(init);
      OccurrencesWellFormed(init);
      var d := Occurrences(init);
      var e := es[|es| - 1];
      if e.kind == Character {
        assert e.content in d.count <==> e.content in d.order;
      }
    }
  }

  // ------------------------------------------------------------- the class

  class MovieScript {
    var entries: seq<Entry>
    var characterNames: seq<string>
    var metaFinished: bool
    const pats: Patterns

    /** `MovieScript(movie_info)`: no entries, no names, metadata not finished. */
    constructor (pats: Patterns)
      ensures entries == [] && characterNames == [] && !metaFinished && this.pats == pats
    {
      entries := [];
      characterNames := [];
      metaFinished := false;
      this.pats := pats;
    }

    /** classify_entry_type, with the assignment line 94 intends. */
    method ClassifyEntryType(raw: string, isBold: bool) returns (kind: Kind, cut: string)
      modifies this
      ensures var c := Classify(LastKind(old(entries)), old(metaFinished), raw, isBold, pats);
        && kind == c.kind && cut == c.raw && metaFinished == c.metaFinished
        && entries == old(entries) + (if c.cue.Some? then [Entry(Character, c.cue.value, None)] else [])
      ensures characterNames == old(characterNames)
    {
      var last := if |entries| == 0 then None else Some(entries[|entries| - 1].kind);
      var d := DecideEntry(last, raw, isBold);
      if d.cue.Some? {
        entries := entries + [Entry(Character, d.cue.value, None)];
      }
      if d.finishesMeta {
        metaFinished := true;
      }
      kind, cut := d.kind, d.raw;
      if !metaFinished {
        kind := Meta;
      }
    }

    /** Lines 64-114: the tests in the order the code makes them, given the kind of the last entry. */
    method DecideEntry(last: Option<Kind>, raw: string, isBold: bool) returns (d: Decision)
      ensures d == Decide(last, raw, isBold, pats, Speech)
    {
      if pats.numberPeriod(raw) || pats.numericOnly(raw) {
        d := Decision(Direction, raw, false, None);
      } else if isBold && (pats.location(raw) || pats.locationNumbered(raw)) {
        d := Decision(Location, raw, true, None);
      } else if pats.direction(raw) {
        d := Decision(Direction, raw, true, None);
      } else if pats.characterColonSpeech(raw).Some? {
        var end := pats.characterColonSpeech(raw).value;
        var characterName := Strip(raw[..Min(end, |raw|)]);
        characterName := Replace(characterName, "l", "I");
        var cut := if end + 1 <= |raw| then raw[end + 1..] else [];
        d := Decision(Speech, cut, false, Some(characterName));
      } else if isBold {
        var kind := BoldEntryKind(last, raw);
        d := Decision(kind, raw, false, None);
      } else if pats.location(raw) {
        d := Decision(Location, raw, true, None);
      } else if pats.colonEnding(raw) {
        d := Decision(Direction, raw, false, None);
      } else if last == Some(Character) || last == Some(Speech) {
        d := Decision(Speech, raw, false, None);
      } else {
        d := Decision(Direction, raw, false, None);
      }
    }

    /** Lines 89-104, with the SPEECH after a cue that line 94 evidently meant to assign. */
    method BoldEntryKind(last: Option<Kind>, raw: string) returns (kind: Kind)
      ensures kind == BoldKind(last, raw, pats, Speech)
    {
      if pats.directionContinued(raw) || pats.colonEnding(raw) || pats.periodEnding(raw) {
        kind := Direction;
      } else if last == Some(Character) {
        kind := Speech;
      } else if '!' in raw || CountChar(Strip(raw), ' ') >= 4 {
        kind := Speech;
      } else if pats.parenthesisCaps(raw) {
        if last == Some(Character) || last == Some(Speech) {
          kind := Speech;
        } else {
          kind := Direction;
        }
      } else {
        kind := Character;
      }
    }

    /** add_entry. */
    method AddEntry(raw: string, isBold: bool)
      modifies this
      ensures ScriptState(entries, metaFinished) == AfterAdd(old(entries), old(metaFinished), raw, isBold, pats)
      ensures characterNames == old(characterNames)
    {
      ghost var c := Classify(LastKind(entries), metaFinished, raw, isBold, pats);
      var kind, cut := ClassifyEntryType(raw, isBold);
      assert entries == old(entries) + CueEntries(c.cue);
      StoreEntry(kind, cut);
    }

    /** Lines 127-138: the last CHARACTER retyped unless SPEECH follows, then the cleaned line appended. */
    method StoreEntry(kind: Kind, cut: string)
      modifies this
      ensures entries == AppendLine(RetypeLast(old(entries), kind), kind, EntryContent(kind, cut, pats))
      ensures metaFinished == old(metaFinished) && characterNames == old(characterNames)
    {
      var es := entries;
      if |es| > 0 {
        if es[|es| - 1].kind == Character && kind != Speech {
          es := es[|es| - 1 := es[|es| - 1].(kind := Direction)];
        }
      }
      var content := EntryContent(kind, cut, pats);
      if |content| > 0 && HasAlphanumeric(content) {
        es := es + [Entry(kind, content, None)];
      }
      entries := es;
    }

    /** create_character_occurrence_dict. */
    method CreateCharacterOccurrenceDict() returns (characterDict: CountDict)
      ensures characterDict == Occurrences(entries)
    {
      characterDict := CountDict([], map[]);
      var i := 0;
      while i < |entries|
        invariant 0 <= i <= |entries|
        invariant characterDict == Occurrences(entries[..i])
      {
        assert entries[..i + 1][..i] == entries[..i];
        var e := entries[i];
        if e.kind == Character {
          var name := e.content;
          if name !in characterDict.count {
            characterDict := CountDict(characterDict.order + [name], characterDict.count[name := 0]);
          }
          characterDict := characterDict.(count := characterDict.count[name := characterDict.count[name] + 1]);
        }
        i := i + 1;
      }
      assert entries[..i] == entries;
    }

    /** fix_character_scan_errors: needs every lookup of the repair to succeed. */
    method FixCharacterScanErrors(characterDict: CountDict)
      requires WellFormed(characterDict)
      requires forall k :: 0 <= k < |entries| && entries[k].kind == Character ==> FixScan(entries[k].content, characterDict).Some?
      modifies this
      ensures entries == FixAll(old(entries), characterDict)
      ensures characterNames == old(characterNames) && metaFinished == old(metaFinished)
    {
      ghost var original := entries;
      var i := 0;
      while i < |entries|
        invariant 0 <= i <= |entries| && |entries| == |original|
        invariant forall k :: 0 <= k < i ==> entries[k] == FixAll(original, characterDict)[k]
        invariant forall k :: i <= k < |entries| ==> entries[k] == original[k]
        invariant characterNames == old(characterNames) && metaFinished == old(metaFinished)
      {
        var e := entries[i];
        if e.kind == Character {
          var fixed := FixScanErrors(e.content, characterDict);
          entries := entries[i := e.(content := fixed.value)];
        }
        i := i + 1;
      }
    }

    /** finalize, without the false-negative pass and the recount that is only printed. */
    method Finalize()
      modifies this
      ensures entries == Finalized(old(entries))
      ensures characterNames == AddNames(old(characterNames), entries)
      ensures metaFinished == old(metaFinished)
    {
      var characterDict := CreateCharacterOccurrenceDict();
      FixableCues(entries);
      FixCharacterScanErrors(characterDict);
      RetypeStraySpeechInPlace();
      RemoveNewlinesInPlace();
      StoreCharacterNames();
    }

    /** Lines 201-203. */
    method RetypeStraySpeechInPlace()
      modifies this
      ensures entries == RetypeStraySpeech(old(entries))
      ensures characterNames == old(characterNames) && metaFinished == old(metaFinished)
    {
      ghost var original := entries;
      var i := 1;
      while i < |entries|
        invariant |entries| == |original| && (1 <= i <= |entries| || |entries| == 0)
        invariant forall k :: 0 <= k < i && k < |entries| ==> entries[k] == RetypeStraySpeech(original)[k]
        invariant forall k :: i <= k < |entries| ==> entries[k] == original[k]
        invariant characterNames == old(characterNames) && metaFinished == old(metaFinished)
      {
        if entries[i].kind == Speech && entries[i - 1].kind != Character {
          entries := entries[i := entries[i].(kind := Direction)];
        }
        i := i + 1;
      }
    }

    /** Lines 206-207. */
    method RemoveNewlinesInPlace()
      modifies this
      ensures entries == RemoveNewlines(old(entries))
      ensures characterNames == old(characterNames) && metaFinished == old(metaFinished)
    {
      ghost var original := entries;
      var i := 0;
      while i < |entries|
        invariant 0 <= i <= |entries| == |original|
        invariant forall k :: 0 <= k < i ==> entries[k] == RemoveNewlines(original)[k]
        invariant forall k :: i <= k < |entries| ==> entries[k] == original[k]
        invariant characterNames == old(characterNames) && metaFinished == old(metaFinished)
      {
        entries := entries[i := entries[i].(content := Replace(entries[i].content, "\n", ""))];
        i := i + 1;
      }
    }

    /** Lines 210-214. */
    method StoreCharacterNames()
      modifies this
      ensures characterNames == AddNames(old(characterNames), entries)
      ensures entries == old(entries) && metaFinished == old(metaFinished)
    {
      var i := 0;
      while i < |entries|
        invariant 0 <= i <= |entries|
        invariant characterNames == AddNames(old(characterNames), entries[..i])
        invariant entries == old(entries) && metaFinished == old(metaFinished)
      {
        assert entries[..i + 1][..i] == entries[..i];
        var e := entries[i];
        if e.kind == Character {
          var name := e.content;
          if name !in characterNames {
            characterNames := characterNames + [name];
          }
        }
        i := i + 1;
      }
      assert entries[..i] == entries;
    }
  }
}
