/**
 * The parsed screenplay shared by the Python pipeline and the browser viewer:
 * an ordered list of entries, each tagged with its kind. Sentiment scores
 * (`cs`) are attached by the analyzer to SPEECH and DIRECTION entries only;
 * every other entry has no score, which the browser reads as `undefined`.
 */
module Screenplay {
  import opened Wrappers

  datatype Kind = Meta | Character | Speech | Direction | Location

  datatype Entry = Entry(kind: Kind, content: string, cs: Option<real>)

  /** What the analyzer guarantees of its output: every SPEECH and DIRECTION entry carries a score. */
  predicate Scored(entries: seq<Entry>) {
    forall i :: 0 <= i < |entries| && entries[i].kind in {Speech, Direction} ==> entries[i].cs.Some?
  }

  /** Index i is a spoken line: a SPEECH entry directly after a CHARACTER cue. */
  predicate IsLine(entries: seq<Entry>, i: int) {
    1 <= i < |entries| && entries[i].kind == Speech && entries[i - 1].kind == Character
  }

  /** Index i is a spoken line whose cue names `name`. */
  predicate IsLineOf(entries: seq<Entry>, name: string, i: int) {
    IsLine(entries, i) && entries[i - 1].content == name
  }

  /** Number of indices below n that are spoken lines. */
  function CountLines(entries: seq<Entry>, n: nat): (c: nat)
    requires n <= |entries|
    ensures c <= n
  {
    if n == 0 then 0 else CountLines(entries, n - 1) + (if IsLine(entries, n - 1) then 1 else 0)
  }

  /** Number of indices below n that are spoken lines of `name`. */
  function CountLinesOf(entries: seq<Entry>, name: string, n: nat): (c: nat)
    requires n <= |entries|
    ensures c <= CountLines(entries, n)
  {
    if n == 0 then 0 else CountLinesOf(entries, name, n - 1) + (if IsLineOf(entries, name, n - 1) then 1 else 0)
  }

  /** The contents of the CHARACTER entries, in script order. */
  function CharacterContents(entries: seq<Entry>): (names: seq<string>)
    ensures |names| <= |entries|
    ensures forall k :: 0 <= k < |entries| && entries[k].kind == Character ==> entries[k].content in names
    ensures forall n :: n in names ==> exists k :: 0 <= k < |entries| && entries[k].kind == Character && entries[k].content == n
  {
    if entries == [] then []
    else
      var rest := CharacterContents(entries[..|entries| - 1]);
      var last := entries[|entries| - 1];
      assert forall k :: 0 <= k < |entries| - 1 ==> entries[..|entries| - 1][k] == entries[k];
      if last.kind == Character then rest + [last.content] else rest
  }
}
