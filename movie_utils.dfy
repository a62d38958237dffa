/**
 * utils.py: the CSV row form of a movie's metadata and its inverse, and the
 * repair of misread letters in a character name against the table of how
 * often each name occurs.
 *
 * A Python dict whose iteration order matters is a `CountDict`: its keys in
 * insertion order plus the map from key to value.
 */
module MovieUtils {
  import opened Wrappers
  import opened PyStrings

  // ------------------------------------------------------------ metadata

  datatype Movie = Movie(title: string, authors: seq<string>, page: string, scriptPage: string)

  /** movie_to_array: four fields, the authors joined by ','. */
  function MovieToArray(m: Movie): (arr: seq<string>)
    ensures |arr| == 4
  {
    [m.title, Join(m.authors, ','), m.page, m.scriptPage]
  }

  /** array_to_movie: None where Python raises IndexError, a row of fewer than four fields. */
  function ArrayToMovie(arr: seq<string>): (r: Option<Movie>)
    ensures r.Some? <==> |arr| >= 4
  {
    if |arr| < 4 then None
    else Some(Movie(arr[0], Split(arr[1], ','), arr[2], arr[3]))
  }

  /** A row read back and written again keeps its first four fields. */
  lemma ArrayRoundTrip(arr: seq<string>)
    requires |arr| >= 4
    ensures MovieToArray(ArrayToMovie(arr).value) == arr[..4]
  {
    JoinSplit(arr[1], ',');
  }

  /** A movie written and read back is itself when it has an author and no author holds ','. */
  lemma MovieRoundTrip(m: Movie)
    requires |m.authors| >= 1
    requires forall k :: 0 <= k < |m.authors| ==> ',' !in m.authors[k]
    ensures ArrayToMovie(MovieToArray(m)) == Some(m)
  {
    SplitJoin(m.authors, ',');
  }

  /** Without authors the round trip gives one empty author. */
  lemma NoAuthorsComeBackEmpty(m: Movie)
    requires m.authors == []
    ensures ArrayToMovie(MovieToArray(m)) == Some(m.(authors := [""]))
  {
  }

  // ---------------------------------------------------------- count dict

  datatype CountDict = CountDict(order: seq<string>, count: map<string, int>)

  /** The keys are listed once each, in order, and are exactly the keys of the map. */
  predicate WellFormed(d: CountDict) {
    && (forall k :: 0 <= k < |d.order| ==> d.order[k] in d.count)
    && (forall x :: x in d.count ==> x in d.order)
    && (forall i, j :: 0 <= i < j < |d.order| ==> d.order[i] != d.order[j])
  }

  // --------------------------------------------------------- scan errors

  /** The letters a scan often misreads, each mapped to the letter it should have been. */
  const ScanErrors: map<char, char> := map['B' := 'R', 'G' := 'C', 'l' := 'I', 'R' := 'K']

  lemma ScanErrorsChange()
    ensures forall c :: c in ScanErrors ==> ScanErrors[c] != c
  {
  }

  /** The positions below n where a and b differ, in increasing order. */
  function DiffPositions(a: string, b: string, n: nat): (d: seq<nat>)
    requires n <= |a| && n <= |b|
    ensures |d| <= n
  {
    if n == 0 then []
    else DiffPositions(a, b, n - 1) + (if a[n - 1] != b[n - 1] then [n - 1] else [])
  }

  /** The listed positions are exactly those where a and b differ. */
  lemma {:induction false} DiffPositionsMembers(a: string, b: string, n: nat)
    requires n <= |a| && n <= |b|
    ensures forall p: int :: p in DiffPositions(a, b, n) <==> 0 <= p < n && a[p] != b[p]
  {
    if n > 0 {
      DiffPositionsMembers(a, b, n - 1);
    }
  }

  /** If every position where a and c differ is one where a and b differ, a and c differ in no more positions. */
  lemma {:induction false} DiffPositionsMonotone(a: string, b: string, c: string, n: nat)
    requires n <= |a| && n <= |b| && n <= |c|
    requires forall p :: 0 <= p < n && a[p] != c[p] ==> a[p] != b[p]
    ensures |DiffPositions(a, c, n)| <= |DiffPositions(a, b, n)|
  {
    if n > 0 {
      DiffPositionsMonotone(a, b, c, n - 1);
    }
  }

  /** Every position of `name` that is the scan-error image of `cn` there is repaired; others are kept. */
  function Repair(cn: string, name: string): (r: string)
    requires |cn| == |name|
    ensures |r| == |cn|
  {
    seq(|cn|, i requires 0 <= i < |cn| => if cn[i] in ScanErrors && name[i] == ScanErrors[cn[i]] then name[i] else cn[i])
  }

  /**
   * A repair changes only positions where `name` differs, each from a
   * scan-error letter to its image, which is `name`'s letter there; so it
   * changes at most as many positions as `name` differs in.
   */
  lemma RepairFacts(cn: string, name: string)
    requires |cn| == |name|
    ensures forall i :: 0 <= i < |cn| && Repair(cn, name)[i] != cn[i] ==>
      cn[i] in ScanErrors && Repair(cn, name)[i] == ScanErrors[cn[i]] == name[i]
    ensures |DiffPositions(cn, Repair(cn, name), |cn|)| <= |DiffPositions(cn, name, |cn|)|
  {
    DiffPositionsMonotone(cn, name, Repair(cn, name), |cn|);
  }

  /** `name` is a better-supported spelling of `cn` within two letters: the names the loop stops at. */
  predicate Close(name: string, cn: string, d: CountDict)
    requires name in d.count && cn in d.count
  {
    name != cn && |name| == |cn| && d.count[name] > d.count[cn] && |DiffPositions(name, cn, |name|)| <= 2
  }

  /** fix_scan_errors from key k on: None where Python raises KeyError. */
  function FixFrom(cn: string, d: CountDict, k: nat): (r: Option<string>)
    requires WellFormed(d)
    ensures r.Some? ==> |r.value| == |cn|
    decreases |d.order| - k
  {
    if k >= |d.order| then Some(cn)
    else
      var name := d.order[k];
      if name != cn && |name| == |cn| then
        if cn !in d.count then None
        else if d.count[name] > d.count[cn] && |DiffPositions(name, cn, |name|)| <= 2 then Some(Repair(cn, name))
        else FixFrom(cn, d, k + 1)
      else FixFrom(cn, d, k + 1)
  }

  function FixScan(cn: string, d: CountDict): Option<string>
    requires WellFormed(d)
  {
    FixFrom(cn, d, 0)
  }

  /** The lookup `character_dict[character_name]` fails exactly when the name is not a key and some key has its length. */
  lemma FixScanFailsIff(cn: string, d: CountDict)
    requires WellFormed(d)
    ensures FixScan(cn, d).None? <==> cn !in d.count && exists k :: 0 <= k < |d.order| && |d.order[k]| == |cn|
  {
    FixFromFailsIff(cn, d, 0);
  }

  lemma {:induction false} FixFromFailsIff(cn: string, d: CountDict, k: nat)
    requires WellFormed(d)
    ensures FixFrom(cn, d, k).None? <==> cn !in d.count && exists j :: k <= j < |d.order| && |d.order[j]| == |cn|
    decreases |d.order| - k
  {
    if k < |d.order| {
      FixFromFailsIff(cn, d, k + 1);
      if cn !in d.count && |d.order[k]| == |cn| {
        assert d.order[k] != cn;
      }
    }
  }

  /** With a listed name, the result is the repair against the first close key. */
  lemma {:induction false} FixFromFirstClose(cn: string, d: CountDict, k: nat, first: nat)
    requires WellFormed(d) && cn in d.count
    requires k <= first < |d.order| && Close(d.order[first], cn, d)
    requires forall j :: k <= j < first ==> !Close(d.order[j], cn, d)
    ensures FixFrom(cn, d, k) == Some(Repair(cn, d.order[first]))
    decreases first - k
  {
    if k < first {
      FixFromFirstClose(cn, d, k + 1, first);
    }
  }

  lemma {:induction false} FixFromNoClose(cn: string, d: CountDict, k: nat)
    requires WellFormed(d) && cn in d.count
    requires forall j :: k <= j < |d.order| ==> !Close(d.order[j], cn, d)
    ensures FixFrom(cn, d, k) == Some(cn)
    decreases |d.order| - k
  {
    if k < |d.order| {
      FixFromNoClose(cn, d, k + 1);
    }
  }

  /**
   * For a listed name: the repair against the first close key in dict
   * order, or the name itself when no key is close; in either case at most
   * two letters change, each a scan error fixed.
   */
  lemma FixScanSpec(cn: string, d: CountDict)
    requires WellFormed(d) && cn in d.count
    ensures FixScan(cn, d).Some?
    ensures (forall k :: 0 <= k < |d.order| ==> !Close(d.order[k], cn, d)) ==> FixScan(cn, d) == Some(cn)
    ensures forall k :: 0 <= k < |d.order| && Close(d.order[k], cn, d) && (forall j :: 0 <= j < k ==> !Close(d.order[j], cn, d)) ==>
      FixScan(cn, d) == Some(Repair(cn, d.order[k]))
    ensures |DiffPositions(cn, FixScan(cn, d).value, |cn|)| <= 2
    ensures forall i :: 0 <= i < |cn| && FixScan(cn, d).value[i] != cn[i] ==>
      cn[i] in ScanErrors && FixScan(cn, d).value[i] == ScanErrors[cn[i]]
  {
    FixScanFailsIff(cn, d);
    forall k | 0 <= k < |d.order| && Close(d.order[k], cn, d) && (forall j :: 0 <= j < k ==> !Close(d.order[j], cn, d))
      ensures FixScan(cn, d) == Some(Repair(cn, d.order[k]))
    {
      FixFromFirstClose(cn, d, 0, k);
    }
    if forall k :: 0 <= k < |d.order| ==> !Close(d.order[k], cn, d) {
      FixFromNoClose(cn, d, 0);
    }
    FixFromRepairs(cn, d, 0);
  }

  /** Whatever key the loop stops at, at most two letters change, each a scan error fixed. */
  lemma {:induction false} FixFromRepairs(cn: string, d: CountDict, k: nat)
    requires WellFormed(d) && cn in d.count
    ensures FixFrom(cn, d, k).Some?
    ensures |DiffPositions(cn, FixFrom(cn, d, k).value, |cn|)| <= 2
    ensures forall i :: 0 <= i < |cn| && FixFrom(cn, d, k).value[i] != cn[i] ==>
      cn[i] in ScanErrors && FixFrom(cn, d, k).value[i] == ScanErrors[cn[i]]
    decreases |d.order| - k
  {
    if k < |d.order| {
      var name := d.order[k];
      if name != cn && |name| == |cn| && d.count[name] > d.count[cn] && |DiffPositions(name, cn, |name|)| <= 2 {
        RepairFacts(cn, name);
        DiffPositionsSymmetric(name, cn, |name|);
      } else {
        FixFromRepairs(cn, d, k + 1);
      }
    } else {
      DiffPositionsSelf(cn, |cn|);
    }
  }

  lemma {:induction false} DiffPositionsSelf(a: string, n: nat)
    requires n <= |a|
    ensures DiffPositions(a, a, n) == []
  {
    if n > 0 {
      DiffPositionsSelf(a, n - 1);
    }
  }

  lemma {:induction false} DiffPositionsSymmetric(a: string, b: string, n: nat)
    requires n <= |a| && n <= |b|
    ensures DiffPositions(a, b, n) == DiffPositions(b, a, n)
  {
    if n > 0 {
      DiffPositionsSymmetric(a, b, n - 1);
    }
  }

  /** fix_scan_errors: the loop over the dict in order, returning at the first close key. */
  method FixScanErrors(characterName: string, characterDict: CountDict) returns (r: Option<string>)
    requires WellFormed(characterDict)
    ensures r == FixScan(characterName, characterDict)
  {
    var k := 0;
    while k < |characterDict.order|
      invariant 0 <= k <= |characterDict.order|
      invariant FixFrom(characterName, characterDict, k) == FixScan(characterName, characterDict)
    {
      var name := characterDict.order[k];
      if name != characterName && |name| == |characterName| {
        if characterName !in characterDict.count {
          return None;
        }
        if characterDict.count[name] > characterDict.count[characterName] {
          var diffIdx := DiffPositions(name, characterName, |name|);
          if |diffIdx| <= 2 {
            var fixed := FixLetters(characterName, name, diffIdx);
            return Some(fixed);
          }
        }
      }
      k := k + 1;
    }
    return Some(characterName);
  }

  /** Lines 62-65: each differing letter that is a scan error whose image is `name`'s letter is replaced by it. */
  method FixLetters(characterName: string, name: string, diffIdx: seq<nat>) returns (fixed: string)
    requires |name| == |characterName| && diffIdx == DiffPositions(name, characterName, |name|)
    ensures fixed == Repair(characterName, name)
  {
    DiffPositionsMembers(name, characterName, |name|);
    ScanErrorsChange();
    ghost var repaired := Repair(characterName, name);
    fixed := characterName;
    var t := 0;
    while t < |diffIdx|
      invariant 0 <= t <= |diffIdx|
      invariant |fixed| == |characterName|
      invariant forall p :: 0 <= p < |fixed| ==> fixed[p] == if p in diffIdx[..t] then repaired[p] else characterName[p]
    {
      var i := diffIdx[t];
      assert i in diffIdx;
      assert diffIdx[..t + 1] == diffIdx[..t] + [i];
      if fixed[i] in ScanErrors && name[i] == ScanErrors[fixed[i]] {
        fixed := fixed[i := ScanErrors[fixed[i]]];
      }
      t := t + 1;
    }
    assert diffIdx[..t] == diffIdx;
  }
}
