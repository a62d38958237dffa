/**
 * The browser-side helpers of display/utils.js: sentiment colours, the
 * gap-tolerant trailing moving-average smoother, the scans for the
 * neighbouring speaker within a scene, and label truncation.
 *
 * A value in a plotted series is a JavaScript number: a real, `NaN` (a gap
 * pushed on purpose), or `undefined` (the `cs` of an entry that has none, or
 * an array read past its end). `Number.isNaN` holds of `NaN` only, and any
 * arithmetic with `NaN` or `undefined` yields `NaN`.
 */
module DisplayUtils {
  import opened Wrappers
  import opened Screenplay

  datatype JsNum = Num(v: real) | NaN | Undefined

  /** `e.cs` as the browser reads it. */
  function ScoreOf(e: Entry): (x: JsNum)
    ensures x != NaN
    ensures x.Num? <==> e.cs.Some?
  {
    if e.cs.Some? then Num(e.cs.value) else Undefined
  }

  /** JavaScript `a + b` on series values. */
  function JsAdd(a: JsNum, b: JsNum): JsNum {
    if a.Num? && b.Num? then Num(a.v + b.v) else NaN
  }

  function Abs(x: real): real { if x < 0.0 then -x else x }

  // ---------------------------------------------------------------- colours

  datatype Color = Color(r: int, g: int, b: int)

  const Red := Color(220, 70, 60)
  const Grey := Color(180, 180, 180)
  const Green := Color(50, 170, 30)

  predicate ChannelBetween(x: int, a: int, b: int) {
    (a <= x <= b) || (b <= x <= a)
  }

  /** Each channel of c lies between the same channels of c1 and c2. */
  predicate ColorBetween(c: Color, c1: Color, c2: Color) {
    ChannelBetween(c.r, c1.r, c2.r) && ChannelBetween(c.g, c1.g, c2.g) && ChannelBetween(c.b, c1.b, c2.b)
  }

  /** `a*(1-f) + b*f` */
  function Mix(a: int, b: int, f: real): real {
    (a as real) * (1.0 - f) + (b as real) * f
  }

  /** `Math.floor(a*(1-f) + b*f)` */
  function Channel(a: int, b: int, f: real): (x: int)
    ensures f == 0.0 ==> x == a
    ensures f == 1.0 ==> x == b
    ensures 0.0 <= f <= 1.0 ==> ChannelBetween(x, a, b)
  {
    MixFacts(a, b, f);
    Mix(a, b, f).Floor
  }

  lemma MixFacts(a: int, b: int, f: real)
    ensures f == 0.0 ==> Mix(a, b, f) == a as real
    ensures f == 1.0 ==> Mix(a, b, f) == b as real
    ensures 0.0 <= f <= 1.0 ==> ChannelBetween(Mix(a, b, f).Floor, a, b)
  {
    if f == 0.0 {
      assert Mix(a, b, f) == (a as real) * 1.0 + (b as real) * 0.0;
    } else if f == 1.0 {
      assert Mix(a, b, f) == (a as real) * 0.0 + (b as real) * 1.0;
    }
    if 0.0 <= f <= 1.0 {
      var d := b as real - a as real;
      MixShift(a, b, f);
      ScaledBetween(d, f);
      ShiftedBetween(a, b, Mix(a, b, f), d * f);
    }
  }

  /** y = a + t with t between 0 and b - a lies between a and b, and so does its floor. */
  lemma ShiftedBetween(a: int, b: int, y: real, t: real)
    requires y == a as real + t
    requires b >= a ==> 0.0 <= t <= b as real - a as real
    requires b < a ==> b as real - a as real <= t <= 0.0
    ensures ChannelBetween(y.Floor, a, b)
  {
    FloorBetween(a, b, y);
  }

  /** The mix `a*(1-f) + b*f` is `a + (b-a)*f`. */
  lemma MixShift(a: int, b: int, f: real)
    ensures Mix(a, b, f) == (a as real) + (b as real - a as real) * f
  {
    assert (a as real) * (1.0 - f) == (a as real) - (a as real) * f;
    assert (b as real - a as real) * f == (b as real) * f - (a as real) * f;
  }

  /** A real between two integers has its floor between them. */
  lemma FloorBetween(a: int, b: int, y: real)
    requires (a as real <= y <= b as real) || (b as real <= y <= a as real)
    ensures ChannelBetween(y.Floor, a, b)
  {
  }

  lemma ScaledBetween(d: real, f: real)
    requires 0.0 <= f <= 1.0
    ensures d >= 0.0 ==> 0.0 <= d * f <= d
    ensures d < 0.0 ==> d <= d * f <= 0.0
  {
    if d >= 0.0 {
      assert d * f <= d * 1.0;
    } else {
      assert d * f >= d * 1.0;
    }
  }

  /** interpolateColor: the colour at fraction f of the way from c1 to c2, channel by channel. */
  function InterpolateColor(c1: Color, c2: Color, f: real): (c: Color)
    ensures f == 0.0 ==> c == c1
    ensures f == 1.0 ==> c == c2
    ensures 0.0 <= f <= 1.0 ==> ColorBetween(c, c1, c2)
  {
    Color(Channel(c1.r, c2.r, f), Channel(c1.g, c2.g, f), Channel(c1.b, c2.b, f))
  }

  /**
   * getSentimentColor, as a colour triple. `grade` stands for
   * `x => Math.pow(x, 0.4)`, applied to the score's magnitude.
   */
  function GetSentimentColor(score: real, grade: real -> real): (c: Color)
    ensures score > 0.0 && 0.0 <= grade(score) <= 1.0 ==> ColorBetween(c, Grey, Green)
    ensures score <= 0.0 && 0.0 <= grade(-score) <= 1.0 ==> ColorBetween(c, Grey, Red)
  {
    var f := grade(Abs(score));
    if score > 0.0 then InterpolateColor(Grey, Green, f) else InterpolateColor(Grey, Red, f)
  }

  /** The three anchors: 0 is grey, +1 green, -1 red (red also for every score <= 0 of full magnitude). */
  lemma SentimentColorAnchors(grade: real -> real)
    requires grade(0.0) == 0.0 && grade(1.0) == 1.0
    ensures GetSentimentColor(0.0, grade) == Grey
    ensures GetSentimentColor(1.0, grade) == Green
    ensures GetSentimentColor(-1.0, grade) == Red
  {
    assert Abs(-1.0) == 1.0;
  }

  // -------------------------------------------------------------- smoothing

  /** `Math.round(n / 5)`; Math.round rounds halves up. */
  function DefaultWindow(n: nat): int {
    ((n as real) / 5.0 + 0.5).Floor
  }

  /** The window smoothMovingWindow uses: the argument, or the default when it is `undefined`. */
  function EffectiveWindow(n: nat, windowSize: Option<int>): int {
    if windowSize.Some? then windowSize.value else DefaultWindow(n)
  }

  /** The default window is always shorter than the series it smooths. */
  lemma DefaultWindowShort(n: nat)
    requires n >= 1
    ensures 0 <= DefaultWindow(n) < n
  {
    var x := (n as real) / 5.0 + 0.5;
    assert x < n as real;
  }

  function IAbs(j: int): nat { if j < 0 then -j else j }

  /** `data[idx]`: `undefined` past the end. */
  function At(data: seq<JsNum>, idx: nat): JsNum {
    if idx < |data| then data[idx] else Undefined
  }

  /** The running `sum` of the inner loop after visiting j in [lo, hi): NaN values skipped. */
  function WindowSum(data: seq<JsNum>, lo: int, hi: int): JsNum
    decreases hi - lo
  {
    if hi <= lo then Num(0.0)
    else
      var v := At(data, IAbs(hi - 1));
      var s := WindowSum(data, lo, hi - 1);
      if v == NaN then s else JsAdd(s, v)
  }

  /** The running `praticalWindowSize`: how many visited values were not NaN. */
  function WindowCount(data: seq<JsNum>, lo: int, hi: int): nat
    decreases hi - lo
  {
    if hi <= lo then 0
    else WindowCount(data, lo, hi - 1) + (if At(data, IAbs(hi - 1)) == NaN then 0 else 1)
  }

  /** Output position i: NaN stays NaN, otherwise `sum / praticalWindowSize` over j in [i-w, i]. */
  function SmoothedAt(data: seq<JsNum>, w: int, i: nat): JsNum
    requires i < |data|
  {
    if data[i] == NaN then NaN
    else
      var s := WindowSum(data, i - w, i + 1);
      var c := WindowCount(data, i - w, i + 1);
      if s.Num? && c > 0 then Num(s.v / c as real) else NaN
  }

  /** What smoothMovingWindow returns. */
  function Smooth(data: seq<JsNum>, windowSize: Option<int>): (out: seq<JsNum>)
    ensures |out| == |data|
  {
    var w := EffectiveWindow(|data|, windowSize);
    if w <= 1 then data else seq(|data|, i requires 0 <= i < |data| => SmoothedAt(data, w, i))
  }

  /** smoothMovingWindow, with its nested loops. */
  method SmoothMovingWindow(data: seq<JsNum>, windowSize: Option<int>) returns (out: seq<JsNum>)
    ensures out == Smooth(data, windowSize)
  {
    var w := if windowSize.None? then DefaultWindow(|data|) else windowSize.value;
    if w <= 1 {
      return data;
    }
    out := [];
    var i := 0;
    while i < |data|
      invariant 0 <= i <= |data|
      invariant |out| == i
      invariant forall k :: 0 <= k < i ==> out[k] == SmoothedAt(data, w, k)
    {
      var praticalWindowSize := 0;
      var sum := Num(0.0);
      if data[i] == NaN {
        out := out + [NaN];
      } else {
        var j := i - w;
        while j <= i
          invariant i - w <= j <= i + 1
          invariant sum == WindowSum(data, i - w, j)
          invariant praticalWindowSize == WindowCount(data, i - w, j)
        {
          var idx := IAbs(j);
          var v := if idx < |data| then data[idx] else Undefined;
          if v != NaN {
            praticalWindowSize := praticalWindowSize + 1;
            sum := JsAdd(sum, v);
          }
          j := j + 1;
        }
        out := out + [if sum.Num? && praticalWindowSize > 0 then Num(sum.v / praticalWindowSize as real) else NaN];
      }
      i := i + 1;
    }
  }

  /** A window of at most one sample leaves the series as it is. */
  lemma SmoothSmallWindowIsIdentity(data: seq<JsNum>, windowSize: Option<int>)
    requires EffectiveWindow(|data|, windowSize) <= 1
    ensures Smooth(data, windowSize) == data
  {
  }

  /** The current sample is always counted, so the divisor is never zero. */
  lemma WindowCountPositive(data: seq<JsNum>, w: int, i: nat)
    requires i < |data| && data[i] != NaN && w >= 0
    ensures WindowCount(data, i - w, i + 1) >= 1
  {
  }

  /** Once the running sum is NaN (an `undefined` was added), it stays NaN. */
  lemma {:induction false} WindowSumStaysNaN(data: seq<JsNum>, lo: int, mid: int, hi: int)
    requires lo <= mid <= hi
    requires WindowSum(data, lo, mid) == NaN
    ensures WindowSum(data, lo, hi) == NaN
    decreases hi - mid
  {
    if mid < hi {
      WindowSumStaysNaN(data, lo, mid, hi - 1);
    }
  }

  /**
   * The window folds back by |j|; when it reaches further back than the
   * series is long, `data[|j|]` is `undefined` and the output is NaN.
   */
  lemma SmoothedPastEndIsNaN(data: seq<JsNum>, w: int, i: nat)
    requires i < |data| && data[i] != NaN
    requires w - i >= |data|
    ensures SmoothedAt(data, w, i) == NaN
  {
    assert WindowSum(data, i - w, i - w + 1) == NaN;
    WindowSumStaysNaN(data, i - w, i - w + 1, i + 1);
  }

  predicate NoUndefined(data: seq<JsNum>) {
    forall k :: 0 <= k < |data| ==> data[k] != Undefined
  }

  predicate NumsWithin(data: seq<JsNum>, lo: real, hi: real) {
    forall k :: 0 <= k < |data| && data[k].Num? ==> lo <= data[k].v <= hi
  }

  /** Every sample the window [a, b) reads, `data[|j|]`, is defined and, when a number, within [lo, hi]. */
  predicate WindowWithin(data: seq<JsNum>, a: int, b: int, lo: real, hi: real) {
    forall j :: a <= j < b ==>
      At(data, IAbs(j)) != Undefined && (At(data, IAbs(j)).Num? ==> lo <= At(data, IAbs(j)).v <= hi)
  }

  /** The window's running sum is a number within count·lo and count·hi of the window's own samples. */
  lemma {:induction false} WindowSumBounds(data: seq<JsNum>, a: int, b: int, lo: real, hi: real)
    requires a <= b
    requires WindowWithin(data, a, b, lo, hi)
    ensures WindowSum(data, a, b).Num?
    ensures SumWithin(WindowSum(data, a, b).v, WindowCount(data, a, b) as real, lo, hi)
    decreases b - a
  {
    if a < b {
      WindowSumBounds(data, a, b - 1, lo, hi);
      var v := At(data, IAbs(b - 1));
      var c := WindowCount(data, a, b - 1) as real;
      var s := WindowSum(data, a, b - 1);
      assert s.Num?;
      if v != NaN {
        assert v.Num? && lo <= v.v <= hi;
        SumStepBounds(s.v, c, v.v, lo, hi, WindowSum(data, a, b).v, WindowCount(data, a, b) as real);
      } else {
        assert WindowSum(data, a, b) == s;
        assert WindowCount(data, a, b) as real == c;
      }
    }
  }

  lemma MeanBounds(s: real, c: real, lo: real, hi: real)
    requires c > 0.0 && SumWithin(s, c, lo, hi)
    ensures lo <= s / c <= hi
  {
  }

  /** A sum of c values, each within [lo, hi]. */
  predicate SumWithin(s: real, c: real, lo: real, hi: real) {
    c * lo <= s <= c * hi
  }

  lemma SumStepBounds(s: real, c: real, v: real, lo: real, hi: real, s': real, c': real)
    requires SumWithin(s, c, lo, hi) && lo <= v <= hi
    requires s' == s + v && c' == c + 1.0
    ensures SumWithin(s', c', lo, hi)
  {
  }

  /**
   * When the window of i reads no `undefined`, a smoothed sample is NaN
   * exactly where the input is, and otherwise the mean of the window's
   * samples: it lies within any bounds the window's own numbers keep.
   */
  lemma SmoothedWithinBounds(data: seq<JsNum>, w: int, i: nat, lo: real, hi: real)
    requires 0 <= w && i < |data|
    requires WindowWithin(data, i - w, i + 1, lo, hi)
    ensures SmoothedAt(data, w, i) == NaN <==> data[i] == NaN
    ensures SmoothedAt(data, w, i).Num? ==> lo <= SmoothedAt(data, w, i).v <= hi
  {
    if data[i] != NaN {
      WindowSumBounds(data, i - w, i + 1, lo, hi);
      WindowCountPositive(data, w, i);
      var s := WindowSum(data, i - w, i + 1).v;
      var c := WindowCount(data, i - w, i + 1) as real;
      MeanBounds(s, c, lo, hi);
    }
  }

  /** With the default window, smoothing a gap-marked series never invents a gap. */
  lemma DefaultSmoothingKeepsGaps(data: seq<JsNum>, lo: real, hi: real)
    requires NoUndefined(data) && NumsWithin(data, lo, hi)
    ensures NoUndefined(Smooth(data, None)) && NumsWithin(Smooth(data, None), lo, hi)
    ensures forall i :: 0 <= i < |data| ==> (Smooth(data, None)[i] == NaN <==> data[i] == NaN)
  {
    var w := DefaultWindow(|data|);
    if w > 1 {
      DefaultWindowShort(|data|);
      forall i | 0 <= i < |data|
        ensures Smooth(data, None)[i] != Undefined
        ensures Smooth(data, None)[i] == NaN <==> data[i] == NaN
        ensures Smooth(data, None)[i].Num? ==> lo <= Smooth(data, None)[i].v <= hi
      {
        SeriesWithinWindow(data, w, i, lo, hi);
        SmoothedWithinBounds(data, w, i, lo, hi);
      }
    }
  }

  /** A window shorter than the series reads only its samples, so bounds on the whole series hold on it. */
  lemma SeriesWithinWindow(data: seq<JsNum>, w: int, i: nat, lo: real, hi: real)
    requires 0 <= w < |data| && i < |data|
    requires NoUndefined(data) && NumsWithin(data, lo, hi)
    ensures WindowWithin(data, i - w, i + 1, lo, hi)
  {
    forall j | i - w <= j < i + 1
      ensures At(data, IAbs(j)) != Undefined && (At(data, IAbs(j)).Num? ==> lo <= At(data, IAbs(j)).v <= hi)
    {
      assert IAbs(j) < |data|;
    }
  }

  // -------------------------------------------------------- adjacent speakers

  /** A cue at j that getNextCharacter reports: another character, or any character on the last entry. */
  predicate NextPartner(entries: seq<Entry>, orig: string, j: int)
    requires 0 <= j < |entries|
  {
    entries[j].kind == Character && (entries[j].content != orig || j == |entries| - 1)
  }

  /** A cue at j that getPreviousCharacter reports: another character, or any character on the first entry. */
  predicate PreviousPartner(entries: seq<Entry>, orig: string, j: int)
    requires 0 <= j < |entries|
  {
    entries[j].kind == Character && (entries[j].content != orig || j == 0)
  }

  /** No scene boundary strictly between i and j. */
  predicate SceneClear(entries: seq<Entry>, i: int, j: int)
    requires 0 <= i <= j <= |entries| || 0 <= j <= i <= |entries|
  {
    if i <= j then forall l :: i < l < j ==> entries[l].kind != Location
    else forall l :: j < l < i ==> entries[l].kind != Location
  }

  /** The do-while scan forward from j: continue while not at the end, not at a new speaker and not at a LOCATION. */
  function ScanForward(entries: seq<Entry>, orig: string, j: nat): Option<string>
    requires j < |entries|
    decreases |entries| - j
  {
    if j < |entries| - 1 && (entries[j].kind != Character || entries[j].content == orig) && entries[j].kind != Location
    then ScanForward(entries, orig, j + 1)
    else if entries[j].kind == Character then Some(entries[j].content) else None
  }

  function ScanBackward(entries: seq<Entry>, orig: string, j: nat): Option<string>
    requires j < |entries|
  {
    if j > 0 && (entries[j].kind != Character || entries[j].content == orig) && entries[j].kind != Location
    then ScanBackward(entries, orig, j - 1)
    else if entries[j].kind == Character then Some(entries[j].content) else None
  }

  /** What getNextCharacter(movie, i) returns; `null` is None. */
  function NextCharacter(entries: seq<Entry>, i: nat): Option<string>
    requires i < |entries| - 1
  {
    ScanForward(entries, entries[i].content, i + 1)
  }

  /** What getPreviousCharacter(movie, i) returns. */
  function PreviousCharacter(entries: seq<Entry>, i: nat): Option<string>
    requires 0 < i < |entries|
  {
    ScanBackward(entries, entries[i].content, i - 1)
  }

  /** getNextCharacter. The source reads `entries[len]` (and throws) when i is the last index. */
  method GetNextCharacter(entries: seq<Entry>, i: nat) returns (r: Option<string>)
    requires i < |entries| - 1
    ensures r == NextCharacter(entries, i)
  {
    var originalCharacter := entries[i].content;
    var j := i + 1;
    while j < |entries| - 1 && (entries[j].kind != Character || entries[j].content == originalCharacter) && entries[j].kind != Location
      invariant i < j < |entries|
      invariant ScanForward(entries, originalCharacter, j) == NextCharacter(entries, i)
      decreases |entries| - j
    {
      j := j + 1;
    }
    r := if entries[j].kind == Character then Some(entries[j].content) else None;
  }

  /** getPreviousCharacter. The source reads `entries[-1]` (and throws) when i is 0. */
  method GetPreviousCharacter(entries: seq<Entry>, i: nat) returns (r: Option<string>)
    requires 0 < i < |entries|
    ensures r == PreviousCharacter(entries, i)
  {
    var originalCharacter := entries[i].content;
    var j := i - 1;
    while j > 0 && (entries[j].kind != Character || entries[j].content == originalCharacter) && entries[j].kind != Location
      invariant 0 <= j < i
      invariant ScanBackward(entries, originalCharacter, j) == PreviousCharacter(entries, i)
    {
      j := j - 1;
    }
    r := if entries[j].kind == Character then Some(entries[j].content) else None;
  }

  lemma {:induction false} ScanForwardSpec(entries: seq<Entry>, orig: string, j: nat)
    requires j < |entries|
    ensures ScanForward(entries, orig, j).Some? ==>
      exists k :: j <= k < |entries| && NextPartner(entries, orig, k)
        && entries[k].content == ScanForward(entries, orig, j).value
        && (forall l :: j <= l < k ==> entries[l].kind != Location && !NextPartner(entries, orig, l))
    ensures ScanForward(entries, orig, j).None? ==>
      forall k :: j <= k < |entries| && NextPartner(entries, orig, k) ==>
        exists l :: j <= l < k && entries[l].kind == Location
    decreases |entries| - j
  {
    if j < |entries| - 1 && (entries[j].kind != Character || entries[j].content == orig) && entries[j].kind != Location {
      ScanForwardSpec(entries, orig, j + 1);
      assert !NextPartner(entries, orig, j);
    } else if entries[j].kind != Character {
      forall k | j <= k < |entries| && NextPartner(entries, orig, k)
        ensures exists l :: j <= l < k && entries[l].kind == Location
      {
        assert k != j;
      }
    }
  }

  /**
   * getNextCharacter reports the first cue after i that names another
   * character (or any cue on the last entry), provided no LOCATION comes
   * first; it reports nothing exactly when every such cue lies beyond a
   * LOCATION.
   */
  lemma NextCharacterSpec(entries: seq<Entry>, i: nat)
    requires i < |entries| - 1
    ensures NextCharacter(entries, i).Some? ==>
      exists j :: i < j < |entries| && NextPartner(entries, entries[i].content, j)
        && entries[j].content == NextCharacter(entries, i).value
        && SceneClear(entries, i, j)
        && (forall l :: i < l < j ==> !NextPartner(entries, entries[i].content, l))
    ensures NextCharacter(entries, i).None? ==>
      forall j :: i < j < |entries| && NextPartner(entries, entries[i].content, j) ==> !SceneClear(entries, i, j)
  {
    ScanForwardSpec(entries, entries[i].content, i + 1);
  }

  /** The reported name differs from the speaker at i, except on the last entry. */
  lemma NextCharacterIsOther(entries: seq<Entry>, i: nat)
    requires i < |entries| - 1
    requires NextCharacter(entries, i) == Some(entries[i].content)
    ensures entries[|entries| - 1].kind == Character && entries[|entries| - 1].content == entries[i].content
  {
    NextCharacterSpec(entries, i);
  }

  lemma {:induction false} ScanBackwardSpec(entries: seq<Entry>, orig: string, j: nat)
    requires j < |entries|
    ensures ScanBackward(entries, orig, j).Some? ==>
      exists k :: 0 <= k <= j && PreviousPartner(entries, orig, k)
        && entries[k].content == ScanBackward(entries, orig, j).value
        && (forall l :: k < l <= j ==> entries[l].kind != Location && !PreviousPartner(entries, orig, l))
    ensures ScanBackward(entries, orig, j).None? ==>
      forall k :: 0 <= k <= j && PreviousPartner(entries, orig, k) ==>
        exists l :: k < l <= j && entries[l].kind == Location
  {
    if j > 0 && (entries[j].kind != Character || entries[j].content == orig) && entries[j].kind != Location {
      ScanBackwardSpec(entries, orig, j - 1);
      assert !PreviousPartner(entries, orig, j);
    } else if entries[j].kind != Character {
      forall k | 0 <= k <= j && PreviousPartner(entries, orig, k)
        ensures exists l :: k < l <= j && entries[l].kind == Location
      {
        assert k != j;
      }
    }
  }

  /** getPreviousCharacter: the mirror image of NextCharacterSpec, bounded by index 0. */
  lemma PreviousCharacterSpec(entries: seq<Entry>, i: nat)
    requires 0 < i < |entries|
    ensures PreviousCharacter(entries, i).Some? ==>
      exists j :: 0 <= j < i && PreviousPartner(entries, entries[i].content, j)
        && entries[j].content == PreviousCharacter(entries, i).value
        && SceneClear(entries, i, j)
        && (forall l :: j < l < i ==> !PreviousPartner(entries, entries[i].content, l))
    ensures PreviousCharacter(entries, i).None? ==>
      forall j :: 0 <= j < i && PreviousPartner(entries, entries[i].content, j) ==> !SceneClear(entries, i, j)
  {
    ScanBackwardSpec(entries, entries[i].content, i - 1);
  }

  /** The reported name differs from the speaker at i, except on the first entry. */
  lemma PreviousCharacterIsOther(entries: seq<Entry>, i: nat)
    requires 0 < i < |entries|
    requires PreviousCharacter(entries, i) == Some(entries[i].content)
    ensures entries[0].kind == Character && entries[0].content == entries[i].content
  {
    PreviousCharacterSpec(entries, i);
  }

  // ----------------------------------------------------------------- labels

  const LabelLimit := 100

  /** formatLabel: long text is cut to its first 100 characters followed by "...". */
  function FormatLabel(text: string): (r: string)
    ensures |r| <= LabelLimit + 3
    ensures |text| <= LabelLimit ==> r == text
    ensures |text| > LabelLimit ==> |r| == LabelLimit + 3 && r[..LabelLimit] == text[..LabelLimit] && r[LabelLimit..] == "..."
  {
    if |text| > LabelLimit then text[..LabelLimit] + "..." else text
  }
}
