# Movie-Analysis in Dafny

Movie-Analysis turns a screenplay into a list of typed entries (CHARACTER,
SPEECH, DIRECTION, LOCATION, META). It scores each entry's sentiment,
gathers per-character statistics and a scene co-occurrence matrix, and
shows them in a browser as tables, a social graph and sentiment
timelines. This project models the deterministic core of that pipeline
and proves what it computes.

| file | models |
|---|---|
| `wrappers.dfy` | `Option` |
| `screenplay.dfy` | entry kinds, entries, spoken lines (a SPEECH right after a CHARACTER) |
| `py_strings.dfy` | the Python `str` methods the pipeline uses: `replace`, `strip`, `split`/`join` on one character, `lower` on ASCII letters |
| `script_parser.dfy` | `script_parser.py`: `basic_cleanup`, and the `MovieScript` class with `classify_entry_type`, `add_entry`, `cleanup_character_name`, `create_character_occurrence_dict`, `fix_character_scan_errors` and `finalize` |
| `script_analyzer.dfy` | `script_analyzer.py`: the `AnalyzedMovieScript` class (scoring, the statistics loop, `create_cooccurrences_matrix`) and the file name of `save_analyzed_movie` |
| `movie_utils.dfy` | `utils.py`: `movie_to_array`, `array_to_movie`, `fix_scan_errors` |
| `display_utils.dfy` | `display/utils.js`: the colours, `smoothMovingWindow`, `getNextCharacter`, `getPreviousCharacter`, `formatLabel` |
| `analysis_display.dfy` | the data loops of `display/analysis-display.js`: the sort by line count, the threshold filters, the graph's nodes and edges, the breakdown, interaction and direction series |

The model follows the source's own form:
- The parser's `MovieScript` and the analyzer's `AnalyzedMovieScript` are classes whose methods update their fields. Each method is proved equal to a specification function of the old state, and the lemmas next to those functions state what the source promises.
- The loops of the JavaScript pages are methods with loop invariants. The in-place sort works on an `array`.
- The Python string rewrites are functions.

A Python dict whose iteration order matters is a key sequence in insertion order plus a map (`MovieUtils.CountDict`). An example is the occurrence dict that `fix_scan_errors` walks. The analyzer's nested matrix dict is a map keyed by ordered pairs of names.

JavaScript series values are `JsNum`: a real, `NaN`, or `undefined`. The last stands for the score of an entry that has none, or for an array read past its end. `Number.isNaN(undefined)` is false, and any arithmetic with either value gives `NaN`.

## Model

| member | source | states |
|---|---|---|
| PyStrings.Strip | script_parser.py:50 | `str.strip()` gives a slice of the line with only whitespace outside it, and the slice neither starts nor ends with whitespace |
| PyStrings.LStripDropsSpace | script_parser.py:50 | the leading part that strip drops is all whitespace |
| PyStrings.RStripDropsSpace | script_parser.py:50 | the trailing part that strip drops is all whitespace |
| PyStrings.StripSlice | script_parser.py:50 | dropping the leading, then the trailing whitespace leaves a slice with only whitespace around it |
| PyStrings.TrimCompose | script_parser.py:50 | a whitespace prefix cut, then a whitespace suffix cut, leave a slice of the original with only whitespace outside it |
| PyStrings.ReplaceByEmptyShrinks | script_parser.py:47-48 | deleting a token never lengthens a line |
| PyStrings.JoinSplit | utils.py:8-17 | joining the pieces of a `split(",")` gives back the string |
| PyStrings.SplitJoin | utils.py:8-17 | splitting a `",".join` of comma-free pieces gives back the pieces |
| PyStrings.LowerAscii | script_analyzer.py:94 | `lower()` keeps the length, turns each upper-case ASCII letter into its own lower-case letter, and keeps every other character |
| ScriptParser.DeleteAll | script_parser.py:46-48 | deleting the tags never lengthens the line |
| ScriptParser.CollapseBlanks | script_parser.py:52 | never longer; a non-empty line stays non-empty, and its first character is kept, or becomes one space when blank |
| ScriptParser.CollapseBlanksFacts | script_parser.py:52 | the collapsed line has no tab and no two spaces in a row, and a last non-blank character is kept |
| ScriptParser.CollapseNoTab | script_parser.py:52 | every blank run, tabs included, becomes one space, so no tab survives |
| ScriptParser.CollapseNoDoubleSpace | script_parser.py:52 | no two spaces in a row survive |
| ScriptParser.CollapseKeepsLast | script_parser.py:52 | a line ending in a non-blank character still ends in it |
| ScriptParser.BasicCleanup | script_parser.py:44-53 | the result has no leading or trailing whitespace, no tab, no two consecutive spaces, and is never longer than the line |
| ScriptParser.BasicCleanupKeepsPlain | script_parser.py:44-53 | a line of letters and digits comes through unchanged |
| ScriptParser.CleanupCharacterName | script_parser.py:141-146 | the cleaned name neither starts nor ends with whitespace |
| ScriptParser.ClassifyFacts | script_parser.py:64-119 | `meta_finished` only turns on; while it is off the kind is META; the line is kept, or after a "NAME: speech" match cut to a suffix; the appended cue has no lower-case 'l' and precedes SPEECH |
| ScriptParser.DecideFacts | script_parser.py:64-114 | the decided line is a suffix of the raw line, the whole line unless a colon cue was cut off; a cut cue has no lower-case 'l' and its line is SPEECH |
| ScriptParser.ColonCueHasNoL | script_parser.py:83-85 | the cue cut off at the colon has every lower-case 'l' replaced |
| ScriptParser.FinishFacts | script_parser.py:116-117 | the META override keeps the line and cue, only turns the flag on, and makes the kind META while the flag is off |
| ScriptParser.CueLineAsWrittenIsDirection | script_parser.py:89-94 | as written, a bold line after a cue that no earlier test claims is DIRECTION |
| ScriptParser.CueLineIsSpeech | script_parser.py:92-94 | as intended, the same line is the cue's SPEECH |
| ScriptParser.CueLostAsWritten | script_parser.py:122-129 | as written, add_entry then retypes the cue to DIRECTION; as intended it keeps the cue |
| ScriptParser.CueLineCounterexample | script_parser.py:89-94 | the bold line "Hello" after the cue "RICK" loses the cue as written |
| ScriptParser.CueLineStored | script_parser.py:122-138 | as intended, such a line is appended as SPEECH after the untouched cue |
| ScriptParser.RetypeLast | script_parser.py:127-129 | only the last entry may change, and only from CHARACTER to DIRECTION when the new kind is not SPEECH |
| ScriptParser.AppendLine | script_parser.py:137-138 | at most one entry is appended, and only content with an ASCII letter or digit |
| ScriptParser.AddWithKeepsPrefix | script_parser.py:122-138 | add_entry grows the entries by at most 2 and changes no old entry except the last, which can only go from CHARACTER to DIRECTION |
| ScriptParser.AddWithAppends | script_parser.py:122-138 | what is appended is the colon cue (CHARACTER, or DIRECTION once retyped) and a line of the classified kind holding a letter or digit |
| ScriptParser.StoredPrefix | script_parser.py:122-138 | storing the cue and line grows the entries by at most 2 and changes no old entry but the last, which can only go from CHARACTER to DIRECTION |
| ScriptParser.StoredTail | script_parser.py:122-138 | every entry stored past the old end is the colon cue (CHARACTER or DIRECTION) or a line of the classified kind holding a letter or digit |
| ScriptParser.AddEntryMeta | script_parser.py:116-138 | the flag only turns on, and while it is off every appended entry is META or the colon cue |
| ScriptParser.OccurrencesWellFormed | script_parser.py:155-163 | the occurrence dict lists each key once, in insertion order |
| ScriptParser.OccurrencesCount | script_parser.py:155-163 | a name is a key exactly when a CHARACTER entry holds it, and its count is the number of such entries (so at least 1) |
| ScriptParser.OccurrencesTotal | script_parser.py:155-163 | the counts add up to the number of CHARACTER entries |
| ScriptParser.CuesAreKeys | script_parser.py:155-163 | every CHARACTER content is a key of the dict |
| ScriptParser.FixableCues | script_parser.py:149-152 | repairing any CHARACTER content against the dict of the same entries never fails its lookup |
| ScriptParser.FixAll | script_parser.py:149-152 | the repair pass keeps the number of entries |
| ScriptParser.RetypeStraySpeech | script_parser.py:201-203 | the pass keeps the number of entries |
| ScriptParser.RemoveNewlines | script_parser.py:206-207 | the pass keeps the number of entries |
| ScriptParser.FinalizedFacts | script_parser.py:194-207 | after finalize: same length; every SPEECH past index 0 follows a CHARACTER; no content holds "\n"; kinds change only SPEECH to DIRECTION |
| ScriptParser.AddNamesMembers | script_parser.py:210-214 | the stored names hold every CHARACTER content, and nothing but old names and CHARACTER contents |
| ScriptParser.AddNamesDistinct | script_parser.py:210-214 | the stored names repeat nothing when the old list did not |
| ScriptParser.AddNamesFromEmpty | script_parser.py:210-214 | from an empty list the names are the occurrence dict's keys in first-occurrence order |
| ScriptParser.MovieScript.constructor | script_parser.py:57-61 | no entries, no names, metadata not finished |
| ScriptParser.MovieScript.ClassifyEntryType | script_parser.py:64-119 | the returned kind and line, the flag and the appended cue are those of the (corrected) classification |
| ScriptParser.MovieScript.DecideEntry | script_parser.py:64-114 | the branches of classify_entry_type, before the META override, return the (corrected) decision `Decide` |
| ScriptParser.MovieScript.BoldEntryKind | script_parser.py:89-104 | the bold-line branches return the (corrected) kind `BoldKind` |
| ScriptParser.MovieScript.StoreEntry | script_parser.py:127-138 | the last CHARACTER is retyped DIRECTION unless the kind is SPEECH, then the cleaned line is appended when it holds a letter or digit; flag and names kept |
| ScriptParser.MovieScript.AddEntry | script_parser.py:122-138 | the new entries and flag are `AfterAdd` of the old ones; names untouched |
| ScriptParser.MovieScript.CreateCharacterOccurrenceDict | script_parser.py:155-163 | returns the occurrence dict of the entries |
| ScriptParser.MovieScript.FixCharacterScanErrors | script_parser.py:149-152 | every CHARACTER content is replaced by its repair against the dict, other entries kept |
| ScriptParser.MovieScript.Finalize | script_parser.py:166-214 | the entries become `Finalized(old entries)` and the names gain the new CHARACTER contents in order |
| ScriptParser.MovieScript.RetypeStraySpeechInPlace | script_parser.py:201-203 | a SPEECH entry not right after a CHARACTER becomes DIRECTION, in place |
| ScriptParser.MovieScript.RemoveNewlinesInPlace | script_parser.py:206-207 | every content loses its newlines, in place |
| ScriptParser.MovieScript.StoreCharacterNames | script_parser.py:210-214 | the names gain each CHARACTER content not yet listed, in entry order |
| ScriptAnalyzer.RunningMean | script_analyzer.py:38 | the update `(count*avg + x)/(count+1)` turns the mean of s into the mean of s + [x] |
| ScriptAnalyzer.ScoreAll | script_analyzer.py:24-26 | scoring keeps the number of entries |
| ScriptAnalyzer.ScoreAllFacts | script_analyzer.py:24-26 | scoring changes only scores, and scores exactly the SPEECH and DIRECTION entries |
| ScriptAnalyzer.LineScoresCount | script_analyzer.py:32-39 | there is one score per line spoken by the character |
| ScriptAnalyzer.InitialStats | script_analyzer.py:30-31 | every listed name starts with 0 lines and average 0, and nothing else is a key |
| ScriptAnalyzer.LineStep | script_analyzer.py:35-39 | one spoken line updates its speaker's count and running mean and nobody else |
| ScriptAnalyzer.StatsStart | script_analyzer.py:30-31 | before the first possible spoken line the initial statistics are those of no lines |
| ScriptAnalyzer.SpeakerListed | script_analyzer.py:35-37 | a SPEECH after a CHARACTER is a spoken line whose speaker has statistics to update |
| ScriptAnalyzer.StatsSkip | script_analyzer.py:35 | an entry that is not a spoken line changes nobody's statistics |
| ScriptAnalyzer.StatsStep | script_analyzer.py:35-39 | one entry of the loop takes the statistics of the lines before it to those of the lines up to it |
| ScriptAnalyzer.CharacterStatsOf | script_analyzer.py:29-39 | every listed name ends with its number of spoken lines and their mean score, and no other key |
| ScriptAnalyzer.RecordMean | script_analyzer.py:38-39 | the record step turns the statistics of s into those of s + [x] |
| ScriptAnalyzer.SilentCharacter | script_analyzer.py:30-39 | a listed character with no lines keeps count 0 and average 0 |
| ScriptAnalyzer.FinalizedCuesNamed | script_analyzer.py:36-37 | the names finalize stores cover every cue the analyzer looks up |
| ScriptAnalyzer.TallyOf | script_analyzer.py:69-76 | a scene tally with no lines has sum 0 |
| ScriptAnalyzer.TallyMeansInScene | script_analyzer.py:54-76 | a character is in `characters_in_scene` exactly when it has a cue after the last LOCATION |
| ScriptAnalyzer.MutualScoresSymmetric | script_analyzer.py:59-66 | the mutual scores of (a, b) and (b, a) are equal |
| ScriptAnalyzer.MutualScoresNeedLocation | script_analyzer.py:55-68 | cues after the last LOCATION add nothing |
| ScriptAnalyzer.MatrixSymmetric | script_analyzer.py:59-66 | `m[a][b]` and `m[b][a]` hold the same count and average |
| ScriptAnalyzer.BumpMean | script_analyzer.py:64-66 | the cell update keeps the count of shared scenes and the mean of the mutual scores |
| ScriptAnalyzer.FlushScene | script_analyzer.py:57-68 | every ordered pair of the scene, the diagonal included, is bumped by its mutual score once; other cells and keys are kept |
| ScriptAnalyzer.EmptyMatrix | script_analyzer.py:47-51 | every ordered pair of names, the diagonal included, starts at count 0 and average 0; no other key |
| ScriptAnalyzer.LocationStep | script_analyzer.py:57-68 | the flush at a LOCATION advances every cell to the scenes closed so far and empties the scene |
| ScriptAnalyzer.CueStep | script_analyzer.py:69-76 | a cue adds one line to its speaker's tally, and the next SPEECH's score when there is one |
| ScriptAnalyzer.ScanEntry | script_analyzer.py:55-76 | one entry of the loop takes the matrix and open scene of the entries before it to those of the entries up to it |
| ScriptAnalyzer.OtherStep | script_analyzer.py:55-76 | other entries change neither the matrix nor the scene |
| ScriptAnalyzer.ScoreAllKeepsCues | script_analyzer.py:24-37 | scoring keeps every looked-up cue a listed name |
| ScriptAnalyzer.ScenePairsListed | script_analyzer.py:58-65 | at a LOCATION every character of the scene is a listed name, so the flush's lookups succeed |
| ScriptAnalyzer.AnalyzedMovieScript.constructor | script_analyzer.py:18-42 | the entries are scored, every listed character holds its line count and mean score, and the matrix holds, for each pair, the number of shared LOCATION-closed scenes and the mean of their mutual scores |
| ScriptAnalyzer.AnalyzedMovieScript.ScoreEntries | script_analyzer.py:24-26 | the entries become their scored version; nothing else changes |
| ScriptAnalyzer.AnalyzedMovieScript.ComputeCharacterStats | script_analyzer.py:29-39 | `characters` holds, for every listed character, its line count and mean score; nothing else changes |
| ScriptAnalyzer.AnalyzedMovieScript.CreateCooccurrencesMatrix | script_analyzer.py:45-78 | the returned matrix holds the shared-scene count and mean mutual score of every pair |
| ScriptAnalyzer.SafeName | script_analyzer.py:94 | the file name has no space, no colon and no upper-case ASCII letter, and is never longer than the title |
| ScriptAnalyzer.SafeNameIdempotent | script_analyzer.py:94 | a safe name is its own safe name |
| MovieUtils.MovieToArray | utils.py:5-11 | four fields |
| MovieUtils.ArrayToMovie | utils.py:14-20 | a movie exactly when the row has at least four fields (IndexError otherwise) |
| MovieUtils.ArrayRoundTrip | utils.py:5-20 | a row read and written back keeps its first four fields |
| MovieUtils.MovieRoundTrip | utils.py:5-20 | a movie with at least one author, none holding ',', comes back unchanged |
| MovieUtils.NoAuthorsComeBackEmpty | utils.py:8-17 | a movie without authors comes back with one empty author |
| MovieUtils.ScanErrorsChange | utils.py:52-57 | every scan error maps a letter to a different one |
| MovieUtils.DiffPositions | utils.py:60 | at most n positions |
| MovieUtils.DiffPositionsMembers | utils.py:60 | the listed positions are exactly those where the names differ |
| MovieUtils.DiffPositionsMonotone | utils.py:60-65 | differing in fewer places never lists more positions |
| MovieUtils.DiffPositionsSymmetric | utils.py:60 | the positions do not depend on the order of the two names |
| MovieUtils.DiffPositionsSelf | utils.py:60 | a name differs from itself nowhere |
| MovieUtils.Repair | utils.py:62-65 | the repair keeps the length |
| MovieUtils.RepairFacts | utils.py:62-65 | each changed letter is a scan error replaced by its image, which is the candidate's letter there |
| MovieUtils.FixLetters | utils.py:62-65 | the letter loop returns the repair of the candidate against the key |
| MovieUtils.FixFrom | utils.py:58-67 | the result, when there is one, has the name's length |
| MovieUtils.FixScanFailsIff | utils.py:59 | the lookup fails exactly when the name is not a key and some key has its length |
| MovieUtils.FixFromFailsIff | utils.py:58-59 | from key k on, the lookup fails exactly when the name is not a key and a later key has its length |
| MovieUtils.FixFromFirstClose | utils.py:58-66 | the result is the repair against the first better-supported key within two letters |
| MovieUtils.FixFromNoClose | utils.py:58-67 | without such a key the name is returned unchanged |
| MovieUtils.FixScanSpec | utils.py:51-67 | for a key: a result; unchanged without a close key; otherwise the repair against the first close key; at most 2 letters changed, each a scan error fixed |
| MovieUtils.FixFromRepairs | utils.py:58-67 | at most two letters change, each a scan error replaced by its image |
| MovieUtils.FixScanErrors | utils.py:51-67 | the loop returns what `FixScan` specifies, None standing for the KeyError |
| DisplayUtils.ScoreOf | display/analysis-display.js:207 | `e.cs` is never NaN, and is a number exactly when the entry has a score |
| DisplayUtils.Channel | display/utils.js:27-29 | f = 0 gives the first channel, f = 1 the second, and f in [0, 1] a value between them |
| DisplayUtils.MixFacts | display/utils.js:27-29 | `a*(1-f) + b*f` is a at f = 0, b at f = 1, and its floor lies between a and b for f in [0, 1] |
| DisplayUtils.InterpolateColor | display/utils.js:25-31 | f = 0 gives c1, f = 1 gives c2, and f in [0, 1] keeps each channel between the two anchors |
| DisplayUtils.GetSentimentColor | display/utils.js:12-16 | a positive score lies between grey and green, any other score between grey and red |
| DisplayUtils.SentimentColorAnchors | display/utils.js:3-16 | score 0 is grey, +1 is green, -1 is red |
| DisplayUtils.DefaultWindowShort | display/utils.js:40-41 | the default window `round(n/5)` is shorter than a non-empty series |
| DisplayUtils.Smooth | display/utils.js:37-64 | the smoothed series has the input's length |
| DisplayUtils.SmoothMovingWindow | display/utils.js:39-64 | the nested loops return the smoothed series |
| DisplayUtils.SmoothSmallWindowIsIdentity | display/utils.js:42-43 | a window of at most 1 returns the input |
| DisplayUtils.WindowCountPositive | display/utils.js:53-60 | the current sample is counted, so the divisor is never zero |
| DisplayUtils.WindowSumStaysNaN | display/utils.js:53-58 | once an `undefined` has been added the sum stays NaN |
| DisplayUtils.SmoothedPastEndIsNaN | display/utils.js:53-60 | a window that folds back past the end of the series gives NaN |
| DisplayUtils.WindowSumBounds | display/utils.js:53-59 | when every sample the window reads is defined and within [lo, hi], the window's sum is a number between count·lo and count·hi |
| DisplayUtils.MeanBounds | display/utils.js:60 | the mean of values within [lo, hi] is within [lo, hi] |
| DisplayUtils.SmoothedWithinBounds | display/utils.js:49-60 | when the window of i reads no `undefined`, the smoothed sample is NaN exactly where the input is, and otherwise lies within any bounds of the window's own samples |
| DisplayUtils.SeriesWithinWindow | display/utils.js:49-58 | a window shorter than the series reads only its samples, so bounds on the whole series hold on every window |
| DisplayUtils.DefaultSmoothingKeepsGaps | display/utils.js:39-64 | with the default window no `undefined` appears, gaps stay exactly where they were, and values stay within the input's bounds |
| DisplayUtils.GetNextCharacter | display/utils.js:72-79 | the do-while scan returns `NextCharacter` |
| DisplayUtils.GetPreviousCharacter | display/utils.js:87-94 | the do-while scan returns `PreviousCharacter` |
| DisplayUtils.ScanForwardSpec | display/utils.js:74-78 | the forward scan stops at the first other speaker (or the last entry) before any LOCATION |
| DisplayUtils.NextCharacterSpec | display/utils.js:72-79 | the result is the first later cue naming another character (any cue on the last entry) with no LOCATION in between, and null exactly when every such cue lies past a LOCATION |
| DisplayUtils.NextCharacterIsOther | display/utils.js:77-78 | the result is the same speaker only on the last entry |
| DisplayUtils.ScanBackwardSpec | display/utils.js:89-93 | the backward scan mirrors the forward one, bounded by index 0 |
| DisplayUtils.PreviousCharacterSpec | display/utils.js:87-94 | the mirror image of `NextCharacterSpec`, bounded by index 0 |
| DisplayUtils.PreviousCharacterIsOther | display/utils.js:92-93 | the result is the same speaker only on the first entry |
| DisplayUtils.FormatLabel | display/utils.js:101-106 | text of at most 100 characters is kept; longer text becomes its first 100 characters and "...", 103 in all |
| AnalysisDisplay.SortCharacterNames | display/analysis-display.js:60-61 | the names are permuted in place into non-increasing line count, stably: names with equal line counts keep their order |
| AnalysisDisplay.SortedTiesUnique | display/analysis-display.js:60-61 | the sort's contract fixes its result: two orderings by line count that keep the same ties are equal |
| AnalysisDisplay.SwapDown | display/analysis-display.js:61 | one swap past a name with fewer lines keeps the multiset and the ties, and moves the inserted name one place left |
| AnalysisDisplay.SwapKeepsTies | display/analysis-display.js:61 | swapping neighbours with different line counts keeps the order among every group of equal counts |
| AnalysisDisplay.WithCountAppend | display/analysis-display.js:61 | the names of one line count in a concatenation are those of each part, in order |
| AnalysisDisplay.SinkDown | display/analysis-display.js:61 | one insertion step: a permutation that keeps the ties and orders one more name |
| AnalysisDisplay.SinkStep | display/analysis-display.js:61 | swapping a name past one with fewer lines keeps the prefix ordered around it |
| AnalysisDisplay.SinkDone | display/analysis-display.js:61 | a name that meets one with at least as many lines completes the ordered prefix |
| AnalysisDisplay.Shown | display/analysis-display.js:74-77 | the shown keys are keys of `characters`, no more than the order holds |
| AnalysisDisplay.ShownMembers | display/analysis-display.js:74-77 | a key is shown exactly when it is in the order and has more lines than the threshold |
| AnalysisDisplay.ShownKeepsOrder | display/analysis-display.js:73-85 | filtering a sorted order keeps it sorted |
| AnalysisDisplay.FillCharacterSelect | display/analysis-display.js:350-357 | one option per shown key, holding the character's name, in sorted order |
| AnalysisDisplay.CharacterTableRows | display/analysis-display.js:73-85 | one row per shown key in order, ranked 1, 2, 3, ... over shown rows only, with its name, line count and average |
| AnalysisDisplay.CreateSocialGraph | display/analysis-display.js:115-148 | one node per character over the threshold, labelled with its name, and the edges of `GraphEdges` |
| AnalysisDisplay.SocialGraphNodes | display/analysis-display.js:115-129 | one node per character over the threshold, in key order, with its name as id and label |
| AnalysisDisplay.ShownSnoc | display/analysis-display.js:118-119 | one more key joins the shown keys exactly when it passes the threshold |
| AnalysisDisplay.CharacterEdges | display/analysis-display.js:135-147 | the inner loop yields the edges from one character |
| AnalysisDisplay.RowEdgesSpec | display/analysis-display.js:135-147 | an edge from a character is in its row exactly when the target is another listed character over the threshold sharing a scene with it |
| AnalysisDisplay.GraphEdgesSpec | display/analysis-display.js:131-148 | an edge is in the graph exactly when its source and target pass, differ, and share a scene |
| AnalysisDisplay.GraphEdgesSound | display/analysis-display.js:131-148 | every edge of the graph joins two distinct keys that pass and share a scene |
| AnalysisDisplay.GraphEdgesComplete | display/analysis-display.js:131-148 | every such pair whose source comes before p has its edge in the graph |
| AnalysisDisplay.SocialGraphEdges | display/analysis-display.js:131-148 | edge `a-b` exists exactly when a and b are listed, differ, have a non-zero co-occurrence count and both pass the threshold |
| AnalysisDisplay.Repeat | display/analysis-display.js:215-216 | n copies of the value |
| AnalysisDisplay.BreakdownShape | display/analysis-display.js:195-220 | equal-length index, text and score series, one per line of the character; the index counts every speaker's lines and strictly increases; the per-scene series covers exactly the lines before the last LOCATION |
| AnalysisDisplay.BreakdownLines | display/analysis-display.js:200-212 | one index, text and score per line of the character; the index counts every speaker's lines and strictly increases |
| AnalysisDisplay.BreakdownScenes | display/analysis-display.js:200-219 | the per-scene series covers every score before the open scene, and the open scene's sum is the sum of its scores |
| AnalysisDisplay.BreakdownSceneAveragesWithin | display/analysis-display.js:213-219 | with every line scored within [lo, hi], each per-scene average is a number within [lo, hi] |
| AnalysisDisplay.ShowCharacterBreakdown | display/analysis-display.js:195-232 | the loop returns the breakdown series and their smoothing |
| AnalysisDisplay.InteractionsShape | display/analysis-display.js:257-282 | the two series have equal length with exactly one NaN gap per slot; one line and one index per interaction, strictly increasing; one slot per interaction when the names differ |
| AnalysisDisplay.AccumulateShare | display/analysis-display.js:284-288 | the loop adds each series' gap-as-zero sum divided by its length |
| AnalysisDisplay.ShowCharacterInteractions | display/analysis-display.js:252-330 | "No interactions" when no turn counts; otherwise half the interactions (rounded down), the average, the series and their smoothing |
| AnalysisDisplay.TwoSpeakerScene | display/analysis-display.js:257-288 | in the scene A, B, A, B only index 2 is scanned: one turn is counted, with average -0.5 |
| AnalysisDisplay.SameNameCountsTwice | display/analysis-display.js:261-279 | with the same name in both selects one cue can push two slots into each series |
| AnalysisDisplay.Directions | display/analysis-display.js:387-395 | only DIRECTION entries, never more than there are entries |
| AnalysisDisplay.DirectionsMembers | display/analysis-display.js:387-395 | every DIRECTION entry is among the directions, and nothing that is not an entry is |
| AnalysisDisplay.DirectionsSnoc | display/analysis-display.js:387-395 | one more entry adds itself to the directions exactly when it is a DIRECTION |
| AnalysisDisplay.DirectionsIndexed | display/analysis-display.js:387-395 | the k-th element is the entry at the k-th DIRECTION position, so repeated entries are all kept, in script order |
| AnalysisDisplay.IndicesAlign | display/analysis-display.js:387-395 | the k-th DIRECTION entry kept is the entry at the k-th DIRECTION position |
| AnalysisDisplay.IndicesOrdered | display/analysis-display.js:387-395 | the DIRECTION positions strictly increase and miss none |
| AnalysisDisplay.DirectionSeries | display/analysis-display.js:387-395 | the loop yields indices 0, 1, 2, ... with the score and text of each DIRECTION entry in script order |
| AnalysisDisplay.CreateDirectionSentimentChart | display/analysis-display.js:384-403 | indices 0, 1, 2, ... with one score and text per DIRECTION entry, and their smoothing |

## Left out

- The DOM, jQuery, Chart.js, sigma and ForceAtlas2 rendering, file upload, timers and event listeners of `display/analysis-display.js`: they are display plumbing. Only the data they are given is modelled. This includes the node positions, sizes and colours, the edge sizes and colours, the 3-decimal rounding of the displayed averages, the table's cell colour, and the meta table of `showCharacterBreakdown`.
- `display/nav-control.js`, `fetch_movie_metadata.py` and `script_fetcher.py` are not part of this model. They are panel wiring, HTTP requests and scraping.
- `formatLabelTitle` (`display/utils.js:113-115`) is left out: it only formats a float for a tooltip.
- DisplayUtils.GetSentimentColor: `Math.pow(|score|, 0.4)` is the parameter `grade`, and the result is the colour triple rather than the `"rgb(...)"` string.
- DisplayUtils.InterpolateColor: the channels are computed over reals with `Floor`, not IEEE-754 doubles.
- AnalysisDisplay.CreateSocialGraph: `for ... in movie.characters` walks the object's keys in their own order, which is the parameter `order` here.
- AnalysisDisplay.SortCharacterNames: stated by the order it produces, not by the comparator calls of `Array.prototype.sort`. That sort is stable, so the contract states stability: names with equal line counts keep their `Object.keys` order. `SortedTiesUnique` shows that this fixes the result, so any stable sort gives the same one; insertion sort is used here.
- The thresholds come from text inputs. They are modelled as `JsNum`, where a non-number never passes a `<=` test; the string-to-number coercion itself is left out.
- Scores, averages, running means and the JavaScript sums and divisions are exact reals, not IEEE-754 doubles. This covers `RunningMean`, `BumpMean`, `StatsHold` and `MatrixHolds` (`script_analyzer.py:38` and `:65`) and `Smooth`, `BreakdownUpTo` and `AccumulateShare` in the display. Their equalities hold exactly in the model and only up to rounding in the program.
- DisplayUtils.FormatLabel: lengths count characters (Unicode code points), while JavaScript's `length` and `substring` (`display/utils.js:103-104`) count UTF-16 code units. A label of astral characters such as emoji is cut sooner by the program than by the model.
- ScriptParser.MovieScript.ClassifyEntryType, ScriptParser.MovieScript.DecideEntry, ScriptParser.MovieScript.BoldEntryKind and ScriptParser.MovieScript.AddEntry follow line 94 as intended (an assignment), not as written (a comparison). The as-written behaviour is stated by `ClassifyAsWritten` and the lemmas of the Findings row.
- VADER scoring (`script_analyzer.py:10-15`) is the parameter `score` of the analyzer's constructor.
- ScriptAnalyzer.AnalyzedMovieScript.constructor: the `parsed_script` object is passed as its entries and names. `to_dict`, the JSON write and the prints of `save_analyzed_movie` are I/O.
- ScriptAnalyzer.FlushScene: the flush walks the scene's names in no fixed order. That order does not change the result, which is what the method states.
- ScriptAnalyzer.SafeName: `lower()` is modelled on ASCII letters only; other Unicode case mappings are not.
- The regular expressions of `script_parser.py` (17-40) are the tests of the `Patterns` record. Only the names of the tests carry meaning, not the expressions themselves. `exp_has_alphanumeric` and the blank-run substitution are written out.
- ScriptParser.CleanupCharacterName: the suffix substitution of `character_cleanup_pattern_1` is the pattern `characterSuffixes`, so only the stripping is stated.
- ScriptParser.MovieScript.Finalize: the false-negative recovery loop (`script_parser.py:173-192`) is not modelled. It rewrites entries through a regular expression and inserts into the list it enumerates. The recount and print at 197-198 have no effect on the state. The dict is therefore taken from the entries as `finalize` finds them.
- ScriptParser.MovieScript.constructor: `movie_info` is only stored for the output, so it is left out. So are `print` (216-224) and `parse_script` (227-279), which split the raw HTML into lines.
- The CSV readers `get_movie_metadata` and `get_all_movies_metadata` (`utils.py:23-47`) are file I/O.

## Findings

| source | as written | input that shows it | evidently intended | confidence | as-written member | corrected member |
|---|---|---|---|---|---|---|
| script_parser.py:94 | `entry_type == TYPE_SPEECH` compares instead of assigning. A bold line right after a CHARACTER cue that no earlier test claims keeps the initial DIRECTION. `add_entry` then retypes the cue to DIRECTION, so the exchange is lost (`CueLineAsWrittenIsDirection`, `CueLostAsWritten`, `CueLineCounterexample`) | entries `[CHARACTER "RICK"]`, metadata finished, the bold line `Hello`, and no pattern matching | the comment at line 92 says a SPEECH entry follows a CHARACTER. The line is the cue's SPEECH, and the cue stays a CHARACTER (`CueLineIsSpeech`, `CueLineStored`); the class uses this classifier | high; not executed | ScriptParser.ClassifyAsWritten | ScriptParser.Classify |
