# determine-preset, modelled in Dafny

`determine-preset` reads the flags an x265 encode reports, such as the
`Encoding settings` line from `mediainfo`, and names the x265 preset that
produced them. Its engine is in `src/lib.rs`. This project models that
engine and proves properties of it:

- **Tokenizer** (`Tokenizer`). `parse_string` splits the input on Unicode
  whitespace, splits each word on `=`, and collects `key=value` pairs into
  a map. A repeated key takes its value from its last word.
- **Normalizer** (`Matcher.Normalized`, `Matcher.DeterminePresetFromStr`).
  This is what `determine_preset_from_str` does to the parsed map: it
  removes `me` and rewrites `lookahead-slices=0` to `1`.
- **Preset catalog** (`Catalog`). These are the ten presets of
  `Determiner::new`, in declaration order.
- **Matcher and classifier** (`Matcher`):
  - `preset_matches` is a permissive test: a preset matches unless it holds
    a different value for an observed key.
  - `determine_preset` gives one of three outcomes: one match, no match, or
    several matches listed in table order.
- **Ranking** (`Closest`). `closest_matches` counts, for each preset, the
  observed pairs it holds with the same value. It then sorts by count with
  a stable ascending `sort_by_key` and reverses the result. Both steps
  work in place on an `array`. Presets with equal counts therefore come
  out in reverse table order.
- **Diff table** (`DiffTable`). `partially_matching_presets` and
  `width_of_values`, with colour off. This is the table the verbose
  no-match error shows: the observed values beside the three closest
  presets, padded to column widths and drawn into a string buffer row by
  row.
- **Scenarios** (`Scenarios`). These are the assertions of
  `test_encoding_params`. The three short inputs are carried from the
  input string, through tokenizing and normalising, to the outcome. The
  flag dump of the first assertion (src/lib.rs:308) is not tokenized or
  normalised: its outcome is stated for every settings map that agrees
  with `veryslow` and sets the three flags that rule out the other
  presets.

Lengths that the source takes with `str::len` are byte lengths. They are
modelled as UTF-8 byte counts (`Text.ByteLen`).

Three points of the renderer that the model takes from the code:

- With `verbose >= 2`, the lines are every observed parameter, and the
  preset columns are restricted to the first preset's full parameter set
  (src/lib.rs:144-153).
- On an empty table, an empty shown set or an empty shown preset the code
  panics (src/lib.rs:138, 141, 174). These panics are the preconditions
  `DiffTable.Renderable`. `DiffTable.NoMatchRenders` proves that they hold
  wherever `determine_preset` reaches the renderer over a well-formed
  table, such as `Catalog.Presets()`.
- The column order is the iteration order of a `HashMap` (src/lib.rs:192,
  223), not ranking order.

## Model

| member | source | states |
|---|---|---|
| Text.ByteLen | src/lib.rs:174 | definition of `str::len`, the UTF-8 byte length; properties in `Text.ByteLenAppend`, `Text.ByteLenBounds` |
| Text.IsWhitespace | src/lib.rs:298 | definition of `char::is_whitespace` (the Unicode White_Space set) used by `split_whitespace`; properties in `Tokenizer.Words*` |
| Text.Pad | src/lib.rs:206-209 | the cell has exactly the column width in bytes, begins with the value, and the rest is spaces (with `Text.PadSpaces`) |
| Text.PadSpaces | src/lib.rs:189-190 | padding past the value is all spaces |
| Tokenizer.Words | src/lib.rs:298 | `split_whitespace`: every word is non-empty and free of whitespace; pinned down by `Tokenizer.WordsOfWord` and `Tokenizer.WordsSplitAt` |
| Tokenizer.WordsOfWord | src/lib.rs:298 | a non-empty run free of whitespace is exactly one word |
| Tokenizer.WordsSplitAt | src/lib.rs:298 | a whitespace character separates: the words of `a`, a whitespace, `b` are the words of `a` followed by the words of `b`, so nothing is lost or reordered |
| Tokenizer.WordsOfJoin | src/lib.rs:298 | splitting words joined by single spaces gives back the same words |
| Tokenizer.SplitPair | src/lib.rs:300-301 | definition of the `filter_map` closure; properties in `Tokenizer.SplitPairShape`, `Tokenizer.SplitPairOfJoined` |
| Tokenizer.Collect | src/lib.rs:299-303 | definition of `collect` into a `HashMap`, pair by pair; properties in `Tokenizer.CollectKeys`, `Tokenizer.CollectLastWins` |
| Tokenizer.ParseString | src/lib.rs:296-304 | definition of `parse_string`; properties in `Tokenizer.ParseStringKeys`, `Tokenizer.ParseStringLastWins`, `Tokenizer.ParseJoinedPairs` |
| Tokenizer.SplitPairShape | src/lib.rs:300-301 | a word without `=` gives no pair; otherwise the key is the text before the first `=`, the value is the text up to the second `=` or the end, and the rest is dropped |
| Tokenizer.SplitPairOfJoined | src/lib.rs:300-301 | `key=value` and `key=value=tail` both split to `(key, value)` |
| Tokenizer.ParseStringKeys | src/lib.rs:296-304 | a key is in the parsed map if and only if some word splits to a pair with that key |
| Tokenizer.ParseStringLastWins | src/lib.rs:296-304 | a repeated key takes the value of its last word |
| Tokenizer.CollectKeys | src/lib.rs:299-303 | collecting pairs into a map keeps exactly the keys of the words that split |
| Tokenizer.CollectLastWins | src/lib.rs:299-303 | collecting into a map: a later pair overwrites an earlier one with the same key |
| Tokenizer.ParseJoinedPairs | src/lib.rs:296-304 | parsing `key=value` words joined by spaces gives back the map of those pairs |
| Catalog.Presets | src/lib.rs:40-88 | definition of the table of `Determiner::new`; properties in `Catalog.PresetNames`, `Catalog.PresetsWellFormed` |
| Catalog.DefaultPresets | src/lib.rs:33-37 | definition of the empty table of the derived `Determiner::default()`; property in `Scenarios.DefaultDeterminerMatchesNothing` |
| Catalog.PresetNames | src/lib.rs:44-86 | ten presets, named `ultrafast` … `placebo` in declaration order |
| Catalog.PresetsShareSchema | src/lib.rs:44-86 | every preset sets the same parameters |
| Catalog.PresetNamesDistinct | src/lib.rs:44-86 | no two presets share a name |
| Catalog.PresetNamesAscii | src/lib.rs:44-86 | preset names are non-empty ASCII |
| Catalog.PresetsWellFormed | src/lib.rs:40-88 | the table is non-empty, has distinct ASCII names, and has one schema |
| Matcher.PresetMatches | src/lib.rs:283-293 | definition of `preset_matches`; properties in `Matcher.EmptyInputMatches`, `Matcher.MatchesAntitone`, `Matcher.MatchesIffFullAgreement` |
| Matcher.MatchingNames | src/lib.rs:262-266 | definition of `matching_presets`; properties in `Matcher.MatchingIndices`, `Matcher.MatchingCount` |
| Matcher.DeterminePreset | src/lib.rs:260-278 | definition of `determine_preset`; properties in `Matcher.UniqueMatch`, `Matcher.NoMatch`, `Matcher.AmbiguousMatch` |
| Matcher.EmptyInputMatches | src/lib.rs:283-293 | an empty observation matches every preset |
| Matcher.MatchesAntitone | src/lib.rs:283-293 | removing observed pairs never turns a match into a mismatch |
| Matcher.AddPairKeepsMismatch | src/lib.rs:283-293 | adding an observed pair never turns a mismatch into a match |
| Matcher.MatchesOnKnownKeys | src/lib.rs:287-292 | matching depends only on the observed keys the preset knows: the input matches if and only if its restriction to the preset's keys does |
| Matcher.MatchesIffFullAgreement | src/lib.rs:287-292 | a preset matches if and only if its agreement count equals the number of shared keys |
| Matcher.MatchingIndices | src/lib.rs:262-266 | the matching positions, strictly increasing: a position is listed if and only if that preset matches |
| Matcher.MatchingCount | src/lib.rs:262-277 | no names if and only if nothing matches; two or more names if and only if two presets match |
| Matcher.UniqueMatch | src/lib.rs:269-272 | `Ok(name)` if and only if exactly one preset matches and `name` is its name |
| Matcher.NoMatch | src/lib.rs:269-271 | nothing matches if and only if the result is the closest-match ranking (quiet) or the partial-match error (verbose) |
| Matcher.AmbiguousMatch | src/lib.rs:273-276 | two presets match if and only if the result lists every matching name |
| Matcher.AmbiguousNames | src/lib.rs:262-276 | the names in an ambiguity error are those of the matching presets, in table order, at least two |
| Matcher.EmptyInputAmbiguous | src/lib.rs:283-293 | over two or more presets, an empty observation is ambiguous and names the whole table |
| Matcher.RankingTopMatches | src/lib.rs:244-257 | when some preset matches a table with one schema, the ranking starts at the full shared count, and every entry at that count names a matching preset |
| Matcher.Normalized | src/lib.rs:102-109 | `me` is gone; `lookahead-slices` `0` becomes `1`; every other key and value is unchanged |
| Matcher.NormalizedIdempotent | src/lib.rs:102-109 | normalising twice is normalising once |
| Matcher.DeterminePresetFromStr | src/lib.rs:100-113 | parsing, removing `me` and rewriting `lookahead-slices` in place, then classifying, equals classifying the normalised parse |
| Closest.Counts | src/lib.rs:245-253 | definition of the vector built before sorting; properties in `Closest.RankingPermutes`, `Closest.RankingEntries` |
| Closest.SortByCount | src/lib.rs:254 | definition of `sort_by_key` on the count; properties in `Closest.SortByCountSpec` |
| Closest.Reversed | src/lib.rs:255 | definition of `reverse`; properties in `Closest.ReversedSpec`, `Closest.ReversedTied` |
| Closest.Ranking | src/lib.rs:244-257 | definition of what `closest_matches` returns; properties in `Closest.RankingDescending`, `Closest.RankingTies`, `Closest.RankingPermutes` |
| Closest.AgreementCount | src/lib.rs:246-251 | a preset's count is at most the number of observed keys |
| Closest.AgreementCountFull | src/lib.rs:246-251 | the count reaches the number of observed keys if and only if the preset holds every observed pair |
| Closest.InsertByCountContents | src/lib.rs:254 | one insertion step adds exactly the inserted candidate |
| Closest.InsertByCountAscending | src/lib.rs:254 | an insertion step keeps the list ascending |
| Closest.InsertByCountTied | src/lib.rs:254 | an insertion step puts the new candidate after its equals (stability) |
| Closest.SortByCountSpec | src/lib.rs:254 | `sort_by_key`: ascending, a permutation, and each group of equal counts in its original order |
| Closest.ReversedSpec | src/lib.rs:255 | `reverse`: position `k` holds the element from `n-1-k`; a permutation |
| Closest.ReversedTied | src/lib.rs:255 | reversing reverses each group of equal counts |
| Closest.ReversedDescending | src/lib.rs:254-255 | reversing an ascending list gives a descending one |
| Closest.RankingDescending | src/lib.rs:254-255 | the ranking is non-increasing by count |
| Closest.RankingPermutes | src/lib.rs:245-255 | the ranking has one entry per preset and is a permutation of the per-preset counts |
| Closest.RankingEntries | src/lib.rs:245-253 | an entry is in the ranking if and only if it is some preset's name with that preset's count, and every count is at most the number of observed keys |
| Closest.RankingTies | src/lib.rs:254-255 | presets with equal counts appear in reverse table order |
| Closest.InsertInPlace | src/lib.rs:254 | one in-place insertion-sort step on the array equals `InsertByCount` on its prefix, and leaves the rest unchanged |
| Closest.SortByCountInPlace | src/lib.rs:254 | the in-place sort of the array equals `SortByCount` of its old contents |
| Closest.ReverseInPlace | src/lib.rs:255 | the in-place reverse of the array equals `Reversed` of its old contents |
| Closest.ClosestMatches | src/lib.rs:244-257 | count, sort in place and reverse in place: the result is `Ranking` |
| DiffTable.MaxLen | src/lib.rs:131-139 | the maximum byte length: no value is longer and some value attains it |
| DiffTable.MaxLenStep | src/lib.rs:133-136 | the maximum over one more value is the larger of the old maximum and the new length |
| DiffTable.WidthOfValues | src/lib.rs:131-139 | the loop over `max_len` returns `MaxLen` of its non-empty input |
| DiffTable.Renderable | src/lib.rs:138-174 | definition of what the renderer needs not to panic (a first preset, a shown parameter, values in every shown preset, room for `-`); property in `DiffTable.NoMatchRenders` |
| DiffTable.Plan | src/lib.rs:141-176 | definition of the layout computed before drawing; properties in `DiffTable.PlanRows`, `DiffTable.PlanColumns`, `DiffTable.PlanWidths`, `DiffTable.PlanCells`, `DiffTable.PlanFits` |
| DiffTable.Header | src/lib.rs:185-197 | definition of the header row; properties in `DiffTable.HeaderCellsPadded`, `DiffTable.ColumnsAligned` |
| DiffTable.Line | src/lib.rs:204-236 | definition of a parameter's row; properties in `DiffTable.LineCellsPadded`, `DiffTable.ColumnsAligned` |
| DiffTable.Separator | src/lib.rs:199 | definition of the dash row; properties in `DiffTable.ColumnsAligned` |
| DiffTable.Table | src/lib.rs:184-241 | definition of the whole table text; `DiffTable.Draw` and `DiffTable.PartiallyMatchingPresets` are proved equal to it |
| Text.Repeat | src/lib.rs:186 | definition of `str::repeat` for one character, used for the padding and the dash row; properties in `Text.RepeatChars`, `Text.RepeatAsciiByteLen` |
| DiffTable.Params | src/lib.rs:144-148 | definition of `preset_enc_params`: the first preset's parameters in its map order, kept only where observed unless `verbose >= 2`; properties in `DiffTable.PlanRows`, `DiffTable.RowParam` |
| DiffTable.ShownKeys | src/lib.rs:149-153 | definition of the filtered `input_keys`: the observed parameters that get a line; properties in `DiffTable.PlanRows` |
| DiffTable.Shown | src/lib.rs:156-165 | definition of the `presets` map: the three closest presets on the shown parameters; properties in `DiffTable.PlanColumns`, `DiffTable.PlanColumnValues` |
| DiffTable.ColumnWidth | src/lib.rs:173-176 | definition of `width_per_preset`; properties in `DiffTable.ColumnWidthSpec`, `DiffTable.PlanWidths` |
| DiffTable.Cell | src/lib.rs:224-226 | definition of a preset cell: the preset's value, or `-` through `unwrap_or(&default)`; properties in `DiffTable.PlanCells`, `DiffTable.CellWithinColumn` |
| DiffTable.Heading | src/lib.rs:193-196 | a preset heading is exactly its column's width |
| DiffTable.Entry | src/lib.rs:224-235 | a preset cell is exactly its column's width |
| DiffTable.HeaderCellsPadded | src/lib.rs:186-197 | the header's blank corner, `input` and every preset name are each padded to their column width |
| DiffTable.LineCellsPadded | src/lib.rs:206-235 | a line's parameter, observed value and every preset cell are each padded to their column width |
| DiffTable.ColumnsAligned | src/lib.rs:184-239 | every line is as long as the header, and the separator is that many `-` |
| DiffTable.PushHeadings | src/lib.rs:192-197 | the header loop appends the separator and the preset name, padded to the column width, for every column, in column order |
| DiffTable.PushEntries | src/lib.rs:223-236 | the cell loop appends the separator and the preset's value (or `-`), padded to the column width, for every column, in column order |
| DiffTable.DrawHeader | src/lib.rs:185-197 | the header row built in the row buffer is `Header` |
| DiffTable.DrawLine | src/lib.rs:204-236 | a parameter's row built in the row buffer is `Line` |
| DiffTable.DrawPrelude | src/lib.rs:184-200 | the header and the dash line sized from the table length, each added with its newline, are `Prelude` |
| DiffTable.DrawRows | src/lib.rs:203-239 | one finished row with its newline per parameter, in row order |
| DiffTable.Draw | src/lib.rs:184-241 | the drawn table is `Table` of the layout |
| DiffTable.Filter | src/lib.rs:144-153 | the kept elements are those in both the order and the set |
| DiffTable.TopNames | src/lib.rs:156 | `take(3)`: the names of the first three entries of the ranking, or of all of them when there are fewer |
| Catalog.Restrict | src/lib.rs:160-166 | a map restricted to a key set keeps exactly those keys and values |
| DiffTable.ShownPresets | src/lib.rs:158-165 | a name is shown if and only if it is in the top three and in the table; its values are that preset's values on the shown parameters |
| DiffTable.ValuesAlong | src/lib.rs:169-174 | every value of the map on the given keys is listed, and nothing else |
| DiffTable.PlanFits | src/lib.rs:168-176 | the widths computed leave room for every cell, so no padding subtraction underflows |
| DiffTable.PartiallyMatchingPresets | src/lib.rs:124-242 | the drawn text is `Table` of the planned layout, and that layout fits |
| DiffTable.PlanRows | src/lib.rs:142-153 | lines are the observed parameters the first preset knows (every observed parameter when `verbose >= 2`), each showing its observed value |
| DiffTable.PlanColumns | src/lib.rs:156-165 | columns are the top names of the ranking, at most three |
| DiffTable.PlanWidths | src/lib.rs:169-176 | parameter width is the longest name; input width is the longest value but at least `input`; a preset width is the longer of its name and its longest value |
| DiffTable.ColumnWidthSpec | src/lib.rs:173-175 | a preset column is at least as wide as its name and every value, and its width is one of them |
| DiffTable.PlanColumnValues | src/lib.rs:158-165 | with distinct names, a column holds its preset's values on the shown parameters |
| DiffTable.PlanCells | src/lib.rs:223-226 | a cell shows the preset's value, or `-` when it has none for that parameter |
| DiffTable.CellWithinColumn | src/lib.rs:225-226 | a cell, `-` included, fits its column |
| DiffTable.QuietNoPlaceholder | src/lib.rs:144-153 | quiet, over a table with one schema, no preset cell is `-` |
| DiffTable.NoMatchRenders | src/lib.rs:270 | when nothing matches over a well-formed table, the renderer's preconditions (its panics) hold, whatever the map orders |
| Scenarios.ParseCtu | src/lib.rs:314 | `ctu=32` parses to the map with that one pair |
| Scenarios.ParseSuperfast | src/lib.rs:310 | `ctu=32 min-cu-size=8` parses to the map with those two pairs |
| Scenarios.ParseClosest | src/lib.rs:312 | `ctu=32 min-cu-size=8 bframes=8` parses to the map with those three pairs |
| Scenarios.ClosestRanked | src/lib.rs:312-313 | the ranking for `ctu=32 min-cu-size=8 bframes=8` is placebo, veryslow, slower, superfast at 2, then slow … ultrafast at 1 |
| Scenarios.SuperfastIdentified | src/lib.rs:310-311 | `ctu=32 min-cu-size=8` gives `Ok("superfast")` at any verbosity |
| Scenarios.ClosestReported | src/lib.rs:312-313 | `ctu=32 min-cu-size=8 bframes=8` matches nothing: quietly, the ranking above; verbosely, the partial-match error |
| Scenarios.CtuAmbiguous | src/lib.rs:314-315 | `ctu=32` gives the ambiguity error naming `ultrafast`, `superfast` |
| Scenarios.VeryslowIdentified | src/lib.rs:308-309 | a flag dump consistent with `veryslow` that sets `bframes=8`, `limit-refs=0` and `rc-lookahead=40` gives `Ok("veryslow")` |
| Scenarios.Identified | src/lib.rs:269-272 | one matching row gives `Ok` with its name |
| Scenarios.TwoMatches | src/lib.rs:273-276 | exactly two matching rows give the ambiguity error naming both, in table order |
| Scenarios.DefaultDeterminerMatchesNothing | src/lib.rs:33-37 | with the empty table of `Determiner::default()`, every input matches nothing and gets an empty closest list |

## Left out

- `src/main.rs` is not part of this model. It reads argv or stdin and prints a help text.
- `print_preset_from_str` writes to stdout or stderr and calls `exit(1)`. It is not modelled.
- The `clap` parsing of `Cli`, `ColorMode` and `atty` terminal detection are not modelled. The verbosity is a `nat` parameter. Colour is off throughout.
- The `colored` styling (bold input values, green matching cells) is not modelled. Padding is computed before styling, so the plain table is the one modelled.
- The error strings with their `{:?}` Debug formatting are not reproduced. The error is a `Matcher.Failure` value: the ranking, the partial-match case, or the list of names.
- `Matcher.DeterminePreset`: in the verbose no-match case the error carries the observed settings, not the rendered text. That text is `DiffTable.PartiallyMatchingPresets` of those settings. Over an empty preset table at `verbose >= 1`, the source panics at `expect("There must be a preset")` (src/lib.rs:141). The model returns `NoMatchPartial(settings)` there, and `DiffTable.Renderable` is false for that table, so no table text is defined.
- `HashMap` iteration orders are parameters. These are the first preset's key order, the column order and the row order (`schemaOrder`, `columns` and `rows`). `DiffTable.Enumerates` states that each lists its map's keys exactly once. Properties hold for every such order.
- `Closest.SortByCountInPlace`: `sort_by_key` is modelled as a stable insertion sort. `Closest.SortByCountSpec` proves that its output is ascending, a permutation, and stable per count. Any stable ascending sort gives that same list.
- The renderer's panics are preconditions, not modelled behaviour. They are the `expect` on an empty preset table (src/lib.rs:141), the `expect` on an empty parameter set (src/lib.rs:138), the `expect` on an empty shown preset (src/lib.rs:174), and an unsigned underflow in the padding.
- `DiffTable.ShownPresets` does not say which preset supplies a column when two presets share a name. The table's names are distinct.
- `Catalog.Presets` writes the ten preset maps out as map displays. It does not run `parse_string` over the literal strings. Their keys and values are those of the strings at src/lib.rs:47-84.
- `Scenarios.VeryslowIdentified` does not tokenize the flag dump at `src/lib.rs:308`. It states the outcome for any settings consistent with `veryslow` that set the three flags that rule out `slower`, `placebo` and the presets below `slower`. The normalised dump is such a map.
- `verbose` is a `u8` in the source. It is modelled as an unbounded `nat`, because it is only ever compared with `> 0` and `< 2`.

## Findings

| source | as written | input that shows it | evidently intended | confidence | as-written member | corrected member |
|---|---|---|---|---|---|---|
| src/lib.rs:309-315 | the test builds `Determiner::default()`, and `#[derive(Default)]` on `Determiner` leaves `presets` empty | `ctu=32 min-cu-size=8` (and every other test input) gives the no-match error with an empty closest list instead of `Ok("superfast")` | `Determiner::new(Cli::default())`, the ten-preset table | high, not executed | Scenarios.DefaultDeterminerMatchesNothing | Scenarios.SuperfastIdentified |
