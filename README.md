# Chrome OS board-to-device scraper, modelled in Dafny

`scraper.py` reads the device tables of the Chromium OS developer page. It
turns each table row into a (model, board name) pair. It keeps three
board-name → models mappings, one per output file in `FILES`:

- `boardnamedevices`: keyed by the simplified board name. Rows with a blank
  model are skipped.
- `boardnamedevices-1`: the same keys. Blank models are recorded as
  `White Label`.
- `boardnamedevices-2`: keys cut further at the first `_`.

The script folds the mappings of the three page tables together (routers,
then USB-C, then the main table). It then flattens each list of models into
one string joined by `" | "`. For every file whose mapping changed, it saves
the new mapping and puts a dated entry of the `+`/`-` diff lines at the head
of the file's history.

The model has seven modules:

- `Outcome` (outcome.dfy): `Option` and `Result`.
- `Text` (text.dfy): the parts of Python's `str` the script uses. These are
  ASCII `lower()`, `strip()`, `split(c)[0]`, `startswith`, and `join`, plus
  a `Split` that undoes `join`.
- `Names` (names.dfy): `simplify_board_name` and `simplify_underscores`,
  with the anchored pattern `^(x86-|_he)`.
- `Tables` (tables.dfy):
  - `parse_header`;
  - the `'\xa0'` replacement of `sanitize`;
  - `iterate_table`, as a method. Its loops append into the three mappings
    in place, in `FILES` order. It is proved equal to the specification
    function `Reduce`.
- `TableFacts` (table_facts.dfy): what the mappings hold, by key, list,
  order, count and row.
- `Merge` (merge.dfy):
  - `combine_dicts`;
  - the fold of the three tables, as the method `Gather`;
  - `flatten_models`.
- `Versioning` (versioning.dfy):
  - the `+`/`-` filter;
  - the history entry;
  - the compare-and-write loop, as the method `Store.Publish`;
  - the top of `get_as_json` after the page is fetched, as the method
    `GetAsJson`.

Modelling choices:

- **Outer mappings.** `JSONS` is a dict whose keys are always exactly
  `FILES`, inserted in order. It is modelled as a sequence of three
  mappings, where element `i` belongs to `FILES[i]`. The inner loop of
  `iterate_table` visits the files by position, in that order, so the
  reassignment of `model` and `board_name` inside it happens as in the
  source.
- **Rows.** A table is a sequence of rows, and a row is a sequence of cell
  texts, as `get_text(strip=True)` returns them.
  - An empty header argument means "take the first row" (`if not header`).
  - An empty table with no header is the error `NoHeaderRow`; the source
    fails on `table.tr` being `None` there.
  - A missing label is `MissingColumn(label)`; the source raises
    `ValueError` from `list.index`.
- **Derived keys.** `Cells` records, for each data row:
  - the sanitised model;
  - `simplify_board_name` of the sanitised board name;
  - `simplify_underscores` of that.

  The specification functions of `Tables` work on `Cells`, and the methods
  compute the keys with `Names`.

Where the docstrings and the code disagree, the model follows the code:

- scraper.py:76-78 lists `_he` among what `simplify_board_name` removes,
  with `x86-alex_he` as the example. The pattern at scraper.py:56 is
  anchored and has one alternation, so only one leading marker goes, and
  `x86-alex_he` becomes `alex_he` (`Names.ExampleAlexHe`). Only
  `simplify_underscores` reaches `alex` (`Names.ExampleUnderscores`).
- scraper.py:177-180 presents `combine_dicts` as the alternative to a
  `dict.update` that overwrites on collision. For a board name present in
  both inputs, `{**a, **b}` still keeps only the second list
  (`Merge.OverlayMeaning`).
- scraper.py:196-197 says models are delimited by `/`. The code joins them
  with `" | "` (scraper.py:209, `Merge.SEP`).

## Model

| member | source | states |
|---|---|---|
| Text.Lower | scraper.py:94 | `lower()` on ASCII: the result has the same length and no upper-case letter; each upper-case letter becomes the lower-case letter at the same place in the alphabet, and every other character stays in place |
| Text.StripKeeps | scraper.py:91 | `strip()` brings in no character and keeps lower-case text lower-case |
| Text.Strip | scraper.py:91 | `strip()` is no longer than its input and leaves no whitespace at either end |
| Text.StripMeaning | scraper.py:91 | what `strip()` keeps is one slice of the input, and all it cuts off on either side is whitespace |
| Text.StripBeforeFirst | scraper.py:91 | `s.split(c)[0].strip()`, with `c` first at position `i`, is a slice of `s[..i]` with only whitespace around it and none at either of its own ends |
| Text.BeforeFirst | scraper.py:91 | `split(c)[0]` is the longest prefix without `c`; when shorter than the text, `c` follows it |
| Text.SplitJoin | scraper.py:209 | splitting `sep.join(xs)` at `sep` gives `xs` back when some character of `sep` (its first such) occurs in no piece |
| Text.Join | scraper.py:209 | `sep.join(xs)`: a one-element list joins to its element; `Text.SplitJoin` shows the join loses nothing |
| Names.RemoveMarkerMeaning | scraper.py:56 | the anchored pattern removes exactly one leading `x86-`, else one leading `_he`, else nothing |
| Names.RemoveMarker | scraper.py:94 | `TO_REMOVE.sub('', s)`, characterised by `Names.RemoveMarkerMeaning` |
| Names.LowerWithoutMarker | scraper.py:94 | the last step of both normalisers yields lower-case text and brings in no `&` or `_` |
| Names.FirstAlternative | scraper.py:88-91 | with `&` present, the kept alternative is free of `&`; without it, the name is unchanged (the exact cut is `Names.FirstAlternativeMeaning`) |
| Names.FirstAlternativeMeaning | scraper.py:88-91 | with `&` first at position `i`, the kept alternative is the text before `i` with the whitespace around it cut off, and has no whitespace at either end |
| Names.SimplifyBoardName | scraper.py:75-94 | the result is lower-case and never contains `&` |
| Names.SimplifyBoardNameShape | scraper.py:88-94 | with `h` the lower-cased first alternative: when `h` starts with `x86-`, the result is `h` without it; otherwise, when `h` starts with `_he`, `h` without that; otherwise `h` itself |
| Names.UnderscoreHead | scraper.py:111-114 | the cut at the first `_` yields lower-case text with no `_` or `&`, and leaves a name without `_` unchanged (the exact cut is `Names.UnderscoreHeadMeaning`) |
| Names.UnderscoreHeadMeaning | scraper.py:111-114 | with `_` first at position `i`, the cut is the text before `i` with the whitespace around it cut off, and has no whitespace at either end |
| Names.CutAtFirstUnderscore | scraper.py:111-114 | when no whitespace precedes the first `_`, the cut is exactly the text before it |
| Names.SimplifyUnderscores | scraper.py:97-117 | the result is lower-case and never contains `_` or `&` |
| Names.SimplifyUnderscoresShape | scraper.py:110-117 | with `h` the underscore cut of `simplify_board_name`: when `h` starts with `x86-`, the result is `h` without it; otherwise `h` itself (a leading `_he` cannot survive the cut) |
| Names.ExampleAlexHe | scraper.py:76-78 | `x86-alex_he` becomes `alex_he`, not `alex` as the docstring suggests |
| Names.ExampleDoubleMarker | scraper.py:56 | `x86-x86-mario` becomes `x86-mario`: only one marker goes |
| Names.ExampleAlternatives | scraper.py:79 | `falco & falco_II` becomes `falco` |
| Names.ExampleUnderscores | scraper.py:110-117 | `simplify_underscores("x86-alex_he")` is `alex` |
| Tables.FilesDistinct | scraper.py:47-51 | the three file names differ, so each test against `FILES[0]` or `FILES[2]` singles out one file |
| Tables.IndexOf | scraper.py:133 | `list.index` fails exactly when the label is absent, and otherwise gives its first position |
| Tables.ParseHeader | scraper.py:120-135 | succeeds exactly when both labels are present, with the first index of each (both within the header); otherwise fails naming `Model` if it is missing, else `Board name(s)` |
| Tables.Sanitize | scraper.py:72 | the length is kept, every no-break space becomes a space, none remains, and every other character is in place |
| Tables.HeaderOf | scraper.py:150-152 | the header parsed is the one passed in, else the first row; `Tables.Reduce` states when parsing fails |
| Tables.DataOf | scraper.py:154 | the data rows are all rows but the first; `TableFacts.FirstRowSkipped` shows the first never contributes |
| Tables.RowCells | scraper.py:156-158 | a data row gives its sanitised model and two normalised keys: both lower-case and free of `&`, the second also free of `_` |
| Tables.Recorded | scraper.py:162-166 | the model a row adds to each file; `TableFacts.BlankModelRule` and `TableFacts.NoBlankModel` state the blank-model rule |
| Tables.SelectMeaning | scraper.py:171 | the models appended under a key are all appended entries with that key, and there are none exactly when no entry has that key |
| Tables.GroupByMeaning | scraper.py:171 | the `defaultdict(list)` built by the appends holds a key exactly when something was appended under it, with those models in append order |
| Tables.Append | scraper.py:171 | `current[k].append(v)` on a `defaultdict(list)`; `Tables.GroupByMeaning` characterises a run of them |
| Tables.TabulateSnoc | scraper.py:154-171 | one more data row changes the three mappings by exactly that row's appends |
| Tables.Tabulate | scraper.py:154-171 | the three mappings built from the data rows, characterised by `TableFacts.TabulateLists` |
| Tables.AddRow | scraper.py:160-171 | the inner loop over `FILES`, rewriting `model` and `board_name` as it goes, makes exactly the appends of one row |
| Tables.IterateTable | scraper.py:138-173 | `iterate_table` returns `Reduce(table, header)`: the header error, or the three mappings of all rows after the first |
| Tables.Reduce | scraper.py:150-173 | `iterate_table` fails exactly when the header it parses (the one passed in, else the first row) lacks `Model` or `Board name(s)`, or there is no header and no first row; its mappings are characterised by the `TableFacts` lemmas |
| TableFacts.TabulateLists | scraper.py:168-171 | a key is in a file's mapping exactly when some row appends under it there, and its list is one model per such row, in row order, duplicates kept |
| TableFacts.BlankModelRule | scraper.py:160-171 | a row with a model has it under its key in all three files; a row with a blank model has `White Label` under its keys in the last two |
| TableFacts.NoBlankModel | scraper.py:162-166 | no list of any file holds a blank model |
| TableFacts.NoEmptyList | scraper.py:171 | every key's list holds at least one model |
| TableFacts.AppendsCount | scraper.py:160-171 | the first file gets one append per row with a model, the other two one per row |
| TableFacts.TabulateGrows | scraper.py:171 | reading more rows keeps every key, and each list is a prefix of its later self: append only, no sorting or deduplication |
| TableFacts.ReduceKeys | scraper.py:158-169 | every key is lower-case and free of `&`, and the keys of `boardnamedevices-2` are also free of `_` |
| TableFacts.FirstRowSkipped | scraper.py:151-154 | with a header passed in, the first row still contributes nothing: replacing it leaves the result unchanged |
| Merge.Overlay | scraper.py:190 | `{**a, **b}` has exactly the keys of both (the lists are stated by `Merge.OverlayMeaning`) |
| Merge.OverlayMeaning | scraper.py:190 | `{**a, **b}` has the keys of both; `b`'s whole list wins on a collision; a key only in `a` keeps its list |
| Merge.OverlayAssociative | scraper.py:190 | overlays regroup freely; `Merge.MergedConcat` uses this to read the fold of several tables as one overlay |
| Merge.OverlayIdentity | scraper.py:190 | the empty mapping is neutral on both sides, and overlaying a mapping on itself changes nothing |
| Merge.CombineDicts | scraper.py:190 | `combine_dicts` keeps every file, and each file has the keys of both inputs; per key, `Merge.OverlayMeaning` applies |
| Merge.Merged | scraper.py:241-244 | every key of every table stays in the fold; `Merge.MergedKeys` and `Merge.MergedLast` give the converse and the lists |
| Merge.MergedConcat | scraper.py:241-244 | folding two runs of tables one after the other is the fold of the second run overlaid on the fold of the first |
| Merge.MergedKeys | scraper.py:241-244 | the folded mapping of a file holds a key exactly when some table's mapping does |
| Merge.MergedLast | scraper.py:241-244 | a key's folded list is that of the last table holding it |
| Merge.MainHasFinalSay | scraper.py:241-244 | after routers, USB-C and main, a main-table key has the main table's list, a USB-C key absent from main has USB-C's, and the keys are the union |
| Merge.FoldOkStops | scraper.py:241-244 | once a table raises, the rest of the fold has no effect |
| Merge.FoldOkStep | scraper.py:241-244 | one more table either combines its mapping into the fold or ends it with its error |
| Merge.FoldOk | scraper.py:241-244 | a fold over results that succeeds had no failing result |
| Merge.Folded | scraper.py:241-244 | the fold of the tables succeeds only when every table does; `Merge.FoldedMeaning` gives its value |
| Merge.FoldedMeaning | scraper.py:241-244 | the fold succeeds only when every table does, and then equals the merged mappings |
| Merge.Gather | scraper.py:241-244 | the loop over routers and USB-C followed by the main table returns the fold of the three tables' results |
| Merge.FlattenJson | scraper.py:207-215 | flattening keeps every board name of every file |
| Merge.FlattenModels | scraper.py:193-215 | `flatten_models` keeps the three files and every board name of each |
| Merge.FlattenSingle | scraper.py:209 | a board with one model maps to that model unchanged |
| Merge.FlattenRoundTrip | scraper.py:209 | splitting a flattened value at the separator gives the list back in order, when no model contains a vertical bar |
| Versioning.Changes | scraper.py:260-270 | the kept diff lines all start with `+` or `-` and come from the diff |
| Versioning.IsChange | scraper.py:268 | a diff line is kept when it starts with `+` or `-`; `Versioning.ChangesComplete` shows none of those is dropped |
| Versioning.ChangesComplete | scraper.py:260-270 | no `+` or `-` line of the diff is dropped |
| Versioning.ChangesConcat | scraper.py:260-270 | filtering commutes with concatenation, so the kept lines stay in diff order |
| Versioning.ChangesOfChanges | scraper.py:260-270 | a diff made only of change lines is kept whole |
| Versioning.EntryText | scraper.py:258-274 | the entry opens with the date line and the `===` line, and is just those two lines when the diff holds no change |
| Versioning.NewHistory | scraper.py:271-276 | the new history starts with the new entry and ends with the whole old history |
| Versioning.EntryReadBack | scraper.py:258-274 | splitting the written entry at line breaks gives the date, `===` and the change lines, whatever the `?` hint lines of the diff hold |
| Versioning.JoinCompact | scraper.py:274 | non-empty lines without line breaks, joined by `\n`, contain no blank line |
| Versioning.GapAfter | scraper.py:272-276 | after an entry without blank lines, the first blank line is the separator put in front of the old history |
| Versioning.HistoryReadBack | scraper.py:271-276 | split at blank lines, the new history is the new entry followed by the old history's entries, unchanged, whatever the `?` hint lines of the diff hold |
| Versioning.Revised | scraper.py:252-276 | the old history is always the tail of the new, and it is all of it exactly when the mapping did not change |
| Versioning.Store.Publish | scraper.py:248-277 | afterwards every file holds the new mapping; each history is unchanged when its mapping was equal to the old one, and otherwise gets the new entry dated with that file's own clock reading, a blank line, then the old text |
| Versioning.Store.PublishFile | scraper.py:248-276 | one turn of the loop: the file's mapping is saved and its history revised as `Versioning.Revised` states; the other two files are untouched |
| Versioning.GetAsJson | scraper.py:241-277 | a table error stops the run with nothing written; otherwise the flattened fold is saved and every history is revised as `Publish` states |

## Left out

- Fetching the page and finding the tables in its HTML (scraper.py:225-239) are left out. This is network access and HTML parsing, including the `ValueError` when the two small tables are not found. Tables enter the model as rows of cell texts.
- The `get_text(strip=True)` half of `sanitize` (scraper.py:72) is left out: it is HTML text extraction. Cells enter already extracted and stripped, and the `'\xa0'` replacement is modelled (`Tables.Sanitize`).
- Logger setup and calls (scraper.py:15-40, 92-93, 115-116) are left out, since they do not affect results. The `try`/`except AttributeError` around `split(...)[0].strip()` never fires on a `str`, so only the normal path is modelled.
- config.py is not part of this model: scraper.py never imports it.
- File I/O in `get_as_json` (scraper.py:248-277) is left out. The `.json` and `.diff` files are the fields of `Versioning.Store`, and `json.load` of a written dump is taken to give the same mapping back. Missing files (`FileNotFoundError`) are not modelled.
- `difflib.ndiff`, `json.dumps` and `pendulum.today()` (scraper.py:257-267) are library calls. The diff of the two dumps is the function parameter `ndiff`. The clock is read once for each changed file, inside the write loop, so the entries of one run may carry different dates; the readings are the parameter `dates`, one per file in `FILES` order (a reading is unused when its file did not change).
- The key order of the `.json` dumps is not modelled. `json.dumps` (scraper.py:257, 265) writes keys in insertion order, which follows the row order and the order in which `{**a, **b}` (scraper.py:190) and `flatten_models` (scraper.py:209-212) build the dicts. The model's mappings are unordered, so `ndiff` receives the two mappings rather than their dumps: the diff lines (and so the history entries) cannot depend on key order, whereas the source's can.
- `str.lower()` is modelled on ASCII letters only. Other characters pass through unchanged.
- Tables.IterateTable: requires every data row to have both the `Model` and the `Board name(s)` column (`Tables.Readable`); the source raises `IndexError` on a shorter row.
- Merge.CombineDicts: the source raises `KeyError` when `dict_b` lacks a file of `dict_a`. Both inputs always have all three files, which the length-3 sequence type makes structural.
- Merge.FlattenRoundTrip: holds only for lists that are non-empty and whose models contain no `|`. Lists from `iterate_table` are never empty (`TableFacts.NoEmptyList`), and model names with `|` would be ambiguous in the flat text.
- Versioning.HistoryReadBack: assumes a non-empty date without line breaks, as `strftime('%Y-%m-%d')` gives, and kept `+`/`-` diff lines without line breaks. `ndiff` of the two `splitlines()` results gives such `+`/`-` lines. Its `?` hint lines end in a line break, but they are filtered out and so are not constrained.
- Versioning.EntryReadBack: assumes the same of the date and of the kept `+`/`-` lines.
