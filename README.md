# Benchmark-log scanner of the fzf-for-js performance article

The article's charts and tables are built from plain-text benchmark logs.
`assetfactory/images/2021/08/27/base.py` (and its earlier copy
`assetfactory/images/2021/08/16/base.py`) reads those logs into `RunData`
records, cross-checks the search-result hashes of runs over the same haystack
size, averages a chosen figure per (configuration, haystack size) slot and
renders the averages as a markdown table. This project models that core in
Dafny and proves what it promises.

- `wrappers.dfy` — `Option` and `Result`.
- `pystr.dfy` (`PyStr`) — the Python string operations the scanner relies
  on: `startswith`, `split()` on whitespace, `split(" ", 4)[-1]`, `int()`,
  `float()`, `capitalize()`, `"|".join`, `split("\n")`.
- `records.dfy` (`Records`) — a `RunData` record as a value, the
  search-results dict (an insertion-ordered association list), and the
  outcome of one constructor call (record, `RunDataNoMatchException`,
  `RunDataOutOfLinesException`, or an exception nothing catches).
- `runtypes.dfy` (`RunTypes`) — `TYPE_MAP` of both variants and the decode
  of the raw `fzf-type:` code, with the browser suffix of the 08/27 variant.
- `logspec.dfy` (`LogSpec`) — the scanner as functions over the line stack
  (a reversed file; the last element is what `pop()` returns next):
  `popuntilstartmatch`, every stage of `__init__`, the per-file driver loop
  and the loop over all files. The two variants are one parser with a
  `Variant` parameter: they differ only in `TYPE_MAP` and in the browser
  handling (08/16 never sets `browser`, so it always needs the memory line).
- `scanner.dfy` (`Scanner`) — the same scanner in its imperative form: a
  `LineStack` class popped and pushed like the Python list, a `RunData`
  class whose fields are set one after another, the driver loops. Each
  method is proved to end in exactly the state the `LogSpec` function for
  that step describes.
- `crosscheck.dfy` (`CrossCheck`) — the `hashes` loop of `loadRunData`, with
  the printed mismatches returned as a list of warnings.
- `aggregate.dfy` (`Aggregate`) — the grouping and averaging part of
  `do_create_table_and_plot`. NaN is `None`; numbers are exact reals.
- `report.dfy` (`Report`) — `LOG2_MAP` and `markdown_table`, with the
  numeric rendering of a present cell as a parameter.
- `logtext.dfy` (`LogText`) — the lines a benchmark run writes (banner,
  `fzf-type:`, `lines.txt loaded:`, `Fzf initialized`, one block per
  search, the resident-set size), and the round trip: scanning the lines of
  runs the benchmark can write gives back those runs' records, field for
  field, per run, per file and over all files. The words between the fields
  the scanner reads are chosen here; the scanner looks only at the prefixes
  and at the fields it splits out.

A truncated run does not always end as an aborted record: after a search
block the code reads `lines[-1]` (27/base.py:218 and :224) without a guard, so
a file that ends right after a timing line (or after an optional hash line)
raises an `IndexError` that nothing catches. `LogSpec.HashLine` and
`LogSpec.GoTimeLine` return that error, and `LogSpec.ParseRun` reports it as
`Fatal(IndexError)`.

## Model

| member | source | states |
|---|---|---|
| `PyStr.Split` | assetfactory/images/2021/08/27/base.py:195 | `str.split()`: every field is non-empty and holds no whitespace |
| `PyStr.SplitSpaces` | assetfactory/images/2021/08/27/base.py:195 | leading whitespace produces no field |
| `PyStr.SplitConsRun` | assetfactory/images/2021/08/27/base.py:195 | a whitespace-free run followed by any whitespace run is the first field, and the rest are the fields of what follows: with `SplitSpaces` and `SplitToken`, the fields are the maximal whitespace-free runs, in order |
| `PyStr.SplitToken` | assetfactory/images/2021/08/27/base.py:195 | a whitespace-free string is its own single field |
| `PyStr.SplitSnocToken` | assetfactory/images/2021/08/27/base.py:213 | a field after a space is the last field, so `split()[-1]` and `split()[-2]` reach the trailing fields |
| `PyStr.SplitOnJoin` | assetfactory/images/2021/08/27/base.py:291-305 | splitting at a one-character separator undoes joining with it when no part contains it |
| `PyStr.LastPieceCuts` | assetfactory/images/2021/08/27/base.py:217 | `line.split(" ", 4)[-1]` is the suffix after the 4th space (after the last one when there are fewer): the text before it holds exactly min(4, count) spaces and ends with one |
| `PyStr.LastPieceCons` | assetfactory/images/2021/08/27/base.py:217 | cutting at the first separator and then k more is cutting k after it |
| `PyStr.ParseIntOfIntToStr` | assetfactory/images/2021/08/27/base.py:206-207 | `int()` reads back every integer written in decimal |
| `PyStr.ParseFloatOfIntToStr` | assetfactory/images/2021/08/27/base.py:235 | `float()` reads back every integer written in decimal, as that number |
| `RunTypes.DecodeType` | assetfactory/images/2021/08/27/base.py:195-203 | a code ending in `-edge/-safari/-firefox/-chrome` gives `TYPE_MAP[base] + " - " + Browser` with browser True, KeyError(base) if the base is unknown; any other code gives `TYPE_MAP[code]` with browser False (08/16: never set), KeyError otherwise |
| `RunTypes.DecodeRawCode` | assetfactory/images/2021/08/16/base.py:57 | the raw code of every configuration of either table decodes to that configuration's label, and to the browser flag the variant sets |
| `RunTypes.NoCodeEndsWithBrowser` | assetfactory/images/2021/08/27/base.py:127-136 | no `TYPE_MAP` code ends in a browser suffix, so plain codes never take the browser branch |
| `RunTypes.BrowserSuffixUnique` | assetfactory/images/2021/08/27/base.py:196-197 | a raw code ends in at most one of the four browser suffixes |
| `Records.Insert` | assetfactory/images/2021/08/27/base.py:230 | dict assignment: the key then maps to the entry, other keys are unchanged, an existing key keeps its position, a new key is appended, distinct keys stay distinct |
| `LogSpec.PopUntilStartMatch` | assetfactory/images/2021/08/27/base.py:174-184 | returns the first line starting with the prefix and every line popped before it starts neither with the prefix nor with the banner; otherwise the stack ran empty, or the banner met first is pushed back and is on top |
| `LogSpec.PopUntilKeepsBanners` | assetfactory/images/2021/08/16/base.py:36-46 | an anchor search never consumes a banner line |
| `LogSpec.SkipToBanner` | assetfactory/images/2021/08/27/base.py:189-193 | pops up to and including the first banner; OutOfLines exactly when the stack holds no banner |
| `LogSpec.SkipToBannerCount` | assetfactory/images/2021/08/27/base.py:189-193 | skipping to a banner removes exactly one banner, and fails exactly when none is left |
| `LogSpec.ReverseIndex` | assetfactory/images/2021/08/27/base.py:259 | `reversed(...)`: the i-th element of the stack is the file's line counted from the end, so `pop()` reads the file from its first line |
| `LogSpec.CountBannersReverse` | assetfactory/images/2021/08/27/base.py:259 | reversing the file keeps its number of banners |
| `LogSpec.TimingLine` | assetfactory/images/2021/08/27/base.py:214-217 | the timing line is popped unconditionally; an empty stack is an IndexError and a line not starting with `--- ../<nrlines>.txt ` an AssertionError; the time is the integer third field and the term is the text after the 4th space |
| `LogSpec.HashLine` | assetfactory/images/2021/08/27/base.py:218-223 | the hash is taken (and its line popped) only when the next line starts with `hash: `, and is the first five characters of that line's second field; an empty stack is an IndexError |
| `LogSpec.GoTimeLine` | assetfactory/images/2021/08/27/base.py:224-228 | the secondary time is taken (and its line popped) only when the next line starts with `+++ filename `, and is the integer third field of that line; an empty stack is an IndexError |
| `LogSpec.ReadBlock` | assetfactory/images/2021/08/27/base.py:213-228 | after the search line, a block is read exactly when the next-to-last field of the search line is an integer and the timing and optional lines are read without error; it then holds that integer as the result count, the time and term of the timing line, the hash and the secondary time of the optional lines, and the stack below them |
| `LogSpec.SearchBlock` | assetfactory/images/2021/08/27/base.py:212-228 | a complete search block pops at least one line and no banner, and its entry holds what the found search line, the timing line and the optional lines say; a NoMatch leaves the stack empty or on a banner |
| `LogSpec.SearchLoop` | assetfactory/images/2021/08/16/base.py:65-84 | the loop ends normally only once `hello world` is a key, and then it is the last key inserted; it never pops a banner and keeps the keys distinct |
| `LogSpec.TypeStep` | assetfactory/images/2021/08/27/base.py:194-203 | goes on exactly when a `fzf-type: ` line is found and its code decodes, with a fresh record holding the decoded label and browser flag (never set by 08/16) and the stack below that line; otherwise an abort or the decode's exception; no banner popped |
| `LogSpec.LoadStep` | assetfactory/images/2021/08/27/base.py:204-207 | goes on exactly when a `lines.txt loaded:` line with six fields, the third and sixth numeric, is found; sets only the size and load time to those fields |
| `LogSpec.InitStep` | assetfactory/images/2021/08/27/base.py:209-210 | goes on exactly when a `Fzf initialized ` line ending in a number is found; sets only the init time, which is that number minus the load time |
| `LogSpec.ParseAfterBanner` | assetfactory/images/2021/08/27/base.py:194-203 | after the banner every ending is a complete record, an aborted one on an empty stack or a banner, or a fatal error; no banner is popped; 08/16 never sets `browser` |
| `LogSpec.ParseLoad` | assetfactory/images/2021/08/27/base.py:204-235 | from the load line on, the constructor ends as a complete record, an aborted one on an empty stack or a banner, or a fatal error, and pops no banner; `browser` is kept |
| `LogSpec.ParseInit` | assetfactory/images/2021/08/27/base.py:209-235 | from the init line on, the same endings and no banner popped; `browser` is kept |
| `LogSpec.ParseSearches` | assetfactory/images/2021/08/27/base.py:211-230 | the search loop's endings satisfy the same promise; `browser` is kept |
| `LogSpec.ParseMemory` | assetfactory/images/2021/08/27/base.py:231-235 | a browser run is done with no memory figure; any other run completes exactly when a resident-set-size line is found whose last field is a number, and then records that number of kbytes divided by 1024 and leaves the stack below the line |
| `LogSpec.ParseRun` | assetfactory/images/2021/08/27/base.py:186-235 | OutOfLines exactly when no banner is left (stack then empty); a complete or aborted record consumes exactly one banner; a complete record has every field, `hello world` as its last key, distinct keys, and memory exactly when not a browser run; an aborted one leaves the stack empty or on the next banner; with the 08/16 variant every complete record has its memory figure |
| `LogSpec.LoadLines` | assetfactory/images/2021/08/27/base.py:260-267 | unless an exception escapes, one record per banner on the stack |
| `LogSpec.LoadLinesSettled` | assetfactory/images/2021/08/27/base.py:260-267 | every record the per-file loop collects is aborted or complete |
| `LogSpec.LoadFileCount` | assetfactory/images/2021/08/16/base.py:108-117 | a file yields one record per banner line in it |
| `LogSpec.LoadFilesStops` | assetfactory/images/2021/08/27/base.py:251-267 | once a file raises, the later files change nothing |
| `LogText.TypeFieldOfText` | assetfactory/images/2021/08/27/base.py:194-203 | a `fzf-type: ` line carrying a configuration's raw code decodes to that configuration's label and browser flag |
| `LogText.LoadFieldsOfText` | assetfactory/images/2021/08/27/base.py:204-207 | a `lines.txt loaded:` line gives back the haystack size and load time written into it |
| `LogText.InitFieldOfText` | assetfactory/images/2021/08/27/base.py:209-210 | a `Fzf initialized ` line gives back the time written into it |
| `LogText.MemoryFieldOfText` | assetfactory/images/2021/08/27/base.py:234-235 | a resident-set-size line gives back the kbytes written into it |
| `LogText.TimingLineOfText` | assetfactory/images/2021/08/27/base.py:214-217 | a timing line on top gives back its time and its term, whatever the term holds, and pops only itself |
| `LogText.OptionalLinesOfText` | assetfactory/images/2021/08/27/base.py:218-228 | the optional hash and `+++` lines give back the hash and the secondary time, or None for each line that is absent |
| `LogText.SearchFieldsOfText` | assetfactory/images/2021/08/27/base.py:212-213 | the next-to-last field of a search line is its result count |
| `LogText.SearchBlockOfText` | assetfactory/images/2021/08/27/base.py:212-230 | the lines of one search on top of the stack read back as its term and entry |
| `LogText.SearchLoopOfText` | assetfactory/images/2021/08/27/base.py:211-230 | the search loop reads back every search of a run, in order, and stops right after `hello world` |
| `LogText.ParseMemoryOfText` | assetfactory/images/2021/08/27/base.py:231-235 | the memory stage gives a browser run no figure and any other run its kbytes divided by 1024 |
| `LogText.ParseHeaderOfText` | assetfactory/images/2021/08/27/base.py:186-210 | the banner, type, load and init lines give back the label, browser flag, size, load time and init time |
| `LogText.ParseRunOfText` | assetfactory/images/2021/08/27/base.py:186-235 | the lines a run writes parse back to that run's record, field for field, leaving the next run's banner or nothing |
| `LogText.LoadLinesOfText` | assetfactory/images/2021/08/27/base.py:260-267 | the per-file loop reads back the records of all runs on the stack, in order |
| `LogText.LoadFileOfText` | assetfactory/images/2021/08/27/base.py:258-267 | a file of runs the benchmark wrote loads as those runs' records, in order |
| `LogText.LoadFilesOfText` | assetfactory/images/2021/08/27/base.py:251-267 | all files load as their records, file after file |
| `Scanner.LineStack.Pop` | assetfactory/images/2021/08/27/base.py:214 | `lines.pop()`: the last element, or the IndexError of an empty list |
| `Scanner.RunData.PopUntilStartMatch` | assetfactory/images/2021/08/16/base.py:38-45 | the imperative loop ends with the line, stack and `aborted` flag that `LogSpec.PopUntilStartMatch` gives |
| `Scanner.RunData.Parse` | assetfactory/images/2021/08/16/base.py:48-86 | the constructor leaves the fields, the stack and the outcome that `LogSpec.ParseRun` gives |
| `Scanner.RunData.SearchUntilHelloWorld` | assetfactory/images/2021/08/27/base.py:211-230 | the `while "hello world" not in ...` loop ends with the table and stack `LogSpec.SearchLoop` gives, `aborted` set on NoMatch |
| `Scanner.RunData.NextSearch` | assetfactory/images/2021/08/16/base.py:66-83 | one pass of the search loop body agrees with `LogSpec.SearchBlock` |
| `Scanner.RunData.Searches` | assetfactory/images/2021/08/16/base.py:65-84 | the imperative search loop agrees with `LogSpec.ParseSearches` |
| `Scanner.RunData.Memory` | assetfactory/images/2021/08/27/base.py:231-235 | the memory stage leaves the fields, stack and outcome `LogSpec.ParseMemory` gives |
| `Scanner.LoadFile` | assetfactory/images/2021/08/27/base.py:258-267 | the per-file `while True` loop returns what `LogSpec.LoadFile` gives |
| `Scanner.LoadRunData` | assetfactory/images/2021/08/27/base.py:249-282 | all files in order, then the cross-check, whose warnings are those of `CrossCheck.Check` |
| `CrossCheck.FirstOf` | assetfactory/images/2021/08/27/base.py:274-279 | the first complete record of a size |
| `CrossCheck.CheckFirstWins` | assetfactory/images/2021/08/27/base.py:268-279 | a size is stored exactly when a complete record of that size exists, and it holds the fingerprint and label of the first such record |
| `CrossCheck.StepWarnings` | assetfactory/images/2021/08/27/base.py:274-277 | one pass of the loop body adds a warning exactly when the record's fingerprint differs from the first complete record of its size |
| `CrossCheck.CheckWarnings` | assetfactory/images/2021/08/16/base.py:118-128 | one warning per complete record whose fingerprint differs from that of the first record of its size, in record order |
| `CrossCheck.CheckIgnoresAborted` | assetfactory/images/2021/08/27/base.py:270-271 | dropping the aborted records changes nothing |
| `CrossCheck.CrossCheck` | assetfactory/images/2021/08/27/base.py:268-280 | the imperative loop computes `CrossCheck.Check` |
| `Aggregate.Dedup` | assetfactory/images/2021/08/27/base.py:320-321 | dict keys: each value once, exactly the values given, ordered by their first occurrence |
| `Aggregate.Find` | assetfactory/images/2021/08/27/base.py:320-321 | the index of the first occurrence of a value |
| `Aggregate.Present` | assetfactory/images/2021/08/27/base.py:321 | `None` labels create no slot; every other label does |
| `Aggregate.PresentAppend` | assetfactory/images/2021/08/27/base.py:321 | keeping the labels that are not `None` commutes with concatenation |
| `Aggregate.PresentAt` | assetfactory/images/2021/08/27/base.py:321 | the k-th label that is not `None` in `to_show` is the k-th kept label, so the slots keep `to_show`'s order |
| `Aggregate.Aggregated` | assetfactory/images/2021/08/27/base.py:317-339 | the AssertionError exactly when a shown label is the type of no parsed record or the vector of a record the loop collects has the wrong length; otherwise one series per shown label and one cell of the fixed length per size, in order |
| `Aggregate.Mean` | assetfactory/images/2021/08/27/base.py:336-339 | the cell has the fixed length, and an entry is missing exactly when no vector contributed |
| `Aggregate.MeanOfCopies` | assetfactory/images/2021/08/27/base.py:337 | the mean of copies of one vector is that vector |
| `Aggregate.Collect` | assetfactory/images/2021/08/27/base.py:324-331 | each bucket holds the vectors of exactly the complete records of its label and size, in record order; fails exactly when one of them has the wrong length |
| `Aggregate.Average` | assetfactory/images/2021/08/27/base.py:333-339 | each bucket is replaced by its mean, or by a missing vector |
| `Aggregate.AverageRow` | assetfactory/images/2021/08/27/base.py:335-339 | the inner loop: each bucket of one label is replaced by its mean, or by a missing vector |
| `Aggregate.CreateTable` | assetfactory/images/2021/08/27/base.py:317-339 | the two asserts and the two loops compute `Aggregate.Aggregated` |
| `Aggregate.ContributionsEmpty` | assetfactory/images/2021/08/27/base.py:324-330 | a bucket is empty exactly when no complete record has its label and size |
| `Aggregate.MeanBounds` | assetfactory/images/2021/08/27/base.py:336 | the mean of a column lies between any bounds of its entries |
| `Aggregate.CellMissing` | assetfactory/images/2021/08/27/base.py:333-339 | a cell has the fixed length and an entry is missing exactly when no record contributed |
| `Aggregate.CellWithin` | assetfactory/images/2021/08/27/base.py:333-339 | each present value lies between the least and greatest value the contributing records give in that column |
| `Report.Log2` | assetfactory/images/2021/08/27/base.py:161 | `LOG2_MAP[n]` is some `k < 40` with `2**k == n`, and the KeyError exactly when no such `k` exists |
| `Report.Log2Exact` | assetfactory/images/2021/08/27/base.py:161 | `LOG2_MAP[n] == k` exactly when `k < 40` and `n == 2**k` |
| `Report.Total` | assetfactory/images/2021/08/27/base.py:285-290 | the total of a cell is missing exactly when one of its entries is |
| `Report.CellAt` | assetfactory/images/2021/08/27/base.py:299 | `dfk[nr]`: the cell stored for the size, or KeyError when none is |
| `Report.RowCells` | assetfactory/images/2021/08/27/base.py:298-301 | one cell per label in label order, `---` for a missing total; KeyError when a label lacks the size |
| `Report.BodyRows` | assetfactory/images/2021/08/27/base.py:294-303 | one row per size in order, all or nothing |
| `Report.Grid` | assetfactory/images/2021/08/27/base.py:291-305 | header then separator of `len(data)+1` dashes, then one row per size of the first series; IndexError without series |
| `Report.GridRow` | assetfactory/images/2021/08/27/base.py:294-302 | a body row starts with `2<sup>k</sup> = n` where `n == 2**k`, then one cell per label |
| `Report.MarkdownTableCells` | assetfactory/images/2021/08/27/base.py:284-305 | `markdown_table`'s text splits back into its lines and each line into its cells |
| `Report.GridOfAggregate` | assetfactory/images/2021/08/27/base.py:291-305 | on the averaged data there is a series per shown label, each with the requested sizes in order, and the table renders without error |
| `Report.AggregateCell` | assetfactory/images/2021/08/27/base.py:296-302 | the slot a row shows for a size is the averaged cell of that label and size, and its total is missing exactly when no complete record contributed |
| `Report.TableOfAggregate` | assetfactory/images/2021/08/27/base.py:296-302 | on the averaged data the table has a row per size and shows `---` for a slot exactly when no complete record of that label and size was parsed |

## Left out

- Reading the log files (27/base.py:251-258, 16/base.py:102-108) and `splitlines()`: the model takes each file as its list of lines.
- The `print` of a hash mismatch and the `breakpoint()` after it: the mismatches are returned as a list of warnings instead.
- `__repr__`, and the `%.2f` / `%.1f` rendering in `markdown_table`: float formatting is the parameter `fmt` of `Report.MarkdownTable`.
- The colour maths, `COLOUR_MAP`, the bar layout and every matplotlib call of `do_create_table_and_plot` (27/base.py:9-159, :341-370): chart drawing.
- `assetfactory/main.py` and the chart scripts of 07/08, 08/10, 08/16, 08/27 and 08/30: command line, hard-coded tables and plotting.
- Object identity: records are stored as values once their constructor call has ended; nothing mutates a `RunData` after that, so only aliasing is lost.
- `PyStr.ParseInt`: accepts an optional sign and ASCII digits; `int()`'s surrounding whitespace, underscores and non-ASCII digits are not modelled (the scanner only passes it whitespace-free fields).
- `PyStr.ParseFloat`: accepts sign, digits and one decimal point; exponents, `inf`, `nan`, underscores between digits and surrounding whitespace are not modelled (the scanner only passes it whitespace-free fields). Its value is an exact real: `float(x) / 1024` in the source rounds to the nearest binary64 number twice, so `memoryMiB` is the exact quotient, not the double the source stores.
- `Aggregate.Aggregated`: reals are exact, so float rounding in `np.mean` and `np.sum` is not modelled; the getter is a total function, so exceptions it might raise are not modelled.
- `Aggregate.Sizes`: exponents are natural numbers; a negative exponent (an error with a numpy array) and numpy's 64-bit overflow of `2**e` for `e >= 63` are not modelled.
- `Report.CellAt`: the row holds one entry per size, as a dict does; when a row repeats a size the first entry is used.
- `LogText`: the round trip covers runs whose hash is one field of at most five characters; a longer hash is cut to five characters by the scanner and is not read back, and the wording between the fields is one choice among those the scanner accepts.
