# Web path scanner: result classification, modelled in Dafny

The scanner takes a base URL and a wordlist of paths. It requests every
path. It keeps the answers whose status code and body length pass four
optional filters: match codes, match sizes, filter codes and filter sizes.
It shows them as they arrive and can save them to a text report. This
project models that pipeline, from the wordlist and the filter fields to the
list of results and the report lines, and proves what each step promises.

The modules follow the repository's files:

| module | file | what it holds |
|---|---|---|
| `Filters` | filters.py | `parse_range_list` (a loop), `build_filter_config`, `should_show` |
| `Wordlist` | dictionary.py | `load_wordlist` (a loop over the file's lines) |
| `Report` | output.py | `save_report` (a loop writing the report lines) |
| `Scanner` | gui.py | the base URL, the URL of each path, `scan_sync` (a loop) |
| `ScanState` | gui.py | the window's state as a value: `start_scan`, one worker turn, one queue take |
| `Gui` | gui.py | `WebPathScanApp` as a class whose methods update its fields |
| `Config` | config.py | the constants |
| `Text` | — | the Python string operations used: `strip`, `split`, `int`, `str`, `replace`, `lower` |
| `Probe`, `Wrappers` | — | the probe result record; `Option` and `Result` |

The HTTP client is a function `Prober` from a URL to an optional result,
supplied by the caller. The wordlist file is its sequence of lines, or
`None` when the file does not exist.

## Model

| member | source | states |
|---|---|---|
| `Filters.Interval` | filters.py:45-46 | `range(start, end + 1)` as a set: `v` is in it exactly when `lo <= v <= hi` |
| `Filters.SpanOf` | filters.py:43-44 | the bounds are put in order: a span `lo <= hi` whose bounds are the two given numbers |
| `Filters.ParseRangeList` | filters.py:23-53 | the loop's result is the union of what each comma-separated piece denotes; `None` or `""` gives the empty set |
| `Filters.AddPiece` | filters.py:32-51 | one loop turn adds exactly what the stripped piece denotes: nothing for a blank or malformed piece |
| `Filters.AddRange` | filters.py:45-46 | the inner loop adds exactly the inclusive interval to the set built so far |
| `Filters.UnionOfMembers` | filters.py:31-51 | a value is in the union exactly when some token yields it |
| `Filters.RangeListSetMembers` | filters.py:31-53 | a value is in the parsed set exactly when some piece of the split spec yields it |
| `Filters.RangeListSetConcat` | filters.py:31 | parsing `a,b` gives the parse of `a` together with the parse of `b` |
| `Filters.SkippedTokenDropped` | filters.py:33-34 | a blank or malformed piece between two others can be deleted without changing the result, so `"200,,301"` parses as `"200,301"` |
| `Filters.SkippedPieceFirst` | filters.py:33-34 | the same for a skipped piece at the front of the spec |
| `Filters.SingleTokenSpec` | filters.py:31-51 | a spec without a comma is exactly what its one piece denotes |
| `Filters.TokenIgnoresSurroundingSpace` | filters.py:32 | whitespace around a piece does not change what it denotes |
| `Filters.NumberToken` | filters.py:47-49 | a numeral piece of at most 4300 digits adds exactly its number |
| `Filters.SpanToken` | filters.py:36-46 | a piece `a-b` whose numerals have at most 4300 digits each denotes the interval between `a` and `b` in either order, so `10-5` gives 5..10 |
| `Filters.SpanSpec` | filters.py:36-46 | the spec `a-b` parses to `Interval(a, b)` when `a <= b` and both numerals have at most 4300 digits |
| `Filters.MalformedRange` | filters.py:36-42 | a piece with a `-` whose start or end (cut at the first `-`) is not an integer is skipped |
| `Filters.MalformedSingle` | filters.py:47-51 | a piece without `-` that is not an integer is skipped |
| `Filters.LongNumeralSkipped` | filters.py:47-51 | a numeral of more than 4300 digits makes `int()` raise, so the piece is skipped and a spec of it parses to the empty set |
| `Filters.LongRangeSkipped` | filters.py:36-42 | a range piece with a start or end of more than 4300 digits is skipped |
| `Filters.MalformedWord` | filters.py:47-51 | `abc` is skipped |
| `Filters.MalformedNoEnd` | filters.py:37-42 | `3-` is skipped: its end is empty |
| `Filters.MalformedTwoDashes` | filters.py:37-42 | `1-2-3` is skipped: cut at the first `-`, its end `2-3` is not an integer |
| `Filters.MalformedNegative` | filters.py:37-42 | `-5` is skipped: its start is empty |
| `Filters.SizeAndFilterSpecs` | filters.py:84-90 | a size or filter-code spec gives no constraint exactly when it is absent or empty, and the parsed set otherwise |
| `Filters.BlankMatchCodesUseDefault` | filters.py:73-74 | an absent or whitespace-only match-codes spec is replaced by the default |
| `Filters.MatchSpecGiven` | filters.py:73-76 | a non-blank match-codes spec is kept, stripped |
| `Filters.AllMatchesEveryCode` | filters.py:76-79 | `all` in any case, with any surrounding whitespace, gives no match-codes constraint |
| `Filters.OtherMatchCodesParsed` | filters.py:76-81 | any other non-blank match-codes spec gives the set its stripped text parses to, even when that set is empty |
| `Filters.BlankSizeSpecIsEmptySet` | filters.py:84 | a whitespace-only size spec is not absent: it gives the empty set |
| `Filters.StrippedSpecParsed` | filters.py:76-81 | a non-empty stripped default spec other than `all` is parsed as it is |
| `Filters.ShouldShowIffAllGates` | filters.py:100-121 | a result is shown exactly when all four gates pass, each gate being vacuous when its set is `None` |
| `Filters.PassesInOrderAll` | filters.py:107-121 | checking gates one after the other, stopping at the first failure, accepts exactly when every gate passes |
| `Filters.GateOrderIrrelevant` | filters.py:107-121 | any order of the four gates, repeats allowed, gives the same answer as `should_show` |
| `Filters.NoConstraintAcceptsAll` | filters.py:100-121 | with no constraint every result is shown |
| `Filters.DefaultMatchCodesSet` | config.py:8 | the default spec parses to 200..299 together with 301, 302, 307, 401, 403, 405 and 500 |
| `Filters.DefaultConfigAccepts` | filters.py:73-81 | with every field absent, a result is shown exactly when its status is one of the default codes |
| `Wordlist.NormalizeLine` | dictionary.py:15-19 | a line is dropped exactly when it is blank or a comment after stripping; otherwise it becomes a path starting with `/`, namely the stripped line or `/` before it |
| `Wordlist.SlashAddedOnlyIfMissing` | dictionary.py:18-19 | the `/` is put in front exactly when the stripped line does not already start with one |
| `Wordlist.LoadWordlist` | dictionary.py:6-22 | a missing file is the `NotFound` error; otherwise the result is the normalised kept lines |
| `Wordlist.NormalizedArePaths` | dictionary.py:14-20 | there are never more paths than lines, and every path is non-empty, starts with `/` and has no surrounding whitespace |
| `Wordlist.KeptIncreasing` | dictionary.py:14-20 | the kept line numbers are strictly increasing and within the file |
| `Wordlist.KeptExactly` | dictionary.py:16-17 | a line is kept exactly when it is neither blank nor a comment |
| `Wordlist.NormalizedIsKeptSubsequence` | dictionary.py:14-20 | the output is, in order and with duplicates, the kept lines each normalised |
| `Wordlist.PathLineKept` | dictionary.py:15-20 | a line that already is a path is kept unchanged |
| `Wordlist.NormalizedIdempotent` | dictionary.py:15-20 | loading the output again gives the same list |
| `Wordlist.NormalizedAppend` | dictionary.py:14-20 | the lines of two files one after the other give the two lists one after the other |
| `Wordlist.Example` | dictionary.py:15-20 | `["  /admin ", "# comment", "", "login"]` gives `["/admin", "/login"]` |
| `Report.SafeUrl` | output.py:28 | the file-name form of the URL holds no `/` |
| `Report.SaveReport` | output.py:21-41 | the file is `reports/report_<url>_<ts>.txt`; the lines are the three header lines, then one line per result in order; with no result only the header, counting 0 |
| `Report.EmptyHeader` | output.py:32-33 | the header for no result is `Scan report for <url>`, `Total results: 0` and a blank line |
| `Report.FilenameInReportsDir` | output.py:29 | the file is directly inside `reports`, and its name holds no further `/` |
| `Report.FilenameDeterminesTimestamp` | output.py:27-29 | two reports on the same URL with different timestamps are written to different files |
| `Report.SafeUrlOfSchemeUrl` | output.py:28 | for a scheme without `:` and a rest in which `://` does not occur (ports and `:` in the path allowed), `scheme://rest` becomes `scheme_rest` with every `/` replaced by `_`, and is two characters shorter |
| `Report.TotalLineCount` | output.py:33 | the second line reads back as the number of results, whenever that number has at most 4300 digits |
| `Report.ResultLineStatus` | output.py:35-37 | a result line starts with `[`, and the text up to the first `]` reads back as the status, whenever the status has at most 4300 digits |
| `Report.ResultLineUrl` | output.py:37 | a result line ends with the result's URL |
| `Scanner.NormalizeBaseShape` | gui.py:44 | the base is the URL with all its trailing slashes replaced by exactly one |
| `Scanner.NormalizeBaseIdempotent` | gui.py:44 | normalising a base again changes nothing |
| `Scanner.NormalizeBaseTrailingSlash` | gui.py:44 | a URL with or without a trailing slash gives the same base |
| `Scanner.JoinedSegments` | gui.py:47 | for a base and a relative path that qualify (see "## Left out"), joining adds the relative path after the base's last `/`, keeping the base's segments |
| `Scanner.TargetShape` | gui.py:47 | the URL of a path is the base followed by the path without its leading slashes |
| `Scanner.TargetExample` | gui.py:44-47 | base `http://x.test` and path `/backup` request `http://x.test/backup` |
| `Scanner.ShownMeans` | gui.py:48-54 | a path contributes at most one result: its answer, exactly when there is one and the filters show it |
| `Scanner.CollectAppend` | gui.py:46-56 | probing two lists of URLs one after the other collects the two result lists one after the other |
| `Scanner.SkippedUrlContributesNothing` | gui.py:49-50 | a URL without an answer, or with a hidden one, contributes nothing wherever it sits |
| `Scanner.CollectSound` | gui.py:46-56 | every collected result is shown and is the answer for one of the URLs; no more results than URLs |
| `Scanner.CollectComplete` | gui.py:46-56 | every shown answer is collected |
| `Scanner.ScanResultsStep` | gui.py:46-54 | for a base and paths that qualify (see "## Left out"), one more path adds what is shown of its answer, at the end |
| `Scanner.ScanResultsSound` | gui.py:46-56 | for a base and paths that qualify (see "## Left out"), every result is a shown answer for one of the paths; no more results than paths |
| `Scanner.ScanResultsComplete` | gui.py:46-56 | for a base and paths that qualify (see "## Left out"), every shown answer for a path is among the results |
| `Scanner.ScanSync` | gui.py:33-56 | the loop returns the shown answers in path order, and hands exactly those, in that order, to `on_result` |
| `ScanState.StatusesCount` | gui.py:414-417 | the counter holds one count per result and counts a status as often as results carry it |
| `ScanState.Initial` | gui.py:165-174 | the new window satisfies the invariant, with no scan, no result and an empty queue |
| `ScanState.BlankFieldsUseDefaults` | gui.py:347-353 | blank filter fields give the default match codes and no other constraint |
| `ScanState.StartEffect` | gui.py:326-371 | the guards apply in order (already scanning, blank URL, missing wordlist, empty wordlist) and leave the window unchanged; a start clears the results and the counter, sets `done_paths` to 0 and `total_paths` to the number of paths, and sets `is_scanning` |
| `ScanState.StartInv` | gui.py:326-371 | `start_scan` keeps the window's invariant |
| `ScanState.WorkerTurnEffect` | gui.py:375-392 | a worker turn touches only the queue, `done_paths` and whether the worker runs; it requests the next path exactly when one is left, adds 1 to `done_paths` and queues that path's answer if shown; otherwise it puts the end marker |
| `ScanState.WorkerTurnInv` | gui.py:375-392 | a worker turn keeps the invariant, including `done_paths <= total_paths` |
| `ScanState.WorkerRunEffect` | gui.py:375-392 | the worker runs through every remaining path and stops; the results plus the queue then hold what `scan_sync` collects for the job |
| `ScanState.TakeEffect` | gui.py:403-417 | the end marker is the last item and ends the scan; a result moves from the queue's head to the end of the results |
| `ScanState.TakeInv` | gui.py:403-417 | one take keeps the invariant, counting the result's status |
| `ScanState.DrainEffect` | gui.py:396-432 | draining moves every queued result, in order, to the results, and ends the scan exactly when the end marker was queued |
| `ScanState.DrainInv` | gui.py:396-432 | draining keeps the invariant |
| `ScanState.SessionMatchesScanSync` | gui.py:326-432 | a scan started on an idle window starts exactly when the URL is not blank and the wordlist yields a path; it ends with the results `scan_sync` returns for the same inputs and one count per result |
| `Gui.ScanApp.constructor` | gui.py:165-174 | the fields as `__init__` sets them |
| `Gui.ScanApp.StartScan` | gui.py:326-394 | the configuration is built from the four filter fields as `WindowConfig` says, the fields change as `Start` says, and the outcome is the guard that stopped it or `Started` |
| `Gui.ScanApp.WorkerStep` | gui.py:375-392 | one worker turn on the fields, as `WorkerTurn` says, returning the URL requested |
| `Gui.ScanApp.RunWorker` | gui.py:374-392 | the worker's loop on the fields, as `WorkerRun` says |
| `Gui.ScanApp.TakeItem` | gui.py:403-417 | one `get_nowait` on the fields, as `Take` says, reporting whether it was the end marker |
| `Gui.ScanApp.DrainQueue` | gui.py:396-432 | the timer callback's loop on the fields, as `Drain` says |
| `Gui.ScanApp.SaveReportGui` | gui.py:454-461 | no report without results; otherwise the report on the stripped URL field, or on `unknown` when it is blank |
| `Gui.RunSession` | gui.py:326-432 | start, worker and drain on the object; the fields end as `SessionMatchesScanSync` says |

## Left out

- Threads, the real `queue.Queue` and the `after` timer. The worker and the timer callback are methods that run whole turns. Interleavings of the worker with the timer are sequences of those calls. Interleavings inside a turn are not modelled.
- The stop check `if not self.is_scanning: break` (gui.py:376-377). Nothing in the source clears `is_scanning` while the worker runs, so the check never fires. The model keeps it as a guard, and `WorkerTurnEffect` states that it never stops a running worker.
- The progress label: `done_paths` is modelled, but the label text is not. `WorkerTurnEffect` states that `done_paths` grows by one per request and never passes `total_paths`. The sequence of its values is not stated as one property.
- Tk widgets, the result table, the chart, the message boxes and the file dialogs: they are display only.
- `run_cli` and its argument parsing (gui.py:61-154). It passes the same strings to `build_filter_config` and `scan_sync` that are modelled here.
- `print_result` (output.py:10-18): console output.
- The HTTP client (http_client.py). It is the `Prober` parameter, so timing and network errors are whatever that function returns.
- `urljoin` in general (section 5.2 of RFC 3986, as Python's `urllib.parse` implements it). Only the case where it is plain concatenation is modelled. A base qualifies (`SimpleBase`) when all of these hold:
  - it starts with lower-case `http://` or `https://`;
  - what follows holds no `?`, `#`, `;`, tab, carriage return, line feed, `[` or `]`;
  - it is a non-empty authority and path segments that are neither empty nor `.` or `..`, ending in `/`.
- A relative path qualifies (`SimpleRelative`) when all of these hold:
  - it holds no `:`, `?`, `#`, `;`, tab, carriage return or line feed;
  - it does not start with a space or a control character;
  - its segments are neither `.` nor `..`, and none but the last is empty.
- Inputs outside those conditions are not covered. Examples are an upper-case scheme (`HTTP://X.TEST`), a URL without a scheme (`x.test`), a wordlist line `/a?b` or `/ admin`, and a bracketed IPv6 authority. For an unbalanced bracket `urlsplit` raises `ValueError`: `scan_sync` then fails, and the window's worker dies before its end marker.
- Scanner.SimpleBase: admits non-ASCII authority characters. Python's `urlsplit` raises `ValueError` when such a character's NFKC form is a URL delimiter, and the model concatenates instead.
- Scanner.ScanSync: requires that the base and every path qualify as above. For other inputs the source's `urljoin` behaviour is not captured.
- Scanner.TargetShape: holds only for a base and a path that qualify as above.
- Scanner.JoinedSegments: holds only for a base and a relative path that qualify as above.
- Scanner.ScanResultsStep: holds only for a base and paths that qualify as above.
- Scanner.ScanResultsSound: holds only for a base and paths that qualify as above.
- Scanner.ScanResultsComplete: holds only for a base and paths that qualify as above.
- ScanState.StartInv: requires that a started scan's base and paths qualify as above, because the window invariant `Inv` says so of its job. A scan of any other URL or wordlist is outside the model.
- ScanState.SessionMatchesScanSync: requires the same of the URL field and the wordlist's paths.
- Gui.ScanApp.StartScan: requires the same, so `start_scan` with another non-blank URL or another wordlist is not covered.
- Gui.RunSession: requires the same.
- Float formatting. The `:.1f` rendering of `elapsed_ms` is supplied as a string per result.
- The timestamp. `datetime.now()` is supplied as the string `ts`.
- File I/O: `os.makedirs`, opening and writing files, and UTF-8 decoding with `errors="ignore"`. The wordlist is its lines and the report is its filename plus its lines.
- Python `int()` leniencies: underscores between digits and non-ASCII digits. `ParseInt` accepts surrounding whitespace, one sign and from one to 4300 ASCII digits. The digit bound is the default of `sys.get_int_max_str_digits()`. A process that changes it with `sys.set_int_max_str_digits` is not modelled, and neither is a Python without the limit (before 3.11 and the 2022 security releases).
- Text.ParseIntToString: holds only for integers of at most 4300 digits. Beyond that, `str()` and `int()` both raise `ValueError`.
- Filters.NumberToken: holds only for numerals of at most 4300 digits. Longer ones are skipped, as `LongNumeralSkipped` states.
- Filters.SpanToken: holds only when both ends have at most 4300 digits. Otherwise the piece is skipped, as `LongRangeSkipped` states.
- Filters.SpanSpec: holds only when both ends have at most 4300 digits, as for `SpanToken`.
- Report.SaveReport: writes every status, length and count in full. For a number of more than 4300 digits, `str()` raises `ValueError` and Python writes no report. `TotalLineCount` and `ResultLineStatus` are stated only within that limit.
- `str.lower` is modelled on ASCII letters only. Only the comparison with `all` depends on it, and no other character lowers to `a` or `l`.
