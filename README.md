# SAMscope core in Dafny

SAMscope diagnoses an Android phone over adb. It runs `top`, `dumpsys meminfo`,
`dumpsys thermalservice`, `dumpsys gfxinfo` and `dumpsys activity services`, then parses their
text output into:

- a process table;
- a list of apps by resident memory, sorted largest first;
- a map from thermal sensor to temperature;
- frame-time statistics;
- a list of running services.

The command-line tool (`diagnose.py`) uses these parsers to flag heavy processes and heavy
apps, and to tell system processes from apps. The web dashboard (`dashboard.py`) uses the
same parsers to build one snapshot (`collect_stats`). A recording session collects snapshots
from a background loop until it is stopped, and then writes them out.

This project models that core and proves properties of the model:

| file | what it holds |
|---|---|
| `text.dfy` (`Text`) | line splitting like `str.splitlines`, whitespace tokens like `str.split()`, substring search, and ANSI-escape removal (`strip_ansi`) |
| `numbers.dfy` (`Numbers`) | `float()` on the decimal tokens the regular expressions capture, `int()` on comma-grouped kilobyte counts |
| `records.dfy` (`Records`) | the records the parsers build; `Result`, where `Failure(ValueError(token))` is the exception `float()`/`int()` raises |
| `cpu_parser.dfy`, `ram_parser.dfy`, `thermal_parser.dfy`, `gfx_parser.dfy`, `service_parser.dfy` | each parser twice: a specification function over the lines, and a method with the source's loop, proved equal to it |
| `classifier.dfy` (`Classifier`) | the two threshold filters and the system-process heuristic |
| `dashboard.dfy` (`Dashboard`) | `collect_stats` |
| `session.dfy` (`Session`) | the session globals as a class, and start, one turn of the monitor loop, and stop |

Each regular expression is modelled by a matcher written for its own shape:

- **Process rows.** The strict row pattern matches exactly when the line has at least 12
  whitespace tokens and the leading fields have the right character classes. The loose
  pattern differs only on lines of exactly 11 tokens followed by at least two whitespace
  characters.
- **Memory lines.** The lazy name group ends at the first ` (pid <digits>)` tail.
- **Thermal lines.** `re.search` takes the leftmost match.

## Model

| member | source | states |
|---|---|---|
| Text.StripAnsi | diagnose.py:400-403 | removing escape sequences only deletes characters: the result is no longer than the input and a sub-multiset of it; text without an Esc character comes back unchanged |
| Text.CsiLength | diagnose.py:402 | a non-zero length is that of a sequence at that position: Esc, `[`, a run of bytes in `0`..`?`, a run in ` `..`/`, and a final byte in `@`..`~`, within the text |
| Text.CsiMatchIsFound | diagnose.py:402 | every sequence of that form at a position is found, with its whole length |
| Text.StripAnsiDropsSequence | diagnose.py:402-403 | a sequence at the scan position is deleted and the scan resumes after it |
| Text.StripAnsiKeepsChar | diagnose.py:402-403 | a character where no sequence starts is kept and the scan moves on by one |
| Text.StripAnsiRemovesColour | diagnose.py:400-403 | `Esc[1mX` becomes `X` |
| Text.StripAnsiIsOnePass | diagnose.py:402-403 | `re.sub` makes one pass: in `Esc[Esc[1mm` only the inner sequence is removed, and the `Esc[m` it leaves stays |
| Text.StripAnsiFromKeepsPlainText | diagnose.py:400-403 | a suffix with no Esc character is kept verbatim |
| Text.SplitLines | diagnose.py:407 | no line of `str.splitlines` holds a line break; empty text has no lines |
| Text.SplitLinesOfOneLine | diagnose.py:407 | text without a line break is one line, or no line when it is empty |
| Text.SplitLinesCons | diagnose.py:407 | a line followed by `\n` or `\r\n` and more text splits into that line followed by the lines of the rest |
| Text.Tokens | diagnose.py:491 | `str.split()` gives one token per span, in order: token k is the text of span k, and the spans are disjoint and increasing |
| Text.SpanIsMaximalRun | diagnose.py:491 | each token is a maximal run of non-whitespace: it holds no whitespace, the characters on either side of it are whitespace, and so is all the text between it and the token before it (or the start) |
| Text.NonSpaceIsInSomeToken | diagnose.py:491 | no token is dropped: every non-whitespace character lies inside some token |
| Text.SpaceAfterLastSpan | diagnose.py:491 | only whitespace follows the last token |
| Text.TokenIsWord | diagnose.py:491 | every token is non-empty and holds no whitespace |
| Text.TokensCons | diagnose.py:491 | a word, a space and more text split into that word followed by the tokens of the rest |
| Text.TokensOfWord | diagnose.py:491 | a word alone is its only token |
| Text.TokensOfJoin | diagnose.py:491 | joining non-empty whitespace-free words with single spaces and splitting gives the words back |
| Numbers.ParseDecimal | diagnose.py:425-426 | `float()` of a `[\d.]+` token succeeds exactly when it has at most one dot and some digit, and its value is non-negative |
| Numbers.DigitsValue | diagnose.py:423 | the value of n digits is below 10^n |
| Numbers.DigitsValueAppend | diagnose.py:423 | the value of two digit strings written together is the first shifted by the length of the second, plus the second |
| Numbers.ParseDecimalOfParts | diagnose.py:425-426 | `float()` of `<whole>.<frac>` is the whole part plus the fraction digits over their power of ten, at least the whole part and below it plus one |
| Numbers.ParseDecimalOfDigits | diagnose.py:423-426 | `float()` of plain digits is their integer value |
| Numbers.ParseDecimalExamples | diagnose.py:425-426 | `38.1`, `5.` and `.5` read as 38.1, 5.0 and 0.5; `.` and `1.2.3` are rejected |
| Numbers.ParseFloat | diagnose.py:494 | `float()` of a token succeeds exactly on an optionally signed plain decimal |
| Numbers.ParseFloatSign | diagnose.py:494 | a leading `-` negates the unsigned value, a leading `+` keeps it, and an unsigned token reads as a plain decimal |
| Numbers.ParseFloatExample | diagnose.py:494 | `-1.5` reads as -1.5 |
| Numbers.RemoveCommas | diagnose.py:460 | `kb.replace(',', '')` leaves no comma and keeps every other character as often as before |
| Numbers.RemoveCommasDistributes | diagnose.py:460 | removing commas from two texts written together is removing them from each, in order |
| Numbers.RemoveCommasKeepsCommaFree | diagnose.py:460 | text without commas is unchanged |
| Numbers.KbValue | diagnose.py:460 | `int()` of the comma-stripped kilobytes succeeds exactly when some digit is left, and its value is that of the remaining digits |
| Numbers.KbValueExample | diagnose.py:460 | `1,024` reads as 1024 |
| Records.Prepend | diagnose.py:420-442 | appending a parsed row in front of the rest keeps the rest's success or failure and puts the row first |
| Records.PrependTwice | diagnose.py:420-442 | prepending in two steps is prepending the concatenation |
| CpuParser.KeptLines | diagnose.py:407 | no more lines are kept than there are |
| CpuParser.KeptLinesAppend | diagnose.py:407 | the kept lines of two parts are those of each part, in order |
| CpuParser.KeptLinesOne | diagnose.py:407 | a blank line is dropped; any other is kept with its escape sequences removed |
| CpuParser.FirstHeader | diagnose.py:409-415 | the header is the first kept line holding `PID`, whitespace, `USER` and `[%CPU]`; no earlier line is one |
| CpuParser.StrictMatch | diagnose.py:419 | the strict pattern matches exactly when the line has at least 12 tokens with a digit pid and `[\d.]+`, `[\d.]+`, `[\d:]+` fields at positions 8-10; the groups are tokens 0, 1, 8, 9, 10 and 11 |
| CpuParser.LooseMatch | diagnose.py:432 | the loose pattern matches exactly when the leading fields do and either a twelfth token or at least two whitespace characters follow TIME; the groups are tokens 0, 1, 8, 9 and 10, and the name is the rest of the line after whitespace, starting at token 11 when there is one |
| CpuParser.ToProcess | diagnose.py:421-429 | a row becomes a process exactly when `float()` accepts both cpu and mem, with pid, cpu and mem the values of their fields and the other fields copied; otherwise the error names the first field `float()` rejects |
| CpuParser.ParseRow | diagnose.py:419-442 | a parsed row has a non-negative cpu and mem and the matched fields |
| CpuParser.ParseRowTriesStrictFirst | diagnose.py:419-442 | the strict pattern is tried first and decides the row when it matches; otherwise the loose one does; a line neither matches gives no row |
| CpuParser.ParseRowOfFormattedRow | diagnose.py:419-429 | twelve words joined by spaces, with a digit pid, decimal cpu and mem and a clock-shaped TIME, read back as the process with those values |
| CpuParser.RowWithFractionalTimeIsDropped | diagnose.py:418-419 | the example row `1203 system 18 -2 17G 252M 80M S 109 6.8 615:01.29 system_server` matches neither pattern, since `615:01.29` holds a dot |
| CpuParser.CollectCpuStatsFromRaw | diagnose.py:405-443 | the source's header loop and row loop compute the specification `CpuStats` |
| CpuParser.CollectRows | diagnose.py:417-442 | the row loop returns the rows after the header, or the first error |
| CpuParser.RowsInOrder | diagnose.py:417-442 | every returned process comes from a distinct later line, in line order; every line left out matched neither pattern |
| CpuParser.RowsFailExactly | diagnose.py:417-442 | the parse raises exactly when some row after the header raises |
| CpuParser.CpuStatsFollowFirstHeader | diagnose.py:405-443 | the processes come from lines after the first header line, one per matching line, in order |
| CpuParser.StrictNameIsFirstWordOfLoose | diagnose.py:419-432 | where the strict pattern matches, the loose one does too with the same fields, and its name starts with the strict name |
| CpuParser.LooseOnlyAfterBlankTail | diagnose.py:430-442 | the loose pattern catches a line the strict one misses only on exactly 11 tokens, and then the name is one whitespace character |
| CpuParser.CpuStatsOfEmptyText | diagnose.py:405-443 | empty text gives an empty table |
| RamParser.FirstMarker | diagnose.py:447-454 | the section starts after the first line holding `Total RSS by process:`; no earlier line holds it |
| RamParser.LazyEnd | diagnose.py:457 | the lazy name ends where a ` (pid <digits>)` tail, possibly with ` /...`, begins |
| RamParser.LazyEndIsFirst | diagnose.py:457 | no tail begins before that point, so the name is the shortest possible |
| RamParser.RamMatch | diagnose.py:457 | a match has a non-empty `[\d,]+` size, a non-empty name and a non-empty digit pid |
| RamParser.ParseRamLine | diagnose.py:457-467 | a line is an app exactly when the pattern matches and `int()` accepts the kilobytes, and then it holds the matched name, the pid value and the kilobytes / 1024 as MB; it is a stop exactly when the pattern misses on a blank line, a skip when it misses on any other, and raises with the kilobytes field otherwise |
| RamParser.RamLineExample | diagnose.py:457-464 | `  1,024K: com.x (pid 7)` is the app `com.x` with pid 7 and 1.0 MB |
| RamParser.OutcomeOfLine | diagnose.py:456-467 | the outcome at each index is the parse of that line |
| RamParser.SortDescSorted | diagnose.py:468 | the sort puts apps in non-increasing order of size |
| RamParser.SortDescPermutes | diagnose.py:468 | the sort is a permutation |
| RamParser.SortDescStable | diagnose.py:468 | apps of equal size keep their relative order, as Python's sort is stable |
| RamParser.InsertDescMultiset | diagnose.py:468 | inserting one app adds exactly that app |
| RamParser.InsertDescSorted | diagnose.py:468 | inserting into a sorted list keeps it sorted |
| RamParser.InsertDescKeepsTies | diagnose.py:468 | the inserted app goes after the apps of its own size |
| RamParser.SortByRamDesc | diagnose.py:468 | the in-place insertion sort leaves the array equal to the specification sort of its old contents |
| RamParser.InsertLast | diagnose.py:468 | one insertion step sorts one more element into the sorted prefix and leaves the suffix alone |
| RamParser.CollectRamStatsFromRaw | diagnose.py:445-469 | the source's marker loop and line loop, then the sort, compute the specification `RamStats` |
| RamParser.CollectEntries | diagnose.py:456-467 | the line loop returns the apps up to the first blank non-matching line, or the first error |
| RamParser.EntriesInOrder | diagnose.py:456-467 | every app comes from a distinct matching line before the first stop, in line order; every other line is not an app or lies after a stop |
| RamParser.EntriesFailExactly | diagnose.py:456-467 | the parse raises exactly when a raising line comes before any stop |
| RamParser.RamStatsSortedSection | diagnose.py:445-469 | the result is sorted, stable, and a permutation of the apps of the section after the first marker (none without one) |
| RamParser.RamLineRoundTrip | diagnose.py:457 | a line written as `<pad><kb>K: <name> (pid <pid>)` with no `(` in the name reads back as exactly those fields |
| ThermalParser.FirstReadingAt | diagnose.py:475 | the search finds the leftmost position where the pattern matches |
| ThermalParser.FirstReadingIsLeftmost | diagnose.py:475 | the reading taken is the one at that leftmost position |
| ThermalParser.ReadingShape | diagnose.py:475 | a match has a `[\d.]+` value and a non-empty `[A-Z0-9_]+` name |
| ThermalParser.ToSensor | diagnose.py:477-478 | a reading is stored exactly when `float()` accepts its value, under its name and with the value of its digits as temperature; otherwise the value is the error |
| ThermalParser.ThermalLine | diagnose.py:475-478 | a stored sensor has a well-formed name and a non-negative temperature |
| ThermalParser.NoReadingExactlyWithoutPattern | diagnose.py:475-476 | a line is skipped exactly when the pattern matches nowhere in it |
| ThermalParser.OutcomeOfLine | diagnose.py:474-478 | the outcome at each index is the parse of that line |
| ThermalParser.CollectThermalInfoFromRaw | diagnose.py:471-479 | the source's loop computes the specification `Thermal` |
| ThermalParser.CollectSensors | diagnose.py:474-478 | the loop's map is the fold of the line outcomes |
| ThermalParser.FailureSticks | diagnose.py:474-478 | once a line raises, later lines change nothing |
| ThermalParser.FailsExactly | diagnose.py:474-478 | the parse raises exactly when some line raises |
| ThermalParser.SensorIsLastReading | diagnose.py:478 | the stored temperature of a sensor is that of its last reading; no later line reads that sensor |
| ThermalParser.EveryReadingIsKept | diagnose.py:478 | every sensor read appears in the map |
| ThermalParser.EmptyExactlyWithoutReadings | diagnose.py:474-479 | the map is empty exactly when no line holds a reading |
| ThermalParser.ThermalKeysComeFromLines | diagnose.py:471-479 | every key comes from a line and holds that line's value, which is the last reading of that key |
| ThermalParser.ThermalWithoutReadings | diagnose.py:471-479 | text without readings gives an empty map |
| ThermalParser.SensorLineRoundTrip | diagnose.py:475 | a `Temperature{mValue=..., mType=..., mName=..., mStatus=...}` line reads back as its value and name |
| ThermalParser.SensorLineReading | diagnose.py:475-478 | such a line stores that temperature under that name, or raises with the value when `float()` rejects it |
| GfxParser.FrameTime | diagnose.py:491-497 | a data line gives a frame time exactly when it has three tokens that `float()` all accepts, and the time is their sum |
| GfxParser.FrameTimeOfRow | diagnose.py:491-495 | three numbers `float()` accepts, joined by spaces, give their sum as the frame time |
| GfxParser.ClassifyLine | diagnose.py:485-490 | a line is a marker exactly when it holds `Profile data in ms:`, and a blank exactly when it is blank and holds no marker |
| GfxParser.LineClassOf | diagnose.py:484-497 | the class at each index is that of the line |
| GfxParser.Summary | diagnose.py:498-502 | total is the frame count; average and jank are absent exactly when there are no frames; jank is the number of frames over 16.67 ms; average × count = sum |
| GfxParser.JankCountIsSlowFrames | diagnose.py:500 | the jank count is the number of frame indices over 16.67 ms |
| GfxParser.CollectGfxStatsFromRaw | diagnose.py:481-502 | the source's loop and summary compute the specification `GfxStats` |
| GfxParser.CollectFrameTimes | diagnose.py:482-497 | the loop with its in_section flag collects the specification frame times |
| GfxParser.FirstMarkerLine | diagnose.py:485-487 | the section starts at the first marker line |
| GfxParser.SectionEnd | diagnose.py:489-490 | the section ends at the first blank line after it |
| GfxParser.SectionFrames | diagnose.py:488-497 | inside the section, the frames are the frame times of its data lines up to the first blank |
| GfxParser.FramesBeforeSection | diagnose.py:485-487 | lines before the first marker contribute nothing; later markers do not restart anything |
| GfxParser.FramesAreTheSection | diagnose.py:481-497 | the frame times are exactly those of the section after the first marker (none without one) |
| GfxParser.JankCountExtremes | diagnose.py:500 | all frames are jank exactly when all exceed 16.67 ms; none exactly when none do |
| GfxParser.SumBounded | diagnose.py:499 | frames within [lo, hi] sum to within count × [lo, hi] |
| GfxParser.MeanWithinFrameTimes | diagnose.py:499 | the average lies between the smallest and largest frame time |
| GfxParser.TwoFrameExample | diagnose.py:498-501 | frames of 7 ms and 22 ms average 14.5 ms, with one jank frame of two |
| ServiceParser.LastBraceBefore | diagnose.py:508 | the `(\S+)\}` group ends at the last `}` of the first token after the slash |
| ServiceParser.ServiceMatch | diagnose.py:508 | a match has a non-empty `[\w.]+` package and a non-empty whitespace-free service |
| ServiceParser.ServiceMatchLayout | diagnose.py:508 | a line matches only when it is whitespace, `* ServiceRecord{`, hex digits, ` u`, digits and a space, then a `[\w.]+` package, `/`, a whitespace-free service and `}`; the groups are that package and service |
| ServiceParser.RecordReadsBack | diagnose.py:508-510 | conversely, a line laid out that way and ending at its `}` matches, and its service is the laid-out package, `/` and service |
| ServiceParser.ServiceOf | diagnose.py:508-511 | a service is `package/service`, with a slash strictly inside it |
| ServiceParser.ServiceOutcomeOf | diagnose.py:507-511 | the outcome at each index is the parse of that line |
| ServiceParser.CollectServicesFromRaw | diagnose.py:504-512 | the source's loop computes the specification `Services` |
| ServiceParser.CollectServiceLines | diagnose.py:507-511 | the loop collects the service of each matching line |
| ServiceParser.ServicesInOrder | diagnose.py:507-511 | every service comes from a distinct matching line, in line order; every line left out does not match |
| ServiceParser.ServicesComeFromLines | diagnose.py:504-512 | the same for whole text: no more services than lines, one per matching line, in order |
| ServiceParser.RecordLineRoundTrip | diagnose.py:508 | a `* ServiceRecord{<hex> u<digits> <package>/<service>}` line reads back as `package/service` |
| Classifier.KeepMembers | diagnose.py:176 | an element is kept by the comprehension exactly when it occurs and passes |
| Classifier.KeepDistributes | diagnose.py:176 | filtering a concatenation filters each part in order |
| Classifier.KeepIdempotent | diagnose.py:176 | filtering twice is filtering once |
| Classifier.HighlightHeavyCpu | diagnose.py:174-176 | a process is highlighted exactly when it is in the table at or above 50% CPU |
| Classifier.HighlightHeavyRam | diagnose.py:178-180 | an app is highlighted exactly when it is listed at or above 300 MB |
| Classifier.HeavyCpuInOrder | diagnose.py:174-176 | the heavy processes keep table order: filtering distributes over concatenation, and one process is kept iff it is at or above 50% |
| Classifier.HeavyRamInOrder | diagnose.py:178-180 | the same for apps and 300 MB |
| Classifier.HighlightIdempotent | diagnose.py:174-180 | highlighting a highlighted list changes nothing |
| Classifier.ThresholdsAreInclusive | diagnose.py:176 | exactly 50% and 300 MB are heavy; 49.9% and 299.9 MB are not |
| Classifier.StartsWithAny | diagnose.py:190 | the scan finds a prefix exactly when some listed name is a prefix |
| Classifier.IsSystemProcess | diagnose.py:183-193 | a name is a system process exactly when it starts with a listed name or contains no dot |
| Classifier.SystemPrefixSurvivesSuffix | diagnose.py:183-193 | a name with a listed prefix stays a system process whatever is appended |
| Classifier.SystemExamples | diagnose.py:183-193 | `zygote`, `vendor.qti.x` and `kworker` are system processes |
| Classifier.NoListedPrefix | diagnose.py:190 | no listed name is a prefix of a name that each listed name is too long to begin or starts differently from |
| Classifier.AppExample | diagnose.py:183-193 | `org.mozilla.firefox`, a dotted name that begins with none of the listed names, is not a system process |
| Dashboard.Health | dashboard.py:123-127 | low exactly under 500 MB free, medium exactly from 500 up to 1000 MB, good exactly from 1000 MB |
| Dashboard.Reported | dashboard.py:129-130 | the `[:5]` slice is a prefix of at most five rows, the whole list when it is short |
| Dashboard.Assemble | dashboard.py:119-139 | free memory is 4096 minus the RSS of every parsed app, the verdict is that of the free memory, five rows of each list are reported, and jank and storage are empty |
| Dashboard.CollectStats | dashboard.py:107-139 | the method, skipping each parser on empty output, computes the specification `Stats` |
| Dashboard.EmptySourcesNeedNoParser | dashboard.py:116-118 | skipping a parser on empty text gives what that parser would give |
| Dashboard.StatsFailExactly | dashboard.py:107-139 | a snapshot is made exactly when none of the three parsers raises |
| Dashboard.UsedRamSplits | dashboard.py:121 | the used memory of two lists is the sum of each list's |
| Dashboard.FreeRamCountsEveryApp | dashboard.py:120-130 | free memory also counts the apps after the fifth, which the snapshot does not report |
| Dashboard.NoAppsMeansGoodHealth | dashboard.py:117-127 | without apps, 4096 MB are free and the verdict is good |
| Dashboard.HealthMonotone | dashboard.py:123-127 | more free memory never gives a worse verdict |
| Dashboard.MoreAppsNeverImproveHealth | dashboard.py:120-127 | one more app never raises the free memory or improves the verdict |
| Session.Started | dashboard.py:409-417 | starting turns a session on; an idle session starts with empty data and a new loop; an active one is untouched |
| Session.Ticked | dashboard.py:149-155 | a turn of the loop appends the snapshot while the session and its loop run; otherwise, or when collect_stats raises, the loop ends and the data stays |
| Session.Stopped | dashboard.py:419-431 | stopping turns the session and its loop off and keeps the data |
| Session.Recorded | dashboard.py:149-155 | the recorded snapshots are no more than the turns |
| Session.OperationsKeepConsistent | dashboard.py:15-20 | the loop never runs outside a session |
| Session.StopTwiceExportsSame | dashboard.py:419-431 | a second stop writes the same data as the first, because stop does not clear it |
| Session.EndedLoopRecordsNothing | dashboard.py:149-155 | after the loop has ended, no more snapshots are recorded |
| Session.RunningSessionRecords | dashboard.py:149-155 | a running session appends its snapshots in order, up to the first turn that raised |
| Session.SessionExportsItsSnapshots | dashboard.py:409-431 | start, turns, then stop writes exactly the snapshots taken before the first error |
| Session.StopWithoutStartExportsNothing | dashboard.py:15-20 | without a start, stop writes nothing |
| Session.RestartDiscardsOldData | dashboard.py:412-416 | starting after a stop discards the earlier session's data |
| Session.StartIsIdempotent | dashboard.py:412 | starting twice is starting once |
| Session.Session.constructor | dashboard.py:15-20 | the globals start with no session, no loop and no data |
| Session.Session.Start | dashboard.py:409-417 | the object's new state is `Started` of its old state |
| Session.Session.Tick | dashboard.py:149-155 | the object's new state is `Ticked` of its old state and the `collect_stats` outcome |
| Session.Session.Stop | dashboard.py:419-431 | the object's new state is `Stopped` of its old state, and it returns the data to be written |

## Left out

- Running the commands: `run_adb`, subprocess, and the thread pool in `collect_stats` are not modelled. Each parser and `Dashboard.CollectStats` takes the text a command printed as a parameter.
- The clock: `time.time()` and `time.strftime` become the `timestamp` and `lastUpdated` parameters. `time.sleep` and `session_interval` are not modelled; one `Tick` is one turn of the loop.
- Concurrency: the monitor thread, `data_lock` and the two-second `join` timeout are not modelled.
  - A turn that is under way when stop runs can still append one snapshot after the data has been written.
  - A stop followed at once by a start can leave the old thread running next to the new one.
  - The model treats each turn as atomic and lets a stop end the loop at once.
- Session.Stopped: writing `session.json` into a timestamped directory becomes the returned `exported` sequence, with no file system.
- Floating point: `float` values are modelled as exact reals.
  - Sums, the average, `/ 1024` and the memory thresholds are exact.
  - Rounding of binary floating point is not modelled.
- Numbers.ParseFloat: exponents, `inf`, `nan` and underscores, which Python's `float()` accepts on gfx tokens, are not modelled. Such a token counts as rejected, so the line is skipped.
- Unicode: only `\d` and `\w` are modelled on their ASCII meaning; Python's `str` patterns also accept non-ASCII digits and letters. `int()` and `float()` of non-ASCII digits are not modelled. `\s`, `str.strip()` and `str.split()` all use `Text.IsSpace`, the full Unicode whitespace set of `str.isspace()`; `str.splitlines()` uses all of its Unicode line boundaries (`Text.IsLineBreak`).
- `dashboard.py` (lines 33-105) has its own copies of `strip_ansi` and of the CPU, memory and thermal parsers (lines 37-71, 73-96 and 98-105). Their statements are the same as in `diagnose.py`; only type hints and comments differ. They are modelled once, and `Dashboard.CollectStats` calls that model.
- Not modelled:
  - reporting, printing, colour codes, CSV and JSON writers, and file output;
  - the command-line argument handling and `main` of `diagnose.py`;
  - the Flask routes and HTML of `dashboard.py`, other than the session start and stop;
  - `clear_cache_android.py`, cache clearing and app killing.

  They are I/O or user interface around the parsers.
- Session.Stopped: stop does not clear `session_data` (dashboard.py:419-431); only start clears it (dashboard.py:414), which `Session.RestartDiscardsOldData` states.
- ThermalParser.CollectSensors: the Python dict keeps the order in which sensors were first inserted, which the JSON output and the report show. A Dafny `map` has no order, so the model keeps only which sensors were read and their last temperatures.
