# Steam download monitor, modelled in Dafny

`steam.py` watches Steam's download log. It finds the newest `content_log*.txt`
file in Steam's `logs` directory. It remembers the file's size, then once per
second reads whatever was appended since. Each new line goes through four
matchers:

- a throughput figure such as `12.50 MB/s`;
- a title line such as `Downloading Game A (1 of 5)`;
- the word `paused`;
- an install-complete phrase.

The results are folded into three fields: the current game, the list of
speeds and a "downloading" flag. Once per reporting interval the monitor
prints the game, the mean of the last ten speeds while downloading (0 otherwise) and the download status.

This project models that core and proves what it does.

| module | file | models |
|---|---|---|
| `Wrappers` | `wrappers.dfy` | `Option` |
| `Text` | `text.dfy` | Python's whitespace class (`str.isspace`, which `\s` and `strip()` use); ASCII digits; maximal runs; `strip()`; substring search |
| `LogLocator` | `log_locator.dfy` | the log-file choice in `find_log_file` over a directory listing of names and modification times |
| `LineClassifier` | `line_classifier.dfy` | `parse_log_line` |
| `ClassifierExamples` | `classifier_examples.dfy` | concrete lines through the classifier |
| `DownloadState` | `download_state.dfy` | the per-line update rules, their fold over a batch, and the numbers `print_status` shows |
| `Tail` | `tail.dfy` | `seek` / `readlines()` / `tell` over the file's text |
| `Monitor` | `monitor.dfy` | the class `SteamDownloadMonitor` with its fields and methods; a functional reference `Run` for the monitoring loop; the lemmas about that loop |
| `MonitorScenario` | `scenario.dfy` | a download followed by a pause, from the log text through the polls and the fold to the reports |

How the regular expressions are modelled:

- Each pattern has two forms:
  - a declarative reading of what the pattern matches (`IsSpeedMatch`, `IsCountMatch`, `IsTitleMatch`);
  - a scanner that does what Python's backtracking engine does (`SpeedAt`, `CountAt`, `TitleAt`, `FindSpeed`, `FindTitle`).
- Lemmas prove that each scanner returns the match `re.search` reports. That match starts leftmost. For the title pattern, `\s+` then takes the longest run (greedy) and the group `(.*?)` the shortest one (lazy).
- Speeds are exact `real`s.

How the monitor is modelled:

- The environment is supplied as inputs:
  - the registry value becomes the constructor's parameter;
  - the directory listing, and the file's text when monitoring starts, are method parameters;
  - each loop iteration gets one `Tick`: the elapsed seconds when the loop condition is tested, the file's text when it is opened (`None` when opening it raises), and the elapsed seconds when the report condition is tested.
- `MonitorLogFile` runs the loop imperatively over the object's fields. It is proved equal to the reference `Run`, and the loop's properties are proved about `Run`.

## Model

| member | source | states |
|---|---|---|
| `LogLocator.IsLogName` | steam.py:47 | `file.startswith("content_log") and file.endswith(".txt")`; a definition used by the contracts of `CollectLogFiles`, `LatestIndex` and `FindLogFile` |
| `LogLocator.CollectLogFiles` | steam.py:45-48 | the collected entries are exactly the listing's `content_log*.txt` entries, in listing order: each comes from the listing, none is missed, and all have the prefix and the suffix |
| `LogLocator.LatestIndex` | steam.py:54 | `max(..., key=getmtime)`: no entry's time exceeds the chosen one's, and every earlier entry's time is strictly smaller, so ties go to the first |
| `LogLocator.LatestLogIsUnique` | steam.py:54 | the "latest log" choice is deterministic: two entries that both qualify are the same entry |
| `LogLocator.NoSteamPath` | steam.py:35 | `not self.steam_path`: no path, or the empty path; a definition used by the contract of `FindLogFile` |
| `Monitor.SteamDownloadMonitor.FindLogFile` | steam.py:34-55 | None exactly when there is no installation path (absent or empty), no logs directory, or no entry with the log prefix and suffix; otherwise the name of the listing's latest log entry (greatest mtime, first in listing order among equals) |
| `Monitor.SteamDownloadMonitor.constructor` | steam.py:9-14 | keeps the installation path it is given; no log file yet; game "Unknown", no speeds, not downloading |
| `Text.IsSpace` | steam.py:60 | Python's `str.isspace()` class, which `\s` (steam.py:60, 64) and `strip()` (steam.py:80) treat as whitespace; a definition, used through `Strip` and the scanners' lemmas |
| `Text.Strip` | steam.py:80 | `line.strip()`: the result is a slice of the line with only whitespace outside it, and it neither starts nor ends with whitespace |
| `Text.Contains` | steam.py:68-73 | true exactly when the literal occurs somewhere in the line, which is what `re.search` of a literal pattern reports |
| `LineClassifier.SpeedAt` | steam.py:60 | the throughput scanner at one position, as the backtracking engine tries it; a definition whose contract `SpeedAtIsMatch` and `SpeedMatchIsFound` state |
| `LineClassifier.FindSpeed` | steam.py:61 | `re.search` of the throughput pattern from a position: what it reports is a position where the scanner matches, with that match's group end, and the scanner matches at no earlier position; when it reports nothing the scanner matches nowhere from the starting position on |
| `LineClassifier.SpeedMatchIsFound` | steam.py:60-61 | whatever split witnesses a throughput match at a position, the scanner finds that match there with the same group end |
| `LineClassifier.SpeedAtIsMatch` | steam.py:60-61 | the scanner reports a match at a position only when the pattern matches there, and the group it reports is the only one possible there |
| `LineClassifier.FindSpeedIsLeftmost` | steam.py:60-61 | the search reports nothing exactly when the throughput pattern matches nowhere, and otherwise the leftmost match |
| `LineClassifier.SpeedOf` | steam.py:83-84 | the speed field: `float` of the first group of the leftmost throughput match, or nothing; a definition whose contract `SpeedField` and `SpeedOfMatch` state |
| `LineClassifier.SpeedOfMatch` | steam.py:83-84 | the speed field is the exact decimal value of the reported match's digits, with the unit ignored |
| `LineClassifier.SpeedField` | steam.py:83-84 | the speed field is absent exactly when the throughput pattern matches nowhere; otherwise it is the value of the leftmost match's group |
| `LineClassifier.DecimalValue` | steam.py:84 | `float()` of the matched figure, as an exact non-negative real; `SpeedOfMatch`, `SpeedField` and `DecimalValueZero` state what it gives (its rounding is under Left out) |
| `LineClassifier.DigitsValueZero` | steam.py:84 | a digit string is worth zero exactly when all its digits are '0' |
| `LineClassifier.DecimalValueZero` | steam.py:129 | a parsed speed is 0.0, which the fold treats as false, exactly when all its digits are '0' |
| `LineClassifier.CountAt` | steam.py:64 | the scanner for the count suffix `\s+\((\d+)\s+of\s+\d+\)` at one position; a definition whose contract `CountAtIsMatch` states |
| `LineClassifier.CountAtIsMatch` | steam.py:64 | the count-suffix scanner succeeds at a position exactly when `\s+\((\d+)\s+of\s+\d+\)` matches there |
| `LineClassifier.LazyEnd` | steam.py:64 | the lazy group `(.*?)` from a start: an end it reports lies within the line and the group crosses no newline, since `.` does not match '\n' |
| `LineClassifier.LazyEndIsCount` | steam.py:64 | the lazy group ends where the count suffix matches |
| `LineClassifier.LazyEndIsFirst` | steam.py:64 | the lazy group ends at the first reachable position where the suffix matches, without crossing a newline |
| `LineClassifier.TryStarts` | steam.py:64 | the greedy `\s+` given back one character at a time: it reports the latest group start in range from which the lazy group can end, and no later start in range allows one; nothing when no start in range does |
| `LineClassifier.TitleAt` | steam.py:64 | the title scanner at one position; a definition whose contract `TitleAtIsMatch`, `TitleMatchIsTried` and `TitleAtIsPreferred` state |
| `LineClassifier.TitleAtIsMatch` | steam.py:64 | what the title scanner reports at a position is a title match there |
| `LineClassifier.TitleMatchIsTried` | steam.py:64 | every title match at a position has a group start no later than the reported one, or the same start and a group end no earlier |
| `LineClassifier.TitleAtIsPreferred` | steam.py:64-65 | at a given start, the scanner reports the longest-whitespace, shortest-group match, and nothing when the pattern cannot match there |
| `LineClassifier.FindTitle` | steam.py:65 | `re.search` of the title pattern from a position: what it reports is a position where the title scanner matches, with that match's group, and the scanner matches at no earlier position; when it reports nothing it matches nowhere from the starting position on |
| `LineClassifier.FindTitleIsChosen` | steam.py:64-65 | the title search reports nothing exactly when the title pattern matches nowhere, and otherwise the match `re.search` chooses |
| `LineClassifier.GameOf` | steam.py:86-87 | the game field: the first group of the title match `re.search` chooses, or nothing; a definition whose contract `GameField` states |
| `LineClassifier.GameField` | steam.py:86-87 | the game field is absent exactly when the title pattern matches nowhere; otherwise it is the chosen match's group |
| `LineClassifier.ParseLogLine` | steam.py:57-93 | `parse_log_line` on its normal path: the record of the four matchers and the stripped line; a definition whose contract `SpeedField`, `GameField` and `FlagFields` state field by field (the `except` path is under Left out) |
| `LineClassifier.FlagFields` | steam.py:67-80 | paused iff "paused" or "Paused" occurs in the line; complete iff "fully installed" or "download complete" occurs; the raw line is the line without its surrounding whitespace |
| `LineClassifier.UnrecognisedLine` | steam.py:75-89 | a line none of the four patterns recognises yields no speed, no game, both flags false and the stripped line |
| `ClassifierExamples.LeadingSpeed` | steam.py:60-84 | a line that starts with a decimal figure, a space and a unit `B/s`, `KB/s` or `MB/s` has that figure's value as its speed, whatever follows |
| `ClassifierExamples.TwoDigitFraction` | steam.py:84 | the figure "12.50" is worth 12.5 |
| `ClassifierExamples.ZeroFraction` | steam.py:84 | the figures "5.0" and "10.0" are worth 5 and 10 |
| `ClassifierExamples.NoDotNoSpeed` | steam.py:60-61 | a line without a decimal point has no speed |
| `ClassifierExamples.ThroughputExample` | steam.py:60-61 | "12.50 MB/s" gives speed 12.5, whatever the unit |
| `ClassifierExamples.WholeNumberSpeedIgnored` | steam.py:60-61 | "5 KB/s" gives no speed: a decimal point is required |
| `ClassifierExamples.MissingCharNoOccurrence` | steam.py:68-73 | a literal containing a character the line lacks does not occur in the line |
| `ClassifierExamples.NoPNotPaused` | steam.py:68-69 | a line with neither 'p' nor 'P' is not a pause |
| `ClassifierExamples.NoYcNotComplete` | steam.py:72-73 | a line with neither 'y' nor 'c' is not a completion |
| `ClassifierExamples.PausedInside` | steam.py:68-69 | a line containing "paused" anywhere is a pause |
| `ClassifierExamples.PausedExample` | steam.py:68-69 | "Download paused by user" is a pause |
| `ClassifierExamples.UpperCasePausedIgnored` | steam.py:68-69 | "PAUSED" is not a pause: the match is case-sensitive |
| `ClassifierExamples.NoCountAtVisible` | steam.py:64 | the count suffix cannot start at a visible character, since it starts with `\s` |
| `ClassifierExamples.NoCountBeforeVisible` | steam.py:64 | nor at whitespace followed by a visible character other than '(' |
| `ClassifierExamples.TitleCountAt` | steam.py:64 | in "Downloading Game A (1 of 5)" followed by anything, between the keyword and the '(' the count suffix matches only at the space before the '(' |
| `ClassifierExamples.TitleExample` | steam.py:64-65 | "Downloading Game A (1 of 5)" followed by anything gives the game "Game A" |
| `ClassifierExamples.NoParenNoTitle` | steam.py:64-65 | a line without '(' has no game |
| `ClassifierExamples.TitleWithoutCountIgnored` | steam.py:64-65 | "Downloading Game A", which lacks the "(n of m)" suffix, gives no game |
| `DownloadState.HasTitle` | steam.py:126 | `if parsed['game']`: a title is present and non-empty; a definition used by the contracts of `Apply`, `FoldKeepsGame` and `FoldGame` |
| `DownloadState.HasSpeed` | steam.py:129 | `if parsed['speed']`: a speed is present and non-zero; a definition used by the contracts of `Apply`, `FoldSpeeds` and `FoldDownloading` |
| `DownloadState.Apply` | steam.py:126-137 | one line's rules: a non-empty title replaces the game; a non-zero speed is appended; after the line the download flag is set exactly when no pause or completion is reported and either a speed was seen or the flag was already set |
| `DownloadState.SilentLineChangesNothing` | steam.py:125-137 | a line with no title, no non-zero speed, no pause and no completion leaves the state unchanged |
| `DownloadState.Fold` | steam.py:123-137 | the rules applied to a batch line by line, in order; a definition whose contract `FoldSpeeds`, `FoldGame`, `FoldDownloading` and `FoldAppend` state |
| `DownloadState.FoldAppend` | steam.py:123-137 | folding two batches one after the other equals folding their concatenation |
| `DownloadState.FoldSpeeds` | steam.py:129-131 | after a batch, the speed list is the old list followed by every non-zero speed of the batch, in order; nothing is evicted |
| `DownloadState.FoldKeepsGame` | steam.py:126-127 | a batch in which no line carries a non-empty title leaves the game unchanged |
| `DownloadState.FoldGame` | steam.py:126-127 | after a batch, the game is the title of the last line carrying a non-empty one |
| `DownloadState.FoldDownloading` | steam.py:129-137 | after a batch, downloading holds iff some line started a download and no later line stopped it, or it held before and no line stopped it |
| `DownloadState.Window` | steam.py:161 | `speeds[-10:]`: the last min(10, n) speeds |
| `DownloadState.Status` | steam.py:160-166 | the report shows the minute and the game; it says downloading exactly when the flag is set and there is a speed; otherwise it shows speed 0 |
| `DownloadState.Sum` | steam.py:161 | `sum(...)` of the window; a definition used by `Status`, bounded by `SumBounds` |
| `DownloadState.SumBounds` | steam.py:161 | the sum of n values each between a lower and an upper bound lies between n times each bound |
| `DownloadState.AverageWithinWindow` | steam.py:160-161 | while downloading, the reported speed lies between any lower and upper bound of the last ten speeds |
| `DownloadState.OlderSpeedsIgnored` | steam.py:161 | with at least ten speeds, speeds older than the last ten never change the report |
| `Tail.ReadLines` | steam.py:119 | `readlines()`: the lines join back to the text; none is empty; each except possibly the last ends at its only '\n', so a trailing partial line is a line of its own |
| `Tail.LineSplitIsUnique` | steam.py:119 | that split is the only one with those properties |
| `Tail.Poll` | steam.py:117-120 | a cursor within the file reads the rest of the file as lines and moves to its end; a cursor past the end (the file shrank) reads nothing and stays |
| `Tail.PollReadsAppended` | steam.py:117-120 | on a file that only grew, a poll from the previous end returns exactly the appended text and leaves the cursor at the new end |
| `Monitor.ParseAll` | steam.py:123-124 | `parse_log_line` applied to each line, in order |
| `Monitor.Continues` | steam.py:114 | the loop condition `time.time() < end_time and output_counter < duration_minutes`; a definition used by `Run`, whose iterations `RunSchedulesReports` bounds through it |
| `Monitor.Step` | steam.py:115-143 | one pass of the loop body: poll, fold the new lines, report when the next boundary is reached, and change nothing when the read raises; a definition whose contract `StepCountsReports`, `StepReadsAppended` and `StepFoldsBatch` state |
| `Monitor.Run` | steam.py:114-149 | the loop, pass by pass, while its condition holds; a definition whose contract `RunSchedulesReports`, `RunReadsAppended` and `RunFoldsLines` state, and to which `MonitorLogFile` is proved equal |
| `Monitor.StepCountsReports` | steam.py:140-143 | one iteration prints at most one report; the counter grows by one exactly when it prints |
| `Monitor.RunSchedulesReports` | steam.py:114-143 | the loop only adds reports, numbers them 1, 2, 3, … and never takes the counter past `duration_minutes` |
| `Monitor.FirstIterationReports` | steam.py:140-143 | a first iteration that reads the file prints report 1, since the first boundary is 0 |
| `Monitor.StepReadsAppended` | steam.py:117-120 | one iteration on an append-only file reads exactly the appended text and moves the cursor to the new end |
| `Monitor.RunReadsAppended` | steam.py:114-120 | across the iterations on an append-only file, the lines read are exactly the text between the starting point and the end of the file as last read |
| `Monitor.MonitorReadsAppendedText` | steam.py:106-120 | starting at the file's initial size, the loop processes exactly the text appended afterwards: nothing pre-existing, nothing twice, nothing skipped |
| `Monitor.StepFoldsBatch` | steam.py:117-137 | one iteration adds the lines it polls and folds exactly those into the state |
| `Monitor.RunExtendsLines` | steam.py:114-137 | the loop only ever adds to the lines read |
| `Monitor.FoldBatches` | steam.py:123-137 | parsing and folding two batches in turn equals doing so for their concatenation |
| `Monitor.RunFoldsLines` | steam.py:114-137 | the state after the loop is the fold of every line read, in file order across all polls |
| `Monitor.SteamDownloadMonitor.ApplyLine` | steam.py:125-137 | the fields after one parsed line are `Apply` of the fields before; path and log file unchanged |
| `Monitor.SteamDownloadMonitor.ProcessLines` | steam.py:123-137 | the fields after a batch are the fold of the parsed batch over the fields before |
| `Monitor.SteamDownloadMonitor.PrintStatus` | steam.py:154-166 | the report printed is `Status` of the current fields |
| `Monitor.SteamDownloadMonitor.MonitorLogFile` | steam.py:95-149 | the log file is found as `FindLogFile` specifies; with none, nothing is reported and the fields are unchanged; otherwise the fields and reports are those of the reference loop starting at the file's size, the reports are numbered 1, 2, … and there are at most `duration_minutes` of them |
| `MonitorScenario.TitleLineSignals` | steam.py:57-89 | "Downloading Game A (1 of 5)\n" parses to the game "Game A", no speed, neither flag |
| `MonitorScenario.SpeedLineSignals` | steam.py:57-89 | "5.0 KB/s\n" and "10.0 KB/s\n" parse to the speeds 5 and 10, no game, neither flag |
| `MonitorScenario.PauseLineSignals` | steam.py:57-89 | "Download paused\n" parses to a pause, with no game, no speed and no completion |
| `MonitorScenario.FirstPollLines` | steam.py:119 | `readlines()` of the three lines' text gives those three lines, each with its '\n' |
| `MonitorScenario.SecondPollLines` | steam.py:119 | `readlines()` of the pause line's text gives that one line |
| `MonitorScenario.FoldFirstPoll` | steam.py:123-137 | a title line and two throughput lines fold from the initial state to that title, both speeds and a running download |
| `MonitorScenario.FoldSecondPoll` | steam.py:123-137 | a pause line keeps the title and both speeds but stops the download |
| `MonitorScenario.FirstReport` | steam.py:160-163 | with speeds 5 and 10 and a running download, report 1 shows their mean 7.5 |
| `MonitorScenario.FirstBatch` | steam.py:123-137 | the parsed title and throughput lines fold to that title, both speeds and a running download |
| `MonitorScenario.SecondBatch` | steam.py:123-137 | the parsed pause line then stops the download and keeps the rest |
| `MonitorScenario.PollFromStart` | steam.py:117-120 | a poll from position 0 returns all the file's lines and moves to its end |
| `MonitorScenario.PollAppended` | steam.py:117-120 | a poll from the end of the earlier text returns exactly the appended lines and moves to the new end |
| `MonitorScenario.PausedScenario` | steam.py:114-166 | the first poll of "Downloading Game A (1 of 5)", "5.0 KB/s" and "10.0 KB/s" reads those three lines; they fold to Game A, both speeds and a running download, and report 1 shows 7.5; the second poll reads only the appended "Download paused", which stops the download while both speeds stay in the list, and report 2 shows 0 and not downloading |

## Behaviour worth noting

- The speed list only grows; nothing is ever evicted. `print_status` averages the last ten entries only.
- A pause is marked only by "paused" or "Paused"; "PAUSED" is not a pause.
- After a pause, the report shows speed 0 and "not downloading"; the earlier average is not shown.
- When the file shrinks below the cursor, the cursor stays where it was. Polls read nothing until the file grows past it again.
- When several log files share the latest modification time, the first in listing order is chosen.

## Left out

- `get_steam_path` (Windows registry through `winreg`, and `os.path.exists` on the path): its result is the constructor's `Option<string>` parameter.
- Filesystem calls (`os.listdir`, `os.path.exists` on the logs directory, `getmtime`, `getsize`, `open`): the listing with modification times, the file's initial text and its text at each poll are inputs.
- Failures of `os.listdir` (steam.py:46), of `os.path.getmtime` inside `max` (steam.py:54) and of `os.path.getsize` (steam.py:106): in the code each raises out of `monitor_log_file` and ends the monitoring thread with no report. In the model the listing, its times and the initial text are given, so `FindLogFile` and `MonitorLogFile` always return.
- `os.path.join`: `FindLogFile` returns the chosen entry's name, not the joined path.
- Clocks and sleeps (`time.time`, `time.sleep(1)` and the 5-second back-off after an error): the elapsed times come from each `Tick`. The loop is modelled over a finite sequence of ticks.
- Threads (`start_monitoring`) and process control (`main`, `KeyboardInterrupt`).
- Console output: `print`, the timestamp from `datetime.now()`, and `:.2f` formatting. Reports are values holding the numbers that would be printed.
- LineClassifier.DecimalValue: computes the exact decimal value, not the nearest binary double `float()` returns, so rounding is not modelled.
- LineClassifier.IsSpeedMatch, LineClassifier.IsCountMatch, LineClassifier.CountAt: `\d` is restricted to ASCII digits; Python's `\d` also matches other Unicode decimal digits, so a speed or a count written in such digits is recognised by the code but not by the model.
- LineClassifier.DigitValue: gives 0 for a non-digit, a case the matcher never produces.
- Tail.ReadLines: splits on '\n' only; universal-newline translation of '\r' and '\r\n' is not modelled.
- Tail.Poll: the file is its decoded text and the cursor a character index. Byte offsets, `tell()` cookies and the bytes dropped by `errors='ignore'` decoding are not modelled.
- The `except` branch of `parse_log_line` is not modelled. The matchers cannot raise on a string, so it never returns None.
- MonitorScenario.PausedScenario: states each poll's lines, their fold and each report, not the equality with `Run` over the two ticks; that connection is the general `RunFoldsLines`, `RunReadsAppended` and `RunSchedulesReports`.
- The `except` branch of the monitoring loop is modelled as a tick whose file is `None`, which changes nothing. An error raised part-way through a batch is not modelled.
