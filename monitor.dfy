/**
 * `SteamDownloadMonitor`: the object whose fields the monitoring loop updates
 * line by line, its methods, and a functional reference for the loop
 * (`Step`, `Run`) against which `MonitorLogFile` is proved.
 *
 * The environment is supplied as inputs: the installation path (the registry
 * lookup), the logs directory listing, the log file's contents when the loop
 * starts, and for each iteration a `Tick` holding the elapsed times the loop
 * reads and the file's contents when it is opened.
 */
module Monitor {
  import opened Wrappers
  import opened LogLocator
  import opened LineClassifier
  import opened DownloadState
  import opened Tail

  /** One iteration as the environment presents it: the elapsed seconds when
      the loop condition is tested, the file's contents when it is opened (None
      when opening or reading it raises) and the elapsed seconds when the
      report condition is tested. */
  datatype Tick = Tick(now: int, file: Option<string>, later: int)

  /** The loop's variables: the aggregate, `last_position`, `output_counter`
      and the reports printed so far, plus every line read so far (kept for the
      proofs only; the loop itself forgets them). */
  datatype Loop = Loop(state: State, cursor: nat, counter: int, reports: seq<Report>, lines: seq<string>)

  /** `time.time() < end_time and output_counter < duration_minutes`. */
  predicate Continues(l: Loop, t: Tick, durationMinutes: int) {
    t.now < durationMinutes * 60 && l.counter < durationMinutes
  }

  /** `parse_log_line` applied to each line, in order. */
  function ParseAll(lines: seq<string>): (events: seq<LogEvent>)
    ensures |events| == |lines|
    ensures forall k :: 0 <= k < |lines| ==> events[k] == ParseLogLine(lines[k])
  {
    if lines == [] then [] else ParseAll(lines[..|lines| - 1]) + [ParseLogLine(lines[|lines| - 1])]
  }

  /** One pass of the loop body: read the new lines, fold them in, and print a
      report when the elapsed time has reached the next report boundary.  When
      the read raises, nothing changes. */
  function Step(l: Loop, t: Tick, intervalSeconds: int): Loop {
    match t.file
    case None => l
    case Some(contents) =>
      var (newLines, position) := Poll(contents, l.cursor);
      var st := Fold(l.state, ParseAll(newLines));
      if t.later >= l.counter * intervalSeconds then
        Loop(st, position, l.counter + 1, l.reports + [Status(st, l.counter + 1)], l.lines + newLines)
      else
        Loop(st, position, l.counter, l.reports, l.lines + newLines)
  }

  /** The loop, iteration by iteration, until its condition fails or the
      supplied ticks run out. */
  function Run(l: Loop, ticks: seq<Tick>, durationMinutes: int, intervalSeconds: int): Loop
    decreases |ticks|
  {
    if ticks == [] || !Continues(l, ticks[0], durationMinutes) then l
    else Run(Step(l, ticks[0], intervalSeconds), ticks[1..], durationMinutes, intervalSeconds)
  }

  /** The number of iterations `Run` performs. */
  function Executed(l: Loop, ticks: seq<Tick>, durationMinutes: int, intervalSeconds: int): (n: nat)
    ensures n <= |ticks|
    decreases |ticks|
  {
    if ticks == [] || !Continues(l, ticks[0], durationMinutes) then 0
    else 1 + Executed(Step(l, ticks[0], intervalSeconds), ticks[1..], durationMinutes, intervalSeconds)
  }

  // ---------------------------------------------------------------------------
  // Report scheduling
  // ---------------------------------------------------------------------------

  /** An iteration prints at most one report, and the counter counts the reports. */
  lemma StepCountsReports(l: Loop, t: Tick, intervalSeconds: int)
    ensures var l' := Step(l, t, intervalSeconds);
            (l'.counter == l.counter && l'.reports == l.reports)
            || (l'.counter == l.counter + 1 && l'.reports == l.reports + [Status(l'.state, l.counter + 1)])
  {
    if t.file.Some? {
      var (newLines, position) := Poll(t.file.value, l.cursor);
      var st := Fold(l.state, ParseAll(newLines));
      assert Step(l, t, intervalSeconds).state == st;
    }
  }

  /** The reports are numbered 1, 2, 3, ... and there are as many as the counter says. */
  ghost predicate Numbered(l: Loop) {
    |l.reports| == l.counter
    && forall k :: 0 <= k < |l.reports| ==> l.reports[k].minute == k + 1
  }

  /** The loop keeps the numbering, only ever adds reports, and never takes
      the counter past `duration_minutes`. */
  lemma {:induction false} RunSchedulesReports(l: Loop, ticks: seq<Tick>, durationMinutes: int, intervalSeconds: int)
    requires Numbered(l)
    ensures var l' := Run(l, ticks, durationMinutes, intervalSeconds);
            Numbered(l') && l.reports <= l'.reports
            && l'.counter <= if l.counter < durationMinutes then durationMinutes else l.counter
    decreases |ticks|
  {
    if ticks != [] && Continues(l, ticks[0], durationMinutes) {
      var next := Step(l, ticks[0], intervalSeconds);
      StepCountsReports(l, ticks[0], intervalSeconds);
      RunSchedulesReports(next, ticks[1..], durationMinutes, intervalSeconds);
    }
  }

  /** A first iteration that reads the file reports at once: the first
      boundary is `0 * interval_seconds`, which any elapsed time reaches. */
  lemma FirstIterationReports(st: State, start: nat, ticks: seq<Tick>, durationMinutes: int, intervalSeconds: int)
    requires ticks != [] && 0 <= ticks[0].later && ticks[0].now < durationMinutes * 60 && 0 < durationMinutes
    requires ticks[0].file.Some?
    ensures var l' := Run(Loop(st, start, 0, [], []), ticks, durationMinutes, intervalSeconds);
            |l'.reports| >= 1 && l'.reports[0].minute == 1
  {
    var l := Loop(st, start, 0, [], []);
    RunSchedulesReports(Step(l, ticks[0], intervalSeconds), ticks[1..], durationMinutes, intervalSeconds);
  }

  // ---------------------------------------------------------------------------
  // What the loop reads
  // ---------------------------------------------------------------------------

  /** Every successful read in `ticks` sees a file that extends the one seen
      before it: the log is only ever appended to. */
  ghost predicate AppendOnly(seen: string, ticks: seq<Tick>)
    decreases |ticks|
  {
    ticks == [] ||
    match ticks[0].file
    case None => AppendOnly(seen, ticks[1..])
    case Some(c) => seen <= c && AppendOnly(c, ticks[1..])
  }

  /** The file as seen after one tick. */
  function SeenAfter(seen: string, t: Tick): string {
    if t.file.Some? then t.file.value else seen
  }

  /** The file as of the last successful read in `ticks`, or `seen` if none succeeded. */
  function LastRead(seen: string, ticks: seq<Tick>): string
    decreases |ticks|
  {
    if ticks == [] then seen
    else LastRead(SeenAfter(seen, ticks[0]), ticks[1..])
  }

  /** The lines read so far are exactly the text between `start` and the
      cursor, which stands at the end of the file as last seen. */
  ghost predicate ReadExactly(l: Loop, start: nat, seen: string) {
    start <= |seen| && l.cursor == |seen| && Concat(l.lines) == seen[start..]
  }

  /** One iteration on a file that was only appended to reads exactly the
      appended text and moves the cursor to the new end. */
  lemma StepReadsAppended(l: Loop, t: Tick, intervalSeconds: int, start: nat, seen: string)
    requires ReadExactly(l, start, seen)
    requires t.file.Some? ==> seen <= t.file.value
    ensures seen <= SeenAfter(seen, t) && ReadExactly(Step(l, t, intervalSeconds), start, SeenAfter(seen, t))
  {
    if t.file.Some? {
      var (newLines, position) := Poll(t.file.value, l.cursor);
      PollReadsAppended(seen, t.file.value, start);
      ConcatAppend(l.lines, newLines);
    }
  }

  lemma LastReadStep(seen: string, ticks: seq<Tick>, n: nat)
    requires n < |ticks|
    ensures LastRead(seen, ticks[..n + 1]) == LastRead(SeenAfter(seen, ticks[0]), ticks[1..][..n])
  {
    assert ticks[..n + 1][1..] == ticks[1..][..n];
  }

  lemma {:induction false} RunReadsAppended(l: Loop, ticks: seq<Tick>, durationMinutes: int, intervalSeconds: int,
                                            start: nat, seen: string)
    requires ReadExactly(l, start, seen) && AppendOnly(seen, ticks)
    ensures var n := Executed(l, ticks, durationMinutes, intervalSeconds);
            var last := LastRead(seen, ticks[..n]);
            seen <= last && ReadExactly(Run(l, ticks, durationMinutes, intervalSeconds), start, last)
    decreases |ticks|
  {
    if ticks != [] && Continues(l, ticks[0], durationMinutes) {
      var next := Step(l, ticks[0], intervalSeconds);
      var seen' := SeenAfter(seen, ticks[0]);
      StepReadsAppended(l, ticks[0], intervalSeconds, start, seen);
      RunReadsAppended(next, ticks[1..], durationMinutes, intervalSeconds, start, seen');
      LastReadStep(seen, ticks, Executed(next, ticks[1..], durationMinutes, intervalSeconds));
    } else {
      assert ticks[..0] == [];
    }
  }

  /** From the start of monitoring on an append-only log, the lines the loop
      processes are exactly the text appended after the file's initial size,
      up to the end of the file as last read: pre-existing content is never
      processed, nothing is processed twice and nothing appended is skipped. */
  lemma MonitorReadsAppendedText(st: State, initial: string, ticks: seq<Tick>, durationMinutes: int, intervalSeconds: int)
    requires AppendOnly(initial, ticks)
    ensures var l := Loop(st, |initial|, 0, [], []);
            var last := LastRead(initial, ticks[..Executed(l, ticks, durationMinutes, intervalSeconds)]);
            var l' := Run(l, ticks, durationMinutes, intervalSeconds);
            initial <= last && l'.cursor == |last| && Concat(l'.lines) == last[|initial|..]
  {
    RunReadsAppended(Loop(st, |initial|, 0, [], []), ticks, durationMinutes, intervalSeconds, |initial|, initial);
  }

  lemma {:induction false} ParseAllAppend(a: seq<string>, b: seq<string>)
    ensures ParseAll(a + b) == ParseAll(a) + ParseAll(b)
    decreases |b|
  {
    if b != [] {
      var b' := b[..|b| - 1];
      assert (a + b)[..|a + b| - 1] == a + b';
      ParseAllAppend(a, b');
    } else {
      assert a + b == a;
    }
  }

  /** One iteration appends the lines it polls and folds exactly those. */
  lemma StepFoldsBatch(l: Loop, t: Tick, intervalSeconds: int)
    ensures var next := Step(l, t, intervalSeconds);
            l.lines <= next.lines && next.state == Fold(l.state, ParseAll(next.lines[|l.lines|..]))
  {
    if t.file.Some? {
      var (newLines, position) := Poll(t.file.value, l.cursor);
      assert (l.lines + newLines)[|l.lines|..] == newLines;
    } else {
      assert l.lines[|l.lines|..] == [];
    }
  }

  /** The loop only ever adds to the lines read. */
  lemma {:induction false} RunExtendsLines(l: Loop, ticks: seq<Tick>, durationMinutes: int, intervalSeconds: int)
    ensures l.lines <= Run(l, ticks, durationMinutes, intervalSeconds).lines
    decreases |ticks|
  {
    if ticks != [] && Continues(l, ticks[0], durationMinutes) {
      StepFoldsBatch(l, ticks[0], intervalSeconds);
      RunExtendsLines(Step(l, ticks[0], intervalSeconds), ticks[1..], durationMinutes, intervalSeconds);
    }
  }

  /** Folding two batches of lines one after the other is folding their concatenation. */
  lemma FoldBatches(st: State, a: seq<string>, b: seq<string>)
    ensures Fold(Fold(st, ParseAll(a)), ParseAll(b)) == Fold(st, ParseAll(a + b))
  {
    ParseAllAppend(a, b);
    FoldAppend(st, ParseAll(a), ParseAll(b));
  }

  lemma PrefixSuffixes<T>(x: seq<T>, y: seq<T>, z: seq<T>)
    requires x <= y <= z
    ensures z[|x|..] == y[|x|..] + z[|y|..]
  {
  }

  /** The aggregate after the loop is the fold of every line read, in file
      order across all polls. */
  lemma {:induction false} RunFoldsLines(l: Loop, ticks: seq<Tick>, durationMinutes: int, intervalSeconds: int)
    ensures var l' := Run(l, ticks, durationMinutes, intervalSeconds);
            l.lines <= l'.lines && l'.state == Fold(l.state, ParseAll(l'.lines[|l.lines|..]))
    decreases |ticks|
  {
    RunExtendsLines(l, ticks, durationMinutes, intervalSeconds);
    if ticks != [] && Continues(l, ticks[0], durationMinutes) {
      var next := Step(l, ticks[0], intervalSeconds);
      var l' := Run(next, ticks[1..], durationMinutes, intervalSeconds);
      assert Run(l, ticks, durationMinutes, intervalSeconds) == l';
      StepFoldsBatch(l, ticks[0], intervalSeconds);
      RunFoldsLines(next, ticks[1..], durationMinutes, intervalSeconds);
      PrefixSuffixes(l.lines, next.lines, l'.lines);
      FoldBatches(l.state, next.lines[|l.lines|..], l'.lines[|next.lines|..]);
    } else {
      assert l.lines[|l.lines|..] == [];
    }
  }

  // ---------------------------------------------------------------------------
  // The monitor object
  // ---------------------------------------------------------------------------

  class SteamDownloadMonitor {
    var steamPath: Option<string>
    var logFile: Option<string>
    var currentGame: string
    var downloadSpeeds: seq<real>
    var isDownloading: bool

    /** The aggregate fields as one value. */
    function Snapshot(): State
      reads this
    {
      State(currentGame, downloadSpeeds, isDownloading)
    }

    /** `__init__`, with the registry lookup's result passed in. */
    constructor (steamPath: Option<string>)
      ensures this.steamPath == steamPath && logFile.None? && Snapshot() == Initial
    {
      this.steamPath := steamPath;
      logFile := None;
      currentGame := "Unknown";
      downloadSpeeds := [];
      isDownloading := false;
    }

    /** `find_log_file`, with the logs directory's listing passed in (None when
        the directory does not exist).  Returns the chosen entry's name. */
    method FindLogFile(logsDir: Option<seq<Entry>>) returns (r: Option<string>)
      ensures r.None? <==> NoLogFile(steamPath, logsDir)
      ensures r.Some? ==> exists k :: IsLatestLog(logsDir.value, k) && r.value == logsDir.value[k].name
    {
      if NoSteamPath(steamPath) || logsDir.None? {
        return None;
      }
      var listing := logsDir.value;
      var logFiles, origin := CollectLogFiles(listing);
      if logFiles == [] {
        return None;
      }
      var best := LatestIndex(logFiles);
      r := Some(logFiles[best].name);
      var k := origin[best];
      forall m | 0 <= m < |listing| && IsLogName(listing[m].name)
        ensures listing[m].mtime <= listing[k].mtime
        ensures m < k ==> listing[m].mtime < listing[k].mtime
      {
        var j :| 0 <= j < |origin| && origin[j] == m;
        if m < k {
          assert j < best;
        }
      }
      assert IsLatestLog(listing, k);
    }

    /** The loop body for one parsed line: title, speed, pause, complete. */
    method ApplyLine(parsed: LogEvent)
      modifies this
      ensures Snapshot() == Apply(old(Snapshot()), parsed)
      ensures steamPath == old(steamPath) && logFile == old(logFile)
    {
      if parsed.game.Some? && parsed.game.value != "" {
        currentGame := parsed.game.value;
      }
      if parsed.speed.Some? && parsed.speed.value != 0.0 {
        downloadSpeeds := downloadSpeeds + [parsed.speed.value];
        isDownloading := true;
      }
      if parsed.isPaused {
        isDownloading := false;
      }
      if parsed.isComplete {
        isDownloading := false;
      }
    }

    /** The `for line in new_lines` loop: each line parsed and applied in turn. */
    method ProcessLines(newLines: seq<string>)
      modifies this
      ensures Snapshot() == Fold(old(Snapshot()), ParseAll(newLines))
      ensures steamPath == old(steamPath) && logFile == old(logFile)
    {
      for j := 0 to |newLines|
        invariant steamPath == old(steamPath) && logFile == old(logFile)
        invariant Snapshot() == Fold(old(Snapshot()), ParseAll(newLines[..j]))
      {
        ghost var before := ParseAll(newLines[..j]);
        var parsed := ParseLogLine(newLines[j]);
        ApplyLine(parsed);
        assert newLines[..j + 1][..j] == newLines[..j];
        assert ParseAll(newLines[..j + 1]) == before + [parsed];
        assert (before + [parsed])[..j] == before;
      }
      assert newLines[..|newLines|] == newLines;
    }

    /** `print_status`: the report it prints, as values. */
    method PrintStatus(minuteNumber: int) returns (r: Report)
      ensures r == Status(Snapshot(), minuteNumber)
    {
      if isDownloading && |downloadSpeeds| > 0 {
        var window := Window(downloadSpeeds);
        r := Report(minuteNumber, currentGame, Sum(window) / |window| as real, true);
      } else {
        r := Report(minuteNumber, currentGame, 0.0, false);
      }
    }

    /** `monitor_log_file`: find the log, start at its current size, and run
        the loop; returns the reports it prints. */
    method MonitorLogFile(logsDir: Option<seq<Entry>>, initial: string, ticks: seq<Tick>,
                          durationMinutes: int, intervalSeconds: int) returns (reports: seq<Report>)
      modifies this
      ensures steamPath == old(steamPath)
      ensures logFile.None? <==> NoLogFile(steamPath, logsDir)
      ensures logFile.Some? ==> exists k :: IsLatestLog(logsDir.value, k) && logFile.value == logsDir.value[k].name
      ensures logFile.None? ==> reports == [] && Snapshot() == old(Snapshot())
      ensures logFile.Some? ==>
                var l := Run(Loop(old(Snapshot()), |initial|, 0, [], []), ticks, durationMinutes, intervalSeconds);
                Snapshot() == l.state && reports == l.reports
      ensures forall k :: 0 <= k < |reports| ==> reports[k].minute == k + 1
      ensures |reports| <= if durationMinutes < 0 then 0 else durationMinutes
    {
      var found := FindLogFile(logsDir);
      logFile := found;
      reports := [];
      if found.None? {
        return;
      }
      var lastPosition: nat := |initial|;
      var outputCounter := 0;
      ghost var linesRead: seq<string> := [];
      ghost var start := Loop(Snapshot(), lastPosition, 0, [], []);
      var k := 0;
      while k < |ticks| && ticks[k].now < durationMinutes * 60 && outputCounter < durationMinutes
        invariant 0 <= k <= |ticks|
        invariant steamPath == old(steamPath) && logFile == found
        invariant Run(start, ticks, durationMinutes, intervalSeconds)
                  == Run(Loop(Snapshot(), lastPosition, outputCounter, reports, linesRead), ticks[k..],
                         durationMinutes, intervalSeconds)
      {
        var tick := ticks[k];
        if tick.file.Some? {
          var (newLines, position) := Poll(tick.file.value, lastPosition);
          lastPosition := position;
          ProcessLines(newLines);
          if tick.later >= outputCounter * intervalSeconds {
            var report := PrintStatus(outputCounter + 1);
            reports := reports + [report];
            outputCounter := outputCounter + 1;
          }
          linesRead := linesRead + newLines;
        }
        assert ticks[k..][1..] == ticks[k + 1..];
        k := k + 1;
      }
      RunSchedulesReports(start, ticks, durationMinutes, intervalSeconds);
    }
  }
}
