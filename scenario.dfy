/**
 * A download followed by a pause, from the log text to the printed reports:
 * the monitor starts on an empty log; the first poll finds a title line and
 * two throughput lines, the second poll finds a pause line appended.
 */
module MonitorScenario {
  import opened Wrappers
  import opened Text
  import opened LineClassifier
  import opened ClassifierExamples
  import opened DownloadState
  import opened Tail
  import opened Monitor

  /** The lines of the scenario, as `readlines()` returns them. */
  predicate ScenarioLines(title: string, slow: string, fast: string, pause: string) {
    title == "Downloading Game A (1 of 5)\n" && slow == "5.0 KB/s\n"
    && fast == "10.0 KB/s\n" && pause == "Download paused\n"
  }

  /** The characters the title line lacks: 'y' and 'c' (so neither completion
      literal occurs), 'p' and 'P' (so neither pause literal occurs), and '.'. */
  lemma TitleLacks(s: string)
    requires s == "Downloading Game A (1 of 5)\n"
    ensures forall k :: 0 <= k < |s| ==> s[k] != 'y' && s[k] != 'c' && s[k] != 'p' && s[k] != 'P' && s[k] != '.'
  {
  }

  /** A throughput line lacks 'y', 'c', 'p', 'P' and '('. */
  lemma SpeedLacks(s: string)
    requires s == "5.0 KB/s\n" || s == "10.0 KB/s\n"
    ensures forall k :: 0 <= k < |s| ==> s[k] != 'y' && s[k] != 'c' && s[k] != 'p' && s[k] != 'P' && s[k] != '('
  {
  }

  /** The pause line lacks 'y', 'c', '.' and '('. */
  lemma PauseLacks(s: string)
    requires s == "Download paused\n"
    ensures forall k :: 0 <= k < |s| ==> s[k] != 'y' && s[k] != 'c' && s[k] != '.' && s[k] != '('
  {
  }

  /** The signals `parse_log_line` finds in each of the four lines. */
  lemma TitleLineSignals(s: string)
    requires s == "Downloading Game A (1 of 5)\n"
    ensures var e := ParseLogLine(s);
            e.game == Some("Game A") && e.speed.None? && !e.isPaused && !e.isComplete
  {
    TitleLacks(s);
    TitleExample(s, "\n");
    NoDotNoSpeed(s);
    NoPNotPaused(s);
    NoYcNotComplete(s);
  }

  lemma SpeedLineSignals(s: string, whole: string, v: real)
    requires (s == "5.0 KB/s\n" && whole == "5" && v == 5.0) || (s == "10.0 KB/s\n" && whole == "10" && v == 10.0)
    ensures var e := ParseLogLine(s);
            e.game.None? && e.speed == Some(v) && !e.isPaused && !e.isComplete
  {
    assert s == whole + "." + "0" + " " + "KB/s" + "\n";
    assert AllDigits(whole) && AllDigits("0");
    LeadingSpeed(s, whole, "0", "KB/s", "\n");
    ZeroFraction();
    SpeedLacks(s);
    NoParenNoTitle(s);
    NoPNotPaused(s);
    NoYcNotComplete(s);
  }

  lemma PauseLineSignals(s: string)
    requires s == "Download paused\n"
    ensures var e := ParseLogLine(s);
            e.game.None? && e.speed.None? && e.isPaused && !e.isComplete
  {
    assert s == "Download " + "paused" + "\n";
    PausedInside(s, "Download ", "\n");
    PauseLacks(s);
    NoDotNoSpeed(s);
    NoParenNoTitle(s);
    NoYcNotComplete(s);
  }

  /** `readlines()` of the first poll's text: three lines, each with its '\n'. */
  lemma FirstPollLines(title: string, slow: string, fast: string, pause: string)
    requires ScenarioLines(title, slow, fast, pause)
    ensures ReadLines(title + slow + fast) == [title, slow, fast]
  {
    var lines := [title, slow, fast];
    assert Concat(lines[2..]) == fast;
    assert Concat(lines[1..]) == slow + fast;
    assert IsLineSplit(title + slow + fast, lines);
    LineSplitIsUnique(title + slow + fast, lines);
  }

  lemma SecondPollLines(pause: string)
    requires pause == "Download paused\n"
    ensures ReadLines(pause) == [pause]
  {
    assert IsLineSplit(pause, [pause]);
    LineSplitIsUnique(pause, [pause]);
  }

  /** The signals a parsed line carries. */
  predicate Signals(e: LogEvent, game: Option<string>, speed: Option<real>, paused: bool, complete: bool) {
    e.game == game && e.speed == speed && e.isPaused == paused && e.isComplete == complete
  }

  /** A title line and two throughput lines: the title is taken, both speeds
      are kept and the download counts as running. */
  lemma FoldFirstPoll(events: seq<LogEvent>)
    requires |events| == 3 && Signals(events[0], Some("Game A"), None, false, false)
    requires Signals(events[1], None, Some(5.0), false, false) && Signals(events[2], None, Some(10.0), false, false)
    ensures Fold(Initial, events) == State("Game A", [5.0, 10.0], true)
  {
    assert events[..2][..1] == events[..1] && events[..1][..0] == [];
    assert Fold(Initial, events[..1]) == State("Game A", [], false);
    assert Fold(Initial, events[..2]) == State("Game A", [5.0], true);
  }

  /** A pause line keeps the title and the speeds but stops the download. */
  lemma FoldSecondPoll(events: seq<LogEvent>)
    requires |events| == 1 && Signals(events[0], None, None, true, false)
    ensures Fold(State("Game A", [5.0, 10.0], true), events) == State("Game A", [5.0, 10.0], false)
  {
    assert events[..0] == [];
  }

  /** The first report shows the mean of the two speeds. */
  lemma FirstReport()
    ensures Status(State("Game A", [5.0, 10.0], true), 1) == Report(1, "Game A", 7.5, true)
  {
    assert Window([5.0, 10.0]) == [5.0, 10.0];
    assert Sum([5.0, 10.0]) == 15.0;
  }

  /** The first batch folds to the title, both speeds and a running download. */
  lemma FirstBatch(title: string, slow: string, fast: string)
    requires Signals(ParseLogLine(title), Some("Game A"), None, false, false)
    requires Signals(ParseLogLine(slow), None, Some(5.0), false, false)
    requires Signals(ParseLogLine(fast), None, Some(10.0), false, false)
    ensures Fold(Initial, ParseAll([title, slow, fast])) == State("Game A", [5.0, 10.0], true)
  {
    FoldFirstPoll(ParseAll([title, slow, fast]));
  }

  /** A poll from the start of the file returns its lines and moves to its end. */
  lemma PollFromStart(contents: string, lines: seq<string>)
    requires ReadLines(contents) == lines
    ensures Poll(contents, 0) == (lines, |contents|)
  {
    assert contents[0..] == contents;
  }

  /** A pause line after them keeps the title and the speeds but stops the download. */
  lemma SecondBatch(pause: string)
    requires Signals(ParseLogLine(pause), None, None, true, false)
    ensures Fold(State("Game A", [5.0, 10.0], true), ParseAll([pause])) == State("Game A", [5.0, 10.0], false)
  {
    FoldSecondPoll(ParseAll([pause]));
  }

  /** A poll from the end of what was read before returns exactly the
      appended lines and moves to the new end. */
  lemma PollAppended(first: string, more: string, lines: seq<string>)
    requires ReadLines(more) == lines
    ensures Poll(first + more, |first|) == (lines, |first + more|)
  {
    assert (first + more)[|first|..] == more;
  }

  /** The monitor starts on an empty log.  The first poll, at the start,
      reads the title line and two throughput lines; they fold to the title,
      both speeds and a running download, and the first report shows the mean
      7.5 of the two speeds.  The second poll reads only the pause line
      appended since; it stops the download, so the second report shows 0 and
      "not downloading", although both speeds stay in the list. */
  lemma PausedScenario(title: string, slow: string, fast: string, pause: string)
    requires ScenarioLines(title, slow, fast, pause)
    ensures Poll(title + slow + fast, 0) == ([title, slow, fast], |title + slow + fast|)
    ensures Fold(Initial, ParseAll([title, slow, fast])) == State("Game A", [5.0, 10.0], true)
    ensures Status(State("Game A", [5.0, 10.0], true), 1) == Report(1, "Game A", 7.5, true)
    ensures Poll(title + slow + fast + pause, |title + slow + fast|) == ([pause], |title + slow + fast + pause|)
    ensures Fold(State("Game A", [5.0, 10.0], true), ParseAll([pause])) == State("Game A", [5.0, 10.0], false)
    ensures Status(State("Game A", [5.0, 10.0], false), 2) == Report(2, "Game A", 0.0, false)
  {
    TitleLineSignals(title);
    SpeedLineSignals(slow, "5", 5.0);
    SpeedLineSignals(fast, "10", 10.0);
    PauseLineSignals(pause);
    FirstPollLines(title, slow, fast, pause);
    PollFromStart(title + slow + fast, [title, slow, fast]);
    SecondPollLines(pause);
    PollAppended(title + slow + fast, pause, [pause]);
    FirstBatch(title, slow, fast);
    FirstReport();
    SecondBatch(pause);
  }
}
