/**
 * The aggregate the monitor keeps while it reads the log (`current_game`,
 * `download_speeds`, `is_downloading`), the rules that fold one parsed line
 * into it, and the numbers `print_status` reports from it.
 */
module DownloadState {
  import opened Wrappers
  import opened LineClassifier

  /** The three fields `__init__` creates and the monitoring loop updates. */
  datatype State = State(currentGame: string, downloadSpeeds: seq<real>, isDownloading: bool)

  /** The values `__init__` gives them. */
  const Initial := State("Unknown", [], false)

  /** `if parsed['game']`: a title is present and non-empty (Python truthiness). */
  predicate HasTitle(e: LogEvent) {
    e.game.Some? && e.game.value != ""
  }

  /** `if parsed['speed']`: a speed is present and non-zero (Python truthiness). */
  predicate HasSpeed(e: LogEvent) {
    e.speed.Some? && e.speed.value != 0.0
  }

  /** The line stops the download: it reports a pause or a completed install. */
  predicate Stops(e: LogEvent) {
    e.isPaused || e.isComplete
  }

  /** The line starts (or continues) a download and nothing in it stops it. */
  predicate Starts(e: LogEvent) {
    HasSpeed(e) && !Stops(e)
  }

  /** The loop body for one parsed line: the four rules, applied in the order
      title, speed, pause, complete. */
  function Apply(st: State, e: LogEvent): (r: State)
    ensures r.currentGame == if HasTitle(e) then e.game.value else st.currentGame
    ensures r.downloadSpeeds == st.downloadSpeeds + if HasSpeed(e) then [e.speed.value] else []
    ensures r.isDownloading <==> !Stops(e) && (HasSpeed(e) || st.isDownloading)
  {
    var afterTitle := if HasTitle(e) then st.(currentGame := e.game.value) else st;
    var afterSpeed := if HasSpeed(e)
                      then afterTitle.(downloadSpeeds := afterTitle.downloadSpeeds + [e.speed.value], isDownloading := true)
                      else afterTitle;
    var afterPause := if e.isPaused then afterSpeed.(isDownloading := false) else afterSpeed;
    if e.isComplete then afterPause.(isDownloading := false) else afterPause
  }

  /** The state after applying `events` in order. */
  function Fold(st: State, events: seq<LogEvent>): State
    decreases |events|
  {
    if events == [] then st else Apply(Fold(st, events[..|events| - 1]), events[|events| - 1])
  }

  /** A line with no recognised signal leaves the state exactly as it was. */
  lemma SilentLineChangesNothing(st: State, e: LogEvent)
    requires !HasTitle(e) && !HasSpeed(e) && !Stops(e)
    ensures Apply(st, e) == st
  {
  }

  /** Folding two batches one after the other is folding their concatenation:
      the state does not depend on how the lines were split between polls. */
  lemma {:induction false} FoldAppend(st: State, a: seq<LogEvent>, b: seq<LogEvent>)
    ensures Fold(st, a + b) == Fold(Fold(st, a), b)
    decreases |b|
  {
    if b == [] {
      assert a + b == a;
    } else {
      var last := b[|b| - 1];
      assert (a + b)[..|a + b| - 1] == a + b[..|b| - 1];
      FoldAppend(st, a, b[..|b| - 1]);
    }
  }

  /** The non-zero speeds of `events`, in order. */
  function TruthySpeeds(events: seq<LogEvent>): seq<real> {
    if events == [] then []
    else (if HasSpeed(events[0]) then [events[0].speed.value] else []) + TruthySpeeds(events[1..])
  }

  lemma {:induction false} TruthySpeedsSnoc(events: seq<LogEvent>, e: LogEvent)
    ensures TruthySpeeds(events + [e]) == TruthySpeeds(events) + if HasSpeed(e) then [e.speed.value] else []
    decreases |events|
  {
    if events == [] {
      assert events + [e] == [e];
    } else {
      var first := if HasSpeed(events[0]) then [events[0].speed.value] else [];
      var last := if HasSpeed(e) then [e.speed.value] else [];
      assert (events + [e])[0] == events[0];
      assert (events + [e])[1..] == events[1..] + [e];
      TruthySpeedsSnoc(events[1..], e);
      assert TruthySpeeds(events + [e]) == first + (TruthySpeeds(events[1..]) + last);
    }
  }

  /** The speed list only grows: every non-zero speed is appended, in order,
      and nothing is ever evicted. */
  lemma {:induction false} FoldSpeeds(st: State, events: seq<LogEvent>)
    ensures Fold(st, events).downloadSpeeds == st.downloadSpeeds + TruthySpeeds(events)
    decreases |events|
  {
    if events != [] {
      var init := events[..|events| - 1];
      var e := events[|events| - 1];
      FoldSpeeds(st, init);
      assert events == init + [e];
      TruthySpeedsSnoc(init, e);
    }
  }

  /** Line `k` carries the last non-empty title of the batch. */
  predicate IsLastTitle(events: seq<LogEvent>, k: int) {
    0 <= k < |events| && HasTitle(events[k]) && forall m :: k < m < |events| ==> !HasTitle(events[m])
  }

  /** The current game is unchanged by a batch in which no line carries a non-empty title. */
  lemma {:induction false} FoldKeepsGame(st: State, events: seq<LogEvent>)
    requires forall k :: 0 <= k < |events| ==> !HasTitle(events[k])
    ensures Fold(st, events).currentGame == st.currentGame
    decreases |events|
  {
    if events != [] {
      var n := |events| - 1;
      var init := events[..n];
      assert forall k :: 0 <= k < n ==> init[k] == events[k];
      FoldKeepsGame(st, init);
    }
  }

  /** The current game is the title of the last line that carried a non-empty one. */
  lemma {:induction false} FoldGame(st: State, events: seq<LogEvent>, k: int)
    requires IsLastTitle(events, k)
    ensures Fold(st, events).currentGame == events[k].game.value
    decreases |events|
  {
    var n := |events| - 1;
    if k < n {
      var init := events[..n];
      assert IsLastTitle(init, k) by {
        forall m | k < m < n ensures !HasTitle(init[m]) {
          assert init[m] == events[m];
        }
      }
      FoldGame(st, init, k);
    }
  }

  /** `is_downloading` holds after a batch exactly when some line started a
      download and no later line stopped it, or it held before and no line
      stopped it: the last signal wins and a stop beats a speed on the same line. */
  lemma {:induction false} FoldDownloading(st: State, events: seq<LogEvent>)
    ensures Fold(st, events).isDownloading <==>
              (exists k :: 0 <= k < |events| && Starts(events[k]) && forall m :: k < m < |events| ==> !Stops(events[m]))
              || (st.isDownloading && forall m :: 0 <= m < |events| ==> !Stops(events[m]))
    decreases |events|
  {
    if events != [] {
      var n := |events| - 1;
      var init := events[..n];
      var e := events[n];
      FoldDownloading(st, init);
      assert forall k :: 0 <= k < n ==> init[k] == events[k];
      if Fold(st, events).isDownloading {
        if Starts(e) {
          assert Starts(events[n]);
        }
      } else if Stops(e) {
        assert forall k :: 0 <= k < |events| && Starts(events[k]) ==> exists m :: k < m < |events| && Stops(events[m]) by {
          forall k | 0 <= k < |events| && Starts(events[k]) ensures exists m :: k < m < |events| && Stops(events[m]) {
            assert Stops(events[n]);
          }
        }
      }
    }
  }

  // ---------------------------------------------------------------------------
  // The status report
  // ---------------------------------------------------------------------------

  /** The numbers one `print_status(minute_number)` call shows: the minute
      number, the game, the average speed and whether it says "downloading". */
  datatype Report = Report(minute: int, game: string, averageSpeed: real, downloading: bool)

  /** `speeds[-10:]`: the last ten speeds, or all of them when there are fewer. */
  function Window(speeds: seq<real>): (w: seq<real>)
    ensures |w| == if |speeds| < 10 then |speeds| else 10
    ensures w == speeds[|speeds| - |w|..]
  {
    if |speeds| <= 10 then speeds else speeds[|speeds| - 10..]
  }

  function Sum(xs: seq<real>): real {
    if xs == [] then 0.0 else xs[0] + Sum(xs[1..])
  }

  /** `print_status`: the mean of the window while downloading, 0 otherwise. */
  function Status(st: State, minute: int): (r: Report)
    ensures r.minute == minute && r.game == st.currentGame
    ensures r.downloading <==> st.isDownloading && |st.downloadSpeeds| > 0
    ensures !r.downloading ==> r.averageSpeed == 0.0
  {
    if st.isDownloading && |st.downloadSpeeds| > 0 then
      var w := Window(st.downloadSpeeds);
      Report(minute, st.currentGame, Sum(w) / |w| as real, true)
    else
      Report(minute, st.currentGame, 0.0, false)
  }

  lemma {:induction false} SumBounds(xs: seq<real>, lo: real, hi: real)
    requires forall k :: 0 <= k < |xs| ==> lo <= xs[k] <= hi
    ensures lo * |xs| as real <= Sum(xs) <= hi * |xs| as real
  {
    if xs != [] {
      SumBounds(xs[1..], lo, hi);
      assert |xs| as real == 1.0 + |xs[1..]| as real;
    }
  }

  /** While downloading, the reported speed lies between the smallest and the
      largest of the last ten speeds; in particular it is their common value
      when they are all equal. */
  lemma AverageWithinWindow(st: State, minute: int, lo: real, hi: real)
    requires st.isDownloading && |st.downloadSpeeds| > 0
    requires forall k :: 0 <= k < |Window(st.downloadSpeeds)| ==> lo <= Window(st.downloadSpeeds)[k] <= hi
    ensures lo <= Status(st, minute).averageSpeed <= hi
  {
    var w := Window(st.downloadSpeeds);
    SumBounds(w, lo, hi);
    QuotientBounds(Sum(w), |w| as real, lo, hi);
  }

  lemma QuotientBounds(s: real, n: real, lo: real, hi: real)
    requires n > 0.0 && lo * n <= s <= hi * n
    ensures lo <= s / n <= hi
  {
    assert s / n * n == s;
  }

  /** Speeds older than the last ten never affect the report. */
  lemma OlderSpeedsIgnored(st: State, older: seq<real>, minute: int)
    requires |st.downloadSpeeds| >= 10
    ensures Status(st.(downloadSpeeds := older + st.downloadSpeeds), minute) == Status(st, minute)
  {
    var all := older + st.downloadSpeeds;
    assert all[|all| - 10..] == st.downloadSpeeds[|st.downloadSpeeds| - 10..];
  }
}
