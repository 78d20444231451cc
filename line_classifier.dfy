/**
 * `parse_log_line`: four independent matchers over one log line (throughput,
 * title, paused, complete) combined into one event record.
 *
 * Each regular expression is given twice: as a declarative reading of what it
 * matches (`IsSpeedMatch`, `IsCountMatch`, `IsTitleMatch`) and as the scanner
 * the backtracking engine amounts to (`SpeedAt`, `CountAt`, `TitleAt`).  The
 * lemmas prove the scanners find exactly the match `re.search` reports: the
 * leftmost start, then the longest `\s+`, then the shortest lazy group.
 */
module LineClassifier {
  import opened Wrappers
  import opened Text

  // ---------------------------------------------------------------------------
  // Throughput: (\d+\.\d+)\s*(?:[KM]?B/s)
  // ---------------------------------------------------------------------------

  /** The throughput pattern matches from `i` with its capture group `s[i..j]`:
      digits up to the dot at `d`, digits up to `j`, whitespace up to `w`, an
      optional 'K' or 'M' up to `u`, then "B/s". */
  ghost predicate IsSpeedMatch(s: string, i: int, d: int, j: int, w: int, u: int) {
    0 <= i < d && d + 1 < j && j <= w
    && (u == w || (u == w + 1 && w < |s| && (s[w] == 'K' || s[w] == 'M')))
    && OccursAt(s, "B/s", u)
    && (forall m :: i <= m < d ==> IsDigit(s[m]))
    && s[d] == '.'
    && (forall m :: d < m < j ==> IsDigit(s[m]))
    && (forall m :: j <= m < w ==> IsSpace(s[m]))
  }

  /** The throughput pattern tried at `i`, giving the end of its capture group.
      Every repetition in it is followed by a character it cannot consume, so
      each one takes its maximal run and no backtracking can change the outcome. */
  function SpeedAt(s: string, i: nat): Option<nat>
    requires i <= |s|
  {
    var d := DigitsEnd(s, i);
    if d == i || d == |s| || s[d] != '.' then None
    else
      var j := DigitsEnd(s, d + 1);
      if j == d + 1 then None
      else
        var w := SpacesEnd(s, j);
        var u := if w < |s| && (s[w] == 'K' || s[w] == 'M') then w + 1 else w;
        if OccursAt(s, "B/s", u) then Some(j) else None
  }

  /** Each repetition of a throughput match stops at a character it cannot consume. */
  lemma SpeedMatchStops(s: string, i: int, d: int, j: int, w: int, u: int)
    requires IsSpeedMatch(s, i, d, j, w, u)
    ensures w < |s| && !IsSpace(s[w]) && !IsDigit(s[w])
    ensures j < |s| && !IsDigit(s[j])
    ensures u == if s[w] == 'K' || s[w] == 'M' then w + 1 else w
  {
    assert s[u] == s[u..u + 3][0] == 'B';
    assert '!' <= s[w] <= '~';
    VisibleIsNotSpace(s[w]);
    if j < w && IsDigit(s[j]) {
      DigitIsNotSpace(s[j]);
    }
  }

  /** A throughput match's repetitions are the maximal runs the scanner takes. */
  lemma SpeedMatchRuns(s: string, i: nat, d: int, j: int, w: int, u: int)
    requires IsSpeedMatch(s, i, d, j, w, u)
    ensures d < |s| && DigitsEnd(s, i) == d && s[d] == '.'
    ensures j < |s| && DigitsEnd(s, d + 1) == j && SpacesEnd(s, j) == w
    ensures w < |s| && u == (if s[w] == 'K' || s[w] == 'M' then w + 1 else w) && OccursAt(s, "B/s", u)
  {
    SpeedMatchStops(s, i, d, j, w, u);
    DigitsEndUnique(s, i, d);
    DigitsEndUnique(s, d + 1, j);
    SpacesEndUnique(s, j, w);
  }

  /** Whatever split witnesses a throughput match at `i`, `SpeedAt` finds that match. */
  lemma SpeedMatchIsFound(s: string, i: nat, d: int, j: int, w: int, u: int)
    requires IsSpeedMatch(s, i, d, j, w, u)
    ensures SpeedAt(s, i) == Some(j)
  {
    SpeedMatchRuns(s, i, d, j, w, u);
  }

  /** `SpeedAt` reports a match at `i` exactly when the pattern matches there,
      and the capture group it reports is the only one possible. */
  lemma SpeedAtIsMatch(s: string, i: nat)
    requires i <= |s|
    ensures SpeedAt(s, i).Some? ==> exists d, w, u :: IsSpeedMatch(s, i, d, SpeedAt(s, i).value, w, u)
    ensures forall d, j, w, u :: IsSpeedMatch(s, i, d, j, w, u) ==> SpeedAt(s, i) == Some(j)
  {
    if SpeedAt(s, i).Some? {
      var d := DigitsEnd(s, i);
      var j := DigitsEnd(s, d + 1);
      var w := SpacesEnd(s, j);
      var u := if w < |s| && (s[w] == 'K' || s[w] == 'M') then w + 1 else w;
      assert IsSpeedMatch(s, i, d, j, w, u);
    }
    forall d, j, w, u | IsSpeedMatch(s, i, d, j, w, u)
      ensures SpeedAt(s, i) == Some(j)
    {
      SpeedMatchIsFound(s, i, d, j, w, u);
    }
  }

  /** `re.search` for the throughput pattern from `k` on: the first start that matches. */
  function FindSpeed(s: string, k: nat): (r: Option<(nat, nat)>)
    requires k <= |s|
    ensures r.Some? ==> k <= r.value.0 <= |s| && SpeedAt(s, r.value.0) == Some(r.value.1)
    ensures forall m :: k <= m <= |s| && (r.None? || m < r.value.0) ==> SpeedAt(s, m).None?
    decreases |s| - k
  {
    match SpeedAt(s, k)
    case Some(j) => Some((k, j))
    case None => if k == |s| then None else FindSpeed(s, k + 1)
  }

  predicate AllDigits(t: string) {
    forall k :: 0 <= k < |t| ==> IsDigit(t[k])
  }

  /** The value of one decimal digit (the matcher only ever passes digits). */
  function DigitValue(c: char): nat {
    if IsDigit(c) then c as int - '0' as int else 0
  }

  /** The value of a string of decimal digits. */
  function DigitsValue(t: string): nat {
    if t == [] then 0 else DigitsValue(t[..|t| - 1]) * 10 + DigitValue(t[|t| - 1])
  }

  function Pow10(n: nat): (p: nat)
    ensures p >= 1
  {
    if n == 0 then 1 else 10 * Pow10(n - 1)
  }

  /** Python's `float()` of `whole + "." + frac`, exactly (the binary rounding of a
      double is not modelled). */
  function DecimalValue(whole: string, frac: string): (v: real)
    ensures v >= 0.0
  {
    DigitsValue(whole) as real + DigitsValue(frac) as real / Pow10(|frac|) as real
  }

  /** A string of digits is worth zero exactly when every digit is '0'. */
  lemma {:induction false} DigitsValueZero(t: string)
    requires AllDigits(t)
    ensures DigitsValue(t) == 0 <==> forall k :: 0 <= k < |t| ==> t[k] == '0'
  {
    if t != [] {
      var init := t[..|t| - 1];
      DigitsValueZero(init);
      if DigitsValue(t) == 0 {
        forall k | 0 <= k < |t| ensures t[k] == '0' {
          if k < |t| - 1 { assert t[k] == init[k]; }
        }
      }
    }
  }

  /** A decimal is 0.0 (falsy, so the fold ignores it) exactly when all its digits are '0'. */
  lemma DecimalValueZero(whole: string, frac: string)
    requires AllDigits(whole) && AllDigits(frac)
    ensures DecimalValue(whole, frac) == 0.0
            <==> (forall k :: 0 <= k < |whole| ==> whole[k] == '0')
                 && (forall k :: 0 <= k < |frac| ==> frac[k] == '0')
  {
    DigitsValueZero(whole);
    DigitsValueZero(frac);
    var a, b, p := DigitsValue(whole) as real, DigitsValue(frac) as real, Pow10(|frac|) as real;
    assert b / p >= 0.0;
    assert b / p == 0.0 <==> b == 0.0;
  }

  /** The speed field: `float(group(1))` of the first throughput match. */
  function SpeedOf(line: string): Option<real> {
    match FindSpeed(line, 0)
    case None => None
    case Some((i, j)) =>
      var d := DigitsEnd(line, i);
      Some(DecimalValue(line[i..d], line[d + 1..j]))
  }

  // ---------------------------------------------------------------------------
  // Title: Downloading\s+(.*?)\s+\((\d+)\s+of\s+\d+\)
  // ---------------------------------------------------------------------------

  const Keyword := "Downloading"

  /** The count suffix `\s+\((\d+)\s+of\s+\d+\)` matches from `g`: whitespace up to
      the '(' at `p`, digits up to `q`, whitespace up to "of" at `o`, whitespace up
      to `v`, digits up to the ')' at `x`. */
  ghost predicate IsCountMatch(s: string, g: int, p: int, q: int, o: int, v: int, x: int) {
    0 <= g < p && p + 1 < q && q < o && o + 2 < v && v < x && x < |s|
    && (forall m :: g <= m < p ==> IsSpace(s[m]))
    && s[p] == '('
    && (forall m :: p < m < q ==> IsDigit(s[m]))
    && (forall m :: q <= m < o ==> IsSpace(s[m]))
    && OccursAt(s, "of", o)
    && (forall m :: o + 2 <= m < v ==> IsSpace(s[m]))
    && (forall m :: v <= m < x ==> IsDigit(s[m]))
    && s[x] == ')'
  }

  ghost predicate CountMatches(s: string, g: int) {
    exists p, q, o, v, x :: IsCountMatch(s, g, p, q, o, v, x)
  }

  /** The count suffix tried at `g`; like the throughput pattern, each run is
      followed by a character it cannot consume, so the runs are maximal. */
  function CountAt(s: string, g: nat): bool
    requires g <= |s|
  {
    var p := SpacesEnd(s, g);
    g < p < |s| && s[p] == '(' &&
    var q := DigitsEnd(s, p + 1);
    p + 1 < q &&
    var o := SpacesEnd(s, q);
    q < o && OccursAt(s, "of", o) &&
    var v := SpacesEnd(s, o + 2);
    o + 2 < v &&
    var x := DigitsEnd(s, v);
    v < x < |s| && s[x] == ')'
  }

  /** In a count suffix, the whitespace before '(' and the first number are maximal runs. */
  lemma CountMatchOpening(s: string, g: nat, p: int, q: int, o: int, v: int, x: int)
    requires IsCountMatch(s, g, p, q, o, v, x)
    ensures SpacesEnd(s, g) == p && DigitsEnd(s, p + 1) == q
  {
    SpacesEndUnique(s, g, p);
    if IsDigit(s[q]) { DigitIsNotSpace(s[q]); }
    DigitsEndUnique(s, p + 1, q);
  }

  /** In a count suffix, the whitespace around "of" and the second number are maximal runs. */
  lemma CountMatchClosing(s: string, g: nat, p: int, q: int, o: int, v: int, x: int)
    requires IsCountMatch(s, g, p, q, o, v, x)
    ensures SpacesEnd(s, q) == o && SpacesEnd(s, o + 2) == v && DigitsEnd(s, v) == x
  {
    assert s[o] == s[o..o + 2][0] == 'o';
    SpacesEndUnique(s, q, o);
    DigitIsNotSpace(s[v]);
    SpacesEndUnique(s, o + 2, v);
    DigitsEndUnique(s, v, x);
  }

  /** Whatever split witnesses a count suffix at `g`, `CountAt` finds it. */
  lemma CountMatchIsFound(s: string, g: nat, p: int, q: int, o: int, v: int, x: int)
    requires IsCountMatch(s, g, p, q, o, v, x)
    ensures CountAt(s, g)
  {
    CountMatchOpening(s, g, p, q, o, v, x);
    CountMatchClosing(s, g, p, q, o, v, x);
  }

  /** The runs `CountAt` takes witness a count suffix. */
  lemma CountAtIsWitnessed(s: string, g: nat)
    requires g <= |s| && CountAt(s, g)
    ensures CountMatches(s, g)
  {
    var p := SpacesEnd(s, g);
    var q := DigitsEnd(s, p + 1);
    var o := SpacesEnd(s, q);
    var v := SpacesEnd(s, o + 2);
    var x := DigitsEnd(s, v);
    assert g < p && p + 1 < q && q < o && o + 2 < v && v < x < |s|;
    assert s[p] == '(' && OccursAt(s, "of", o) && s[x] == ')';
    assert IsCountMatch(s, g, p, q, o, v, x);
  }

  /** `CountAt` succeeds exactly where the count suffix matches. */
  lemma CountAtIsMatch(s: string, g: nat)
    requires g <= |s|
    ensures CountAt(s, g) <==> CountMatches(s, g)
  {
    if CountAt(s, g) {
      CountAtIsWitnessed(s, g);
    }
    if CountMatches(s, g) {
      var p, q, o, v, x :| IsCountMatch(s, g, p, q, o, v, x);
      CountMatchIsFound(s, g, p, q, o, v, x);
    }
  }

  /** The title pattern matches from `i` with its capture group `s[a..g]`:
      "Downloading", whitespace up to `a`, a group without '\n' (`.` does not
      match a newline), then the count suffix at `g`. */
  ghost predicate IsTitleMatch(s: string, i: int, a: int, g: int) {
    0 <= i && OccursAt(s, Keyword, i) && i + |Keyword| < a <= g <= |s|
    && (forall m :: i + |Keyword| <= m < a ==> IsSpace(s[m]))
    && (forall m :: a <= m < g ==> s[m] != '\n')
    && CountMatches(s, g)
  }

  /** The match `re.search` reports: the leftmost start, then the longest `\s+`
      (greedy), then the shortest group (lazy). */
  ghost predicate IsChosenTitle(s: string, i: int, a: int, g: int) {
    IsTitleMatch(s, i, a, g)
    && forall i', a', g' :: IsTitleMatch(s, i', a', g') ==>
         i < i' || (i == i' && (a' < a || (a' == a && g <= g')))
  }

  /** The lazy group: the first end at or after `g`, not past a newline, where the count suffix matches. */
  function LazyEnd(s: string, g: nat): (r: Option<nat>)
    requires g <= |s|
    ensures r.Some? ==> g <= r.value <= |s| && forall m :: g <= m < r.value ==> s[m] != '\n'
    decreases |s| - g
  {
    if CountAt(s, g) then Some(g)
    else if g < |s| && s[g] != '\n' then LazyEnd(s, g + 1)
    else None
  }

  /** The count suffix matches where the lazy group ends. */
  lemma {:induction false} LazyEndIsCount(s: string, g: nat)
    requires g <= |s| && LazyEnd(s, g).Some?
    ensures CountAt(s, LazyEnd(s, g).value)
    decreases |s| - g
  {
    if !CountAt(s, g) {
      LazyEndIsCount(s, g + 1);
    }
  }

  /** Any end the count suffix matches at, reachable without crossing a
      newline, is found by `LazyEnd` or preceded by the end it finds. */
  lemma {:induction false} LazyEndIsFirst(s: string, g: nat, m: nat)
    requires g <= m <= |s| && CountAt(s, m)
    requires forall t :: g <= t < m ==> s[t] != '\n'
    ensures LazyEnd(s, g).Some? && LazyEnd(s, g).value <= m
    decreases m - g
  {
    if !CountAt(s, g) {
      LazyEndIsFirst(s, g + 1, m);
    }
  }

  /** The greedy `\s+`: tries the group start from `a` back down to `lo + 1`. */
  function TryStarts(s: string, lo: nat, a: nat): (r: Option<(nat, nat)>)
    requires lo <= a <= |s|
    ensures r.Some? ==> lo < r.value.0 <= a && LazyEnd(s, r.value.0) == Some(r.value.1)
    ensures forall b :: lo < b <= a && (r.None? || r.value.0 < b) ==> LazyEnd(s, b).None?
    decreases a
  {
    if a == lo then None
    else
      match LazyEnd(s, a)
      case Some(g) => Some((a, g))
      case None => TryStarts(s, lo, a - 1)
  }

  /** The title pattern tried at `i`, giving the bounds of its capture group. */
  function TitleAt(s: string, i: nat): Option<(nat, nat)>
    requires i <= |s|
  {
    if OccursAt(s, Keyword, i) then TryStarts(s, i + |Keyword|, SpacesEnd(s, i + |Keyword|)) else None
  }

  /** What `TitleAt` reports is a title match. */
  lemma TitleAtIsMatch(s: string, i: nat)
    requires i <= |s| && TitleAt(s, i).Some?
    ensures IsTitleMatch(s, i, TitleAt(s, i).value.0, TitleAt(s, i).value.1)
  {
    var (a, g) := TitleAt(s, i).value;
    LazyEndIsCount(s, a);
    CountAtIsMatch(s, g);
  }

  /** Every title match at `i` is one `TitleAt` tries no earlier than the one it reports. */
  lemma TitleMatchIsTried(s: string, i: nat, a: int, g: int)
    requires i <= |s| && IsTitleMatch(s, i, a, g)
    ensures TitleAt(s, i).Some?
    ensures a < TitleAt(s, i).value.0 || (a == TitleAt(s, i).value.0 && TitleAt(s, i).value.1 <= g)
  {
    CountAtIsMatch(s, g);
    LazyEndIsFirst(s, a, g);
  }

  /** `TitleAt` reports the longest-whitespace, shortest-group match at `i`, and
      nothing when the pattern cannot match there. */
  lemma TitleAtIsPreferred(s: string, i: nat)
    requires i <= |s|
    ensures TitleAt(s, i).Some? ==>
              var (a, g) := TitleAt(s, i).value;
              IsTitleMatch(s, i, a, g)
              && forall a', g' :: IsTitleMatch(s, i, a', g') ==> a' < a || (a' == a && g <= g')
    ensures TitleAt(s, i).None? ==> forall a, g :: !IsTitleMatch(s, i, a, g)
  {
    if TitleAt(s, i).Some? {
      TitleAtIsMatch(s, i);
    }
    forall a', g' | IsTitleMatch(s, i, a', g')
      ensures TitleAt(s, i).Some?
      ensures a' < TitleAt(s, i).value.0 || (a' == TitleAt(s, i).value.0 && TitleAt(s, i).value.1 <= g')
    {
      TitleMatchIsTried(s, i, a', g');
    }
  }

  /** `re.search` for the title pattern from `k` on: the first start that matches. */
  function FindTitle(s: string, k: nat): (r: Option<(nat, nat, nat)>)
    requires k <= |s|
    ensures r.Some? ==> k <= r.value.0 <= |s| && TitleAt(s, r.value.0) == Some((r.value.1, r.value.2))
    ensures forall m :: k <= m <= |s| && (r.None? || m < r.value.0) ==> TitleAt(s, m).None?
    decreases |s| - k
  {
    match TitleAt(s, k)
    case Some((a, g)) => Some((k, a, g))
    case None => if k == |s| then None else FindTitle(s, k + 1)
  }

  /** The game field: `group(1)` of the first title match. */
  function GameOf(line: string): Option<string> {
    match FindTitle(line, 0)
    case None => None
    case Some((i, a, g)) =>
      assert a <= g <= |line| by { TitleAtIsPreferred(line, i); }
      Some(line[a..g])
  }

  // ---------------------------------------------------------------------------
  // The event record
  // ---------------------------------------------------------------------------

  /** The dictionary `parse_log_line` returns. */
  datatype LogEvent = LogEvent(speed: Option<real>, game: Option<string>, isPaused: bool,
                               isComplete: bool, rawLine: string)

  /** `parse_log_line`: the four matchers run independently over the same line. */
  function ParseLogLine(line: string): LogEvent {
    LogEvent(SpeedOf(line), GameOf(line),
             Contains(line, "paused") || Contains(line, "Paused"),
             Contains(line, "fully installed") || Contains(line, "download complete"),
             Strip(line))
  }

  /** The flags report whether either literal occurs anywhere in the line, and
      the raw line is the line with its surrounding whitespace removed. */
  lemma FlagFields(line: string)
    ensures ParseLogLine(line).isPaused <==> Occurs(line, "paused") || Occurs(line, "Paused")
    ensures ParseLogLine(line).isComplete <==> Occurs(line, "fully installed") || Occurs(line, "download complete")
    ensures exists a: nat :: TrimmedAt(line, ParseLogLine(line).rawLine, a)
  {
  }

  /** A throughput match no other match precedes: `re.search` reports it. */
  ghost predicate IsLeftmostSpeed(s: string, i: int, d: int, j: int, w: int, u: int) {
    IsSpeedMatch(s, i, d, j, w, u)
    && forall i', d', j', w', u' :: IsSpeedMatch(s, i', d', j', w', u') ==> i < i' || (i == i' && j == j')
  }

  /** `FindSpeed` from the start of the line reports the leftmost throughput
      match, and nothing exactly when there is none. */
  lemma FindSpeedIsLeftmost(s: string)
    ensures FindSpeed(s, 0).None? <==> forall i, d, j, w, u :: !IsSpeedMatch(s, i, d, j, w, u)
    ensures FindSpeed(s, 0).Some? ==>
              var (i, j) := FindSpeed(s, 0).value;
              exists d, w, u :: IsLeftmostSpeed(s, i, d, j, w, u)
  {
    var r := FindSpeed(s, 0);
    forall i, d, j, w, u | IsSpeedMatch(s, i, d, j, w, u)
      ensures r.Some? && (r.value.0 < i || (r.value.0 == i && r.value.1 == j))
    {
      SpeedMatchIsFound(s, i, d, j, w, u);
    }
    if r.Some? {
      SpeedAtIsMatch(s, r.value.0);
      var d, w, u :| IsSpeedMatch(s, r.value.0, d, r.value.1, w, u);
      assert IsLeftmostSpeed(s, r.value.0, d, r.value.1, w, u);
    }
  }

  /** The value `SpeedOf` reads from the match `FindSpeed` reports. */
  lemma SpeedOfMatch(line: string, i: nat, d: int, j: nat, w: int, u: int)
    requires FindSpeed(line, 0) == Some((i, j)) && IsSpeedMatch(line, i, d, j, w, u)
    ensures SpeedOf(line) == Some(DecimalValue(line[i..d], line[d + 1..j]))
  {
    DigitsEndUnique(line, i, d);
  }

  /** The speed field is absent exactly when the throughput pattern matches
      nowhere; otherwise it is the exact value of the leftmost match's group,
      whatever unit follows it. */
  lemma SpeedField(line: string)
    ensures SpeedOf(line).None? <==> forall i, d, j, w, u :: !IsSpeedMatch(line, i, d, j, w, u)
    ensures SpeedOf(line).Some? ==>
              exists i, d, j, w, u ::
                IsLeftmostSpeed(line, i, d, j, w, u)
                && SpeedOf(line).value == DecimalValue(line[i..d], line[d + 1..j])
  {
    FindSpeedIsLeftmost(line);
    if FindSpeed(line, 0).Some? {
      var (i, j) := FindSpeed(line, 0).value;
      var d, w, u :| IsLeftmostSpeed(line, i, d, j, w, u);
      SpeedOfMatch(line, i, d, j, w, u);
    }
  }

  /** `FindTitle` from the start of the line reports the match `re.search`
      chooses, and nothing exactly when the title pattern matches nowhere. */
  lemma FindTitleIsChosen(s: string)
    ensures FindTitle(s, 0).None? <==> forall i, a, g :: !IsTitleMatch(s, i, a, g)
    ensures FindTitle(s, 0).Some? ==>
              var (i, a, g) := FindTitle(s, 0).value;
              IsChosenTitle(s, i, a, g)
  {
    var r := FindTitle(s, 0);
    forall i, a, g | IsTitleMatch(s, i, a, g)
      ensures r.Some? && (r.value.0 < i || (r.value.0 == i && (a < r.value.1 || (a == r.value.1 && r.value.2 <= g))))
    {
      TitleAtIsPreferred(s, i);
    }
    if r.Some? {
      TitleAtIsPreferred(s, r.value.0);
    }
  }

  /** The game field is absent exactly when the title pattern matches nowhere;
      otherwise it is the capture group of the match `re.search` reports. */
  lemma GameField(line: string)
    ensures GameOf(line).None? <==> forall i, a, g :: !IsTitleMatch(line, i, a, g)
    ensures GameOf(line).Some? ==>
              exists i, a, g :: IsChosenTitle(line, i, a, g) && GameOf(line).value == line[a..g]
  {
    FindTitleIsChosen(line);
    if GameOf(line).Some? {
      var (i, a, g) := FindTitle(line, 0).value;
      assert IsChosenTitle(line, i, a, g);
    }
  }

  /** A line none of the four patterns recognises yields an empty event carrying the stripped line. */
  lemma UnrecognisedLine(line: string)
    requires forall i, d, j, w, u :: !IsSpeedMatch(line, i, d, j, w, u)
    requires forall i, a, g :: !IsTitleMatch(line, i, a, g)
    requires !Occurs(line, "paused") && !Occurs(line, "Paused")
    requires !Occurs(line, "fully installed") && !Occurs(line, "download complete")
    ensures ParseLogLine(line) == LogEvent(None, None, false, false, Strip(line))
  {
    SpeedField(line);
    GameField(line);
  }
}
