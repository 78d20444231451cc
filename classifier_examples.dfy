/**
 * Concrete lines run through the classifier: what each pattern extracts, and
 * the inputs on which the patterns deliberately do not fire.
 */
module ClassifierExamples {
  import opened Wrappers
  import opened Text
  import opened LineClassifier

  // ---------------------------------------------------------------------------
  // Throughput
  // ---------------------------------------------------------------------------

  /** A line that starts with a decimal figure, a space and a unit reads as
      that figure's value, whatever the unit and whatever follows. */
  lemma LeadingSpeed(s: string, whole: string, frac: string, unit: string, rest: string)
    requires whole != [] && frac != [] && AllDigits(whole) && AllDigits(frac)
    requires unit == "B/s" || unit == "KB/s" || unit == "MB/s"
    requires s == whole + "." + frac + " " + unit + rest
    ensures SpeedOf(s) == Some(DecimalValue(whole, frac))
  {
    var d := |whole|;
    var j := d + 1 + |frac|;
    var w := j + 1;
    var u := if unit == "B/s" then w else w + 1;
    assert s[..d] == whole && s[d] == '.' && s[d + 1..j] == frac && s[j] == ' ';
    assert s[u..u + 3] == "B/s";
    assert IsSpeedMatch(s, 0, d, j, w, u) by {
      forall m | 0 <= m < d ensures IsDigit(s[m]) { assert s[m] == whole[m]; }
      forall m | d < m < j ensures IsDigit(s[m]) { assert s[m] == frac[m - d - 1]; }
    }
    SpeedMatchIsFound(s, 0, d, j, w, u);
    assert FindSpeed(s, 0) == Some((0, j));
    SpeedOfMatch(s, 0, d, j, w, u);
  }

  /** "12.50 MB/s" reads as 12.5, whatever the unit. */
  lemma ThroughputExample(s: string)
    requires s == "12.50 MB/s"
    ensures SpeedOf(s) == Some(12.5)
  {
    assert s == "12" + "." + "50" + " " + "MB/s" + "";
    assert AllDigits("12") && AllDigits("50");
    LeadingSpeed(s, "12", "50", "MB/s", "");
    TwoDigitFraction();
  }

  /** The figure "12.50" is worth 12.5. */
  lemma TwoDigitFraction()
    ensures DecimalValue("12", "50") == 12.5
  {
    assert "12"[..1] == "1" && "50"[..1] == "5";
    assert DigitsValue("12") == 12 && DigitsValue("50") == 50;
    assert Pow10(2) == 100;
  }

  /** The figures "5.0" and "10.0" are worth 5 and 10. */
  lemma ZeroFraction()
    ensures DecimalValue("5", "0") == 5.0 && DecimalValue("10", "0") == 10.0
  {
    assert "10"[..1] == "1" && "5"[..0] == [];
    assert DigitsValue("0") == 0 && DigitsValue("5") == 5 && DigitsValue("10") == 10;
  }

  /** A line without a decimal point has no throughput figure. */
  lemma NoDotNoSpeed(s: string)
    requires forall k :: 0 <= k < |s| ==> s[k] != '.'
    ensures SpeedOf(s) == None
  {
    SpeedField(s);
  }

  /** A speed without a decimal point is not a throughput figure. */
  lemma WholeNumberSpeedIgnored(s: string)
    requires s == "5 KB/s"
    ensures SpeedOf(s) == None
  {
    NoDotNoSpeed(s);
  }

  // ---------------------------------------------------------------------------
  // Literal flags
  // ---------------------------------------------------------------------------

  /** A literal with a character the line lacks does not occur in it. */
  lemma MissingCharNoOccurrence(s: string, pat: string, i: nat, c: char)
    requires i < |pat| && pat[i] == c && forall k :: 0 <= k < |s| ==> s[k] != c
    ensures !Occurs(s, pat)
  {
    forall k: nat | k + |pat| <= |s|
      ensures !OccursAt(s, pat, k)
    {
      assert s[k..k + |pat|][i] == s[k + i];
    }
  }

  /** A line with neither 'p' nor 'P' is not a pause line. */
  lemma NoPNotPaused(s: string)
    requires forall k :: 0 <= k < |s| ==> s[k] != 'p' && s[k] != 'P'
    ensures !ParseLogLine(s).isPaused
  {
    FlagFields(s);
    MissingCharNoOccurrence(s, "paused", 0, 'p');
    MissingCharNoOccurrence(s, "Paused", 0, 'P');
  }

  /** A line with neither 'y' nor 'c' is not a completion line. */
  lemma NoYcNotComplete(s: string)
    requires forall k :: 0 <= k < |s| ==> s[k] != 'y' && s[k] != 'c'
    ensures !ParseLogLine(s).isComplete
  {
    FlagFields(s);
    MissingCharNoOccurrence(s, "fully installed", 4, 'y');
    MissingCharNoOccurrence(s, "download complete", 9, 'c');
  }

  /** The lower-case literal sets the paused flag wherever it sits in the line. */
  lemma PausedInside(s: string, before: string, after: string)
    requires s == before + "paused" + after
    ensures ParseLogLine(s).isPaused
  {
    FlagFields(s);
    assert s[|before|..|before| + 6] == "paused";
    assert OccursAt(s, "paused", |before|);
  }

  /** As in "Download paused by user". */
  lemma PausedExample(s: string)
    requires s == "Download paused by user"
    ensures ParseLogLine(s).isPaused
  {
    PausedInside(s, "Download ", " by user");
  }

  /** Only "paused" and "Paused" count: the match is case-sensitive. */
  lemma UpperCasePausedIgnored(s: string)
    requires s == "PAUSED"
    ensures !ParseLogLine(s).isPaused
  {
    MissingCharNoOccurrence(s, "paused", 0, 'p');
    MissingCharNoOccurrence(s, "Paused", 1, 'a');
  }

  // ---------------------------------------------------------------------------
  // Title
  // ---------------------------------------------------------------------------

  /** The count suffix cannot start at a character that is not whitespace. */
  lemma NoCountAtVisible(s: string, g: nat)
    requires g < |s| && '!' <= s[g] <= '~'
    ensures !CountMatches(s, g)
  {
    VisibleIsNotSpace(s[g]);
  }

  /** Nor at whitespace followed by a visible character other than '('. */
  lemma NoCountBeforeVisible(s: string, g: nat)
    requires g + 1 < |s| && '!' <= s[g + 1] <= '~' && s[g + 1] != '('
    ensures !CountMatches(s, g)
  {
    VisibleIsNotSpace(s[g + 1]);
  }

  /** Between the keyword and the count, only the space before '(' could
      start the count suffix, and it does, whatever follows the ')'. */
  lemma TitleCountAt(s: string, rest: string, g: nat)
    requires s == "Downloading Game A (1 of 5)" + rest && 12 <= g <= 18
    ensures CountMatches(s, g) <==> g == 18
  {
    if g == 18 {
      assert IsCountMatch(s, 18, 19, 21, 22, 25, 26);
    } else if g == 16 {
      NoCountBeforeVisible(s, g);
    } else {
      NoCountAtVisible(s, g);
    }
  }

  /** The title is the text between the keyword's whitespace and the count,
      without the whitespace before the '(', whatever follows the ')'. */
  lemma TitleExample(s: string, rest: string)
    requires s == "Downloading Game A (1 of 5)" + rest
    ensures GameOf(s) == Some("Game A")
  {
    assert s[12..18] == "Game A";
    assert !IsSpace(s[12]) by { VisibleIsNotSpace(s[12]); }
    TitleCountAt(s, rest, 18);
    assert IsTitleMatch(s, 0, 12, 18);
    GameField(s);
    var i, a, g :| IsChosenTitle(s, i, a, g) && GameOf(s).value == s[a..g];
    assert i == 0 && 12 <= a <= 12 && g <= 18;
    TitleCountAt(s, rest, g);
  }

  /** A line without '(' has no count suffix, hence no title. */
  lemma NoParenNoTitle(s: string)
    requires forall k :: 0 <= k < |s| ==> s[k] != '('
    ensures GameOf(s) == None
  {
    GameField(s);
  }

  /** Without the "(n of m)" suffix there is no title. */
  lemma TitleWithoutCountIgnored(s: string)
    requires s == "Downloading Game A"
    ensures GameOf(s) == None
  {
    NoParenNoTitle(s);
  }
}
