/**
 * Reading what was appended to the log since the last poll: the cursor starts
 * at the file's size, each poll returns the text after the cursor as lines and
 * moves the cursor to the end of the file.
 *
 * File contents are modelled as the decoded text (`seq<char>`) and the cursor
 * as an index into it.
 */
module Tail {

  /** The lines joined back together. */
  function Concat(lines: seq<string>): string {
    if lines == [] then [] else lines[0] + Concat(lines[1..])
  }

  lemma {:induction false} ConcatAppend(a: seq<string>, b: seq<string>)
    ensures Concat(a + b) == Concat(a) + Concat(b)
    decreases |a|
  {
    if a == [] {
      assert a + b == b;
    } else {
      assert (a + b)[1..] == a[1..] + b;
      ConcatAppend(a[1..], b);
    }
  }

  /** The index of the first '\n' at or after `k`, or the end of the text. */
  function LineBreak(t: string, k: nat): (n: nat)
    requires k <= |t|
    ensures k <= n <= |t|
    ensures forall m :: k <= m < n ==> t[m] != '\n'
    ensures n == |t| || t[n] == '\n'
    decreases |t| - k
  {
    if k == |t| || t[k] == '\n' then k else LineBreak(t, k + 1)
  }

  /** `lines` cut `t` into lines as `readlines()` does: joined they give `t`
      back, none is empty, each ends at its only '\n', and only the last may
      lack one. */
  ghost predicate IsLineSplit(t: string, lines: seq<string>) {
    Concat(lines) == t
    && (forall k :: 0 <= k < |lines| ==> lines[k] != [])
    && (forall k :: 0 <= k < |lines| - 1 ==> lines[k][|lines[k]| - 1] == '\n')
    && (forall k, m :: 0 <= k < |lines| && 0 <= m < |lines[k]| - 1 ==> lines[k][m] != '\n')
  }

  /** `f.readlines()`: each line keeps its '\n'; a trailing partial line is a line of its own. */
  function ReadLines(t: string): (lines: seq<string>)
    ensures IsLineSplit(t, lines)
    decreases |t|
  {
    if t == [] then []
    else
      var n := LineBreak(t, 0);
      if n == |t| then [t]
      else
        var rest := ReadLines(t[n + 1..]);
        assert t == t[..n + 1] + t[n + 1..];
        var lines := [t[..n + 1]] + rest;
        assert forall k :: 1 <= k < |lines| ==> lines[k] == rest[k - 1];
        lines
  }

  /** A split into one line: the text has no '\n' before its last character. */
  lemma SingleLineSplit(t: string, lines: seq<string>)
    requires IsLineSplit(t, lines) && |lines| == 1
    ensures lines == ReadLines(t)
  {
    var first := lines[0];
    assert Concat(lines[1..]) == [];
    assert t == first;
    assert forall m :: 0 <= m < |t| - 1 ==> t[m] != '\n';
    var n := LineBreak(t, 0);
    if n < |t| {
      assert n == |t| - 1;
      assert t[..n + 1] == t;
      assert ReadLines(t[n + 1..]) == [];
    }
  }

  /** In a split into several lines, the first line ends at the text's first
      '\n' and the other lines split the rest. */
  lemma FirstLineSplit(t: string, lines: seq<string>)
    requires IsLineSplit(t, lines) && |lines| > 1
    ensures var n := LineBreak(t, 0);
            n < |t| && lines[0] == t[..n + 1] && IsLineSplit(t[n + 1..], lines[1..])
  {
    var first, rest := lines[0], lines[1..];
    assert t == first + Concat(rest);
    assert first[|first| - 1] == '\n';
    forall m | 0 <= m < |first| - 1 ensures t[m] != '\n' { assert t[m] == first[m]; }
    assert t[|first| - 1] == '\n';
    var n := LineBreak(t, 0);
    assert n == |first| - 1;
    assert t[n + 1..] == Concat(rest);
    forall k | 0 <= k < |rest| ensures rest[k] == lines[k + 1] { }
  }

  /** There is only one way to cut a text into lines. */
  lemma {:induction false} LineSplitIsUnique(t: string, lines: seq<string>)
    requires IsLineSplit(t, lines)
    ensures lines == ReadLines(t)
    decreases |t|
  {
    if |lines| == 1 {
      SingleLineSplit(t, lines);
    } else if |lines| > 1 {
      FirstLineSplit(t, lines);
      var n := LineBreak(t, 0);
      LineSplitIsUnique(t[n + 1..], lines[1..]);
      assert lines == [lines[0]] + lines[1..];
    }
  }

  /** One poll: open the file, seek to the cursor, read the remaining lines and
      take the new position.  A cursor past the end of a shrunken file reads
      nothing and stays where it was (there is no clamping). */
  function Poll(contents: string, cursor: nat): (r: (seq<string>, nat))
    ensures cursor <= |contents| ==> IsLineSplit(contents[cursor..], r.0) && r.1 == |contents|
    ensures cursor > |contents| ==> r.0 == [] && r.1 == cursor
  {
    if cursor <= |contents| then (ReadLines(contents[cursor..]), |contents|) else ([], cursor)
  }

  /** When the file only grew since the position `seen` was reached, a poll
      returns exactly the appended text and leaves the cursor at the new end:
      nothing is read twice and nothing is skipped. */
  lemma PollReadsAppended(seen: string, contents: string, start: nat)
    requires start <= |seen| && seen <= contents
    ensures Poll(contents, |seen|).1 == |contents|
    ensures seen[start..] + Concat(Poll(contents, |seen|).0) == contents[start..]
  {
    assert contents[start..] == contents[start..|seen|] + contents[|seen|..];
  }
}
