/**
 * Error-location display (`print_line` in scanner.py): the definition
 * file split into lines as Python's file iteration yields them, and the
 * two-row excerpt with a caret under the offending column.
 */
module Lines {
  import Scanner

  // ---------------------------------------------------------------------
  // Lines of a file
  // ---------------------------------------------------------------------

  /** Length of the first line of `s`, its terminating newline included. */
  function FirstLineLength(s: string): (n: nat)
    requires |s| > 0
    ensures 1 <= n <= |s|
    ensures forall k :: 0 <= k < n - 1 ==> s[k] != '\n'
    ensures s[n - 1] == '\n' || n == |s|
  {
    if s[0] == '\n' || |s| == 1 then 1 else 1 + FirstLineLength(s[1..])
  }

  /**
   * The lines of `s` as iterating over the open file yields them: every
   * line but possibly the last ends with its newline, and none is empty.
   */
  function SplitLines(s: string): (r: seq<string>)
    ensures forall k :: 0 <= k < |r| ==> |r[k]| > 0
    decreases |s|
  {
    if |s| == 0 then []
    else
      var n := FirstLineLength(s);
      [s[..n]] + SplitLines(s[n..])
  }

  function Concat(lines: seq<string>): string
  {
    if |lines| == 0 then "" else lines[0] + Concat(lines[1..])
  }

  /** Splitting loses nothing: the lines put back together are the file. */
  lemma {:induction false} SplitLinesConcat(s: string)
    ensures Concat(SplitLines(s)) == s
    decreases |s|
  {
    if |s| > 0 {
      var n := FirstLineLength(s);
      var r := SplitLines(s);
      assert r[1..] == SplitLines(s[n..]);
      SplitLinesConcat(s[n..]);
      assert s[..n] + s[n..] == s;
    }
  }

  /**
   * Every line ends with a newline except possibly the last, and a
   * newline occurs only at the end of a line.
   */
  lemma {:induction false} SplitLinesShape(s: string)
    ensures var r := SplitLines(s);
      && (forall k :: 0 <= k < |r| - 1 ==> r[k][|r[k]| - 1] == '\n')
      && (forall k, j :: 0 <= k < |r| && 0 <= j < |r[k]| - 1 ==> r[k][j] != '\n')
    decreases |s|
  {
    if |s| > 0 {
      var n := FirstLineLength(s);
      var r := SplitLines(s);
      SplitLinesShape(s[n..]);
      assert r[1..] == SplitLines(s[n..]);
      forall k | 1 <= k < |r| ensures r[k] == SplitLines(s[n..])[k - 1] { }
      if |r| > 1 {
        assert |s[n..]| > 0;
        assert r[0][n - 1] == '\n';
      }
    }
  }

  /** Newlines among the first `m` characters, counted across a split at `n`. */
  lemma {:induction false} NewlinesSplit(s: string, n: nat, m: nat)
    requires n <= m <= |s|
    ensures Scanner.Newlines(s, m) == Scanner.Newlines(s, n) + Scanner.Newlines(s[n..], m - n)
    decreases m
  {
    if m > n {
      NewlinesSplit(s, n, m - 1);
      assert s[n..][m - n - 1] == s[m - 1];
    }
  }

  /** After a newline at `n - 1`, line starts are offset by `n`. */
  lemma {:induction false} LineStartSplit(s: string, n: nat, m: nat)
    requires 1 <= n <= m <= |s| && s[n - 1] == '\n'
    ensures Scanner.LineStart(s, m) == n + Scanner.LineStart(s[n..], m - n)
    decreases m
  {
    if m > n {
      assert s[n..][m - n - 1] == s[m - 1];
      if s[m - 1] != '\n' {
        LineStartSplit(s, n, m - 1);
      }
    }
  }

  /** Within the first line no newline has been read yet. */
  lemma {:induction false} FirstLinePosition(s: string, i: nat)
    requires 0 < |s| && i < FirstLineLength(s)
    ensures Scanner.Newlines(s, i) == 0 && Scanner.LineStart(s, i) == 0
    decreases i
  {
    if i > 0 {
      FirstLinePosition(s, i - 1);
    }
  }

  /**
   * The line and column the scanner reports for the character at `i`
   * locate that character in the lines `print_line` iterates over.
   */
  lemma {:induction false} LocateInLines(s: string, i: nat)
    requires i < |s|
    ensures var r := SplitLines(s);
      var ln, cn := Scanner.LineOf(s, i), Scanner.ColOf(s, i);
      && 1 <= ln <= |r| && 1 <= cn <= |r[ln - 1]|
      && r[ln - 1][cn - 1] == s[i]
    decreases |s|
  {
    var n := FirstLineLength(s);
    var r := SplitLines(s);
    if i < n {
      FirstLinePosition(s, i);
    } else {
      var t := s[n..];
      assert s[n - 1] == '\n';
      LocateInLines(t, i - n);
      NewlinesSplit(s, n, i);
      FirstLinePosition(s, n - 1);
      assert Scanner.Newlines(s, n) == 1;
      LineStartSplit(s, n, i);
      assert r[1..] == SplitLines(t);
      assert t[i - n] == s[i];
    }
  }

  // ---------------------------------------------------------------------
  // print_line
  // ---------------------------------------------------------------------

  /** `" " * n` in Python: `n` blanks, none when `n` is not positive. */
  function Spaces(n: int): (r: string)
    ensures |r| == (if n > 0 then n else 0)
    ensures forall k :: 0 <= k < |r| ==> r[k] == ' '
    decreases n
  {
    if n <= 0 then "" else Spaces(n - 1) + " "
  }

  /**
   * The excerpt of `line` shown for column `colnum` and the number of
   * blanks before the caret. Short lines and early columns show the whole
   * line; otherwise 73 characters around the column (or the last 73) are
   * shown behind "...".
   */
  function Layout(line: string, colnum: int): (string, int)
  {
    var size := |line|;
    if colnum < 37 || size < 73 then (line, colnum - 1)
    else if colnum + 37 > size then ("..." + line[size - 73..], colnum - size + 75)
    else ("..." + line[colnum - 36..colnum + 37] + "...\n", 38)
  }

  /**
   * `print_line`: the excerpt of line `linnum`, then blanks and a caret.
   * A short line, or an early column, is printed whole with the caret
   * `colnum - 1` blanks in; past column 36 a line of 73 or more characters
   * is cut to its last 73 characters when the column is within 37 of its
   * end, and otherwise to the 73 characters from `colnum - 36`.
   */
  function PrintLine(s: string, linnum: int, colnum: int): (r: string)
    ensures |r| > 0 && r[|r| - 1] == '^'
    ensures !(1 <= linnum <= |SplitLines(s)|) ==> r == "\n^"
    ensures 1 <= linnum <= |SplitLines(s)| ==>
      var line := SplitLines(s)[linnum - 1];
      && (colnum < 37 || |line| < 73 ==> r == line + Spaces(colnum - 1) + "^")
      && (colnum >= 37 && |line| >= 73 && colnum + 37 > |line| ==>
            r == "..." + line[|line| - 73..] + Spaces(colnum - |line| + 75) + "^")
      && (colnum >= 37 && colnum + 37 <= |line| ==>
            r == "..." + line[colnum - 36..colnum + 37] + "...\n" + Spaces(38) + "^")
  {
    var lines := SplitLines(s);
    if 1 <= linnum <= |lines| then
      var shown := Layout(lines[linnum - 1], colnum);
      var top, blanks := shown.0, shown.1;
      top + Spaces(blanks) + "^"
    else "\n^"
  }

  /**
   * The caret sits under the reported column: the excerpt's character at
   * the caret's offset is `line[colnum - 1]`, and a newline-terminated
   * line yields a newline-terminated excerpt, so the caret row starts a
   * new row. A short line, or an early column, is shown whole with the
   * caret `colnum - 1` blanks in; a long line near its end is shown as its
   * last 73 characters behind "..."; otherwise the 73 characters from
   * `colnum - 36` are shown between "..." and "...", the caret 38 blanks
   * in, and the excerpt is at most 80 characters long.
   */
  lemma CaretUnderColumn(line: string, colnum: int)
    requires 1 <= colnum <= |line|
    ensures var (top, blanks) := Layout(line, colnum);
      && 0 <= blanks < |top| && top[blanks] == line[colnum - 1]
      && (line[|line| - 1] == '\n' ==> top[|top| - 1] == '\n')
      && (colnum < 37 || |line| < 73 ==> top == line && blanks == colnum - 1)
      && (colnum >= 37 && |line| >= 73 && colnum + 37 > |line| ==>
            top == "..." + line[|line| - 73..] && blanks == colnum - |line| + 75)
      && (colnum >= 37 && colnum + 37 <= |line| ==>
            |top| == 80 && top[..76] == "..." + line[colnum - 36..colnum + 37] && blanks == 38)
  {
  }

  /**
   * End to end: for the position the scanner reports for `s[i]`, the
   * output of `print_line` is the excerpt of the line holding `s[i]`,
   * blanks and a caret, with `s[i]` in the excerpt directly above the
   * caret; when the line is printed whole, it is preceded by exactly
   * `ColOf(s, i) - 1` blanks.
   */
  lemma PrintLineShowsCharacter(s: string, i: nat)
    requires i < |s|
    ensures var ln, cn := Scanner.LineOf(s, i), Scanner.ColOf(s, i);
      && 1 <= ln <= |SplitLines(s)| && 1 <= cn <= |SplitLines(s)[ln - 1]|
      && var line := SplitLines(s)[ln - 1];
      && line[cn - 1] == s[i]
      && var shown := Layout(line, cn);
      && PrintLine(s, ln, cn) == shown.0 + Spaces(shown.1) + "^"
      && 0 <= shown.1 < |shown.0| && shown.0[shown.1] == s[i]
      && (cn < 37 || |line| < 73 ==> PrintLine(s, ln, cn) == line + Spaces(cn - 1) + "^")
  {
    LocateInLines(s, i);
    var ln, cn := Scanner.LineOf(s, i), Scanner.ColOf(s, i);
    var line := SplitLines(s)[ln - 1];
    CaretUnderColumn(line, cn);
    var shown := Layout(line, cn);
    assert PrintLine(s, ln, cn) == shown.0 + Spaces(shown.1) + "^";
  }
}
