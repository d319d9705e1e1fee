/**
 * The definition-language lexer (scanner.py). The definition file is a
 * character sequence `s`; the scanner's mutable fields become an explicit
 * `LexState`, and every method of the scanner becomes a pure function
 * from a state to the next state.
 */
module Scanner {
  import opened Util
  import Names

  // ---------------------------------------------------------------------
  // Symbols
  // ---------------------------------------------------------------------

  /** The nine symbol types, numbered 0..8 in this order by the scanner. */
  datatype SymbolType =
    | Keyword | DeviceType | Name | Property | Number
    | Colon | SemiColon | Arrow | Period

  /**
   * A symbol: its type (None for an unclassified character), its interned
   * identifier (None after a `-` that does not start `->`), and the line
   * and column of its first character.
   */
  datatype Symbol = Symbol(kind: Option<SymbolType>, id: Option<nat>, line: nat, col: nat)

  // ---------------------------------------------------------------------
  // Reserved words, interned by the constructor in this order
  // ---------------------------------------------------------------------

  const Punctuation: seq<string> := [":", ";", "->", "."]
  const InitialStates: seq<string> := ["OFF", "ON"]
  const ListKeywords: seq<string> := ["DEVICE_LIST", "CONNECTION_LIST", "MONITOR_LIST", "END"]
  const DeviceKeywords: seq<string> :=
    ["AND", "NAND", "OR", "NOR", "XOR", "DTYPE", "CLOCK", "SWITCH", "SIGGEN"]

  /** Every reserved string, at the index it is interned at in a fresh table. */
  const Reserved: seq<string> := [""] + Punctuation + InitialStates + ListKeywords + DeviceKeywords

  const EOF: nat := 0
  const COLON: nat := 1
  const SEMI_COLON: nat := 2
  const ARROW: nat := 3
  const PERIOD: nat := 4
  const OFF: nat := 5
  const ON: nat := 6
  const DEVICE_LIST: nat := 7
  const CONNECTION_LIST: nat := 8
  const MONITOR_LIST: nat := 9
  const END: nat := 10
  const AND: nat := 11
  const NAND: nat := 12
  const OR: nat := 13
  const NOR: nat := 14
  const XOR: nat := 15
  const D_TYPE: nat := 16
  const CLOCK: nat := 17
  const SWITCH: nat := 18
  const SIGGEN: nat := 19

  const KeywordIds: seq<nat> := [DEVICE_LIST, CONNECTION_LIST, MONITOR_LIST, END]
  const DeviceKeywordIds: seq<nat> := [AND, NAND, OR, NOR, XOR, D_TYPE, CLOCK, SWITCH, SIGGEN]
  const InitialStateIds: seq<nat> := [OFF, ON]

  /** The names table once the constructor has interned the reserved words. */
  function InitialNames(): Names.Table
  {
    var t0 := Names.LookupAll([], [""]).1;
    var t1 := Names.LookupAll(t0, Punctuation).1;
    var t2 := Names.LookupAll(t1, InitialStates).1;
    var t3 := Names.LookupAll(t2, ListKeywords).1;
    Names.LookupAll(t3, DeviceKeywords).1
  }

  /** A names table whose first twenty entries are the reserved words. */
  ghost predicate NamesOk(t: Names.Table)
  {
    |t| >= 20 && t[..20] == Reserved && Names.Distinct(t)
  }

  // ---------------------------------------------------------------------
  // Character classes (ASCII subset of Python's str predicates)
  // ---------------------------------------------------------------------

  predicate IsSpace(c: char)
  {
    c == ' ' || (9 <= c as int <= 13) || (28 <= c as int <= 31)
  }

  predicate IsDigit(c: char)
  {
    '0' <= c <= '9'
  }

  predicate IsAlpha(c: char)
  {
    ('a' <= c <= 'z') || ('A' <= c <= 'Z')
  }

  /** Characters that continue a run: digits for a number, letters, digits and `_` for a word. */
  predicate InRun(c: char, word: bool)
  {
    if word then IsAlpha(c) || IsDigit(c) || c == '_' else IsDigit(c)
  }

  // ---------------------------------------------------------------------
  // Positions
  // ---------------------------------------------------------------------

  /** Number of newlines among the first `n` characters. */
  function Newlines(s: string, n: nat): nat
    requires n <= |s|
  {
    if n == 0 then 0 else Newlines(s, n - 1) + (if s[n - 1] == '\n' then 1 else 0)
  }

  /** Index just after the last newline among the first `n` reads (0 if none). */
  function LineStart(s: string, n: nat): (r: nat)
    ensures r <= n
  {
    if n == 0 then 0
    else if n <= |s| && s[n - 1] == '\n' then n
    else LineStart(s, n - 1)
  }

  /** The 1-based line of the character at index `i`. */
  function LineOf(s: string, i: nat): nat
    requires i < |s|
  {
    1 + Newlines(s, i)
  }

  /** The 1-based column of the character at index `i`. */
  function ColOf(s: string, i: nat): nat
    requires i < |s|
  {
    i + 1 - LineStart(s, i)
  }

  // ---------------------------------------------------------------------
  // Scanner state
  // ---------------------------------------------------------------------

  // `comment_switch`: 0 outside comments, 1 in a line comment, 2 in a block comment.
  datatype CommentMode = Plain | LineComment | BlockComment

  /**
   * The scanner's fields: characters read so far (`current_position`),
   * the current character (None once a read returned nothing), the line
   * and column counters, the comment switch and the names table.
   */
  datatype LexState = LexState(
    pos: nat, cur: Option<char>, line: nat, col: nat, mode: CommentMode, names: Names.Table)

  /** Line and column counters agree with the characters read so far. */
  ghost predicate Tracked(s: string, st: LexState)
  {
    && st.line == 1 + Newlines(s, Min(st.pos, |s|))
    && st.col + LineStart(s, st.pos) == st.pos
  }

  /** The invariant every state the scanner reaches satisfies. */
  ghost predicate Valid(s: string, st: LexState)
  {
    && (st.cur.Some? ==> st.pos <= |s|)
    && (st.cur.None? ==> st.pos >= |s|)
    && (st.cur.Some? && st.pos > 0 ==> st.cur.value == s[st.pos - 1])
    && (st.pos == 0 && st.cur.Some? ==> st.cur == Some(' '))
    && Tracked(s, st)
    && NamesOk(st.names)
  }

  /** Between two symbols the comment switch is off unless input is exhausted. */
  ghost predicate Between(s: string, st: LexState)
  {
    Valid(s, st) && (st.cur.Some? ==> st.mode == Plain)
  }

  /** Index of the current character in `s`, or `|s|` once input is exhausted. */
  ghost function Consumed(s: string, st: LexState): nat
  {
    if st.cur.Some? && st.pos >= 1 then st.pos - 1 else |s|
  }

  /** Termination measure: characters still to be read. */
  function Measure(s: string, st: LexState): nat
  {
    if st.cur.None? then 0 else |s| + 2 - Min(st.pos, |s| + 1)
  }

  /**
   * The state of a freshly constructed scanner: current character a
   * space, line 1, column 0, and the reserved words interned
   * (`InitialNames() == Reserved`, lemma InitialNamesReserved).
   */
  function Init(s: string): LexState
  {
    LexState(0, Some(' '), 1, 0, Plain, Reserved)
  }

  /**
   * `get_next_character`: reads one character (nothing at end of input),
   * counts it, and on a newline moves to column 0 of the next line and
   * ends a line comment.
   */
  function Read(s: string, st: LexState): (r: LexState)
    ensures r.pos == st.pos + 1 && r.names == st.names
    ensures r.cur == (if st.pos < |s| then Some(s[st.pos]) else None)
    ensures r.cur == Some('\n') ==> r.line == st.line + 1 && r.col == 0
    ensures r.cur != Some('\n') ==> r.line == st.line && r.col == st.col + 1
    ensures r.mode == (if r.cur == Some('\n') && st.mode == LineComment then Plain else st.mode)
    ensures Valid(s, st) ==> Valid(s, r)
    ensures Valid(s, st) ==> Measure(s, r) <= Measure(s, st)
    ensures Valid(s, st) && st.cur.Some? ==> Measure(s, r) < Measure(s, st)
  {
    var c := if st.pos < |s| then Some(s[st.pos]) else None;
    if c == Some('\n') then
      st.(pos := st.pos + 1, cur := c, line := st.line + 1, col := 0,
          mode := if st.mode == LineComment then Plain else st.mode)
    else
      st.(pos := st.pos + 1, cur := c, col := st.col + 1)
  }

  /**
   * `get_next_non_whitespace_character`: reads until a non-space
   * character, or until the input is exhausted.
   */
  function NextNonSpace(s: string, st: LexState): (r: LexState)
    requires Valid(s, st)
    ensures Valid(s, r) && r.names == st.names && r.pos >= st.pos
    ensures r.cur.None? || !IsSpace(r.cur.value)
    ensures Consumed(s, r) >= Min(st.pos, |s|)
    ensures forall k :: st.pos <= k < Consumed(s, r) ==> IsSpace(s[k])
    ensures Measure(s, r) <= Measure(s, st)
    ensures st.cur.Some? ==> Measure(s, r) < Measure(s, st)
    ensures st.mode != LineComment ==> r.mode == st.mode
    ensures st.mode == LineComment ==> r.mode != BlockComment
    ensures st.mode == LineComment ==>
      (r.mode == Plain <==> exists k :: st.pos <= k < Consumed(s, r) && s[k] == '\n')
    decreases |s| - st.pos
  {
    if st.pos >= |s| then st.(cur := None)
    else
      var a := Read(s, st);
      if IsSpace(a.cur.value) then NextNonSpace(s, a) else a
  }

  // ---------------------------------------------------------------------
  // Comments
  // ---------------------------------------------------------------------

  /**
   * The `while self.comment_switch != 0` loop of `comment_check` as
   * written, and the loop the lexer runs: after a `*` inside a block
   * comment the next character is read and, unless it is `/`, thrown
   * away by the following skip.
   */
  function SkipCommentBodyAsWritten(s: string, st: LexState): (r: LexState)
    requires Valid(s, st)
    ensures Valid(s, r) && r.names == st.names && r.pos >= st.pos
    ensures r.cur.None? || r.mode == Plain
    ensures st.cur.None? || !IsSpace(st.cur.value) ==> r.cur.None? || !IsSpace(r.cur.value)
    ensures Measure(s, r) <= Measure(s, st)
    ensures st.mode == Plain ==> r == st
    decreases Measure(s, st)
  {
    if st.mode == Plain || st.cur.None? then st
    else
      var a :=
        if st.mode == BlockComment && st.cur == Some('*') then
          var b := Read(s, st);
          if b.cur == Some('/') then b.(mode := Plain) else b
        else st;
      SkipCommentBodyAsWritten(s, NextNonSpace(s, a))
  }

  /**
   * The comment loop as evidently intended, with the closing `*` `/`
   * recognised wherever it occurs: a `*` read while looking for the `/`
   * becomes the current character again instead of being discarded.
   * The lexer does not use it; it is the corrected half of the finding
   * about `/***/`.
   */
  function SkipCommentBody(s: string, st: LexState): (r: LexState)
    requires Valid(s, st)
    ensures Valid(s, r) && r.names == st.names && r.pos >= st.pos
    ensures r.cur.None? || r.mode == Plain
    ensures st.cur.None? || !IsSpace(st.cur.value) ==> r.cur.None? || !IsSpace(r.cur.value)
    ensures Measure(s, r) <= Measure(s, st)
    ensures st.mode == Plain ==> r == st
    decreases Measure(s, st)
  {
    if st.mode == Plain || st.cur.None? then st
    else if st.mode == BlockComment && st.cur == Some('*') then
      var a := Read(s, st);
      if a.cur == Some('/') then NextNonSpace(s, a.(mode := Plain))
      else if a.cur == Some('*') then SkipCommentBody(s, a)
      else SkipCommentBody(s, NextNonSpace(s, a))
    else SkipCommentBody(s, NextNonSpace(s, st))
  }

  /**
   * One round of `comment_check` on a `/`: reads the character after it,
   * sets the comment switch from it, skips whitespace and runs the
   * comment loop as written.
   */
  function SkipComment(s: string, st: LexState): (r: LexState)
    requires Valid(s, st) && st.mode == Plain && st.cur == Some('/')
    ensures Valid(s, r) && r.names == st.names && r.pos > st.pos
    ensures r.cur.None? || (r.mode == Plain && !IsSpace(r.cur.value))
    ensures Measure(s, r) < Measure(s, st)
  {
    var a := Read(s, st);
    var mode :=
      if a.cur == Some('/') then LineComment
      else if a.cur == Some('*') then BlockComment
      else a.mode;
    var b := NextNonSpace(s, a.(mode := mode));
    SkipCommentBodyAsWritten(s, b)
  }

  /**
   * `comment_check`: while the current character is `/`, skips the
   * comment it starts (or, after a lone `/`, the character after it) and
   * the whitespace that follows.
   */
  function CommentCheck(s: string, st: LexState): (r: LexState)
    requires Valid(s, st)
    requires st.cur.Some? ==> st.mode == Plain
    ensures Valid(s, r) && r.names == st.names && r.pos >= st.pos
    ensures r.cur != Some('/')
    ensures r.cur.Some? ==> r.mode == Plain
    ensures st.cur != Some('/') ==> r == st
    ensures st.cur == Some('/') ==> r.cur.None? || !IsSpace(r.cur.value)
    ensures Measure(s, r) <= Measure(s, st)
    decreases Measure(s, st)
  {
    if st.cur != Some('/') then st
    else CommentCheck(s, SkipComment(s, st))
  }

  /** Lines 148-151 of `get_symbol`: skip whitespace, then comments. */
  function SkipLayout(s: string, st: LexState): (r: LexState)
    requires Between(s, st) && st.cur.Some?
    ensures Between(s, r) && r.names == st.names && r.pos >= st.pos
    ensures r.cur.None? || (!IsSpace(r.cur.value) && r.cur.value != '/')
    ensures Measure(s, r) <= Measure(s, st)
  {
    var a := if IsSpace(st.cur.value) then NextNonSpace(s, st) else st;
    CommentCheck(s, a)
  }

  // ---------------------------------------------------------------------
  // What the comment loop skips
  // ---------------------------------------------------------------------

  /** A block comment can close at `j`: `*` at `j`, `/` at `j + 1`. */
  ghost predicate CloseAt(s: string, j: int)
  {
    0 <= j && j + 1 < |s| && s[j] == '*' && s[j + 1] == '/'
  }

  /** The index of the first non-space character at or after `p`, or `|s|`. */
  ghost function FirstNonSpace(s: string, p: nat): (m: nat)
    requires p <= |s|
    ensures p <= m <= |s|
    decreases |s| - p
  {
    if p == |s| || !IsSpace(s[p]) then p else FirstNonSpace(s, p + 1)
  }

  lemma {:induction false} FirstNonSpaceIs(s: string, p: nat, q: nat)
    requires p <= q <= |s|
    requires forall k :: p <= k < q ==> IsSpace(s[k])
    requires q == |s| || !IsSpace(s[q])
    ensures FirstNonSpace(s, p) == q
    decreases q - p
  {
    if p < q {
      FirstNonSpaceIs(s, p + 1, q);
    }
  }

  /**
   * The state between symbols whose current character is the one at
   * index `p - 1`: line and column follow from the text alone.
   */
  ghost function PlainAt(s: string, p: nat, names: Names.Table): (r: LexState)
    requires 1 <= p <= |s|
    ensures NamesOk(names) ==> Valid(s, r)
  {
    LexState(p, Some(s[p - 1]), 1 + Newlines(s, p), p - LineStart(s, p), Plain, names)
  }

  /**
   * A state that has skipped only whitespace since index `p` and stopped
   * on a non-space character (or at the end) is the one at the first
   * non-space character at or after `p`.
   */
  lemma Landed(s: string, r: LexState, p: nat)
    requires Valid(s, r) && (r.cur.None? || (r.mode == Plain && !IsSpace(r.cur.value)))
    requires p <= Consumed(s, r)
    requires forall k :: p <= k < Consumed(s, r) ==> IsSpace(s[k])
    ensures var m := FirstNonSpace(s, p);
      && (m == |s| <==> r.cur.None?)
      && (m < |s| ==> r.pos == m + 1 && r.cur == Some(s[m]))
      && (m < |s| ==> r == PlainAt(s, m + 1, r.names))
  {
    if r.cur.Some? {
      assert r.pos >= 1;
    }
    FirstNonSpaceIs(s, p, Consumed(s, r));
  }

  /**
   * One round of `comment_check` from `st` ends exactly at the first
   * non-space character at or after index `p`, or exhausts the input
   * when there is none.
   */
  ghost predicate ResumesAfter(s: string, st: LexState, p: nat)
    requires Valid(s, st) && st.mode == Plain && st.cur == Some('/') && p <= |s|
  {
    var m := FirstNonSpace(s, p);
    && (m == |s| ==> SkipComment(s, st).cur.None?)
    && (m < |s| ==> SkipComment(s, st) == PlainAt(s, m + 1, st.names))
  }

  /**
   * When one round of `comment_check` from `st` lands after index `p`
   * having skipped only whitespace since, it ends at the first non-space
   * character at or after `p`.
   */
  lemma ResumesAt(s: string, st: LexState, p: nat)
    requires Valid(s, st) && st.mode == Plain && st.cur == Some('/')
    requires p <= Consumed(s, SkipComment(s, st))
    requires forall k :: p <= k < Consumed(s, SkipComment(s, st)) ==> IsSpace(s[k])
    ensures ResumesAfter(s, st, p)
  {
    Landed(s, SkipComment(s, st), p);
  }

  /**
   * `comment_check` repeats the round: after a round that ends at the
   * first non-space character at or after `p`, it stops there unless that
   * character is `/` (another comment), and exhausts the input when there
   * is none.
   */
  lemma CommentCheckResumes(s: string, st: LexState, p: nat)
    requires Valid(s, st) && st.mode == Plain && st.cur == Some('/') && p <= |s|
    requires ResumesAfter(s, st, p)
    ensures var m := FirstNonSpace(s, p);
      && (m == |s| ==> CommentCheck(s, st).cur.None?)
      && (m < |s| ==> CommentCheck(s, st) == CommentCheck(s, PlainAt(s, m + 1, st.names)))
      && (m < |s| && s[m] != '/' ==> CommentCheck(s, st) == PlainAt(s, m + 1, st.names))
  {
    var r := SkipComment(s, st);
    var m := FirstNonSpace(s, p);
    if m < |s| && s[m] != '/' {
      assert r.cur == Some(s[m]);
      assert CommentCheck(s, r) == r;
    }
  }

  /**
   * A round of `comment_check` on a line comment whose first newline is
   * at `n` skips everything up to and including the newline and the
   * whitespace after it, and ends on the first non-space character after
   * the newline (lemma CommentCheckResumes: the scan stops there unless
   * that character starts another comment).
   */
  lemma LineCommentSkipped(s: string, st: LexState, n: nat)
    requires Valid(s, st) && st.mode == Plain && st.cur == Some('/')
    requires st.pos < n < |s| && s[st.pos] == '/' && s[n] == '\n'
    requires forall k :: st.pos < k < n ==> s[k] != '\n'
    ensures ResumesAfter(s, st, n + 1)
  {
    LineCommentRound(s, st, n);
    ResumesAt(s, st, n + 1);
  }

  /** The round of `comment_check` of the lemma above, up to where it lands. */
  lemma LineCommentRound(s: string, st: LexState, n: nat)
    requires Valid(s, st) && st.mode == Plain && st.cur == Some('/')
    requires st.pos < n < |s| && s[st.pos] == '/' && s[n] == '\n'
    requires forall k :: st.pos < k < n ==> s[k] != '\n'
    ensures n + 1 <= Consumed(s, SkipComment(s, st))
    ensures forall k :: n + 1 <= k < Consumed(s, SkipComment(s, st)) ==> IsSpace(s[k])
  {
    var a := Read(s, st).(mode := LineComment);
    var b := NextNonSpace(s, a);
    assert SkipComment(s, st) == SkipCommentBodyAsWritten(s, b) == SkipCommentBodyAsWritten(s, a);
    LineCommentEndsAtNewline(s, a, n);
  }

  /**
   * A round of `comment_check` on a block comment closed at `j` with no
   * other `*` inside it skips the comment, its close and the whitespace
   * after it, and ends on the first non-space character after the close.
   */
  lemma BlockCommentSkipped(s: string, st: LexState, j: nat)
    requires Valid(s, st) && st.mode == Plain && st.cur == Some('/')
    requires st.pos < j && CloseAt(s, j) && s[st.pos] == '*'
    requires forall k :: st.pos < k < j ==> s[k] != '*'
    ensures ResumesAfter(s, st, j + 2)
  {
    BlockCommentRound(s, st, j);
    ResumesAt(s, st, j + 2);
  }

  /** The round of `comment_check` of the lemma above, up to where it lands. */
  lemma BlockCommentRound(s: string, st: LexState, j: nat)
    requires Valid(s, st) && st.mode == Plain && st.cur == Some('/')
    requires st.pos < j && CloseAt(s, j) && s[st.pos] == '*'
    requires forall k :: st.pos < k < j ==> s[k] != '*'
    ensures j + 2 <= Consumed(s, SkipComment(s, st))
    ensures forall k :: j + 2 <= k < Consumed(s, SkipComment(s, st)) ==> IsSpace(s[k])
  {
    var a := Read(s, st).(mode := BlockComment);
    var b := NextNonSpace(s, a);
    SkipsNoClose(s, a, b, j);
    BlockCommentStarFree(s, b, j);
    assert SkipComment(s, st) == SkipCommentBodyAsWritten(s, b);
  }

  /**
   * A round of `comment_check` on a `/` followed by any other character
   * skips exactly that character and the whitespace after it, and ends on
   * the next non-space character.
   */
  lemma LoneSlashSkipped(s: string, st: LexState)
    requires Valid(s, st) && st.mode == Plain && st.cur == Some('/')
    requires st.pos < |s| && s[st.pos] != '/' && s[st.pos] != '*'
    ensures ResumesAfter(s, st, st.pos + 1)
  {
    LoneSlashRound(s, st);
    ResumesAt(s, st, st.pos + 1);
  }

  /** The round of `comment_check` of the lemma above, up to where it lands. */
  lemma LoneSlashRound(s: string, st: LexState)
    requires Valid(s, st) && st.mode == Plain && st.cur == Some('/')
    requires st.pos < |s| && s[st.pos] != '/' && s[st.pos] != '*'
    ensures st.pos + 1 <= Consumed(s, SkipComment(s, st))
    ensures forall k :: st.pos + 1 <= k < Consumed(s, SkipComment(s, st)) ==> IsSpace(s[k])
  {
    var a := Read(s, st);
    assert a.(mode := a.mode) == a;
    var b := NextNonSpace(s, a);
    assert SkipCommentBodyAsWritten(s, b) == b;
    assert SkipComment(s, st) == b;
  }

  /**
   * Inside a block comment closed at `j` with no `*` from the current
   * character up to `j`, the as-written loop ends the comment there and
   * stops at the first non-space character after it.
   */
  lemma {:induction false} BlockCommentStarFree(s: string, st: LexState, j: nat)
    requires Valid(s, st) && st.mode == BlockComment && st.cur.Some? && st.pos >= 1
    requires st.pos - 1 <= j && CloseAt(s, j)
    requires forall k :: st.pos - 1 <= k < j ==> s[k] != '*'
    ensures var r := SkipCommentBodyAsWritten(s, st);
      && r.mode == Plain && Consumed(s, r) >= j + 2
      && forall k :: j + 2 <= k < Consumed(s, r) ==> IsSpace(s[k])
    decreases Measure(s, st)
  {
    if st.cur == Some('*') {
      assert st.pos - 1 == j;
      assert Read(s, st).cur == Some('/');
      var a := Read(s, st).(mode := Plain);
      var b := NextNonSpace(s, a);
      assert b.mode == Plain && SkipCommentBodyAsWritten(s, b) == b;
      assert SkipCommentBodyAsWritten(s, st) == SkipCommentBodyAsWritten(s, b);
    } else {
      assert st.pos - 1 != j;
      var b := NextNonSpace(s, st);
      assert SkipCommentBodyAsWritten(s, st) == SkipCommentBodyAsWritten(s, b);
      SkipsNoClose(s, st, b, j);
      assert forall k :: b.pos - 1 <= k < j ==> s[k] != '*';
      BlockCommentStarFree(s, b, j);
    }
  }

  /**
   * The as-written loop never ends a block comment early: it either runs
   * to the end of the input or stops on the whitespace after some `*` `/`
   * at or after the current character.
   */
  lemma {:induction false} AsWrittenEndsOnlyAtClose(s: string, st: LexState)
    requires Valid(s, st) && st.mode == BlockComment
    requires st.cur.Some? ==> st.pos >= 1
    ensures var r := SkipCommentBodyAsWritten(s, st);
      || r.cur.None?
      || exists j ::
           && st.pos - 1 <= j && CloseAt(s, j) && j + 2 <= Consumed(s, r)
           && forall k :: j + 2 <= k < Consumed(s, r) ==> IsSpace(s[k])
    decreases Measure(s, st)
  {
    if st.cur.Some? {
      if st.cur == Some('*') {
        var a := Read(s, st);
        if a.cur == Some('/') {
          var j := st.pos - 1;
          assert CloseAt(s, j);
          var b := NextNonSpace(s, a.(mode := Plain));
          assert SkipCommentBodyAsWritten(s, st) == b;
          assert j + 2 <= Consumed(s, b);
        } else {
          var b := NextNonSpace(s, a);
          assert SkipCommentBodyAsWritten(s, st) == SkipCommentBodyAsWritten(s, b);
          AsWrittenEndsOnlyAtClose(s, b);
        }
      } else {
        var b := NextNonSpace(s, st);
        AsWrittenEndsOnlyAtClose(s, b);
      }
    }
  }

  /**
   * Inside a block comment whose first `*` `/` at or after the current
   * character is at `j`, the corrected loop ends the comment there and
   * stops at the first non-space character after it.
   */
  lemma {:induction false} BlockCommentEndsAtFirstClose(s: string, st: LexState, j: nat)
    requires Valid(s, st) && st.mode == BlockComment && st.cur.Some? && st.pos >= 1
    requires st.pos - 1 <= j && CloseAt(s, j)
    requires forall k :: st.pos - 1 <= k < j ==> !CloseAt(s, k)
    ensures var r := SkipCommentBody(s, st);
      && r.mode == Plain && Consumed(s, r) >= j + 2
      && forall k :: j + 2 <= k < Consumed(s, r) ==> IsSpace(s[k])
    decreases Measure(s, st)
  {
    var i := st.pos - 1;
    if st.cur == Some('*') {
      var a := Read(s, st);
      if a.cur == Some('/') {
        assert CloseAt(s, i);
        var b := NextNonSpace(s, a.(mode := Plain));
        assert SkipCommentBody(s, st) == b;
      } else if a.cur == Some('*') {
        assert !CloseAt(s, i);
        BlockCommentEndsAtFirstClose(s, a, j);
      } else {
        assert !CloseAt(s, i) && s[i + 1] != '*';
        var b := NextNonSpace(s, a);
        SkipsNoClose(s, a, b, j);
        BlockCommentEndsAtFirstClose(s, b, j);
      }
    } else {
      assert !CloseAt(s, i);
      var b := NextNonSpace(s, st);
      SkipsNoClose(s, st, b, j);
      BlockCommentEndsAtFirstClose(s, b, j);
    }
  }

  /** Skipping whitespace inside a block comment cannot pass a closing `*`. */
  lemma SkipsNoClose(s: string, a: LexState, b: LexState, j: nat)
    requires Valid(s, a) && a.mode == BlockComment && a.pos <= j && CloseAt(s, j)
    requires b == NextNonSpace(s, a)
    ensures b.cur.Some? && b.mode == BlockComment && 1 <= b.pos && b.pos - 1 <= j
    ensures Measure(s, b) <= Measure(s, a)
  {
    assert !IsSpace(s[j]);
  }

  /** A block comment with no `*` `/` ahead runs to the end of the input. */
  lemma {:induction false} BlockCommentUnclosed(s: string, st: LexState)
    requires Valid(s, st) && st.mode == BlockComment
    requires st.cur.Some? ==> st.pos >= 1
    requires forall k :: st.pos - 1 <= k < |s| ==> !CloseAt(s, k)
    ensures SkipCommentBodyAsWritten(s, st).cur.None?
    decreases Measure(s, st)
  {
    if st.cur.Some? {
      if st.cur == Some('*') {
        var a := Read(s, st);
        if a.cur != Some('/') {
          var b := NextNonSpace(s, a);
          assert SkipCommentBodyAsWritten(s, st) == SkipCommentBodyAsWritten(s, b);
          BlockCommentUnclosed(s, b);
        } else {
          assert CloseAt(s, st.pos - 1);
        }
      } else {
        BlockCommentUnclosed(s, NextNonSpace(s, st));
      }
    }
  }

  /**
   * Inside a line comment, with the first newline ahead at `n`, the loop
   * ends the comment at that newline and stops at the first non-space
   * character after it.
   */
  lemma {:induction false} LineCommentEndsAtNewline(s: string, st: LexState, n: nat)
    requires Valid(s, st) && st.mode == LineComment && st.cur.Some?
    requires st.pos <= n < |s| && s[n] == '\n'
    requires forall k :: st.pos <= k < n ==> s[k] != '\n'
    ensures var r := SkipCommentBodyAsWritten(s, st);
      && r.mode == Plain && Consumed(s, r) >= n + 1
      && forall k :: n + 1 <= k < Consumed(s, r) ==> IsSpace(s[k])
    decreases Measure(s, st)
  {
    var b := NextNonSpace(s, st);
    if b.mode == Plain {
      var k :| st.pos <= k < Consumed(s, b) && s[k] == '\n';
      assert SkipCommentBodyAsWritten(s, b) == b;
    } else {
      assert !(s[n] == '\n' && st.pos <= n < Consumed(s, b));
      assert b.cur.value == s[b.pos - 1] && b.pos - 1 != n;
      LineCommentEndsAtNewline(s, b, n);
    }
  }

  /**
   * The as-written loop misses a closing star-slash that directly follows
   * another star: on the input slash, three stars, slash, `X`,
   * `comment_check` swallows `X` and the rest of the input, while the
   * corrected loop resumes at `X`. The block-comment state is the one
   * `comment_check` reaches on that input once the comment has been opened.
   */
  lemma StarStarSlashCounterexample()
    ensures var s := "/***/X";
      var st := LexState(3, Some('*'), 1, 3, BlockComment, Reserved);
      && Valid(s, st)
      && SkipCommentBodyAsWritten(s, st).cur.None?
      && SkipCommentBody(s, st).cur == Some('X')
      && CommentCheck(s, LexState(1, Some('/'), 1, 1, Plain, Reserved)).cur.None?
  {
    var s := "/***/X";
    var st := LexState(3, Some('*'), 1, 3, BlockComment, Reserved);
    var st0 := LexState(1, Some('/'), 1, 1, Plain, Reserved);
    assert Valid(s, st0) && Valid(s, st) by {
      InitBetween(s);
      assert Newlines(s, 1) == 0 && LineStart(s, 1) == 0;
      assert Newlines(s, 3) == 0 && LineStart(s, 3) == 0;
    }
    StarStarSlashAsWritten(s, st);
    StarStarSlashCorrected(s, st);
    var a := Read(s, st0).(mode := BlockComment);
    assert NextNonSpace(s, a) == st;
    assert SkipComment(s, st0) == SkipCommentBodyAsWritten(s, st);
  }

  /** The as-written loop on the state of the counterexample runs off the end. */
  lemma StarStarSlashAsWritten(s: string, st: LexState)
    requires s == "/***/X" && st == LexState(3, Some('*'), 1, 3, BlockComment, Reserved)
    requires Valid(s, st)
    ensures SkipCommentBodyAsWritten(s, st).cur.None?
  {
    var a := Read(s, st);
    var b := NextNonSpace(s, a);
    assert b.cur == Some('/') && b.pos == 5;
    var c := NextNonSpace(s, b);
    assert c.cur == Some('X');
    var d := NextNonSpace(s, c);
    assert d.cur.None?;
    assert SkipCommentBodyAsWritten(s, st) == SkipCommentBodyAsWritten(s, b);
    assert SkipCommentBodyAsWritten(s, b) == SkipCommentBodyAsWritten(s, c);
    assert SkipCommentBodyAsWritten(s, c) == d;
  }

  /** The corrected loop on the state of the counterexample resumes at `X`. */
  lemma StarStarSlashCorrected(s: string, st: LexState)
    requires s == "/***/X" && st == LexState(3, Some('*'), 1, 3, BlockComment, Reserved)
    requires Valid(s, st)
    ensures SkipCommentBody(s, st).cur == Some('X')
  {
    var a := Read(s, st);
    var e := Read(s, a);
    assert e.cur == Some('/');
    assert NextNonSpace(s, e.(mode := Plain)).cur == Some('X');
  }

  // ---------------------------------------------------------------------
  // Symbols
  // ---------------------------------------------------------------------

  /** `s[i..j]` is a non-empty run that the character at `j` (if any) does not continue. */
  ghost predicate MaximalRun(s: string, i: int, j: int, word: bool)
  {
    && 0 <= i < j <= |s|
    && (forall k :: i <= k < j ==> InRun(s[k], word))
    && (j == |s| || !InRun(s[j], word))
  }

  /** Where the run starting at index `i` ends: the first index that does not continue it. */
  ghost function RunEnd(s: string, i: nat, word: bool): nat
    requires i <= |s|
    decreases |s| - i
  {
    if i < |s| && InRun(s[i], word) then RunEnd(s, i + 1, word) else i
  }

  /** The run starting at index `i`, character by character. */
  ghost function RunText(s: string, i: nat, word: bool): string
    requires i <= |s|
    decreases |s| - i
  {
    if i < |s| && InRun(s[i], word) then [s[i]] + RunText(s, i + 1, word) else ""
  }

  /** A run that starts with a run character is a maximal slice of `s`, and its text is that slice. */
  lemma {:induction false} RunSlice(s: string, i: nat, word: bool)
    requires i < |s| && InRun(s[i], word)
    ensures MaximalRun(s, i, RunEnd(s, i, word), word)
    ensures RunText(s, i, word) == s[i..RunEnd(s, i, word)]
    decreases |s| - i
  {
    var j := RunEnd(s, i, word);
    if i + 1 < |s| && InRun(s[i + 1], word) {
      RunSlice(s, i + 1, word);
      assert s[i..j] == [s[i]] + s[i + 1..j];
    } else {
      assert RunEnd(s, i + 1, word) == i + 1 && RunText(s, i + 1, word) == "";
      assert j == i + 1;
    }
  }

  /**
   * The digit loop (`word = False`) or the name loop (`word = True`) of
   * `get_symbol`: collects the current character and its successors while
   * they continue the run, so it collects the run starting at the current
   * character and stops just past it.
   */
  function ReadRun(s: string, st: LexState, word: bool): (r: (string, LexState))
    requires Valid(s, st)
    ensures Valid(s, r.1) && r.1.names == st.names && r.1.pos >= st.pos
    ensures st.mode == Plain ==> r.1.mode == Plain
    ensures r.1.cur.None? || !InRun(r.1.cur.value, word)
    ensures Measure(s, r.1) <= Measure(s, st)
    ensures st.cur.Some? && InRun(st.cur.value, word) ==> Measure(s, r.1) < Measure(s, st)
    ensures st.cur.Some? && st.pos > 0 ==>
      r.0 == RunText(s, st.pos - 1, word) && r.1.pos == RunEnd(s, st.pos - 1, word) + 1
    decreases Measure(s, st)
  {
    if st.cur.Some? && InRun(st.cur.value, word) then
      var a := Read(s, st);
      var rest := ReadRun(s, a, word);
      ([st.cur.value] + rest.0, rest.1)
    else ("", st)
  }

  // ---------------------------------------------------------------------
  // Reserved identifiers
  // ---------------------------------------------------------------------

  /** The symbol type of a name, decided by its identifier as `get_symbol` does. */
  function ClassifyId(id: nat): SymbolType
  {
    if id in KeywordIds then Keyword
    else if id in DeviceKeywordIds then DeviceType
    else if id in InitialStateIds then Property
    else Name
  }

  /** The symbol type of a name, decided by its text. */
  function ClassifyWord(w: string): SymbolType
  {
    if w in ListKeywords then Keyword
    else if w in DeviceKeywords then DeviceType
    else if w in InitialStates then Property
    else Name
  }

  lemma ReservedDistinct()
    ensures Names.Distinct(Reserved)
  {
  }

  lemma DistinctSlice(t: seq<string>, a: nat, b: nat)
    requires a <= b <= |t| && Names.Distinct(t)
    ensures Names.Distinct(t[a..b])
  {
    var u := t[a..b];
    forall i, j | 0 <= i < j < |u| ensures u[i] != u[j] {
      assert u[i] == t[a + i] && u[j] == t[a + j];
    }
  }

  /** In a distinct table, the strings after a prefix do not occur in that prefix. */
  lemma PrefixFresh(R: seq<string>, t: seq<string>, ws: seq<string>)
    requires Names.Distinct(R) && |t| + |ws| <= |R|
    requires t == R[..|t|] && ws == R[|t|..|t| + |ws|]
    ensures forall k :: 0 <= k < |ws| ==> ws[k] !in t
  {
    forall k | 0 <= k < |ws| ensures ws[k] !in t {
      assert ws[k] == R[|t| + k];
      forall i | 0 <= i < |t| ensures t[i] != ws[k] {
        assert t[i] == R[i];
      }
    }
  }

  /** The facts about the next `n` strings of a distinct table that LookupAllFresh needs. */
  lemma StageFacts(R: seq<string>, lo: nat, n: nat)
    requires Names.Distinct(R) && lo + n <= |R|
    ensures var t, ws := R[..lo], R[lo..lo + n];
      && Names.Distinct(ws)
      && (forall k :: 0 <= k < |ws| ==> ws[k] !in t)
      && t + ws == R[..lo + n]
  {
    var t, ws := R[..lo], R[lo..lo + n];
    DistinctSlice(R, lo, lo + n);
    PrefixFresh(R, t, ws);
    assert t + ws == R[..lo + n];
  }

  /** Interning the next `n` strings of a distinct table `R` into its prefix appends them. */
  lemma FreshStage(R: seq<string>, lo: nat, n: nat)
    requires Names.Distinct(R) && lo + n <= |R|
    ensures Names.LookupAll(R[..lo], R[lo..lo + n]) == (Names.Range(lo, n), R[..lo + n])
  {
    StageFacts(R, lo, n);
    Names.LookupAllFresh(R[..lo], R[lo..lo + n]);
  }

  /** In a distinct table, the string at `k` occurs in no slice that leaves `k` out. */
  lemma NotInSlice(R: seq<string>, k: nat, a: nat, b: nat)
    requires Names.Distinct(R) && k < |R| && a <= b <= |R| && !(a <= k < b)
    ensures R[k] !in R[a..b]
  {
    forall m | 0 <= m < b - a ensures R[a..b][m] != R[k] {
      assert R[a..b][m] == R[a + m];
    }
  }

  lemma ReservedSlices()
    ensures Reserved[..0] == [] && Reserved[0..1] == [""]
    ensures Reserved[1..5] == Punctuation && Reserved[5..7] == InitialStates
    ensures Reserved[7..11] == ListKeywords && Reserved[11..20] == DeviceKeywords
    ensures Reserved[..20] == Reserved
  {
  }

  lemma RangeLiterals()
    ensures Names.Range(0, 1) == [EOF]
    ensures Names.Range(1, 4) == [COLON, SEMI_COLON, ARROW, PERIOD]
    ensures Names.Range(5, 2) == InitialStateIds
    ensures Names.Range(7, 4) == KeywordIds
    ensures Names.Range(11, 9) == DeviceKeywordIds
  {
    assert Names.Range(1, 0) == [];
    assert Names.Range(0, 1) == [0];
    assert Names.Range(5, 0) == [];
    assert Names.Range(4, 1) == [4];
    assert Names.Range(3, 2) == [3, 4];
    assert Names.Range(2, 3) == [2, 3, 4];
    assert Names.Range(7, 0) == [];
    assert Names.Range(6, 1) == [6];
    assert Names.Range(11, 0) == [];
    assert Names.Range(10, 1) == [10];
    assert Names.Range(9, 2) == [9, 10];
    assert Names.Range(8, 3) == [8, 9, 10];
    assert Names.Range(20, 0) == [];
    assert Names.Range(19, 1) == [19];
    assert Names.Range(18, 2) == [18, 19];
    assert Names.Range(17, 3) == [17, 18, 19];
    assert Names.Range(16, 4) == [16, 17, 18, 19];
    assert Names.Range(15, 5) == [15, 16, 17, 18, 19];
    assert Names.Range(14, 6) == [14, 15, 16, 17, 18, 19];
    assert Names.Range(13, 7) == [13, 14, 15, 16, 17, 18, 19];
    assert Names.Range(12, 8) == [12, 13, 14, 15, 16, 17, 18, 19];
  }

  /**
   * The constructor interns the reserved words into a fresh table in
   * declaration order, so they receive the identifiers 0..19: EOF is 0,
   * the punctuation 1..4, OFF/ON 5..6, the list keywords 7..10 and the
   * device keywords 11..19.
   */
  lemma {:induction false} ReservedIds()
    ensures Names.LookupAll([], [""]) == ([EOF], Reserved[..1])
    ensures Names.LookupAll(Reserved[..1], Punctuation) == ([COLON, SEMI_COLON, ARROW, PERIOD], Reserved[..5])
    ensures Names.LookupAll(Reserved[..5], InitialStates) == (InitialStateIds, Reserved[..7])
    ensures Names.LookupAll(Reserved[..7], ListKeywords) == (KeywordIds, Reserved[..11])
    ensures Names.LookupAll(Reserved[..11], DeviceKeywords) == (DeviceKeywordIds, Reserved)
  {
    ReservedSlices();
    RangeLiterals();
    ReservedDistinct();
    FreshStage(Reserved, 0, 1);
    FreshStage(Reserved, 1, 4);
    FreshStage(Reserved, 5, 2);
    FreshStage(Reserved, 7, 4);
    FreshStage(Reserved, 11, 9);
  }

  /** The constructor's table is exactly the reserved words, in order. */
  lemma InitialNamesReserved()
    ensures InitialNames() == Reserved
  {
    ReservedIds();
  }

  /** The initial scanner state satisfies the scanner invariant. */
  lemma InitBetween(s: string)
    ensures Between(s, Init(s))
  {
    var st := Init(s);
    assert Tracked(s, st) by {
      assert Min(st.pos, |s|) == 0;
      assert Newlines(s, 0) == 0 && LineStart(s, 0) == 0;
    }
    ReservedDistinct();
    ReservedSlices();
  }

  /** Interning keeps the reserved prefix, and a non-empty string never gets the EOF identifier. */
  lemma InternKeepsNames(t: Names.Table, w: string)
    requires NamesOk(t)
    ensures var r := Names.Lookup(t, w); NamesOk(r.1) && (w != "" ==> r.0 != EOF)
  {
    var t1 := Names.Lookup(t, w).1;
    assert t1[..|t|] == t;
    assert t1[..|Reserved|] == t[..|Reserved|];
    assert t1[0] == Reserved[0] == "";
  }

  /** A reserved string keeps the identifier the constructor gave it. */
  lemma InternReserved(t: Names.Table, k: nat)
    requires NamesOk(t) && k < |Reserved|
    ensures Names.Lookup(t, Reserved[k]) == (k, t)
  {
    assert t[k] == Reserved[k];
    var r := Names.Lookup(t, Reserved[k]);
    assert r.1 == t && t[r.0] == t[k];
  }

  /** Any other string gets an identifier past the reserved ones. */
  lemma InternUnreserved(t: Names.Table, w: string)
    requires NamesOk(t) && w !in Reserved
    ensures Names.Lookup(t, w).0 >= |Reserved|
  {
    var t1 := Names.Lookup(t, w).1;
    assert t1[..|t|] == t;
    forall k | 0 <= k < |Reserved| ensures t1[k] != w {
      assert t1[k] == t[k] == Reserved[k];
    }
  }

  /**
   * Ranking by identifier, as `get_symbol` does, agrees with ranking the
   * text: list keyword, then device keyword, then OFF/ON, then a name.
   */
  lemma ClassifyAgrees(t: Names.Table, w: string)
    requires NamesOk(t)
    ensures ClassifyId(Names.Lookup(t, w).0) == ClassifyWord(w)
  {
    ReservedSlices();
    if w in Reserved {
      var k :| 0 <= k < |Reserved| && Reserved[k] == w;
      InternReserved(t, k);
      ReservedClass(k);
    } else {
      InternUnreserved(t, w);
      assert w !in ListKeywords && w !in DeviceKeywords && w !in InitialStates;
    }
  }

  lemma ReservedClass(k: nat)
    requires k < |Reserved|
    ensures ClassifyId(k) == ClassifyWord(Reserved[k])
  {
    if k < 7 {
      ReservedClassUnlisted(k);
    } else if k < 11 {
      ReservedClassListed(k);
    } else {
      ReservedClassDevice(k);
    }
  }

  /** The empty string, the punctuation and OFF/ON are neither list nor device keywords. */
  lemma ReservedClassUnlisted(k: nat)
    requires k < 7
    ensures ClassifyId(k) == ClassifyWord(Reserved[k])
  {
    ReservedDistinct();
    ReservedSlices();
    NotInSlice(Reserved, k, 7, 11);
    NotInSlice(Reserved, k, 11, 20);
    if k < 5 {
      NotInSlice(Reserved, k, 5, 7);
    } else {
      assert Reserved[k] == InitialStates[k - 5];
    }
  }

  lemma ReservedClassListed(k: nat)
    requires 7 <= k < 11
    ensures ClassifyId(k) == ClassifyWord(Reserved[k])
  {
    ReservedSlices();
    assert Reserved[k] == ListKeywords[k - 7];
  }

  lemma ReservedClassDevice(k: nat)
    requires 11 <= k < |Reserved|
    ensures ClassifyId(k) == ClassifyWord(Reserved[k])
  {
    ReservedDistinct();
    ReservedSlices();
    NotInSlice(Reserved, k, 7, 11);
    assert Reserved[k] == DeviceKeywords[k - 11];
  }

  // ---------------------------------------------------------------------
  // get_symbol
  // ---------------------------------------------------------------------

  predicate IsEof(sym: Symbol)
  {
    sym.id == Some(EOF)
  }

  /** A non-empty string of decimal digits. */
  predicate IsDigits(w: string)
  {
    |w| > 0 && forall k :: 0 <= k < |w| ==> IsDigit(w[k])
  }

  /**
   * What the parser may rely on in a symbol: a typed symbol has an
   * identifier, identifiers are interned in `names`, and a NUMBER names a
   * digit string.
   */
  ghost predicate WellFormed(sym: Symbol, names: Names.Table)
  {
    && (sym.kind.Some? ==> sym.id.Some?)
    && (sym.id.Some? ==> sym.id.value < |names|)
    && (sym.kind == Some(Number) ==> sym.id.Some? && sym.id.value < |names| && IsDigits(names[sym.id.value]))
  }

  /** Interning more strings keeps a symbol well formed. */
  lemma WellFormedGrows(sym: Symbol, t: Names.Table, t1: Names.Table)
    requires WellFormed(sym, t) && t <= t1
    ensures WellFormed(sym, t1)
  {
    if sym.id.Some? {
      assert t1[sym.id.value] == t[sym.id.value];
    }
  }

  function EofSymbol(st: LexState): Symbol
  {
    Symbol(None, Some(EOF), st.line, st.col)
  }

  /**
   * When the current character is not whitespace, the line and column
   * counters are exactly the position of that character in `s`.
   */
  lemma {:induction false} CurrentPosition(s: string, t: LexState)
    requires Valid(s, t) && t.cur.Some? && !IsSpace(t.cur.value)
    ensures 1 <= t.pos <= |s|
    ensures t.line == LineOf(s, t.pos - 1) && t.col == ColOf(s, t.pos - 1)
  {
    var i := t.pos - 1;
    assert s[i] != '\n';
    assert Newlines(s, i + 1) == Newlines(s, i);
    assert LineStart(s, i + 1) == LineStart(s, i);
  }

  /** A state with a grown, still consistent names table is still a state between symbols. */
  lemma WithNames(s: string, a: LexState, names: Names.Table)
    requires Between(s, a) && NamesOk(names)
    ensures Between(s, a.(names := names)) && Measure(s, a.(names := names)) == Measure(s, a)
  {
  }

  /** The digit run at a digit is a non-empty digit string. */
  lemma DigitRun(s: string, i: nat)
    requires i < |s| && IsDigit(s[i])
    ensures IsDigits(RunText(s, i, false))
  {
    RunSlice(s, i, false);
    var j := RunEnd(s, i, false);
    forall k | 0 <= k < j - i ensures s[i..j][k] == s[i + k] { }
  }

  /**
   * Interns a symbol's text into the state's names table: the text gets
   * an identifier past EOF, ranked as `get_symbol` ranks it, and nothing
   * but the table changes.
   */
  function Intern(s: string, a: LexState, w: string): (r: (nat, LexState))
    requires Between(s, a) && w != ""
    ensures Between(s, r.1) && Measure(s, r.1) == Measure(s, a)
    ensures r.1 == a.(names := r.1.names) && r.1.pos == a.pos && a.names <= r.1.names
    ensures r.0 != EOF && r.0 < |r.1.names| && r.1.names[r.0] == w
    ensures ClassifyId(r.0) == ClassifyWord(w)
  {
    InternKeepsNames(a.names, w);
    ClassifyAgrees(a.names, w);
    var interned := Names.Lookup(a.names, w);
    WithNames(s, a, interned.1);
    (interned.0, a.(names := interned.1))
  }

  /**
   * The shared part of the digit and letter branches: reads the maximal
   * run at the current character and interns it, returning its
   * identifier and the state after the run.
   */
  function InternRun(s: string, t: LexState, word: bool): (r: (nat, LexState))
    requires Between(s, t) && t.cur.Some? && InRun(t.cur.value, word)
    ensures Between(s, r.1) && Measure(s, r.1) < Measure(s, t) && t.names <= r.1.names
    ensures r.0 != EOF && r.0 < |r.1.names|
    ensures 1 <= t.pos <= |s| && r.1.pos == RunEnd(s, t.pos - 1, word) + 1
    ensures r.1.names[r.0] == RunText(s, t.pos - 1, word)
    ensures ClassifyId(r.0) == ClassifyWord(RunText(s, t.pos - 1, word))
  {
    var run := ReadRun(s, t, word);
    Intern(s, run.1, run.0)
  }

  /** The digit branch of `get_symbol`: the digit run at the current character is one NUMBER symbol. */
  function ScanNumber(s: string, t: LexState): (r: (Symbol, LexState))
    requires Between(s, t) && t.cur.Some? && IsDigit(t.cur.value)
    ensures Between(s, r.1) && Measure(s, r.1) < Measure(s, t) && t.names <= r.1.names
    ensures r.0.kind == Some(Number) && r.0.id.Some? && r.0.id.value != EOF
    ensures WellFormed(r.0, r.1.names)
    ensures r.0.line == t.line && r.0.col == t.col
    ensures 1 <= t.pos <= |s| && r.1.pos == RunEnd(s, t.pos - 1, false) + 1
    ensures r.0.id.value < |r.1.names| && r.1.names[r.0.id.value] == RunText(s, t.pos - 1, false)
  {
    var run := InternRun(s, t, false);
    DigitRun(s, t.pos - 1);
    (Symbol(Some(Number), Some(run.0), t.line, t.col), run.1)
  }

  /**
   * A NUMBER symbol covers a maximal digit run: its text is the slice of
   * the input from its first character to where the next symbol starts.
   */
  lemma ScanNumberMaximal(s: string, t: LexState)
    requires Between(s, t) && t.cur.Some? && IsDigit(t.cur.value)
    ensures var r := ScanNumber(s, t); var i, j := t.pos - 1, r.1.pos - 1;
      && 0 <= i < j <= |s| && r.0.id.Some? && r.0.id.value < |r.1.names|
      && r.1.names[r.0.id.value] == s[i..j]
      && MaximalRun(s, i, j, false)
  {
    var r := ScanNumber(s, t);
    var i, j := t.pos - 1, r.1.pos - 1;
    RunSlice(s, i, false);
    assert j == RunEnd(s, i, false);
    assert MaximalRun(s, i, j, false);
    assert r.1.names[r.0.id.value] == s[i..j];
  }

  /**
   * The letter branch of `get_symbol`: the run of letters, digits and
   * underscores at the current character is one symbol, ranked keyword,
   * device type, OFF/ON, name.
   */
  function ScanWord(s: string, t: LexState): (r: (Symbol, LexState))
    requires Between(s, t) && t.cur.Some? && IsAlpha(t.cur.value)
    ensures Between(s, r.1) && Measure(s, r.1) < Measure(s, t) && t.names <= r.1.names
    ensures r.0.id.Some? && r.0.id.value != EOF
    ensures WellFormed(r.0, r.1.names)
    ensures r.0.line == t.line && r.0.col == t.col
    ensures 1 <= t.pos <= |s| && r.1.pos == RunEnd(s, t.pos - 1, true) + 1
    ensures r.0.id.value < |r.1.names| && r.1.names[r.0.id.value] == RunText(s, t.pos - 1, true)
    ensures r.0.kind == Some(ClassifyWord(RunText(s, t.pos - 1, true)))
  {
    var run := InternRun(s, t, true);
    (Symbol(Some(ClassifyId(run.0)), Some(run.0), t.line, t.col), run.1)
  }

  /**
   * A word symbol covers a maximal run of letters, digits and
   * underscores, and is typed by ranking that slice of the input.
   */
  lemma ScanWordMaximal(s: string, t: LexState)
    requires Between(s, t) && t.cur.Some? && IsAlpha(t.cur.value)
    ensures var r := ScanWord(s, t); var i, j := t.pos - 1, r.1.pos - 1;
      && 0 <= i < j <= |s| && r.0.id.Some? && r.0.id.value < |r.1.names|
      && r.1.names[r.0.id.value] == s[i..j]
      && r.0.kind == Some(ClassifyWord(s[i..j]))
      && MaximalRun(s, i, j, true)
  {
    var r := ScanWord(s, t);
    var i, j := t.pos - 1, r.1.pos - 1;
    RunSlice(s, i, true);
    assert j == RunEnd(s, i, true);
    assert MaximalRun(s, i, j, true);
    assert r.1.names[r.0.id.value] == s[i..j];
    assert r.0.kind == Some(ClassifyWord(s[i..j]));
  }

  /**
   * The punctuation branch of `get_symbol`. `:` `;` `.` are one-character
   * symbols; `-` reads one more character and is an arrow only when that
   * character is `>`, otherwise a symbol with neither type nor identifier;
   * any other character is interned and yields a symbol without a type.
   */
  function ScanOther(s: string, t: LexState): (r: (Symbol, LexState))
    requires Between(s, t) && t.cur.Some? && !IsDigit(t.cur.value) && !IsAlpha(t.cur.value)
    ensures Between(s, r.1) && Measure(s, r.1) < Measure(s, t) && t.names <= r.1.names
    ensures r.0.id != Some(EOF)
    ensures WellFormed(r.0, r.1.names)
    ensures r.0.line == t.line && r.0.col == t.col
    ensures t.cur == Some(':') ==> r.0.kind == Some(Colon) && r.0.id == Some(COLON) && r.1.pos == t.pos + 1
    ensures t.cur == Some(';') ==> r.0.kind == Some(SemiColon) && r.0.id == Some(SEMI_COLON) && r.1.pos == t.pos + 1
    ensures t.cur == Some('.') ==> r.0.kind == Some(Period) && r.0.id == Some(PERIOD) && r.1.pos == t.pos + 1
    ensures t.cur == Some('-') ==> r.1.pos == t.pos + 2
    ensures t.cur == Some('-') && t.pos < |s| && s[t.pos] == '>' ==>
      r.0.kind == Some(Arrow) && r.0.id == Some(ARROW)
    ensures t.cur == Some('-') && !(t.pos < |s| && s[t.pos] == '>') ==>
      r.0.kind.None? && r.0.id.None?
    ensures t.cur.value !in ":;.-" ==>
      && r.0.kind.None? && r.0.id.Some? && r.0.id.value < |r.1.names|
      && r.1.names[r.0.id.value] == [t.cur.value] && r.1.pos == t.pos + 1
  {
    var c := t.cur.value;
    var at := Symbol(None, None, t.line, t.col);
    if c == ':' then (at.(kind := Some(Colon), id := Some(COLON)), Read(s, t))
    else if c == ';' then (at.(kind := Some(SemiColon), id := Some(SEMI_COLON)), Read(s, t))
    else if c == '.' then (at.(kind := Some(Period), id := Some(PERIOD)), Read(s, t))
    else if c == '-' then
      var a := Read(s, t);
      var sym := if a.cur == Some('>') then at.(kind := Some(Arrow), id := Some(ARROW)) else at;
      (sym, Read(s, a))
    else
      var interned := Intern(s, t, [c]);
      (at.(id := Some(interned.0)), Read(s, interned.1))
  }

  /**
   * The symbol `r.0` and the state `r.1` are what `get_symbol` makes of the
   * symbol starting at the current character of `t`, stated by that
   * character's class: it sits at that character's line and column; a
   * digit starts a NUMBER naming the digit run; a letter starts a word
   * naming the run of letters, digits and underscores and ranked by its
   * text; `:` `;` `.` are one-character symbols; `-` takes the next
   * character too and is an arrow only before `>`; any other character
   * is interned on its own and has no type.
   */
  ghost predicate TokenScanned(s: string, t: LexState, r: (Symbol, LexState))
  {
    && t.cur.Some? && 1 <= t.pos <= |s|
    && r.0.line == LineOf(s, t.pos - 1) && r.0.col == ColOf(s, t.pos - 1)
    && r.0.id != Some(EOF) && (r.0.id.Some? ==> r.0.id.value < |r.1.names|)
    && var c, i := t.cur.value, t.pos - 1;
    && (IsDigit(c) ==>
         && r.0.kind == Some(Number) && r.0.id.Some?
         && r.1.names[r.0.id.value] == RunText(s, i, false) && r.1.pos == RunEnd(s, i, false) + 1)
    && (IsAlpha(c) ==>
         && r.0.id.Some? && r.0.kind == Some(ClassifyWord(RunText(s, i, true)))
         && r.1.names[r.0.id.value] == RunText(s, i, true) && r.1.pos == RunEnd(s, i, true) + 1)
    && (c == ':' ==> r.0.kind == Some(Colon) && r.0.id == Some(COLON) && r.1.pos == t.pos + 1)
    && (c == ';' ==> r.0.kind == Some(SemiColon) && r.0.id == Some(SEMI_COLON) && r.1.pos == t.pos + 1)
    && (c == '.' ==> r.0.kind == Some(Period) && r.0.id == Some(PERIOD) && r.1.pos == t.pos + 1)
    && (c == '-' ==>
         && r.1.pos == t.pos + 2
         && if t.pos < |s| && s[t.pos] == '>' then r.0.kind == Some(Arrow) && r.0.id == Some(ARROW)
            else r.0.kind.None? && r.0.id.None?)
    && (!IsDigit(c) && !IsAlpha(c) && c !in ":;.-" ==>
         && r.0.kind.None? && r.0.id.Some?
         && r.1.names[r.0.id.value] == [c] && r.1.pos == t.pos + 1)
  }

  /** Dispatches on the first character of a symbol. */
  function ScanToken(s: string, t: LexState): (r: (Symbol, LexState))
    requires Between(s, t) && t.cur.Some? && !IsSpace(t.cur.value)
    ensures Between(s, r.1) && Measure(s, r.1) < Measure(s, t) && t.names <= r.1.names
    ensures !IsEof(r.0) && WellFormed(r.0, r.1.names)
    ensures 1 <= t.pos <= |s| && r.0.line == LineOf(s, t.pos - 1) && r.0.col == ColOf(s, t.pos - 1)
    ensures TokenScanned(s, t, r)
  {
    CurrentPosition(s, t);
    if IsDigit(t.cur.value) then NumberScanned(s, t); ScanNumber(s, t)
    else if IsAlpha(t.cur.value) then WordScanned(s, t); ScanWord(s, t)
    else OtherScanned(s, t); ScanOther(s, t)
  }

  /** The digit case of `TokenScanned`. */
  lemma NumberScanned(s: string, t: LexState)
    requires Between(s, t) && t.cur.Some? && IsDigit(t.cur.value)
    ensures TokenScanned(s, t, ScanNumber(s, t))
  {
    CurrentPosition(s, t);
  }

  /** The letter case of `TokenScanned`. */
  lemma WordScanned(s: string, t: LexState)
    requires Between(s, t) && t.cur.Some? && IsAlpha(t.cur.value)
    ensures TokenScanned(s, t, ScanWord(s, t))
  {
    CurrentPosition(s, t);
  }

  /** The punctuation and other-character cases of `TokenScanned`. */
  lemma OtherScanned(s: string, t: LexState)
    requires Between(s, t) && t.cur.Some? && !IsSpace(t.cur.value) && !IsDigit(t.cur.value) && !IsAlpha(t.cur.value)
    ensures TokenScanned(s, t, ScanOther(s, t))
  {
    CurrentPosition(s, t);
  }

  /**
   * On the input of the comment finding (slash, three stars, slash, `X`)
   * the first symbol `get_symbol` returns is already EOF: the `X` is lost.
   */
  lemma StarStarSlashFirstSymbol()
    ensures var s := "/***/X"; Between(s, Init(s)) && IsEof(GetSymbol(s, Init(s)).0)
  {
    var s := "/***/X";
    StarStarSlashCounterexample();
    InitBetween(s);
    var st0 := LexState(1, Some('/'), 1, 1, Plain, Reserved);
    assert NextNonSpace(s, Init(s)) == st0;
    assert SkipLayout(s, Init(s)) == CommentCheck(s, st0);
  }

  /**
   * `get_symbol`: skips whitespace and comments and scans one symbol.
   * Once input is exhausted it returns an EOF symbol without a type and
   * leaves the state alone, so every later call returns the same symbol.
   */
  function GetSymbol(s: string, st: LexState): (r: (Symbol, LexState))
    requires Between(s, st)
    ensures Between(s, r.1) && st.names <= r.1.names
    ensures st.cur.None? ==> r == (EofSymbol(st), st)
    ensures IsEof(r.0) ==> r.0 == EofSymbol(r.1) && r.1.cur.None?
    ensures !IsEof(r.0) ==> Measure(s, r.1) < Measure(s, st)
    ensures WellFormed(r.0, r.1.names)
    ensures st.cur.Some? ==> (IsEof(r.0) <==> SkipLayout(s, st).cur.None?)
    ensures !IsEof(r.0) ==> st.cur.Some? && TokenScanned(s, SkipLayout(s, st), r)
  {
    if st.cur.None? then (EofSymbol(st), st)
    else
      var t := SkipLayout(s, st);
      if t.cur.None? then (EofSymbol(t), t) else ScanToken(s, t)
  }

  /** Once `get_symbol` has returned EOF, every later call returns the same EOF symbol. */
  lemma EofRepeats(s: string, st: LexState)
    requires Between(s, st)
    ensures var r := GetSymbol(s, st); IsEof(r.0) ==> GetSymbol(s, r.1) == r
  {
  }

  /** The result of scanning a whole file: its symbols, ending in EOF, and the names table. */
  datatype Scanned = Scanned(symbols: seq<Symbol>, names: Names.Table)

  /**
   * A stream the parser can consume: EOF (without a type) last and
   * nowhere else, and every symbol well formed with respect to the names
   * table.
   */
  ghost predicate SymbolStream(syms: seq<Symbol>, names: Names.Table)
  {
    && |syms| > 0 && IsEof(syms[|syms| - 1]) && syms[|syms| - 1].kind.None?
    && (forall k :: 0 <= k < |syms| - 1 ==> !IsEof(syms[k]))
    && (forall k :: 0 <= k < |syms| ==> WellFormed(syms[k], names))
  }

  /** Calls `get_symbol` until it returns EOF. */
  function SymbolsFrom(s: string, st: LexState): (r: Scanned)
    requires Between(s, st)
    ensures SymbolStream(r.symbols, r.names)
    ensures NamesOk(r.names) && st.names <= r.names
    decreases Measure(s, st)
  {
    var first := GetSymbol(s, st);
    var sym, st1 := first.0, first.1;
    if IsEof(sym) then Scanned([sym], st1.names)
    else
      var rest := SymbolsFrom(s, st1);
      WellFormedGrows(sym, st1.names, rest.names);
      ConsStream(sym, rest.symbols, rest.names);
      Scanned([sym] + rest.symbols, rest.names)
  }

  /** A well-formed non-EOF symbol in front of a stream gives a stream. */
  lemma ConsStream(sym: Symbol, rest: seq<Symbol>, names: Names.Table)
    requires !IsEof(sym) && WellFormed(sym, names) && SymbolStream(rest, names)
    ensures SymbolStream([sym] + rest, names)
  {
    var all := [sym] + rest;
    forall k | 0 <= k < |all| ensures WellFormed(all[k], names) && (k < |all| - 1 ==> !IsEof(all[k])) {
      if k > 0 { assert all[k] == rest[k - 1]; }
    }
  }

  /** The symbol stream the parser consumes: one EOF, at the end. */
  function Tokenize(s: string): (r: Scanned)
    ensures SymbolStream(r.symbols, r.names)
    ensures NamesOk(r.names)
  {
    InitBetween(s);
    SymbolsFrom(s, Init(s))
  }
}
