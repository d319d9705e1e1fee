/**
 * The definition-file parser (parse.py). It reads the symbol stream the
 * scanner produces, checks it against the grammar
 *
 *   file       = devicelist connectionlist monitorlist EOF
 *   devicelist = "DEVICE_LIST" ":" { devicetype name [property] ";" } "END"
 *   connection = io "->" io ";"        monitor = io ";"
 *   io         = name [ "." name ]
 *
 * drives the device, network and monitor modules, and recovers from
 * errors by skipping to a stopping symbol. Once the device list or the
 * connection list has failed, the rest of the file is only checked for
 * syntax and nothing more is built.
 */
module Parser {
  import opened Util
  import Scanner
  import Names
  import opened Network

  // ---------------------------------------------------------------------
  // Errors
  // ---------------------------------------------------------------------

  /**
   * The parser's error codes, with the argument `error` receives where it
   * matters (the expected keyword, symbol type or punctuation), and the
   * collaborators' error codes passed through.
   */
  datatype ErrorKind =
    | SyntaxColon
    | KeywordError(keyword: nat)
    | SymbolTypeError(expected: Scanner.SymbolType)
    | NoDevice
    | BadName
    | NotValidName
    | SyntaxError(punctuation: nat)
    | EndError
    | IdentifierPresent
    | UnconnectedInputs
    | NoMonitor
    | NoIdentifier
    | NoEof
    | DeviceFailure(device: DeviceError)
    | NetworkFailure(network: NetworkError)
    | MonitorFailure(monitor: MonitorError)

  /** One entry of `error_messages`: the error and where the offending symbol starts. */
  datatype ErrorEntry = ErrorEntry(kind: ErrorKind, line: nat, col: nat)

  /**
   * Errors that depend on what has been built rather than on the shape of
   * the text; a syntax-only pass never reports them.
   */
  predicate Semantic(k: ErrorKind)
  {
    || k == NoDevice || k == NotValidName || k == IdentifierPresent
    || k == UnconnectedInputs || k == NoMonitor
    || k.DeviceFailure? || k.NetworkFailure? || k.MonitorFailure?
  }

  /** Every error recorded after `st` is one a syntax-only pass may report. */
  ghost predicate NoSemanticErrors(st: ParseState, r: ParseState)
  {
    |st.errors| <= |r.errors| && forall e :: e in NewErrors(st, r) ==> !Semantic(e.kind)
  }

  /** The identifiers error recovery skips to: EOF always, then by error. */
  function StopSet(kind: ErrorKind): (r: set<nat>)
    ensures Scanner.EOF in r
  {
    match kind
    case NoEof => {Scanner.EOF}
    case UnconnectedInputs => {Scanner.EOF}
    case NoMonitor => {Scanner.EOF}
    case KeywordError(_) => {Scanner.EOF, Scanner.END}
    case SyntaxColon => {Scanner.EOF, Scanner.END}
    case EndError =>
      {Scanner.EOF, Scanner.DEVICE_LIST, Scanner.CONNECTION_LIST, Scanner.MONITOR_LIST, Scanner.END}
    case _ => {Scanner.EOF, Scanner.SEMI_COLON, Scanner.END}
  }

  predicate InStop(id: Option<nat>, stop: set<nat>)
  {
    id.Some? && id.value in stop
  }

  // ---------------------------------------------------------------------
  // Parser state
  // ---------------------------------------------------------------------

  /** The symbols of the file, the names table and the collaborators. */
  datatype Ctx = Ctx(toks: seq<Scanner.Symbol>, names: Names.Table, env: Env)

  /**
   * The parser's fields: the index of the current symbol, the error list,
   * the `missing_end` and `reached_eof` flags, and what has been built.
   */
  datatype ParseState = ParseState(
    pos: nat, errors: seq<ErrorEntry>, missingEnd: bool, reachedEof: bool, world: World)

  ghost predicate ValidStream(c: Ctx)
  {
    Scanner.SymbolStream(c.toks, c.names)
  }

  /**
   * The current symbol exists, and `reached_eof` is only ever set by an
   * error that skipped to the end of the file.
   */
  ghost predicate Valid(c: Ctx, st: ParseState)
  {
    && ValidStream(c)
    && st.pos < |c.toks|
    && (st.reachedEof ==> st.pos == |c.toks| - 1 && |st.errors| > 0)
  }

  /** `r` is a later state of the same parse: it never moves back or forgets an error. */
  ghost predicate Follows(c: Ctx, st: ParseState, r: ParseState)
  {
    && Valid(c, r)
    && st.pos <= r.pos
    && st.errors <= r.errors
  }

  /** The errors recorded between `st` and `r`. */
  function NewErrors(st: ParseState, r: ParseState): seq<ErrorEntry>
    requires |st.errors| <= |r.errors|
  {
    r.errors[|st.errors|..]
  }

  function Cur(c: Ctx, st: ParseState): Scanner.Symbol
    requires st.pos < |c.toks|
  {
    c.toks[st.pos]
  }

  predicate AtEof(c: Ctx, st: ParseState)
    requires st.pos < |c.toks|
  {
    Cur(c, st).id == Some(Scanner.EOF)
  }

  /** The EOF symbol is the last one and only the last one. */
  lemma EofIsLast(c: Ctx, st: ParseState)
    requires Valid(c, st)
    ensures AtEof(c, st) <==> st.pos == |c.toks| - 1
    ensures AtEof(c, st) ==> Cur(c, st).kind.None?
  {
  }

  function Kind(c: Ctx, st: ParseState): Option<Scanner.SymbolType>
    requires st.pos < |c.toks|
  {
    Cur(c, st).kind
  }

  /**
   * `self.symbol = self.scanner.get_symbol()`: the next symbol; at EOF
   * the scanner keeps returning EOF.
   */
  function Advance(c: Ctx, st: ParseState): (r: ParseState)
    requires Valid(c, st)
    ensures Follows(c, st, r) && r.errors == st.errors && r.world == st.world
    ensures r.missingEnd == st.missingEnd && r.reachedEof == st.reachedEof
    ensures st.pos < |c.toks| - 1 ==> r.pos == st.pos + 1
    ensures st.pos == |c.toks| - 1 ==> r.pos == st.pos
  {
    if st.pos + 1 < |c.toks| then st.(pos := st.pos + 1) else st
  }

  /** The first index at or after `p` whose symbol is a stopping symbol. */
  function SkipTo(c: Ctx, p: nat, stop: set<nat>): (q: nat)
    requires ValidStream(c) && p < |c.toks| && Scanner.EOF in stop
    ensures p <= q < |c.toks| && InStop(c.toks[q].id, stop)
    ensures forall k :: p <= k < q ==> !InStop(c.toks[k].id, stop)
    decreases |c.toks| - p
  {
    if InStop(c.toks[p].id, stop) then p else SkipTo(c, p + 1, stop)
  }

  /**
   * Where `error` left the parse when it skipped: the symbol it stopped on
   * is the first stopping symbol at or after the one in error, and it was
   * consumed unless it was EOF, in which case `reached_eof` is set.
   */
  ghost predicate Recovered(c: Ctx, st: ParseState, kind: ErrorKind, stop: Option<nat>, r: ParseState)
    requires Valid(c, st) && Valid(c, r)
  {
    var q := if stop == Some(Scanner.EOF) then r.pos else r.pos - 1;
    && InStop(stop, StopSet(kind))
    && st.pos <= q < |c.toks| && c.toks[q].id == stop
    && (forall k :: st.pos <= k < q ==> !InStop(c.toks[k].id, StopSet(kind)))
    && (stop == Some(Scanner.EOF) ==> r.reachedEof && r.pos == |c.toks| - 1)
    && (stop != Some(Scanner.EOF) ==> r.reachedEof == st.reachedEof)
  }

  /**
   * `error`: records the error at the current symbol; with
   * `advance` it then skips to the error's stopping symbol and returns
   * it, otherwise it returns None and stays put.
   */
  function Error(c: Ctx, st: ParseState, kind: ErrorKind, advance: bool): (r: (Option<nat>, ParseState))
    requires Valid(c, st)
    ensures Follows(c, st, r.1) && r.1.world == st.world && r.1.missingEnd == st.missingEnd
    ensures NewErrors(st, r.1) == [ErrorEntry(kind, Cur(c, st).line, Cur(c, st).col)]
    ensures !advance ==> r.0.None? && r.1.pos == st.pos && r.1.reachedEof == st.reachedEof
    ensures advance ==> Recovered(c, st, kind, r.0, r.1)
    ensures advance ==> r.1.pos > st.pos || r.1.pos == |c.toks| - 1
  {
    var sym := Cur(c, st);
    var logged := st.(errors := st.errors + [ErrorEntry(kind, sym.line, sym.col)]);
    if !advance then (None, logged)
    else
      var q := SkipTo(c, st.pos, StopSet(kind));
      var stop := c.toks[q].id;
      if stop == Some(Scanner.EOF) then (stop, logged.(pos := q, reachedEof := true))
      else (stop, logged.(pos := q + 1))
  }

  // ---------------------------------------------------------------------
  // Small recognisers
  // ---------------------------------------------------------------------

  /**
   * `check_keyword`: the list keyword followed by a colon. Without the
   * keyword, KEYWORD_ERROR is recorded at the current symbol; with the
   * keyword but no colon, SYNTAX_COLON is recorded at the symbol after
   * it. Either error skips to the first END or EOF from there, consuming
   * END and setting `reached_eof` at EOF.
   */
  function CheckKeyword(c: Ctx, st: ParseState, keyword: nat): (r: (bool, ParseState))
    requires Valid(c, st) && keyword in Scanner.KeywordIds
    ensures Follows(c, st, r.1) && r.1.world == st.world && r.1.missingEnd == st.missingEnd
    ensures r.0 <==>
      && Cur(c, st).id == Some(keyword)
      && st.pos + 1 < |c.toks| && c.toks[st.pos + 1].kind == Some(Scanner.Colon)
    ensures r.0 ==> r.1.pos == st.pos + 2 && r.1.errors == st.errors
    ensures !r.0 ==> |NewErrors(st, r.1)| == 1
    ensures !r.0 && Cur(c, st).id != Some(keyword) ==>
      && NewErrors(st, r.1) == [ErrorEntry(KeywordError(keyword), Cur(c, st).line, Cur(c, st).col)]
      && exists stop :: Recovered(c, st, KeywordError(keyword), stop, r.1)
    ensures !r.0 && Cur(c, st).id == Some(keyword) ==>
      && st.pos + 1 < |c.toks|
      && var after := c.toks[st.pos + 1];
      && NewErrors(st, r.1) == [ErrorEntry(SyntaxColon, after.line, after.col)]
      && exists stop :: Recovered(c, Advance(c, st), SyntaxColon, stop, r.1)
    ensures !r.0 ==> r.1.pos > st.pos || r.1.pos == |c.toks| - 1
  {
    if Cur(c, st).id == Some(keyword) then
      var a := Advance(c, st);
      if Kind(c, a) == Some(Scanner.Colon) then (true, Advance(c, a))
      else (false, Error(c, a, SyntaxColon, true).1)
    else (false, Error(c, st, KeywordError(keyword), true).1)
  }

  /**
   * `check_end`: consumes END, or records END_ERROR there, skipping to
   * the next list keyword only when `recovery` is set.
   */
  function CheckEnd(c: Ctx, st: ParseState, recovery: bool): (r: ParseState)
    requires Valid(c, st)
    ensures Follows(c, st, r) && r.world == st.world && r.missingEnd == st.missingEnd
    ensures Cur(c, st).id == Some(Scanner.END) ==> r.pos == st.pos + 1 && r.errors == st.errors
    ensures Cur(c, st).id != Some(Scanner.END) ==>
      NewErrors(st, r) == [ErrorEntry(EndError, Cur(c, st).line, Cur(c, st).col)]
    ensures Cur(c, st).id != Some(Scanner.END) && !recovery ==> r.pos == st.pos
  {
    if Cur(c, st).id == Some(Scanner.END) then Advance(c, st)
    else Error(c, st, EndError, recovery).1
  }

  /** Python's `int` on a digit string. */
  function DigitsValue(w: string): nat
    requires forall k :: 0 <= k < |w| ==> Scanner.IsDigit(w[k])
  {
    if |w| == 0 then 0
    else
      assert Scanner.IsDigit(w[|w| - 1]);
      DigitsValue(w[..|w| - 1]) * 10 + (w[|w| - 1] as int - '0' as int)
  }

  /** Decimal notation of `n`, without leading zeros. */
  function Decimal(n: nat): (r: string)
    ensures |r| > 0 && forall k :: 0 <= k < |r| ==> Scanner.IsDigit(r[k])
  {
    var d := ['0' + (n % 10) as char];
    if n < 10 then d else Decimal(n / 10) + d
  }

  /** Reading back a number's decimal notation gives the number. */
  lemma {:induction false} DigitsValueDecimal(n: nat)
    ensures DigitsValue(Decimal(n)) == n
  {
    var d := ['0' + (n % 10) as char];
    if n >= 10 {
      DigitsValueDecimal(n / 10);
      var w := Decimal(n / 10) + d;
      assert w[..|w| - 1] == Decimal(n / 10);
    }
  }

  /**
   * `get_property`: OFF/ON after a SWITCH is a level; a NUMBER is kept as
   * its digit string for a SIGGEN and read as an integer otherwise;
   * anything else gives no property.
   */
  function GetProperty(c: Ctx, st: ParseState, kind: DeviceKind): (r: Property)
    requires Valid(c, st)
    ensures r.Level? <==> kind == Switch && Cur(c, st).id in {Some(Scanner.OFF), Some(Scanner.ON)}
    ensures r.Level? ==> (r.high <==> Cur(c, st).id == Some(Scanner.ON))
    ensures r.Pattern? || r.Count? ==> Cur(c, st).kind == Some(Scanner.Number)
    ensures r.Pattern? ==> (
      && kind == Siggen && Scanner.IsDigits(r.digits) && Cur(c, st).id.Some?
      && Cur(c, st).id.value < |c.names| && c.names[Cur(c, st).id.value] == r.digits)
    ensures r.Count? ==> (
      && kind != Siggen && Cur(c, st).id.Some? && Cur(c, st).id.value < |c.names|
      && Scanner.IsDigits(c.names[Cur(c, st).id.value])
      && r.n == DigitsValue(c.names[Cur(c, st).id.value]))
    ensures r.NoProperty? ==> Cur(c, st).kind != Some(Scanner.Number)
  {
    var sym := Cur(c, st);
    assert Scanner.WellFormed(sym, c.names);
    if kind == Switch && sym.id in {Some(Scanner.OFF), Some(Scanner.ON)} then Level(sym.id == Some(Scanner.ON))
    else if sym.kind == Some(Scanner.Number) then
      var digits := c.names[sym.id.value];
      if kind == Siggen then Pattern(digits) else Count(DigitsValue(digits))
    else NoProperty
  }

  datatype Io = Input | Output

  /** A pin identifier is required on every input, and on the output of a D-type. */
  predicate PinWanted(w: World, device: nat, io: Io)
    requires device in w.devices
  {
    io == Input || w.devices[device] == DType
  }

  /** A reference to a made device, with a pin identifier exactly when one is required. */
  ghost predicate Pinned(w: World, ref: IoRef, io: Io)
  {
    ref.device in w.devices && (ref.port.Some? <==> PinWanted(w, ref.device, io))
  }

  /** The symbol names a device that has been made. */
  predicate Known(w: World, id: Option<nat>)
  {
    id.Some? && id.value in w.devices
  }

  /**
   * The symbols at `p` complete a reference to a made device: a `.` and a
   * name when a pin identifier is required, anything but a `.` otherwise.
   */
  predicate PinShape(c: Ctx, p: nat, wantPin: bool)
    requires p < |c.toks|
  {
    if wantPin then
      p + 1 < |c.toks| && c.toks[p].kind == Some(Scanner.Period) && c.toks[p + 1].kind == Some(Scanner.Name)
    else c.toks[p].kind != Some(Scanner.Period)
  }

  /**
   * The part of `get_io` after a made device's name: `.pin` when
   * `wantPin`, nothing otherwise. It succeeds exactly on the shape
   * `PinShape` describes, returning the pin named after the `.`.
   */
  function GetPin(c: Ctx, a: ParseState, device: nat, wantPin: bool): (r: (Option<IoRef>, ParseState))
    requires Valid(c, a)
    ensures Follows(c, a, r.1) && r.1.world == a.world && r.1.missingEnd == a.missingEnd
    ensures r.0.Some? <==> r.1.errors == a.errors
    ensures r.0.Some? <==> PinShape(c, a.pos, wantPin)
    ensures r.0.Some? ==>
      && r.0.value == IoRef(device, if wantPin then c.toks[a.pos + 1].id else None)
      && r.1 == a.(pos := if wantPin then a.pos + 2 else a.pos)
    ensures r.0.Some? ==> r.0.value.device == device && (r.0.value.port.Some? <==> wantPin)
    ensures r.0.None? ==> |NewErrors(a, r.1)| == 1 && (r.1.pos > a.pos || r.1.pos == |c.toks| - 1)
    ensures Kind(c, a) == Some(Scanner.Period) && !wantPin ==>
      NewErrors(a, r.1) == [ErrorEntry(IdentifierPresent, Cur(c, a).line, Cur(c, a).col)]
    ensures Kind(c, a) != Some(Scanner.Period) && wantPin ==>
      NewErrors(a, r.1) == [ErrorEntry(SyntaxError(Scanner.PERIOD), Cur(c, a).line, Cur(c, a).col)]
    ensures Kind(c, a) == Some(Scanner.Period) && wantPin ==>
      && a.pos + 1 < |c.toks|
      && var after := c.toks[a.pos + 1];
      && (after.kind != Some(Scanner.Name) ==>
            NewErrors(a, r.1) == [ErrorEntry(NoIdentifier, after.line, after.col)])
  {
    if Kind(c, a) == Some(Scanner.Period) then
      EofIsLast(c, a);
      if wantPin then
        var b := Advance(c, a);
        if Kind(c, b) == Some(Scanner.Name) then
          EofIsLast(c, b);
          assert Scanner.WellFormed(Cur(c, b), c.names);
          (Some(IoRef(device, Cur(c, b).id)), Advance(c, b))
        else (None, Error(c, b, NoIdentifier, true).1)
      else (None, Error(c, a, IdentifierPresent, true).1)
    else if wantPin then (None, Error(c, a, SyntaxError(Scanner.PERIOD), true).1)
    else (Some(IoRef(device, None)), a)
  }

  /**
   * `get_io`: a made device's name, then `.pin` when an identifier is
   * required. A made device's reference of the right shape yields the
   * device and the pin named after the `.`. The errors are NO_DEVICE for
   * an unknown name, IDENTIFIER_PRESENT for a `.` that is not expected,
   * NO_IDENTIFIER for a `.` without a name after it, and a SYNTAX error
   * for a missing `.`.
   */
  function GetIo(c: Ctx, st: ParseState, io: Io): (r: (Option<IoRef>, ParseState))
    requires Valid(c, st) && Kind(c, st) == Some(Scanner.Name)
    ensures Follows(c, st, r.1) && r.1.world == st.world && r.1.missingEnd == st.missingEnd
    ensures r.1.pos > st.pos && st.pos + 1 < |c.toks|
    ensures r.0.Some? <==> r.1.errors == st.errors
    ensures r.0.None? ==> |NewErrors(st, r.1)| == 1
    ensures r.0.Some? <==>
      Known(st.world, Cur(c, st).id) && PinShape(c, st.pos + 1, PinWanted(st.world, Cur(c, st).id.value, io))
    ensures r.0.Some? ==>
      var wantPin := PinWanted(st.world, Cur(c, st).id.value, io);
      && r.0.value == IoRef(Cur(c, st).id.value, if wantPin then c.toks[st.pos + 2].id else None)
      && r.1 == st.(pos := if wantPin then st.pos + 3 else st.pos + 1)
    ensures r.0.Some? ==> Pinned(st.world, r.0.value, io)
    ensures !Known(st.world, Cur(c, st).id) ==>
      NewErrors(st, r.1) == [ErrorEntry(NoDevice, Cur(c, st).line, Cur(c, st).col)]
    ensures Known(st.world, Cur(c, st).id) ==>
      var next := c.toks[st.pos + 1];
      var wantPin := PinWanted(st.world, Cur(c, st).id.value, io);
      && (next.kind == Some(Scanner.Period) && !wantPin ==>
            NewErrors(st, r.1) == [ErrorEntry(IdentifierPresent, next.line, next.col)])
      && (next.kind != Some(Scanner.Period) && wantPin ==>
            NewErrors(st, r.1) == [ErrorEntry(SyntaxError(Scanner.PERIOD), next.line, next.col)])
      && (next.kind == Some(Scanner.Period) && wantPin ==>
            && st.pos + 2 < |c.toks|
            && var after := c.toks[st.pos + 2];
            && (after.kind != Some(Scanner.Name) ==>
                  NewErrors(st, r.1) == [ErrorEntry(NoIdentifier, after.line, after.col)]))
  {
    EofIsLast(c, st);
    var id := Cur(c, st).id;
    if !Known(st.world, id) then (None, Error(c, st, NoDevice, true).1)
    else GetPin(c, Advance(c, st), id.value, PinWanted(st.world, id.value, io))
  }

  /**
   * Where the io reference `name [ "." name ]` starting at `p` ends, or
   * None when a `.` is not followed by a name.
   */
  function IoEnd(c: Ctx, p: nat): (q: Option<nat>)
    requires p < |c.toks|
    ensures q.Some? ==> p < q.value <= |c.toks|
  {
    if p + 1 < |c.toks| && c.toks[p + 1].kind == Some(Scanner.Period) then
      if p + 2 < |c.toks| && c.toks[p + 2].kind == Some(Scanner.Name) then Some(p + 3) else None
    else Some(p + 1)
  }

  /**
   * `check_io`: the syntax of an io reference. It succeeds exactly when
   * the reference is well formed, consuming it and nothing more; the only
   * error is NO_IDENTIFIER, at the symbol after a `.` that is not a name.
   */
  function CheckIo(c: Ctx, st: ParseState): (r: (bool, ParseState))
    requires Valid(c, st) && Kind(c, st) == Some(Scanner.Name)
    ensures Follows(c, st, r.1) && r.1.world == st.world && r.1.missingEnd == st.missingEnd
    ensures r.1.pos > st.pos
    ensures r.0 <==> r.1.errors == st.errors
    ensures r.0 <==> IoEnd(c, st.pos).Some?
    ensures r.0 ==> r.1 == st.(pos := IoEnd(c, st.pos).value)
    ensures !r.0 ==> |NewErrors(st, r.1)| == 1 && NewErrors(st, r.1)[0].kind == NoIdentifier
    ensures !r.0 ==>
      && st.pos + 2 < |c.toks|
      && NewErrors(st, r.1) == [ErrorEntry(NoIdentifier, c.toks[st.pos + 2].line, c.toks[st.pos + 2].col)]
    ensures NoSemanticErrors(st, r.1)
  {
    EofIsLast(c, st);
    var a := Advance(c, st);
    if Kind(c, a) == Some(Scanner.Period) then
      EofIsLast(c, a);
      var b := Advance(c, a);
      if Kind(c, b) == Some(Scanner.Name) then (true, Advance(c, b))
      else (false, Error(c, b, NoIdentifier, true).1)
    else (true, a)
  }

  /**
   * The build and syntax-only passes agree on references: for a made
   * device, `get_io` succeeds exactly when `check_io` does and the `.pin`
   * is present just when it is required, and then both consume the same
   * symbols.
   */
  lemma GetIoChecked(c: Ctx, st: ParseState, io: Io)
    requires Valid(c, st) && Kind(c, st) == Some(Scanner.Name)
    ensures var r := GetIo(c, st, io);
      && (r.0.Some? ==> CheckIo(c, st) == (true, r.1))
      && (Known(st.world, Cur(c, st).id) ==>
            (r.0.Some? <==>
               && CheckIo(c, st).0
               && (IoEnd(c, st.pos) == Some(st.pos + 3) <==> PinWanted(st.world, Cur(c, st).id.value, io))))
  {
  }

  // ---------------------------------------------------------------------
  // List items
  // ---------------------------------------------------------------------

  /** The device kind the symbol at `p` names, if it is a device keyword. */
  function DeviceKindAt(c: Ctx, p: nat): Option<DeviceKind>
    requires p < |c.toks|
  {
    if c.toks[p].id.Some? then KindOf(c.toks[p].id.value) else None
  }

  /** Every device of `d0` is still in `d1`, with the same kind. */
  ghost predicate Extends(d0: Devices, d1: Devices)
  {
    forall n :: n in d0 ==> n in d1 && d1[n] == d0[n]
  }

  /**
   * The property `device` reads at `b`, the symbol after the name, and
   * the state after it: `get_property` on a property or number symbol,
   * which is then consumed; no property, and nothing consumed, otherwise.
   */
  function PropertyAt(c: Ctx, b: ParseState, kind: DeviceKind): (r: (Property, ParseState))
    requires Valid(c, b)
    ensures Follows(c, b, r.1) && r.1.errors == b.errors && r.1.world == b.world && r.1.missingEnd == b.missingEnd
    ensures Kind(c, b) == Some(Scanner.Property) || Kind(c, b) == Some(Scanner.Number) ==>
      r == (GetProperty(c, b, kind), b.(pos := b.pos + 1))
    ensures !(Kind(c, b) == Some(Scanner.Property) || Kind(c, b) == Some(Scanner.Number)) ==>
      r == (NoProperty, b)
  {
    if Kind(c, b) == Some(Scanner.Property) || Kind(c, b) == Some(Scanner.Number) then
      EofIsLast(c, b);
      (GetProperty(c, b, kind), Advance(c, b))
    else (NoProperty, b)
  }

  /** The item at `st` is a device keyword followed by a name not yet used. */
  ghost predicate DeviceNamed(c: Ctx, st: ParseState)
    requires Valid(c, st)
  {
    && st.pos + 1 < |c.toks|
    && DeviceKindAt(c, st.pos).Some?
    && c.toks[st.pos + 1].kind == Some(Scanner.Name) && c.toks[st.pos + 1].id.Some?
    && c.toks[st.pos + 1].id.value !in st.world.devices
  }

  /**
   * What `device` reads at `st` before calling `make_device`: the name,
   * the kind, the property read from the symbol after the name, and the
   * state after them.
   */
  ghost function DeclaredDevice(c: Ctx, st: ParseState): (r: (nat, DeviceKind, Property, ParseState))
    requires Valid(c, st) && DeviceNamed(c, st)
    ensures Follows(c, st, r.3) && r.3.errors == st.errors && r.3.world == st.world
  {
    var kind := DeviceKindAt(c, st.pos).value;
    var p := PropertyAt(c, Advance(c, Advance(c, st)), kind);
    (c.toks[st.pos + 1].id.value, kind, p.0, p.1)
  }

  /** `make_device` accepts the device declared at `st`. */
  ghost predicate DeviceAccepted(c: Ctx, st: ParseState)
    requires Valid(c, st)
  {
    && DeviceNamed(c, st)
    && var dd := DeclaredDevice(c, st);
    && c.env.makeDevice(st.world, dd.0, dd.1, dd.2).None?
  }

  /** `w` is `st`'s world plus the device declared at `st`, which `make_device` accepts. */
  ghost predicate DeviceAdded(c: Ctx, st: ParseState, w: World)
    requires Valid(c, st)
  {
    && DeviceAccepted(c, st)
    && var dd := DeclaredDevice(c, st);
    && w.devices == st.world.devices[dd.0 := dd.1]
  }

  /**
   * The semicolon closing a list item; without it a SYNTAX error skips to
   * the next semicolon or END.
   */
  function ExpectSemiColon(c: Ctx, d: ParseState): (r: (bool, ParseState))
    requires Valid(c, d)
    ensures Follows(c, d, r.1) && r.1.missingEnd == d.missingEnd && r.1.world == d.world
    ensures r.1.pos > d.pos || r.1.pos == |c.toks| - 1
    ensures r.0 <==> Kind(c, d) == Some(Scanner.SemiColon)
    ensures r.0 ==> r.1.errors == d.errors && r.1.pos == d.pos + 1
    ensures !r.0 ==> NewErrors(d, r.1) == [ErrorEntry(SyntaxError(Scanner.SEMI_COLON), Cur(c, d).line, Cur(c, d).col)]
    ensures NoSemanticErrors(d, r.1)
  {
    if Kind(c, d) == Some(Scanner.SemiColon) then
      EofIsLast(c, d);
      (true, Advance(c, d))
    else (false, Error(c, d, SyntaxError(Scanner.SEMI_COLON), true).1)
  }

  /**
   * The end of `device`: `make_device`, then the semicolon. The device is
   * added exactly when the collaborator accepts it, and kept even when
   * the semicolon then fails; a refusal is recorded at the current symbol.
   */
  function FinishDevice(c: Ctx, d: ParseState, name: nat, kind: DeviceKind, prop: Property): (r: (bool, ParseState))
    requires Valid(c, d)
    ensures Follows(c, d, r.1) && r.1.missingEnd == d.missingEnd
    ensures r.1.pos > d.pos || r.1.pos == |c.toks| - 1
    ensures r.0 <==> r.1.errors == d.errors
    ensures !r.0 ==> |NewErrors(d, r.1)| == 1
    ensures r.1.world.connections == d.world.connections && r.1.world.monitors == d.world.monitors
    ensures r.1.world.devices == d.world.devices || r.1.world.devices == d.world.devices[name := kind]
    ensures r.1.world.devices != d.world.devices || r.0 ==>
      r.1.world.devices == d.world.devices[name := kind] && c.env.makeDevice(d.world, name, kind, prop).None?
    ensures c.env.makeDevice(d.world, name, kind, prop).None? ==>
      && r.1.world.devices == d.world.devices[name := kind]
      && (r.0 <==> Kind(c, d) == Some(Scanner.SemiColon))
      && (r.0 ==> r.1.pos == d.pos + 1)
      && (!r.0 ==> NewErrors(d, r.1) == [ErrorEntry(SyntaxError(Scanner.SEMI_COLON), Cur(c, d).line, Cur(c, d).col)])
    ensures c.env.makeDevice(d.world, name, kind, prop).Some? ==>
      && !r.0 && r.1.world == d.world
      && NewErrors(d, r.1) ==
           [ErrorEntry(DeviceFailure(c.env.makeDevice(d.world, name, kind, prop).value), Cur(c, d).line, Cur(c, d).col)]
  {
    match c.env.makeDevice(d.world, name, kind, prop)
    case Some(e) => (false, Error(c, d, DeviceFailure(e), true).1)
    case None =>
      ExpectSemiColon(c, d.(world := d.world.(devices := d.world.devices[name := kind])))
  }

  /**
   * `device`: a device keyword, a fresh name, an optional property and a
   * semicolon. A declaration of that shape that `make_device` accepts
   * succeeds; the device is added whenever `make_device` accepts it.
   */
  function Device(c: Ctx, st: ParseState): (r: (bool, ParseState))
    requires Valid(c, st) && Kind(c, st) == Some(Scanner.DeviceType)
    ensures Follows(c, st, r.1) && r.1.pos > st.pos && r.1.missingEnd == st.missingEnd
    ensures r.0 <==> r.1.errors == st.errors
    ensures !r.0 ==> |NewErrors(st, r.1)| == 1
    ensures r.1.world.connections == st.world.connections && r.1.world.monitors == st.world.monitors
    ensures r.1.world.devices == st.world.devices || DeviceAdded(c, st, r.1.world)
    ensures r.0 ==> DeviceAdded(c, st, r.1.world)
    ensures DeviceAccepted(c, st) ==> DeviceAdded(c, st, r.1.world)
    ensures !DeviceAccepted(c, st) ==> r.1.world == st.world
    ensures r.0 <==> DeviceAccepted(c, st) && Kind(c, DeclaredDevice(c, st).3) == Some(Scanner.SemiColon)
    ensures r.0 ==> r.1.pos == DeclaredDevice(c, st).3.pos + 1
    ensures DeviceKindAt(c, st.pos).None? ==>
      NewErrors(st, r.1) == [ErrorEntry(NoDevice, Cur(c, st).line, Cur(c, st).col)]
    ensures DeviceKindAt(c, st.pos).Some? && st.pos + 1 < |c.toks| ==>
      var name := c.toks[st.pos + 1];
      && (name.kind != Some(Scanner.Name) ==>
            NewErrors(st, r.1) == [ErrorEntry(BadName, name.line, name.col)])
      && (name.kind == Some(Scanner.Name) && name.id.Some? && name.id.value in st.world.devices ==>
            NewErrors(st, r.1) == [ErrorEntry(NotValidName, name.line, name.col)])
    ensures DeviceNamed(c, st) ==>
      var dd := DeclaredDevice(c, st);
      var made := c.env.makeDevice(st.world, dd.0, dd.1, dd.2);
      && (made.Some? ==>
            NewErrors(st, r.1) == [ErrorEntry(DeviceFailure(made.value), Cur(c, dd.3).line, Cur(c, dd.3).col)])
      && (made.None? && Kind(c, dd.3) != Some(Scanner.SemiColon) ==>
            NewErrors(st, r.1) == [ErrorEntry(SyntaxError(Scanner.SEMI_COLON), Cur(c, dd.3).line, Cur(c, dd.3).col)])
  {
    EofIsLast(c, st);
    var kind := DeviceKindAt(c, st.pos);
    if kind.None? then (false, Error(c, st, NoDevice, true).1)
    else
      var a := Advance(c, st);
      if Kind(c, a) != Some(Scanner.Name) then (false, Error(c, a, BadName, true).1)
      else
        EofIsLast(c, a);
        assert Scanner.WellFormed(Cur(c, a), c.names);
        var name := Cur(c, a).id.value;
        if name in a.world.devices then (false, Error(c, a, NotValidName, true).1)
        else
          var p := PropertyAt(c, Advance(c, a), kind.value);
          assert DeclaredDevice(c, st) == (name, kind.value, p.0, p.1);
          FinishDevice(c, p.1, name, kind.value, p.0)
  }

  /**
   * The item at `st` reads as a connection: an output reference `get_io`
   * accepts, `->`, a name, and an input reference `get_io` accepts.
   */
  ghost predicate ConnectionRead(c: Ctx, st: ParseState)
    requires Valid(c, st) && Kind(c, st) == Some(Scanner.Name)
  {
    var out := GetIo(c, st, Output);
    && out.0.Some? && Kind(c, out.1) == Some(Scanner.Arrow)
    && var b := Advance(c, out.1);
    && Kind(c, b) == Some(Scanner.Name)
    && GetIo(c, b, Input).0.Some?
  }

  /**
   * The input and output references of the connection read at `st`, and
   * the state after them.
   */
  ghost function ReadConnection(c: Ctx, st: ParseState): (r: (IoRef, IoRef, ParseState))
    requires Valid(c, st) && Kind(c, st) == Some(Scanner.Name) && ConnectionRead(c, st)
    ensures Follows(c, st, r.2) && r.2.errors == st.errors && r.2.world == st.world
  {
    var out := GetIo(c, st, Output);
    var inp := GetIo(c, Advance(c, out.1), Input);
    (inp.0.value, out.0.value, inp.1)
  }

  /** `make_connection` accepts the connection read at `st`. */
  ghost predicate ConnectionAccepted(c: Ctx, st: ParseState)
    requires Valid(c, st) && Kind(c, st) == Some(Scanner.Name)
  {
    && ConnectionRead(c, st)
    && var rc := ReadConnection(c, st);
    && c.env.makeConnection(st.world, rc.0, rc.1).None?
  }

  /**
   * `w` is `st`'s world plus the connection read at `st`, from the output
   * `get_io` reads at the first name to the input it reads after `->`,
   * which `make_connection` accepts.
   */
  ghost predicate ConnectionAdded(c: Ctx, st: ParseState, w: World)
    requires Valid(c, st) && Kind(c, st) == Some(Scanner.Name)
  {
    && ConnectionAccepted(c, st)
    && var rc := ReadConnection(c, st);
    && w.connections == st.world.connections + [Connection(rc.0, rc.1)]
  }

  /**
   * The end of `connect`: `make_connection`, then the semicolon. The
   * connection is appended exactly when the collaborator accepts it, and
   * kept even when the semicolon then fails.
   */
  function FinishConnect(c: Ctx, d: ParseState, i: IoRef, o: IoRef): (r: (bool, ParseState))
    requires Valid(c, d)
    ensures Follows(c, d, r.1) && r.1.missingEnd == d.missingEnd
    ensures r.1.pos > d.pos || r.1.pos == |c.toks| - 1
    ensures r.0 <==> r.1.errors == d.errors
    ensures !r.0 ==> |NewErrors(d, r.1)| == 1
    ensures r.1.world.devices == d.world.devices && r.1.world.monitors == d.world.monitors
    ensures r.1.world.connections == d.world.connections || r.1.world.connections == d.world.connections + [Connection(i, o)]
    ensures r.1.world.connections != d.world.connections || r.0 ==>
      r.1.world.connections == d.world.connections + [Connection(i, o)] && c.env.makeConnection(d.world, i, o).None?
    ensures c.env.makeConnection(d.world, i, o).None? ==>
      && r.1.world.connections == d.world.connections + [Connection(i, o)]
      && (r.0 <==> Kind(c, d) == Some(Scanner.SemiColon))
      && (r.0 ==> r.1.pos == d.pos + 1)
      && (!r.0 ==> NewErrors(d, r.1) == [ErrorEntry(SyntaxError(Scanner.SEMI_COLON), Cur(c, d).line, Cur(c, d).col)])
    ensures c.env.makeConnection(d.world, i, o).Some? ==>
      && !r.0 && r.1.world == d.world
      && NewErrors(d, r.1) ==
           [ErrorEntry(NetworkFailure(c.env.makeConnection(d.world, i, o).value), Cur(c, d).line, Cur(c, d).col)]
  {
    match c.env.makeConnection(d.world, i, o)
    case Some(e) => (false, Error(c, d, NetworkFailure(e), true).1)
    case None =>
      ExpectSemiColon(c, d.(world := d.world.(connections := d.world.connections + [Connection(i, o)])))
  }

  /**
   * `connect`: an output reference, `->`, an input reference and a
   * semicolon. A connection of that shape that `make_connection` accepts
   * succeeds; the connection is made whenever `make_connection` accepts
   * it. A failed output reference ends the item with `get_io`'s error.
   */
  function Connect(c: Ctx, st: ParseState): (r: (bool, ParseState))
    requires Valid(c, st) && Kind(c, st) == Some(Scanner.Name)
    ensures Follows(c, st, r.1) && r.1.pos > st.pos && r.1.missingEnd == st.missingEnd
    ensures r.0 <==> r.1.errors == st.errors
    ensures !r.0 ==> |NewErrors(st, r.1)| == 1
    ensures r.1.world.devices == st.world.devices && r.1.world.monitors == st.world.monitors
    ensures r.1.world.connections == st.world.connections || ConnectionAdded(c, st, r.1.world)
    ensures r.0 ==> ConnectionAdded(c, st, r.1.world)
    ensures ConnectionAccepted(c, st) ==> ConnectionAdded(c, st, r.1.world)
    ensures !ConnectionAccepted(c, st) ==> r.1.world == st.world
    ensures r.0 <==> ConnectionAccepted(c, st) && Kind(c, ReadConnection(c, st).2) == Some(Scanner.SemiColon)
    ensures r.0 ==> r.1.pos == ReadConnection(c, st).2.pos + 1
    ensures var out := GetIo(c, st, Output);
      && (out.0.None? ==> r.1 == out.1)
      && (out.0.Some? && Kind(c, out.1) != Some(Scanner.Arrow) ==>
            NewErrors(st, r.1) == [ErrorEntry(SyntaxError(Scanner.ARROW), Cur(c, out.1).line, Cur(c, out.1).col)])
      && (out.0.Some? && Kind(c, out.1) == Some(Scanner.Arrow) && Kind(c, Advance(c, out.1)) != Some(Scanner.Name) ==>
            var b := Advance(c, out.1);
            NewErrors(st, r.1) == [ErrorEntry(SymbolTypeError(Scanner.Name), Cur(c, b).line, Cur(c, b).col)])
  {
    var io := GetIo(c, st, Output);
    var out, a := io.0, io.1;
    if out.None? then (false, a)
    else if Kind(c, a) != Some(Scanner.Arrow) then (false, Error(c, a, SyntaxError(Scanner.ARROW), true).1)
    else
      EofIsLast(c, a);
      var b := Advance(c, a);
      if Kind(c, b) != Some(Scanner.Name) then (false, Error(c, b, SymbolTypeError(Scanner.Name), true).1)
      else
        var io := GetIo(c, b, Input);
        var inp, d := io.0, io.1;
        if inp.None? then (false, d)
        else
          assert ReadConnection(c, st) == (inp.value, out.value, d);
          FinishConnect(c, d, inp.value, out.value)
  }

  /**
   * Where `io ";"` starting at `p` ends, when the symbols there have that
   * shape.
   */
  function TerminatedIoEnd(c: Ctx, p: nat): (q: Option<nat>)
    requires p < |c.toks|
    ensures q.Some? ==> p < q.value <= |c.toks|
  {
    var e := IoEnd(c, p);
    if c.toks[p].kind != Some(Scanner.Name) || e.None? then None
    else if e.value < |c.toks| && c.toks[e.value].kind == Some(Scanner.SemiColon) then Some(e.value + 1)
    else None
  }

  /**
   * Where `io "->" io ";"` starting at `p` ends, when the symbols there
   * have that shape.
   */
  function ConnectionEnd(c: Ctx, p: nat): (q: Option<nat>)
    requires p < |c.toks|
    ensures q.Some? ==> p < q.value <= |c.toks|
  {
    var e := IoEnd(c, p);
    if c.toks[p].kind != Some(Scanner.Name) || e.None? then None
    else if e.value + 1 < |c.toks| && c.toks[e.value].kind == Some(Scanner.Arrow) then TerminatedIoEnd(c, e.value + 1)
    else None
  }

  /**
   * The input half of `connect_syntax`, from the symbol after `->`: free
   * of errors exactly when `io ";"` follows, which it then consumes, and
   * otherwise one error, a SYMBOL_TYPE_ERROR when no name follows the
   * `->`.
   */
  function ConnectSyntaxInput(c: Ctx, b: ParseState): (r: ParseState)
    requires Valid(c, b)
    ensures Follows(c, b, r) && r.missingEnd == b.missingEnd && r.world == b.world
    ensures r.pos > b.pos || r.pos == |c.toks| - 1
    ensures |NewErrors(b, r)| <= 1
    ensures NoSemanticErrors(b, r)
    ensures r.errors == b.errors <==> TerminatedIoEnd(c, b.pos).Some?
    ensures r.errors == b.errors ==> r.pos == TerminatedIoEnd(c, b.pos).value
    ensures Kind(c, b) != Some(Scanner.Name) ==>
      NewErrors(b, r) == [ErrorEntry(SymbolTypeError(Scanner.Name), Cur(c, b).line, Cur(c, b).col)]
  {
    if Kind(c, b) != Some(Scanner.Name) then Error(c, b, SymbolTypeError(Scanner.Name), true).1
    else
      var checked := CheckIo(c, b);
      var ok, d := checked.0, checked.1;
      if !ok then d
      else
        var e := ExpectSemiColon(c, d).1;
        NoSemanticTrans(c, b, d, e);
        e
  }

  /**
   * The rest of `connect_syntax` after the output reference: `->`, then
   * the input half. Free of errors exactly when `"->" io ";"` follows,
   * which it then consumes; a missing `->` is one SYNTAX error.
   */
  function ConnectSyntaxTail(c: Ctx, a: ParseState): (r: ParseState)
    requires Valid(c, a)
    ensures Follows(c, a, r) && r.missingEnd == a.missingEnd && r.world == a.world
    ensures r.pos > a.pos || r.pos == |c.toks| - 1
    ensures |NewErrors(a, r)| <= 1
    ensures NoSemanticErrors(a, r)
    ensures r.errors == a.errors <==>
      Kind(c, a) == Some(Scanner.Arrow) && a.pos + 1 < |c.toks| && TerminatedIoEnd(c, a.pos + 1).Some?
    ensures r.errors == a.errors ==> r.pos == TerminatedIoEnd(c, a.pos + 1).value
    ensures Kind(c, a) != Some(Scanner.Arrow) ==>
      NewErrors(a, r) == [ErrorEntry(SyntaxError(Scanner.ARROW), Cur(c, a).line, Cur(c, a).col)]
  {
    if Kind(c, a) != Some(Scanner.Arrow) then Error(c, a, SyntaxError(Scanner.ARROW), true).1
    else
      EofIsLast(c, a);
      ConnectSyntaxInput(c, Advance(c, a))
  }

  /**
   * `connect_syntax`: the shape of a connection only; nothing is looked
   * up or made. It is free of errors exactly when `io "->" io ";"`
   * follows, which it then consumes, and otherwise records one error.
   */
  function ConnectSyntax(c: Ctx, st: ParseState): (r: ParseState)
    requires Valid(c, st) && Kind(c, st) == Some(Scanner.Name)
    ensures Follows(c, st, r) && r.pos > st.pos && r.missingEnd == st.missingEnd && r.world == st.world
    ensures |NewErrors(st, r)| <= 1
    ensures NoSemanticErrors(st, r)
    ensures r.errors == st.errors <==> ConnectionEnd(c, st.pos).Some?
    ensures r.errors == st.errors ==> r.pos == ConnectionEnd(c, st.pos).value
  {
    var checked := CheckIo(c, st);
    var ok, a := checked.0, checked.1;
    if !ok then a
    else
      assert ConnectionEnd(c, st.pos) ==
        if Kind(c, a) == Some(Scanner.Arrow) && a.pos + 1 < |c.toks| then TerminatedIoEnd(c, a.pos + 1) else None;
      var e := ConnectSyntaxTail(c, a);
      NoSemanticTrans(c, st, a, e);
      assert e.errors == st.errors <==> e.errors == a.errors;
      e
  }

  /** `get_io` reads an output at `st` and `make_monitor` accepts it. */
  ghost predicate MonitorAccepted(c: Ctx, st: ParseState)
    requires Valid(c, st) && Kind(c, st) == Some(Scanner.Name)
  {
    var out := GetIo(c, st, Output);
    out.0.Some? && c.env.makeMonitor(st.world, out.0.value).None?
  }

  /** `w` is `st`'s world plus the output `get_io` reads at `st`, which `make_monitor` accepts. */
  ghost predicate MonitorAdded(c: Ctx, st: ParseState, w: World)
    requires Valid(c, st) && Kind(c, st) == Some(Scanner.Name)
  {
    && MonitorAccepted(c, st)
    && w.devices == st.world.devices && w.connections == st.world.connections
    && w.monitors == st.world.monitors + {GetIo(c, st, Output).0.value}
  }

  /**
   * `monitor`: an output reference and a semicolon; the point is
   * monitored whenever `make_monitor` accepts it, even when the semicolon
   * then fails, and the item is free of errors exactly when it is
   * accepted and the semicolon follows. Returns nothing, so the list loop
   * counts every monitor as a failure.
   */
  function Monitor(c: Ctx, st: ParseState): (r: ParseState)
    requires Valid(c, st) && Kind(c, st) == Some(Scanner.Name)
    ensures Follows(c, st, r) && r.pos > st.pos && r.missingEnd == st.missingEnd
    ensures |NewErrors(st, r)| <= 1
    ensures r.world.devices == st.world.devices && r.world.connections == st.world.connections
    ensures st.world.monitors <= r.world.monitors
    ensures forall m :: m in r.world.monitors && m !in st.world.monitors ==>
      Pinned(st.world, m, Output) && Cur(c, st).id == Some(m.device) && c.env.makeMonitor(st.world, m).None?
    ensures r.errors == st.errors ==> exists m :: r.world.monitors == st.world.monitors + {m}
    ensures MonitorAccepted(c, st) ==> MonitorAdded(c, st, r.world)
    ensures !MonitorAccepted(c, st) ==> r.world == st.world
    ensures r.errors == st.errors <==>
      MonitorAccepted(c, st) && Kind(c, GetIo(c, st, Output).1) == Some(Scanner.SemiColon)
    ensures r.errors == st.errors ==> r.pos == GetIo(c, st, Output).1.pos + 1
    ensures var out := GetIo(c, st, Output);
      && (out.0.None? ==> r == out.1)
      && (out.0.Some? && c.env.makeMonitor(st.world, out.0.value).Some? ==>
            NewErrors(st, r) ==
              [ErrorEntry(MonitorFailure(c.env.makeMonitor(st.world, out.0.value).value), Cur(c, out.1).line, Cur(c, out.1).col)])
      && (MonitorAccepted(c, st) && Kind(c, out.1) != Some(Scanner.SemiColon) ==>
            NewErrors(st, r) == [ErrorEntry(SyntaxError(Scanner.SEMI_COLON), Cur(c, out.1).line, Cur(c, out.1).col)])
  {
    var io := GetIo(c, st, Output);
    var out, a := io.0, io.1;
    if out.None? then a
    else match c.env.makeMonitor(a.world, out.value)
      case Some(e) => Error(c, a, MonitorFailure(e), true).1
      case None =>
        var e := a.(world := a.world.(monitors := a.world.monitors + {out.value}));
        ExpectSemiColon(c, e).1
  }

  /**
   * `monitor_syntax`: the shape of a monitor point only. It is free of
   * errors exactly when `io ";"` follows, which it then consumes, and
   * otherwise records one error.
   */
  function MonitorSyntax(c: Ctx, st: ParseState): (r: ParseState)
    requires Valid(c, st) && Kind(c, st) == Some(Scanner.Name)
    ensures Follows(c, st, r) && r.pos > st.pos && r.missingEnd == st.missingEnd && r.world == st.world
    ensures |NewErrors(st, r)| <= 1
    ensures NoSemanticErrors(st, r)
    ensures r.errors == st.errors <==> TerminatedIoEnd(c, st.pos).Some?
    ensures r.errors == st.errors ==> r.pos == TerminatedIoEnd(c, st.pos).value
  {
    var checked := CheckIo(c, st);
    var ok, a := checked.0, checked.1;
    if !ok then a
    else
      var e := ExpectSemiColon(c, a).1;
      NoSemanticTrans(c, st, a, e);
      e
  }

  /**
   * A connection `connect` accepts has the shape `connect_syntax`
   * accepts, and both consume the same symbols.
   */
  lemma ConnectHasShape(c: Ctx, st: ParseState)
    requires Valid(c, st) && Kind(c, st) == Some(Scanner.Name)
    ensures Connect(c, st).0 ==> ConnectSyntax(c, st) == st.(pos := Connect(c, st).1.pos)
  {
  }

  /**
   * A monitor point `monitor` accepts without error has the shape
   * `monitor_syntax` accepts, and both consume the same symbols.
   */
  lemma MonitorHasShape(c: Ctx, st: ParseState)
    requires Valid(c, st) && Kind(c, st) == Some(Scanner.Name)
    ensures Monitor(c, st).errors == st.errors ==> MonitorSyntax(c, st) == st.(pos := Monitor(c, st).pos)
  {
  }

  // ---------------------------------------------------------------------
  // Lists
  // ---------------------------------------------------------------------

  /** The item parser handed to `build_list` or `check_syntax`. */
  datatype Item = DeviceItem | ConnectItem | ConnectSyntaxItem | MonitorItem | MonitorSyntaxItem

  /** The symbol type that starts an item. */
  function ItemType(item: Item): Scanner.SymbolType
  {
    if item == DeviceItem then Scanner.DeviceType else Scanner.Name
  }

  predicate SyntaxOnly(item: Item)
  {
    item == ConnectSyntaxItem || item == MonitorSyntaxItem
  }

  /** Items whose method returns a success flag (the others return nothing). */
  predicate Reports(item: Item)
  {
    item == DeviceItem || item == ConnectItem
  }

  /** What an item may change: its own part of the world, and nothing else. */
  ghost predicate ItemFrame(item: Item, w0: World, w1: World)
  {
    match item
    case DeviceItem =>
      w1.connections == w0.connections && w1.monitors == w0.monitors && Extends(w0.devices, w1.devices)
    case ConnectItem =>
      w1.devices == w0.devices && w1.monitors == w0.monitors && w0.connections <= w1.connections
    case MonitorItem =>
      w1.devices == w0.devices && w1.connections == w0.connections && w0.monitors <= w1.monitors
    case _ => w1 == w0
  }

  lemma ItemFrameTrans(item: Item, w0: World, w1: World, w2: World)
    requires ItemFrame(item, w0, w1) && ItemFrame(item, w1, w2)
    ensures ItemFrame(item, w0, w2)
  {
  }

  lemma NoSemanticTrans(c: Ctx, s0: ParseState, s1: ParseState, s2: ParseState)
    requires Follows(c, s0, s1) && Follows(c, s1, s2)
    ensures NoSemanticErrors(s0, s1) && NoSemanticErrors(s1, s2) ==> NoSemanticErrors(s0, s2)
  {
    assert NewErrors(s0, s2) == NewErrors(s0, s1) + NewErrors(s1, s2);
  }

  /** Calls the item's method on the current symbol. */
  function RunItem(c: Ctx, st: ParseState, item: Item): (r: (bool, ParseState))
    requires Valid(c, st) && Kind(c, st) == Some(ItemType(item))
    ensures Follows(c, st, r.1) && r.1.pos > st.pos && r.1.missingEnd == st.missingEnd
    ensures ItemFrame(item, st.world, r.1.world)
    ensures Reports(item) ==> (r.0 <==> r.1.errors == st.errors)
    ensures !Reports(item) ==> !r.0
    ensures SyntaxOnly(item) ==> NoSemanticErrors(st, r.1)
  {
    match item
    case DeviceItem => Device(c, st)
    case ConnectItem => Connect(c, st)
    case ConnectSyntaxItem => (false, ConnectSyntax(c, st))
    case MonitorItem => (false, Monitor(c, st))
    case MonitorSyntaxItem => (false, MonitorSyntax(c, st))
  }

  /**
   * Where a list loop stops: at END, at EOF, or (with `missing_end` set)
   * on a keyword or colon that cannot start an item.
   */
  ghost predicate ListStopped(c: Ctx, r: ParseState)
    requires r.pos < |c.toks|
  {
    || Cur(c, r).id == Some(Scanner.END)
    || AtEof(c, r)
    || (r.missingEnd && Kind(c, r) in {Some(Scanner.Keyword), Some(Scanner.Colon)})
  }

  /**
   * One turn of the list loop on a symbol that neither ends the list nor
   * is a keyword or colon: the item method on a symbol of the expected
   * type, otherwise a SYMBOL_TYPE_ERROR that skips to the next semicolon
   * or END.
   */
  function ListStep(c: Ctx, st: ParseState, item: Item): (r: (bool, ParseState))
    requires Valid(c, st) && !AtEof(c, st)
    ensures Follows(c, st, r.1) && r.1.pos > st.pos && r.1.missingEnd == st.missingEnd
    ensures ItemFrame(item, st.world, r.1.world)
    ensures Reports(item) ==> (r.0 <==> r.1.errors == st.errors)
    ensures Kind(c, st) != Some(ItemType(item)) ==> !r.0 && |NewErrors(st, r.1)| == 1
    ensures Kind(c, st) != Some(ItemType(item)) ==>
      && NewErrors(st, r.1) == [ErrorEntry(SymbolTypeError(ItemType(item)), Cur(c, st).line, Cur(c, st).col)]
      && exists stop :: Recovered(c, st, SymbolTypeError(ItemType(item)), stop, r.1)
    ensures Kind(c, st) == Some(ItemType(item)) ==> r == RunItem(c, st, item)
    ensures SyntaxOnly(item) ==> NoSemanticErrors(st, r.1)
  {
    if Kind(c, st) == Some(ItemType(item)) then RunItem(c, st, item)
    else
      EofIsLast(c, st);
      (false, Error(c, st, SymbolTypeError(ItemType(item)), true).1)
  }

  /**
   * `build_list`: runs the item method on every symbol of the expected
   * type until END or EOF. A keyword or colon means the END is missing,
   * which is reported without skipping; any other symbol is skipped by
   * `ListStep`. (An item never starts with a keyword or colon, so testing
   * for those first keeps the source's order of tests.) The result is
   * false once anything failed.
   */
  function BuildList(c: Ctx, st: ParseState, item: Item): (r: (bool, ParseState))
    requires Valid(c, st)
    ensures Follows(c, st, r.1)
    ensures ListStopped(c, r.1)
    ensures Reports(item) ==> (r.0 <==> r.1.errors == st.errors)
    decreases |c.toks| - st.pos
  {
    var sym := Cur(c, st);
    if sym.id == Some(Scanner.END) || sym.id == Some(Scanner.EOF) then (true, st)
    else if sym.kind == Some(Scanner.Keyword) || sym.kind == Some(Scanner.Colon) then
      (false, Error(c, st, EndError, false).1.(missingEnd := true))
    else
      var a := ListStep(c, st, item);
      var b := BuildList(c, a.1, item);
      (a.0 && b.0, b.1)
  }

  /**
   * A list loop changes only its items' part of the world, and a
   * syntax-only loop reports no semantic error.
   */
  lemma {:induction false} BuildListFrame(c: Ctx, st: ParseState, item: Item)
    requires Valid(c, st)
    ensures var r := BuildList(c, st, item);
      && ItemFrame(item, st.world, r.1.world)
      && (SyntaxOnly(item) ==> NoSemanticErrors(st, r.1))
    decreases |c.toks| - st.pos
  {
    var sym := Cur(c, st);
    if sym.id == Some(Scanner.END) || sym.id == Some(Scanner.EOF) {
    } else if sym.kind == Some(Scanner.Keyword) || sym.kind == Some(Scanner.Colon) {
    } else {
      var a := ListStep(c, st, item).1;
      var b := BuildList(c, a, item).1;
      assert BuildList(c, st, item).1 == b;
      BuildListFrame(c, a, item);
      ItemFrameTrans(item, st.world, a.world, b.world);
      NoSemanticTrans(c, st, a, b);
    }
  }

  /** A list loop never clears `missing_end`, and a loop that succeeds never sets it. */
  lemma {:induction false} BuildListKeepsMissingEnd(c: Ctx, st: ParseState, item: Item)
    requires Valid(c, st)
    ensures var r := BuildList(c, st, item);
      && (r.0 ==> r.1.missingEnd == st.missingEnd)
      && (st.missingEnd ==> r.1.missingEnd)
    decreases |c.toks| - st.pos
  {
    var sym := Cur(c, st);
    if sym.id == Some(Scanner.END) || sym.id == Some(Scanner.EOF) {
    } else if sym.kind == Some(Scanner.Keyword) || sym.kind == Some(Scanner.Colon) {
    } else {
      var a := ListStep(c, st, item);
      var b := BuildList(c, a.1, item);
      assert BuildList(c, st, item) == (a.0 && b.0, b.1);
      BuildListKeepsMissingEnd(c, a.1, item);
    }
  }

  /** The last error recorded is an END_ERROR at the current symbol. */
  ghost predicate EndErrorHere(c: Ctx, r: ParseState)
    requires r.pos < |c.toks|
  {
    |r.errors| > 0 && r.errors[|r.errors| - 1] == ErrorEntry(EndError, Cur(c, r).line, Cur(c, r).col)
  }

  /**
   * When a list loop sets `missing_end`, it has recorded an error, the
   * last of which is the END_ERROR at the keyword or colon where it
   * stopped.
   */
  lemma {:induction false} BuildListMissingEnd(c: Ctx, st: ParseState, item: Item)
    requires Valid(c, st)
    ensures var r := BuildList(c, st, item).1;
      r.missingEnd && !st.missingEnd ==> |r.errors| > |st.errors| && EndErrorHere(c, r)
    decreases |c.toks| - st.pos
  {
    var sym := Cur(c, st);
    if sym.id == Some(Scanner.END) || sym.id == Some(Scanner.EOF) {
    } else if sym.kind == Some(Scanner.Keyword) || sym.kind == Some(Scanner.Colon) {
      var e := Error(c, st, EndError, false).1;
      assert e.errors == st.errors + NewErrors(st, e);
    } else {
      var a := ListStep(c, st, item).1;
      BuildListMissingEnd(c, a, item);
    }
  }

  /**
   * `check_syntax`: the loop of `build_list` for the syntax-only pass,
   * without its success flag.
   */
  function CheckSyntax(c: Ctx, st: ParseState, item: Item): (r: ParseState)
    requires Valid(c, st) && SyntaxOnly(item)
    ensures Follows(c, st, r) && r.world == st.world && ListStopped(c, r)
    ensures NoSemanticErrors(st, r)
  {
    BuildListFrame(c, st, item);
    BuildList(c, st, item).1
  }

  /**
   * `devicelist`: DEVICE_LIST, a colon, the devices and END. The result is
   * false when the keyword or an item failed (Python's None once EOF has
   * been reached); a missing END alone does not make it false.
   */
  function DeviceList(c: Ctx, st: ParseState): (r: (bool, ParseState))
    requires Valid(c, st)
    ensures Follows(c, st, r.1) && ItemFrame(DeviceItem, st.world, r.1.world)
    ensures st.reachedEof ==> !r.0 && r.1 == st
    ensures !st.missingEnd ==> !r.1.missingEnd
    ensures !r.0 && !st.reachedEof ==> |NewErrors(st, r.1)| > 0
    ensures r.0 ==> |NewErrors(st, r.1)| <= 1 && forall e :: e in NewErrors(st, r.1) ==> e.kind == EndError
  {
    if st.reachedEof then (false, st)
    else
      var kw := CheckKeyword(c, st, Scanner.DEVICE_LIST);
      if !kw.0 then (false, kw.1)
      else
        var b := BuildList(c, kw.1, DeviceItem);
        BuildListFrame(c, kw.1, DeviceItem);
        BuildListKeepsMissingEnd(c, kw.1, DeviceItem);
        if !b.0 then (false, if b.1.missingEnd then b.1.(missingEnd := false) else CheckEnd(c, b.1, true))
        else (true, CheckEnd(c, b.1, true))
  }

  /**
   * After connections accepted item by item: `check_network`, then END.
   * An unconnected input yields exactly one UNCONNECTED_INPUTS error, at
   * the symbol that ended the list, followed at most by an END_ERROR.
   */
  function CheckConnected(c: Ctx, b: ParseState): (r: (bool, ParseState))
    requires Valid(c, b)
    ensures Follows(c, b, r.1) && r.1.world == b.world && r.1.missingEnd == b.missingEnd
    ensures r.0 <==> c.env.checkNetwork(b.world.devices, b.world.connections)
    ensures r.0 ==> |NewErrors(b, r.1)| <= 1 && forall e :: e in NewErrors(b, r.1) ==> e.kind == EndError
    ensures !r.0 ==>
      && |NewErrors(b, r.1)| in {1, 2}
      && NewErrors(b, r.1)[0] == ErrorEntry(UnconnectedInputs, Cur(c, b).line, Cur(c, b).col)
      && (|NewErrors(b, r.1)| == 2 ==> NewErrors(b, r.1)[1].kind == EndError)
  {
    if !c.env.checkNetwork(b.world.devices, b.world.connections) then
      var e := Error(c, b, UnconnectedInputs, false).1;
      var d := CheckEnd(c, e, true);
      assert NewErrors(b, d) == NewErrors(b, e) + NewErrors(e, d);
      (false, d)
    else (true, CheckEnd(c, b, true))
  }

  /**
   * The connections of `connectionlist` with semantic checks, from the
   * symbol after the colon: the list, `check_network`, then END.
   */
  function Connections(c: Ctx, st: ParseState): (r: (bool, ParseState))
    requires Valid(c, st)
    ensures Follows(c, st, r.1) && ItemFrame(ConnectItem, st.world, r.1.world)
    ensures !st.missingEnd ==> !r.1.missingEnd
    ensures !r.0 ==> |NewErrors(st, r.1)| > 0
    ensures r.0 ==> |NewErrors(st, r.1)| <= 1 && forall e :: e in NewErrors(st, r.1) ==> e.kind == EndError
    ensures r.0 ==> c.env.checkNetwork(r.1.world.devices, r.1.world.connections)
  {
    var b := BuildList(c, st, ConnectItem);
    BuildListFrame(c, st, ConnectItem);
    BuildListKeepsMissingEnd(c, st, ConnectItem);
    if !b.0 then (false, if b.1.missingEnd then b.1.(missingEnd := false) else CheckEnd(c, b.1, true))
    else CheckConnected(c, b.1)
  }

  /**
   * The connections of `connectionlist` without semantic checks, from the
   * symbol after the colon: their shape, then END. False only when END
   * was missing.
   */
  function ConnectionShapes(c: Ctx, st: ParseState): (r: (bool, ParseState))
    requires Valid(c, st)
    ensures Follows(c, st, r.1) && r.1.world == st.world && NoSemanticErrors(st, r.1)
    ensures !st.missingEnd ==> !r.1.missingEnd
    ensures !r.0 && !st.missingEnd ==> |NewErrors(st, r.1)| > 0
  {
    var b := CheckSyntax(c, st, ConnectSyntaxItem);
    BuildListMissingEnd(c, st, ConnectSyntaxItem);
    if b.missingEnd then (false, b.(missingEnd := false))
    else
      var d := CheckEnd(c, b, true);
      NoSemanticTrans(c, st, b, d);
      (true, d)
  }

  /**
   * `connectionlist`: CONNECTION_LIST, a colon, the connections and END,
   * then (with semantic checks) `check_network`. Without semantic checks
   * only the shape is checked and nothing is built; the result is then
   * true even when syntax errors were found, unless END was missing.
   * Once EOF has been reached the result is true.
   */
  function ConnectionList(c: Ctx, st: ParseState, semantic: bool): (r: (bool, ParseState))
    requires Valid(c, st)
    ensures Follows(c, st, r.1) && ItemFrame(ConnectItem, st.world, r.1.world)
    ensures !semantic ==> r.1.world == st.world && NoSemanticErrors(st, r.1)
    ensures st.reachedEof ==> r.0 && r.1 == st
    ensures !st.missingEnd ==> !r.1.missingEnd
    ensures !r.0 && (semantic || !st.missingEnd) ==> |NewErrors(st, r.1)| > 0
    ensures semantic && r.0 && !st.reachedEof ==>
      && |NewErrors(st, r.1)| <= 1 && (forall e :: e in NewErrors(st, r.1) ==> e.kind == EndError)
      && c.env.checkNetwork(r.1.world.devices, r.1.world.connections)
  {
    if st.reachedEof then (true, st)
    else
      var kw := CheckKeyword(c, st, Scanner.CONNECTION_LIST);
      if !kw.0 then (false, kw.1)
      else
        var r := if semantic then Connections(c, kw.1) else ConnectionShapes(c, kw.1);
        NoSemanticTrans(c, st, kw.1, r.1);
        r
  }

  /**
   * The monitor points of `monitorlist`, from the symbol after the colon;
   * with semantic checks NO_MONITOR is recorded (without skipping) when
   * nothing is monitored afterwards.
   */
  function MonitorPoints(c: Ctx, st: ParseState, semantic: bool): (r: ParseState)
    requires Valid(c, st)
    ensures Follows(c, st, r) && ItemFrame(MonitorItem, st.world, r.world)
    ensures !semantic ==> r.world == st.world && NoSemanticErrors(st, r)
    ensures semantic && r.errors == st.errors ==> |r.world.monitors| > 0
    ensures semantic && |r.world.monitors| == 0 ==>
      |NewErrors(st, r)| > 0 && r.errors[|r.errors| - 1].kind == NoMonitor
  {
    if semantic then
      var m := BuildList(c, st, MonitorItem).1;
      BuildListFrame(c, st, MonitorItem);
      if |m.world.monitors| == 0 then Error(c, m, NoMonitor, false).1 else m
    else CheckSyntax(c, st, MonitorSyntaxItem)
  }

  /** The last error recorded is a NO_EOF at the current symbol. */
  ghost predicate EofErrorHere(c: Ctx, r: ParseState)
    requires r.pos < |c.toks|
  {
    |r.errors| > 0 && r.errors[|r.errors| - 1] == ErrorEntry(NoEof, Cur(c, r).line, Cur(c, r).col)
  }

  /**
   * The end of `monitorlist`: END, whose absence is recorded without
   * skipping, then NO_EOF (also without skipping) unless the file ends.
   */
  function MonitorTail(c: Ctx, st: ParseState): (r: ParseState)
    requires Valid(c, st)
    ensures Follows(c, st, r) && r.world == st.world
    ensures AtEof(c, r) || |NewErrors(st, r)| > 0
    ensures forall e :: e in NewErrors(st, r) ==> e.kind == EndError || e.kind == NoEof
    ensures !AtEof(c, r) ==> EofErrorHere(c, r)
  {
    var d := CheckEnd(c, st, false);
    assert d.errors == st.errors || NewErrors(st, d) == [ErrorEntry(EndError, Cur(c, st).line, Cur(c, st).col)];
    if !AtEof(c, d) then
      var e := Error(c, d, NoEof, false).1;
      assert NewErrors(st, e) == NewErrors(st, d) + [ErrorEntry(NoEof, Cur(c, d).line, Cur(c, d).col)];
      e
    else d
  }

  /** The monitor points of `monitorlist` and what follows them. */
  function MonitorRest(c: Ctx, st: ParseState, semantic: bool): (r: ParseState)
    requires Valid(c, st)
    ensures Follows(c, st, r) && ItemFrame(MonitorItem, st.world, r.world)
    ensures !semantic ==> r.world == st.world && NoSemanticErrors(st, r)
    ensures AtEof(c, r) || |NewErrors(st, r)| > 0
    ensures semantic && r.errors == st.errors ==> |r.world.monitors| > 0
  {
    var b := MonitorPoints(c, st, semantic);
    var d := MonitorTail(c, b);
    NoSemanticTrans(c, st, b, d);
    d
  }

  /**
   * `monitorlist`: MONITOR_LIST, a colon, the monitor points and END,
   * after which the file must end. With semantic checks at least one
   * point must be monitored.
   */
  function MonitorList(c: Ctx, st: ParseState, semantic: bool): (r: ParseState)
    requires Valid(c, st)
    ensures Follows(c, st, r) && ItemFrame(MonitorItem, st.world, r.world)
    ensures !semantic ==> r.world == st.world && NoSemanticErrors(st, r)
    ensures st.reachedEof ==> r == st
    ensures AtEof(c, r) || st.reachedEof || |NewErrors(st, r)| > 0
    ensures semantic && !st.reachedEof && r.errors == st.errors ==> |r.world.monitors| > 0
  {
    if st.reachedEof then st
    else
      var kw := CheckKeyword(c, st, Scanner.MONITOR_LIST);
      if !kw.0 then kw.1
      else
        var d := MonitorRest(c, kw.1, semantic);
        NoSemanticTrans(c, st, kw.1, d);
        d
  }

  // ---------------------------------------------------------------------
  // The whole file
  // ---------------------------------------------------------------------

  /** A fresh parser on the first symbol: no errors, both flags clear. */
  function Start(w: World): ParseState
  {
    ParseState(0, [], false, false, w)
  }

  /**
   * The lists after a failed device list: only their shape is checked,
   * so nothing is built and no semantic error is recorded.
   */
  function ShapesAfterDevices(c: Ctx, st: ParseState): (r: ParseState)
    requires Valid(c, st)
    ensures Follows(c, st, r) && r.world == st.world && NoSemanticErrors(st, r)
  {
    var cl := ConnectionList(c, st, false);
    var m := MonitorList(c, cl.1, false);
    NoSemanticTrans(c, st, cl.1, m);
    m
  }

  /**
   * The lists after a successful device list: the connections with
   * semantic checks, then the monitors, with semantic checks only when
   * the connections succeeded. Without a new error the file ends, every
   * input is connected and something is monitored.
   */
  function ListsAfterDevices(c: Ctx, st: ParseState): (r: ParseState)
    requires Valid(c, st)
    ensures Follows(c, st, r) && r.world.devices == st.world.devices
    ensures st.world.connections <= r.world.connections && st.world.monitors <= r.world.monitors
    ensures r.errors == st.errors && !st.reachedEof ==>
      && AtEof(c, r)
      && c.env.checkNetwork(r.world.devices, r.world.connections)
      && |r.world.monitors| > 0
    ensures var cl := ConnectionList(c, st, true);
      !cl.0 ==> r.world == cl.1.world && NoSemanticErrors(cl.1, r)
  {
    var cl := ConnectionList(c, st, true);
    MonitorList(c, cl.1, cl.0)
  }

  /**
   * `parse_network`: the device, connection and monitor lists. Once the
   * device list fails the rest of the file is only checked for syntax,
   * and once the connection list fails so is the monitor list. The parse
   * succeeds exactly when it ends on EOF with no error recorded.
   */
  function ParseNetwork(c: Ctx, w: World): (r: (bool, ParseState))
    requires ValidStream(c)
    ensures Valid(c, r.1)
    ensures r.0 <==> r.1.errors == []
    ensures r.0 ==>
      && AtEof(c, r.1)
      && c.env.checkNetwork(r.1.world.devices, r.1.world.connections)
      && |r.1.world.monitors| > 0
    ensures Extends(w.devices, r.1.world.devices)
    ensures w.connections <= r.1.world.connections && w.monitors <= r.1.world.monitors
  {
    var st := Start(w);
    var dl := DeviceList(c, st);
    var r := if dl.0 then ListsAfterDevices(c, dl.1) else ShapesAfterDevices(c, dl.1);
    (AtEof(c, r) && |r.errors| == 0, r)
  }

  /**
   * The mode switch of `parse_network`: after a failed device list
   * nothing more is built and only syntax errors are recorded; after a
   * failed connection list the same holds for the monitor list.
   */
  lemma ParseNetworkModes(c: Ctx, w: World)
    requires ValidStream(c)
    ensures var dl := DeviceList(c, Start(w));
      var r := ParseNetwork(c, w).1;
      && (!dl.0 ==> r.world == dl.1.world && NoSemanticErrors(dl.1, r))
      && (dl.0 && !ConnectionList(c, dl.1, true).0 ==>
            var cl := ConnectionList(c, dl.1, true).1;
            r.world == cl.world && NoSemanticErrors(cl, r))
  {
  }

  /**
   * The whole front end on the text of a definition file: the symbols the
   * scanner yields, parsed by `parse_network` against the collaborators
   * `env`, starting from the world `w`.
   */
  function ParseFile(s: string, env: Env, w: World): (r: (bool, ParseState))
    ensures var t := Scanner.Tokenize(s);
      && r.1.pos < |t.symbols|
      && (r.0 <==> r.1.errors == [])
      && (r.0 ==>
            && t.symbols[r.1.pos].id == Some(Scanner.EOF)
            && env.checkNetwork(r.1.world.devices, r.1.world.connections)
            && |r.1.world.monitors| > 0)
  {
    var t := Scanner.Tokenize(s);
    ParseNetwork(Ctx(t.symbols, t.names, env), w)
  }
}
