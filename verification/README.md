# Logic-Simulator definition-language front end in Dafny

This project models the front end of the Logic-Simulator: the lexer in
`scanner.py` and the recursive-descent parser with error recovery in
`parse.py`. Together they read a circuit definition file made of a
`DEVICE_LIST`, a `CONNECTION_LIST` and a `MONITOR_LIST`. The parser drives
the device, network and monitor modules. Those modules are not part of
this model, so they appear only as abstract collaborators.

Modules:

- `util.dfy`: `Option` and `Min`.
- `names.dfy` (`Names`): the interning table the scanner and parser use.
  - It is an append-only list of strings.
  - A string's identifier is its index.
- `scanner.dfy` (`Scanner`): the lexer as pure functions.
  - The scanner's fields (position, current character, line and column counters, comment switch, names table) form a `LexState`.
  - Each scanner method maps one state to the next.
  - `Tokenize` calls `get_symbol` until it returns EOF and collects the symbols.
- `lines.dfy` (`Lines`): `print_line`, over the file split into lines the way Python's file iteration splits it.
- `network.dfy` (`Network`): the collaborators as the parser sees them.
  - The nine device kinds.
  - The `World` of devices made, connections made and monitored points.
  - An `Env` record of functions that decide whether `make_device`, `make_connection` and `make_monitor` fail, and what `check_network` answers.
- `parser.dfy` (`Parser`): the parser as state passing over the symbol list.
  - A `ParseState` holds the index of the current symbol, the `(error, line, column)` list, the `missing_end` and `reached_eof` flags, and the world built so far.
  - `check_valid_name` is the test `name in world.devices` inside `Device`.
  - `IoEnd`, `TerminatedIoEnd` and `ConnectionEnd` say, by index into the symbol list, where a well-formed reference, `io ";"` and `io "->" io ";"` end. The item parsers are stated against them.

Behaviour of the code that the model reproduces and a reader might not expect:

- **Block comments.** The comment loop (scanner.py:127-135) reads the character after a `*` and, unless it is `/`, throws it away with the following whitespace skip. A `*/` directly after another `*` is therefore missed. The lexer here runs that loop as written; the Findings section shows the consequence and proves the corrected loop.
- **The EOF symbol.** At the end of input `get_symbol` returns a symbol with the identifier EOF (0) and no type (scanner.py:145-146, 156-157).
- **A stray `-`.** A `-` consumes the character after it and is an arrow only when that character is `>`. Otherwise the symbol has neither a type nor an identifier (scanner.py:199-203, 208).
- **A lone `/`.** A `/` that does not start a comment swallows the character after it, then the whitespace that follows (scanner.py:120-126).
- **Other characters.** Any other character is interned and yields a symbol without a type (scanner.py:205-208).
- **Syntax-only mode.** `parse_network` (parse.py:125-137) decides when to switch:
  - when `devicelist` returns false, for a syntactic or a semantic failure alike, both later lists are only checked for syntax;
  - when `connectionlist` returns false, the monitor list is only checked for syntax.
- **Monitor items.** `monitor` (parse.py:354-371) returns nothing on every path, so `build_list` (parse.py:400-422) reports failure as soon as one monitor item has run. With no monitor items the loop body never runs and it returns true. `monitorlist` (parse.py:226-232) ignores the result either way.

## Model

| member | source | states |
|---|---|---|
| Names.Query | test_names.py:40-45 | Finds a string's identifier: the first index holding it, and None exactly when the string is not interned |
| Names.Lookup | test_names.py:21-29 | An interned string keeps its identifier and the table is unchanged; a new string is appended and gets the next index; distinctness is preserved |
| Names.LookupAll | test_names.py:21-29 | Interns a list in order: one identifier per string naming that string, the old table a prefix of the new one, distinctness preserved |
| Names.LookupIdempotent | test_names.py:21-29 | Interning the same string a second time returns the same identifier and table |
| Names.QueryAfterLookup | test_names.py:40-45 | After interning, `query` finds exactly the identifier `lookup` handed out |
| Names.LookupAllFresh | test_names.py:21-29 | Interning distinct new strings hands out consecutive identifiers from the table's length and appends them in order |
| Scanner.ReservedIds | scanner.py:83-97 | The constructor's five lookups give EOF 0, the punctuation 1-4, OFF/ON 5-6, the list keywords 7-10 and the device keywords 11-19, each stage extending the table |
| Scanner.InitialNamesReserved | scanner.py:83-97 | The table after the constructor is exactly the twenty reserved strings in declaration order |
| Scanner.InitBetween | scanner.py:65-97 | A fresh scanner (current character a space, line 1, column 0, no comment) satisfies the scanner invariant |
| Scanner.Read | scanner.py:99-109 | Reads the next character (nothing at the end); a newline moves to the next line at column 0 and ends a line comment, anything else advances the column; the invariant is kept and the measure does not grow |
| Scanner.NextNonSpace | scanner.py:111-116 | Stops on a non-space character or at the end of input, having skipped only whitespace; a line comment ends exactly when a newline was skipped |
| Scanner.SkipCommentBodyAsWritten | scanner.py:127-135 | The comment loop as written, which the lexer runs, ends with the comment closed or the input exhausted, on a non-space character, and does nothing outside a comment |
| Scanner.SkipCommentBody | scanner.py:127-135 | The corrected comment loop (the Findings row) ends with the comment closed or the input exhausted, on a non-space character, and does nothing outside a comment |
| Scanner.CommentCheck | scanner.py:118-136 | Runs rounds of comment skipping, with the loop as written, until the current character is not `/`; it ends on neither `/` nor whitespace and leaves a state not at `/` unchanged |
| Scanner.SkipComment | scanner.py:120-135 | One round of `comment_check` on a `/`: it makes progress and ends on a non-space character, outside any comment, or at the end of input |
| Scanner.LineCommentSkipped | scanner.py:120-135 | A round on `//` whose first newline is at `n` ends exactly on the first non-space character after that newline, or exhausts the input |
| Scanner.BlockCommentSkipped | scanner.py:120-135 | A round on `/*` whose only `*` up to its close is the closing one ends exactly on the first non-space character after the `*/`, or exhausts the input |
| Scanner.LoneSlashSkipped | scanner.py:120-126 | A round on a `/` followed by another character skips exactly that character and the whitespace after it, ending on the next non-space character |
| Scanner.CommentCheckResumes | scanner.py:136 | After such a round `comment_check` stops on the character the round ended on unless it is `/`, and otherwise continues exactly as from that character |
| Scanner.Landed | scanner.py:111-116 | A state that has skipped only whitespace since index `p` is the state at the first non-space character at or after `p` |
| Scanner.BlockCommentStarFree | scanner.py:127-135 | Inside a block comment with no `*` before its close, the loop as written ends the comment at that close and stops at the first non-space character after it |
| Scanner.AsWrittenEndsOnlyAtClose | scanner.py:127-135 | The loop as written never ends a block comment early: it exhausts the input or stops on the whitespace after some `*/` at or after the current character |
| Scanner.SkipLayout | scanner.py:148-151 | Skips whitespace and then comments, ending on a character that is neither whitespace nor `/`, or at the end of input |
| Scanner.BlockCommentEndsAtFirstClose | scanner.py:124-135 | With the corrected loop, a block comment ends at its first `*/`, and scanning resumes at the first non-space character after it |
| Scanner.BlockCommentUnclosed | scanner.py:127-135 | With the loop as written, a block comment with no `*/` ahead consumes the rest of the input |
| Scanner.LineCommentEndsAtNewline | scanner.py:104-135 | With the loop as written, a line comment ends at the first newline after it, and the loop stops at the first non-space character after that newline |
| Scanner.StarStarSlashCounterexample | scanner.py:130-135 | On `/***/X` the loop as written, and so `comment_check`, swallows `X` and the rest of the input, while the corrected loop resumes at `X` |
| Scanner.StarStarSlashFirstSymbol | scanner.py:138-157 | On `/***/X` the first symbol `get_symbol` returns is already EOF |
| Scanner.StarStarSlashAsWritten | scanner.py:130-135 | The as-written loop runs off the end of `/***/X` |
| Scanner.StarStarSlashCorrected | scanner.py:130-135 | The corrected loop resumes at `X` on `/***/X` |
| Scanner.RunSlice | scanner.py:159-171 | The run starting at a run character is a maximal slice of the input (every character continues the run, the next one does not) |
| Scanner.ReadRun | scanner.py:159-171 | The digit and name loops collect exactly the run starting at the current character and stop just past it |
| Scanner.InternReserved | scanner.py:165-172 | Looking up a reserved string returns its reserved identifier and leaves the table alone |
| Scanner.InternUnreserved | scanner.py:165-172 | Any other string gets an identifier past the reserved ones |
| Scanner.ReservedClass | scanner.py:174-184 | For each reserved identifier, classifying by identifier agrees with classifying by text |
| Scanner.ClassifyAgrees | scanner.py:172-184 | Classifying the looked-up identifier as `get_symbol` does equals ranking the word: list keyword, device keyword, OFF/ON, name |
| Scanner.Intern | scanner.py:165-172 | Interning a symbol's text yields a non-EOF identifier naming that text, classified by its text, and changes nothing but the table |
| Scanner.InternRun | scanner.py:159-172 | Reads the run at the current character and interns it; the identifier names the run's text and the state is just past the run |
| Scanner.ScanNumber | scanner.py:159-165 | The digit run at the current character is one NUMBER symbol, placed at the run's first character, whose identifier names that run's text; the next symbol starts just past the run |
| Scanner.ScanNumberMaximal | scanner.py:159-165 | A NUMBER symbol's text is exactly the slice from its first character to where the next symbol starts, and that slice is a maximal digit run |
| Scanner.ScanWord | scanner.py:167-184 | The run of letters, digits and `_` at the current character is one symbol whose identifier names the run's text, typed by ranking that text |
| Scanner.ScanWordMaximal | scanner.py:167-184 | A word symbol's text is exactly a maximal run of letters, digits and `_` in the input, and its type is the ranking of that slice |
| Scanner.ScanOther | scanner.py:186-208 | `:` `;` `.` give their punctuation symbols; `-` consumes two characters and is an arrow only before `>`, otherwise untyped and without identifier; any other character is interned untyped |
| Scanner.CurrentPosition | scanner.py:153-154 | On a non-space character the line and column counters are that character's line and column in the text |
| Scanner.ScanToken | scanner.py:152-210 | The symbol sits at the line and column of its first character and is never EOF. A digit gives a NUMBER naming the digit run, and a letter gives a symbol naming the run of letters, digits and `_`, typed by ranking that text. `:` `;` `.` give their punctuation symbols. `-` takes two characters and is an arrow only before `>`, otherwise it has neither type nor identifier. Any other character is interned alone, without a type. In every case the next symbol starts where the text above ends |
| Scanner.GetSymbol | scanner.py:138-210 | At exhaustion it returns an untyped EOF symbol and leaves the state alone. Otherwise it skips whitespace and then runs the comment loop as written; the symbol is EOF exactly when that leaves nothing to read, and is otherwise the symbol described for `ScanToken` at the first character left. Every symbol is well formed |
| Scanner.EofRepeats | scanner.py:145-157 | After an EOF symbol, the next call returns the same EOF symbol and state |
| Scanner.SymbolsFrom | scanner.py:138-210 | Repeated `get_symbol` calls give a stream ending in exactly one untyped EOF, all symbols well formed, the reserved table kept |
| Scanner.Tokenize | scanner.py:65-210 | The whole file's symbol stream ends in one EOF, and its names table starts with the reserved words |
| Network.KindRoundTrip | scanner.py:94-97 | Device keywords and device kinds correspond one to one |
| Lines.SplitLines | scanner.py:219 | File iteration yields non-empty lines |
| Lines.SplitLinesConcat | scanner.py:219 | The lines put back together are the file |
| Lines.SplitLinesShape | scanner.py:219 | Every line but the last ends in a newline, and no line has a newline anywhere else |
| Lines.LocateInLines | scanner.py:212-221 | The line and column the scanner reports for a character locate that character in the lines `print_line` iterates over |
| Lines.Spaces | scanner.py:224 | `" " * n` is `n` blanks, none for `n <= 0` |
| Lines.CaretUnderColumn | scanner.py:221-232 | The caret's offset points at the reported column. A short line or early column is shown whole with `colnum - 1` blanks. A long line near its end is shown as its last 73 characters with `colnum - len + 75` blanks. Otherwise the 73 characters from `colnum - 36` are shown between `...` markers, 80 characters in all, with 38 blanks |
| Lines.PrintLine | scanner.py:212-236 | The result ends in a caret and is `"\n^"` when the line does not exist. Otherwise it is the whole line and `colnum - 1` blanks for a short line or early column, the last 73 characters and `colnum - len + 75` blanks near the end of a long line, and the 73 characters from `colnum - 36` between `...` markers and 38 blanks otherwise |
| Lines.PrintLineShowsCharacter | scanner.py:212-234 | For the position the scanner reports for a character, the output is that line's excerpt, blanks and a caret, with the character directly above the caret; a line printed whole is followed by exactly `column - 1` blanks |
| Parser.StopSet | parse.py:543-670 | Every error's stopping set contains EOF |
| Parser.EofIsLast | scanner.py:145-157 | In a valid stream the current symbol is EOF exactly at the last position, and EOF is untyped |
| Parser.Advance | scanner.py:145-157 | Moves to the next symbol, staying on EOF once there |
| Parser.SkipTo | parse.py:675-678 | Finds the first stopping symbol at or after the current one |
| Parser.Error | parse.py:538-688 | Records exactly one error at the current symbol's line and column. Without advancing it stays put and returns None. With advancing it skips to the first stopping symbol, consumes it unless it is EOF (then sets `reached_eof`), and returns its identifier |
| Parser.CheckKeyword | parse.py:385-398 | Succeeds, consuming both symbols, exactly when the keyword is followed by a colon. Otherwise it records KEYWORD_ERROR at the current symbol, or SYNTAX_COLON at the symbol after the keyword, and skips from there to the first END or EOF, consuming END or setting `reached_eof` at EOF |
| Parser.CheckEnd | parse.py:440-447 | Consumes END, or records one END_ERROR at the current symbol, skipping only with recovery |
| Parser.DigitsValueDecimal | parse.py:480 | Reading a number's decimal notation back with `int` gives the number |
| Parser.GetProperty | parse.py:457-483 | OFF/ON after SWITCH are the low/high levels; a NUMBER is its digit string for SIGGEN and its integer value otherwise; any other symbol gives no property |
| Parser.GetPin | parse.py:498-522 | After a made device's name it succeeds exactly when a `.` and a name follow and a pin is wanted, or no `.` follows and none is wanted; it then returns the device with the pin named after the `.` (None without one) and consumes exactly those symbols. An unexpected `.` gives IDENTIFIER_PRESENT, a `.` without a name NO_IDENTIFIER at the symbol after it, and a missing `.` a SYNTAX error for the period |
| Parser.GetIo | parse.py:485-522 | Succeeds exactly on a made device's name followed by `.name` when a pin is required (inputs, and outputs of D-types) and by no `.` otherwise; it then returns `(device, pin)` with the pin named after the `.`, and consumes the reference and nothing more. Otherwise one error: NO_DEVICE for an unknown name, IDENTIFIER_PRESENT, NO_IDENTIFIER or the SYNTAX error for the period, each at the offending symbol |
| Parser.CheckIo | parse.py:524-536 | Succeeds exactly when the name is not followed by a `.`, or by a `.` and a name, and then consumes exactly that reference; otherwise records NO_IDENTIFIER at the symbol after the `.`. It never reports a semantic error |
| Parser.GetIoChecked | parse.py:485-536 | For a made device, `get_io` succeeds exactly when `check_io` does and the `.pin` is present just when required, and then both consume the same symbols |
| Parser.ExpectSemiColon | parse.py:279-283 | Consumes a semicolon, or records one SYNTAX error for it and skips |
| Parser.FinishDevice | parse.py:270-283 | The device is added exactly when `make_device` accepts it, even if the semicolon then fails. A refusal records the collaborator's error and changes nothing; after an acceptance it succeeds exactly when a semicolon follows, otherwise one SYNTAX error |
| Parser.PropertyAt | parse.py:262-268 | On a property or number symbol the property is `get_property`'s and the symbol is consumed; otherwise no property and nothing consumed |
| Parser.Device | parse.py:241-288 | Succeeds exactly when a device keyword, a fresh name, the optional property and a semicolon follow and `make_device` accepts the device; the device is added exactly when `make_device` accepts it, even without the semicolon, and nothing else changes. Otherwise one error: NO_DEVICE, BAD_NAME, NOT_VALID_NAME, the collaborator's error or the SYNTAX error for the semicolon, each at the offending symbol |
| Parser.FinishConnect | parse.py:307-320 | The connection is appended exactly when `make_connection` accepts it, even if the semicolon then fails. A refusal records the collaborator's error and changes nothing; after an acceptance it succeeds exactly when a semicolon follows |
| Parser.Connect | parse.py:290-328 | Succeeds exactly when an output reference `get_io` accepts, `->`, an input reference it accepts and a semicolon follow and `make_connection` accepts the pair. The connection from that output to that input is appended exactly when `make_connection` accepts it; devices and monitors never change. A failed output reference ends the item with `get_io`'s error; a missing `->` is a SYNTAX error and a non-name after it a SYMBOL_TYPE_ERROR |
| Parser.ConnectSyntaxInput | parse.py:340-350 | From the symbol after `->`: free of errors exactly when `io ";"` follows, which it then consumes; otherwise one error, a SYMBOL_TYPE_ERROR when no name follows. Never semantic, builds nothing |
| Parser.ConnectSyntaxTail | parse.py:336-352 | After the output reference: free of errors exactly when `"->" io ";"` follows, which it then consumes; a missing `->` is one SYNTAX error |
| Parser.ConnectSyntax | parse.py:330-352 | Free of errors exactly when `io "->" io ";"` follows, consuming exactly those symbols; otherwise one error, never semantic. Builds nothing |
| Parser.Monitor | parse.py:354-371 | The output `get_io` reads is added exactly when `make_monitor` accepts it, even if the semicolon then fails; nothing else changes. Free of errors exactly when it is accepted and a semicolon follows, consuming the reference and the semicolon. A failed reference ends the item with `get_io`'s error; otherwise the collaborator's error or the SYNTAX error for the semicolon |
| Parser.MonitorSyntax | parse.py:373-383 | Free of errors exactly when `io ";"` follows, consuming exactly those symbols; otherwise one error, never semantic. Builds nothing |
| Parser.ConnectHasShape | parse.py:290-352 | A connection `connect` accepts is one `connect_syntax` accepts without error, and both consume the same symbols |
| Parser.MonitorHasShape | parse.py:354-383 | A monitor point `monitor` accepts without error is one `monitor_syntax` accepts without error, and both consume the same symbols |
| Parser.RunItem | parse.py:408-410 | An item consumes at least one symbol, changes only its own part of the world, and (for devices and connections) succeeds exactly when it records no error |
| Parser.ListStep | parse.py:408-420 | One loop turn consumes at least one symbol. On a symbol of the expected type it runs the item; on any other it records SYMBOL_TYPE_ERROR for the expected type at that symbol, skips to the next semicolon, END or EOF, and counts as failure |
| Parser.BuildList | parse.py:400-422 | The loop stops at END, at EOF, or (setting `missing_end`) at a keyword or colon; for devices and connections it succeeds exactly when no error was recorded |
| Parser.BuildListFrame | parse.py:400-422 | The loop changes only its items' part of the world, and a syntax-only loop records no semantic error |
| Parser.BuildListKeepsMissingEnd | parse.py:411-416 | The loop never clears `missing_end`, and a successful loop does not set it |
| Parser.BuildListMissingEnd | parse.py:411-416 | When the loop sets `missing_end`, its last error is the END_ERROR at the symbol where it stopped |
| Parser.CheckSyntax | parse.py:424-438 | The syntax-only loop builds nothing, records no semantic error, and stops where `build_list` would |
| Parser.DeviceList | parse.py:153-176 | Returns immediately after `reached_eof`. On success at most an END_ERROR was recorded; on failure at least one error. Only devices change, and `missing_end` is cleared |
| Parser.CheckConnected | parse.py:204-212 | A false `check_network` gives exactly one UNCONNECTED_INPUTS at the current symbol, followed at most by an END_ERROR |
| Parser.Connections | parse.py:191-212 | On success every input is connected and at most an END_ERROR was recorded; on failure some error was recorded |
| Parser.ConnectionShapes | parse.py:198-212 | The syntax-only connection list builds nothing and records no semantic error |
| Parser.ConnectionList | parse.py:178-212 | Returns true immediately after `reached_eof`. In syntax-only mode nothing is built and no semantic error is recorded; in build mode success means every input is connected |
| Parser.MonitorPoints | parse.py:226-232 | In build mode an empty monitor set ends in a NO_MONITOR error, so without new errors something is monitored; in syntax-only mode nothing is built |
| Parser.MonitorTail | parse.py:234-239 | After the monitor list, either the file ends or NO_EOF is the last error recorded |
| Parser.MonitorRest | parse.py:226-239 | The monitor list body ends on EOF or records an error |
| Parser.MonitorList | parse.py:214-239 | Returns immediately after `reached_eof`; otherwise ends on EOF or records an error; in build mode without errors something is monitored |
| Parser.ShapesAfterDevices | parse.py:126-130 | After a failed device list the later lists build nothing and record no semantic error |
| Parser.ListsAfterDevices | parse.py:131-137 | After a good device list, with no new error the file ends, every input is connected and something is monitored; after a failed connection list nothing more is built |
| Parser.ParseNetwork | parse.py:120-151 | Succeeds exactly when no error was recorded. Success implies the parse ended on EOF, every input is connected and something is monitored. The world only grows |
| Parser.ParseNetworkModes | parse.py:126-137 | After a failed device list, and after a failed connection list, the rest of the parse builds nothing and records only syntax errors |
| Parser.ParseFile | parse.py:120-142 | Scanning then parsing a file succeeds exactly when no error is recorded, and then ends on EOF with a fully connected, monitored network |

## Left out

- Reading the file (`open`, `os.path.getsize`, `seek`): the file is a `string`, and `print_line` splits that string into lines itself.
- Character classes are ASCII only (`isspace`, `isdigit`, `isalpha`, `isalnum` also accept other Unicode characters). `\r` is ordinary whitespace and is not translated.
- Error message wording, the "Parsing resumed on line" suffix, console `print` calls and `error_report`: only the error kind and its line and column are recorded. `error_count` is the length of the error list, since each error adds one to both.
- devices.py, network.py and monitors.py are not part of this model. Their decisions are parameters (`Network.Env`), and a successful call only records the device, connection or monitor point.
- `names.unique_error_codes` and the numeric error-code values: error kinds are a datatype.
- The parser reads the scanner's symbols from a list produced up front. This is equivalent because `get_symbol` does not depend on the parser and keeps returning EOF at the end.
- Parser.GetIoChecked, Parser.ConnectHasShape and Parser.MonitorHasShape: Dafny proves them from the contracts of the reference and item functions, so they carry no proof of their own.
- Parser.ParseNetworkModes: Dafny proves it from the contracts of the list functions, so it carries no proof of its own.
- Scanner.CommentCheck: `comment_check` calls itself once per comment round (scanner.py:136). A run of roughly a thousand consecutive comments therefore exceeds Python's default recursion limit, and `get_symbol` raises `RecursionError`, which neither scanner.py nor parse.py catches. The model has no recursion limit and keeps skipping comments.
- Scanner.EofRepeats: Dafny proves it from GetSymbol's contract, so it carries no proof of its own.

## Findings

| source | as written | input that shows it | evidently intended | confidence | as-written member | corrected member |
|---|---|---|---|---|---|---|
| scanner.py:130-135 | Inside a block comment, after a `*` the next character is read; if it is not `/`, the following whitespace skip throws it away. A second `*` is never tested as the start of `*/` | `/***/X`: the comment never closes, `X` and the rest of the file are swallowed, and the first symbol is EOF | A block comment ends at the first `*/` (a `*` read while looking for `/` is examined again) | not executed | Scanner.SkipCommentBodyAsWritten, Scanner.StarStarSlashCounterexample, Scanner.StarStarSlashFirstSymbol | Scanner.SkipCommentBody, Scanner.BlockCommentEndsAtFirstClose |
