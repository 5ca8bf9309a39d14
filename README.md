# zplating: a verified model of a streaming ZPL parser

zplating reads ZPL, the Zebra printer control language, one character at a
time. A command starts with a control character: the caret `^` or the tilde
`~`. A short mnemonic follows, and then arguments whose lexical shape the
mnemonic's entry in a grammar table describes. The parser produces a list of
structured commands. The command-line tool prints that list back out, one
command per line.

The model has three parts:

- **The grammar table** of `pkg/zpl/command.go` (module `Grammar`). It holds
  the format tokens NONE/BYTE/TEXT/PARAM/DELIMITER, the `Command` record and
  the 18-entry table. It also proves the structural facts the parser relies
  on: every key is `^`/`~` plus one or two ASCII letters, the key set is
  prefix-free, no format contains NONE, no format ends in DELIMITER, and each
  change command reads exactly one BYTE.
- **The parser state machine** of `pkg/zpl/parser.go`. It lives in two
  modules:
  - `Machine` defines the parser as pure functions over a `Config` record
    that holds the fields of the Go `Parser` struct. It also defines the
    invariant `Inv` that every reachable configuration satisfies.
  - `Parsing.Parser` is a class with the same fields. Its methods update
    those fields in place, as the Go methods do. Each method is proved to
    leave the fields exactly as the matching `Machine` function says. That
    includes `feed` re-feeding itself a control character that ends an
    argument. The recursion terminates because each re-feed either uses up
    an argument slot or returns to Ready.

  The properties of the parser are proved about the `Machine` functions.
  Module `MachineFacts` holds the general properties, `Steps` gives one
  step of `feed` per branch, and `Runs` covers runs of several characters.
  Module `Examples` follows whole programs: `^FO<a>,<b>^FS`, `^FD<t>^FS`,
  `^CC<c><c>FS`, `^CD<d>` followed by `^FO`, and the three lexical failures:
  a stray character in Ready, an unknown mnemonic `^ZZZZ`, and a missing
  delimiter in `^A<b><o><x>`.
- **The re-serialiser** `printZPL` of `cmd/zplating/main.go` (module
  `Printer`). It is a method with a loop that updates a prefix map and a
  delimiter, as the Go code does. It is proved equal to a specification
  function `Print`. The lemmas about `Print` state these facts:
  - a run that goes to the end prints one line per command;
  - each line is printed with the settings left by the commands before it;
  - those settings depend only on the last change command of each kind;
  - `^CC` and `~CC` have the same effect;
  - any list the parser produces prints without a panic.

Go specifics are modelled where they matter:
- Mnemonic length is counted in UTF-8 bytes, as `len` does (`Runes.ByteLength`).
- `rune(s[0])` is the first byte of the UTF-8 encoding (`Runes.LeadingByte`).
- `unicode.IsSpace` is Go's list of white-space code points (`Runes.IsSpace`).
- `strings.Join` is `Runes.Join`.
- Go's panics in the printer become an explicit `ok = false` result, with
  the lines printed before the panic.

## Model

| member | source | states |
|---|---|---|
| Grammar.KeysAreMnemonics | pkg/zpl/command.go:50-69 | every key has 2 or 3 ASCII characters and starts with `^` or `~`; the only 2-character key is `^A` |
| Grammar.PrefixFree | pkg/zpl/command.go:50-69 | a key that is a prefix of another key is that key |
| Grammar.FormatsAreReadable | pkg/zpl/command.go:41-69 | no format contains NONE, and no non-empty format ends in DELIMITER |
| Grammar.ChangeCommandsReadOneByte | pkg/zpl/command.go:48-60 | `^CC`/`~CC`/`^CT`/`~CT`/`^CD`/`~CD` are the keys with tail CC/CT/CD, and each maps to exactly [BYTE] |
| Grammar.FontCommandFormat | pkg/zpl/command.go:51 | `^A` is the only entry with a DELIMITER token, and it is [BYTE, BYTE, DELIMITER, PARAM, PARAM] |
| Grammar.TableEntries | pkg/zpl/command.go:41-68 | `^FR`, `^FS`, `^XA`, `^XZ` take no arguments; `^FD` and `^FX` take one TEXT; `^FO` takes 2 PARAMs, `^BY`/`^CF` 3, `^GB` 5; `^BC` takes 5 PARAMs (its format is named `p6`) |
| Grammar.TrailingSlotsAreParams | pkg/zpl/command.go:41-69 | in every format, only PARAM slots follow a PARAM or TEXT slot |
| Grammar.SlotsLength | pkg/zpl/command.go:24-36 | a format has one argument slot per token that is not DELIMITER |
| Grammar.Commands | pkg/zpl/command.go:40-70 | the 18-entry lexicon, entry for entry; its properties are the `Grammar` lemmas above |
| Runes.ByteLength | pkg/zpl/parser.go:150 | the UTF-8 byte length that `len` measures lies between the character count and 4 times it, and equals the count on ASCII |
| Runes.LeadingByte | pkg/zpl/parser.go:211-215 | `rune(s[0])` is a byte value; it returns an ASCII character unchanged and a non-ASCII one as a lead byte of 0xC0 or more |
| Runes.Join | cmd/zplating/main.go:37 | `strings.Join` is empty on no elements; otherwise its length is the total length plus one separator between each pair of neighbours |
| Runes.IsSpace | pkg/zpl/parser.go:122 | `unicode.IsSpace`: the space, tab, newline and carriage return are white space, and no visible ASCII character (so neither `^`, `~` nor `,`) is |
| Machine.NewParser | pkg/zpl/parser.go:81-97 | a fresh parser is Ready, has no error and no commands, and satisfies the invariant |
| Machine.CurrentFmt | pkg/zpl/parser.go:233-239 | the format of the current command (defined only for a known mnemonic) does not end in DELIMITER |
| Machine.Fail | pkg/zpl/parser.go:228-231 | the parser enters Error, the error records the current row, column and reason, the commands are unchanged, and the invariant is kept |
| Machine.Emit | pkg/zpl/parser.go:202-226 | with a slot left unfilled, `emit` fails with "too few arguments" and keeps the commands; otherwise it appends the command, returns to Ready with the command state cleared, and a change command sets the caret, tilde or delimiter to the first byte of its first argument; the position is unchanged |
| Machine.ChangeControl | pkg/zpl/parser.go:209-216 | the change-command step of `emit` touches only the caret, tilde and delimiter, and leaves the configuration unchanged for any other command |
| Machine.EmitKeepsInv | pkg/zpl/parser.go:202-226 | emitting a command whose slots are all filled keeps the invariant, including the new command's well-formedness, and returns to Ready |
| Machine.FinishArg | pkg/zpl/parser.go:192-200 | the position is unchanged; if slots remain, the argument is stored and the next slot is selected; finishing the last slot leaves Arguments |
| Machine.FinishArgKeepsInv | pkg/zpl/parser.go:192-200 | finishing a BYTE, TEXT or PARAM argument keeps the invariant and strictly lowers the re-feed measure |
| Machine.FinishArgEmitsWellFormed | pkg/zpl/parser.go:192-226 | `finishArg` appends at most one command, and a command it appends has a table key as its name and one argument per slot |
| Machine.Feed | pkg/zpl/parser.go:112-190 | `feed` keeps the invariant of reachable configurations (terminating, although it re-feeds itself) |
| Machine.FeedReady | pkg/zpl/parser.go:120-136 | the Ready branch keeps the invariant |
| Machine.FeedMnemonic | pkg/zpl/parser.go:137-153 | the mnemonic branch keeps the invariant, which bounds a mnemonic being read to four bytes |
| Machine.FeedArgument | pkg/zpl/parser.go:154-184 | the Arguments branch keeps the invariant, so the slot index stays in bounds |
| Machine.FeedString | pkg/zpl/parser.go:101-108 | `feedString` keeps the invariant |
| Parsing.Parser.constructor | pkg/zpl/parser.go:81-97 | `newParser`: Ready at row 1, column 1, caret `^`, tilde `~`, delimiter `,`, no error, everything else empty, and equal to `Machine.NewParser` |
| Parsing.Parser.CurrentFmt | pkg/zpl/parser.go:233-239 | the table lookup of the current mnemonic, for a known mnemonic, agrees with `Machine.CurrentFmt` |
| Parsing.Parser.Fail | pkg/zpl/parser.go:228-231 | updates the fields in place to `Machine.Fail` of the old fields |
| Parsing.Parser.Emit | pkg/zpl/parser.go:202-226 | updates the fields in place to `Machine.Emit` of the old fields |
| Parsing.Parser.ChangeControl | pkg/zpl/parser.go:209-216 | updates the caret, tilde or delimiter in place to `Machine.ChangeControl` of the old fields |
| Parsing.Parser.FinishArg | pkg/zpl/parser.go:192-200 | updates the fields in place to `Machine.FinishArg` of the old fields |
| Parsing.Parser.Feed | pkg/zpl/parser.go:112-190 | keeps `Valid()`; the new fields and the result are `Machine.Feed` of the old fields |
| Parsing.Parser.FeedReady | pkg/zpl/parser.go:120-136 | the Ready branch, equal to `Machine.FeedReady` |
| Parsing.Parser.FeedMnemonic | pkg/zpl/parser.go:137-153 | the CARET_COMMAND/TILDE_COMMAND branch, equal to `Machine.FeedMnemonic` |
| Parsing.Parser.FeedArgument | pkg/zpl/parser.go:154-184 | the ARGUMENTS branch, equal to `Machine.FeedArgument` |
| Parsing.Parser.FeedByte | pkg/zpl/parser.go:157-159 | the BYTE slot stores the character as the argument and finishes it, equal to `Machine.FeedArgument` |
| Parsing.Parser.FeedDelimiter | pkg/zpl/parser.go:176-182 | the DELIMITER slot fails on any other character and otherwise moves to the next slot, equal to `Machine.FeedArgument` |
| Parsing.Parser.FeedControl | pkg/zpl/parser.go:166-169 | finishing the argument and re-feeding the control character through `Feed` gives `Machine.FeedArgument` |
| Parsing.Parser.FeedString | pkg/zpl/parser.go:101-108 | the loop feeds the characters in order, stops at the first false, and ends in `Machine.FeedString` of the old fields |
| MachineFacts.FeedStringAppend | pkg/zpl/parser.go:101-108 | if feeding `a` succeeds, feeding `a + b` equals feeding `a` and then `b` (so input cut at character boundaries can be delivered in any chunks) |
| MachineFacts.FeedStringStops | pkg/zpl/parser.go:103-105 | if feeding `a` fails, feeding `a + b` gives the same result as feeding `a` |
| MachineFacts.FeedStringSnoc | pkg/zpl/parser.go:102-106 | after a successful prefix, one more character is one more `feed` |
| MachineFacts.NewlineOnlyMovesPosition | pkg/zpl/parser.go:113-117 | a newline changes only the position (next row, column 1) and returns false exactly in Error |
| MachineFacts.SpaceSkippedInReady | pkg/zpl/parser.go:118-124 | in Ready, white space other than a newline only advances the column |
| MachineFacts.SpaceKeptInText | pkg/zpl/parser.go:166-172 | in a TEXT slot, white space is appended to the argument |
| MachineFacts.FeedPosition | pkg/zpl/parser.go:113-118 | a newline moves to the next row at column 1; any other character keeps the row and advances the column, by exactly one outside Arguments |
| MachineFacts.ErrorAbsorbs | pkg/zpl/parser.go:113-187 | in Error, `feed` returns false, and the configuration changes only in row and column |
| MachineFacts.FeedFalseOnlyInError | pkg/zpl/parser.go:112-190 | `feed` returns false only if the parser ends in Error |
| MachineFacts.FeedStringFalseOnlyInError | pkg/zpl/parser.go:101-108 | `feedString` returns false only if the parser ends in Error |
| MachineFacts.FeedStringAfterError | pkg/zpl/parser.go:185-187 | feeding a non-empty string to a failed parser returns false and keeps the error and the commands |
| MachineFacts.FeedAppendsAtMostOne | pkg/zpl/parser.go:112-190 | `Commands` only grows, and by at most one command per top-level `feed`, even with the re-feed |
| MachineFacts.FeedStringAppendOnly | pkg/zpl/parser.go:101-108 | `feedString` only extends `Commands`, by at most one command per character |
| MachineFacts.FeedStringEmitsWellFormed | pkg/zpl/parser.go:101-108 | every command that `feedString` appends is well formed: a table key and one argument per slot of its format |
| MachineFacts.FeedStringNeverTableError | pkg/zpl/parser.go:173-207 | the "too many arguments" and "too few arguments" failures are never reached |
| MachineFacts.CurrentFmtDefined | pkg/zpl/parser.go:233-239 | in Arguments the mnemonic is known, so `currentFmt` does not panic, and `argn` indexes the format |
| MachineFacts.ParsedCommandsWellFormed | pkg/zpl/parser.go:143-225 | every command parsed from any input has a table key as its name, starting with `^` or `~`, and as many arguments as its format has tokens other than DELIMITER |
| MachineFacts.ReadyStep | pkg/zpl/parser.go:120-136 | the Ready branch emits nothing, keeps the position and the control characters, and returns false exactly when it fails with the expected-control error |
| MachineFacts.MnemonicStep | pkg/zpl/parser.go:137-153 | the mnemonic branch always returns true and adds at most one command |
| MachineFacts.ReadyControlStep | pkg/zpl/parser.go:125-132 | in Ready, the caret starts a mnemonic spelled with a literal `^`, the tilde one spelled with `~`, whatever the current control characters are |
| MachineFacts.DelimiterEndsParam | pkg/zpl/parser.go:160-200 | in a PARAM slot, the delimiter ends the argument without being stored; in the last slot it emits the command |
| MachineFacts.ControlCharEndsCommand | pkg/zpl/parser.go:166-200 | in a PARAM or TEXT slot, the caret or tilde ends the argument and fills the remaining slots with empty strings; the command is emitted and the same character starts the next one |
| MachineFacts.ByteSlotStep | pkg/zpl/parser.go:157-159 | in a BYTE slot, the character itself, whatever it is, becomes the argument and is finished at once (what follows is stated by `Steps.ByteNextArgument`) |
| MachineFacts.ReadyRejects | pkg/zpl/parser.go:133-135 | in Ready, a character that is neither white space nor a control character fails (naming the caret and the tilde), returns false and emits nothing |
| MachineFacts.UnknownMnemonicFails | pkg/zpl/parser.go:150-153 | a mnemonic longer than four bytes that names no command fails with the invalid-command error, yet `feed` returns true |
| MachineFacts.DelimiterExpected | pkg/zpl/parser.go:176-179 | in a DELIMITER slot, any other character fails with the expected-delimiter error at the current position, returns false and emits nothing |
| Steps.ReadyStartsCommand | pkg/zpl/parser.go:118-132 | the whole new configuration when a control character starts a mnemonic |
| Steps.MnemonicGrows | pkg/zpl/parser.go:141-153 | a mnemonic that is not in the table and has at most four bytes is extended and nothing else changes |
| Steps.MnemonicOpensArguments | pkg/zpl/parser.go:141-145 | a mnemonic that names a command with arguments moves to Arguments |
| Steps.MnemonicEmitsBare | pkg/zpl/parser.go:146-149 | a mnemonic that names a command without arguments is emitted at once with no arguments |
| Steps.ArgumentGrows | pkg/zpl/parser.go:166-172 | an ordinary character in a PARAM or TEXT slot is appended to the argument |
| Steps.DelimiterNextArgument | pkg/zpl/parser.go:160-195 | the delimiter before the last PARAM slot stores the argument and moves to the next slot |
| Steps.ByteNextArgument | pkg/zpl/parser.go:157-199 | a BYTE slot that is not the last one takes any character, a control character included, and does not emit |
| Steps.DelimiterSkipped | pkg/zpl/parser.go:176-182 | a DELIMITER slot consumes the delimiter and stores nothing |
| Steps.ControlEndsLastArgument | pkg/zpl/parser.go:166-225 | a control character in the last slot emits the command and starts the next mnemonic, and the column advances twice |
| Steps.ChangeCommandStep | pkg/zpl/parser.go:157-225 | a change command's BYTE argument sets the caret, the tilde or the delimiter to its first byte, and the command is emitted and appended |
| Runs.ArgumentRun | pkg/zpl/parser.go:166-172 | a run of ordinary characters in a PARAM or TEXT slot is appended to the argument, one column per character |
| Runs.ReadMnemonic | pkg/zpl/parser.go:137-153 | once the control character is read, the rest of a table key reads that command: nothing happens on the way, because no shorter key is a prefix of it |
| Runs.ReadCommand | pkg/zpl/parser.go:125-153 | from Ready, the caret followed by the tail of a `^` key reads that command, and likewise the tilde for a `~` key |
| Examples.FreshParserStarts | pkg/zpl/parser.go:81-97 | a fresh parser is a Ready configuration with the default caret and tilde and delimiter `,` |
| Examples.FieldOriginExample | pkg/zpl/parser.go:160-172 | `^FO<a>,<b>^FS` (with the current delimiter) yields `^FO [a, b]` and then `^FS []`, so `^FO100,200^FS` gives `^FO ["100","200"]`, `^FS []` |
| Examples.FieldDataExample | pkg/zpl/parser.go:166-172 | `^FD<t>^FS` yields `^FD [t]` and then `^FS []`, so `^FDHello^FS` gives `^FD ["Hello"]`, `^FS []` |
| Examples.ChangeCaretExample | pkg/zpl/parser.go:125-211 | for an ASCII `c` that is neither white space nor the newline, `^CC<c>` makes `c` the caret at once, and `<c>FS` is then read as `^FS`; so after `^CC~`, the input `~FS` is `^FS` (a non-ASCII `c` would set the caret to its lead byte instead) |
| Examples.ChangeDelimiterExample | pkg/zpl/parser.go:160-215 | after `^CD<d>`, `d` separates the arguments of the following `^FO` |
| Examples.ExpectedControlExample | pkg/zpl/parser.go:133-135 | a program that starts with a character that is neither white space nor a control character fails at once and emits nothing |
| Examples.InvalidCommandExample | pkg/zpl/parser.go:150-187 | `^ZZZZ` fails with "invalid command `^ZZZZ`", yet returns true; the next `Z` returns false |
| Examples.ExpectedDelimiterExample | pkg/zpl/parser.go:157-182 | `^A<b><o><x>` with `x` not the delimiter: both BYTE slots take any character, the DELIMITER slot rejects `x` with the expected-delimiter error at its column, nothing is emitted, and nothing after `x` is read |
| Printer.PrintZpl | cmd/zplating/main.go:27-49 | the loop with its prefix map and delimiter prints exactly `Print(pgm).lines` and reports whether it finished without a panic |
| Printer.Print | cmd/zplating/main.go:27-49 | the run prints at most one line per command |
| Printer.Line | cmd/zplating/main.go:35-37 | a line is the printed prefix, then the rest of the name, then the arguments joined by the delimiter, in that order and nothing else |
| Printer.LineStartsWithPrefix | cmd/zplating/main.go:34-37 | the first character of a line is the prefix-map entry for the first byte of the name, the zero rune when there is none |
| Printer.LinePrefixFollowsLastChange | cmd/zplating/main.go:29-40 | in a run that goes to the end, the line of a `^` command starts with the first byte of the last CC argument before it (`^` when there is none), and the line of a `~` command likewise with the last CT |
| Printer.Restyle | cmd/zplating/main.go:38-46 | only CC, CT and CD change the settings; only CD changes the delimiter and CD leaves the prefixes; the prefix map only ever gains `^` or `~` |
| Printer.PrintsToTheEnd | cmd/zplating/main.go:35-46 | the run finishes without a panic exactly when every command is printable: a non-empty name, and the argument that CC/CT/CD read |
| Printer.OneLinePerCommand | cmd/zplating/main.go:33-37 | a finished run prints one line per command, in order; line `i` is the prefix, then `Command[1:]`, then the arguments joined by the delimiter, with the settings left by commands `0..i-1` |
| Printer.PanicOutput | cmd/zplating/main.go:35-46 | a run that panics at command `j` has printed the lines before `j`, plus the line of `j` unless its name is empty |
| Printer.PanicIsFinal | cmd/zplating/main.go:33-48 | after a panic, later commands change nothing |
| Printer.StyleFollowsLastChange | cmd/zplating/main.go:28-46 | the settings reached are the identity prefix map with delimiter `,`, updated only by the last CC (caret prefix), the last CT (tilde prefix) and the last CD (the whole first argument becomes the delimiter) |
| Printer.PrefixesAreKnown | cmd/zplating/main.go:29-35 | a name that starts with `^` or `~` always finds its prefix in the map |
| Printer.EffectKeyedOnTail | cmd/zplating/main.go:36-46 | programs with the same name tails and arguments reach the same settings, so `^CC` and `~CC` (and likewise CT and CD) act alike |
| Printer.WellFormedIsPrintable | cmd/zplating/main.go:35-46 | a command the parser can emit never makes the printer panic |
| Printer.ParsedProgramPrints | cmd/zplating/main.go:27-49 | printing the commands parsed from any input finishes with one line per command |
| Printer.CaretChangePrints | cmd/zplating/main.go:37-40 | `^CC ["~"]` then `^FS []` print as `^CC~` and `~FS` |

## Left out

- `Parse` (pkg/zpl/main.go): this reader loop fills a 1000-byte buffer from an `io.Reader` and calls `feedString` on each chunk. It is I/O. For chunks cut at character boundaries, `MachineFacts.FeedStringAppend` and `MachineFacts.FeedStringStops` show that the chunking makes no difference.
- `Parse` cuts its chunks every 1000 bytes, whatever the UTF-8 boundaries. The `range` loop of `feedString` then decodes each half of a split multi-byte character as U+FFFD, so such input can parse differently from the same input in one piece (`^FDé` cut between 0xC3 and 0xA9 gives the argument U+FFFD U+FFFD). The model's input is a sequence of characters and does not capture this.
- `main` (cmd/zplating/main.go): command-line arguments, file opening, stderr and the exit code. Each line of `fmt.Printf` output is one element of the output sequence, without its newline.
- `stateStr`: a debugging helper, not modelled.
- `knownCmds`: this field always holds `commands()`. The model looks the table up directly.
- The error string `"row:column:message"` is modelled as a structured `Diagnostic(row, column, kind)`, with `None` for the empty string. The message text is not modelled.
- pkg/zpl.go: an earlier version of the parser. It is not part of this model.
- Go's `int` overflow of `row`, `column` and `argn` is not modelled; the counters are unbounded.
- `Printer.Line`, `Printer.Restyle`, `Printer.Printable`, `Printer.EffectKeyedOnTail`: when a command name starts with a non-ASCII character, Go's `Command[1:]` cuts into the UTF-8 encoding, and its `switch` compares those bytes. The model takes the characters after the first, so for a name such as `éCC` the model's `Restyle` changes the caret where Go changes nothing. Every name the parser emits is ASCII (`MachineFacts.ParsedCommandsWellFormed`), so parsed programs print alike.
- `feedString`'s `range` over a Go string decodes UTF-8, so invalid bytes become U+FFFD. The model's input is already a sequence of characters.
- Examples: the whole-program lemmas start from any Ready configuration with caret `^`, tilde `~` and a delimiter distinct from them and from the newline. They do not start from the literal `newParser()`. `Examples.FreshParserStarts` shows that a fresh parser is such a configuration.

Behaviour of the code that a reader might not expect; the model follows the code:
- A two-slot BYTE command such as `^A` is emitted only when its last slot is filled. A BYTE argument does not emit by itself.
- A name is always spelled with a literal `^` or `~`, whatever the active control characters are.
  - After `^CC~`, the tilde acts as the caret. The tilde-style branch is tried only when the tilde differs from the caret.
- An unknown mnemonic fails when it passes four bytes, counting the control character (so `^ZZZZ`). That call of `feed` still returns true.
- The column is advanced before the character is handled:
  - A fresh parser reports its first character at column 2.
  - A control character that is re-fed after ending an argument advances the column twice.
- A NONE token fails with "too many arguments", but no table entry contains one. A command with no arguments has an empty format.
- In Error, `feed` still moves the row and the column.
- The printer joins every argument with the delimiter, BYTE slots included, so its output does not always parse back to the same commands: `^A ["0", "N", "50", "50"]` prints as `^A0,N,50,50`, which the parser reads as the two bytes `0` and `,` followed by `N` where the delimiter belongs, and rejects.
- The table entry `^BC` is bound to the format named `p6`, which holds five PARAM tokens. The model keeps five.
