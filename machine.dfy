/**
 * The parser of pkg/zpl/parser.go as a pure state machine: `Config` holds the
 * fields of the Go `Parser` struct, and `Feed` computes the configuration and
 * the boolean result of one call of `feed`. The class in module Parsing
 * performs the same steps in place and is proved to agree with these
 * functions; the properties of the parser are proved about them.
 */
module Machine {
  import opened Wrappers
  import opened Runes
  import opened Grammar

  /** `ParsingState`: the lifecycle phase of the parser. */
  datatype ParsingState = Ready | CaretCommand | TildeCommand | Arguments | Error

  /** The reasons `fail` is called with; the Go code formats them into a message. */
  datatype ErrorKind =
    | ExpectedControl(caret: char, tilde: char)
    | InvalidCommand(mnemonic: string)
    | TooManyArguments
    | ExpectedDelimiter(delimiter: char, got: char)
    | TooFewArguments(mnemonic: string)

  /** The content of the `Error` field, "row:column:message" in Go. */
  datatype Diagnostic = Diagnostic(row: int, column: int, kind: ErrorKind)

  /** The fields of `Parser`; `error` is None where Go holds the empty string. */
  datatype Config = Config(
    state: ParsingState,
    error: Option<Diagnostic>,
    commands: seq<Command>,
    row: int,
    column: int,
    caret: char,
    tilde: char,
    delimiter: char,
    currentCmd: string,
    currentArg: string,
    args: seq<string>,
    argn: nat)

  /** The configuration after a call and the boolean the call returns. */
  datatype Outcome = Outcome(config: Config, ok: bool)

  // ---------------------------------------------------------------------------
  // The invariant of every reachable configuration

  /** `args` holds one string per argument slot of `f`, and a byte slot's string has one character. */
  predicate ArgsMatch(f: seq<FormatToken>, args: seq<string>)
  {
    && |args| == |Slots(f)|
    && forall i :: 0 <= i < |args| && Slots(f)[i] == FmtByte ==> |args[i]| == 1
  }

  /** An emitted command: a known mnemonic with exactly the arguments its format describes. */
  predicate WellFormed(cmd: Command)
  {
    cmd.name in Commands() && ArgsMatch(Commands()[cmd.name], cmd.arguments)
  }

  /** The commands of `cmds` from index `n` on are well formed. */
  predicate WellFormedFrom(cmds: seq<Command>, n: nat)
  {
    forall k :: n <= k < |cmds| ==> WellFormed(cmds[k])
  }

  /** Growing by one well-formed command, then by well-formed ones only, adds only well-formed commands. */
  lemma WellFormedFromStep(a: seq<Command>, b: seq<Command>, c: seq<Command>)
    requires a <= b <= c && |b| <= |a| + 1
    requires |b| > |a| ==> WellFormed(b[|a|])
    requires WellFormedFrom(c, |b|)
    ensures WellFormedFrom(c, |a|)
  {
    if |b| > |a| {
      assert c[|a|] == b[|a|];
    }
  }

  /** Accumulating a mnemonic that began with `lead`: not yet known and at most four bytes long. */
  predicate Accumulating(s: Config, lead: char)
  {
    && 1 <= |s.currentCmd| && s.currentCmd[0] == lead
    && ByteLength(s.currentCmd) <= 4
    && s.currentCmd !in Commands()
    && s.currentArg == "" && s.args == [] && s.argn == 0
  }

  /** Reading the arguments of a known command: the next slot exists and the earlier ones are filled. */
  predicate InArguments(s: Config)
  {
    && s.currentCmd in Commands()
    && s.argn < |Commands()[s.currentCmd]|
    && ArgsMatch(Commands()[s.currentCmd][..s.argn], s.args)
  }

  ghost predicate Inv(s: Config)
  {
    && 1 <= s.row && 1 <= s.column
    && (s.state == Error <==> s.error.Some?)
    && match s.state
       case Ready => s.currentCmd == "" && s.currentArg == "" && s.args == [] && s.argn == 0
       case CaretCommand => Accumulating(s, '^')
       case TildeCommand => Accumulating(s, '~')
       case Arguments => InArguments(s)
       case Error => true
  }

  // ---------------------------------------------------------------------------
  // The operations of parser.go

  /** `newParser`. */
  function NewParser(): (s: Config)
    ensures Inv(s)
    ensures s.state == Ready && s.commands == [] && s.error == None
  {
    Config(Ready, None, [], 1, 1, '^', '~', ',', "", "", [], 0)
  }

  /** `currentFmt`: the format of the command being read; Go panics when the mnemonic is unknown. */
  function CurrentFmt(s: Config): (f: seq<FormatToken>)
    requires s.currentCmd in Commands()
    ensures |f| > 0 ==> f[|f| - 1] != FmtDelimiter
  {
    FormatsAreReadable(s.currentCmd);
    Commands()[s.currentCmd]
  }

  /** `fail`: enter the terminal phase, recording the position and the reason. */
  function Fail(s: Config, kind: ErrorKind): (r: Config)
    ensures r.state == Error && r.error == Some(Diagnostic(s.row, s.column, kind))
    ensures r.commands == s.commands
    ensures Inv(s) ==> Inv(r)
  {
    s.(state := Error, error := Some(Diagnostic(s.row, s.column, kind)))
  }

  /** The mnemonics whose emission changes the parser's own control characters. */
  predicate IsChangeCommand(name: string)
  {
    name == "^CC" || name == "~CC" || name == "~CT" || name == "^CT" || name == "^CD" || name == "~CD"
  }

  /**
   * What `emit` needs in order not to panic: a known command (`currentFmt`)
   * and, when it goes on to a change command, a non-empty first argument
   * (`p.args[0][0]`).
   */
  predicate CanEmit(s: Config)
  {
    && s.currentCmd in Commands()
    && (IsChangeCommand(s.currentCmd) && |Commands()[s.currentCmd]| <= s.argn ==>
          |s.args| > 0 && |s.args[0]| > 0)
  }

  /**
   * `emit`: append the command being read and return to Ready; a change
   * command first updates the caret, tilde or delimiter from the first byte
   * of its first argument.
   */
  function Emit(s: Config): (r: Config)
    requires CanEmit(s)
    ensures r.row == s.row && r.column == s.column
    ensures |CurrentFmt(s)| > s.argn ==>
              r.state == Error && r.commands == s.commands &&
              r.error == Some(Diagnostic(s.row, s.column, TooFewArguments(s.currentCmd)))
    ensures |CurrentFmt(s)| <= s.argn ==>
              && r.state == Ready && r.error == s.error
              && r.currentCmd == "" && r.currentArg == "" && r.args == [] && r.argn == 0
              && r.commands == s.commands + [Command(s.currentCmd, s.args)]
              && r.caret == (if s.currentCmd in {"^CC", "~CC"} then LeadingByte(s.args[0][0]) else s.caret)
              && r.tilde == (if s.currentCmd in {"^CT", "~CT"} then LeadingByte(s.args[0][0]) else s.tilde)
              && r.delimiter == (if s.currentCmd in {"^CD", "~CD"} then LeadingByte(s.args[0][0]) else s.delimiter)
  {
    var f := CurrentFmt(s);
    if |f| > s.argn then Fail(s, TooFewArguments(s.currentCmd))
    else
      var s1 := ChangeControl(s);
      s1.(commands := s1.commands + [Command(s.currentCmd, s.args)],
          currentCmd := "", currentArg := "", args := [], argn := 0, state := Ready)
  }

  /** The special handling in `emit`: a change command sets a control character from its argument. */
  function ChangeControl(s: Config): (r: Config)
    requires IsChangeCommand(s.currentCmd) ==> |s.args| > 0 && |s.args[0]| > 0
    ensures r.state == s.state && r.error == s.error && r.commands == s.commands
    ensures r.row == s.row && r.column == s.column
    ensures r.currentCmd == s.currentCmd && r.currentArg == s.currentArg && r.args == s.args && r.argn == s.argn
    ensures !IsChangeCommand(s.currentCmd) ==> r == s
  {
    if s.currentCmd == "^CC" || s.currentCmd == "~CC" then s.(caret := LeadingByte(s.args[0][0]))
    else if s.currentCmd == "~CT" || s.currentCmd == "^CT" then s.(tilde := LeadingByte(s.args[0][0]))
    else if s.currentCmd == "^CD" || s.currentCmd == "~CD" then s.(delimiter := LeadingByte(s.args[0][0]))
    else s
  }

  /** What `emit` leaves once every slot is filled. */
  lemma EmitAppends(s: Config)
    requires CanEmit(s) && |CurrentFmt(s)| <= s.argn
    ensures Emit(s) == ChangeControl(s).(commands := s.commands + [Command(s.currentCmd, s.args)],
                                         currentCmd := "", currentArg := "", args := [], argn := 0, state := Ready)
  {
  }

  /** The first half of `finishArg`: store the current argument and move to the next slot. */
  function Advance(s: Config): Config
  {
    s.(args := s.args + [s.currentArg], argn := s.argn + 1, currentArg := "")
  }

  /** `finishArg`: complete the current argument; emit the command when that was its last slot. */
  function FinishArg(s: Config): (r: Config)
    requires CanEmit(Advance(s))
    ensures r.row == s.row && r.column == s.column
    ensures s.argn + 1 < |CurrentFmt(s)| ==> r == Advance(s)
    ensures s.argn + 1 == |CurrentFmt(s)| ==> r.state != Arguments
  {
    var s1 := Advance(s);
    if s1.argn == |CurrentFmt(s1)| then Emit(s1) else s1
  }

  /** The number of re-feeds a configuration can still make: the slots left in Arguments. */
  function Measure(s: Config): nat
  {
    if s.state == Arguments && s.currentCmd in Commands() && s.argn <= |Commands()[s.currentCmd]|
    then |Commands()[s.currentCmd]| - s.argn + 1
    else 0
  }

  /**
   * `feed`: one character. A newline only moves the position; any other
   * character first advances the column. A control character that ends a
   * PARAM or TEXT argument is fed again after the argument is finished.
   */
  function Feed(s: Config, c: char): (r: Outcome)
    requires Inv(s)
    ensures Inv(r.config)
    decreases Measure(s), 1
  {
    if c == '\n' then Outcome(s.(row := s.row + 1, column := 1), s.state != Error)
    else
      var s0 := s.(column := s.column + 1);
      match s0.state
      case Ready => FeedReady(s0, c)
      case CaretCommand | TildeCommand => FeedMnemonic(s0, c)
      case Arguments => FeedArgument(s0, c)
      case Error => Outcome(s0, false)
  }

  /** The Ready case of `feed`: skip spaces, start a mnemonic at a control character, fail otherwise. */
  function FeedReady(s: Config, c: char): (r: Outcome)
    requires Inv(s) && s.state == Ready
    ensures Inv(r.config)
  {
    if IsSpace(c) then Outcome(s, true)
    else if c == s.caret then Outcome(s.(state := CaretCommand, currentCmd := "^", currentArg := ""), true)
    else if c == s.tilde then Outcome(s.(state := TildeCommand, currentCmd := "~", currentArg := ""), true)
    else Outcome(Fail(s, ExpectedControl(s.caret, s.tilde)), false)
  }

  /**
   * The CaretCommand and TildeCommand cases of `feed`: append the character
   * to the mnemonic and look it up; a command without arguments is emitted at
   * once, and a mnemonic longer than four bytes that matched nothing fails
   * (yet the call still returns true).
   */
  function FeedMnemonic(s: Config, c: char): (r: Outcome)
    requires Inv(s) && (s.state == CaretCommand || s.state == TildeCommand)
    ensures Inv(r.config)
  {
    var s1 := s.(currentCmd := s.currentCmd + [c]);
    if s1.currentCmd in Commands() then
      if |Commands()[s1.currentCmd]| > 0 then Outcome(s1.(state := Arguments), true)
      else
        EmitKeepsInv(s1);
        Outcome(Emit(s1), true)
    else if ByteLength(s1.currentCmd) > 4 then Outcome(Fail(s1, InvalidCommand(s1.currentCmd)), true)
    else
      ByteLengthSnoc(s.currentCmd, c);
      Outcome(s1, true)
  }

  /**
   * The Arguments case of `feed`, dispatching on the format of the next slot.
   * A control character that ends a PARAM or TEXT argument is fed again once
   * the argument is finished.
   */
  function FeedArgument(s: Config, c: char): (r: Outcome)
    requires Inv(s) && s.state == Arguments
    ensures Inv(r.config)
    decreases Measure(s), 0
  {
    var tok := CurrentFmt(s)[s.argn];
    if tok == FmtByte then
      FinishArgKeepsInv(s.(currentArg := [c]));
      Outcome(FinishArg(s.(currentArg := [c])), true)
    else if tok == FmtParam && c == s.delimiter then
      FinishArgKeepsInv(s);
      Outcome(FinishArg(s), true)
    else if tok == FmtParam || tok == FmtText then
      // a PARAM slot that did not see the delimiter falls through to the TEXT rule
      if c == s.caret || c == s.tilde then
        FinishArgKeepsInv(s);
        Feed(FinishArg(s), c)
      else Outcome(s.(currentArg := s.currentArg + [c]), true)
    else if tok == FmtNone then Outcome(Fail(s, TooManyArguments), false)
    else if c != s.delimiter then Outcome(Fail(s, ExpectedDelimiter(s.delimiter, c)), false)
    else
      SkipMatches(CurrentFmt(s), s.argn, s.args);
      Outcome(s.(argn := s.argn + 1), true)
  }

  /** `feedString`: feed the characters in order, stopping at the first false. */
  function FeedString(s: Config, pgm: string): (r: Outcome)
    requires Inv(s)
    ensures Inv(r.config)
    decreases |pgm|
  {
    if pgm == [] then Outcome(s, true)
    else
      var r0 := Feed(s, pgm[0]);
      if !r0.ok then r0 else FeedString(r0.config, pgm[1..])
  }

  // ---------------------------------------------------------------------------
  // The steps of the invariant proof

  lemma AdvanceMatches(f: seq<FormatToken>, n: nat, args: seq<string>, a: string)
    requires n < |f| && f[n] != FmtDelimiter
    requires f[n] == FmtByte ==> |a| == 1
    requires ArgsMatch(f[..n], args)
    ensures ArgsMatch(f[..n + 1], args + [a])
  {
    assert f[..n + 1] == f[..n] + [f[n]];
    SlotsSnoc(f[..n], f[n]);
  }

  lemma SkipMatches(f: seq<FormatToken>, n: nat, args: seq<string>)
    requires n < |f| && f[n] == FmtDelimiter
    requires ArgsMatch(f[..n], args)
    ensures ArgsMatch(f[..n + 1], args)
  {
    assert f[..n + 1] == f[..n] + [f[n]];
    SlotsSnoc(f[..n], f[n]);
  }

  /** Emitting a command whose slots are all filled keeps the invariant. */
  lemma EmitKeepsInv(s: Config)
    requires 1 <= s.row && 1 <= s.column && s.error == None
    requires s.currentCmd in Commands()
    requires s.argn == |Commands()[s.currentCmd]|
    requires ArgsMatch(Commands()[s.currentCmd], s.args)
    ensures CanEmit(s)
    ensures Inv(Emit(s)) && Emit(s).state == Ready
    ensures WellFormed(Command(s.currentCmd, s.args))
  {
    var f := Commands()[s.currentCmd];
    if IsChangeCommand(s.currentCmd) {
      assert f == [FmtByte];
      assert Slots(f) == Slots([]) + [FmtByte];
    }
  }

  /** Finishing a byte, text or parameter argument keeps the invariant and uses up a slot. */
  lemma FinishArgKeepsInv(s: Config)
    requires Inv(s) && s.state == Arguments
    requires CurrentFmt(s)[s.argn] != FmtDelimiter
    requires CurrentFmt(s)[s.argn] == FmtByte ==> |s.currentArg| == 1
    ensures CanEmit(Advance(s))
    ensures Inv(FinishArg(s))
    ensures Measure(FinishArg(s)) < Measure(s)
    ensures FinishArg(s).state == Arguments || FinishArg(s).state == Ready
  {
    var f := CurrentFmt(s);
    AdvanceMatches(f, s.argn, s.args, s.currentArg);
    var s1 := Advance(s);
    if s1.argn == |f| {
      assert f[..s1.argn] == f;
      EmitKeepsInv(s1);
    }
  }

  /** The command `finishArg` may emit is well formed. */
  lemma FinishArgEmitsWellFormed(s: Config)
    requires Inv(s) && s.state == Arguments
    requires CurrentFmt(s)[s.argn] != FmtDelimiter
    requires CurrentFmt(s)[s.argn] == FmtByte ==> |s.currentArg| == 1
    ensures CanEmit(Advance(s))
    ensures s.commands <= FinishArg(s).commands && |FinishArg(s).commands| <= |s.commands| + 1
    ensures |FinishArg(s).commands| > |s.commands| ==> WellFormed(FinishArg(s).commands[|s.commands|])
  {
    var f := CurrentFmt(s);
    AdvanceMatches(f, s.argn, s.args, s.currentArg);
    var s1 := Advance(s);
    if s1.argn == |f| {
      assert f[..s1.argn] == f;
      EmitKeepsInv(s1);
    }
  }
}
