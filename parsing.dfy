/**
 * The `Parser` struct of pkg/zpl/parser.go as a class whose methods update
 * its fields in place, as the Go methods do. Each method is proved to leave
 * the fields exactly as the corresponding function of module Machine says.
 */
module Parsing {
  import opened Wrappers
  import opened Runes
  import opened Grammar
  import opened Machine
  import opened MachineFacts
  import opened Seqs

  class Parser {
    var state: ParsingState
    var error: Option<Diagnostic>
    var commands: seq<Command>

    // The line and column of the last character read, reported in an error.
    var row: int
    var column: int

    // Special characters, which commands can change while parsing.
    var caret: char
    var tilde: char
    var delimiter: char

    // The command being parsed.
    var currentCmd: string
    var currentArg: string
    var args: seq<string>
    var argn: nat

    /** The fields as a value. */
    function AsConfig(): Config
      reads this
    {
      Config(state, error, commands, row, column, caret, tilde, delimiter,
             currentCmd, currentArg, args, argn)
    }

    ghost predicate Valid()
      reads this
    {
      Inv(AsConfig())
    }

    /** `newParser`: Ready at row 1, column 1, with the default control characters and delimiter. */
    constructor ()
      ensures Valid() && AsConfig() == NewParser()
      ensures state == Ready && error == None && commands == []
      ensures row == 1 && column == 1
      ensures caret == '^' && tilde == '~' && delimiter == ','
      ensures currentCmd == "" && currentArg == "" && args == [] && argn == 0
    {
      row, column := 1, 1;
      caret, tilde, delimiter := '^', '~', ',';
      state := Ready;
      error := None;
      commands := [];
      currentCmd, currentArg := "", "";
      args := [];
      argn := 0;
    }

    /** `currentFmt`: the format of the command being read (Go panics on an unknown mnemonic). */
    function CurrentFmt(): (f: seq<FormatToken>)
      reads this
      requires currentCmd in Commands()
      ensures f == Machine.CurrentFmt(AsConfig())
    {
      Commands()[currentCmd]
    }

    /** `fail`. */
    method Fail(kind: ErrorKind)
      modifies this
      ensures AsConfig() == Machine.Fail(old(AsConfig()), kind)
      ensures state == Error && error == Some(Diagnostic(row, column, kind))
      ensures commands == old(commands)
    {
      state := Error;
      error := Some(Diagnostic(row, column, kind));
    }

    /** `emit`. */
    method Emit()
      requires CanEmit(AsConfig())
      modifies this
      ensures AsConfig() == Machine.Emit(old(AsConfig()))
    {
      var fmtc := CurrentFmt();
      if |fmtc| > argn {
        Fail(TooFewArguments(currentCmd));
        return;
      }
      assert IsChangeCommand(currentCmd) ==> |args| > 0 && |args[0]| > 0;
      EmitAppends(AsConfig());
      ChangeControl();
      commands := commands + [Command(currentCmd, args)];
      currentCmd := "";
      currentArg := "";
      args := [];
      argn := 0;
      state := Ready;
    }

    /** The special handling of the change-caret, change-tilde and change-delimiter commands in `emit`. */
    method ChangeControl()
      requires IsChangeCommand(currentCmd) ==> |args| > 0 && |args[0]| > 0
      modifies this
      ensures AsConfig() == Machine.ChangeControl(old(AsConfig()))
    {
      if currentCmd == "^CC" || currentCmd == "~CC" {
        caret := LeadingByte(args[0][0]);
      } else if currentCmd == "~CT" || currentCmd == "^CT" {
        tilde := LeadingByte(args[0][0]);
      } else if currentCmd == "^CD" || currentCmd == "~CD" {
        delimiter := LeadingByte(args[0][0]);
      }
    }

    /** `finishArg`. */
    method FinishArg()
      requires CanEmit(Advance(AsConfig()))
      modifies this
      ensures AsConfig() == Machine.FinishArg(old(AsConfig()))
    {
      args := args + [currentArg];
      argn := argn + 1;
      currentArg := "";
      var fmt := CurrentFmt();
      if argn == |fmt| {
        Emit();
      }
    }

    /** `feed`: one character; false once the parser is in the Error phase. */
    method Feed(c: char) returns (ok: bool)
      requires Valid()
      modifies this
      ensures Valid()
      ensures AsConfig() == Machine.Feed(old(AsConfig()), c).config
      ensures ok == Machine.Feed(old(AsConfig()), c).ok
      decreases Measure(AsConfig()), 2
    {
      if c == '\n' {
        row := row + 1;
        column := 1;
        return state != Error;
      }
      column := column + 1;
      match state {
        case Ready =>
          ok := FeedReady(c);
        case CaretCommand | TildeCommand =>
          FeedMnemonic(c);
          ok := true;
        case Arguments =>
          ok := FeedArgument(c);
        case Error =>
          ok := false;
      }
    }

    /** The Ready case of `feed`. */
    method FeedReady(c: char) returns (ok: bool)
      requires Valid() && state == Ready
      modifies this
      ensures Valid()
      ensures AsConfig() == Machine.FeedReady(old(AsConfig()), c).config
      ensures ok == Machine.FeedReady(old(AsConfig()), c).ok
    {
      ReadyStep(AsConfig(), c);
      if IsSpace(c) {
        return true;
      }
      if c == caret {
        state := CaretCommand;
        currentCmd := "^";
        currentArg := "";
      } else if c == tilde {
        state := TildeCommand;
        currentCmd := "~";
        currentArg := "";
      } else {
        Fail(ExpectedControl(caret, tilde));
        return false;
      }
      return true;
    }

    /** The CaretCommand and TildeCommand cases of `feed`, which always return true. */
    method FeedMnemonic(c: char)
      requires Valid() && (state == CaretCommand || state == TildeCommand)
      modifies this
      ensures Valid()
      ensures AsConfig() == Machine.FeedMnemonic(old(AsConfig()), c).config
    {
      currentCmd := currentCmd + [c];
      if currentCmd in Commands() {
        if |Commands()[currentCmd]| > 0 {
          state := Arguments;
        } else {
          EmitKeepsInv(AsConfig());
          Emit();
        }
      } else if ByteLength(currentCmd) > 4 {
        Fail(InvalidCommand(currentCmd));
      }
    }

    /** The Arguments case of `feed`. */
    method FeedArgument(c: char) returns (ok: bool)
      requires Valid() && state == Arguments
      modifies this
      ensures Valid()
      ensures AsConfig() == Machine.FeedArgument(old(AsConfig()), c).config
      ensures ok == Machine.FeedArgument(old(AsConfig()), c).ok
      decreases Measure(AsConfig()), 1
    {
      var cmdFmt := CurrentFmt()[argn];
      if cmdFmt == FmtByte {
        ok := FeedByte(c);
        return ok;
      } else if cmdFmt == FmtParam && c == delimiter {
        FinishArgKeepsInv(AsConfig());
        FinishArg();
        return true;
      } else if cmdFmt == FmtParam || cmdFmt == FmtText {
        if c == caret || c == tilde {
          ok := FeedControl(c);
          return ok;
        } else {
          currentArg := currentArg + [c];
        }
      } else if cmdFmt == FmtNone {
        Fail(TooManyArguments);
        return false;
      } else {
        ok := FeedDelimiter(c);
        return ok;
      }
      return true;
    }

    /** A BYTE slot: the character is the whole argument. */
    method FeedByte(c: char) returns (ok: bool)
      requires Valid() && state == Arguments && CurrentFmt()[argn] == FmtByte
      modifies this
      ensures Valid()
      ensures AsConfig() == Machine.FeedArgument(old(AsConfig()), c).config
      ensures ok == Machine.FeedArgument(old(AsConfig()), c).ok
    {
      ByteSlotStep(AsConfig(), c);
      currentArg := [c];
      FinishArgKeepsInv(AsConfig());
      FinishArg();
      return true;
    }

    /** A DELIMITER slot: the delimiter is consumed, anything else fails. */
    method FeedDelimiter(c: char) returns (ok: bool)
      requires Valid() && state == Arguments && CurrentFmt()[argn] == FmtDelimiter
      modifies this
      ensures Valid()
      ensures AsConfig() == Machine.FeedArgument(old(AsConfig()), c).config
      ensures ok == Machine.FeedArgument(old(AsConfig()), c).ok
    {
      if c != delimiter {
        Fail(ExpectedDelimiter(delimiter, c));
        return false;
      }
      SkipMatches(CurrentFmt(), argn, args);
      argn := argn + 1;
      return true;
    }

    /**
     * The caret or the tilde in a PARAM or TEXT slot: finish the argument
     * and feed the same character again.
     */
    method FeedControl(c: char) returns (ok: bool)
      requires Valid() && state == Arguments
      requires CurrentFmt()[argn] == FmtParam || CurrentFmt()[argn] == FmtText
      requires c == caret || c == tilde
      requires CurrentFmt()[argn] == FmtParam ==> c != delimiter
      modifies this
      ensures Valid()
      ensures AsConfig() == Machine.FeedArgument(old(AsConfig()), c).config
      ensures ok == Machine.FeedArgument(old(AsConfig()), c).ok
      decreases Measure(AsConfig()), 0
    {
      ControlSlotStep(AsConfig(), c);
      FinishArgKeepsInv(AsConfig());
      FinishArg();
      ok := Feed(c);
    }

    /** `feedString`: feed each character in order and stop at the first false. */
    method FeedString(pgm: string) returns (ok: bool)
      requires Valid()
      modifies this
      ensures Valid()
      ensures AsConfig() == Machine.FeedString(old(AsConfig()), pgm).config
      ensures ok == Machine.FeedString(old(AsConfig()), pgm).ok
    {
      for i := 0 to |pgm|
        invariant Valid()
        invariant Machine.FeedString(old(AsConfig()), pgm[..i]) == Outcome(AsConfig(), true)
      {
        var fed := Feed(pgm[i]);
        FeedStringSnoc(old(AsConfig()), pgm[..i], pgm[i]);
        TakeSnoc(pgm, i);
        if !fed {
          FeedStringStops(old(AsConfig()), pgm[..i + 1], pgm[i + 1..]);
          TakeDrop(pgm, i + 1);
          return false;
        }
      }
      TakeDrop(pgm, 0);
      return true;
    }
  }
}
