/**
 * One call of `feed`, case by case: each lemma states the whole new
 * configuration for one branch of the switch, so that a run of the parser
 * can be followed character by character.
 */
module Steps {
  import opened Wrappers
  import opened Runes
  import opened Grammar
  import opened Machine
  import opened MachineFacts

  /** In Ready, the caret or the tilde starts a mnemonic spelled with a literal `^` or `~`. */
  lemma ReadyStartsCommand(s: Config, c: char)
    requires Inv(s) && s.state == Ready && c != '\n' && !IsSpace(c)
    requires c == s.caret || c == s.tilde
    ensures Feed(s, c) ==
              Outcome(s.(column := s.column + 1,
                         state := if c == s.caret then CaretCommand else TildeCommand,
                         currentCmd := if c == s.caret then "^" else "~"), true)
  {
    FeedInReady(s, c);
  }

  /** A mnemonic that is not (yet) a command and is at most four bytes long keeps growing. */
  lemma MnemonicGrows(s: Config, c: char)
    requires Inv(s) && (s.state == CaretCommand || s.state == TildeCommand) && c != '\n'
    requires s.currentCmd + [c] !in Commands() && ByteLength(s.currentCmd + [c]) <= 4
    ensures Feed(s, c) == Outcome(s.(column := s.column + 1, currentCmd := s.currentCmd + [c]), true)
  {
    FeedInMnemonic(s, c);
  }

  /** A mnemonic that names a command with arguments starts reading them. */
  lemma MnemonicOpensArguments(s: Config, c: char)
    requires Inv(s) && (s.state == CaretCommand || s.state == TildeCommand) && c != '\n'
    requires s.currentCmd + [c] in Commands() && |Commands()[s.currentCmd + [c]]| > 0
    ensures Feed(s, c) ==
              Outcome(s.(column := s.column + 1, currentCmd := s.currentCmd + [c], state := Arguments), true)
  {
    FeedInMnemonic(s, c);
  }

  /** A mnemonic that names a command without arguments is emitted at once. */
  lemma MnemonicEmitsBare(s: Config, c: char)
    requires Inv(s) && (s.state == CaretCommand || s.state == TildeCommand) && c != '\n'
    requires s.currentCmd + [c] in Commands() && Commands()[s.currentCmd + [c]] == []
    ensures Feed(s, c) ==
              Outcome(s.(column := s.column + 1, state := Ready, currentCmd := "",
                         commands := s.commands + [Command(s.currentCmd + [c], [])]), true)
  {
    FeedInMnemonic(s, c);
    var s1 := s.(column := s.column + 1, currentCmd := s.currentCmd + [c]);
    assert !IsChangeCommand(s1.currentCmd) by {
      if IsChangeCommand(s1.currentCmd) {
        ChangeCommandsReadOneByte(s1.currentCmd);
      }
    }
    EmitKeepsInv(s1);
  }

  /** In a PARAM or TEXT slot an ordinary character is appended to the argument. */
  lemma ArgumentGrows(s: Config, c: char)
    requires Inv(s) && s.state == Arguments && c != '\n'
    requires CurrentFmt(s)[s.argn] == FmtParam || CurrentFmt(s)[s.argn] == FmtText
    requires c != s.caret && c != s.tilde
    requires CurrentFmt(s)[s.argn] == FmtParam ==> c != s.delimiter
    ensures Feed(s, c) == Outcome(s.(column := s.column + 1, currentArg := s.currentArg + [c]), true)
  {
    FeedInArguments(s, c);
  }

  /** The delimiter ends a PARAM argument that is not the last one. */
  lemma DelimiterNextArgument(s: Config)
    requires Inv(s) && s.state == Arguments && s.delimiter != '\n'
    requires CurrentFmt(s)[s.argn] == FmtParam && s.argn + 1 < |CurrentFmt(s)|
    ensures Feed(s, s.delimiter) ==
              Outcome(s.(column := s.column + 1, args := s.args + [s.currentArg],
                         argn := s.argn + 1, currentArg := ""), true)
  {
    FeedInArguments(s, s.delimiter);
    FinishArgKeepsInv(s.(column := s.column + 1));
  }

  /** A BYTE slot that is not the last one takes any character as its argument, even a control character. */
  lemma ByteNextArgument(s: Config, c: char)
    requires Inv(s) && s.state == Arguments && c != '\n'
    requires CurrentFmt(s)[s.argn] == FmtByte && s.argn + 1 < |CurrentFmt(s)|
    ensures Feed(s, c) ==
              Outcome(s.(column := s.column + 1, args := s.args + [[c]], argn := s.argn + 1, currentArg := ""), true)
  {
    FeedInArguments(s, c);
    ByteSlotStep(s.(column := s.column + 1), c);
  }

  /** A DELIMITER slot consumes the delimiter and stores no argument. */
  lemma DelimiterSkipped(s: Config)
    requires Inv(s) && s.state == Arguments && s.delimiter != '\n'
    requires CurrentFmt(s)[s.argn] == FmtDelimiter
    ensures Feed(s, s.delimiter) == Outcome(s.(column := s.column + 1, argn := s.argn + 1), true)
  {
    FeedInArguments(s, s.delimiter);
  }

  /**
   * The caret or the tilde in the last slot of a PARAM or TEXT command emits
   * it and starts the next mnemonic. The column advances twice, once for
   * each of the two calls of `feed` that see the character.
   */
  lemma ControlEndsLastArgument(s: Config, c: char)
    requires Inv(s) && s.state == Arguments && c != '\n' && !IsSpace(c)
    requires CurrentFmt(s)[s.argn] == FmtParam || CurrentFmt(s)[s.argn] == FmtText
    requires c == s.caret || c == s.tilde
    requires CurrentFmt(s)[s.argn] == FmtParam ==> c != s.delimiter
    requires s.argn + 1 == |CurrentFmt(s)|
    ensures Feed(s, c) ==
              Outcome(s.(column := s.column + 2,
                         state := if c == s.caret then CaretCommand else TildeCommand,
                         currentCmd := if c == s.caret then "^" else "~",
                         commands := s.commands + [Command(s.currentCmd, s.args + [s.currentArg])],
                         currentArg := "", args := [], argn := 0), true)
  {
    var s0 := s.(column := s.column + 1);
    ControlSlotStep(s0, c);
    FeedInArguments(s, c);
    LastControlEmits(s0);
    var s1 := FinishArg(s0);
    assert s1 == s0.(state := Ready, currentCmd := "",
                     commands := s.commands + [Command(s.currentCmd, s.args + [s.currentArg])],
                     currentArg := "", args := [], argn := 0);
    ReadyStartsCommand(s1, c);
  }

  /** A change command reads one character and at once sets the caret, the tilde or the delimiter. */
  lemma ChangeCommandStep(s: Config, c: char)
    requires Inv(s) && s.state == Arguments && IsChangeCommand(s.currentCmd) && c != '\n'
    ensures Feed(s, c) ==
              Outcome(s.(column := s.column + 1, state := Ready,
                         commands := s.commands + [Command(s.currentCmd, [[c]])],
                         caret := if s.currentCmd in {"^CC", "~CC"} then LeadingByte(c) else s.caret,
                         tilde := if s.currentCmd in {"^CT", "~CT"} then LeadingByte(c) else s.tilde,
                         delimiter := if s.currentCmd in {"^CD", "~CD"} then LeadingByte(c) else s.delimiter,
                         currentCmd := "", currentArg := "", args := [], argn := 0), true)
  {
    ChangeCommandsReadOneByte(s.currentCmd);
    var s0 := s.(column := s.column + 1);
    FeedInArguments(s, c);
    ByteSlotStep(s0, c);
    var s1 := Advance(s0.(currentArg := [c]));
    assert s1.args == [[c]] && s1.argn == 1;
    assert FinishArg(s0.(currentArg := [c])) == Emit(s1);
  }
}
