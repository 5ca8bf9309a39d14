/** Properties of the parser's state machine, proved about the functions of module Machine. */
module MachineFacts {
  import opened Wrappers
  import opened Runes
  import opened Grammar
  import opened Machine

  /** Feeding a string in two chunks gives the same result as feeding it whole, when the first chunk succeeds. */
  lemma {:induction false} FeedStringAppend(s: Config, a: string, b: string)
    requires Inv(s)
    requires FeedString(s, a).ok
    ensures FeedString(s, a + b) == FeedString(FeedString(s, a).config, b)
    decreases |a|
  {
    if a == [] {
      assert a + b == b;
    } else {
      var r0 := Feed(s, a[0]);
      assert (a + b)[1..] == a[1..] + b;
      assert (a + b)[0] == a[0];
      assert FeedString(s, a) == FeedString(r0.config, a[1..]);
      assert FeedString(s, a + b) == FeedString(r0.config, a[1..] + b);
      FeedStringAppend(r0.config, a[1..], b);
    }
  }

  /** Once a chunk fails, nothing after it is fed. */
  lemma {:induction false} FeedStringStops(s: Config, a: string, b: string)
    requires Inv(s)
    requires !FeedString(s, a).ok
    ensures FeedString(s, a + b) == FeedString(s, a)
    decreases |a|
  {
    assert a != [];
    assert (a + b)[1..] == a[1..] + b;
    assert (a + b)[0] == a[0];
    if Feed(s, a[0]).ok {
      FeedStringStops(Feed(s, a[0]).config, a[1..], b);
    }
  }

  /** Feeding one more character after a successful prefix is one more `feed`. */
  lemma FeedStringSnoc(s: Config, a: string, c: char)
    requires Inv(s)
    requires FeedString(s, a).ok
    ensures FeedString(s, a + [c]) == Feed(FeedString(s, a).config, c)
  {
    FeedStringAppend(s, a, [c]);
  }

  // ---------------------------------------------------------------------------
  // One call of `feed`

  /** Advancing the column keeps the invariant. */
  lemma MoveKeepsInv(s: Config)
    requires Inv(s)
    ensures Inv(s.(column := s.column + 1))
  {
  }

  /** How `feed` dispatches on the phase, once the column has been advanced. */
  lemma FeedInReady(s: Config, c: char)
    requires Inv(s) && s.state == Ready && c != '\n'
    ensures Feed(s, c) == FeedReady(s.(column := s.column + 1), c)
  {
  }

  lemma FeedInMnemonic(s: Config, c: char)
    requires Inv(s) && (s.state == CaretCommand || s.state == TildeCommand) && c != '\n'
    ensures Feed(s, c) == FeedMnemonic(s.(column := s.column + 1), c)
  {
  }

  lemma FeedInArguments(s: Config, c: char)
    requires Inv(s) && s.state == Arguments && c != '\n'
    ensures FeedArgument(s.(column := s.column + 1), c) == Feed(s, c)
  {
  }

  /** The Ready case emits nothing, keeps the position, and returns false exactly when it fails. */
  lemma ReadyStep(s: Config, c: char)
    requires Inv(s) && s.state == Ready
    ensures var r := FeedReady(s, c);
      && r.config.commands == s.commands && r.config.row == s.row && r.config.column == s.column
      && r.config.caret == s.caret && r.config.tilde == s.tilde && r.config.delimiter == s.delimiter
      && (!r.ok <==> r.config.state == Error)
      && (!r.ok ==> r.config.error == Some(Diagnostic(s.row, s.column, ExpectedControl(s.caret, s.tilde))))
  {
  }

  /** The mnemonic cases always return true, keep the position, and emit at most one command. */
  lemma MnemonicStep(s: Config, c: char)
    requires Inv(s) && (s.state == CaretCommand || s.state == TildeCommand)
    ensures var r := FeedMnemonic(s, c);
      && r.ok && r.config.row == s.row && r.config.column == s.column
      && s.commands <= r.config.commands && |r.config.commands| <= |s.commands| + 1
      && (|r.config.commands| > |s.commands| ==> WellFormed(r.config.commands[|s.commands|]))
      && (NoTableErrors(s) ==> NoTableErrors(r.config))
  {
    var s1 := s.(currentCmd := s.currentCmd + [c]);
    if s1.currentCmd in Commands() && |Commands()[s1.currentCmd]| == 0 {
      EmitKeepsInv(s1);
    }
  }

  /** In a BYTE slot the character itself becomes the argument. */
  lemma ByteSlotStep(s: Config, c: char)
    requires Inv(s) && s.state == Arguments && CurrentFmt(s)[s.argn] == FmtByte
    ensures CanEmit(Advance(s.(currentArg := [c])))
    ensures FeedArgument(s, c) == Outcome(FinishArg(s.(currentArg := [c])), true)
  {
    FinishArgKeepsInv(s.(currentArg := [c]));
  }

  /** In a PARAM or TEXT slot a control character finishes the argument and is fed again. */
  lemma ControlSlotStep(s: Config, c: char)
    requires Inv(s) && s.state == Arguments
    requires CurrentFmt(s)[s.argn] == FmtParam || CurrentFmt(s)[s.argn] == FmtText
    requires c == s.caret || c == s.tilde
    requires CurrentFmt(s)[s.argn] == FmtParam ==> c != s.delimiter
    ensures CanEmit(Advance(s)) && Inv(FinishArg(s))
    ensures FeedArgument(s, c) == Feed(FinishArg(s), c)
  {
    FinishArgKeepsInv(s);
  }

  /** A newline only moves the position: next row, column 1; nothing else changes. */
  lemma NewlineOnlyMovesPosition(s: Config)
    requires Inv(s)
    ensures Feed(s, '\n') == Outcome(s.(row := s.row + 1, column := 1), s.state != Error)
  {
  }

  /** In Ready, a space (other than a newline) is skipped after advancing the column. */
  lemma SpaceSkippedInReady(s: Config, c: char)
    requires Inv(s) && s.state == Ready
    requires c != '\n' && IsSpace(c)
    ensures Feed(s, c) == Outcome(s.(column := s.column + 1), true)
  {
  }

  /** A space inside a TEXT argument is kept: whitespace is only skipped in Ready. */
  lemma SpaceKeptInText(s: Config, c: char)
    requires Inv(s) && s.state == Arguments && CurrentFmt(s)[s.argn] == FmtText
    requires c != '\n' && IsSpace(c) && c != s.caret && c != s.tilde
    ensures Feed(s, c) == Outcome(s.(column := s.column + 1, currentArg := s.currentArg + [c]), true)
  {
  }

  /** Once in Error, `feed` returns false and only the position moves. */
  lemma ErrorAbsorbs(s: Config, c: char)
    requires Inv(s) && s.state == Error
    ensures !Feed(s, c).ok
    ensures Feed(s, c).config ==
              if c == '\n' then s.(row := s.row + 1, column := 1) else s.(column := s.column + 1)
  {
  }

  /** `feed` returns false only when the parser ends in the Error phase. */
  lemma {:induction false} FeedFalseOnlyInError(s: Config, c: char)
    requires Inv(s)
    ensures !Feed(s, c).ok ==> Feed(s, c).config.state == Error
    decreases Measure(s), 1
  {
    if c != '\n' {
      var s0 := s.(column := s.column + 1);
      match s.state
      case Ready => FeedInReady(s, c); ReadyStep(s0, c);
      case CaretCommand | TildeCommand => FeedInMnemonic(s, c); MnemonicStep(s0, c);
      case Arguments => FeedInArguments(s, c); FeedArgumentFalseOnlyInError(s0, c);
      case Error =>
    }
  }

  lemma {:induction false} FeedArgumentFalseOnlyInError(s: Config, c: char)
    requires Inv(s) && s.state == Arguments
    ensures !FeedArgument(s, c).ok ==> FeedArgument(s, c).config.state == Error
    decreases Measure(s), 0
  {
    var tok := CurrentFmt(s)[s.argn];
    if (tok == FmtParam || tok == FmtText) && !(tok == FmtParam && c == s.delimiter)
       && (c == s.caret || c == s.tilde)
    {
      FinishArgKeepsInv(s);
      FeedFalseOnlyInError(FinishArg(s), c);
    }
  }

  /** Every character other than a newline advances the column and leaves the row alone. */
  lemma {:induction false} FeedPosition(s: Config, c: char)
    requires Inv(s)
    ensures c == '\n' ==> Feed(s, c).config.row == s.row + 1 && Feed(s, c).config.column == 1
    ensures c != '\n' ==> Feed(s, c).config.row == s.row && Feed(s, c).config.column > s.column
    ensures c != '\n' && s.state != Arguments ==> Feed(s, c).config.column == s.column + 1
    decreases Measure(s), 1
  {
    if c != '\n' {
      var s0 := s.(column := s.column + 1);
      match s.state
      case Ready => FeedInReady(s, c); ReadyStep(s0, c);
      case CaretCommand | TildeCommand => FeedInMnemonic(s, c); MnemonicStep(s0, c);
      case Arguments => FeedInArguments(s, c); FeedArgumentPosition(s0, c);
      case Error =>
    }
  }

  lemma {:induction false} FeedArgumentPosition(s: Config, c: char)
    requires Inv(s) && s.state == Arguments && c != '\n'
    ensures FeedArgument(s, c).config.row == s.row
    ensures FeedArgument(s, c).config.column >= s.column
    decreases Measure(s), 0
  {
    var tok := CurrentFmt(s)[s.argn];
    if (tok == FmtParam || tok == FmtText) && !(tok == FmtParam && c == s.delimiter)
       && (c == s.caret || c == s.tilde)
    {
      FinishArgKeepsInv(s);
      FeedPosition(FinishArg(s), c);
    }
  }

  /** `Commands` only grows, and by at most one command per call of `feed`. */
  lemma {:induction false} FeedAppendsAtMostOne(s: Config, c: char)
    requires Inv(s)
    ensures s.commands <= Feed(s, c).config.commands
    ensures |Feed(s, c).config.commands| <= |s.commands| + 1
    ensures |Feed(s, c).config.commands| > |s.commands| ==> WellFormed(Feed(s, c).config.commands[|s.commands|])
    decreases Measure(s), 1
  {
    if c != '\n' {
      var s0 := s.(column := s.column + 1);
      match s.state
      case Ready => FeedInReady(s, c); ReadyStep(s0, c);
      case CaretCommand | TildeCommand => FeedInMnemonic(s, c); MnemonicStep(s0, c);
      case Arguments => FeedInArguments(s, c); FeedArgumentAppendsAtMostOne(s0, c);
      case Error =>
    }
  }

  lemma {:induction false} FeedArgumentAppendsAtMostOne(s: Config, c: char)
    requires Inv(s) && s.state == Arguments && c != '\n'
    ensures s.commands <= FeedArgument(s, c).config.commands
    ensures |FeedArgument(s, c).config.commands| <= |s.commands| + 1
    ensures |FeedArgument(s, c).config.commands| > |s.commands| ==>
              WellFormed(FeedArgument(s, c).config.commands[|s.commands|])
    decreases Measure(s), 0
  {
    var tok := CurrentFmt(s)[s.argn];
    if tok == FmtByte {
      FinishArgEmitsWellFormed(s.(currentArg := [c]));
    } else if tok == FmtParam && c == s.delimiter {
      FinishArgEmitsWellFormed(s);
    } else if (tok == FmtParam || tok == FmtText) && (c == s.caret || c == s.tilde) {
      FinishArgKeepsInv(s);
      FinishArgEmitsWellFormed(s);
      var s1 := FinishArg(s);
      if s1.state == Ready {
        // the command was emitted; fed again in Ready, the character emits nothing
        FeedInReady(s1, c);
        ReadyStep(s1.(column := s1.column + 1), c);
      } else {
        FeedAppendsAtMostOne(s1, c);
      }
    }
  }

  /** The error kinds that only a broken table could cause. */
  predicate NoTableErrors(s: Config)
  {
    s.error.Some? ==> !s.error.value.kind.TooFewArguments? && !s.error.value.kind.TooManyArguments?
  }

  /**
   * The "too many arguments" and "too few arguments" failures never happen:
   * no format contains FmtNone, and `emit` is only reached with every slot filled.
   */
  lemma {:induction false} FeedNeverTableError(s: Config, c: char)
    requires Inv(s) && NoTableErrors(s)
    ensures NoTableErrors(Feed(s, c).config)
    decreases Measure(s), 1
  {
    if c != '\n' {
      var s0 := s.(column := s.column + 1);
      match s.state
      case Ready => FeedInReady(s, c); ReadyStep(s0, c);
      case CaretCommand | TildeCommand => FeedInMnemonic(s, c); MnemonicStep(s0, c);
      case Arguments => FeedInArguments(s, c); FeedArgumentNeverTableError(s0, c);
      case Error =>
    }
  }

  lemma {:induction false} FeedArgumentNeverTableError(s: Config, c: char)
    requires Inv(s) && s.state == Arguments && NoTableErrors(s)
    ensures NoTableErrors(FeedArgument(s, c).config)
    decreases Measure(s), 0
  {
    FormatsAreReadable(s.currentCmd);
    var tok := CurrentFmt(s)[s.argn];
    assert tok != FmtNone;
    if tok == FmtByte {
      FinishArgKeepsInv(s.(currentArg := [c]));
    } else if tok == FmtParam && c == s.delimiter {
      FinishArgKeepsInv(s);
    } else if (tok == FmtParam || tok == FmtText) && (c == s.caret || c == s.tilde) {
      FinishArgKeepsInv(s);
      FeedNeverTableError(FinishArg(s), c);
    }
  }

  /** So the parser's error, when there is one, is one of the three lexical failures. */
  lemma {:induction false} FeedStringNeverTableError(s: Config, pgm: string)
    requires Inv(s) && NoTableErrors(s)
    ensures NoTableErrors(FeedString(s, pgm).config)
    decreases |pgm|
  {
    if pgm != [] {
      FeedNeverTableError(s, pgm[0]);
      if Feed(s, pgm[0]).ok {
        FeedStringNeverTableError(Feed(s, pgm[0]).config, pgm[1..]);
      }
    }
  }

  /** `currentFmt` never panics when called from the Arguments phase, and the slot index is in bounds. */
  lemma CurrentFmtDefined(s: Config)
    requires Inv(s) && s.state == Arguments
    ensures s.currentCmd in Commands()
    ensures s.argn < |CurrentFmt(s)|
  {
  }

  // ---------------------------------------------------------------------------
  // Arguments

  /** In a PARAM slot the active delimiter ends the argument and is not stored. */
  lemma DelimiterEndsParam(s: Config)
    requires Inv(s) && s.state == Arguments
    requires CurrentFmt(s)[s.argn] == FmtParam && s.delimiter != '\n'
    ensures var r := Feed(s, s.delimiter);
      && r.ok
      && (s.argn + 1 < |CurrentFmt(s)| ==>
            r.config.state == Arguments && r.config.args == s.args + [s.currentArg] &&
            r.config.currentArg == "" && r.config.argn == s.argn + 1 && r.config.commands == s.commands)
      && (s.argn + 1 == |CurrentFmt(s)| ==>
            r.config.state == Ready &&
            r.config.commands == s.commands + [Command(s.currentCmd, s.args + [s.currentArg])])
  {
    FeedInArguments(s, s.delimiter);
    FinishArgKeepsInv(s.(column := s.column + 1));
  }

  /** `n` empty argument strings. */
  function Blanks(n: nat): (r: seq<string>)
    ensures |r| == n && forall i :: 0 <= i < n ==> r[i] == ""
  {
    if n == 0 then [] else Blanks(n - 1) + [""]
  }

  /** In Ready, a control character starts a mnemonic spelled with a literal `^` or `~`, unless it is a space. */
  lemma ReadyControlStep(s: Config, c: char)
    requires Inv(s) && s.state == Ready && c != '\n'
    requires c == s.caret || c == s.tilde
    ensures var r := Feed(s, c);
      && r.ok && r.config.commands == s.commands
      && r.config.caret == s.caret && r.config.tilde == s.tilde && r.config.delimiter == s.delimiter
      && r.config.state == (if IsSpace(c) then Ready else if c == s.caret then CaretCommand else TildeCommand)
      && r.config.currentCmd == (if IsSpace(c) then "" else if c == s.caret then "^" else "~")
  {
    FeedInReady(s, c);
  }

  /**
   * In a PARAM or TEXT slot the caret or the tilde ends the argument, the
   * remaining slots are filled with empty strings, the command is emitted, and
   * the same character then starts the next command, spelled with a literal
   * `^` or `~` (or is skipped, if it is a space).
   */
  lemma {:induction false} ControlCharEndsCommand(s: Config, c: char)
    requires Inv(s) && s.state == Arguments && c != '\n'
    requires CurrentFmt(s)[s.argn] == FmtParam || CurrentFmt(s)[s.argn] == FmtText
    requires c == s.caret || c == s.tilde
    requires CurrentFmt(s)[s.argn] == FmtParam ==> c != s.delimiter
    ensures EndsCommand(s, c, Feed(s, c))
    decreases |CurrentFmt(s)| - s.argn
  {
    if s.argn + 1 == |CurrentFmt(s)| {
      LastControlSlot(s, c);
    } else {
      var s1 := Advance(s.(column := s.column + 1));
      NextSlotIsParam(s, c);
      ControlCharEndsCommand(s1, c);
      NextControlCloses(s, c);
    }
  }

  /** The inductive step of ControlCharEndsCommand, given what it states about the next slot. */
  lemma NextControlCloses(s: Config, c: char)
    requires Inv(s) && s.state == Arguments && c != '\n'
    requires CurrentFmt(s)[s.argn] == FmtParam || CurrentFmt(s)[s.argn] == FmtText
    requires c == s.caret || c == s.tilde
    requires CurrentFmt(s)[s.argn] == FmtParam ==> c != s.delimiter
    requires s.argn + 1 < |CurrentFmt(s)|
    requires var s1 := Advance(s.(column := s.column + 1));
      Inv(s1) && s1.argn < |CurrentFmt(s1)| && EndsCommand(s1, c, Feed(s1, c))
    ensures EndsCommand(s, c, Feed(s, c))
  {
    var s1 := Advance(s.(column := s.column + 1));
    NextControlSlot(s, c);
    ClosedAfterAdvance(s);
    EndsCommandShift(s, s1, c, Feed(s1, c));
  }

  /** What ControlCharEndsCommand states about the outcome `r` of feeding `c` in `s`. */
  predicate EndsCommand(s: Config, c: char, r: Outcome)
    requires s.currentCmd in Commands() && s.argn < |CurrentFmt(s)|
  {
    && r.ok
    && r.config.commands == s.commands + [Closed(s)]
    && NextStarted(s, c, r.config)
  }

  lemma EndsCommandShift(s: Config, s1: Config, c: char, r: Outcome)
    requires s.currentCmd in Commands() && s.argn < |CurrentFmt(s)|
    requires s1.currentCmd in Commands() && s1.argn < |CurrentFmt(s1)|
    requires s1.commands == s.commands && Closed(s1) == Closed(s)
    requires s1.caret == s.caret && s1.tilde == s.tilde && s1.delimiter == s.delimiter
    requires EndsCommand(s1, c, r)
    ensures EndsCommand(s, c, r)
  {
  }

  /** The command a control character closes: the arguments so far, then empty strings for the slots left. */
  function Closed(s: Config): Command
    requires s.currentCmd in Commands() && s.argn < |CurrentFmt(s)|
  {
    Command(s.currentCmd, s.args + [s.currentArg] + Blanks(|CurrentFmt(s)| - s.argn - 1))
  }

  /** The control characters are kept and the control character `c` has started the next command. */
  predicate NextStarted(s: Config, c: char, t: Config)
  {
    && t.caret == s.caret && t.tilde == s.tilde && t.delimiter == s.delimiter
    && t.state == (if IsSpace(c) then Ready else if c == s.caret then CaretCommand else TildeCommand)
    && t.currentCmd == (if IsSpace(c) then "" else if c == s.caret then "^" else "~")
  }

  lemma ClosedAfterAdvance(s: Config)
    requires s.currentCmd in Commands() && s.argn + 1 < |CurrentFmt(s)|
    ensures Closed(Advance(s.(column := s.column + 1))) == Closed(s)
  {
    BlanksShift(s.args + [s.currentArg], |CurrentFmt(s)| - s.argn - 1);
  }

  /**
   * The inductive step of ControlCharEndsCommand: a control character in a
   * slot that is not the last one closes the slot and is fed again, now to
   * the next slot, which is a PARAM.
   */
  lemma NextSlotIsParam(s: Config, c: char)
    requires Inv(s) && s.state == Arguments
    requires CurrentFmt(s)[s.argn] == FmtParam || CurrentFmt(s)[s.argn] == FmtText
    requires s.argn + 1 < |CurrentFmt(s)|
    ensures var s1 := Advance(s.(column := s.column + 1));
      && Inv(s1) && s1.state == Arguments && CurrentFmt(s1) == CurrentFmt(s)
      && CurrentFmt(s1)[s1.argn] == FmtParam
      && s1.commands == s.commands && s1.caret == s.caret && s1.tilde == s.tilde && s1.delimiter == s.delimiter
  {
    var s0 := s.(column := s.column + 1);
    MoveKeepsInv(s);
    FinishArgKeepsInv(s0);
    TrailingSlotsAreParams(s.currentCmd, s.argn, s.argn + 1);
  }

  lemma NextControlSlot(s: Config, c: char)
    requires Inv(s) && s.state == Arguments && c != '\n'
    requires CurrentFmt(s)[s.argn] == FmtParam || CurrentFmt(s)[s.argn] == FmtText
    requires c == s.caret || c == s.tilde
    requires CurrentFmt(s)[s.argn] == FmtParam ==> c != s.delimiter
    requires s.argn + 1 < |CurrentFmt(s)|
    ensures var s1 := Advance(s.(column := s.column + 1));
      && Inv(s1) && s1.state == Arguments && CurrentFmt(s1) == CurrentFmt(s)
      && CurrentFmt(s1)[s1.argn] == FmtParam
      && Feed(s, c) == Feed(s1, c)
  {
    var s0 := s.(column := s.column + 1);
    ControlSlotStep(s0, c);
    FeedInArguments(s, c);
    TrailingSlotsAreParams(s.currentCmd, s.argn, s.argn + 1);
  }

  /** The base case of ControlCharEndsCommand: the control character arrives in the last slot. */
  lemma LastControlSlot(s: Config, c: char)
    requires Inv(s) && s.state == Arguments && c != '\n'
    requires CurrentFmt(s)[s.argn] == FmtParam || CurrentFmt(s)[s.argn] == FmtText
    requires c == s.caret || c == s.tilde
    requires CurrentFmt(s)[s.argn] == FmtParam ==> c != s.delimiter
    requires s.argn + 1 == |CurrentFmt(s)|
    ensures EndsCommand(s, c, Feed(s, c))
  {
    var s0 := s.(column := s.column + 1);
    ControlSlotStep(s0, c);
    FeedInArguments(s, c);
    LastControlEmits(s0);
    ReadyControlStep(FinishArg(s0), c);
  }

  /** Finishing the last slot of a PARAM or TEXT command emits it unchanged, without touching the control characters. */
  lemma LastControlEmits(s: Config)
    requires Inv(s) && s.state == Arguments && s.argn + 1 == |CurrentFmt(s)|
    requires CurrentFmt(s)[s.argn] == FmtParam || CurrentFmt(s)[s.argn] == FmtText
    ensures CanEmit(Advance(s))
    ensures var r := FinishArg(s);
      && Inv(r) && r.state == Ready
      && r.commands == s.commands + [Command(s.currentCmd, s.args + [s.currentArg] + Blanks(0))]
      && r.caret == s.caret && r.tilde == s.tilde && r.delimiter == s.delimiter
  {
    FinishArgKeepsInv(s);
    assert !IsChangeCommand(s.currentCmd) by {
      if IsChangeCommand(s.currentCmd) {
        ChangeCommandsReadOneByte(s.currentCmd);
      }
    }
    assert s.args + [s.currentArg] + Blanks(0) == s.args + [s.currentArg];
  }

  lemma BlanksShift(args: seq<string>, n: nat)
    requires n > 0
    ensures args + [""] + Blanks(n - 1) == args + Blanks(n)
  {
    BlanksCons(n);
    assert args + [""] + Blanks(n - 1) == args + ([""] + Blanks(n - 1));
  }

  lemma {:induction false} BlanksCons(n: nat)
    requires n > 0
    ensures Blanks(n) == [""] + Blanks(n - 1)
  {
    var b := Blanks(n);
    var b' := [""] + Blanks(n - 1);
    assert |b| == |b'|;
    forall i | 0 <= i < n
      ensures b[i] == b'[i]
    {
    }
  }

  // ---------------------------------------------------------------------------
  // Failures

  /** In Ready, a character that is neither a space nor a control character fails and returns false. */
  lemma ReadyRejects(s: Config, c: char)
    requires Inv(s) && s.state == Ready
    requires c != '\n' && !IsSpace(c) && c != s.caret && c != s.tilde
    ensures !Feed(s, c).ok
    ensures Feed(s, c).config.state == Error
    ensures Feed(s, c).config.error == Some(Diagnostic(s.row, s.column + 1, ExpectedControl(s.caret, s.tilde)))
    ensures Feed(s, c).config.commands == s.commands
  {
  }

  /** A mnemonic that reaches five bytes without a match fails, yet `feed` returns true. */
  lemma UnknownMnemonicFails(s: Config, c: char)
    requires Inv(s) && (s.state == CaretCommand || s.state == TildeCommand) && c != '\n'
    requires s.currentCmd + [c] !in Commands() && ByteLength(s.currentCmd + [c]) > 4
    ensures Feed(s, c) ==
              Outcome(Fail(s.(column := s.column + 1, currentCmd := s.currentCmd + [c]),
                           InvalidCommand(s.currentCmd + [c])), true)
  {
    FeedInMnemonic(s, c);
    MnemonicTooLong(s, c);
  }

  lemma MnemonicTooLong(s: Config, c: char)
    requires Inv(s) && (s.state == CaretCommand || s.state == TildeCommand)
    requires s.currentCmd + [c] !in Commands() && ByteLength(s.currentCmd + [c]) > 4
    ensures var s0 := s.(column := s.column + 1);
      Inv(s0) && s0.state == s.state &&
      FeedMnemonic(s0, c) ==
        Outcome(Fail(s0.(currentCmd := s.currentCmd + [c]), InvalidCommand(s.currentCmd + [c])), true)
  {
    MoveKeepsInv(s);
  }

  /** In a DELIMITER slot any character but the delimiter fails and returns false. */
  lemma DelimiterExpected(s: Config, c: char)
    requires Inv(s) && s.state == Arguments && CurrentFmt(s)[s.argn] == FmtDelimiter
    requires c != '\n' && c != s.delimiter
    ensures !Feed(s, c).ok
    ensures Feed(s, c).config.state == Error && Feed(s, c).config.commands == s.commands
    ensures Feed(s, c).config.error == Some(Diagnostic(s.row, s.column + 1, ExpectedDelimiter(s.delimiter, c)))
  {
    FeedInArguments(s, c);
    MoveKeepsInv(s);
    DelimiterSlotFails(s.(column := s.column + 1), c);
  }

  /** The failing branch of a DELIMITER slot, once the column has been advanced. */
  lemma DelimiterSlotFails(s: Config, c: char)
    requires Inv(s) && s.state == Arguments && CurrentFmt(s)[s.argn] == FmtDelimiter && c != s.delimiter
    ensures FeedArgument(s, c) == Outcome(Fail(s, ExpectedDelimiter(s.delimiter, c)), false)
  {
  }

  // ---------------------------------------------------------------------------
  // Whole strings

  /** `feedString` returns false only in the Error phase, and never grows the output in that phase. */
  lemma {:induction false} FeedStringFalseOnlyInError(s: Config, pgm: string)
    requires Inv(s)
    ensures !FeedString(s, pgm).ok ==> FeedString(s, pgm).config.state == Error
    decreases |pgm|
  {
    if pgm != [] {
      FeedFalseOnlyInError(s, pgm[0]);
      if Feed(s, pgm[0]).ok {
        FeedStringFalseOnlyInError(Feed(s, pgm[0]).config, pgm[1..]);
      }
    }
  }

  /** Fed to a failed parser, a non-empty string returns false without touching the error or the output. */
  lemma FeedStringAfterError(s: Config, pgm: string)
    requires Inv(s) && s.state == Error && pgm != []
    ensures var r := FeedString(s, pgm);
      !r.ok && r.config.state == Error && r.config.error == s.error && r.config.commands == s.commands
  {
    ErrorAbsorbs(s, pgm[0]);
  }

  /** The output only grows, by at most one command per character. */
  lemma {:induction false} FeedStringAppendOnly(s: Config, pgm: string)
    requires Inv(s)
    ensures s.commands <= FeedString(s, pgm).config.commands
    ensures |FeedString(s, pgm).config.commands| <= |s.commands| + |pgm|
    decreases |pgm|
  {
    if pgm != [] {
      FeedAppendsAtMostOne(s, pgm[0]);
      if Feed(s, pgm[0]).ok {
        FeedStringAppendOnly(Feed(s, pgm[0]).config, pgm[1..]);
      }
    }
  }

  /** Every command `feedString` appends is well formed. */
  lemma {:induction false} FeedStringEmitsWellFormed(s: Config, pgm: string)
    requires Inv(s)
    ensures WellFormedFrom(FeedString(s, pgm).config.commands, |s.commands|)
    decreases |pgm|
  {
    if pgm != [] {
      var r0 := Feed(s, pgm[0]);
      FeedAppendsAtMostOne(s, pgm[0]);
      if r0.ok {
        var t := r0.config;
        FeedStringEmitsWellFormed(t, pgm[1..]);
        FeedStringAppendOnly(t, pgm[1..]);
        WellFormedFromStep(s.commands, t.commands, FeedString(t, pgm[1..]).config.commands);
      } else {
        WellFormedFromStep(s.commands, r0.config.commands, r0.config.commands);
      }
    }
  }

  /**
   * Every command parsed from any input has a known mnemonic, starting with a
   * literal `^` or `~`, and one argument per non-delimiter token of its format.
   */
  lemma ParsedCommandsWellFormed(pgm: string, k: nat)
    requires k < |FeedString(NewParser(), pgm).config.commands|
    ensures var cmd := FeedString(NewParser(), pgm).config.commands[k];
      && cmd.name in Commands()
      && (cmd.name[0] == '^' || cmd.name[0] == '~')
      && |cmd.arguments| == |Commands()[cmd.name]| - DelimiterCount(Commands()[cmd.name])
  {
    var cmd := FeedString(NewParser(), pgm).config.commands[k];
    FeedStringEmitsWellFormed(NewParser(), pgm);
    assert WellFormed(cmd);
    KeysAreMnemonics(cmd.name);
    SlotsLength(Commands()[cmd.name]);
  }
}
