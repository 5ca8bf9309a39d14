/**
 * Whole programs run from Ready, followed with the branch lemmas of Steps
 * and the runs of Runs. The arguments are left symbolic where the parser
 * does not care what they contain, and the starting configuration is any
 * Ready one whose caret and tilde are `^` and `~` (a fresh parser is one,
 * with the delimiter `,`).
 */
module Examples {
  import opened Wrappers
  import opened Runes
  import opened Grammar
  import opened Machine
  import opened MachineFacts
  import opened Steps
  import opened Runs
  import opened Seqs

  /** Characters that neither end a line nor a TEXT argument under the default caret and tilde. */
  predicate Text(a: string)
  {
    forall i :: 0 <= i < |a| ==> a[i] != '\n' && a[i] != '^' && a[i] != '~'
  }

  /** Characters that do not end a PARAM argument either. */
  predicate Param(a: string, delimiter: char)
  {
    Text(a) && forall i :: 0 <= i < |a| ==> a[i] != delimiter
  }

  /** Ready, with the default caret and tilde and a delimiter that is none of them. */
  ghost predicate Start(s: Config)
  {
    && Inv(s) && s.state == Ready && s.caret == '^' && s.tilde == '~'
    && s.delimiter != '\n' && s.delimiter != '^' && s.delimiter != '~'
  }

  /** A fresh parser is such a configuration. */
  lemma FreshParserStarts()
    ensures Start(NewParser()) && NewParser().delimiter == ','
  {
  }

  /** Splitting the second run of a composition. */
  lemma Compose3(s: Config, x: string, t: Config, y: string, z: string, u: Config)
    requires Inv(s) && FeedString(s, x) == Outcome(t, true)
    requires FeedString(t, y + z) == Outcome(u, true)
    ensures FeedString(s, x + y + z) == Outcome(u, true)
  {
    Compose(s, x, t, y + z, u);
    Assoc(x, y, z);
  }

  lemma Spellings()
    ensures "^" + "FS" == "^FS"
    ensures "^" + "Z" == "^Z" && "^Z" + "Z" == "^ZZ" && "^ZZ" + "Z" == "^ZZZ"
    ensures "^ZZZ" + "Z" == "^ZZZZ" && "^ZZZZ" + "Z" == "^ZZZZZ"
  {
  }

  // ---------------------------------------------------------------------------
  // ^FO<a><d><b>^FS, with d the delimiter

  /** Reading the first argument of `^FO`. */
  function OriginFirst(s: Config, a: string): Config
  {
    s.(column := s.column + 3 + |a|, state := Arguments, currentCmd := "^FO", currentArg := a)
  }

  /** `^FO` after the delimiter, before its second argument. */
  function OriginSeparated(s: Config, a: string): Config
  {
    s.(column := s.column + 4 + |a|, state := Arguments, currentCmd := "^FO", args := [a], argn := 1)
  }

  /** Reading the second argument of `^FO`. */
  function OriginSecond(s: Config, a: string, b: string): Config
  {
    s.(column := s.column + 4 + |a| + |b|, state := Arguments, currentCmd := "^FO",
       args := [a], argn := 1, currentArg := b)
  }

  /** `^FO` emitted, and the caret of the next command read. */
  function OriginEmitted(s: Config, a: string, b: string): Config
  {
    s.(column := s.column + 6 + |a| + |b|, state := CaretCommand, currentCmd := "^",
       commands := s.commands + [Command("^FO", [a, b])])
  }

  /** Both commands emitted. */
  function OriginDone(s: Config, a: string, b: string): Config
  {
    s.(column := s.column + 8 + |a| + |b|,
       commands := s.commands + [Command("^FO", [a, b]), Command("^FS", [])])
  }

  lemma OriginOpens(s: Config, a: string)
    requires Start(s) && Param(a, s.delimiter)
    ensures Inv(OriginFirst(s, a))
    ensures FeedString(s, "^FO" + a) == Outcome(OriginFirst(s, a), true)
  {
    var s1 := s.(column := s.column + 3, state := Arguments, currentCmd := "^FO");
    ReadSpelledCommand(s, "^FO");
    ArgumentRun(s1, a);
    Compose(s, "^FO", s1, a, OriginFirst(s, a));
  }

  lemma OriginSeparates(s: Config, a: string)
    requires Start(s) && Inv(OriginFirst(s, a))
    ensures Inv(OriginSeparated(s, a))
    ensures FeedString(OriginFirst(s, a), [s.delimiter]) == Outcome(OriginSeparated(s, a), true)
  {
    DelimiterNextArgument(OriginFirst(s, a));
    Unit([a]);
    FeedStringOne(OriginFirst(s, a), s.delimiter);
  }

  lemma OriginSecondArgument(s: Config, a: string, b: string)
    requires Start(s) && Inv(OriginSeparated(s, a)) && Param(b, s.delimiter)
    ensures Inv(OriginSecond(s, a, b))
    ensures FeedString(OriginSeparated(s, a), b) == Outcome(OriginSecond(s, a, b), true)
  {
    ArgumentRun(OriginSeparated(s, a), b);
  }

  lemma OriginEnds(s: Config, a: string, b: string)
    requires Start(s) && Inv(OriginSecond(s, a, b))
    ensures Inv(OriginEmitted(s, a, b))
    ensures FeedString(OriginSecond(s, a, b), "^") == Outcome(OriginEmitted(s, a, b), true)
  {
    ControlEndsLastArgument(OriginSecond(s, a, b), '^');
    Pair(a, b);
    FeedStringOne(OriginSecond(s, a, b), '^');
  }

  lemma OriginCloses(s: Config, a: string, b: string)
    requires Start(s) && Inv(OriginEmitted(s, a, b))
    ensures FeedString(OriginEmitted(s, a, b), "FS") == Outcome(OriginDone(s, a, b), true)
  {
    ReadMnemonic(OriginEmitted(s, a, b), "^FS");
    Snoc2(s.commands, Command("^FO", [a, b]), Command("^FS", []));
  }

  lemma OriginArguments(s: Config, a: string, b: string)
    requires Start(s) && Param(a, s.delimiter) && Param(b, s.delimiter)
    ensures Inv(OriginSecond(s, a, b))
    ensures FeedString(s, "^FO" + a + [s.delimiter] + b) == Outcome(OriginSecond(s, a, b), true)
  {
    OriginOpens(s, a);
    OriginSeparates(s, a);
    OriginSecondArgument(s, a, b);
    Compose(s, "^FO" + a, OriginFirst(s, a), [s.delimiter], OriginSeparated(s, a));
    Compose(s, "^FO" + a + [s.delimiter], OriginSeparated(s, a), b, OriginSecond(s, a, b));
  }

  lemma OriginTail(s: Config, a: string, b: string)
    requires Start(s) && Inv(OriginSecond(s, a, b))
    ensures FeedString(OriginSecond(s, a, b), "^FS") == Outcome(OriginDone(s, a, b), true)
  {
    OriginEnds(s, a, b);
    OriginCloses(s, a, b);
    Compose(OriginSecond(s, a, b), "^", OriginEmitted(s, a, b), "FS", OriginDone(s, a, b));
    Spellings();
  }

  /**
   * `^FO<a>,<b>^FS` (with the current delimiter in place of the comma): the
   * delimiter separates the two PARAM arguments of `^FO`; the caret ends the
   * second one, emits `^FO` and starts `^FS`. The caret is seen by two calls
   * of `feed`, so the column moves one further than the length of the program.
   */
  lemma FieldOriginExample(s: Config, a: string, b: string)
    requires Start(s) && Param(a, s.delimiter) && Param(b, s.delimiter)
    ensures FeedString(s, "^FO" + a + [s.delimiter] + b + "^FS") ==
              Outcome(s.(column := s.column + 8 + |a| + |b|,
                         commands := s.commands + [Command("^FO", [a, b]), Command("^FS", [])]), true)
  {
    FieldOriginRun(s, a, b);
  }

  lemma FieldOriginRun(s: Config, a: string, b: string)
    requires Start(s) && Param(a, s.delimiter) && Param(b, s.delimiter)
    ensures FeedString(s, "^FO" + a + [s.delimiter] + b + "^FS") == Outcome(OriginDone(s, a, b), true)
  {
    OriginArguments(s, a, b);
    OriginTail(s, a, b);
    Compose(s, "^FO" + a + [s.delimiter] + b, OriginSecond(s, a, b), "^FS", OriginDone(s, a, b));
  }

  // ---------------------------------------------------------------------------
  // ^FD<t>^FS

  /** Reading the TEXT argument of `^FD`. */
  function DataText(s: Config, t: string): Config
  {
    s.(column := s.column + 3 + |t|, state := Arguments, currentCmd := "^FD", currentArg := t)
  }

  /** `^FD` emitted, and the caret of the next command read. */
  function DataEmitted(s: Config, t: string): Config
  {
    s.(column := s.column + 5 + |t|, state := CaretCommand, currentCmd := "^",
       commands := s.commands + [Command("^FD", [t])])
  }

  /** Both commands emitted. */
  function DataDone(s: Config, t: string): Config
  {
    s.(column := s.column + 7 + |t|, commands := s.commands + [Command("^FD", [t]), Command("^FS", [])])
  }

  lemma DataOpens(s: Config, t: string)
    requires Start(s) && Text(t)
    ensures Inv(DataText(s, t))
    ensures FeedString(s, "^FD" + t) == Outcome(DataText(s, t), true)
  {
    var s1 := s.(column := s.column + 3, state := Arguments, currentCmd := "^FD");
    ReadSpelledCommand(s, "^FD");
    ArgumentRun(s1, t);
    Compose(s, "^FD", s1, t, DataText(s, t));
  }

  lemma DataEnds(s: Config, t: string)
    requires Start(s) && Inv(DataText(s, t))
    ensures Inv(DataEmitted(s, t))
    ensures FeedString(DataText(s, t), "^") == Outcome(DataEmitted(s, t), true)
  {
    ControlEndsLastArgument(DataText(s, t), '^');
    Unit([t]);
    FeedStringOne(DataText(s, t), '^');
  }

  lemma DataCloses(s: Config, t: string)
    requires Start(s) && Inv(DataEmitted(s, t))
    ensures FeedString(DataEmitted(s, t), "FS") == Outcome(DataDone(s, t), true)
  {
    ReadMnemonic(DataEmitted(s, t), "^FS");
    Snoc2(s.commands, Command("^FD", [t]), Command("^FS", []));
  }

  lemma DataTail(s: Config, t: string)
    requires Start(s) && Inv(DataText(s, t))
    ensures FeedString(DataText(s, t), "^FS") == Outcome(DataDone(s, t), true)
  {
    DataEnds(s, t);
    DataCloses(s, t);
    Compose(DataText(s, t), "^", DataEmitted(s, t), "FS", DataDone(s, t));
    Spellings();
  }

  /**
   * `^FD<t>^FS`: a TEXT argument takes in everything up to the caret or the
   * tilde, the delimiter and spaces included; the caret is then fed again and
   * starts `^FS`.
   */
  lemma FieldDataExample(s: Config, t: string)
    requires Start(s) && Text(t)
    ensures FeedString(s, "^FD" + t + "^FS") ==
              Outcome(s.(column := s.column + 7 + |t|,
                         commands := s.commands + [Command("^FD", [t]), Command("^FS", [])]), true)
  {
    DataOpens(s, t);
    DataTail(s, t);
    Compose(s, "^FD" + t, DataText(s, t), "^FS", DataDone(s, t));
  }

  // ---------------------------------------------------------------------------
  // ^CC<c> then <c>FS

  /** `^CC` read, waiting for its BYTE argument. */
  function CaretChanging(s: Config): Config
  {
    s.(column := s.column + 3, state := Arguments, currentCmd := "^CC")
  }

  /** `^CC<c>` emitted: the caret is now `c`. */
  function CaretChanged(s: Config, c: char): Config
  {
    s.(column := s.column + 4, caret := c, commands := s.commands + [Command("^CC", [[c]])])
  }

  /** `^FS` emitted too. */
  function CaretDone(s: Config, c: char): Config
  {
    s.(column := s.column + 7, caret := c,
       commands := s.commands + [Command("^CC", [[c]]), Command("^FS", [])])
  }

  lemma CaretOpens(s: Config)
    requires Start(s)
    ensures Inv(CaretChanging(s))
    ensures FeedString(s, "^CC") == Outcome(CaretChanging(s), true)
  {
    ReadSpelledCommand(s, "^CC");
  }

  lemma CaretSet(s: Config, c: char)
    requires Start(s) && Inv(CaretChanging(s)) && c != '\n' && c as int < 0x80
    ensures Inv(CaretChanged(s, c))
    ensures FeedString(CaretChanging(s), [c]) == Outcome(CaretChanged(s, c), true)
  {
    ChangeCommandStep(CaretChanging(s), c);
    FeedStringOne(CaretChanging(s), c);
  }

  lemma CaretUsed(s: Config, c: char)
    requires Start(s) && Inv(CaretChanged(s, c)) && c != '\n' && !IsSpace(c)
    ensures FeedString(CaretChanged(s, c), [c] + "FS") == Outcome(CaretDone(s, c), true)
  {
    ReadCommand(CaretChanged(s, c), "^FS");
    Snoc2(s.commands, Command("^CC", [[c]]), Command("^FS", []));
  }

  /**
   * `^CC<c>` makes `c` the caret at once, and the command it then starts is
   * still named with a literal `^`: with `c` the tilde, `^CC~~FS` reads
   * `^CC` with argument `~` and then `^FS`.
   */
  lemma ChangeCaretExample(s: Config, c: char)
    requires Start(s) && c != '\n' && !IsSpace(c) && c as int < 0x80
    ensures FeedString(s, "^CC" + [c] + [c] + "FS") ==
              Outcome(s.(column := s.column + 7, caret := c,
                         commands := s.commands + [Command("^CC", [[c]]), Command("^FS", [])]), true)
  {
    CaretOpens(s);
    CaretSet(s, c);
    CaretUsed(s, c);
    Compose(s, "^CC", CaretChanging(s), [c], CaretChanged(s, c));
    Compose3(s, "^CC" + [c], CaretChanged(s, c), [c], "FS", CaretDone(s, c));
  }

  // ---------------------------------------------------------------------------
  // ^CD<d> then a ^FO that uses it

  /** `^CD` read, waiting for its BYTE argument. */
  function DelimiterChanging(s: Config): Config
  {
    s.(column := s.column + 3, state := Arguments, currentCmd := "^CD")
  }

  /** `^CD<d>` emitted: the delimiter is now `d`. */
  function DelimiterChanged(s: Config, d: char): Config
  {
    s.(column := s.column + 4, delimiter := d, commands := s.commands + [Command("^CD", [[d]])])
  }

  lemma DelimiterOpens(s: Config)
    requires Start(s)
    ensures Inv(DelimiterChanging(s))
    ensures FeedString(s, "^CD") == Outcome(DelimiterChanging(s), true)
  {
    ReadSpelledCommand(s, "^CD");
  }

  lemma DelimiterTakes(s: Config, d: char)
    requires Start(s) && Inv(DelimiterChanging(s)) && d != '\n' && d as int < 0x80
    ensures Inv(DelimiterChanged(s, d))
    ensures FeedString(DelimiterChanging(s), [d]) == Outcome(DelimiterChanged(s, d), true)
  {
    ChangeCommandStep(DelimiterChanging(s), d);
    FeedStringOne(DelimiterChanging(s), d);
  }

  lemma DelimiterSet(s: Config, d: char)
    requires Start(s) && d != '\n' && d as int < 0x80
    ensures Inv(DelimiterChanged(s, d))
    ensures FeedString(s, "^CD" + [d]) == Outcome(DelimiterChanged(s, d), true)
  {
    DelimiterOpens(s);
    DelimiterTakes(s, d);
    Compose(s, "^CD", DelimiterChanging(s), [d], DelimiterChanged(s, d));
  }

  lemma DelimiterDone(s: Config, d: char, a: string, b: string)
    ensures OriginDone(DelimiterChanged(s, d), a, b) ==
              s.(column := s.column + 12 + |a| + |b|, delimiter := d,
                 commands := s.commands + [Command("^CD", [[d]]), Command("^FO", [a, b]), Command("^FS", [])])
  {
    assert s.commands + [Command("^CD", [[d]])] + [Command("^FO", [a, b]), Command("^FS", [])] ==
           s.commands + [Command("^CD", [[d]]), Command("^FO", [a, b]), Command("^FS", [])];
  }

  lemma ChangeDelimiterExample(s: Config, d: char, a: string, b: string)
    requires Start(s) && d != '\n' && d != '^' && d != '~' && d as int < 0x80
    requires Param(a, d) && Param(b, d)
    ensures FeedString(s, "^CD" + [d] + ("^FO" + a + [d] + b + "^FS")) ==
              Outcome(OriginDone(DelimiterChanged(s, d), a, b), true)
    ensures OriginDone(DelimiterChanged(s, d), a, b) ==
              s.(column := s.column + 12 + |a| + |b|, delimiter := d,
                 commands := s.commands + [Command("^CD", [[d]]), Command("^FO", [a, b]), Command("^FS", [])])
  {
    DelimiterDone(s, d, a, b);
    DelimiterSet(s, d);
    FieldOriginRun(DelimiterChanged(s, d), a, b);
    Compose(s, "^CD" + [d], DelimiterChanged(s, d), "^FO" + a + [d] + b + "^FS",
            OriginDone(DelimiterChanged(s, d), a, b));
  }

  // ---------------------------------------------------------------------------
  // Failures

  /**
   * A program whose first character is neither a space nor a control
   * character fails at once: the error names the caret and the tilde, at the
   * column after the one the parser started on (column 2 for a fresh parser),
   * and nothing is emitted.
   */
  lemma ExpectedControlExample(s: Config, x: char, rest: string)
    requires Inv(s) && s.state == Ready
    requires x != '\n' && !IsSpace(x) && x != s.caret && x != s.tilde
    ensures var r := FeedString(s, [x] + rest);
      && !r.ok && r.config.state == Error && r.config.commands == s.commands
      && r.config.error == Some(Diagnostic(s.row, s.column + 1, ExpectedControl(s.caret, s.tilde)))
  {
    ReadyRejects(s, x);
    FeedStringOne(s, x);
    FeedStringStops(s, [x], rest);
  }

  /** `^A` read: its first BYTE slot comes next. */
  function FontOpened(s: Config): Config
  {
    s.(column := s.column + 2, state := Arguments, currentCmd := "^A")
  }

  /** `^A` with its first BYTE argument `b` stored. */
  function FontByte(s: Config, b: char): Config
  {
    s.(column := s.column + 3, state := Arguments, currentCmd := "^A", args := [[b]], argn := 1)
  }

  /** `^A` with its two BYTE arguments `b` and `o` stored: the DELIMITER slot comes next. */
  function FontBytes(s: Config, b: char, o: char): Config
  {
    s.(column := s.column + 4, state := Arguments, currentCmd := "^A", args := [[b], [o]], argn := 2)
  }

  /**
   * `^A<b><o>` followed by `x` where the delimiter belongs: the parser is in
   * Error, reporting the expected delimiter at the column of `x`, and has
   * emitted nothing.
   */
  function FontRejected(s: Config, b: char, o: char, x: char): Config
  {
    FontBytes(s, b, o).(column := s.column + 5, state := Error,
                        error := Some(Diagnostic(s.row, s.column + 5, ExpectedDelimiter(s.delimiter, x))))
  }

  lemma FontOpens(s: Config)
    requires Start(s)
    ensures Inv(FontOpened(s))
    ensures FeedString(s, "^A") == Outcome(FontOpened(s), true)
  {
    FontCommandFormat("^A");
    ReadSpelledCommand(s, "^A");
  }

  lemma FontFirstByte(s: Config, b: char)
    requires Start(s) && Inv(FontOpened(s)) && b != '\n'
    ensures Inv(FontByte(s, b))
    ensures FeedString(FontOpened(s), [b]) == Outcome(FontByte(s, b), true)
  {
    FontCommandFormat("^A");
    ByteNextArgument(FontOpened(s), b);
    Unit([[b]]);
    FeedStringOne(FontOpened(s), b);
  }

  lemma FontSecondByte(s: Config, b: char, o: char)
    requires Start(s) && Inv(FontByte(s, b)) && o != '\n'
    ensures Inv(FontBytes(s, b, o))
    ensures FeedString(FontByte(s, b), [o]) == Outcome(FontBytes(s, b, o), true)
  {
    FontCommandFormat("^A");
    ByteNextArgument(FontByte(s, b), o);
    Pair([b], [o]);
    FeedStringOne(FontByte(s, b), o);
  }

  lemma FontFails(s: Config, b: char, o: char, x: char)
    requires Start(s) && Inv(FontBytes(s, b, o)) && x != '\n' && x != s.delimiter
    ensures FeedString(FontBytes(s, b, o), [x]) == Outcome(FontRejected(s, b, o, x), false)
  {
    var t := FontBytes(s, b, o);
    FontCommandFormat("^A");
    FeedInArguments(t, x);
    MoveKeepsInv(t);
    DelimiterSlotFails(t.(column := t.column + 1), x);
    FeedStringOne(t, x);
  }

  lemma FontReadsBytes(s: Config, b: char, o: char)
    requires Start(s) && b != '\n' && o != '\n'
    ensures Inv(FontBytes(s, b, o))
    ensures FeedString(s, "^A" + [b, o]) == Outcome(FontBytes(s, b, o), true)
  {
    FontOpens(s);
    FontFirstByte(s, b);
    FontSecondByte(s, b, o);
    Compose(s, "^A", FontOpened(s), [b], FontByte(s, b));
    Compose(s, "^A" + [b], FontByte(s, b), [o], FontBytes(s, b, o));
    assert "^A" + [b] + [o] == "^A" + [b, o];
  }

  lemma FontRejects(s: Config, b: char, o: char, x: char)
    requires Start(s) && b != '\n' && o != '\n' && x != '\n' && x != s.delimiter
    ensures FeedString(s, "^A" + [b, o, x]) == Outcome(FontRejected(s, b, o, x), false)
  {
    FontReadsBytes(s, b, o);
    FontFails(s, b, o, x);
    FeedStringAppend(s, "^A" + [b, o], [x]);
    assert "^A" + [b, o] + [x] == "^A" + [b, o, x];
  }

  /**
   * `^A<b><o><x>` with `x` not the delimiter: the two BYTE slots of `^A`
   * take any characters, and the DELIMITER slot after them rejects `x`. The
   * error is at the column of `x` (column 6 for a fresh parser), nothing is
   * emitted, and whatever follows is not read.
   */
  lemma ExpectedDelimiterExample(s: Config, b: char, o: char, x: char, rest: string)
    requires Start(s) && b != '\n' && o != '\n' && x != '\n' && x != s.delimiter
    ensures FeedString(s, "^A" + [b, o, x] + rest) == Outcome(FontRejected(s, b, o, x), false)
  {
    FontRejects(s, b, o, x);
    FeedStringStops(s, "^A" + [b, o, x], rest);
  }

  /** Two-character strings other than `^A` are not in the table. */
  lemma NotAMnemonic(k: string)
    requires |k| == 2 && k != "^A"
    ensures k !in Commands()
  {
    if k in Commands() {
      KeysAreMnemonics(k);
    }
  }

  /** Mnemonics of the table have at most three characters, so none starts with `^ZZ`. */
  lemma NotZMnemonic(k: string)
    requires |k| >= 3 && k[..3] == "^ZZ"
    ensures k !in Commands()
  {
    if k in Commands() {
      KeysAreMnemonics(k);
    }
  }

  /** The mnemonic `m` read after the caret, with nothing emitted. */
  function Reading(s: Config, m: string): Config
  {
    s.(column := s.column + |m|, state := CaretCommand, currentCmd := m)
  }

  /** `^ZZZZ` read and rejected: five bytes and no command. */
  function InvalidZ(s: Config): Config
  {
    s.(column := s.column + 5, state := Error, currentCmd := "^ZZZZ",
       error := Some(Diagnostic(s.row, s.column + 5, InvalidCommand("^ZZZZ"))))
  }

  lemma ZStarts(s: Config)
    requires Start(s)
    ensures Inv(Reading(s, "^Z"))
    ensures FeedString(s, "^Z") == Outcome(Reading(s, "^Z"), true)
  {
    ReadyStartsCommand(s, '^');
    var s1 := Reading(s, "^");
    NotAMnemonic("^Z");
    Spellings();
    MnemonicGrows(s1, 'Z');
    FeedStringTwo(s, '^', 'Z', s1);
  }

  lemma ZGrows(s: Config, m: string)
    requires Inv(Reading(s, m)) && |m| >= 2 && m[..2] == "^Z" && m + "Z" !in Commands()
    requires ByteLength(m + "Z") <= 4
    ensures Inv(Reading(s, m + "Z"))
    ensures FeedString(Reading(s, m), "Z") == Outcome(Reading(s, m + "Z"), true)
  {
    MnemonicGrows(Reading(s, m), 'Z');
    FeedStringOne(Reading(s, m), 'Z');
  }

  lemma ZFails(s: Config)
    requires Inv(Reading(s, "^ZZZ"))
    ensures FeedString(Reading(s, "^ZZZ"), "Z") == Outcome(InvalidZ(s), true)
  {
    NotZMnemonic("^ZZZZ");
    Spellings();
    UnknownMnemonicFails(Reading(s, "^ZZZ"), 'Z');
    FeedStringOne(Reading(s, "^ZZZ"), 'Z');
  }

  lemma ZPrefix(s: Config)
    requires Start(s)
    ensures Inv(Reading(s, "^ZZZ"))
    ensures FeedString(s, "^ZZZ") == Outcome(Reading(s, "^ZZZ"), true)
  {
    ZStarts(s);
    NotZMnemonic("^ZZ");
    NotZMnemonic("^ZZZ");
    Spellings();
    ZGrows(s, "^Z");
    ZGrows(s, "^ZZ");
    Compose(s, "^Z", Reading(s, "^Z"), "Z", Reading(s, "^ZZ"));
    Compose(s, "^ZZ", Reading(s, "^ZZ"), "Z", Reading(s, "^ZZZ"));
  }

  lemma ZRejected(s: Config)
    requires Start(s)
    ensures FeedString(s, "^ZZZZ") == Outcome(InvalidZ(s), true)
  {
    ZPrefix(s);
    ZFails(s);
    Compose(s, "^ZZZ", Reading(s, "^ZZZ"), "Z", InvalidZ(s));
    Spellings();
  }

  /**
   * `^ZZZZZ`: the mnemonic `^ZZZZ` reaches five bytes without naming a
   * command, so the parser fails on its last character, yet that call returns
   * true; the next `Z` is the one that returns false. For a fresh parser the
   * error is at row 1, column 6.
   */
  lemma InvalidCommandExample(s: Config)
    requires Start(s)
    ensures FeedString(s, "^ZZZZ") == Outcome(InvalidZ(s), true)
    ensures FeedString(s, "^ZZZZZ") == Outcome(InvalidZ(s).(column := s.column + 6), false)
  {
    ZRejected(s);
    FeedStringSnoc(s, "^ZZZZ", 'Z');
    Spellings();
    ErrorAbsorbs(InvalidZ(s), 'Z');
  }
}
