/**
 * Runs of several characters through `feedString`: reading a mnemonic of
 * the table, and reading the characters of one argument.
 */
module Runs {
  import opened Wrappers
  import opened Runes
  import opened Grammar
  import opened Machine
  import opened MachineFacts
  import opened Steps
  import opened Seqs

  /** The characters a PARAM or TEXT argument takes in as they are. */
  predicate Ordinary(s: Config, a: string)
    requires s.currentCmd in Commands() && s.argn < |CurrentFmt(s)|
  {
    forall i :: 0 <= i < |a| ==>
      && a[i] != '\n' && a[i] != s.caret && a[i] != s.tilde
      && (CurrentFmt(s)[s.argn] == FmtParam ==> a[i] != s.delimiter)
  }

  /**
   * In a PARAM or TEXT slot, a run of ordinary characters is appended to the
   * argument one by one, each advancing the column.
   */
  lemma {:induction false} ArgumentRun(s: Config, a: string)
    requires Inv(s) && s.state == Arguments
    requires CurrentFmt(s)[s.argn] == FmtParam || CurrentFmt(s)[s.argn] == FmtText
    requires Ordinary(s, a)
    ensures FeedString(s, a) == Outcome(s.(column := s.column + |a|, currentArg := s.currentArg + a), true)
    decreases |a|
  {
    if a == [] {
      UnitRight(s.currentArg);
    } else {
      var a' := a[..|a| - 1];
      var c := a[|a| - 1];
      assert Ordinary(s, a') by {
        forall i | 0 <= i < |a'|
          ensures a'[i] == a[i]
        {
        }
      }
      ArgumentRun(s, a');
      var t := s.(column := s.column + |a'|, currentArg := s.currentArg + a');
      FeedStringSnoc(s, a', c);
      Split(a);
      ArgumentGrows(t, c);
      Assoc(s.currentArg, a', [c]);
    }
  }

  /** The configuration once the mnemonic `k` of the table has been read. */
  function AfterMnemonic(s: Config, k: string): Config
    requires k in Commands()
  {
    if |Commands()[k]| > 0 then s.(currentCmd := k, state := Arguments)
    else s.(currentCmd := "", state := Ready, commands := s.commands + [Command(k, [])])
  }

  /** The last character of a mnemonic of the table. */
  lemma MnemonicEnds(s: Config, c: char)
    requires Inv(s) && (s.state == CaretCommand || s.state == TildeCommand) && c != '\n'
    requires s.currentCmd + [c] in Commands()
    ensures Feed(s, c) == Outcome(AfterMnemonic(s.(column := s.column + 1), s.currentCmd + [c]), true)
  {
    if |Commands()[s.currentCmd + [c]]| > 0 {
      MnemonicOpensArguments(s, c);
    } else {
      MnemonicEmitsBare(s, c);
    }
  }

  /** `feedString` on one character is `feed`. */
  lemma FeedStringOne(s: Config, c: char)
    requires Inv(s)
    ensures FeedString(s, [c]) == Feed(s, c)
  {
    FeedStringSnoc(s, [], c);
  }

  /**
   * Once the caret or the tilde has started a mnemonic, its remaining
   * characters read the command `k` of the table: a command with arguments
   * starts reading them, one without is emitted at once. No proper prefix
   * of `k` is itself a command, so nothing happens on the way.
   */
  lemma ReadMnemonic(s: Config, k: string)
    requires Inv(s) && (s.state == CaretCommand || s.state == TildeCommand)
    requires k in Commands() && s.currentCmd == k[..1]
    ensures FeedString(s, k[1..]) == Outcome(AfterMnemonic(s.(column := s.column + |k| - 1), k), true)
  {
    KeysAreMnemonics(k);
    if |k| == 2 {
      ReadShortMnemonic(s, k);
    } else {
      ReadLongMnemonic(s, k);
    }
  }

  lemma ReadShortMnemonic(s: Config, k: string)
    requires Inv(s) && (s.state == CaretCommand || s.state == TildeCommand)
    requires k in Commands() && s.currentCmd == k[..1] && |k| == 2
    ensures FeedString(s, k[1..]) == Outcome(AfterMnemonic(s.(column := s.column + 1), k), true)
  {
    KeysAreMnemonics(k);
    Two(k);
    FeedStringOne(s, k[1]);
    MnemonicEnds(s, k[1]);
  }

  lemma ReadLongMnemonic(s: Config, k: string)
    requires Inv(s) && (s.state == CaretCommand || s.state == TildeCommand)
    requires k in Commands() && s.currentCmd == k[..1] && |k| == 3
    ensures FeedString(s, k[1..]) == Outcome(AfterMnemonic(s.(column := s.column + 2), k), true)
  {
    KeysAreMnemonics(k);
    MnemonicMiddle(s, k);
    var t := s.(column := s.column + 1, currentCmd := k[..2]);
    Three(k);
    FeedStringPair(s, k[1..], t);
    MnemonicEnds(t, k[2]);
    AfterMnemonicIgnoresCmd(s.(column := s.column + 2), k[..2], k);
  }

  /** The mnemonic read so far does not matter once `k` has been read. */
  lemma AfterMnemonicIgnoresCmd(s: Config, x: string, k: string)
    requires k in Commands()
    ensures AfterMnemonic(s.(currentCmd := x), k) == AfterMnemonic(s, k)
  {
  }

  /** The middle character of a three-character mnemonic: `k[..2]` is no command, so reading goes on. */
  lemma MnemonicMiddle(s: Config, k: string)
    requires Inv(s) && (s.state == CaretCommand || s.state == TildeCommand)
    requires k in Commands() && s.currentCmd == k[..1] && |k| == 3
    ensures Feed(s, k[1]) == Outcome(s.(column := s.column + 1, currentCmd := k[..2]), true)
  {
    KeysAreMnemonics(k);
    var k2 := k[..2];
    assert k2 !in Commands() by {
      if k2 in Commands() {
        assert k2 <= k;
        PrefixFree(k2, k);
      }
    }
    assert ByteLength(k2) == 2;
    Three(k);
    MnemonicGrows(s, k[1]);
  }

  /** `feedString` on two characters. */
  lemma FeedStringTwo(s: Config, c: char, d: char, t: Config)
    requires Inv(s) && Feed(s, c) == Outcome(t, true)
    ensures Inv(t) && FeedString(s, [c, d]) == Feed(t, d)
  {
    FeedStringOne(s, c);
    FeedStringSnoc(s, [c], d);
    assert [c] + [d] == [c, d];
  }

  /** The same, for a string of two characters. */
  lemma FeedStringPair(s: Config, x: string, t: Config)
    requires Inv(s) && |x| == 2 && Feed(s, x[0]) == Outcome(t, true)
    ensures Inv(t) && FeedString(s, x) == Feed(t, x[1])
  {
    FeedStringTwo(s, x[0], x[1], t);
    assert x == [x[0], x[1]];
  }

  /** Running `x` then `y` is running `x + y`, when `x` does not fail. */
  lemma Then(s: Config, x: string, t: Config, y: string)
    requires Inv(s) && FeedString(s, x) == Outcome(t, true)
    ensures Inv(t) && FeedString(s, x + y) == FeedString(t, y)
  {
    FeedStringAppend(s, x, y);
  }

  /** Two runs that do not fail, one after the other. */
  lemma Compose(s: Config, x: string, t: Config, y: string, u: Config)
    requires Inv(s) && FeedString(s, x) == Outcome(t, true)
    requires FeedString(t, y) == Outcome(u, true)
    ensures FeedString(s, x + y) == Outcome(u, true)
  {
    Then(s, x, t, y);
  }

  /** The control character that starts the mnemonic `k` in this configuration. */
  function Starter(s: Config, k: string): char
    requires |k| > 0
  {
    if k[0] == '^' then s.caret else s.tilde
  }

  /**
   * From Ready, the caret followed by the tail of a `^` command of the table,
   * or the tilde followed by the tail of a `~` command, reads that command.
   * The name is spelled with a literal `^` or `~` whatever the control
   * characters are; a tilde that equals the caret starts a `^` command.
   */
  lemma ReadCommand(s: Config, k: string)
    requires Inv(s) && s.state == Ready && k in Commands()
    requires Starter(s, k) != '\n' && !IsSpace(Starter(s, k))
    requires k[0] == '~' ==> s.tilde != s.caret
    ensures FeedString(s, [Starter(s, k)] + k[1..]) ==
              Outcome(AfterMnemonic(s.(column := s.column + |k|), k), true)
  {
    KeysAreMnemonics(k);
    var c := Starter(s, k);
    ReadyStartsCommand(s, c);
    var t := s.(column := s.column + 1, state := if c == s.caret then CaretCommand else TildeCommand,
                currentCmd := if c == s.caret then "^" else "~");
    assert t.currentCmd == k[..1];
    FeedStringOne(s, c);
    Then(s, [c], t, k[1..]);
    ReadMnemonic(t, k);
  }

  /** The same, for a program that spells the command out with the control character it starts with. */
  lemma ReadSpelledCommand(s: Config, k: string)
    requires Inv(s) && s.state == Ready && k in Commands()
    requires Starter(s, k) == k[0]
    requires k[0] == '~' ==> s.tilde != s.caret
    ensures FeedString(s, k) == Outcome(AfterMnemonic(s.(column := s.column + |k|), k), true)
  {
    KeysAreMnemonics(k);
    ReadCommand(s, k);
    Split(k);
  }
}
