/**
 * `printZPL` of cmd/zplating/main.go: prints each parsed command on a line
 * of its own, with the control character it was read with and its
 * arguments joined by the delimiter in force. A change-caret, change-tilde
 * or change-delimiter command changes what the lines after it are printed
 * with.
 */
module Printer {
  import opened Wrappers
  import opened Runes
  import opened Grammar
  import opened Machine
  import opened MachineFacts

  /** The output settings: the character printed for each leading `^`/`~`, and the argument delimiter. */
  datatype Style = Style(prefixes: map<char, char>, delimiter: string)

  /** The settings a run starts with: every prefix prints as itself, and arguments are joined by `,`. */
  function Initial(): Style
  {
    Style(map['^' := '^', '~' := '~'], ",")
  }

  /** The name after its leading control character: what the effect of a command is keyed on. */
  function Tail(cmd: Command): string
    requires |cmd.name| > 0
  {
    cmd.name[1..]
  }

  /**
   * The command does not make the printer panic: its name has a first byte,
   * a change-caret or change-tilde command has a first argument with a first
   * byte, and a change-delimiter command has a first argument.
   */
  predicate Printable(cmd: Command)
  {
    && |cmd.name| > 0
    && (Tail(cmd) == "CC" || Tail(cmd) == "CT" ==> |cmd.arguments| > 0 && |cmd.arguments[0]| > 0)
    && (Tail(cmd) == "CD" ==> |cmd.arguments| > 0)
  }

  /** The map lookup: a key that is not there yields the zero rune. */
  function Prefix(st: Style, c: char): char
  {
    if c in st.prefixes then st.prefixes[c] else 0 as char
  }

  /** The line printed for `cmd` (without its newline). */
  function Line(st: Style, cmd: Command): (r: string)
    requires |cmd.name| > 0
    ensures |r| == |cmd.name| + |Join(cmd.arguments, st.delimiter)|
    ensures r[1..|cmd.name|] == Tail(cmd) && r[|cmd.name|..] == Join(cmd.arguments, st.delimiter)
  {
    [Prefix(st, LeadingByte(cmd.name[0]))] + Tail(cmd) + Join(cmd.arguments, st.delimiter)
  }

  /** The settings after printing `cmd`. */
  function Restyle(st: Style, cmd: Command): (r: Style)
    requires Printable(cmd)
    ensures Tail(cmd) != "CC" && Tail(cmd) != "CT" && Tail(cmd) != "CD" ==> r == st
    ensures Tail(cmd) != "CD" ==> r.delimiter == st.delimiter
    ensures Tail(cmd) == "CD" ==> r.prefixes == st.prefixes
    ensures st.prefixes.Keys <= r.prefixes.Keys <= st.prefixes.Keys + {'^', '~'}
  {
    if Tail(cmd) == "CC" then st.(prefixes := st.prefixes['^' := LeadingByte(cmd.arguments[0][0])])
    else if Tail(cmd) == "CT" then st.(prefixes := st.prefixes['~' := LeadingByte(cmd.arguments[0][0])])
    else if Tail(cmd) == "CD" then st.(delimiter := cmd.arguments[0])
    else st
  }

  /** What a run has printed, the settings it has reached, and whether it is still going (no panic). */
  datatype Printout = Printout(lines: seq<string>, style: Style, ok: bool)

  /**
   * The run over `pgm`, one command at a time. A command with an empty name
   * panics before its line is printed; a change command without the
   * argument it needs panics just after.
   */
  function Print(pgm: seq<Command>): (r: Printout)
    ensures |r.lines| <= |pgm|
  {
    if pgm == [] then Printout([], Initial(), true)
    else
      var r := Print(pgm[..|pgm| - 1]);
      var cmd := pgm[|pgm| - 1];
      if !r.ok then r
      else if |cmd.name| == 0 then r.(ok := false)
      else if !Printable(cmd) then r.(lines := r.lines + [Line(r.style, cmd)], ok := false)
      else Printout(r.lines + [Line(r.style, cmd)], Restyle(r.style, cmd), true)
  }

  /** `printZPL`: the loop over the commands, with the prefix map and the delimiter as its state. */
  method PrintZpl(pgm: seq<Command>) returns (out: seq<string>, ok: bool)
    ensures out == Print(pgm).lines && ok == Print(pgm).ok
  {
    var delimiter := ",";
    var prefixes := map['^' := '^', '~' := '~'];
    out := [];
    for i := 0 to |pgm|
      invariant Print(pgm[..i]) == Printout(out, Style(prefixes, delimiter), true)
    {
      var cmd := pgm[i];
      assert pgm[..i + 1][..i] == pgm[..i];
      if |cmd.name| == 0 {
        ok := false;
        PanicIsFinal(pgm, i + 1);
        return;
      }
      var key := LeadingByte(cmd.name[0]);
      var prefix := if key in prefixes then prefixes[key] else 0 as char;
      var rest := cmd.name[1..];
      out := out + [[prefix] + rest + Join(cmd.arguments, delimiter)];
      if rest == "CC" {
        if |cmd.arguments| == 0 || |cmd.arguments[0]| == 0 {
          ok := false;
          PanicIsFinal(pgm, i + 1);
          return;
        }
        prefixes := prefixes['^' := LeadingByte(cmd.arguments[0][0])];
      } else if rest == "CT" {
        if |cmd.arguments| == 0 || |cmd.arguments[0]| == 0 {
          ok := false;
          PanicIsFinal(pgm, i + 1);
          return;
        }
        prefixes := prefixes['~' := LeadingByte(cmd.arguments[0][0])];
      } else if rest == "CD" {
        if |cmd.arguments| == 0 {
          ok := false;
          PanicIsFinal(pgm, i + 1);
          return;
        }
        delimiter := cmd.arguments[0];
      }
    }
    assert pgm[..|pgm|] == pgm;
    ok := true;
  }

  /** Once the run has panicked, the commands after that are never looked at. */
  lemma {:induction false} PanicIsFinal(pgm: seq<Command>, i: nat)
    requires i <= |pgm| && !Print(pgm[..i]).ok
    ensures Print(pgm) == Print(pgm[..i])
    decreases |pgm|
  {
    if i < |pgm| {
      var init := pgm[..|pgm| - 1];
      assert init[..i] == pgm[..i];
      PanicIsFinal(init, i);
    } else {
      assert pgm[..i] == pgm;
    }
  }

  /** The run goes to the end exactly when no command makes it panic. */
  lemma {:induction false} PrintsToTheEnd(pgm: seq<Command>)
    ensures Print(pgm).ok <==> forall i :: 0 <= i < |pgm| ==> Printable(pgm[i])
    decreases |pgm|
  {
    if pgm != [] {
      var init := pgm[..|pgm| - 1];
      PrintsToTheEnd(init);
      assert forall i :: 0 <= i < |init| ==> init[i] == pgm[i];
    }
  }

  /**
   * A run that goes to the end prints one line per command, in order, and
   * line `i` is printed with the settings left by the commands before it:
   * a change command affects the lines after its own, not its own.
   */
  lemma {:induction false} OneLinePerCommand(pgm: seq<Command>)
    requires Print(pgm).ok
    ensures |Print(pgm).lines| == |pgm|
    ensures forall i :: 0 <= i < |pgm| ==>
              Printable(pgm[i]) && Print(pgm).lines[i] == Line(Print(pgm[..i]).style, pgm[i])
    decreases |pgm|
  {
    if pgm != [] {
      var n := |pgm| - 1;
      var init := pgm[..n];
      OneLinePerCommand(init);
      var r := Print(init);
      PrintSnoc(pgm);
      forall i | 0 <= i < n
        ensures Printable(pgm[i]) && Print(pgm).lines[i] == Line(Print(pgm[..i]).style, pgm[i])
      {
        assert pgm[i] == init[i] && pgm[..i] == init[..i];
        assert Print(pgm).lines[i] == r.lines[i];
      }
    }
  }

  /** The last command of a run that goes to the end adds its own line. */
  lemma PrintSnoc(pgm: seq<Command>)
    requires pgm != [] && Print(pgm).ok
    ensures Print(pgm[..|pgm| - 1]).ok && Printable(pgm[|pgm| - 1])
    ensures Print(pgm).lines == Print(pgm[..|pgm| - 1]).lines + [Line(Print(pgm[..|pgm| - 1]).style, pgm[|pgm| - 1])]
  {
  }

  /**
   * The run that panics at command `j` has printed the lines of the
   * commands before it, and the line of command `j` too unless its name is
   * empty.
   */
  lemma PanicOutput(pgm: seq<Command>, j: nat)
    requires j < |pgm| && !Printable(pgm[j])
    requires forall i :: 0 <= i < j ==> Printable(pgm[i])
    ensures !Print(pgm).ok
    ensures Print(pgm).lines ==
              Print(pgm[..j]).lines + (if |pgm[j].name| == 0 then [] else [Line(Print(pgm[..j]).style, pgm[j])])
  {
    PrintsToTheEnd(pgm[..j]);
    assert pgm[..j + 1][..j] == pgm[..j];
    PanicIsFinal(pgm, j + 1);
  }

  /** The first argument of the last command in `pgm` whose name ends in `t`, if any. */
  function LastArgument(pgm: seq<Command>, t: string): Option<string>
  {
    if pgm == [] then None
    else
      var cmd := pgm[|pgm| - 1];
      if |cmd.name| > 0 && Tail(cmd) == t && |cmd.arguments| > 0 then Some(cmd.arguments[0])
      else LastArgument(pgm[..|pgm| - 1], t)
  }

  /** The prefix that a change command's first argument sets, or `default` when there is none. */
  function SetBy(arg: Option<string>, default: char): char
  {
    if arg.Some? && |arg.value| > 0 then LeadingByte(arg.value[0]) else default
  }

  /**
   * The settings a run reaches depend only on the last change command of
   * each kind: the delimiter is the whole first argument of the last
   * `CD`, the caret prefix the first byte of the last `CC`'s argument, the
   * tilde prefix that of the last `CT`'s, and each stays as it started
   * when there is no such command. `^CC` and `~CC` count alike.
   */
  lemma StyleFollowsLastChange(pgm: seq<Command>)
    requires Print(pgm).ok
    ensures Print(pgm).style.delimiter ==
              (if LastArgument(pgm, "CD").Some? then LastArgument(pgm, "CD").value else ",")
    ensures Print(pgm).style.prefixes ==
              map['^' := SetBy(LastArgument(pgm, "CC"), '^'), '~' := SetBy(LastArgument(pgm, "CT"), '~')]
  {
    DelimiterFollowsLastChange(pgm);
    PrefixFollowsLastChange(pgm, '^', "CC");
    PrefixFollowsLastChange(pgm, '~', "CT");
    PrefixKeys(pgm);
  }

  /** A line starts with the prefix the map gives to the first byte of the name. */
  lemma LineStartsWithPrefix(st: Style, cmd: Command)
    requires |cmd.name| > 0
    ensures |Line(st, cmd)| > 0 && Line(st, cmd)[0] == Prefix(st, LeadingByte(cmd.name[0]))
  {
  }

  /**
   * In a run that goes to the end, the line of a command named with `^`
   * starts with the first byte of the last `CC` argument before it (or `^`
   * when there is none), and one named with `~` likewise with the last `CT`.
   */
  lemma LinePrefixFollowsLastChange(pgm: seq<Command>, i: nat)
    requires Print(pgm).ok && i < |pgm| && |pgm[i].name| > 0 && (pgm[i].name[0] == '^' || pgm[i].name[0] == '~')
    ensures |Print(pgm).lines| == |pgm| && |Print(pgm).lines[i]| > 0
    ensures Print(pgm).lines[i][0] ==
              if pgm[i].name[0] == '^' then SetBy(LastArgument(pgm[..i], "CC"), '^')
              else SetBy(LastArgument(pgm[..i], "CT"), '~')
  {
    OneLinePerCommand(pgm);
    PanicIsFinalBefore(pgm, i);
    StyleFollowsLastChange(pgm[..i]);
    LineStartsWithPrefix(Print(pgm[..i]).style, pgm[i]);
  }

  lemma {:induction false} DelimiterFollowsLastChange(pgm: seq<Command>)
    requires Print(pgm).ok
    ensures Print(pgm).style.delimiter ==
              (if LastArgument(pgm, "CD").Some? then LastArgument(pgm, "CD").value else ",")
    decreases |pgm|
  {
    if pgm != [] {
      DelimiterFollowsLastChange(pgm[..|pgm| - 1]);
    }
  }

  lemma {:induction false} PrefixFollowsLastChange(pgm: seq<Command>, lead: char, t: string)
    requires Print(pgm).ok
    requires (lead == '^' && t == "CC") || (lead == '~' && t == "CT")
    ensures lead in Print(pgm).style.prefixes
    ensures Print(pgm).style.prefixes[lead] == SetBy(LastArgument(pgm, t), lead)
    decreases |pgm|
  {
    if pgm != [] {
      PrefixFollowsLastChange(pgm[..|pgm| - 1], lead, t);
    }
  }

  lemma {:induction false} PrefixKeys(pgm: seq<Command>)
    requires Print(pgm).ok
    ensures Print(pgm).style.prefixes.Keys == {'^', '~'}
    decreases |pgm|
  {
    if pgm != [] {
      PrefixKeys(pgm[..|pgm| - 1]);
    }
  }

  /**
   * With the prefixes of a run that goes to the end, every command whose
   * name starts with `^` or `~` is printed with a prefix from the map, never
   * the zero rune.
   */
  lemma PrefixesAreKnown(pgm: seq<Command>, i: nat)
    requires Print(pgm).ok && i < |pgm| && |pgm[i].name| > 0 && (pgm[i].name[0] == '^' || pgm[i].name[0] == '~')
    ensures LeadingByte(pgm[i].name[0]) in Print(pgm[..i]).style.prefixes
  {
    PanicIsFinalBefore(pgm, i);
    PrefixKeys(pgm[..i]);
  }

  /** A run that goes to the end went to the end on every prefix of the program. */
  lemma PanicIsFinalBefore(pgm: seq<Command>, i: nat)
    requires Print(pgm).ok && i <= |pgm|
    ensures Print(pgm[..i]).ok
  {
    if !Print(pgm[..i]).ok {
      PanicIsFinal(pgm, i);
    }
  }

  /**
   * Programs whose commands have the same name tails and arguments, in the
   * same order, go as far and reach the same settings: whether a change
   * command was spelled with `^` or `~` makes no difference.
   */
  lemma {:induction false} EffectKeyedOnTail(p: seq<Command>, q: seq<Command>)
    requires |p| == |q|
    requires forall i :: 0 <= i < |p| ==> Alike(p[i], q[i])
    ensures Print(p).ok == Print(q).ok && Print(p).style == Print(q).style && |Print(p).lines| == |Print(q).lines|
    decreases |p|
  {
    if p != [] {
      var n := |p| - 1;
      AlikePrefix(p, q, n);
      EffectKeyedOnTail(p[..n], q[..n]);
      RestyleKeyedOnTail(Print(p[..n]).style, p[n], q[n]);
    }
  }

  /** Two commands with the same name tail and the same arguments. */
  predicate Alike(a: Command, b: Command)
  {
    a.arguments == b.arguments && |a.name| > 0 && |b.name| > 0 && Tail(a) == Tail(b)
  }

  lemma AlikePrefix(p: seq<Command>, q: seq<Command>, n: nat)
    requires |p| == |q| && n <= |p|
    requires forall i :: 0 <= i < |p| ==> Alike(p[i], q[i])
    ensures forall i :: 0 <= i < n ==> Alike(p[..n][i], q[..n][i])
  {
  }

  lemma RestyleKeyedOnTail(st: Style, a: Command, b: Command)
    requires Alike(a, b)
    ensures Printable(a) == Printable(b)
    ensures Printable(a) ==> Restyle(st, a) == Restyle(st, b)
  {
  }

  /** Every command the parser emits is printable. */
  lemma WellFormedIsPrintable(cmd: Command)
    requires WellFormed(cmd)
    ensures Printable(cmd)
  {
    KeysAreMnemonics(cmd.name);
    if Tail(cmd) == "CC" || Tail(cmd) == "CT" || Tail(cmd) == "CD" {
      ChangeCommandsReadOneByte(cmd.name);
      assert Slots([FmtByte]) == [FmtByte];
    }
  }

  /** Printing what the parser has read from any program goes to the end, one line per command. */
  lemma ParsedProgramPrints(pgm: string)
    ensures var cmds := FeedString(NewParser(), pgm).config.commands;
      Print(cmds).ok && |Print(cmds).lines| == |cmds|
  {
    var cmds := FeedString(NewParser(), pgm).config.commands;
    forall i | 0 <= i < |cmds|
      ensures Printable(cmds[i])
    {
      FeedStringEmitsWellFormed(NewParser(), pgm);
      WellFormedIsPrintable(cmds[i]);
    }
    PrintsToTheEnd(cmds);
    OneLinePerCommand(cmds);
  }

  /**
   * The commands read from `^CC~~FS`, `^CC` with argument `~` and then `^FS`,
   * print as `^CC~` and `~FS`: the new caret is used from the next line on.
   */
  lemma CaretChangePrints()
    ensures Print([Command("^CC", ["~"]), Command("^FS", [])]) ==
              Printout(["^CC~", "~FS"], Style(map['^' := '~', '~' := '~'], ","), true)
  {
    var p := [Command("^CC", ["~"]), Command("^FS", [])];
    assert p[..1] == [Command("^CC", ["~"])] && p[..1][..0] == [];
    assert Line(Initial(), p[0]) == "^CC~";
    assert Line(Restyle(Initial(), p[0]), p[1]) == "~FS";
  }
}
