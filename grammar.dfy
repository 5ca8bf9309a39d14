/**
 * The command record and the static grammar table of pkg/zpl/command.go:
 * every known mnemonic (spelled with its literal `^` or `~`) mapped to the
 * format tokens that say how each of its argument slots is read.
 */
module Grammar {

  /** `formatToken`: how one argument slot is lexically delimited. */
  datatype FormatToken =
    | FmtNone       // no argument may be read here
    | FmtByte       // a single character, as a one-character string
    | FmtText       // everything up to the next control character
    | FmtParam      // everything up to the next delimiter or control character
    | FmtDelimiter  // one delimiter, read and discarded

  /** `Command`: a recognised mnemonic and its argument strings, in order. */
  datatype Command = Command(name: string, arguments: seq<string>)

  /** `commands()`: the lexicon of known commands. */
  function Commands(): map<string, seq<FormatToken>>
  {
    var p0: seq<FormatToken> := [];
    var p1 := [FmtText];
    var p2 := [FmtParam, FmtParam];
    var p3 := [FmtParam, FmtParam, FmtParam];
    var p5 := [FmtParam, FmtParam, FmtParam, FmtParam, FmtParam];
    var p6 := [FmtParam, FmtParam, FmtParam, FmtParam, FmtParam];
    var pbyte := [FmtByte];
    map[
      "^A" := [FmtByte, FmtByte, FmtDelimiter, FmtParam, FmtParam],
      "^BC" := p6,
      "^BY" := p3,
      "^CC" := pbyte,
      "~CC" := pbyte,
      "^CD" := pbyte,
      "~CD" := pbyte,
      "^CF" := p3,
      "^CT" := pbyte,
      "~CT" := pbyte,
      "^FD" := p1,
      "^FO" := p2,
      "^FR" := p0,
      "^FS" := p0,
      "^FX" := p1,
      "^GB" := p5,
      "^XA" := p0,
      "^XZ" := p0
    ]
  }

  /** The tokens of a format that produce an argument string, in order. */
  function Slots(f: seq<FormatToken>): (r: seq<FormatToken>)
    ensures |r| <= |f|
    ensures FmtDelimiter !in r
  {
    if f == [] then []
    else Slots(f[..|f| - 1]) + (if f[|f| - 1] == FmtDelimiter then [] else [f[|f| - 1]])
  }

  /** Number of FmtDelimiter tokens in a format. */
  function DelimiterCount(f: seq<FormatToken>): nat
  {
    if f == [] then 0 else DelimiterCount(f[1..]) + (if f[0] == FmtDelimiter then 1 else 0)
  }

  /** Extending a format by one token extends its argument slots by that token, unless it is a delimiter. */
  lemma SlotsSnoc(f: seq<FormatToken>, t: FormatToken)
    ensures Slots(f + [t]) == Slots(f) + (if t == FmtDelimiter then [] else [t])
  {
    assert (f + [t])[..|f|] == f;
  }

  /** A command built from format `f` carries one argument per non-delimiter token. */
  lemma {:induction false} SlotsLength(f: seq<FormatToken>)
    ensures |Slots(f)| == |f| - DelimiterCount(f)
    decreases |f|
  {
    if f != [] {
      var init := f[..|f| - 1];
      var last := f[|f| - 1];
      SlotsLength(init);
      DelimiterCountSnoc(init, last);
      assert init + [last] == f;
    }
  }

  lemma {:induction false} DelimiterCountSnoc(f: seq<FormatToken>, t: FormatToken)
    ensures DelimiterCount(f + [t]) == DelimiterCount(f) + (if t == FmtDelimiter then 1 else 0)
    decreases |f|
  {
    if f != [] {
      assert (f + [t])[1..] == f[1..] + [t];
      DelimiterCountSnoc(f[1..], t);
    }
  }

  /** Every key is a one- or two-letter mnemonic behind a literal `^` or `~`. */
  lemma KeysAreMnemonics(k: string)
    requires k in Commands()
    ensures 2 <= |k| <= 3
    ensures k[0] == '^' || k[0] == '~'
    ensures forall i :: 0 <= i < |k| ==> k[i] as int < 0x80
    ensures forall i :: 1 <= i < |k| ==> 'A' <= k[i] <= 'Z'
    ensures |k| == 2 <==> k == "^A"
    ensures |k| == 3 ==> k[1] != 'A'
  {
  }

  /** No key is a proper prefix of another, so the first match while accumulating a mnemonic is the only one. */
  lemma PrefixFree(k1: string, k2: string)
    requires k1 in Commands() && k2 in Commands()
    requires k1 <= k2
    ensures k1 == k2
  {
    KeysAreMnemonics(k1);
    KeysAreMnemonics(k2);
  }

  /** No format contains FmtNone and none ends in FmtDelimiter. */
  lemma FormatsAreReadable(k: string)
    requires k in Commands()
    ensures FmtNone !in Commands()[k]
    ensures |Commands()[k]| > 0 ==> Commands()[k][|Commands()[k]| - 1] != FmtDelimiter
  {
  }

  /** The change-caret, change-tilde and change-delimiter commands read exactly one byte. */
  lemma ChangeCommandsReadOneByte(k: string)
    requires k in Commands()
    requires k[1..] == "CC" || k[1..] == "CT" || k[1..] == "CD"
    ensures Commands()[k] == [FmtByte]
    ensures k in {"^CC", "~CC", "^CT", "~CT", "^CD", "~CD"}
  {
    KeysAreMnemonics(k);
  }

  /** `^A` is the only command with a delimiter token, and it reads two bytes, a delimiter and two parameters. */
  lemma FontCommandFormat(k: string)
    requires k in Commands()
    ensures FmtDelimiter in Commands()[k] <==> k == "^A"
    ensures k == "^A" ==> Commands()[k] == [FmtByte, FmtByte, FmtDelimiter, FmtParam, FmtParam]
  {
  }

  /** After a PARAM or TEXT slot only PARAM slots follow, so a control character that ends one argument ends the command. */
  lemma TrailingSlotsAreParams(k: string, i: nat, j: nat)
    requires k in Commands()
    requires i < j < |Commands()[k]|
    requires Commands()[k][i] == FmtParam || Commands()[k][i] == FmtText
    ensures Commands()[k][j] == FmtParam
  {
  }

  /**
   * The remaining entries: four commands without arguments, two TEXT
   * commands, and the PARAM arities. `^BC` is bound to the format named
   * `p6`, which holds five PARAM tokens, not six.
   */
  lemma TableEntries()
    ensures Commands()["^FR"] == [] && Commands()["^FS"] == [] && Commands()["^XA"] == [] && Commands()["^XZ"] == []
    ensures Commands()["^FD"] == [FmtText] && Commands()["^FX"] == [FmtText]
    ensures Commands()["^FO"] == [FmtParam, FmtParam]
    ensures Commands()["^BY"] == [FmtParam, FmtParam, FmtParam] && Commands()["^CF"] == [FmtParam, FmtParam, FmtParam]
    ensures Commands()["^GB"] == [FmtParam, FmtParam, FmtParam, FmtParam, FmtParam]
    ensures Commands()["^BC"] == [FmtParam, FmtParam, FmtParam, FmtParam, FmtParam]
  {
  }
}
