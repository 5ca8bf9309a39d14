/**
 * The pieces of Go's string semantics that the parser and the printer rely on.
 *
 * A Go string is a sequence of UTF-8 bytes, while `range` over it yields runes.
 * The model keeps strings as sequences of runes (`seq<char>`); the two places
 * where the Go code looks at bytes instead of runes are modelled here:
 * `len(s)` counts bytes (ByteLength) and `s[0]` is the first byte of the
 * encoding (LeadingByte).
 */
module Runes {

  /** Go's `unicode.IsSpace`: the Latin-1 spaces plus the other Unicode White_Space runes. */
  predicate IsSpace(c: char)
    ensures IsSpace(c) ==> !('!' <= c <= '~')
    ensures c == ' ' || c == '\t' || c == '\n' || c == '\r' ==> IsSpace(c)
  {
    var n := c as int;
    if n <= 0xFF then
      n == 0x09 || n == 0x0A || n == 0x0B || n == 0x0C || n == 0x0D ||
      n == 0x20 || n == 0x85 || n == 0xA0
    else
      n == 0x1680 || (0x2000 <= n <= 0x200A) || n == 0x2028 || n == 0x2029 ||
      n == 0x202F || n == 0x205F || n == 0x3000
  }

  /** Number of bytes in the UTF-8 encoding of one rune. */
  function EncodedLength(c: char): (n: nat)
    ensures 1 <= n <= 4
    ensures n == 1 <==> c as int < 0x80
  {
    var v := c as int;
    if v < 0x80 then 1 else if v < 0x800 then 2 else if v < 0x10000 then 3 else 4
  }

  /** Go's `len(s)` on a string: the length of its UTF-8 encoding in bytes. */
  function ByteLength(s: string): (n: nat)
    ensures |s| <= n <= 4 * |s|
    ensures (forall i :: 0 <= i < |s| ==> s[i] as int < 0x80) ==> n == |s|
  {
    if s == [] then 0 else ByteLength(s[..|s| - 1]) + EncodedLength(s[|s| - 1])
  }

  lemma ByteLengthSnoc(s: string, c: char)
    ensures ByteLength(s + [c]) == ByteLength(s) + EncodedLength(c)
  {
    assert (s + [c])[..|s|] == s;
  }

  /**
   * `rune(s[0])` in Go, where `s` starts with the rune `c`: the first byte of
   * the UTF-8 encoding of `c`, read back as a rune in 0..255.
   */
  function LeadingByte(c: char): (b: char)
    ensures b as int < 0x100
    ensures c as int < 0x80 ==> b == c
    ensures c as int >= 0x80 ==> b as int >= 0xC0
  {
    var v := c as int;
    if v < 0x80 then c
    else if v < 0x800 then (0xC0 + v / 0x40) as char
    else if v < 0x10000 then (0xE0 + v / 0x1000) as char
    else (0xF0 + v / 0x40000) as char
  }

  /** Go's `strings.Join`: the elements in order with `sep` between neighbours. */
  function Join(elems: seq<string>, sep: string): (r: string)
    ensures |elems| == 0 ==> r == ""
    ensures |elems| > 0 ==> |r| == Total(elems) + (|elems| - 1) * |sep|
  {
    if |elems| == 0 then ""
    else if |elems| == 1 then elems[0]
    else elems[0] + sep + Join(elems[1..], sep)
  }

  /** Sum of the lengths of the strings. */
  function Total(elems: seq<string>): nat
  {
    if elems == [] then 0 else |elems[0]| + Total(elems[1..])
  }
}
