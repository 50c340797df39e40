/** Go strings as the byte sequences they are. */
module GoString {

  /** One byte of a Go string. */
  newtype byte = x: int | 0 <= x < 256

  /** A Go `string`: `len(s)`, `s[i]` and `s[i:j]` work on bytes. */
  type Str = seq<byte>

  predicate IsAscii(s: string)
  {
    forall i :: 0 <= i < |s| ==> s[i] as int < 128
  }

  /** Every byte of `s` is below 0x80. */
  predicate AllAscii(s: Str)
  {
    forall k :: 0 <= k < |s| ==> s[k] < 128
  }

  /** The bytes of a string literal written in ASCII. */
  function FromAscii(s: string): (r: Str)
    requires IsAscii(s)
    ensures |r| == |s|
    ensures forall i :: 0 <= i < |s| ==> r[i] as int == s[i] as int
  {
    seq(|s|, i requires 0 <= i < |s| => s[i] as int as byte)
  }

  const Colon: byte := 58
  const Dot: byte := 46
  const Dash: byte := 45

  /**
   * The bytes of Go's `string(b)` for a byte `b`: the conversion reads `b` as
   * the code point U+00XX and yields its UTF-8 encoding, which is `b` itself
   * below 0x80 and two bytes from 0x80 on.
   */
  function RuneBytes(b: byte): (r: Str)
    ensures b < 128 ==> r == [b]
    ensures 128 <= b ==> |r| == 2 && 0xC2 <= r[0] <= 0xC3 && 0x80 <= r[1] < 0xC0
  {
    if b < 128 then [b]
    else [(0xC0 + b as int / 64) as byte, (0x80 + b as int % 64) as byte]
  }

  /** Decoding the two-byte UTF-8 form that `RuneBytes` produces gives the byte back. */
  lemma RuneBytesDecodes(b: byte)
    requires 128 <= b
    ensures var r := RuneBytes(b); (r[0] as int - 0xC0) * 64 + (r[1] as int - 0x80) == b as int
  {
  }
}
