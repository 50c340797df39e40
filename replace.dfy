/**
 * The hand-written `replaceAll` helper of the dns package: scan the string
 * left to right, emit the replacement at every non-overlapping occurrence of
 * the pattern and copy every other byte.
 */
module Replace {
  import opened GoString

  /** `pat` occurs in `s` starting at byte `k`. */
  predicate OccursAt(s: Str, pat: Str, k: int)
  {
    0 <= k && k + |pat| <= |s| && s[k..k + |pat|] == pat
  }

  /**
   * Left-to-right, non-overlapping replacement of `pat` by `rep`, copying
   * unmatched bytes unchanged. An empty pattern is allowed only on an empty
   * string: on any other string the Go loop never advances.
   */
  function Replaced(s: Str, pat: Str, rep: Str): Str
    requires pat != [] || s == []
    decreases |s|
  {
    if s == [] then []
    else if OccursAt(s, pat, 0) then rep + Replaced(s[|pat|..], pat, rep)
    else [s[0]] + Replaced(s[1..], pat, rep)
  }

  /**
   * The same scan as the Go code performs it: an unmatched byte is appended
   * as `string(s[i])`, that is as the UTF-8 encoding of the code point s[i].
   */
  function ReplacedAsWritten(s: Str, pat: Str, rep: Str): Str
    requires pat != [] || s == []
    decreases |s|
  {
    if s == [] then []
    else if OccursAt(s, pat, 0) then rep + ReplacedAsWritten(s[|pat|..], pat, rep)
    else RuneBytes(s[0]) + ReplacedAsWritten(s[1..], pat, rep)
  }

  /** One unfolding of the scan at position `i`, stated on the suffix `s[i..]`. */
  lemma ReplacedStep(s: Str, pat: Str, rep: Str, i: int)
    requires pat != [] && 0 <= i < |s|
    ensures OccursAt(s, pat, i) ==>
      i + |pat| <= |s| &&
      Replaced(s[i..], pat, rep) == rep + Replaced(s[i + |pat|..], pat, rep) &&
      ReplacedAsWritten(s[i..], pat, rep) == rep + ReplacedAsWritten(s[i + |pat|..], pat, rep)
    ensures !OccursAt(s, pat, i) ==>
      Replaced(s[i..], pat, rep) == [s[i]] + Replaced(s[i + 1..], pat, rep) &&
      ReplacedAsWritten(s[i..], pat, rep) == RuneBytes(s[i]) + ReplacedAsWritten(s[i + 1..], pat, rep)
  {
  }

  /** Go's `replaceAll(s, old, new)`, with the unmatched byte copied as a byte. */
  method ReplaceAll(s: Str, pat: Str, rep: Str) returns (result: Str)
    requires pat != [] || s == []
    ensures result == Replaced(s, pat, rep)
  {
    result := [];
    var i := 0;
    while i < |s|
      invariant 0 <= i <= |s|
      invariant result + Replaced(s[i..], pat, rep) == Replaced(s, pat, rep)
      decreases |s| - i
    {
      ReplacedStep(s, pat, rep, i);
      if i <= |s| - |pat| && s[i..i + |pat|] == pat {
        result := result + rep;
        i := i + |pat| - 1;
      } else {
        result := result + [s[i]];
      }
      i := i + 1;
    }
  }

  /** Go's `replaceAll` exactly as written, `result += string(s[i])` included. */
  method ReplaceAllAsWritten(s: Str, pat: Str, rep: Str) returns (result: Str)
    requires pat != [] || s == []
    ensures result == ReplacedAsWritten(s, pat, rep)
  {
    result := [];
    var i := 0;
    while i < |s|
      invariant 0 <= i <= |s|
      invariant result + ReplacedAsWritten(s[i..], pat, rep) == ReplacedAsWritten(s, pat, rep)
      decreases |s| - i
    {
      ReplacedStep(s, pat, rep, i);
      if i <= |s| - |pat| && s[i..i + |pat|] == pat {
        result := result + rep;
        i := i + |pat| - 1;
      } else {
        result := result + RuneBytes(s[i]);
      }
      i := i + 1;
    }
  }

  /** A string in which the pattern never occurs comes back unchanged. */
  lemma {:induction false} ReplacedWithoutOccurrence(s: Str, pat: Str, rep: Str)
    requires pat != []
    requires forall k :: 0 <= k < |s| ==> !OccursAt(s, pat, k)
    ensures Replaced(s, pat, rep) == s
  {
    if s != [] {
      assert !OccursAt(s, pat, 0);
      forall k | 0 <= k < |s| - 1 ensures !OccursAt(s[1..], pat, k) {
        assert !OccursAt(s, pat, k + 1);
        if k + |pat| <= |s| - 1 { assert s[1..][k..k + |pat|] == s[k + 1..k + 1 + |pat|]; }
      }
      ReplacedWithoutOccurrence(s[1..], pat, rep);
    }
  }

  /**
   * Replacing one byte by one byte keeps the length, puts `b` where `a` was,
   * keeps every other byte in place, and so leaves no `a` behind when `a != b`.
   */
  lemma {:induction false} ReplacedSingleByte(s: Str, a: byte, b: byte)
    ensures |Replaced(s, [a], [b])| == |s|
    ensures forall k :: 0 <= k < |s| ==>
      Replaced(s, [a], [b])[k] == if s[k] == a then b else s[k]
    ensures a != b ==> forall k :: 0 <= k < |s| ==> Replaced(s, [a], [b])[k] != a
  {
    if s != [] {
      ReplacedSingleByte(s[1..], a, b);
      assert OccursAt(s, [a], 0) <==> s[0] == a by { assert s[0..1] == [s[0]]; }
      var r := Replaced(s, [a], [b]);
      assert r == (if s[0] == a then [b] else [s[0]]) + Replaced(s[1..], [a], [b]);
    }
  }

  /** On a string of ASCII bytes the code as written and the byte copy agree. */
  lemma {:induction false} AsWrittenAgreesOnAscii(s: Str, pat: Str, rep: Str)
    requires pat != [] || s == []
    requires AllAscii(s)
    ensures ReplacedAsWritten(s, pat, rep) == Replaced(s, pat, rep)
  {
    if s != [] {
      if OccursAt(s, pat, 0) {
        AsWrittenAgreesOnAscii(s[|pat|..], pat, rep);
      } else {
        AsWrittenAgreesOnAscii(s[1..], pat, rep);
      }
    }
  }

  /**
   * Replacing byte `a` by byte `d` with the code as written leaves only `d`,
   * bytes from 0x80 up (the re-encoded ones), and ASCII bytes of `s` other
   * than `a`.
   */
  lemma {:induction false} AsWrittenSingleByte(s: Str, a: byte, d: byte)
    ensures forall x :: x in ReplacedAsWritten(s, [a], [d]) ==>
      x == d || 128 <= x || (x != a && x in s)
  {
    if s != [] {
      AsWrittenSingleByte(s[1..], a, d);
      assert OccursAt(s, [a], 0) <==> s[0] == a by { assert s[0..1] == [s[0]]; }
      var r := ReplacedAsWritten(s, [a], [d]);
      var head := if s[0] == a then [d] else RuneBytes(s[0]);
      assert r == head + ReplacedAsWritten(s[1..], [a], [d]);
      forall x | x in r ensures x == d || 128 <= x || (x != a && x in s) {
        if x !in head {
          assert x in ReplacedAsWritten(s[1..], [a], [d]);
        }
      }
    }
  }

  /**
   * The code as written does not return its input unchanged when the pattern
   * is absent: "é" (bytes C3 A9) with pattern ":" comes back as "Ã©"
   * (bytes C3 83 C2 A9), four bytes instead of two.
   */
  lemma AsWrittenReencodesNonAscii()
    ensures ReplacedAsWritten([0xC3, 0xA9], [Colon], [Dash]) == [0xC3, 0x83, 0xC2, 0xA9]
    ensures Replaced([0xC3, 0xA9], [Colon], [Dash]) == [0xC3, 0xA9]
  {
  }
}
