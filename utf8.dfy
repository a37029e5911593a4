/**
 * Go converts a string to bytes (`[]byte(s)`) by its UTF-8 encoding
 * (section 3 of RFC 3629). Dafny's `char` is a Unicode scalar value, so the
 * encoding is total.
 */
module Utf8 {

  /** An octet. */
  type byte = b: int | 0 <= b < 256

  /** True when every character of `s` is 7-bit ASCII. */
  predicate IsAscii(s: string) {
    forall i | 0 <= i < |s| :: s[i] as int < 0x80
  }

  /** The UTF-8 encoding of a single scalar value. */
  function EncodeChar(c: char): (r: seq<byte>)
    ensures 1 <= |r| <= 4
    ensures c as int < 0x80 ==> r == [c as int]
    ensures c as int >= 0x80 ==> forall i | 0 <= i < |r| :: r[i] >= 0x80
  {
    var n := c as int;
    if n < 0x80 then [n]
    else if n < 0x800 then [0xC0 + n / 0x40, 0x80 + n % 0x40]
    else if n < 0x10000 then [0xE0 + n / 0x1000, 0x80 + (n / 0x40) % 0x40, 0x80 + n % 0x40]
    else [0xF0 + n / 0x40000, 0x80 + (n / 0x1000) % 0x40, 0x80 + (n / 0x40) % 0x40, 0x80 + n % 0x40]
  }

  /** `[]byte(s)`: the UTF-8 encoding of a string. */
  function Encode(s: string): (r: seq<byte>)
    ensures |s| <= |r| <= 4 * |s|
  {
    if s == [] then [] else EncodeChar(s[0]) + Encode(s[1..])
  }

  /** Encoding distributes over concatenation. */
  lemma {:induction false} EncodeAppend(s: string, t: string)
    ensures Encode(s + t) == Encode(s) + Encode(t)
  {
    if s == [] {
      assert s + t == t;
    } else {
      assert (s + t)[1..] == s[1..] + t;
      EncodeAppend(s[1..], t);
    }
  }

  /** ASCII text is encoded as its own code points, one byte per character. */
  lemma {:induction false} EncodeAscii(s: string)
    requires IsAscii(s)
    ensures |Encode(s)| == |s|
    ensures forall i | 0 <= i < |s| :: Encode(s)[i] == s[i] as int
  {
    if s != [] {
      assert IsAscii(s[1..]) by {
        forall i | 0 <= i < |s| - 1 ensures s[1..][i] as int < 0x80 {
          assert s[1..][i] == s[i + 1];
        }
      }
      EncodeAscii(s[1..]);
    }
  }

  /**
   * The encoding of `s` starts with the character codes of an ASCII prefix
   * of `s`, and the byte after them is the first byte of the next character.
   */
  lemma {:induction false} EncodeAt(s: string, i: nat)
    requires i < |s| && IsAscii(s[..i])
    ensures |Encode(s)| > i
    ensures forall j | 0 <= j < i :: Encode(s)[j] == s[j] as int
    ensures Encode(s)[i] == EncodeChar(s[i])[0]
  {
    assert s == s[..i] + s[i..];
    EncodeAppend(s[..i], s[i..]);
    EncodeAscii(s[..i]);
  }
}
