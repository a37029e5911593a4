/**
 * Note identifiers: 12-byte object ids, written as 24 hexadecimal digits
 * (Base16, section 8 of RFC 4648). `ObjectIdFromHex` is
 * `primitive.ObjectIDFromHex` of the mongo driver: decode with
 * `hex.DecodeString`, which accepts either case, then insist on exactly 12
 * bytes. `Hex` is `ObjectID.Hex`, which writes lower case.
 */
module ObjectIds {
  import opened Wrappers
  import opened Utf8
  import opened Errors

  /** A 12-byte identifier, the `_id` of a stored note. */
  type ObjectId = b: seq<byte> | |b| == 12 witness [0, 0, 0, 0, 0, 0, 0, 0, 0, 0, 0, 0]

  /** The value of a hexadecimal digit of either case, given by its character code. */
  function HexValue(n: int): (r: Option<nat>)
    ensures r.Some? ==> r.value < 16
  {
    if '0' as int <= n <= '9' as int then Some(n - '0' as int)
    else if 'a' as int <= n <= 'f' as int then Some(n - 'a' as int + 10)
    else if 'A' as int <= n <= 'F' as int then Some(n - 'A' as int + 10)
    else None
  }

  predicate IsHexChar(c: char) {
    HexValue(c as int).Some?
  }

  predicate IsHexString(s: string) {
    forall i | 0 <= i < |s| :: IsHexChar(s[i])
  }

  predicate AllHexBytes(src: seq<byte>) {
    forall i | 0 <= i < |src| :: HexValue(src[i]).Some?
  }

  /** The lower-case digit for a value below 16. */
  function LowerDigit(v: nat): (c: char)
    requires v < 16
    ensures HexValue(c as int) == Some(v)
    ensures '0' <= c <= '9' || 'a' <= c <= 'f'
  {
    if v < 10 then ('0' as int + v) as char else ('a' as int + v - 10) as char
  }

  /** ASCII lower-casing of one character. */
  function ToLower(c: char): char {
    if 'A' <= c <= 'Z' then (c as int + 32) as char else c
  }

  /** ASCII lower-casing of a string. */
  function ToLowerString(s: string): (r: string)
    ensures |r| == |s|
    ensures forall i | 0 <= i < |s| :: r[i] == ToLower(s[i])
  {
    seq(|s|, i requires 0 <= i < |s| => ToLower(s[i]))
  }

  /**
   * `hex.DecodeString` over the bytes of its argument: pairs of digits become
   * bytes; the first byte that is not a digit is reported, and an odd count
   * of digits is reported only when every byte is a digit.
   */
  function DecodeHex(src: seq<byte>): (r: Result<seq<byte>, Error>)
    ensures r.Ok? <==> |src| % 2 == 0 && AllHexBytes(src)
    ensures r.Ok? ==> 2 * |r.value| == |src|
    ensures r.Err? ==> r.error.HexInvalidByte? || r.error.HexOddLength?
    decreases |src|
  {
    if |src| == 0 then Ok([])
    else if HexValue(src[0]).None? then Err(HexInvalidByte(src[0]))
    else if |src| == 1 then Err(HexOddLength)
    else if HexValue(src[1]).None? then Err(HexInvalidByte(src[1]))
    else
      match DecodeHex(src[2..])
      case Err(e) => Err(e)
      case Ok(rest) => Ok([HexValue(src[0]).value * 16 + HexValue(src[1]).value] + rest)
  }

  /** Lower-case hexadecimal text of a byte sequence, two digits per byte. */
  function HexEncode(b: seq<byte>): (r: string)
    ensures |r| == 2 * |b|
    ensures forall i | 0 <= i < |r| :: '0' <= r[i] <= '9' || 'a' <= r[i] <= 'f'
  {
    if b == [] then [] else [LowerDigit(b[0] / 16), LowerDigit(b[0] % 16)] + HexEncode(b[1..])
  }

  /** `primitive.ObjectIDFromHex`. */
  function ObjectIdFromHex(s: string): (r: Result<ObjectId, Error>)
    ensures r.Err? ==> r.error.IsIdError()
  {
    match DecodeHex(Utf8.Encode(s))
    case Err(e) => Err(e)
    case Ok(b) => if |b| != 12 then Err(InvalidObjectId) else Ok(b)
  }

  /** `ObjectID.Hex`. */
  function Hex(id: ObjectId): (r: string)
    ensures |r| == 24
    ensures forall i | 0 <= i < |r| :: '0' <= r[i] <= '9' || 'a' <= r[i] <= 'f'
  {
    HexEncode(id)
  }

  // ---------------------------------------------------------------------------
  // Properties of the codec
  // ---------------------------------------------------------------------------

  /** The decoder reports the first byte that is not a digit. */
  lemma {:induction false} DecodeHexFirstInvalid(src: seq<byte>, i: nat)
    requires i < |src| && HexValue(src[i]).None? && AllHexBytes(src[..i])
    ensures DecodeHex(src) == Err(HexInvalidByte(src[i]))
    decreases |src|
  {
    if i >= 2 {
      assert src[i] == src[2..][i - 2];
      var t := src[2..][..i - 2];
      assert AllHexBytes(t) by {
        forall j | 0 <= j < |t| ensures HexValue(t[j]).Some? {
          assert t[j] == src[..i][j + 2];
        }
      }
      DecodeHexFirstInvalid(src[2..], i - 2);
    } else if i == 1 {
      assert HexValue(src[..i][0]).Some?;
    }
  }

  /** Decoding the UTF-8 bytes of hex text written by `HexEncode` gives the bytes back. */
  lemma {:induction false} DecodeHexEncode(b: seq<byte>)
    ensures DecodeHex(Utf8.Encode(HexEncode(b))) == Ok(b)
  {
    if b != [] {
      var hi, lo := LowerDigit(b[0] / 16), LowerDigit(b[0] % 16);
      var t := HexEncode(b[1..]);
      assert HexEncode(b) == [hi, lo] + t;
      assert ([hi, lo] + t)[1..] == [lo] + t;
      assert ([lo] + t)[1..] == t;
      var src := Utf8.Encode(HexEncode(b));
      assert [hi, lo] + t == [hi] + ([lo] + t);
      assert Utf8.Encode([lo] + t) == [lo as int] + Utf8.Encode(t);
      assert src == [hi as int] + Utf8.Encode([lo] + t);
      assert src == [hi as int, lo as int] + Utf8.Encode(t);
      assert src[2..] == Utf8.Encode(t);
      DecodeHexEncode(b[1..]);
      assert [b[0]] + b[1..] == b;
    }
  }

  /** Decoding followed by encoding lower-cases the digits. */
  lemma {:induction false} EncodeDecodeHex(src: seq<byte>, b: seq<byte>)
    requires DecodeHex(src) == Ok(b)
    ensures |HexEncode(b)| == |src|
    ensures forall i | 0 <= i < |src| :: HexEncode(b)[i] == LowerDigit(HexValue(src[i]).value)
    decreases |src|
  {
    if src != [] {
      var hi, lo := HexValue(src[0]).value, HexValue(src[1]).value;
      var rest: seq<byte> :| DecodeHex(src[2..]) == Ok(rest) && b == [(hi * 16 + lo) as byte] + rest;
      EncodeDecodeHex(src[2..], rest);
      assert b[0] / 16 == hi && b[0] % 16 == lo;
      assert b[1..] == rest;
      var h := HexEncode(b);
      assert h == [LowerDigit(hi), LowerDigit(lo)] + HexEncode(rest);
      forall i | 2 <= i < |src| ensures h[i] == LowerDigit(HexValue(src[i]).value) {
        assert h[i] == HexEncode(rest)[i - 2];
        assert src[i] == src[2..][i - 2];
      }
    }
  }

  /** A hexadecimal digit is a character of the ASCII range. */
  lemma HexStringIsAscii(s: string)
    requires IsHexString(s)
    ensures IsAscii(s)
  {
  }

  /** If the UTF-8 bytes of `s` are all digits, so are the characters of `s`. */
  lemma {:induction false} HexBytesHexString(s: string)
    requires AllHexBytes(Utf8.Encode(s))
    ensures IsHexString(s)
  {
    if s != [] {
      var head, tail := EncodeChar(s[0]), Utf8.Encode(s[1..]);
      assert Utf8.Encode(s) == head + tail;
      assert HexValue(head[0]).Some? by { assert head[0] == Utf8.Encode(s)[0]; }
      assert AllHexBytes(tail) by {
        forall j | 0 <= j < |tail| ensures HexValue(tail[j]).Some? {
          assert tail[j] == Utf8.Encode(s)[|head| + j];
        }
      }
      HexBytesHexString(s[1..]);
      forall j | 0 <= j < |s| ensures IsHexChar(s[j]) {
        if j > 0 { assert s[j] == s[1..][j - 1]; }
      }
    }
  }

  /** An id is accepted exactly when it is 24 hexadecimal digits, of either case. */
  lemma ObjectIdFromHexAccepts(s: string)
    ensures ObjectIdFromHex(s).Ok? <==> |s| == 24 && IsHexString(s)
  {
    var src := Utf8.Encode(s);
    if IsHexString(s) {
      HexStringIsAscii(s);
      EncodeAscii(s);
      assert AllHexBytes(src) by {
        forall j | 0 <= j < |src| ensures HexValue(src[j]).Some? {
          assert src[j] == s[j] as int;
        }
      }
    }
    if DecodeHex(src).Ok? {
      HexBytesHexString(s);
      HexStringIsAscii(s);
      EncodeAscii(s);
    }
  }

  /** The first character that is not a digit is the one reported (for a non-ASCII character, its first UTF-8 byte). */
  lemma ObjectIdFromHexFirstInvalid(s: string, i: nat)
    requires i < |s| && !IsHexChar(s[i]) && IsHexString(s[..i])
    ensures ObjectIdFromHex(s) == Err(HexInvalidByte(EncodeChar(s[i])[0]))
  {
    HexStringIsAscii(s[..i]);
    EncodeAt(s, i);
    var src := Utf8.Encode(s);
    assert AllHexBytes(src[..i]) by {
      forall j | 0 <= j < i ensures HexValue(src[..i][j]).Some? {
        assert src[..i][j] == s[j] as int;
        assert s[..i][j] == s[j];
      }
    }
    DecodeHexFirstInvalid(src, i);
  }

  /** Well-formed digits of the wrong count: an odd count, or an even count other than 24. */
  lemma ObjectIdFromHexLength(s: string)
    requires IsHexString(s) && |s| != 24
    ensures |s| % 2 == 1 ==> ObjectIdFromHex(s) == Err(HexOddLength)
    ensures |s| % 2 == 0 ==> ObjectIdFromHex(s) == Err(InvalidObjectId)
  {
    HexStringIsAscii(s);
    EncodeAscii(s);
    var src := Utf8.Encode(s);
    assert AllHexBytes(src) by {
      forall j | 0 <= j < |src| ensures HexValue(src[j]).Some? {
        assert src[j] == s[j] as int;
      }
    }
    if |s| % 2 == 1 {
      OddHexLength(src);
    }
  }

  /** An odd count of digits is reported as such. */
  lemma {:induction false} OddHexLength(src: seq<byte>)
    requires AllHexBytes(src) && |src| % 2 == 1
    ensures DecodeHex(src) == Err(HexOddLength)
    decreases |src|
  {
    if |src| > 1 {
      assert AllHexBytes(src[2..]) by {
        forall j | 0 <= j < |src| - 2 ensures HexValue(src[2..][j]).Some? {
          assert src[2..][j] == src[j + 2];
        }
      }
      OddHexLength(src[2..]);
    }
  }

  /** Round trip: the hex text of an id decodes to that id. */
  lemma HexRoundTrip(id: ObjectId)
    ensures ObjectIdFromHex(Hex(id)) == Ok(id)
  {
    DecodeHexEncode(id);
  }

  /** Round trip the other way: an accepted id string is the lower-cased text of the decoded id. */
  lemma ObjectIdFromHexRoundTrip(s: string)
    requires ObjectIdFromHex(s).Ok?
    ensures Hex(ObjectIdFromHex(s).value) == ToLowerString(s)
  {
    var src := Utf8.Encode(s);
    var b := ObjectIdFromHex(s).value;
    assert DecodeHex(src) == Ok(b);
    HexBytesHexString(s);
    HexStringIsAscii(s);
    EncodeAscii(s);
    EncodeDecodeHex(src, b);
    forall i | 0 <= i < |s| ensures Hex(b)[i] == ToLower(s[i]) {
      assert src[i] == s[i] as int;
      assert IsHexChar(s[i]);
    }
  }

  /** Distinct ids have distinct hex texts, so the text identifies the note. */
  lemma HexInjective(a: ObjectId, b: ObjectId)
    requires Hex(a) == Hex(b)
    ensures a == b
  {
    HexRoundTrip(a);
    HexRoundTrip(b);
  }

  /** `ObjectIDFromHex("test")` fails on the first letter that is not a digit. */
  lemma RejectsTest()
    ensures ObjectIdFromHex("test") == Err(HexInvalidByte('t' as int))
  {
    assert "test"[..0] == [];
    ObjectIdFromHexFirstInvalid("test", 0);
  }

  /** The all-zero id used by the service tests is accepted. */
  lemma AcceptsZeroId()
    ensures ObjectIdFromHex("000000000000000000000000") == Ok([0, 0, 0, 0, 0, 0, 0, 0, 0, 0, 0, 0])
  {
    var z: ObjectId := [0, 0, 0, 0, 0, 0, 0, 0, 0, 0, 0, 0];
    assert Hex(z) == "000000000000000000000000";
    HexRoundTrip(z);
  }
}
