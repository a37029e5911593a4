/**
 * The errors that travel through the notes service. Every layer returns the
 * error it received unchanged; the HTTP layer writes `Message(e)`, Go's
 * `err.Error()`, into the response.
 */
module Errors {
  import opened Wrappers
  import opened Utf8

  datatype Error =
    | HexInvalidByte(b: byte) // encoding/hex.InvalidByteError
    | HexOddLength            // encoding/hex.ErrLength
    | InvalidObjectId         // primitive.ErrInvalidHex: the hex is not 12 bytes long
    | NoDocuments             // mongo.ErrNoDocuments from FindOneAndUpdate
    | NoNotesDeleted          // DeleteOne removed nothing
    | DuplicateKey            // InsertOne with an `_id` already stored
    | Failure(message: string) // any other error of a collaborator, kept verbatim
  {
    /** The errors that `primitive.ObjectIDFromHex` can return. */
    predicate IsIdError() {
      HexInvalidByte? || HexOddLength? || InvalidObjectId?
    }
  }

  /** A collaborator's answer to one call: `None` for success, or the text of its error. */
  function Fault(answer: Option<string>): (r: Option<Error>)
    ensures r.None? <==> answer.None?
    ensures answer.Some? ==> r == Some(Failure(answer.value))
  {
    match answer
    case None => None
    case Some(m) => Some(Failure(m))
  }

  /** One upper-case hexadecimal digit. */
  function UpperDigit(v: nat): (c: char)
    requires v < 16
    ensures c as int == if v < 10 then '0' as int + v else 'A' as int + v - 10
  {
    "0123456789ABCDEF"[v]
  }

  /** Go's `strconv.IsPrint` restricted to the Latin-1 range that a byte covers. */
  predicate IsPrintLatin1(b: byte) {
    (0x20 <= b <= 0x7E) || (0xA1 <= b <= 0xFF && b != 0xAD)
  }

  /** `fmt.Sprintf("%#U", rune(b))`: `U+0074 't'`, without the quoted character when it is not printable. */
  function GoUnicode(b: byte): (r: string)
    ensures |r| >= 6 && r[..4] == "U+00"
    ensures IsPrintLatin1(b) ==> r[6..] == " '" + [b as char] + "'"
    ensures !IsPrintLatin1(b) ==> |r| == 6
  {
    "U+00" + [UpperDigit(b / 16), UpperDigit(b % 16)]
      + (if IsPrintLatin1(b) then " '" + [b as char] + "'" else "")
  }

  /** The rendering names the byte: distinct bytes are rendered differently. */
  lemma GoUnicodeInjective(a: byte, b: byte)
    requires GoUnicode(a) == GoUnicode(b)
    ensures a == b
  {
    assert GoUnicode(a)[4] == UpperDigit(a / 16) && GoUnicode(b)[4] == UpperDigit(b / 16);
    assert GoUnicode(a)[5] == UpperDigit(a % 16) && GoUnicode(b)[5] == UpperDigit(b % 16);
  }

  /** `err.Error()`. */
  function Message(e: Error): (r: string)
    ensures !e.Failure? ==> r != ""
    ensures e.Failure? ==> r == e.message
    ensures e.HexInvalidByte? ==> |r| >= 26 && r[..26] == "encoding/hex: invalid byte"
  {
    match e
    case HexInvalidByte(b) => "encoding/hex: invalid byte: " + GoUnicode(b)
    case HexOddLength => "encoding/hex: odd length hex string"
    case InvalidObjectId => "the provided hex string is not a valid ObjectID"
    case NoDocuments => "mongo: no documents in result"
    case NoNotesDeleted => "no notes were deleted"
    case DuplicateKey => "E11000 duplicate key error"
    case Failure(m) => m
  }
}
