/**
 * The ASCII text encoding that the block hash is computed over:
 * every character in the 7-bit range is kept as its code, every other
 * character is replaced by the byte for '?'.
 */
module AsciiEncoding {

  newtype byte = x: int | 0 <= x < 256

  /** The replacement byte for characters outside the 7-bit range. */
  const QuestionMark: byte := 0x3F

  predicate IsAscii(c: char) {
    c as int < 128
  }

  function EncodeChar(c: char): byte {
    if IsAscii(c) then c as int as byte else QuestionMark
  }

  /** The bytes of `s`, one per character. */
  function GetBytes(s: string): (bs: seq<byte>)
    ensures |bs| == |s|
    ensures forall i :: 0 <= i < |s| ==> bs[i] == EncodeChar(s[i])
  {
    if s == [] then [] else [EncodeChar(s[0])] + GetBytes(s[1..])
  }

  /** Encoding a concatenation encodes each part. */
  lemma GetBytesAppend(s: string, t: string)
    ensures GetBytes(s + t) == GetBytes(s) + GetBytes(t)
  {
  }

  /** On 7-bit text the encoding loses nothing. */
  lemma AsciiTextIsDetermined(s: string, t: string)
    requires forall i :: 0 <= i < |s| ==> IsAscii(s[i])
    requires forall i :: 0 <= i < |t| ==> IsAscii(t[i])
    ensures GetBytes(s) == GetBytes(t) <==> s == t
  {
  }

  /** Any character outside the 7-bit range encodes exactly like '?'. */
  lemma NonAsciiEncodesAsQuestionMark(s: string, i: nat)
    requires i < |s| && !IsAscii(s[i])
    ensures GetBytes(s[i := '?']) == GetBytes(s)
    ensures s[i := '?'] != s
  {
  }
}
