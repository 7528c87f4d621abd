/** UTF-8 as the source uses it: `new TextEncoder().encode(s)` to turn a user ID
    into the WebAuthn user handle bytes, and `buffer.toString('utf-8')` to turn
    the decoded handle back into a string. */
module Utf8 {
  import opened Values

  /** The UTF-8 encoding of one Unicode scalar value. */
  function EncodeChar(c: char): (b: seq<byte>)
    ensures 1 <= |b| <= 4
    ensures c as int < 128 <==> |b| == 1
    ensures c as int < 128 ==> b == [c as int]
    ensures c as int >= 128 ==> forall i | 0 <= i < |b| :: b[i] >= 128
  {
    var n := c as int;
    if n < 0x80 then [n]
    else if n < 0x800 then [0xC0 + n / 64, 0x80 + n % 64]
    else if n < 0x1_0000 then [0xE0 + n / 4096, 0x80 + (n / 64) % 64, 0x80 + n % 64]
    else [0xF0 + n / 262144, 0x80 + (n / 4096) % 64, 0x80 + (n / 64) % 64, 0x80 + n % 64]
  }

  /** `new TextEncoder().encode(s)`. */
  function Encode(s: string): (b: seq<byte>)
    ensures IsAscii(s) ==> |b| == |s| && forall i | 0 <= i < |s| :: b[i] == s[i] as int
    decreases |s|
  {
    if s == [] then [] else EncodeChar(s[0]) + Encode(s[1..])
  }

  /** `Buffer.from(b).toString('utf-8')`, exact on ASCII bytes; each byte of 128
      or more becomes the replacement character U+FFFD. */
  function Decode(b: seq<byte>): (s: string)
    ensures |s| == |b|
    ensures IsAscii(s) <==> forall i | 0 <= i < |b| :: b[i] < 128
  {
    var s := seq(|b|, i requires 0 <= i < |b| => if b[i] < 128 then b[i] as char else '\U{FFFD}');
    assert forall i | 0 <= i < |b| :: s[i] as int < 128 <==> b[i] < 128;
    s
  }

  /** An ASCII string survives encoding and decoding. */
  lemma DecodeEncodeAscii(s: string)
    requires IsAscii(s)
    ensures Decode(Encode(s)) == s
  {
  }
}
