/** Base64 as the source uses it through Node's `Buffer`: `toString('base64')`
    encodes with the alphabet and padding of section 4 of RFC 4648 (and a
    WebAuthn client sends the user handle in the URL-safe alphabet of
    section 5, unpadded);
    `Buffer.from(s, 'base64')` decodes, accepting the alphabet of section 4 and
    the URL-safe one of section 5, with or without the final padding. */
module Base64 {
  import opened Wrappers
  import opened Values
  type sextet = x: int | 0 <= x < 64

  /** The value-to-character table of section 4 of RFC 4648, or of section 5
      when `url` holds. */
  function IndexChar(i: sextet, url: bool): char {
    if i < 26 then ('A' as int + i) as char
    else if i < 52 then ('a' as int + (i - 26)) as char
    else if i < 62 then ('0' as int + (i - 52)) as char
    else if i == 62 then (if url then '-' else '+')
    else if url then '_'
    else '/'
  }

  /** The inverse table, with '-' and '_' of section 5 as aliases of '+' and '/'. */
  function CharIndex(c: char): Option<sextet> {
    if 'A' <= c <= 'Z' then Some(c as int - 'A' as int)
    else if 'a' <= c <= 'z' then Some(c as int - 'a' as int + 26)
    else if '0' <= c <= '9' then Some(c as int - '0' as int + 52)
    else if c == '+' || c == '-' then Some(62)
    else if c == '/' || c == '_' then Some(63)
    else None
  }

  lemma IndexCharInverse(i: sextet, url: bool)
    ensures CharIndex(IndexChar(i, url)) == Some(i)
  {
  }

  function EncodeQuantum(b0: byte, b1: byte, b2: byte, url: bool): string {
    [IndexChar(b0 / 4, url), IndexChar((b0 % 4) * 16 + b1 / 16, url),
     IndexChar((b1 % 16) * 4 + b2 / 64, url), IndexChar(b2 % 64, url)]
  }

  /** Every three bytes become four characters; one or two trailing bytes
      become two or three characters, padded with '=' to four in the alphabet
      of section 4 and left unpadded in that of section 5. */
  function EncodeWith(b: seq<byte>, url: bool): (s: string)
    ensures |s| == if url then (|b| * 4 + 2) / 3 else (|b| + 2) / 3 * 4
    ensures |s| == 0 <==> |b| == 0
    decreases |b|
  {
    if |b| == 0 then ""
    else if |b| == 1 then
      [IndexChar(b[0] / 4, url), IndexChar((b[0] % 4) * 16, url)] + (if url then "" else "==")
    else if |b| == 2 then
      [IndexChar(b[0] / 4, url), IndexChar((b[0] % 4) * 16 + b[1] / 16, url), IndexChar((b[1] % 16) * 4, url)]
      + (if url then "" else "=")
    else EncodeQuantum(b[0], b[1], b[2], url) + EncodeWith(b[3..], url)
  }

  /** `Buffer.from(bytes).toString('base64')`. */
  function Encode(b: seq<byte>): (s: string)
    ensures |s| == (|b| + 2) / 3 * 4
  {
    EncodeWith(b, false)
  }

  /** `Buffer.from(bytes).toString('base64url')`. */
  function EncodeUrl(b: seq<byte>): (s: string)
    ensures |s| == (|b| * 4 + 2) / 3
  {
    EncodeWith(b, true)
  }

  /** The sextets of a group of two to four characters, if all are in the alphabet. */
  function Sextets(g: string): Option<seq<sextet>>
    decreases |g|
  {
    if g == [] then Some([])
    else
      match CharIndex(g[0])
      case None => None
      case Some(x) =>
        match Sextets(g[1..])
        case None => None
        case Some(xs) => Some([x] + xs)
  }

  lemma SextetsLength(g: string)
    ensures Sextets(g).Some? ==> |Sextets(g).value| == |g|
  {
  }

  /** Sextets are found only for characters of the alphabets. */
  lemma {:induction false} SextetsInAlphabet(g: string)
    requires Sextets(g).Some?
    ensures forall i | 0 <= i < |g| :: CharIndex(g[i]).Some?
    decreases |g|
  {
    if g != [] {
      SextetsInAlphabet(g[1..]);
      forall i | 0 <= i < |g|
        ensures CharIndex(g[i]).Some?
      {
        if i > 0 {
          assert g[i] == g[1..][i - 1];
        }
      }
    }
  }

  /** Two, three or four sextets carry one, two or three bytes; the bits left
      over in the last sextet are dropped. */
  function GroupBytes(x: seq<sextet>): seq<byte>
    requires 2 <= |x| <= 4
  {
    var b0 := x[0] as int * 4 + x[1] as int / 16;
    if |x| == 2 then [b0]
    else
      var b1 := (x[1] as int % 16) * 16 + x[2] as int / 4;
      if |x| == 3 then [b0, b1]
      else [b0, b1, (x[2] as int % 4) * 64 + x[3] as int]
  }

  function DecodeGroup(g: string): (r: Option<seq<byte>>)
    requires 2 <= |g| <= 4
    ensures r.Some? ==> |r.value| == |g| - 1
    ensures r.Some? ==> forall i | 0 <= i < |g| :: CharIndex(g[i]).Some?
  {
    match Sextets(g)
    case None => None
    case Some(x) => SextetsLength(g); SextetsInAlphabet(g); Some(GroupBytes(x))
  }

  /** The last group: four characters of which the last one or two may be '=',
      or an unpadded group of two or three characters. */
  function DecodeFinal(g: string): (r: Option<seq<byte>>)
    requires 1 <= |g| <= 4
    ensures r.Some? ==> 1 <= |r.value| <= |g| - 1
    ensures r.Some? ==> forall i | 0 <= i < |g| :: CharIndex(g[i]).Some? || (g[i] == '=' && 2 <= i)
  {
    if |g| == 1 then None
    else if |g| == 4 && g[2] == '=' && g[3] == '=' then DecodeGroup(g[..2])
    else if |g| == 4 && g[3] == '=' then DecodeGroup(g[..3])
    else DecodeGroup(g)
  }

  /** `Buffer.from(s, 'base64')`, for the inputs it reads without skipping
      characters; `None` for any other input. Three bytes come out of every
      four characters, fewer from a short or padded last group; a character
      outside both alphabets, or an '=' other than the last group's padding,
      is refused. */
  function Decode(s: string): (r: Option<seq<byte>>)
    ensures r.Some? ==> |r.value| <= 3 * ((|s| + 3) / 4)
    ensures r.Some? ==> 3 * (|s| / 4) - 2 <= |r.value|
    ensures r.Some? ==> (r.value == [] <==> s == [])
    ensures r.Some? ==> |s| % 4 != 1
    ensures r.Some? ==> forall i | 0 <= i < |s| :: CharIndex(s[i]).Some? || (s[i] == '=' && |s| - 2 <= i)
    decreases |s|
  {
    if |s| == 0 then Some([])
    else if |s| <= 4 then DecodeFinal(s)
    else
      match DecodeGroup(s[..4])
      case None => None
      case Some(head) =>
        match Decode(s[4..])
        case None => None
        case Some(rest) => Some(head + rest)
  }

  lemma Div16(a: int, r: int)
    requires 0 <= a < 16 && 0 <= r < 16
    ensures (a * 16 + r) / 16 == a && (a * 16 + r) % 16 == r
  {
  }

  lemma Div4(a: int, r: int)
    requires 0 <= a < 16 && 0 <= r < 4
    ensures (a * 4 + r) / 4 == a && (a * 4 + r) % 4 == r
  {
  }

  lemma SextetsOf(g: string, x: seq<sextet>)
    requires |g| == |x| && forall i | 0 <= i < |g| :: CharIndex(g[i]) == Some(x[i])
    ensures Sextets(g) == Some(x)
    decreases |g|
  {
    if g != [] {
      SextetsOf(g[1..], x[1..]);
      assert x == [x[0]] + x[1..];
    }
  }

  lemma QuantumInverse(b0: byte, b1: byte, b2: byte, url: bool)
    ensures DecodeGroup(EncodeQuantum(b0, b1, b2, url)) == Some([b0, b1, b2])
  {
    var g := EncodeQuantum(b0, b1, b2, url);
    var x0, x1, x2, x3 := b0 / 4, (b0 % 4) * 16 + b1 / 16, (b1 % 16) * 4 + b2 / 64, b2 % 64;
    IndexCharInverse(x0, url); IndexCharInverse(x1, url); IndexCharInverse(x2, url); IndexCharInverse(x3, url);
    SextetsOf(g, [x0, x1, x2, x3]);
    Div16(b0 % 4, b1 / 16);
    Div4(b1 % 16, b2 / 64);
  }

  lemma OneByteInverse(b0: byte, url: bool)
    ensures Decode(EncodeWith([b0], url)) == Some([b0])
  {
    var g := EncodeWith([b0], url);
    var x0, x1 := b0 / 4, (b0 % 4) * 16;
    IndexCharInverse(x0, url); IndexCharInverse(x1, url);
    SextetsOf(g[..2], [x0, x1]);
    Div16(b0 % 4, 0);
    if url {
      assert |g| == 2 && g[..2] == g;
    } else {
      assert |g| == 4 && g[2] == '=' && g[3] == '=';
    }
  }

  lemma TwoBytesInverse(b0: byte, b1: byte, url: bool)
    ensures Decode(EncodeWith([b0, b1], url)) == Some([b0, b1])
  {
    var g := EncodeWith([b0, b1], url);
    var x0, x1, x2 := b0 / 4, (b0 % 4) * 16 + b1 / 16, (b1 % 16) * 4;
    IndexCharInverse(x0, url); IndexCharInverse(x1, url); IndexCharInverse(x2, url);
    SextetsOf(g[..3], [x0, x1, x2]);
    Div16(b0 % 4, b1 / 16);
    Div4(b1 % 16, 0);
    if url {
      assert |g| == 3 && g[..3] == g;
    } else {
      assert |g| == 4 && g[2] != '=' && g[3] == '=';
    }
  }

  /** Test vectors of section 10 of RFC 4648, and the two characters in which
      the section 5 alphabet differs from the section 4 one. */
  lemma RfcVectors()
    ensures Encode([]) == ""
    ensures Encode([102]) == "Zg=="
    ensures Encode([102, 111]) == "Zm8="
    ensures Encode([102, 111, 111]) == "Zm9v"
    ensures Encode([102, 111, 111, 98]) == "Zm9vYg=="
    ensures Encode([102, 111, 111, 98, 97]) == "Zm9vYmE="
    ensures Encode([102, 111, 111, 98, 97, 114]) == "Zm9vYmFy"
    ensures Encode([0xfb, 0xff]) == "+/8="
    ensures EncodeUrl([0xfb, 0xff]) == "-_8"
  {
  }

  /** A full group followed by a non-empty rest decodes group by group. */
  lemma DecodeAppend(q: string, rest: string, head: seq<byte>, tail: seq<byte>)
    requires |q| == 4 && |rest| > 0
    requires DecodeGroup(q) == Some(head) && Decode(rest) == Some(tail)
    ensures Decode(q + rest) == Some(head + tail)
  {
    assert (q + rest)[..4] == q && (q + rest)[4..] == rest;
  }

  lemma ThreeBytesInverse(b0: byte, b1: byte, b2: byte, url: bool)
    ensures Decode(EncodeQuantum(b0, b1, b2, url)) == Some([b0, b1, b2])
  {
    var q := EncodeQuantum(b0, b1, b2, url);
    QuantumInverse(b0, b1, b2, url);
    assert q[3] != '=' && q[2] != '=';
  }

  /** Decoding undoes encoding in either alphabet: what `createUser` stores is
      what `getAuthenticatorDevice` reads back, and the user handle a client
      returns decodes to the bytes registered. */
  lemma {:induction false} DecodeEncode(b: seq<byte>, url: bool)
    ensures Decode(EncodeWith(b, url)) == Some(b)
    decreases |b|
  {
    if |b| == 1 {
      assert b == [b[0]];
      OneByteInverse(b[0], url);
    } else if |b| == 2 {
      assert b == [b[0], b[1]];
      TwoBytesInverse(b[0], b[1], url);
    } else if |b| >= 3 {
      var q := EncodeQuantum(b[0], b[1], b[2], url);
      var rest := EncodeWith(b[3..], url);
      assert EncodeWith(b, url) == q + rest;
      if |b| == 3 {
        assert rest == [] && q + rest == q;
        assert b == [b[0], b[1], b[2]];
        ThreeBytesInverse(b[0], b[1], b[2], url);
      } else {
        QuantumInverse(b[0], b[1], b[2], url);
        DecodeEncode(b[3..], url);
        DecodeAppend(q, rest, [b[0], b[1], b[2]], b[3..]);
        assert b == [b[0], b[1], b[2]] + b[3..];
      }
    }
  }
}
