/** packages/blog-api/src/domain/models/user.ts: the two branded identifiers and
    their schema decoders `UserID(value)` and `UserName(value)`. */
module User {
  import opened Wrappers
  import opened Values
  import opened Errors
  import opened Pattern

  const Hex: seq<Range> := [Range('0', '9'), Range('a', 'f')]
  const Variant: seq<Range> := [Range('8', '9'), Range('a', 'b')]
  const Letters: seq<Range> := [Range('a', 'z'), Range('A', 'Z')]

  /** `uuidv4Pattern`: /^[0-9a-f]{8}-[0-9a-f]{4}-4[0-9a-f]{3}-[89ab][0-9a-f]{3}-[0-9a-f]{12}$/i */
  const UuidV4Pattern: Regex := Regex([
    Term(Hex, 8, 8), Literal('-'),
    Term(Hex, 4, 4), Literal('-'),
    Literal('4'), Term(Hex, 3, 3), Literal('-'),
    Term(Variant, 1, 1), Term(Hex, 3, 3), Literal('-'),
    Term(Hex, 12, 12)], true)

  /** The pattern of `userNameSchema`: /^[a-zA-Z]{1,10}$/ */
  const UserNamePattern: Regex := Regex([Term(Letters, 1, 10)], false)

  predicate IsUserID(s: string) {
    Test(UuidV4Pattern, s)
  }

  predicate IsUserName(s: string) {
    Test(UserNamePattern, s)
  }

  /** The reference description of a version-4 UUID (RFC 4122, sections 4.1.1 and
      4.1.3): five groups of 8, 4, 4, 4 and 12 hexadecimal digits in either case,
      separated by '-', the third group starting with the version nibble '4' and
      the fourth with a variant nibble 8, 9, a or b. */
  predicate IsHexDigit(c: char) {
    '0' <= c <= '9' || 'a' <= c <= 'f' || 'A' <= c <= 'F'
  }

  predicate AllHex(s: string) {
    forall i | 0 <= i < |s| :: IsHexDigit(s[i])
  }

  predicate IsUuidV4(s: string) {
    && |s| == 36
    && AllHex(s[..8]) && s[8] == '-'
    && AllHex(s[9..13]) && s[13] == '-'
    && s[14] == '4' && AllHex(s[15..18]) && s[18] == '-'
    && s[19] in VariantDigits && AllHex(s[20..23]) && s[23] == '-'
    && AllHex(s[24..])
  }

  const VariantDigits: string := "89abAB"

  predicate IsAsciiLetter(c: char) {
    'a' <= c <= 'z' || 'A' <= c <= 'Z'
  }

  /** The reference description of a user name: 1 to 10 ASCII letters. */
  predicate IsLetters(s: string) {
    1 <= |s| <= 10 && forall i | 0 <= i < |s| :: IsAsciiLetter(s[i])
  }

  type UserID = s: string | IsUserID(s) ghost witness (WitnessIsUserID(); Witness)

  type UserName = s: string | IsUserName(s) ghost witness (UserNameCharacterisation("a"); "a")

  /** "00000000-0000-4000-8000-000000000000". */
  const Witness: string := seq(36, i => if i in {8, 13, 18, 23} then '-' else if i == 14 then '4' else if i == 19 then '8' else '0')

  lemma WitnessIsUserID()
    ensures IsUserID(Witness)
  {
    UserIDCharacterisation(Witness);
    assert |Witness| == 36;
    forall i | 0 <= i < 36 && i !in {8, 13, 14, 18, 19, 23}
      ensures IsHexDigit(Witness[i])
    {
    }
  }

  lemma HexClass(c: char)
    ensures ClassMatches(Hex, c, true) <==> IsHexDigit(c)
  {
    if '0' <= c <= '9' {
      assert Hex[0].lo <= c <= Hex[0].hi;
    } else if 'a' <= c <= 'f' {
      assert Hex[1].lo <= c <= Hex[1].hi;
    } else if 'A' <= c <= 'F' {
      assert Hex[1].lo <= AsciiLower(c) <= Hex[1].hi;
    }
  }

  lemma HexRun(s: string)
    ensures AllMatch(Hex, s, true) <==> AllHex(s)
  {
    forall i | 0 <= i < |s| {
      HexClass(s[i]);
    }
  }

  lemma VariantClass(c: char)
    ensures ClassMatches(Variant, c, true) <==> c in VariantDigits
  {
    if c == '8' || c == '9' {
      assert Variant[0].lo <= c <= Variant[0].hi;
    } else if c == 'a' || c == 'b' {
      assert Variant[1].lo <= c <= Variant[1].hi;
    } else if c == 'A' || c == 'B' {
      assert Variant[1].lo <= AsciiLower(c) <= Variant[1].hi;
    }
  }

  lemma LiteralClass(c: char, d: char)
    requires !('a' <= d <= 'z') && !('A' <= d <= 'Z')
    ensures ClassMatches([Range(d, d)], c, true) <==> c == d
  {
    if c == d {
      assert [Range(d, d)][0].lo <= c <= [Range(d, d)][0].hi;
    }
  }

  lemma OneChar(ranges: seq<Range>, s: string)
    requires |s| == 1
    ensures AllMatch(ranges, s, true) <==> ClassMatches(ranges, s[0], true)
  {
  }

  /** The suffixes of the UUID pattern, each matched against the rest of the
      input: `Suffix(j)` is the pattern from its `j`-th term on. */
  function Suffix(j: nat): seq<Term>
    requires j <= 11
  {
    UuidV4Pattern.terms[j..]
  }

  lemma Dash(terms: seq<Term>, t: string)
    requires terms != [] && terms[0] == Literal('-')
    ensures MatchesAll(terms, t, true) <==> 1 <= |t| && t[0] == '-' && MatchesAll(terms[1..], t[1..], true)
  {
    FixedTerm(terms, t, true);
    if 1 <= |t| {
      OneChar([Range('-', '-')], t[..1]);
      LiteralClass(t[0], '-');
    }
  }

  lemma HexGroup(terms: seq<Term>, n: nat, t: string)
    requires terms != [] && terms[0] == Term(Hex, n, n)
    ensures MatchesAll(terms, t, true) <==> n <= |t| && AllHex(t[..n]) && MatchesAll(terms[1..], t[n..], true)
  {
    FixedTerm(terms, t, true);
    if n <= |t| {
      HexRun(t[..n]);
    }
  }

  lemma Suffix10(t: string)
    ensures MatchesAll(Suffix(10), t, true) <==> |t| == 12 && AllHex(t)
  {
    assert Suffix(10) == [Term(Hex, 12, 12)];
    SingleTerm(Term(Hex, 12, 12), t, true);
    HexRun(t);
  }

  lemma Suffix9(t: string)
    ensures MatchesAll(Suffix(9), t, true) <==> |t| == 13 && t[0] == '-' && AllHex(t[1..])
  {
    assert Suffix(9)[1..] == Suffix(10);
    Dash(Suffix(9), t);
    if 1 <= |t| {
      Suffix10(t[1..]);
    }
  }

  lemma Suffix8(t: string)
    ensures MatchesAll(Suffix(8), t, true) <==>
      |t| == 16 && AllHex(t[..3]) && t[3] == '-' && AllHex(t[4..])
  {
    assert Suffix(8)[1..] == Suffix(9);
    HexGroup(Suffix(8), 3, t);
    if 3 <= |t| {
      Suffix9(t[3..]);
      if |t| == 16 {
        assert t[3..][1..] == t[4..];
      }
    }
  }

  lemma Suffix7(t: string)
    ensures MatchesAll(Suffix(7), t, true) <==>
      |t| == 17 && t[0] in VariantDigits && AllHex(t[1..4]) && t[4] == '-' && AllHex(t[5..])
  {
    assert Suffix(7)[1..] == Suffix(8);
    FixedTerm(Suffix(7), t, true);
    if 1 <= |t| {
      OneChar(Variant, t[..1]);
      VariantClass(t[0]);
      Suffix8(t[1..]);
      if |t| == 17 {
        assert t[1..][..3] == t[1..4];
        assert t[1..][4..] == t[5..];
      }
    }
  }

  lemma Suffix6(t: string)
    ensures MatchesAll(Suffix(6), t, true) <==>
      |t| == 18 && t[0] == '-' && t[1] in VariantDigits && AllHex(t[2..5]) && t[5] == '-' && AllHex(t[6..])
  {
    assert Suffix(6)[1..] == Suffix(7);
    Dash(Suffix(6), t);
    if 1 <= |t| {
      Suffix7(t[1..]);
      if |t| == 18 {
        assert t[1..][1..4] == t[2..5];
        assert t[1..][5..] == t[6..];
      }
    }
  }

  /** The input from the fifteenth character on, in the terms of `Suffix6`. */
  predicate AfterVersion(t: string) {
    |t| == 21 && AllHex(t[..3]) && t[3] == '-' && t[4] in VariantDigits && AllHex(t[5..8]) && t[8] == '-' && AllHex(t[9..])
  }

  lemma Suffix5(t: string)
    ensures MatchesAll(Suffix(5), t, true) <==> AfterVersion(t)
  {
    assert Suffix(5)[1..] == Suffix(6);
    HexGroup(Suffix(5), 3, t);
    if 3 <= |t| {
      Suffix6(t[3..]);
      if |t| == 21 {
        assert t[3..][2..5] == t[5..8];
        assert t[3..][6..] == t[9..];
      }
    }
  }

  lemma Suffix4(t: string)
    ensures MatchesAll(Suffix(4), t, true) <==> 1 <= |t| && t[0] == '4' && AfterVersion(t[1..])
  {
    assert Suffix(4)[1..] == Suffix(5);
    FixedTerm(Suffix(4), t, true);
    if 1 <= |t| {
      OneChar([Range('4', '4')], t[..1]);
      LiteralClass(t[0], '4');
      Suffix5(t[1..]);
    }
  }

  lemma Suffix3(t: string)
    ensures MatchesAll(Suffix(3), t, true) <==> 2 <= |t| && t[0] == '-' && t[1] == '4' && AfterVersion(t[2..])
  {
    assert Suffix(3)[1..] == Suffix(4);
    Dash(Suffix(3), t);
    if 1 <= |t| {
      Suffix4(t[1..]);
      if 2 <= |t| {
        assert t[1..][1..] == t[2..];
      }
    }
  }

  /** The input from the tenth character on. */
  predicate AfterSecondDash(t: string) {
    6 <= |t| && AllHex(t[..4]) && t[4] == '-' && t[5] == '4' && AfterVersion(t[6..])
  }

  lemma Suffix2(t: string)
    ensures MatchesAll(Suffix(2), t, true) <==> AfterSecondDash(t)
  {
    assert Suffix(2)[1..] == Suffix(3);
    HexGroup(Suffix(2), 4, t);
    if 4 <= |t| {
      Suffix3(t[4..]);
      if 6 <= |t| {
        assert t[4..][2..] == t[6..];
      }
    }
  }

  lemma Suffix1(t: string)
    ensures MatchesAll(Suffix(1), t, true) <==> 1 <= |t| && t[0] == '-' && AfterSecondDash(t[1..])
  {
    assert Suffix(1)[1..] == Suffix(2);
    Dash(Suffix(1), t);
    if 1 <= |t| {
      Suffix2(t[1..]);
    }
  }

  /** `UserID` accepts exactly the version-4 UUIDs, in either letter case. */
  lemma {:induction false} UserIDCharacterisation(s: string)
    ensures IsUserID(s) <==> IsUuidV4(s)
  {
    assert Suffix(0) == UuidV4Pattern.terms && Suffix(0)[1..] == Suffix(1);
    HexGroup(Suffix(0), 8, s);
    if 8 <= |s| {
      Suffix1(s[8..]);
      if |s| == 36 {
        var t := s[9..];
        assert s[8..][1..] == t;
        assert t[..4] == s[9..13] && t[6..] == s[15..];
        var u := s[15..];
        assert u[..3] == s[15..18] && u[5..8] == s[20..23] && u[9..] == s[24..];
      }
    }
  }

  /** `UserName` accepts exactly the strings of 1 to 10 ASCII letters. */
  lemma UserNameCharacterisation(s: string)
    ensures IsUserName(s) <==> IsLetters(s)
  {
    SingleTerm(Term(Letters, 1, 10), s, false);
    forall i | 0 <= i < |s|
      ensures ClassMatches(Letters, s[i], false) <==> IsAsciiLetter(s[i])
    {
      if 'a' <= s[i] <= 'z' {
        assert Letters[0].lo <= s[i] <= Letters[0].hi;
      } else if 'A' <= s[i] <= 'Z' {
        assert Letters[1].lo <= s[i] <= Letters[1].hi;
      }
    }
  }

  /** `UserID(value)`, i.e. `Schema.decodeUnknownEither(userIDSchema)`: a string
      that is a version-4 UUID comes back unchanged, with the brand; anything
      else is a ParseError. */
  function DecodeUserID(v: Value): (r: Result<UserID, Error>)
    ensures r.Success? <==> v.Str? && IsUuidV4(v.s)
    ensures r.Success? ==> r.value == v.s
    ensures r.Failure? ==> r.error == ParseError([])
  {
    if !v.Str? then Failure(ParseError([]))
    else
      UserIDCharacterisation(v.s);
      if IsUserID(v.s) then Success(v.s) else Failure(ParseError([]))
  }

  /** `UserName(value)`, i.e. `Schema.decodeUnknownEither(userNameSchema)`. */
  function DecodeUserName(v: Value): (r: Result<UserName, Error>)
    ensures r.Success? <==> v.Str? && IsLetters(v.s)
    ensures r.Success? ==> r.value == v.s
    ensures r.Failure? ==> r.error == ParseError([])
  {
    if !v.Str? then Failure(ParseError([]))
    else
      UserNameCharacterisation(v.s);
      if IsUserName(v.s) then Success(v.s) else Failure(ParseError([]))
  }

  /** Every accepted user ID is 36 characters long with '-' at 8, 13, 18 and 23. */
  lemma UserIDLayout(s: string)
    requires IsUserID(s)
    ensures |s| == 36 && s[8] == '-' && s[13] == '-' && s[18] == '-' && s[23] == '-'
    ensures s[14] == '4'
  {
    UserIDCharacterisation(s);
  }

  /** No string is both a user ID and a user name: a user ID holds '-', which is
      not a letter. */
  lemma IdentifiersDisjoint(s: string)
    ensures !(IsUserID(s) && IsUserName(s))
  {
    UserIDCharacterisation(s);
    UserNameCharacterisation(s);
    if IsUserID(s) {
      assert !IsAsciiLetter(s[8]);
    }
  }

  /** A user ID is plain ASCII, so its UTF-8 encoding is one byte per character. */
  lemma UserIDIsAscii(s: string)
    requires IsUserID(s)
    ensures IsAscii(s)
  {
    UserIDCharacterisation(s);
    forall i | 0 <= i < |s|
      ensures s[i] as int < 128
    {
      if i < 8 {
        assert s[..8][i] == s[i];
      } else if 8 < i < 13 {
        assert s[9..13][i - 9] == s[i];
      } else if 14 < i < 18 {
        assert s[15..18][i - 15] == s[i];
      } else if 19 < i < 23 {
        assert s[20..23][i - 20] == s[i];
      } else if 23 < i {
        assert s[24..][i - 24] == s[i];
      }
    }
  }
}
