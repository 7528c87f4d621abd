/** The fragment of JavaScript regular expressions that `Schema.pattern` is given
    in this system: an anchored concatenation `^...$` of character classes, each
    under a bounded repetition `{min,max}`, optionally with the `i` flag. */
module Pattern {

  /** A range `lo-hi` inside a character class `[...]`. */
  datatype Range = Range(lo: char, hi: char)

  /** `[ranges]{min,max}`. */
  datatype Term = Term(ranges: seq<Range>, min: nat, max: nat)

  /** `/^terms$/`, or `/^terms$/i` when `ignoreCase` holds. */
  datatype Regex = Regex(terms: seq<Term>, ignoreCase: bool)

  /** A literal character `c`, which is the class `[c]` taken once. */
  function Literal(c: char): Term {
    Term([Range(c, c)], 1, 1)
  }

  predicate InRanges(ranges: seq<Range>, c: char) {
    exists i | 0 <= i < |ranges| :: ranges[i].lo <= c <= ranges[i].hi
  }

  function AsciiUpper(c: char): char {
    if 'a' <= c <= 'z' then (c as int - 32) as char else c
  }

  function AsciiLower(c: char): char {
    if 'A' <= c <= 'Z' then (c as int + 32) as char else c
  }

  /** Class membership. Under the `i` flag (without the `u` flag) JavaScript
      compares upper-cased characters and never maps a non-ASCII character to an
      ASCII one, so for the ASCII classes used here folding by ASCII case is exact. */
  predicate ClassMatches(ranges: seq<Range>, c: char, ignoreCase: bool) {
    || InRanges(ranges, c)
    || (ignoreCase && (InRanges(ranges, AsciiUpper(c)) || InRanges(ranges, AsciiLower(c))))
  }

  predicate AllMatch(ranges: seq<Range>, s: string, ignoreCase: bool) {
    forall i | 0 <= i < |s| :: ClassMatches(ranges, s[i], ignoreCase)
  }

  /** `s` splits into consecutive pieces, one per term, each piece as long as
      its term's repetition allows and made of characters of its class. */
  predicate MatchesAll(terms: seq<Term>, s: string, ignoreCase: bool)
    decreases |terms|
  {
    if terms == [] then s == []
    else
      exists k | terms[0].min <= k <= terms[0].max && k <= |s| ::
        AllMatch(terms[0].ranges, s[..k], ignoreCase) && MatchesAll(terms[1..], s[k..], ignoreCase)
  }

  /** `regex.test(s)`. */
  predicate Test(r: Regex, s: string) {
    MatchesAll(r.terms, s, r.ignoreCase)
  }

  /** A term of fixed width consumes exactly that many characters. */
  lemma FixedTerm(terms: seq<Term>, s: string, ignoreCase: bool)
    requires terms != [] && terms[0].min == terms[0].max
    ensures MatchesAll(terms, s, ignoreCase) <==>
      && terms[0].min <= |s|
      && AllMatch(terms[0].ranges, s[..terms[0].min], ignoreCase)
      && MatchesAll(terms[1..], s[terms[0].min..], ignoreCase)
  {
    var n := terms[0].min;
    if n <= |s| && AllMatch(terms[0].ranges, s[..n], ignoreCase) && MatchesAll(terms[1..], s[n..], ignoreCase) {
      assert terms[0].min <= n <= terms[0].max && n <= |s|;
    }
  }

  /** A single term is the whole pattern: the string is one piece. */
  lemma SingleTerm(t: Term, s: string, ignoreCase: bool)
    ensures MatchesAll([t], s, ignoreCase) <==>
      t.min <= |s| <= t.max && AllMatch(t.ranges, s, ignoreCase)
  {
    var terms := [t];
    assert terms[1..] == [];
    if t.min <= |s| <= t.max && AllMatch(t.ranges, s, ignoreCase) {
      assert s[..|s|] == s && s[|s|..] == [];
      assert AllMatch(terms[0].ranges, s[..|s|], ignoreCase) && MatchesAll(terms[1..], s[|s|..], ignoreCase);
    }
    if MatchesAll(terms, s, ignoreCase) {
      var k :| t.min <= k <= t.max && k <= |s| && AllMatch(t.ranges, s[..k], ignoreCase) && MatchesAll(terms[1..], s[k..], ignoreCase);
      assert s[k..] == [];
      assert s[..k] == s;
    }
  }
}
