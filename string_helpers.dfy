// The engine's string helpers: trimming, case-insensitive comparison and
// membership tests over lists of candidate strings.
module StringHelpers {
  import opened Common

  /** The characters str_trim strips: space, tab, line feed, carriage return. */
  predicate IsTrimmed(c: char)
  {
    c == ' ' || c == '\t' || c == '\n' || c == '\r'
  }

  predicate AllTrimmed(s: CString)
  {
    forall i :: 0 <= i < |s| ==> IsTrimmed(s[i])
  }

  /** find_first_not_of(" \t\n\r"), with |s| standing for npos. */
  function FirstKept(s: CString): (k: nat)
    ensures k <= |s|
    ensures AllTrimmed(s[..k])
    ensures k < |s| ==> !IsTrimmed(s[k])
  {
    if s == [] || !IsTrimmed(s[0]) then 0
    else
      var k := 1 + FirstKept(s[1..]);
      assert s[..k] == [s[0]] + s[1..][..k - 1];
      k
  }

  /** One past find_last_not_of(" \t\n\r"), or 0 when every character is stripped. */
  function EndKept(s: CString): (e: nat)
    ensures e <= |s|
    ensures AllTrimmed(s[e..])
    ensures e > 0 ==> !IsTrimmed(s[e - 1])
  {
    if s == [] || !IsTrimmed(s[|s| - 1]) then |s|
    else
      var e := EndKept(s[..|s| - 1]);
      assert s[e..] == s[..|s| - 1][e..] + [s[|s| - 1]];
      e
  }

  /** str_trim: the text between the first and the last kept character. */
  function Trim(s: CString): (r: CString)
  {
    var start := FirstKept(s);
    if start == |s| then [] else s[start..EndKept(s)]
  }

  /** Trimming removes a stripped prefix and a stripped suffix and nothing else,
      and the result neither starts nor ends with a stripped character. */
  lemma TrimShape(s: CString)
    ensures exists a, b :: 0 <= a <= b <= |s| && Trim(s) == s[a..b]
                          && AllTrimmed(s[..a]) && AllTrimmed(s[b..])
    ensures Trim(s) != [] ==> !IsTrimmed(Trim(s)[0]) && !IsTrimmed(Trim(s)[|Trim(s)| - 1])
    ensures Trim(s) == [] <==> AllTrimmed(s)
  {
    var start, end := FirstKept(s), EndKept(s);
    if start == |s| {
      assert s[..start] == s;
      assert Trim(s) == s[|s|..|s|];
    } else {
      assert !IsTrimmed(s[start]);
      assert Trim(s) == s[start..end];
      assert !AllTrimmed(s) by { assert !IsTrimmed(s[start]); }
    }
  }

  /** str_trim is idempotent. */
  lemma TrimIdempotent(s: CString)
    ensures Trim(Trim(s)) == Trim(s)
  {
    TrimShape(s);
    var t := Trim(s);
    if t != [] {
      assert FirstKept(t) == 0;
      assert EndKept(t) == |t|;
      assert t[0..|t|] == t;
    }
  }

  /** str_trim of text without surrounding whitespace is that text. */
  lemma TrimKeepsInterior(s: CString)
    requires s != [] ==> !IsTrimmed(s[0]) && !IsTrimmed(s[|s| - 1])
    ensures Trim(s) == s
  {
    if s != [] {
      assert s[0..|s|] == s;
    }
  }

  /** std::tolower in the "C" locale. */
  function ToLower(c: Char): (r: Char)
    ensures 'A' <= c <= 'Z' ==> r as int == c as int + 32
    ensures !('A' <= c <= 'Z') ==> r == c
  {
    if 'A' <= c <= 'Z' then (c as int + 32) as char else c
  }

  /** str_insensitive_compare: std::ranges::equal under tolower. */
  function InsensitiveEqual(a: CString, b: CString): (r: bool)
  {
    if a == [] || b == [] then a == [] && b == []
    else ToLower(a[0]) == ToLower(b[0]) && InsensitiveEqual(a[1..], b[1..])
  }

  /** Two strings compare equal ignoring case iff they have the same length
      and agree position by position under tolower. */
  lemma {:induction false} InsensitiveEqualMeaning(a: CString, b: CString)
    ensures InsensitiveEqual(a, b) <==>
            |a| == |b| && forall i :: 0 <= i < |a| ==> ToLower(a[i]) == ToLower(b[i])
  {
    if a != [] && b != [] {
      InsensitiveEqualMeaning(a[1..], b[1..]);
      if |a| == |b| && forall i :: 0 <= i < |a| ==> ToLower(a[i]) == ToLower(b[i]) {
        forall i | 0 <= i < |a| - 1 ensures ToLower(a[1..][i]) == ToLower(b[1..][i]) {
          assert a[1..][i] == a[i + 1];
        }
      }
    }
  }

  lemma InsensitiveEqualIsEquivalence(a: CString, b: CString, c: CString)
    ensures InsensitiveEqual(a, a)
    ensures InsensitiveEqual(a, b) ==> InsensitiveEqual(b, a)
    ensures InsensitiveEqual(a, b) && InsensitiveEqual(b, c) ==> InsensitiveEqual(a, c)
  {
    InsensitiveEqualMeaning(a, a);
    InsensitiveEqualMeaning(a, b);
    InsensitiveEqualMeaning(b, a);
    InsensitiveEqualMeaning(b, c);
    InsensitiveEqualMeaning(a, c);
  }

  /** str_match: scans the candidates in order. */
  function Match(s: CString, matches: seq<CString>): (r: bool)
  {
    if matches == [] then false else s == matches[0] || Match(s, matches[1..])
  }

  lemma {:induction false} MatchMeaning(s: CString, matches: seq<CString>)
    ensures Match(s, matches) <==> s in matches
  {
    if matches != [] {
      MatchMeaning(s, matches[1..]);
      assert matches == [matches[0]] + matches[1..];
    }
  }

  /** str_insensitive_match: scans the candidates in order. */
  function InsensitiveMatch(s: CString, matches: seq<CString>): (r: bool)
  {
    if matches == [] then false
    else InsensitiveEqual(s, matches[0]) || InsensitiveMatch(s, matches[1..])
  }

  lemma {:induction false} InsensitiveMatchMeaning(s: CString, matches: seq<CString>)
    ensures InsensitiveMatch(s, matches) <==>
            exists i :: 0 <= i < |matches| && InsensitiveEqual(s, matches[i])
  {
    if matches != [] {
      InsensitiveMatchMeaning(s, matches[1..]);
      if InsensitiveMatch(s, matches[1..]) {
        var i :| 0 <= i < |matches[1..]| && InsensitiveEqual(s, matches[1..][i]);
        assert matches[i + 1] == matches[1..][i];
      }
      if exists i :: 0 <= i < |matches| && InsensitiveEqual(s, matches[i]) {
        var i :| 0 <= i < |matches| && InsensitiveEqual(s, matches[i]);
        if i > 0 {
          assert matches[1..][i - 1] == matches[i];
        }
      }
    }
  }

  /** Every exact match is also a match ignoring case. */
  lemma MatchImpliesInsensitiveMatch(s: CString, matches: seq<CString>)
    requires Match(s, matches)
    ensures InsensitiveMatch(s, matches)
  {
    MatchMeaning(s, matches);
    var i :| 0 <= i < |matches| && matches[i] == s;
    InsensitiveEqualIsEquivalence(s, s, s);
    InsensitiveMatchMeaning(s, matches);
  }
}
