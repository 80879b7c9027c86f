/**
 * The pieces of Python's `str` behaviour that the backend relies on:
 * `strip()`, `"sep".join(...)`, `str(int)` and ASCII lower-casing.
 * Strings are `seq<char>`; every other module imports this one.
 */
module Text {

  datatype Option<T> = None | Some(value: T)

  datatype Result<T, E> = Ok(value: T) | Err(error: E)

  /** The characters for which Python's `str.isspace()` holds, which are the
      characters a bare `str.strip()` removes. */
  predicate IsSpace(c: char) {
    || c == ' '
    || ('\t' <= c <= '\r')              // \t \n \v \f \r
    || ('\U{1C}' <= c <= '\U{1F}')      // file, group, record and unit separators
    || c == '\U{85}' || c == '\U{A0}' || c == '\U{1680}'
    || ('\U{2000}' <= c <= '\U{200A}')
    || c == '\U{2028}' || c == '\U{2029}' || c == '\U{202F}' || c == '\U{205F}'
    || c == '\U{3000}'
  }

  /** A string that `strip()` reduces to the empty string. */
  predicate IsBlank(s: string) {
    forall i :: 0 <= i < |s| ==> IsSpace(s[i])
  }

  /** Neither the first nor the last character is white space. */
  predicate IsTrimmed(s: string) {
    s == [] || (!IsSpace(s[0]) && !IsSpace(s[|s| - 1]))
  }

  /** The first index at or after i whose character is not white space, or
      |s|: the left-hand scan of `strip()`. */
  function SkipSpaces(s: string, i: nat): (r: nat)
    requires i <= |s|
    ensures i <= r <= |s|
    ensures forall k :: i <= k < r ==> IsSpace(s[k])
    ensures r < |s| ==> !IsSpace(s[r])
    decreases |s| - i
  {
    if i < |s| && IsSpace(s[i]) then SkipSpaces(s, i + 1) else i
  }

  /** The index just past the last character in s[lo..j] that is not white
      space, or lo: the right-hand scan of `strip()`, which stops where the
      left-hand scan stopped. */
  function SkipSpacesBack(s: string, lo: nat, j: nat): (r: nat)
    requires lo <= j <= |s|
    ensures lo <= r <= j
    ensures forall k :: r <= k < j ==> IsSpace(s[k])
    ensures r > lo ==> !IsSpace(s[r - 1])
    decreases j
  {
    if j > lo && IsSpace(s[j - 1]) then SkipSpacesBack(s, lo, j - 1) else j
  }

  /** How many white-space characters `strip()` removes from the front. */
  function LeadingBlanks(s: string): (n: nat)
    ensures n <= |s|
  {
    SkipSpaces(s, 0)
  }

  /** Where the stripped string ends in s. */
  function StrippedEnd(s: string): (n: nat)
    ensures LeadingBlanks(s) <= n <= |s|
  {
    SkipSpacesBack(s, LeadingBlanks(s), |s|)
  }

  /** Python's `strip()` with no argument. */
  function Strip(s: string): (r: string)
  {
    s[LeadingBlanks(s)..StrippedEnd(s)]
  }

  /** `strip()` removes a blank prefix and a blank suffix and nothing else:
      the result is a contiguous piece of the input that neither starts nor
      ends with white space. */
  lemma StripSpec(s: string)
    ensures LeadingBlanks(s) + |Strip(s)| <= |s|
    ensures Strip(s) == s[LeadingBlanks(s)..LeadingBlanks(s) + |Strip(s)|]
    ensures IsBlank(s[..LeadingBlanks(s)])
    ensures IsBlank(s[LeadingBlanks(s) + |Strip(s)|..])
    ensures IsTrimmed(Strip(s))
  {
    var lead, end := LeadingBlanks(s), StrippedEnd(s);
    assert forall k :: 0 <= k < lead ==> s[..lead][k] == s[k];
    assert forall k :: 0 <= k < |s| - end ==> s[end..][k] == s[end + k];
    if end > lead {
      assert Strip(s)[0] == s[lead];
      assert Strip(s)[end - lead - 1] == s[end - 1];
    }
  }

  /** A string strips to nothing exactly when it is blank. */
  lemma StripEmptyIffBlank(s: string)
    ensures Strip(s) == [] <==> IsBlank(s)
  {
    var lead, end := LeadingBlanks(s), StrippedEnd(s);
    if Strip(s) != [] {
      assert !IsSpace(s[lead]);
    }
  }

  /** A string without white space at either end is left as it is. */
  lemma StripTrimmed(s: string)
    requires IsTrimmed(s)
    ensures Strip(s) == s
  {
    if s != [] {
      assert LeadingBlanks(s) == 0;
      assert StrippedEnd(s) == |s|;
    }
  }

  /** `strip()` is idempotent. */
  lemma StripIdempotent(s: string)
    ensures Strip(Strip(s)) == Strip(s)
  {
    StripSpec(s);
    StripTrimmed(Strip(s));
  }

  /** Stripping a trimmed string surrounded by blanks gives that string back. */
  lemma StripSurrounded(lead: string, u: string, tail: string)
    requires IsBlank(lead) && IsBlank(tail) && IsTrimmed(u) && u != []
    ensures Strip(lead + u + tail) == u
  {
    var s := lead + u + tail;
    var a, b := |lead|, |lead| + |u|;
    assert forall k :: 0 <= k < a ==> s[k] == lead[k];
    assert forall k :: b <= k < |s| ==> s[k] == tail[k - b];
    assert s[a] == u[0] && s[b - 1] == u[|u| - 1];
    assert LeadingBlanks(s) == a;
    assert StrippedEnd(s) == b;
    assert s[a..b] == u;
  }

  /** Stripping a trimmed string followed by blanks gives that string back. */
  lemma StripBlankSuffix(u: string, tail: string)
    requires IsBlank(tail) && IsTrimmed(u) && u != []
    ensures Strip(u + tail) == u
  {
    assert "" + u + tail == u + tail;
    StripSurrounded("", u, tail);
  }

  /** A visible prefix survives `strip()`. */
  lemma TrimmedPrefixSurvivesStrip(p: string, s: string)
    requires p != [] && IsTrimmed(p) && p <= s
    ensures p <= Strip(s)
  {
    assert s[0] == p[0] && s[|p| - 1] == p[|p| - 1];
    assert LeadingBlanks(s) == 0;
    assert StrippedEnd(s) >= |p|;
    assert Strip(s)[..|p|] == p;
  }

  /** Python's `sep.join(parts)`. */
  function Join(parts: seq<string>, sep: string): (r: string)
  {
    if |parts| == 0 then ""
    else if |parts| == 1 then parts[0]
    else Join(parts[..|parts| - 1], sep) + sep + parts[|parts| - 1]
  }

  /** Joining with the empty separator distributes over concatenation. */
  lemma {:induction false} JoinConcatAppend(a: seq<string>, b: seq<string>)
    ensures Join(a + b, "") == Join(a, "") + Join(b, "")
    decreases |b|
  {
    if |b| == 0 {
      assert a + b == a;
    } else if |a| == 0 {
      assert a + b == b;
    } else {
      var b' := b[..|b| - 1];
      assert (a + b)[..|a + b| - 1] == a + b';
      JoinConcatAppend(a, b');
      if |b'| == 0 {
        assert Join(b, "") == b[0];
      } else {
        assert Join(a + b, "") == Join(a + b', "") + b[|b| - 1];
      }
    }
  }

  /** A join of one or more pieces starts with the first piece and ends with the last. */
  lemma {:induction false} JoinEnds(parts: seq<string>, sep: string)
    requires |parts| > 0
    ensures parts[0] <= Join(parts, sep)
    ensures var j := Join(parts, sep); var p := parts[|parts| - 1];
            |p| <= |j| && j[|j| - |p|..] == p
    decreases |parts|
  {
    if |parts| > 1 {
      JoinEnds(parts[..|parts| - 1], sep);
    }
  }

  /** Joining non-blank stripped pieces with any separator gives a non-blank
      string that is itself stripped at both ends. */
  lemma JoinTrimmedPieces(parts: seq<string>, sep: string)
    requires |parts| > 0
    requires forall k :: 0 <= k < |parts| ==> parts[k] != [] && IsTrimmed(parts[k])
    ensures var j := Join(parts, sep); j != [] && IsTrimmed(j) && !IsBlank(j)
  {
    JoinEnds(parts, sep);
    var j := Join(parts, sep);
    var p := parts[|parts| - 1];
    assert j[0] == parts[0][0];
    assert j[|j| - 1] == p[|p| - 1];
  }

  // ---- str(int) ----

  predicate IsDigit(c: char) {
    '0' <= c <= '9'
  }

  function DigitChar(d: nat): (c: char)
    requires d < 10
    ensures IsDigit(c) && c as int - '0' as int == d
  {
    (d + '0' as int) as char
  }

  /** Decimal digits of a natural number, as Python's `str(n)` prints them. */
  function NatToString(n: nat): (r: string)
    ensures |r| >= 1
    ensures forall i :: 0 <= i < |r| ==> IsDigit(r[i])
  {
    if n < 10 then [DigitChar(n)] else NatToString(n / 10) + [DigitChar(n % 10)]
  }

  /** Python's `str(i)` for an `int`. */
  function IntToString(i: int): (r: string)
  {
    if i < 0 then "-" + NatToString(-i) else NatToString(i)
  }

  /** The value of a string of decimal digits. */
  function DigitsValue(s: string): nat
    requires forall i :: 0 <= i < |s| ==> IsDigit(s[i])
  {
    if s == [] then 0
    else
      assert IsDigit(s[|s| - 1]);
      DigitsValue(s[..|s| - 1]) * 10 + (s[|s| - 1] as int - '0' as int)
  }

  /** Reading the printed digits back gives the number. */
  lemma {:induction false} NatToStringRoundTrip(n: nat)
    ensures DigitsValue(NatToString(n)) == n
  {
    if n >= 10 {
      var s := NatToString(n);
      assert s[..|s| - 1] == NatToString(n / 10);
      NatToStringRoundTrip(n / 10);
    }
  }

  lemma NatToStringInjective(a: nat, b: nat)
    ensures NatToString(a) == NatToString(b) ==> a == b
  {
    NatToStringRoundTrip(a);
    NatToStringRoundTrip(b);
  }

  /** `str` on integers is injective. */
  lemma IntToStringInjective(a: int, b: int)
    ensures IntToString(a) == IntToString(b) ==> a == b
  {
    var sa, sb := IntToString(a), IntToString(b);
    if a < 0 && b < 0 {
      assert sa[1..] == NatToString(-a) && sb[1..] == NatToString(-b);
      NatToStringInjective(-a, -b);
    } else if a >= 0 && b >= 0 {
      NatToStringInjective(a, b);
    } else if a < 0 {
      assert sa[0] == '-' && IsDigit(sb[0]);
    } else {
      assert sb[0] == '-' && IsDigit(sa[0]);
    }
  }

  // ---- searching ----

  /** Python's `s.rfind(c)` for one character: the last index holding c, or -1. */
  function RFind(s: string, c: char): (r: int)
    ensures -1 <= r < |s|
    ensures r == -1 <==> c !in s
    ensures r >= 0 ==> s[r] == c && c !in s[r + 1..]
  {
    if s == [] then -1
    else if s[|s| - 1] == c then |s| - 1
    else
      assert s[..|s| - 1] + [s[|s| - 1]] == s;
      RFind(s[..|s| - 1], c)
  }

  // ---- lower-casing ----

  function LowerChar(c: char): (r: char)
  {
    if 'A' <= c <= 'Z' then (c as int + 32) as char else c
  }

  /** `str.lower()` restricted to ASCII letters. */
  function Lower(s: string): (r: string)
    ensures |r| == |s|
    ensures forall i :: 0 <= i < |s| ==> r[i] == LowerChar(s[i])
  {
    if s == [] then [] else Lower(s[..|s| - 1]) + [LowerChar(s[|s| - 1])]
  }

  lemma LowerHasNoUpperCase(s: string)
    ensures forall i :: 0 <= i < |s| ==> !('A' <= Lower(s)[i] <= 'Z')
  {
  }
}
