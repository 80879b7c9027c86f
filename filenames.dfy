/**
 * backend/app/utils/file_utils.py: the names uploaded files are stored under.
 *
 * `generate_unique_filename` keeps the extension `os.path.splitext` finds,
 * sanitises the rest of the name, and appends a minute timestamp and a short
 * random id.  The clock and the random draws are parameters: `DateTime` is
 * what `datetime.now()` returned, and `draw(i)` is the index into the
 * alphabet that `random.choices` picked for the i-th character.
 */
module Filenames {
  import opened Text

  /** `string.ascii_lowercase + string.digits` */
  const Alphabet: string := "abcdefghijklmnopqrstuvwxyz0123456789"

  /** An index `random.choices` can pick from the alphabet. */
  type Draw = d: nat | d < 36

  predicate IsLowerAlnum(c: char) {
    ('a' <= c <= 'z') || ('0' <= c <= '9')
  }

  lemma AlphabetChars()
    ensures |Alphabet| == 36
    ensures forall i :: 0 <= i < |Alphabet| ==> IsLowerAlnum(Alphabet[i])
  {
  }

  /** The first n characters of the short id. */
  function ShortIdPrefix(n: nat, draw: nat -> Draw): (r: string)
    ensures |r| == n
    ensures forall i :: 0 <= i < n ==> r[i] == Alphabet[draw(i)]
  {
    if n == 0 then [] else ShortIdPrefix(n - 1, draw) + [Alphabet[draw(n - 1)]]
  }

  /** `generate_short_id(length)`: `random.choices` draws nothing for a length
      that is zero or negative. */
  function ShortId(length: int, draw: nat -> Draw): (r: string)
  {
    ShortIdPrefix(if length < 0 then 0 else length, draw)
  }

  /** The id has exactly `length` characters (none when `length` is not
      positive), each a lower-case ASCII letter or a digit. */
  lemma ShortIdShape(length: int, draw: nat -> Draw)
    ensures |ShortId(length, draw)| == if length < 0 then 0 else length
    ensures forall i :: 0 <= i < |ShortId(length, draw)| ==> IsLowerAlnum(ShortId(length, draw)[i])
  {
    AlphabetChars();
  }

  // ---- os.path.splitext ----

  /** Some character in p[lo..hi] is not a dot. */
  predicate HasNonDot(p: string, lo: int, hi: int)
    requires 0 <= lo && hi <= |p|
  {
    exists k :: lo <= k < hi && p[k] != '.'
  }

  /** POSIX `os.path.splitext(p)`: the extension runs from the last dot of the
      last path component, provided something other than dots comes before
      that dot in the component; otherwise it is empty. */
  function SplitExt(p: string): (r: (string, string))
  {
    var sepIndex := RFind(p, '/');
    var dotIndex := RFind(p, '.');
    if dotIndex > sepIndex && HasNonDot(p, sepIndex + 1, dotIndex) then (p[..dotIndex], p[dotIndex..])
    else (p, "")
  }

  /** An extension as `splitext` returns it: empty, or a dot followed by
      neither a dot nor a slash. */
  predicate IsExtension(ext: string) {
    ext == [] || (ext[0] == '.' && '.' !in ext[1..] && '/' !in ext)
  }

  /** Name and extension put back together give the path, and the extension
      has the shape `splitext` promises. */
  lemma SplitExtRoundTrip(p: string)
    ensures SplitExt(p).0 + SplitExt(p).1 == p
    ensures IsExtension(SplitExt(p).1)
  {
    var sepIndex := RFind(p, '/');
    var dotIndex := RFind(p, '.');
    if dotIndex > sepIndex && HasNonDot(p, sepIndex + 1, dotIndex) {
      var ext := p[dotIndex..];
      assert ext[1..] == p[dotIndex + 1..];
    }
  }

  /** Appending an extension to a name without dots or slashes (and not empty)
      is undone by `splitext`. */
  lemma SplitExtOfPlainName(stem: string, ext: string)
    requires stem != [] && '.' !in stem && '/' !in stem
    requires IsExtension(ext)
    ensures SplitExt(stem + ext) == (stem, ext)
  {
    var p := stem + ext;
    if ext == [] {
      assert p == stem;
      assert RFind(p, '.') == -1;
    } else {
      assert p[|stem|] == '.';
      assert '.' !in p[|stem| + 1..] by {
        assert p[|stem| + 1..] == ext[1..];
      }
      var dotIndex := RFind(p, '.');
      assert dotIndex == |stem|;
      var sepIndex := RFind(p, '/');
      assert '/' !in p by {
        forall k | 0 <= k < |p| ensures p[k] != '/' {
          if k < |stem| {
            assert p[k] == stem[k];
          } else {
            assert p[k] == ext[k - |stem|];
          }
        }
      }
      assert sepIndex == -1;
      assert p[0] == stem[0] && p[0] != '.';
      assert HasNonDot(p, 0, dotIndex);
      assert p[..dotIndex] == stem && p[dotIndex..] == ext;
    }
  }

  // ---- the safe name ----

  /** `str.isalnum()` for ASCII characters. */
  predicate IsAlnum(c: char) {
    ('a' <= c <= 'z') || ('A' <= c <= 'Z') || ('0' <= c <= '9')
  }

  predicate IsSafeChar(c: char) {
    IsAlnum(c) || c == ' ' || c == '-' || c == '_'
  }

  /** `''.join(c for c in name if c.isalnum() or c in (' ', '-', '_'))` */
  function KeepSafe(name: string): (r: string)
    ensures |r| <= |name|
    ensures forall i :: 0 <= i < |r| ==> IsSafeChar(r[i])
  {
    if name == [] then []
    else KeepSafe(name[..|name| - 1]) + (if IsSafeChar(name[|name| - 1]) then [name[|name| - 1]] else [])
  }

  /** Filtering works character by character, keeping the original order. */
  lemma {:induction false} KeepSafeAppend(a: string, b: string)
    ensures KeepSafe(a + b) == KeepSafe(a) + KeepSafe(b)
    decreases |b|
  {
    if b == [] {
      assert a + b == a;
    } else {
      assert (a + b)[..|a + b| - 1] == a + b[..|b| - 1];
      KeepSafeAppend(a, b[..|b| - 1]);
    }
  }

  /** A name made only of kept characters is kept whole. */
  lemma {:induction false} KeepSafeOfSafe(name: string)
    requires forall i :: 0 <= i < |name| ==> IsSafeChar(name[i])
    ensures KeepSafe(name) == name
  {
    if name != [] {
      KeepSafeOfSafe(name[..|name| - 1]);
    }
  }

  /** `s.replace(' ', '_')` */
  function ReplaceSpaces(s: string): (r: string)
    ensures |r| == |s|
    ensures forall i :: 0 <= i < |s| ==> r[i] == if s[i] == ' ' then '_' else s[i]
  {
    if s == [] then [] else ReplaceSpaces(s[..|s| - 1]) + [if s[|s| - 1] == ' ' then '_' else s[|s| - 1]]
  }

  const MaxNameLength: nat := 30

  /** `s[:30]` */
  function Take(s: string, n: nat): (r: string)
    ensures |r| == if |s| < n then |s| else n
    ensures r <= s
  {
    if |s| <= n then s else s[..n]
  }

  /** `safe_name`: filtered, spaces replaced, then cut to 30 characters. */
  function SafeName(name: string): string
  {
    Take(ReplaceSpaces(KeepSafe(name)), MaxNameLength)
  }

  /** The safe name has at most 30 characters, each an ASCII letter or digit,
      '-' or '_', so it has no space, dot or slash; it is the start of the
      filtered name with spaces replaced, so the cut comes after the
      replacement. */
  lemma SafeNameShape(name: string)
    ensures var s := SafeName(name);
            && |s| <= MaxNameLength
            && (forall i :: 0 <= i < |s| ==> IsAlnum(s[i]) || s[i] == '-' || s[i] == '_')
            && ' ' !in s && '.' !in s && '/' !in s
            && s <= ReplaceSpaces(KeepSafe(name))
            && (|KeepSafe(name)| <= MaxNameLength ==> |s| == |KeepSafe(name)|)
  {
    var s := SafeName(name);
    var full := ReplaceSpaces(KeepSafe(name));
    forall i | 0 <= i < |s| ensures IsAlnum(s[i]) || s[i] == '-' || s[i] == '_' {
      assert s[i] == full[i];
    }
  }

  /** A name that is already safe and short, without spaces, is kept as it is. */
  lemma SafeNameOfSafe(name: string)
    requires |name| <= MaxNameLength
    requires forall i :: 0 <= i < |name| ==> IsAlnum(name[i]) || name[i] == '-' || name[i] == '_'
    ensures SafeName(name) == name
  {
    KeepSafeOfSafe(name);
    assert ReplaceSpaces(name) == name;
  }

  // ---- the timestamp ----

  /** The fields of `datetime.now()` that the timestamp uses. */
  datatype DateTime = DateTime(year: int, month: int, day: int, hour: int, minute: int)

  predicate ValidDateTime(t: DateTime) {
    1000 <= t.year <= 9999 && 1 <= t.month <= 12 && 1 <= t.day <= 31 &&
    0 <= t.hour <= 23 && 0 <= t.minute <= 59
  }

  /** A two-digit, zero-padded field. */
  function Pad2(n: nat): (r: string)
    requires n < 100
    ensures |r| == 2 && IsDigit(r[0]) && IsDigit(r[1])
    ensures DigitsValue(r) == n
  {
    var high := [DigitChar(n / 10)];
    assert high[..0] == [];
    var r := high + [DigitChar(n % 10)];
    assert r[..1] == high;
    assert DigitsValue(high) == n / 10;
    assert DigitsValue(r) == (n / 10) * 10 + n % 10;
    r
  }

  /** `strftime('%Y%m%d%H%M')` */
  function Timestamp(t: DateTime): (r: string)
    requires ValidDateTime(t)
  {
    NatToString(t.year) + Pad2(t.month) + Pad2(t.day) + Pad2(t.hour) + Pad2(t.minute)
  }

  /** A four-digit year prints as four digits. */
  lemma {:induction false} YearDigits(y: nat)
    requires 1000 <= y <= 9999
    ensures |NatToString(y)| == 4
  {
    assert NatToString(y) == NatToString(y / 10) + [DigitChar(y % 10)];
    assert NatToString(y / 10) == NatToString(y / 100) + [DigitChar(y / 10 % 10)];
    assert NatToString(y / 100) == NatToString(y / 1000) + [DigitChar(y / 100 % 10)];
  }

  /** The timestamp is twelve digits, and each field reads back from its place. */
  lemma TimestampRoundTrip(t: DateTime)
    requires ValidDateTime(t)
    ensures var s := Timestamp(t);
            && |s| == 12
            && (forall i :: 0 <= i < 12 ==> IsDigit(s[i]))
            && DigitsValue(s[0..4]) == t.year
            && DigitsValue(s[4..6]) == t.month
            && DigitsValue(s[6..8]) == t.day
            && DigitsValue(s[8..10]) == t.hour
            && DigitsValue(s[10..12]) == t.minute
  {
    var s := Timestamp(t);
    YearDigits(t.year);
    NatToStringRoundTrip(t.year);
    var y := NatToString(t.year);
    var mo, d, h, mi := Pad2(t.month), Pad2(t.day), Pad2(t.hour), Pad2(t.minute);
    assert s == y + mo + d + h + mi;
    assert s[0..4] == y;
    assert s[4..6] == mo;
    assert s[6..8] == d;
    assert s[8..10] == h;
    assert s[10..12] == mi;
  }

  // ---- the unique name ----

  /** `generate_unique_filename(original_filename, length)` at time `now`. */
  function UniqueFilename(original: string, length: int, now: DateTime, draw: nat -> Draw): (r: string)
    requires ValidDateTime(now)
  {
    var (name, ext) := SplitExt(original);
    SafeName(name) + "_" + Timestamp(now) + "_" + ShortId(length, draw) + ext
  }

  /** What comes before the extension in a unique name. */
  function UniqueStem(original: string, length: int, now: DateTime, draw: nat -> Draw): string
    requires ValidDateTime(now)
  {
    SafeName(SplitExt(original).0) + "_" + Timestamp(now) + "_" + ShortId(length, draw)
  }

  lemma UniqueStemPlain(original: string, length: int, now: DateTime, draw: nat -> Draw)
    requires ValidDateTime(now)
    ensures var stem := UniqueStem(original, length, now, draw);
            stem != [] && '.' !in stem && '/' !in stem
  {
    var safe := SafeName(SplitExt(original).0);
    var ts := Timestamp(now);
    var id := ShortId(length, draw);
    SafeNameShape(SplitExt(original).0);
    TimestampRoundTrip(now);
    ShortIdShape(length, draw);
    var stem := UniqueStem(original, length, now, draw);
    assert stem == safe + "_" + ts + "_" + id;
    forall k | 0 <= k < |stem| ensures stem[k] != '.' && stem[k] != '/' {
      if k < |safe| {
        assert stem[k] == safe[k];
      } else if k == |safe| || k == |safe| + 13 {
        assert stem[k] == '_';
      } else if k < |safe| + 13 {
        assert stem[k] == ts[k - |safe| - 1];
      } else {
        assert stem[k] == id[k - |safe| - 14];
      }
    }
  }

  /** The unique name keeps the original extension: `splitext` of the new
      name gives back exactly the extension of the original, after a stem of
      the safe name, the 12-digit timestamp and the id joined by '_'. */
  lemma UniqueFilenameKeepsExtension(original: string, length: int, now: DateTime, draw: nat -> Draw)
    requires ValidDateTime(now)
    ensures var result := UniqueFilename(original, length, now, draw);
            && SplitExt(result) == (UniqueStem(original, length, now, draw), SplitExt(original).1)
            && |result| == |SafeName(SplitExt(original).0)| + 14 + |ShortId(length, draw)| + |SplitExt(original).1|
  {
    SplitExtRoundTrip(original);
    UniqueStemPlain(original, length, now, draw);
    TimestampRoundTrip(now);
    var stem := UniqueStem(original, length, now, draw);
    assert UniqueFilename(original, length, now, draw) == stem + SplitExt(original).1;
    SplitExtOfPlainName(stem, SplitExt(original).1);
  }

  /** The parts of the unique name appear in the documented order
      `name_timestamp_id.ext`. */
  lemma UniqueFilenameLayout(original: string, length: int, now: DateTime, draw: nat -> Draw)
    requires ValidDateTime(now)
    ensures var result := UniqueFilename(original, length, now, draw);
            var safe := SafeName(SplitExt(original).0);
            var ext := SplitExt(original).1;
            var id := ShortId(length, draw);
            && |result| == |safe| + 14 + |id| + |ext|
            && result[..|safe|] == safe
            && result[|safe|] == '_'
            && result[|safe| + 1..|safe| + 13] == Timestamp(now)
            && result[|safe| + 13] == '_'
            && result[|safe| + 14..|safe| + 14 + |id|] == id
            && result[|result| - |ext|..] == ext
  {
    TimestampRoundTrip(now);
  }
}
