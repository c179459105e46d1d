/** The handful of Python string operations the scanner relies on: `str.strip`,
    `str.rstrip("/")` and `str.lstrip("/")`, `str.split`, `str.replace`,
    `str.lower`, `int(...)` on a string and `str(...)` on an integer. */
module Text {
  import opened Wrappers

  /** Python's `str.isspace`: the characters `str.strip()` and `int()` discard. */
  predicate IsSpace(c: char) {
    || ('\t' <= c <= '\r')
    || ('\U{1C}' <= c <= ' ')
    || c == '\U{85}' || c == '\U{A0}' || c == '\U{1680}'
    || ('\U{2000}' <= c <= '\U{200A}')
    || c == '\U{2028}' || c == '\U{2029}' || c == '\U{202F}'
    || c == '\U{205F}' || c == '\U{3000}'
  }

  /** Neither end of `s` is whitespace. */
  predicate IsStripped(s: string) {
    s == [] || (!IsSpace(s[0]) && !IsSpace(s[|s| - 1]))
  }

  /** `s.lstrip()`: a suffix of `s`; everything cut off is whitespace. */
  function TrimStart(s: string): (r: string)
    ensures |r| <= |s| && r == s[|s| - |r|..]
    ensures r == [] || !IsSpace(r[0])
    ensures forall i :: 0 <= i < |s| - |r| ==> IsSpace(s[i])
  {
    if |s| > 0 && IsSpace(s[0]) then TrimStart(s[1..]) else s
  }

  /** `s.rstrip()`: a prefix of `s`; everything cut off is whitespace. */
  function TrimEnd(s: string): (r: string)
    ensures |r| <= |s| && r == s[..|r|]
    ensures r == [] || !IsSpace(r[|r| - 1])
    ensures forall i :: |r| <= i < |s| ==> IsSpace(s[i])
  {
    if |s| > 0 && IsSpace(s[|s| - 1]) then TrimEnd(s[..|s| - 1]) else s
  }

  /** `s.strip()`. */
  function Strip(s: string): (r: string)
    ensures IsStripped(r)
    ensures |r| <= |s|
  {
    TrimEnd(TrimStart(s))
  }

  /** A string with no whitespace at either end is its own strip. */
  lemma StripStripped(s: string)
    requires IsStripped(s)
    ensures Strip(s) == s
  {
  }

  /** Stripping twice is stripping once. */
  lemma StripIdempotent(s: string)
    ensures Strip(Strip(s)) == Strip(s)
  {
    StripStripped(Strip(s));
  }

  /** Stripping removes exactly the surrounding whitespace `a` and `b` from a
      non-empty stripped string `s`. */
  lemma StripPadded(a: string, s: string, b: string)
    requires forall i :: 0 <= i < |a| ==> IsSpace(a[i])
    requires forall i :: 0 <= i < |b| ==> IsSpace(b[i])
    requires s != "" && IsStripped(s)
    ensures Strip(a + s + b) == s
  {
    assert a + s + b == a + (s + b);
    TrimStartSpaces(a, s + b);
    TrimEndSpaces(s, b);
  }

  lemma {:induction false} TrimStartSpaces(w: string, s: string)
    requires forall i :: 0 <= i < |w| ==> IsSpace(w[i])
    requires s == [] || !IsSpace(s[0])
    ensures TrimStart(w + s) == s
  {
    if |w| == 0 {
      assert w + s == s;
    } else {
      assert (w + s)[1..] == w[1..] + s;
      TrimStartSpaces(w[1..], s);
    }
  }

  lemma {:induction false} TrimEndSpaces(s: string, w: string)
    requires forall i :: 0 <= i < |w| ==> IsSpace(w[i])
    requires s == [] || !IsSpace(s[|s| - 1])
    ensures TrimEnd(s + w) == s
  {
    if |w| == 0 {
      assert s + w == s;
    } else {
      var sw := s + w;
      assert sw[..|sw| - 1] == s + w[..|w| - 1];
      TrimEndSpaces(s, w[..|w| - 1]);
    }
  }

  /** `s.lstrip(c)` for one character `c`. */
  function LStripChar(s: string, c: char): (r: string)
    ensures |r| <= |s| && r == s[|s| - |r|..]
    ensures r == [] || r[0] != c
    ensures forall i :: 0 <= i < |s| - |r| ==> s[i] == c
  {
    if |s| > 0 && s[0] == c then LStripChar(s[1..], c) else s
  }

  /** `s.rstrip(c)` for one character `c`. */
  function RStripChar(s: string, c: char): (r: string)
    ensures |r| <= |s| && r == s[..|r|]
    ensures r == [] || r[|r| - 1] != c
    ensures forall i :: |r| <= i < |s| ==> s[i] == c
  {
    if |s| > 0 && s[|s| - 1] == c then RStripChar(s[..|s| - 1], c) else s
  }

  /** `s.split(sep)` for one separator character: empty pieces are kept, so
      the result always has at least one piece. */
  function Split(s: string, sep: char): (parts: seq<string>)
    ensures |parts| >= 1
  {
    if |s| == 0 then [""]
    else
      var rest := Split(s[1..], sep);
      if s[0] == sep then [""] + rest
      else [[s[0]] + rest[0]] + rest[1..]
  }

  /** `sep.join(parts)`. */
  function Join(parts: seq<string>, sep: char): string {
    if |parts| == 0 then ""
    else if |parts| == 1 then parts[0]
    else parts[0] + [sep] + Join(parts[1..], sep)
  }

  /** Splitting loses nothing: joining the pieces gives the string back. */
  lemma {:induction false} JoinSplit(s: string, sep: char)
    ensures Join(Split(s, sep), sep) == s
  {
    if |s| > 0 {
      var rest := Split(s[1..], sep);
      JoinSplit(s[1..], sep);
      if s[0] == sep {
        assert Split(s, sep) == [""] + rest;
        assert ([""] + rest)[1..] == rest;
      } else if |rest| == 1 {
        assert Split(s, sep) == [[s[0]] + rest[0]];
      } else {
        var parts := Split(s, sep);
        assert parts[1..] == rest[1..];
        assert Join(rest, sep) == rest[0] + [sep] + Join(rest[1..], sep);
        assert s == [s[0]] + s[1..];
      }
    }
  }

  /** A string without the separator is one piece. */
  lemma {:induction false} SplitWithoutSep(s: string, sep: char)
    requires sep !in s
    ensures Split(s, sep) == [s]
  {
    if |s| > 0 {
      SplitWithoutSep(s[1..], sep);
      assert [s[0]] + s[1..] == s;
    }
  }

  /** Splitting at a separator splits the pieces of both sides. */
  lemma {:induction false} SplitAppend(a: string, b: string, sep: char)
    ensures Split(a + [sep] + b, sep) == Split(a, sep) + Split(b, sep)
  {
    var s := a + [sep] + b;
    if |a| == 0 {
      assert s[1..] == b;
    } else {
      assert s[0] == a[0] && s[1..] == a[1..] + [sep] + b;
      SplitAppend(a[1..], b, sep);
      var restA, tail := Split(a[1..], sep), Split(b, sep);
      SplitFront(s, sep);
      SplitFront(a, sep);
      if a[0] == sep {
        assert [""] + (restA + tail) == ([""] + restA) + tail;
      } else {
        ConsPieces(a[0], restA, tail);
      }
    }
  }

  /** `Split` one character at a time. */
  lemma SplitFront(s: string, sep: char)
    requires |s| > 0
    ensures var rest := Split(s[1..], sep);
      Split(s, sep) == if s[0] == sep then [""] + rest else [[s[0]] + rest[0]] + rest[1..]
  {
  }

  lemma ConsPieces(c: char, restA: seq<string>, tail: seq<string>)
    requires |restA| > 0
    ensures var rest := restA + tail;
      [[c] + rest[0]] + rest[1..] == ([[c] + restA[0]] + restA[1..]) + tail
  {
    var rest := restA + tail;
    assert rest[0] == restA[0] && rest[1..] == restA[1..] + tail;
  }

  /** The position of the first `c` in `s` (what `s.split(c, 1)` cuts at). */
  function FirstIndex(s: string, c: char): (i: nat)
    requires c in s
    ensures i < |s| && s[i] == c && c !in s[..i]
  {
    if s[0] == c then 0
    else
      var j := FirstIndex(s[1..], c);
      assert s[..j + 1] == [s[0]] + s[1..][..j];
      j + 1
  }

  /** The first `c` is at `j` when `s[j]` is `c` and no `c` comes before. */
  lemma FirstIndexAt(s: string, c: char, j: nat)
    requires j < |s| && s[j] == c && c !in s[..j]
    ensures FirstIndex(s, c) == j
  {
  }

  predicate IsDigit(c: char) {
    '0' <= c <= '9'
  }

  /** A non-empty run of ASCII decimal digits. */
  predicate IsDigits(s: string) {
    |s| > 0 && forall i :: 0 <= i < |s| ==> IsDigit(s[i])
  }

  /** A run of digits holds no character that is not a digit. */
  lemma DigitsExclude(s: string, c: char)
    requires IsDigits(s) && !IsDigit(c)
    ensures c !in s
  {
    forall i | 0 <= i < |s| ensures s[i] != c {
      assert IsDigit(s[i]);
    }
  }

  function DigitValue(c: char): nat
    requires IsDigit(c)
  {
    c as int - '0' as int
  }

  function DigitChar(d: nat): (c: char)
    requires d < 10
    ensures IsDigit(c) && DigitValue(c) == d
  {
    ('0' as int + d) as char
  }

  /** The number a decimal digit string denotes (leading zeros allowed). */
  function DigitsValue(s: string): nat
    requires forall i :: 0 <= i < |s| ==> IsDigit(s[i])
  {
    if |s| == 0 then 0 else DigitsValue(s[..|s| - 1]) * 10 + DigitValue(s[|s| - 1])
  }

  /** `str(n)` for a non-negative integer: its shortest decimal numeral. */
  function NatToString(n: nat): string {
    if n < 10 then [DigitChar(n)] else NatToString(n / 10) + [DigitChar(n % 10)]
  }

  /** The numeral of `n` is a non-empty run of digits, so it has no sign and
      no surrounding whitespace. */
  lemma {:induction false} NatToStringDigits(n: nat)
    ensures IsDigits(NatToString(n))
    ensures NatToString(n)[0] != '-' && IsStripped(NatToString(n))
  {
    if n >= 10 {
      NatToStringDigits(n / 10);
    }
  }

  /** The numeral of `n` denotes `n`. */
  lemma {:induction false} NatToStringValue(n: nat)
    ensures IsDigits(NatToString(n)) && DigitsValue(NatToString(n)) == n
  {
    NatToStringDigits(n);
    if n >= 10 {
      NatToStringValue(n / 10);
      var s := NatToString(n);
      assert s[..|s| - 1] == NatToString(n / 10);
    }
  }

  /** `str(n)` for any integer. */
  function IntToString(n: int): string {
    if n < 0 then "-" + NatToString(-n) else NatToString(n)
  }

  /** The most decimal digits Python's `int()` converts (the default of
      `sys.get_int_max_str_digits()`); a longer numeral is a `ValueError`. */
  const MaxIntDigits := 4300

  /** `str(n)` has at most `MaxIntDigits` digits, so `int()` can read it. */
  predicate WithinDigitLimit(n: int) {
    |NatToString(if n < 0 then -n else n)| <= MaxIntDigits
  }

  /** `int(s)` on a string: optional surrounding whitespace, an optional sign
      and from one to `MaxIntDigits` ASCII digits; anything else is a
      `ValueError` (`None`). */
  function ParseInt(s: string): Option<int> {
    var t := Strip(s);
    if |t| > 0 && (t[0] == '-' || t[0] == '+') then
      if IsDigits(t[1..]) && |t| - 1 <= MaxIntDigits then
        var v: int := DigitsValue(t[1..]);
        Some(if t[0] == '-' then -v else v)
      else None
    else if IsDigits(t) && |t| <= MaxIntDigits then Some(DigitsValue(t))
    else None
  }

  /** `int(str(n)) == n` for every integer whose numeral is within the digit
      limit. */
  lemma ParseIntToString(n: int)
    requires WithinDigitLimit(n)
    ensures ParseInt(IntToString(n)) == Some(n)
  {
    var s := IntToString(n);
    NatToStringDigits(if n < 0 then -n else n);
    StripStripped(s);
    if n < 0 {
      NatToStringValue(-n);
      assert s[1..] == NatToString(-n);
    } else {
      NatToStringValue(n);
    }
  }

  /** A run of more than `MaxIntDigits` digits is not a number, whatever its
      sign and surrounding whitespace. */
  lemma ParseIntTooLong(s: string)
    requires IsDigits(Strip(s)) && |Strip(s)| > MaxIntDigits
    ensures ParseInt(s) == None
  {
  }

  /** A string of whitespace only is not a number. */
  lemma ParseIntBlank(s: string)
    requires Strip(s) == ""
    ensures ParseInt(s) == None
  {
  }

  /** `s.replace(pat, rep)`: every non-overlapping occurrence of `pat`, scanned
      from the left, is replaced by `rep`. */
  function ReplaceAll(s: string, pat: string, rep: string): string
    requires |pat| > 0
    decreases |s|
  {
    if |s| < |pat| then s
    else if s[..|pat|] == pat then rep + ReplaceAll(s[|pat|..], pat, rep)
    else [s[0]] + ReplaceAll(s[1..], pat, rep)
  }

  /** Replacing one character by another maps the string character by
      character. */
  lemma {:induction false} ReplaceCharAt(s: string, c: char, d: char)
    ensures |ReplaceAll(s, [c], [d])| == |s|
    ensures forall i :: 0 <= i < |s| ==>
      ReplaceAll(s, [c], [d])[i] == (if s[i] == c then d else s[i])
  {
    if |s| > 0 {
      ReplaceCharAt(s[1..], c, d);
      assert s[..1] == [s[0]];
      assert s[1..] == s[|[c]|..];
    }
  }

  /** Text that cannot start an occurrence of `pat` is copied unchanged. */
  lemma {:induction false} ReplaceSkipsPrefix(a: string, s: string, pat: string, rep: string)
    requires |pat| > 0 && pat[0] !in a
    ensures ReplaceAll(a + s, pat, rep) == a + ReplaceAll(s, pat, rep)
  {
    if |a| > 0 {
      var t := a + s;
      assert t[0] == a[0];
      assert t[1..] == a[1..] + s;
      ReplaceSkipsPrefix(a[1..], s, pat, rep);
      if |t| < |pat| {
        assert ReplaceAll(s, pat, rep) == s;
      } else {
        assert t[..|pat|][0] != pat[0];
      }
    } else {
      assert a + s == s;
    }
  }

  /** An occurrence of `pat` at the front is replaced. */
  lemma ReplaceAtFront(s: string, pat: string, rep: string)
    requires |pat| > 0
    ensures ReplaceAll(pat + s, pat, rep) == rep + ReplaceAll(s, pat, rep)
  {
    var ps := pat + s;
    assert ps[..|pat|] == pat;
    assert ps[|pat|..] == s;
  }

  /** `pat` occurs in `s` starting at index `i`. */
  predicate OccursAt(s: string, pat: string, i: int) {
    0 <= i && i + |pat| <= |s| && s[i..i + |pat|] == pat
  }

  /** `pat` occurs nowhere in `s`. */
  predicate NoOccurrence(s: string, pat: string) {
    forall i :: 0 <= i < |s| ==> !OccursAt(s, pat, i)
  }

  /** A string in which `pat` never occurs is left as it is. */
  lemma {:induction false} ReplaceAbsent(s: string, pat: string, rep: string)
    requires |pat| > 0 && NoOccurrence(s, pat)
    ensures ReplaceAll(s, pat, rep) == s
  {
    if |s| >= |pat| {
      assert !OccursAt(s, pat, 0);
      assert s[0..|pat|] == s[..|pat|];
      forall i | 0 <= i < |s[1..]| ensures !OccursAt(s[1..], pat, i) {
        if i + |pat| <= |s[1..]| {
          assert s[1..][i..i + |pat|] == s[i + 1..i + 1 + |pat|];
          assert !OccursAt(s, pat, i + 1);
        }
      }
      ReplaceAbsent(s[1..], pat, rep);
      assert s == [s[0]] + s[1..];
    }
  }

  function LowerChar(c: char): char {
    if 'A' <= c <= 'Z' then (c as int - 'A' as int + 'a' as int) as char else c
  }

  /** `s.lower()` restricted to ASCII letters. */
  function Lower(s: string): (r: string)
    ensures |r| == |s|
  {
    seq(|s|, i requires 0 <= i < |s| => LowerChar(s[i]))
  }
}
