/**
  The text side of date entry: Python's `str.strip()`, the pattern
  `^\d{4}/\d{2}/\d{2}$` (ASCII digits), `datetime.strptime(text, "%Y/%m/%d")`
  and the `YYYY/MM/DD` rendering of a date.
 */
module DateText {
  import opened Calendar

  /** The characters for which Python's `str.isspace()` holds. */
  predicate IsSpace(c: char) {
    var n := c as int;
    (9 <= n <= 13) || (28 <= n <= 32) || n == 0x85 || n == 0xA0 || n == 0x1680
    || (0x2000 <= n <= 0x200A) || n == 0x2028 || n == 0x2029 || n == 0x202F
    || n == 0x205F || n == 0x3000
  }

  /** `s` with its leading white space removed. */
  function TrimStart(s: string): string {
    if s != [] && IsSpace(s[0]) then TrimStart(s[1..]) else s
  }

  /** `s` with its trailing white space removed. */
  function TrimEnd(s: string): string {
    if s != [] && IsSpace(s[|s| - 1]) then TrimEnd(s[..|s| - 1]) else s
  }

  /** Trimming the start drops a prefix of white space and stops at the first other character. */
  lemma {:induction false} TrimStartShape(s: string)
    ensures var r := TrimStart(s);
      |r| <= |s| && r == s[|s| - |r|..]
      && (forall k :: 0 <= k < |s| - |r| ==> IsSpace(s[k]))
      && (r != [] ==> !IsSpace(r[0]))
  {
    if s != [] && IsSpace(s[0]) {
      TrimStartShape(s[1..]);
      var r := TrimStart(s[1..]);
      forall k | 0 <= k < |s| - |r| ensures IsSpace(s[k]) {
        if k > 0 {
          assert s[k] == s[1..][k - 1];
        }
      }
    }
  }

  /** Trimming the end drops a suffix of white space and stops at the last other character. */
  lemma {:induction false} TrimEndShape(s: string)
    ensures var r := TrimEnd(s);
      |r| <= |s| && r == s[..|r|]
      && (forall k :: |r| <= k < |s| ==> IsSpace(s[k]))
      && (r != [] ==> !IsSpace(r[|r| - 1]))
  {
    if s != [] && IsSpace(s[|s| - 1]) {
      TrimEndShape(s[..|s| - 1]);
      var r := TrimEnd(s[..|s| - 1]);
      forall k | |r| <= k < |s| ensures IsSpace(s[k]) {
        if k < |s| - 1 {
          assert s[k] == s[..|s| - 1][k];
        }
      }
    }
  }

  /** `str.strip()` with no argument. */
  function Strip(s: string): string {
    TrimEnd(TrimStart(s))
  }

  /**
    `r` is the piece of `s` starting at `i` that neither starts nor ends with
    white space, and everything of `s` around it is white space.
   */
  predicate TrimmedAt(s: string, r: string, i: int) {
    && 0 <= i <= |s| - |r| && r == s[i..i + |r|]
    && (forall k :: 0 <= k < i ==> IsSpace(s[k]))
    && (forall k :: i + |r| <= k < |s| ==> IsSpace(s[k]))
    && (r != [] ==> !IsSpace(r[0]) && !IsSpace(r[|r| - 1]))
  }

  /** Trimming both ends of `s`, seen on the pieces alone. */
  lemma TrimmedPiece(s: string, t: string, r: string)
    requires |t| <= |s| && t == s[|s| - |t|..] && (forall k :: 0 <= k < |s| - |t| ==> IsSpace(s[k]))
    requires t != [] ==> !IsSpace(t[0])
    requires |r| <= |t| && r == t[..|r|] && (forall k :: |r| <= k < |t| ==> IsSpace(t[k]))
    requires r != [] ==> !IsSpace(r[|r| - 1])
    ensures TrimmedAt(s, r, |s| - |t|)
  {
    var i := |s| - |t|;
    forall k | i + |r| <= k < |s| ensures IsSpace(s[k]) {
      assert s[k] == t[k - i];
    }
    if r != [] {
      assert r[0] == t[0];
    }
  }

  /**
    What strip keeps is a contiguous piece of the input that neither starts nor
    ends with white space, and what it drops on both sides is white space only.
   */
  lemma StripShape(s: string)
    ensures TrimmedAt(s, Strip(s), |s| - |TrimStart(s)|)
  {
    var t := TrimStart(s);
    TrimStartShape(s);
    TrimEndShape(t);
    TrimmedPiece(s, t, TrimEnd(t));
  }

  /** Strip leaves a string without surrounding white space as it is. */
  lemma StripIdempotent(s: string)
    ensures Strip(Strip(s)) == Strip(s)
  {
    var r := Strip(s);
    StripShape(s);
    if r != [] {
      assert TrimStart(r) == r;
      assert TrimEnd(r) == r;
    }
  }

  /** Euclidean division by the decimal place values the pattern uses. */
  lemma DivModBy(n: int, k: int, q: int, r: int)
    requires k == 10 || k == 100 || k == 1000
    requires 0 <= r < k && n == k * q + r
    ensures n / k == q && n % k == r
  {
    if k == 10 {
    } else if k == 100 {
    } else {
    }
  }

  predicate IsAsciiDigit(c: char) {
    '0' <= c <= '9'
  }

  /** `re.match(r'^\d{4}/\d{2}/\d{2}$', s)` succeeds (on a stripped string, with ASCII digits). */
  predicate MatchesDatePattern(s: string) {
    |s| == 10 && s[4] == '/' && s[7] == '/'
    && forall k :: 0 <= k < 10 && k != 4 && k != 7 ==> IsAsciiDigit(s[k])
  }

  function DigitValue(c: char): int
    requires IsAsciiDigit(c)
  {
    c as int - '0' as int
  }

  function DigitChar(n: int): (c: char)
    requires 0 <= n <= 9
    ensures IsAsciiDigit(c) && DigitValue(c) == n
  {
    ('0' as int + n) as char
  }

  /** The year, month and day fields of a string that matches the pattern, read as decimals. */
  function Fields(s: string): Ymd
    requires MatchesDatePattern(s)
  {
    Ymd(DigitValue(s[0]) * 1000 + DigitValue(s[1]) * 100 + DigitValue(s[2]) * 10 + DigitValue(s[3]),
        DigitValue(s[5]) * 10 + DigitValue(s[6]),
        DigitValue(s[8]) * 10 + DigitValue(s[9]))
  }

  /** Fields that fit the pattern's widths. */
  predicate Printable(d: Ymd) {
    0 <= d.year <= 9999 && 0 <= d.month <= 99 && 0 <= d.day <= 99
  }

  /** The zero-padded `YYYY/MM/DD` text of a date. */
  function Format(d: Ymd): string
    requires Printable(d)
  {
    [DigitChar(d.year / 1000), DigitChar(d.year / 100 % 10), DigitChar(d.year / 10 % 10), DigitChar(d.year % 10),
     '/', DigitChar(d.month / 10), DigitChar(d.month % 10),
     '/', DigitChar(d.day / 10), DigitChar(d.day % 10)]
  }

  /** The outcome of reading a stripped text as a date. */
  datatype Entry =
    | Malformed        // the pattern does not match
    | Impossible       // the pattern matches but strptime raises ValueError
    | Parsed(day: int) // the day number of the date the text names

  /**
    `re.match` followed by `datetime.strptime(s, "%Y/%m/%d").date().toordinal()`.
    The postconditions only spell out the branches for the verifier; what the
    result means is stated by `ParseEntryMeaning`.
   */
  function ParseEntry(s: string): (e: Entry)
    ensures e.Malformed? <==> !MatchesDatePattern(s)
    ensures e.Impossible? <==> MatchesDatePattern(s) && !IsValid(Fields(s))
    ensures e.Parsed? ==> MatchesDatePattern(s) && IsValid(Fields(s)) && e.day == Ordinal(Fields(s))
  {
    if !MatchesDatePattern(s) then Malformed
    else if !IsValid(Fields(s)) then Impossible
    else Parsed(Ordinal(Fields(s)))
  }

  /** The four decimal digits of a year, as the pattern and the rendering see them. */
  lemma YearDigits(y: int, a: int, b: int, c: int, e: int)
    requires 0 <= a <= 9 && 0 <= b <= 9 && 0 <= c <= 9 && 0 <= e <= 9
    requires y == a * 1000 + b * 100 + c * 10 + e
    ensures y / 1000 == a && y / 100 % 10 == b && y / 10 % 10 == c && y % 10 == e
  {
    DivModBy(y, 1000, a, b * 100 + c * 10 + e);
    DivModBy(y, 100, a * 10 + b, c * 10 + e);
    DivModBy(a * 10 + b, 10, a, b);
    DivModBy(y, 10, a * 100 + b * 10 + c, e);
    DivModBy(a * 100 + b * 10 + c, 10, a * 10 + b, c);
  }

  lemma TwoDigits(n: int, a: int, b: int)
    requires 0 <= a <= 9 && 0 <= b <= 9 && n == a * 10 + b
    ensures n / 10 == a && n % 10 == b
  {
    DivModBy(n, 10, a, b);
  }

  /** A year of at most four digits is the sum of its rendered digits. */
  lemma YearSplit(y: int)
    requires 0 <= y <= 9999
    ensures y / 1000 * 1000 + y / 100 % 10 * 100 + y / 10 % 10 * 10 + y % 10 == y
    ensures 0 <= y / 1000 <= 9
  {
    var a := y / 1000;
    var r1 := y - a * 1000;
    var b := r1 / 100;
    var r2 := r1 - b * 100;
    var c := r2 / 10;
    var e := r2 - c * 10;
    YearDigits(y, a, b, c, e);
  }

  /** Reading back the text of a date gives back its fields. */
  lemma FieldsOfFormat(d: Ymd)
    requires Printable(d)
    ensures MatchesDatePattern(Format(d)) && Fields(Format(d)) == d
  {
    YearSplit(d.year);
    var t := Format(d);
    assert DigitValue(t[0]) == d.year / 1000 && DigitValue(t[1]) == d.year / 100 % 10;
    assert DigitValue(t[2]) == d.year / 10 % 10 && DigitValue(t[3]) == d.year % 10;
    assert DigitValue(t[5]) * 10 + DigitValue(t[6]) == d.month;
    assert DigitValue(t[8]) * 10 + DigitValue(t[9]) == d.day;
  }

  /** Every text the pattern accepts is the text of its own fields. */
  lemma FormatOfFields(s: string)
    requires MatchesDatePattern(s)
    ensures Printable(Fields(s)) && Format(Fields(s)) == s
  {
    var d := Fields(s);
    forall k | 0 <= k < 10 && k != 4 && k != 7 ensures 0 <= DigitValue(s[k]) <= 9 {
      assert IsAsciiDigit(s[k]);
    }
    YearDigits(d.year, DigitValue(s[0]), DigitValue(s[1]), DigitValue(s[2]), DigitValue(s[3]));
    TwoDigits(d.month, DigitValue(s[5]), DigitValue(s[6]));
    TwoDigits(d.day, DigitValue(s[8]), DigitValue(s[9]));
    var t := Format(d);
    forall k | 0 <= k < 10 ensures t[k] == s[k] {
      if k != 4 && k != 7 {
        assert IsAsciiDigit(s[k]);
      }
    }
  }

  /**
    A text reads as a date exactly when it is the `YYYY/MM/DD` text of a valid
    date, and then it yields that date's day number; it is a format error
    exactly when the pattern does not match.
   */
  lemma ParseEntryMeaning(s: string)
    ensures ParseEntry(s).Malformed? <==> !MatchesDatePattern(s)
    ensures ParseEntry(s).Parsed? <==> exists d :: IsValid(d) && s == Format(d)
    ensures forall d :: IsValid(d) && s == Format(d) ==> ParseEntry(s) == Parsed(Ordinal(d))
  {
    forall d | IsValid(d) && s == Format(d) ensures ParseEntry(s) == Parsed(Ordinal(d)) {
      ParseEntryOfFormat(d);
    }
    if ParseEntry(s).Parsed? {
      FormatOfFields(s);
      var d := Fields(s);
      assert IsValid(d) && s == Format(d);
    }
  }

  /** The text of a valid date is accepted and yields that date's day number. */
  lemma ParseEntryOfFormat(d: Ymd)
    requires IsValid(d)
    ensures ParseEntry(Format(d)) == Parsed(Ordinal(d))
  {
    FieldsOfFormat(d);
  }
}
