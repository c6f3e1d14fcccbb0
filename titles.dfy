/**
 * The map title: violation names through `str.capitalize` joined with ", ",
 * and the two range bounds through `strftime('%b %Y')` joined with " - ".
 * `ParseMapTitle` reads a title back, so the format is shown to lose nothing.
 */
module Titles {
  import opened Wrappers
  import opened Tickets

  predicate IsLower(c: char) {
    'a' <= c <= 'z'
  }

  predicate IsUpper(c: char) {
    'A' <= c <= 'Z'
  }

  /** An ASCII lower-case letter becomes its upper-case letter; every other character stays. */
  function Upper(c: char): (r: char)
    ensures !IsLower(r)
    ensures IsLower(c) ==> IsUpper(r) && Lower(r) == c
    ensures !IsLower(c) ==> r == c
  {
    if IsLower(c) then (c as int - 32) as char else c
  }

  /** An ASCII upper-case letter becomes its lower-case letter; every other character stays. */
  function Lower(c: char): (r: char)
    ensures !IsUpper(r)
    ensures IsUpper(c) ==> IsLower(r) && (r as int - 32) as char == c
    ensures !IsUpper(c) ==> r == c
  {
    if IsUpper(c) then (c as int + 32) as char else c
  }

  /** `str.capitalize` on ASCII text: first character upper case, all others lower case. */
  function Capitalize(s: string): (r: string)
    ensures |r| == |s|
    ensures |s| > 0 ==> r[0] == Upper(s[0])
    ensures forall i :: 0 < i < |s| ==> r[i] == Lower(s[i])
  {
    if s == [] then []
    else [Upper(s[0])] + seq(|s| - 1, i requires 0 <= i < |s| - 1 => Lower(s[i + 1]))
  }

  /** A capitalized name starts with no lower-case letter and has no upper-case letter after it. */
  lemma CapitalizedShape(s: string)
    ensures |s| > 0 ==> !IsLower(Capitalize(s)[0])
    ensures forall i :: 0 < i < |s| ==> !IsUpper(Capitalize(s)[i])
  {
  }

  /** Capitalizing twice is capitalizing once. */
  lemma CapitalizeIdempotent(s: string)
    ensures Capitalize(Capitalize(s)) == Capitalize(s)
  {
    var c := Capitalize(s);
    if |s| > 0 {
      assert Upper(c[0]) == c[0];
    }
    forall i | 0 < i < |s| ensures Lower(c[i]) == c[i] {
    }
  }

  function CapitalizeAll(names: seq<string>): (r: seq<string>)
    ensures |r| == |names|
    ensures forall i :: 0 <= i < |names| ==> r[i] == Capitalize(names[i])
  {
    seq(|names|, i requires 0 <= i < |names| => Capitalize(names[i]))
  }

  /** `sep.join(parts)`: the parts in order, with `sep` between each two. */
  function Join(sep: string, parts: seq<string>): (r: string)
    ensures parts != [] ==> |parts[0]| <= |r| && r[..|parts[0]|] == parts[0]
    ensures parts != [] ==> |parts[|parts| - 1]| <= |r| && r[|r| - |parts[|parts| - 1]|..] == parts[|parts| - 1]
  {
    JoinedEnds(sep, parts);
    Joined(sep, parts)
  }

  /** The recursion behind `Join`, one part at a time. */
  function Joined(sep: string, parts: seq<string>): string {
    if parts == [] then ""
    else if |parts| == 1 then parts[0]
    else parts[0] + sep + Joined(sep, parts[1..])
  }

  /** A joined list starts with its first part and ends with its last. */
  lemma {:induction false} JoinedEnds(sep: string, parts: seq<string>)
    ensures parts != [] ==> |parts[0]| <= |Joined(sep, parts)| && Joined(sep, parts)[..|parts[0]|] == parts[0]
    ensures parts != [] ==> var r, last := Joined(sep, parts), parts[|parts| - 1];
              |last| <= |r| && r[|r| - |last|..] == last
  {
    if |parts| > 1 {
      JoinedEnds(sep, parts[1..]);
      var rest, last := Joined(sep, parts[1..]), parts[|parts| - 1];
      assert parts[1..][|parts[1..]| - 1] == last;
      var r := parts[0] + sep + rest;
      assert r[..|parts[0]|] == parts[0];
      assert r[|r| - |last|..] == rest[|rest| - |last|..];
    }
  }

  /** The joined text is every part once and a separator between each two of them. */
  lemma {:induction false} JoinLength(sep: string, parts: seq<string>)
    requires parts != []
    ensures |Join(sep, parts)| == TotalLength(parts) + (|parts| - 1) * |sep|
  {
    if |parts| > 1 {
      JoinLength(sep, parts[1..]);
    }
  }

  function TotalLength(parts: seq<string>): nat {
    if parts == [] then 0 else |parts[0]| + TotalLength(parts[1..])
  }

  /** Where part `k` starts in the joined text: after the `k` parts before it and a separator after each. */
  function JoinOffset(sep: string, parts: seq<string>, k: nat): nat
    requires k <= |parts|
  {
    if k == 0 then 0 else |parts[0]| + |sep| + JoinOffset(sep, parts[1..], k - 1)
  }

  /** The offset of part `k` is the length of the parts before it plus `k` separators. */
  lemma {:induction false} JoinOffsetIsPrefixLength(sep: string, parts: seq<string>, k: nat)
    requires k <= |parts|
    ensures JoinOffset(sep, parts, k) == TotalLength(parts[..k]) + k * |sep|
  {
    if k == 0 {
      assert parts[..0] == [];
    } else {
      JoinOffsetIsPrefixLength(sep, parts[1..], k - 1);
      assert parts[..k][1..] == parts[1..][..k - 1];
      assert k * |sep| == (k - 1) * |sep| + |sep|;
    }
  }

  /** A slice of the last of three concatenated texts is a slice of that text. */
  lemma SliceOfLast(t: string, a: string, b: string, c: string, i: nat, j: nat, lo: nat, hi: nat)
    requires t == a + b + c
    requires i <= j <= |c| && lo == |a| + |b| + i && hi == |a| + |b| + j
    ensures hi <= |t| && t[lo..hi] == c[i..j]
  {
  }

  /** A list of two or more parts joins as its first part, a separator and the join of the rest. */
  lemma JoinCons(sep: string, parts: seq<string>)
    requires |parts| >= 2
    ensures Join(sep, parts) == parts[0] + sep + Join(sep, parts[1..])
  {
  }

  /** Part `k` of the list appears in the joined text at its offset. */
  lemma {:induction false} JoinPlacesPart(sep: string, parts: seq<string>, k: nat)
    requires k < |parts|
    ensures JoinOffset(sep, parts, k) + |parts[k]| <= |Join(sep, parts)|
    ensures Join(sep, parts)[JoinOffset(sep, parts, k)..JoinOffset(sep, parts, k) + |parts[k]|] == parts[k]
  {
    if k == 0 {
      var r := Join(sep, parts);
      assert JoinOffset(sep, parts, 0) == 0;
      assert r[0..|parts[0]|] == r[..|parts[0]|] == parts[0];
    } else {
      var rest := Join(sep, parts[1..]);
      var o, n := JoinOffset(sep, parts[1..], k - 1), |parts[k]|;
      assert o + n <= |rest| && rest[o..o + n] == parts[k] by {
        JoinPlacesPart(sep, parts[1..], k - 1);
        assert parts[1..][k - 1] == parts[k];
      }
      assert Join(sep, parts) == parts[0] + sep + rest by {
        JoinCons(sep, parts);
      }
      SliceOfLast(Join(sep, parts), parts[0], sep, rest, o, o + n,
                  JoinOffset(sep, parts, k), JoinOffset(sep, parts, k) + n);
    }
  }

  /** Between part `k` and part `k + 1` the joined text holds exactly one separator. */
  lemma {:induction false} JoinPlacesSeparator(sep: string, parts: seq<string>, k: nat)
    requires k + 1 < |parts|
    ensures JoinOffset(sep, parts, k) + |parts[k]| + |sep| == JoinOffset(sep, parts, k + 1) <= |Join(sep, parts)|
    ensures Join(sep, parts)[JoinOffset(sep, parts, k) + |parts[k]|..JoinOffset(sep, parts, k + 1)] == sep
  {
    var rest := Join(sep, parts[1..]);
    assert Join(sep, parts) == parts[0] + sep + rest by {
      JoinCons(sep, parts);
    }
    if k == 0 {
      assert (parts[0] + sep + rest)[|parts[0]|..|parts[0]| + |sep|] == sep;
    } else {
      var o, n := JoinOffset(sep, parts[1..], k - 1), |parts[k]|;
      assert o + n + |sep| == JoinOffset(sep, parts[1..], k) <= |rest| && rest[o + n..JoinOffset(sep, parts[1..], k)] == sep by {
        JoinPlacesSeparator(sep, parts[1..], k - 1);
        assert parts[1..][k - 1] == parts[k];
      }
      SliceOfLast(Join(sep, parts), parts[0], sep, rest, o + n, JoinOffset(sep, parts[1..], k),
                  JoinOffset(sep, parts, k) + n, JoinOffset(sep, parts, k + 1));
    }
  }

  /** `%b` in the C locale. */
  const MONTH_ABBREVIATIONS: seq<string> :=
    ["Jan", "Feb", "Mar", "Apr", "May", "Jun", "Jul", "Aug", "Sep", "Oct", "Nov", "Dec"]

  predicate IsDigit(c: char) {
    '0' <= c <= '9'
  }

  /** The decimal digit character of the value `d`. */
  function Digit(d: nat): (c: char)
    requires d < 10
    ensures IsDigit(c)
    ensures c == "0123456789"[d]
  {
    ('0' as int + d) as char
  }

  /** The value of a decimal digit character: the digit it is written with. */
  function DigitValue(c: char): (d: nat)
    requires IsDigit(c)
    ensures d < 10
    ensures Digit(d) == c
  {
    c as int - '0' as int
  }

  /** `%Y`: the year in decimal. */
  function Decimal(n: nat): (r: string)
    ensures |r| > 0
    ensures forall i :: 0 <= i < |r| ==> IsDigit(r[i])
  {
    if n < 10 then [Digit(n)] else Decimal(n / 10) + [Digit(n % 10)]
  }

  function DigitsValue(s: string): nat
    requires forall i :: 0 <= i < |s| ==> IsDigit(s[i])
  {
    if s == [] then 0 else DigitsValue(s[..|s| - 1]) * 10 + DigitValue(s[|s| - 1])
  }

  /** Reads a decimal number; `None` for an empty text or one with a non-digit. */
  function ParseDecimal(s: string): Option<nat> {
    if s != [] && forall i :: 0 <= i < |s| ==> IsDigit(s[i]) then Some(DigitsValue(s)) else None
  }

  lemma {:induction false} DecimalRoundTrip(n: nat)
    ensures ParseDecimal(Decimal(n)) == Some(n)
  {
    var s := Decimal(n);
    if n < 10 {
      assert s[..0] == [];
      assert DigitValue(Digit(n)) == n;
      assert DigitsValue(s) == DigitsValue(s[..0]) * 10 + DigitValue(s[0]);
      assert DigitsValue(s) == n;
    } else {
      DecimalRoundTrip(n / 10);
      assert s[..|s| - 1] == Decimal(n / 10);
      assert DigitValue(Digit(n % 10)) == n % 10;
    }
  }

  /** Years of pandas' timestamp range (1677 to 2262) print with four digits. */
  lemma FourDigitYear(n: nat)
    requires 1000 <= n <= 9999
    ensures |Decimal(n)| == 4
  {
    assert |Decimal(n / 1000)| == 1;
    assert |Decimal(n / 100)| == 2;
    assert |Decimal(n / 10)| == 3;
  }

  /** `strftime('%b %Y')` of the first instant of month `m`. */
  function FormatMonth(m: Month): (r: string)
    ensures |r| >= 5 && r[..3] in MONTH_ABBREVIATIONS && r[3] == ' '
    ensures forall i :: 4 <= i < |r| ==> IsDigit(r[i])
  {
    var name := MONTH_ABBREVIATIONS[m % 12];
    var r := name + " " + Decimal(m / 12);
    assert r[..3] == name;
    r
  }

  function AbbreviationIndex(s: string): (r: Option<nat>)
    ensures r.Some? ==> r.value < 12 && MONTH_ABBREVIATIONS[r.value] == s
  {
    if s == "Jan" then Some(0) else if s == "Feb" then Some(1) else if s == "Mar" then Some(2)
    else if s == "Apr" then Some(3) else if s == "May" then Some(4) else if s == "Jun" then Some(5)
    else if s == "Jul" then Some(6) else if s == "Aug" then Some(7) else if s == "Sep" then Some(8)
    else if s == "Oct" then Some(9) else if s == "Nov" then Some(10) else if s == "Dec" then Some(11)
    else None
  }

  /** Reads a `'Mon YYYY'` text back into its month. */
  function ParseMonth(s: string): Option<Month> {
    if |s| < 5 || s[3] != ' ' then None
    else
      match (AbbreviationIndex(s[..3]), ParseDecimal(s[4..]))
      case (Some(k), Some(y)) => Some(y * 12 + k)
      case _ => None
  }

  lemma AbbreviationRoundTrip(k: nat)
    requires k < 12
    ensures AbbreviationIndex(MONTH_ABBREVIATIONS[k]) == Some(k)
  {
  }

  /** Formatting a month and reading it back gives the month. */
  lemma FormatMonthRoundTrip(m: Month)
    ensures ParseMonth(FormatMonth(m)) == Some(m)
  {
    var s := FormatMonth(m);
    var name := MONTH_ABBREVIATIONS[m % 12];
    assert |name| == 3;
    assert s[..3] == name;
    assert s[3] == ' ';
    assert s[4..] == Decimal(m / 12);
    AbbreviationRoundTrip(m % 12);
    DecimalRoundTrip(m / 12);
  }

  const MAP_TITLE_PREFIX := "Ticket type: "
  const DATE_RANGE_LABEL := " & Date range: "
  const DATE_SEPARATOR := " - "

  /** The map title for the selected violation types and date range. */
  function MapTitle(violations: seq<string>, range: DateRange): (r: string)
    ensures |MAP_TITLE_PREFIX| <= |r| && r[..|MAP_TITLE_PREFIX|] == MAP_TITLE_PREFIX
    ensures |FormatMonth(range.end.month)| <= |r| &&
            r[|r| - |FormatMonth(range.end.month)|..] == FormatMonth(range.end.month)
  {
    var names := Join(", ", CapitalizeAll(violations));
    TitleAffixes(names, range);
    MAP_TITLE_PREFIX + names + DATE_RANGE_LABEL + DatesText(range)
  }

  /** Whatever the names, the title starts with its prefix and ends with the end month. */
  lemma TitleAffixes(names: string, range: DateRange)
    ensures var t := MAP_TITLE_PREFIX + names + DATE_RANGE_LABEL + DatesText(range);
            |MAP_TITLE_PREFIX| <= |t| && t[..|MAP_TITLE_PREFIX|] == MAP_TITLE_PREFIX &&
            |FormatMonth(range.end.month)| <= |t| &&
            t[|t| - |FormatMonth(range.end.month)|..] == FormatMonth(range.end.month)
  {
    Affixes(MAP_TITLE_PREFIX, names, DATE_RANGE_LABEL, DatesText(range), FormatMonth(range.end.month));
  }

  /** `" - ".join` of the two formatted bounds: it ends with the end month. */
  function DatesText(range: DateRange): (r: string)
    ensures |FormatMonth(range.end.month)| <= |r| &&
            r[|r| - |FormatMonth(range.end.month)|..] == FormatMonth(range.end.month)
  {
    var parts := [FormatMonth(range.start.month), FormatMonth(range.end.month)];
    assert parts[|parts| - 1] == FormatMonth(range.end.month);
    Join(DATE_SEPARATOR, parts)
  }

  /** A text put together from four pieces starts with the first and ends with any ending of the last. */
  lemma Affixes(a: string, b: string, c: string, d: string, e: string)
    requires |e| <= |d| && d[|d| - |e|..] == e
    ensures var t := a + b + c + d;
            |a| <= |t| && t[..|a|] == a && |e| <= |t| && t[|t| - |e|..] == e
  {
    var t := a + b + c + d;
    assert t[..|a|] == a;
    assert t[|t| - |e|..] == d[|d| - |e|..];
  }

  /**
   * Reads a map title whose two dates have four-digit years back into the
   * joined names and the two months.
   */
  function ParseMapTitle(t: string): Option<(string, Month, Month)> {
    var n := |t|;
    if n < 47 || t[..13] != MAP_TITLE_PREFIX || t[n - 34..n - 19] != DATE_RANGE_LABEL || t[n - 11..n - 8] != DATE_SEPARATOR then None
    else
      match (ParseMonth(t[n - 19..n - 11]), ParseMonth(t[n - 8..]))
      case (Some(a), Some(b)) => Some((t[13..n - 34], a, b))
      case _ => None
  }

  /** Where each part of a title with two eight-character dates sits. */
  lemma TitleLayout(names: string, a: string, b: string)
    requires |a| == 8 && |b| == 8
    ensures var t := MAP_TITLE_PREFIX + names + DATE_RANGE_LABEL + (a + DATE_SEPARATOR + b);
            var n := |t|;
            && n == |names| + 47
            && t[..13] == MAP_TITLE_PREFIX
            && t[13..n - 34] == names
            && t[n - 34..n - 19] == DATE_RANGE_LABEL
            && t[n - 19..n - 11] == a
            && t[n - 11..n - 8] == DATE_SEPARATOR
            && t[n - 8..] == b
  {
    var dates := a + DATE_SEPARATOR + b;
    var head := MAP_TITLE_PREFIX + names + DATE_RANGE_LABEL;
    var t := head + dates;
    var n := |t|;
    assert t[..|head|] == head && t[|head|..] == dates;
    assert head[..13] == MAP_TITLE_PREFIX && head[13..|head| - 15] == names && head[|head| - 15..] == DATE_RANGE_LABEL;
    assert dates[..8] == a && dates[8..11] == DATE_SEPARATOR && dates[11..] == b;
  }

  /** A title with two eight-character dates that parse reads back as its names and their months. */
  lemma ParseLaidOutTitle(names: string, a: string, b: string, ma: Month, mb: Month)
    requires |a| == 8 && |b| == 8
    requires ParseMonth(a) == Some(ma) && ParseMonth(b) == Some(mb)
    ensures ParseMapTitle(MAP_TITLE_PREFIX + names + DATE_RANGE_LABEL + (a + DATE_SEPARATOR + b)) == Some((names, ma, mb))
  {
    TitleLayout(names, a, b);
  }

  /** A month of a four-digit year prints as eight characters that read back as the month. */
  lemma FourDigitMonth(m: Month)
    requires 1000 <= m / 12 <= 9999
    ensures |FormatMonth(m)| == 8
    ensures ParseMonth(FormatMonth(m)) == Some(m)
  {
    FourDigitYear(m / 12);
    FormatMonthRoundTrip(m);
  }

  /** The title is the prefix, the names, the label and the two dates around their separator. */
  lemma MapTitleShape(violations: seq<string>, range: DateRange)
    ensures MapTitle(violations, range) ==
            MAP_TITLE_PREFIX + Join(", ", CapitalizeAll(violations)) + DATE_RANGE_LABEL +
            (FormatMonth(range.start.month) + DATE_SEPARATOR + FormatMonth(range.end.month))
  {
    var a, b := FormatMonth(range.start.month), FormatMonth(range.end.month);
    assert [a, b][1..] == [b];
    assert Joined(DATE_SEPARATOR, [b]) == b;
    assert DatesText(range) == Join(DATE_SEPARATOR, [a, b]) == a + DATE_SEPARATOR + b;
  }

  /**
   * The title carries exactly the capitalized, comma-joined names and the
   * range's two months (for years of pandas' timestamp range).
   */
  lemma MapTitleRoundTrip(violations: seq<string>, range: DateRange)
    requires 1000 <= range.start.month / 12 <= 9999 && 1000 <= range.end.month / 12 <= 9999
    ensures ParseMapTitle(MapTitle(violations, range)) ==
            Some((Join(", ", CapitalizeAll(violations)), range.start.month, range.end.month))
  {
    FourDigitMonth(range.start.month);
    FourDigitMonth(range.end.month);
    MapTitleShape(violations, range);
    ParseLaidOutTitle(Join(", ", CapitalizeAll(violations)), FormatMonth(range.start.month), FormatMonth(range.end.month),
                      range.start.month, range.end.month);
  }
}
