/**
 * Dates as text: the "YYYY-MM-DD" local form the ledger stores, the Turkish
 * "DD.MM.YYYY" display form, the dated backup file name, and the two file-name
 * patterns the ledger searches for when a backup carries no sync time.
 */
module DateText {
  import opened Common
  import opened Calendar

  predicate IsDigit(c: char)
  {
    '0' <= c <= '9'
  }

  function DigitChar(n: int): (c: char)
    requires 0 <= n < 10
    ensures IsDigit(c)
  {
    ['0', '1', '2', '3', '4', '5', '6', '7', '8', '9'][n]
  }

  function DigitValue(c: char): (n: int)
    requires IsDigit(c)
    ensures 0 <= n < 10
    ensures DigitChar(n) == c
  {
    c as int - '0' as int
  }

  /** `String(n)` for a natural number: decimal digits, no leading zeros. */
  function NatToString(n: nat): (s: string)
    ensures 1 <= |s|
    ensures forall i :: 0 <= i < |s| ==> IsDigit(s[i])
    decreases n
  {
    if n < 10 then [DigitChar(n)] else NatToString(n / 10) + [DigitChar(n % 10)]
  }

  /** `String(n)` for any integer. */
  function IntToString(n: int): string
  {
    if n < 0 then "-" + NatToString(-n) else NatToString(n)
  }

  /** The value of a run of decimal digits, as `parseInt` reads it. */
  function DigitsValue(s: string): (n: nat)
    requires forall i :: 0 <= i < |s| ==> IsDigit(s[i])
    decreases |s|
  {
    if |s| == 0 then 0 else DigitsValue(s[..|s| - 1]) * 10 + DigitValue(s[|s| - 1])
  }

  /** Reading back the decimal form of a number gives the number. */
  lemma {:induction false} NatToStringRoundTrip(n: nat)
    ensures DigitsValue(NatToString(n)) == n
    decreases n
  {
    if n >= 10 {
      var q, r := n / 10, n % 10;
      var s, t := NatToString(n), NatToString(q);
      assert s == t + [DigitChar(r)];
      assert s[..|s| - 1] == t;
      NatToStringRoundTrip(q);
      assert DigitsValue(s) == q * 10 + r;
    }
  }

  /** Every four-digit number is written with exactly four characters. */
  lemma FourDigits(n: nat)
    requires 1000 <= n <= 9999
    ensures |NatToString(n)| == 4
  {
    var a, b, c := n / 10, n / 100, n / 1000;
    assert b == a / 10 && c == b / 10 && 1 <= c < 10;
    assert |NatToString(c)| == 1;
    assert |NatToString(b)| == 2;
    assert |NatToString(a)| == 3;
  }

  /** `String(n).padStart(2, '0')`. */
  function Pad2(n: nat): (s: string)
    ensures n < 100 ==> |s| == 2
    ensures forall i :: 0 <= i < |s| ==> IsDigit(s[i])
    ensures DigitsValue(s) == n
  {
    NatToStringRoundTrip(n);
    if n < 10 then
      var t := NatToString(n);
      assert DigitsValue(t[..0]) == 0;
      assert "0" + t == [DigitChar(0), t[0]];
      assert ("0" + t)[..1] == "0";
      "0" + t
    else
      NatToString(n)
  }

  /**
   * getLocalDateISO: the year as `String` writes it, then the month and the day
   * padded to two digits, joined by '-'.
   */
  function LocalDateISO(d: Date): (s: string)
    requires IsCalendarDate(d)
    ensures d.year >= 0 ==> |s| == |NatToString(d.year)| + 6
  {
    IntToString(d.year) + "-" + Pad2(d.month) + "-" + Pad2(d.day)
  }

  /** `s.split(sep)`: the pieces between the separators, from left to right. */
  function Split(s: string, sep: char): (parts: seq<string>)
    ensures 1 <= |parts|
    decreases |s|
  {
    if |s| == 0 then [""]
    else
      var init := Split(s[..|s| - 1], sep);
      var c := s[|s| - 1];
      if c == sep then init + [""]
      else init[..|init| - 1] + [init[|init| - 1] + [c]]
  }

  /** A string without the separator is not split. */
  lemma {:induction false} SplitNone(s: string, sep: char)
    requires sep !in s
    ensures Split(s, sep) == [s]
    decreases |s|
  {
    if |s| > 0 {
      assert sep !in s[..|s| - 1];
      SplitNone(s[..|s| - 1], sep);
      assert s[..|s| - 1] + [s[|s| - 1]] == s;
    }
  }

  /** Splitting after a separator continues the parts found before it. */
  lemma {:induction false} SplitJoin(a: string, sep: char, b: string)
    requires sep !in b
    ensures Split(a + [sep] + b, sep) == Split(a, sep) + [b]
    decreases |b|
  {
    var s := a + [sep] + b;
    if |b| == 0 {
      assert s[..|s| - 1] == a;
    } else {
      var b' := b[..|b| - 1];
      assert sep !in b';
      SplitJoin(a, sep, b');
      assert s[..|s| - 1] == a + [sep] + b';
      assert b' + [b[|b| - 1]] == b;
    }
  }

  /** `p[i]` in a template string: the part, or "undefined" past the end. */
  function PartOrUndefined(parts: seq<string>, i: nat): string
  {
    if i < |parts| then parts[i] else "undefined"
  }

  /** formatDateTR: "YYYY-MM-DD" becomes "DD.MM.YYYY" by splitting on '-'. */
  function FormatDateTR(iso: string): string
  {
    var p := Split(iso, '-');
    PartOrUndefined(p, 2) + "." + PartOrUndefined(p, 1) + "." + PartOrUndefined(p, 0)
  }

  /** Text without a '-' is shown with both missing parts as "undefined". */
  lemma FormatWithoutSeparator(iso: string)
    requires '-' !in iso
    ensures FormatDateTR(iso) == "undefined.undefined." + iso
  {
    SplitNone(iso, '-');
    var p := Split(iso, '-');
    assert PartOrUndefined(p, 2) == "undefined" && PartOrUndefined(p, 1) == "undefined";
    assert PartOrUndefined(p, 0) == iso;
  }

  /** The Turkish display form of a stored date reverses its three parts. */
  lemma FormatStoredDate(d: Date)
    requires IsCalendarDate(d) && d.year >= 0
    ensures FormatDateTR(LocalDateISO(d)) == Pad2(d.day) + "." + Pad2(d.month) + "." + NatToString(d.year)
  {
    var y, m, dd := NatToString(d.year), Pad2(d.month), Pad2(d.day);
    assert LocalDateISO(d) == y + ['-'] + m + ['-'] + dd;
    SplitNone(y, '-');
    SplitJoin(y, '-', m);
    SplitJoin(y + ['-'] + m, '-', dd);
  }

  /** isValidDate: a date is given and its year lies in 2000..2100. */
  predicate IsValidDate(d: Option<Date>)
  {
    d.Some? && 2000 <= d.value.year <= 2100
  }

  const BackupSuffix: string := " tarihli Cebimdeki Kasa.json"

  /** getBackupFileName: "DD.MM.YYYY tarihli Cebimdeki Kasa.json" for the given day. */
  function BackupFileName(d: Date): (name: string)
    requires IsCalendarDate(d) && d.year >= 0
    ensures name == FormatDateTR(LocalDateISO(d)) + BackupSuffix
  {
    FormatStoredDate(d);
    Pad2(d.day) + "." + Pad2(d.month) + "." + NatToString(d.year) + BackupSuffix
  }

  /** One position of a file-name pattern: any decimal digit, or one fixed character. */
  datatype Pattern = AnyDigit | Exactly(c: char)

  predicate Fits(c: char, p: Pattern)
  {
    match p
    case AnyDigit => IsDigit(c)
    case Exactly(x) => c == x
  }

  /** `(\d{4})-(\d{2})-(\d{2})` */
  const IsoPattern: seq<Pattern> :=
    [AnyDigit, AnyDigit, AnyDigit, AnyDigit, Exactly('-'), AnyDigit, AnyDigit, Exactly('-'), AnyDigit, AnyDigit]

  /** `(\d{2})\.(\d{2})\.(\d{4})` */
  const DotPattern: seq<Pattern> :=
    [AnyDigit, AnyDigit, Exactly('.'), AnyDigit, AnyDigit, Exactly('.'), AnyDigit, AnyDigit, AnyDigit, AnyDigit]

  predicate MatchesAt(s: string, i: nat, pat: seq<Pattern>)
  {
    i + |pat| <= |s| && forall k :: 0 <= k < |pat| ==> Fits(s[i + k], pat[k])
  }

  /** `String.match` without the global flag: the leftmost position at or after `from` where `pat` matches. */
  function FirstMatch(s: string, pat: seq<Pattern>, from: nat): (r: Option<nat>)
    ensures r.Some? ==> from <= r.value && MatchesAt(s, r.value, pat)
    ensures r.Some? ==> forall j :: from <= j < r.value ==> !MatchesAt(s, j, pat)
    ensures r.None? ==> forall j :: from <= j ==> !MatchesAt(s, j, pat)
    decreases |s| - from
  {
    if from + |pat| > |s| then None
    else if MatchesAt(s, from, pat) then Some(from)
    else FirstMatch(s, pat, from + 1)
  }

  /** The number written at offsets `off .. off + n` of a match of `pat` at `i`, where `pat` has digits. */
  function DigitRun(s: string, i: nat, pat: seq<Pattern>, off: nat, n: nat): nat
    requires MatchesAt(s, i, pat) && off + n <= |pat|
    requires forall k :: off <= k < off + n ==> pat[k] == AnyDigit
  {
    var run := s[i + off..i + off + n];
    assert forall j :: 0 <= j < n ==> run[j] == s[i + (off + j)] && Fits(s[i + (off + j)], pat[off + j]);
    DigitsValue(run)
  }

  /**
   * The date a file name carries, as the ledger reads it back: the leftmost
   * "YYYY-MM-DD" if there is one, otherwise the leftmost "DD.MM.YYYY", as the
   * (year, month, day) numbers found.
   */
  function FileNameDate(name: string): (r: Option<Date>)
  {
    match FirstMatch(name, IsoPattern, 0)
    case Some(i) =>
      Some(Date(DigitRun(name, i, IsoPattern, 0, 4), DigitRun(name, i, IsoPattern, 5, 2), DigitRun(name, i, IsoPattern, 8, 2)))
    case None =>
      match FirstMatch(name, DotPattern, 0)
      case Some(i) =>
        Some(Date(DigitRun(name, i, DotPattern, 6, 4), DigitRun(name, i, DotPattern, 3, 2), DigitRun(name, i, DotPattern, 0, 2)))
      case None => None
  }

  /** Neither the padded numbers nor the fixed text of a backup name contain a '-'. */
  lemma BackupFileNameHasNoDash(d: Date)
    requires IsCalendarDate(d) && d.year >= 0
    ensures '-' !in BackupFileName(d)
  {
    var dd, mm, yyyy := Pad2(d.day), Pad2(d.month), NatToString(d.year);
    assert '-' !in dd by { assert forall k :: 0 <= k < |dd| ==> IsDigit(dd[k]); }
    assert '-' !in mm by { assert forall k :: 0 <= k < |mm| ==> IsDigit(mm[k]); }
    assert '-' !in yyyy by { assert forall k :: 0 <= k < |yyyy| ==> IsDigit(yyyy[k]); }
    assert '-' !in BackupSuffix;
    assert BackupFileName(d) == dd + "." + mm + "." + yyyy + BackupSuffix;
  }

  /** A name without a '-' has no "YYYY-MM-DD" in it. */
  lemma NoIsoMatchWithoutDash(name: string)
    requires '-' !in name
    ensures FirstMatch(name, IsoPattern, 0).None?
  {
    forall j: nat
      ensures !MatchesAt(name, j, IsoPattern)
    {
      if j + |IsoPattern| <= |name| {
        assert name[j + 4] in name;
        assert !Fits(name[j + 4], IsoPattern[4]);
      }
    }
  }

  /**
   * Generating a backup file name and reading its date back gives the same day,
   * for every four-digit year.
   */
  lemma BackupFileNameRoundTrip(d: Date)
    requires IsCalendarDate(d) && 1000 <= d.year <= 9999
    ensures FileNameDate(BackupFileName(d)) == Some(d)
  {
    var dd, mm, yyyy := Pad2(d.day), Pad2(d.month), NatToString(d.year);
    FourDigits(d.year);
    NatToStringRoundTrip(d.year);
    var name := BackupFileName(d);
    BackupFileNameHasNoDash(d);
    NoIsoMatchWithoutDash(name);
    assert name == dd + "." + mm + "." + yyyy + BackupSuffix;
    assert name[0..2] == dd && name[2] == '.' && name[3..5] == mm && name[5] == '.' && name[6..10] == yyyy;
    assert MatchesAt(name, 0, DotPattern) by {
      forall k | 0 <= k < |DotPattern|
        ensures Fits(name[k], DotPattern[k])
      {
        if k < 2 {
          assert name[k] == dd[k];
        } else if 3 <= k < 5 {
          assert name[k] == mm[k - 3];
        } else if 6 <= k {
          assert name[k] == yyyy[k - 6];
        }
      }
    }
    assert FirstMatch(name, DotPattern, 0) == Some(0);
  }
}
