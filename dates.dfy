/**
 * Calendar dates as Python's `datetime.date` handles them, the two
 * `strptime` formats the bots accept ("%Y-%m-%d" and "%d.%m.%Y"), the
 * `strftime("%Y-%m-%d")` text the bots store, and the character normaliser
 * the date steps apply before parsing.
 *
 * `strptime` builds a regular expression from the format: `%Y` is four
 * digits, `%m` is one of `1[0-2]`, `0[1-9]`, `[1-9]`, and `%d` one of
 * `3[01]`, `[12]\d`, `0[1-9]`, `[1-9]`, ` [1-9]` (a space then a digit).
 * None of them can contain the separator, so a match splits the text at
 * the separators into exactly three fields; the final field must use up
 * the rest of the text. The date must then exist (year 1..9999, a day the
 * month has).
 */
module Dates {
  import opened Wrappers
  import opened Text
  import opened Ordering

  datatype Date = Date(year: int, month: int, day: int)

  predicate IsLeap(y: int)
  {
    y % 4 == 0 && (y % 100 != 0 || y % 400 == 0)
  }

  function DaysIn(y: int, m: int): int
  {
    if m == 2 then (if IsLeap(y) then 29 else 28)
    else if m == 4 || m == 6 || m == 9 || m == 11 then 30
    else 31
  }

  /** The dates `datetime.date` can represent. */
  predicate Valid(d: Date)
  {
    1 <= d.year <= 9999 && 1 <= d.month <= 12 && 1 <= d.day <= DaysIn(d.year, d.month)
  }

  /** `a < b`: Python compares dates as (year, month, day) tuples. */
  predicate Before(a: Date, b: Date)
  {
    a.year < b.year
    || (a.year == b.year && (a.month < b.month || (a.month == b.month && a.day < b.day)))
  }

  lemma BeforeTransitive(a: Date, b: Date, c: Date)
    requires Before(a, b) && Before(b, c)
    ensures Before(a, c)
  {
  }

  /** The day before `d`; `None` for 0001-01-01, where Python raises OverflowError. */
  function PrevDay(d: Date): (r: Option<Date>)
    requires Valid(d)
    ensures r.Some? ==> Valid(r.value) && Before(r.value, d)
    ensures r.None? <==> d == Date(1, 1, 1)
  {
    if d.day > 1 then Some(Date(d.year, d.month, d.day - 1))
    else if d.month > 1 then Some(Date(d.year, d.month - 1, DaysIn(d.year, d.month - 1)))
    else if d.year > 1 then Some(Date(d.year - 1, 12, 31))
    else None
  }

  /** The day after `d`; `None` for 9999-12-31, where Python raises OverflowError. */
  function NextDay(d: Date): (r: Option<Date>)
    requires Valid(d)
    ensures r.Some? ==> Valid(r.value) && Before(d, r.value)
    ensures r.None? <==> d == Date(9999, 12, 31)
  {
    if d.day < DaysIn(d.year, d.month) then Some(Date(d.year, d.month, d.day + 1))
    else if d.month < 12 then Some(Date(d.year, d.month + 1, 1))
    else if d.year < 9999 then Some(Date(d.year + 1, 1, 1))
    else None
  }

  /** No date lies strictly between a day and the day before it. */
  lemma PrevDayAdjacent(d: Date, e: Date)
    requires Valid(d) && Valid(e) && PrevDay(d).Some?
    ensures !(Before(PrevDay(d).value, e) && Before(e, d))
  {
  }

  /** The day after the day before `d` is `d`. */
  lemma NextOfPrev(d: Date)
    requires Valid(d) && PrevDay(d).Some?
    ensures NextDay(PrevDay(d).value) == Some(d)
  {
  }

  /** `d - timedelta(days=k)`; `None` where Python raises OverflowError. */
  function SubDays(d: Date, k: nat): (r: Option<Date>)
    requires Valid(d)
    ensures r.Some? ==> Valid(r.value)
    ensures r.Some? && k > 0 ==> Before(r.value, d)
    ensures k == 0 ==> r == Some(d)
  {
    if k == 0 then Some(d)
    else
      match SubDays(d, k - 1)
      case None => None
      case Some(e) =>
        var r := PrevDay(e);
        if r.Some? && k > 1 then BeforeTransitive(r.value, e, d); r else r
  }

  /** `d + timedelta(days=k)`; `None` where Python raises OverflowError. */
  function AddDays(d: Date, k: nat): (r: Option<Date>)
    requires Valid(d)
    ensures r.Some? ==> Valid(r.value)
    ensures r.Some? && k > 0 ==> Before(d, r.value)
    decreases k
  {
    if k == 0 then Some(d)
    else
      match NextDay(d)
      case None => None
      case Some(n) =>
        var r := AddDays(n, k - 1);
        if r.Some? && k > 1 then BeforeTransitive(d, n, r.value); r else r
  }

  /** Going back `k` days and forward `k` days returns to the same date. */
  lemma {:induction false} AddSubDays(d: Date, k: nat)
    requires Valid(d) && SubDays(d, k).Some?
    ensures AddDays(SubDays(d, k).value, k) == Some(d)
  {
    if k > 0 {
      var e := SubDays(d, k - 1).value;
      NextOfPrev(e);
      AddSubDays(d, k - 1);
    }
  }

  function Pow10(n: nat): (p: nat)
    ensures p >= 1
  {
    if n == 0 then 1 else 10 * Pow10(n - 1)
  }

  /** `n` in exactly `w` decimal digits with leading zeros, as `%Y`, `%m`, `%d` print it. */
  function Pad(n: nat, w: nat): (s: string)
    requires n < Pow10(w)
    ensures |s| == w && AllDigits(s) && DigitsValue(s) == n
  {
    if w == 0 then ""
    else
      var p := Pad(n / 10, w - 1);
      var s := p + [DigitChar(n % 10)];
      assert s[..|s| - 1] == p;
      s
  }

  /** `d.strftime("%Y-%m-%d")`. */
  function Format(d: Date): (s: string)
    requires Valid(d)
    ensures |s| == 10
  {
    Pad(d.year, 4) + ("-" + (Pad(d.month, 2) + ("-" + Pad(d.day, 2))))
  }

  predicate YearField(s: string)
  {
    |s| == 4 && AllDigits(s)
  }

  predicate MonthField(s: string)
  {
    (|s| == 1 && '1' <= s[0] <= '9')
    || (|s| == 2 && ((s[0] == '1' && '0' <= s[1] <= '2') || (s[0] == '0' && '1' <= s[1] <= '9')))
  }

  predicate DayField(s: string)
  {
    (|s| == 1 && '1' <= s[0] <= '9')
    || (|s| == 2
        && ((s[0] == '3' && '0' <= s[1] <= '1')
            || ('1' <= s[0] <= '2' && IsDigit(s[1]))
            || (s[0] == '0' && '1' <= s[1] <= '9')
            || (s[0] == ' ' && '1' <= s[1] <= '9')))
  }

  /** The number a month or day field spells, a leading space counting as nothing. */
  function FieldValue(s: string): nat
    requires MonthField(s) || DayField(s)
  {
    if |s| == 1 then s[0] as int - '0' as int
    else if s[0] == ' ' then s[1] as int - '0' as int
    else 10 * (s[0] as int - '0' as int) + (s[1] as int - '0' as int)
  }

  /** `datetime.strptime(s, "%Y-%m-%d")`; `None` where Python raises ValueError. */
  function ParseIso(s: string): (r: Option<Date>)
    ensures r.Some? ==> Valid(r.value)
  {
    var f := Split(s, '-');
    if |f| == 3 && YearField(f[0]) && MonthField(f[1]) && DayField(f[2]) then
      var d := Date(DigitsValue(f[0]), FieldValue(f[1]), FieldValue(f[2]));
      if Valid(d) then Some(d) else None
    else None
  }

  /** `datetime.strptime(s, "%d.%m.%Y")`; `None` where Python raises ValueError. */
  function ParseDotted(s: string): (r: Option<Date>)
    ensures r.Some? ==> Valid(r.value)
  {
    var f := Split(s, '.');
    if |f| == 3 && DayField(f[0]) && MonthField(f[1]) && YearField(f[2]) then
      var d := Date(DigitsValue(f[2]), FieldValue(f[1]), FieldValue(f[0]));
      if Valid(d) then Some(d) else None
    else None
  }

  /** `s.replace(".", "-").replace("/", "-")`, the date steps' normaliser. */
  function CleanDate(s: string): string
  {
    ReplaceChar(ReplaceChar(s, '.', '-'), '/', '-')
  }

  /** The normaliser treats `.`, `/` and `-` alike, so the three spellings of a date clean to one text. */
  lemma CleanDateSeparators(s: string)
    ensures CleanDate(ReplaceChar(s, '-', '.')) == CleanDate(s)
    ensures CleanDate(ReplaceChar(s, '-', '/')) == CleanDate(s)
  {
  }

  lemma FormatShape(d: Date)
    requires Valid(d)
    ensures Split(Format(d), '-') == [Pad(d.year, 4), Pad(d.month, 2), Pad(d.day, 2)]
  {
    var y, m, dd := Pad(d.year, 4), Pad(d.month, 2), Pad(d.day, 2);
    assert '-' !in y && '-' !in m && '-' !in dd by {
      assert forall i :: 0 <= i < 4 ==> IsDigit(y[i]);
      assert forall i :: 0 <= i < 2 ==> IsDigit(m[i]) && IsDigit(dd[i]);
    }
    assert [y, m, dd][1..] == [m, dd] && [m, dd][1..] == [dd];
    assert Join([m, dd], '-') == m + "-" + dd;
    assert Join([y, m, dd], '-') == y + "-" + (m + "-" + dd);
    assert Join([y, m, dd], '-') == Format(d);
    SplitJoin([y, m, dd], '-');
  }

  /** Reading back a stored date gives the date: `strptime(strftime(d)) == d`. */
  lemma ParseFormat(d: Date)
    requires Valid(d)
    ensures ParseIso(Format(d)) == Some(d)
  {
    var y, m, dd := Pad(d.year, 4), Pad(d.month, 2), Pad(d.day, 2);
    assert Format(d) == y + "-" + m + "-" + dd;
    PadMonth(d.month);
    PadDay(d.day);
    ParseIsoFields(y, m, dd);
  }

  /** Two-digit padding spells the tens digit, then the units digit. */
  lemma PadTwo(n: nat)
    requires n < 100
    ensures Pad(n, 2) == [DigitChar(n / 10), DigitChar(n % 10)]
  {
    assert Pad(n / 10, 1) == Pad(n / 100, 0) + [DigitChar((n / 10) % 10)];
  }

  /** A padded month is a month field `strptime` reads back as that month. */
  lemma PadMonth(n: nat)
    requires 1 <= n <= 12
    ensures MonthField(Pad(n, 2)) && FieldValue(Pad(n, 2)) == n
  {
    PadTwo(n);
    var s := Pad(n, 2);
    assert s[0] as int - '0' as int == n / 10 && s[1] as int - '0' as int == n % 10;
    if n < 10 {
      assert s[0] == '0' && '1' <= s[1] <= '9';
    } else {
      assert s[0] == '1' && '0' <= s[1] <= '2';
    }
  }

  /** A padded day is a day field `strptime` reads back as that day. */
  lemma PadDay(n: nat)
    requires 1 <= n <= 31
    ensures DayField(Pad(n, 2)) && FieldValue(Pad(n, 2)) == n
  {
    PadTwo(n);
    var s := Pad(n, 2);
    assert s[0] as int - '0' as int == n / 10 && s[1] as int - '0' as int == n % 10;
    if n < 10 {
      assert s[0] == '0' && '1' <= s[1] <= '9';
    } else if n < 30 {
      assert '1' <= s[0] <= '2' && IsDigit(s[1]);
    } else {
      assert s[0] == '3' && '0' <= s[1] <= '1';
    }
  }

  /** Every spelling the date steps accept, with `.` or `/` or `-`, cleans and parses to the date. */
  lemma CleanFormatted(d: Date)
    requires Valid(d)
    ensures ParseIso(CleanDate(Format(d))) == Some(d)
    ensures ParseIso(CleanDate(ReplaceChar(Format(d), '-', '.'))) == Some(d)
    ensures ParseIso(CleanDate(ReplaceChar(Format(d), '-', '/'))) == Some(d)
  {
    var s := Format(d);
    FormatShape(d);
    FormatNoSeparators(d);
    assert CleanDate(s) == s;
    CleanDateSeparators(s);
    ParseFormat(d);
  }

  /** A formatted date holds no `.` and no `/`: it is digits and two dashes. */
  lemma FormatNoSeparators(d: Date)
    requires Valid(d)
    ensures forall i :: 0 <= i < |Format(d)| ==> Format(d)[i] != '.' && Format(d)[i] != '/'
  {
    forall i | 0 <= i < |Format(d)| ensures Format(d)[i] != '.' && Format(d)[i] != '/' {
      FormatChar(d, i);
    }
  }

  lemma FormatChar(d: Date, i: nat)
    requires Valid(d) && i < 10
    ensures Format(d)[i] != '.' && Format(d)[i] != '/'
  {
    var y, m, dd := Pad(d.year, 4), Pad(d.month, 2), Pad(d.day, 2);
    var s := Format(d);
    assert s == y + ("-" + (m + ("-" + dd)));
    if i < 4 {
      assert s[i] == y[i] && IsDigit(y[i]);
    } else if 5 <= i < 7 {
      assert s[i] == m[i - 5] && IsDigit(m[i - 5]);
    } else if 8 <= i {
      assert s[i] == dd[i - 8] && IsDigit(dd[i - 8]);
    }
  }

  lemma {:induction false} DigitsValueBound(s: string)
    requires AllDigits(s)
    ensures DigitsValue(s) < Pow10(|s|)
    decreases |s|
  {
    if |s| > 0 { DigitsValueBound(s[..|s| - 1]); }
  }

  /** The leading digit weighs `10^(|s|)` over the remaining digits `s`. */
  lemma {:induction false} DigitsValueCons(c: char, s: string)
    requires IsDigit(c) && AllDigits(s)
    ensures AllDigits([c] + s)
    ensures DigitsValue([c] + s) == (c as int - '0' as int) * Pow10(|s|) + DigitsValue(s)
    decreases |s|
  {
    var t := [c] + s;
    assert AllDigits(t) by {
      forall i | 0 <= i < |t| ensures IsDigit(t[i]) { if i > 0 { assert t[i] == s[i - 1]; } }
    }
    if |s| > 0 {
      var s' := s[..|s| - 1];
      var d, last := c as int - '0' as int, s[|s| - 1] as int - '0' as int;
      assert t[..|t| - 1] == [c] + s' && t[|t| - 1] == s[|s| - 1];
      DigitsValueCons(c, s');
      assert DigitsValue(t) == 10 * DigitsValue([c] + s') + last;
      assert DigitsValue(s) == 10 * DigitsValue(s') + last;
      assert Pow10(|s|) == 10 * Pow10(|s'|);
      Distribute(d, Pow10(|s'|), DigitsValue(s'));
    }
  }

  lemma Distribute(d: int, p: int, v: int)
    ensures 10 * (d * p + v) == d * (10 * p) + 10 * v
  {
  }

  /** Digit strings of one length sort as the numbers they spell. */
  lemma {:induction false} LessDigits(a: string, b: string)
    requires |a| == |b| && AllDigits(a) && AllDigits(b)
    ensures Less(a, b) <==> DigitsValue(a) < DigitsValue(b)
    decreases |a|
  {
    if |a| > 0 {
      var a', b' := a[1..], b[1..];
      assert a == [a[0]] + a' && b == [b[0]] + b';
      DigitsValueCons(a[0], a');
      DigitsValueCons(b[0], b');
      DigitsValueBound(a');
      DigitsValueBound(b');
      LessDigits(a', b');
      var p := Pow10(|a'|);
      var da, db := a[0] as int - '0' as int, b[0] as int - '0' as int;
      if da < db {
        WeightedLess(da, db, p, DigitsValue(a'), DigitsValue(b'));
      } else if db < da {
        WeightedLess(db, da, p, DigitsValue(b'), DigitsValue(a'));
      }
    }
  }

  lemma WeightedLess(x: int, y: int, p: int, u: int, v: int)
    requires 0 <= x < y && 0 <= u < p && 0 <= v
    ensures x * p + u < y * p + v
  {
    var k := y - x;
    MulAtLeast(k, p);
    assert y * p == x * p + k * p;
  }

  lemma {:induction false} MulAtLeast(k: int, p: int)
    requires k >= 1 && p >= 0
    ensures k * p >= p
    decreases k
  {
    if k > 1 {
      MulAtLeast(k - 1, p);
      assert k * p == (k - 1) * p + p;
    }
  }

  /** Comparing texts that start with pieces of one length compares the pieces first. */
  lemma {:induction false} LessConcat(x1: string, x2: string, y1: string, y2: string)
    requires |x1| == |y1|
    ensures Less(x1 + x2, y1 + y2) <==> Less(x1, y1) || (x1 == y1 && Less(x2, y2))
    decreases |x1|
  {
    if |x1| == 0 {
      assert x1 + x2 == x2 && y1 + y2 == y2;
    } else {
      assert (x1 + x2)[1..] == x1[1..] + x2 && (y1 + y2)[1..] == y1[1..] + y2;
      LessConcat(x1[1..], x2, y1[1..], y2);
      if x1[0] == y1[0] && x1[1..] == y1[1..] {
        assert x1 == [x1[0]] + x1[1..] && y1 == [y1[0]] + y1[1..];
      }
    }
  }

  lemma PadLess(n: nat, k: nat, w: nat)
    requires n < Pow10(w) && k < Pow10(w)
    ensures Less(Pad(n, w), Pad(k, w)) <==> n < k
    ensures Pad(n, w) == Pad(k, w) <==> n == k
  {
    LessDigits(Pad(n, w), Pad(k, w));
  }

  /** Stored (zero-padded) dates compare as text exactly as they compare as dates. */
  lemma FormatOrder(a: Date, b: Date)
    requires Valid(a) && Valid(b)
    ensures Less(Format(a), Format(b)) <==> Before(a, b)
  {
    var ya, ma, da := Pad(a.year, 4), Pad(a.month, 2), Pad(a.day, 2);
    var yb, mb, db := Pad(b.year, 4), Pad(b.month, 2), Pad(b.day, 2);
    PadLess(a.year, b.year, 4);
    PadLess(a.month, b.month, 2);
    PadLess(a.day, b.day, 2);
    LessConcat("-", db, "-", da);
    LessConcat("-", da, "-", db);
    LessConcat(ma, "-" + da, mb, "-" + db);
    LessConcat("-", ma + ("-" + da), "-", mb + ("-" + db));
    LessConcat(ya, "-" + (ma + ("-" + da)), yb, "-" + (mb + ("-" + db)));
    LessIrreflexive("-");
  }

  /** The text of three separator-free fields joined by `-` splits back into them. */
  lemma SplitFields(y: string, m: string, d: string)
    requires '-' !in y && '-' !in m && '-' !in d
    ensures Split(y + "-" + m + "-" + d, '-') == [y, m, d]
  {
    var f := [y, m, d];
    assert f[1..] == [m, d] && [m, d][1..] == [d];
    assert Join([m, d], '-') == m + "-" + d;
    assert Join(f, '-') == y + "-" + (m + "-" + d);
    assert y + "-" + (m + "-" + d) == y + "-" + m + "-" + d;
    SplitJoin(f, '-');
  }

  /** `strptime` reads well-formed fields as the date they spell, if that date exists. */
  lemma ParseIsoFields(y: string, m: string, d: string)
    requires YearField(y) && MonthField(m) && DayField(d)
    ensures ParseIso(y + "-" + m + "-" + d)
         == (var dt := Date(DigitsValue(y), FieldValue(m), FieldValue(d)); if Valid(dt) then Some(dt) else None)
  {
    assert forall i :: 0 <= i < |y| ==> IsDigit(y[i]);
    assert '-' !in m && '-' !in d;
    SplitFields(y, m, d);
  }

  lemma ParseUnpadded()
    ensures ParseIso("2024-1-5") == Some(Date(2024, 1, 5))
  {
    Year2024();
    ParseIsoFields("2024", "1", "5");
    assert "2024" + "-" + "1" + "-" + "5" == "2024-1-5";
  }

  lemma ParsePadded()
    ensures ParseIso("2024-01-10") == Some(Date(2024, 1, 10))
  {
    var d := Date(2024, 1, 10);
    Pad2024();
    PadTwo(1);
    PadTwo(10);
    assert Format(d) == "2024-01-10";
    ParseFormat(d);
  }

  lemma PaddedSortsFirst()
    ensures Less("2024-01-10", "2024-1-5")
  {
    var p, a, b := "2024-", "01-10", "1-5";
    assert Less(a, b);
    LessConcat(p, a, p, b);
    assert p + a == "2024-01-10" && p + b == "2024-1-5";
  }

  lemma Pad2024()
    ensures Pad(2024, 4) == "2024"
  {
    Year2024();
    DigitsInjective(Pad(2024, 4), "2024");
  }

  /** Digit strings of one length that spell the same number are the same text. */
  lemma DigitsInjective(a: string, b: string)
    requires |a| == |b| && AllDigits(a) && AllDigits(b) && DigitsValue(a) == DigitsValue(b)
    ensures a == b
  {
    LessDigits(a, b);
    LessDigits(b, a);
    LessTrichotomy(a, b);
  }

  lemma Year2024()
    ensures DigitsValue("2024") == 2024
  {
    assert "2024"[..3] == "202" && "202"[..2] == "20" && "20"[..1] == "2" && "2"[..0] == "";
  }

  /**
   * The date steps store the cleaned text as typed, so "2024-1-5" (5 January)
   * is stored unpadded; as text it sorts after "2024-01-10", a later day.
   */
  lemma UnpaddedSortsOutOfOrder()
    ensures ParseIso("2024-1-5") == Some(Date(2024, 1, 5))
    ensures ParseIso("2024-01-10") == Some(Date(2024, 1, 10))
    ensures Before(Date(2024, 1, 5), Date(2024, 1, 10))
    ensures Less("2024-01-10", "2024-1-5")
  {
    ParseUnpadded();
    ParsePadded();
    PaddedSortsFirst();
  }
}
