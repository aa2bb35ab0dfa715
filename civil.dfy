/** Proleptic Gregorian calendar dates, the `YYYY-MM-DD` form the program
    stores them in, and the day shift of `addDays` (lib/seoFuelRepo.ts). */
module Civil {
  import opened Common
  import opened Sorting

  datatype Date = Date(year: int, month: int, day: int)

  predicate IsLeapYear(y: int) {
    (y % 4 == 0 && y % 100 != 0) || y % 400 == 0
  }

  function DaysInMonth(y: int, m: int): int
    requires 1 <= m <= 12
  {
    if m == 2 then (if IsLeapYear(y) then 29 else 28)
    else if m == 4 || m == 6 || m == 9 || m == 11 then 30
    else 31
  }

  /** A real calendar day. */
  predicate Valid(d: Date) {
    1 <= d.month <= 12 && 1 <= d.day <= DaysInMonth(d.year, d.month)
  }

  /** The calendar day after `d`. */
  function NextDay(d: Date): (r: Date)
    requires Valid(d)
    ensures Valid(r)
  {
    if d.day < DaysInMonth(d.year, d.month) then Date(d.year, d.month, d.day + 1)
    else if d.month < 12 then Date(d.year, d.month + 1, 1)
    else Date(d.year + 1, 1, 1)
  }

  /** The calendar day before `d`. */
  function PrevDay(d: Date): (r: Date)
    requires Valid(d)
    ensures Valid(r)
  {
    if d.day > 1 then Date(d.year, d.month, d.day - 1)
    else if d.month > 1 then Date(d.year, d.month - 1, DaysInMonth(d.year, d.month - 1))
    else Date(d.year - 1, 12, 31)
  }

  lemma PrevOfNext(d: Date)
    requires Valid(d)
    ensures PrevDay(NextDay(d)) == d
  {
  }

  lemma NextOfPrev(d: Date)
    requires Valid(d)
    ensures NextDay(PrevDay(d)) == d
  {
  }

  /** `k` days later (earlier for negative `k`), one day at a time. */
  function Shift(d: Date, k: int): (r: Date)
    requires Valid(d)
    ensures Valid(r)
    decreases if k >= 0 then k else -k
  {
    if k == 0 then d
    else if k > 0 then Shift(NextDay(d), k - 1)
    else Shift(PrevDay(d), k + 1)
  }

  lemma {:induction false} ShiftNextCommute(d: Date, k: int)
    requires Valid(d)
    ensures Shift(NextDay(d), k) == NextDay(Shift(d, k))
    decreases if k >= 0 then k else -k
  {
    if k > 0 {
      ShiftNextCommute(NextDay(d), k - 1);
    } else if k < 0 {
      PrevOfNext(d);
      ShiftNextCommute(PrevDay(d), k + 1);
      NextOfPrev(d);
    }
  }

  lemma {:induction false} ShiftPrevCommute(d: Date, k: int)
    requires Valid(d)
    ensures Shift(PrevDay(d), k) == PrevDay(Shift(d, k))
    decreases if k >= 0 then k else -k
  {
    if k > 0 {
      NextOfPrev(d);
      ShiftPrevCommute(NextDay(d), k - 1);
      PrevOfNext(d);
    } else if k < 0 {
      ShiftPrevCommute(PrevDay(d), k + 1);
    }
  }

  /** Shifting by one more day is one more step forward. */
  lemma ShiftSucc(d: Date, k: int)
    requires Valid(d)
    ensures Shift(d, k + 1) == NextDay(Shift(d, k))
  {
    if k >= 0 {
      ShiftNextCommute(d, k);
    } else {
      ShiftNextCommute(PrevDay(d), k + 1);
      NextOfPrev(d);
    }
  }

  /** Shifting back undoes shifting forward, for every day and every count. */
  /** `n` days back, then `n` days forward. */
  lemma ShiftBackForth(d: Date, n: int)
    requires Valid(d)
    ensures Shift(Shift(d, -n), n) == d
  {
    ShiftInverse(d, -n);
    assert -(-n) == n;
  }

  lemma {:induction false} ShiftInverse(d: Date, k: int)
    requires Valid(d)
    ensures Shift(Shift(d, k), -k) == d
    decreases if k >= 0 then k else -k
  {
    if k > 0 {
      ShiftNextCommute(d, k - 1);
      PrevOfNext(Shift(d, k - 1));
      ShiftInverse(d, k - 1);
    } else if k < 0 {
      ShiftPrevCommute(d, k + 1);
      NextOfPrev(Shift(d, k + 1));
      ShiftInverse(d, k + 1);
    }
  }

  /** Inside a month, `k` days after the first is the day numbered `k + 1`. */
  lemma {:induction false} ShiftFromFirst(y: int, m: int, k: nat)
    requires 1 <= m <= 12 && k < DaysInMonth(y, m)
    ensures Shift(Date(y, m, 1), k) == Date(y, m, k + 1)
  {
    if k > 0 {
      ShiftFromFirst(y, m, k - 1);
      ShiftSucc(Date(y, m, 1), k - 1);
    }
  }

  /** Strict chronological order. */
  predicate Before(a: Date, b: Date) {
    a.year < b.year
    || (a.year == b.year && a.month < b.month)
    || (a.year == b.year && a.month == b.month && a.day < b.day)
  }

  /** A shift by a count that is not positive never moves forward. */
  lemma {:induction false} ShiftBackNotAfter(d: Date, k: int)
    requires Valid(d) && k <= 0
    ensures Shift(d, k) == d || Before(Shift(d, k), d)
    decreases -k
  {
    if k < 0 {
      ShiftBackNotAfter(PrevDay(d), k + 1);
    }
  }

  // ---------------------------------------------------------------------
  // Text form

  /** `String(n).padStart(2, "0")` */
  function Pad2(n: nat): string
  {
    PadStart(NatToString(n), 2, '0')
  }

  /** `String(y)`: a leading '-' for years before year 0. */
  function YearString(y: int): string
  {
    if y >= 0 then NatToString(y) else "-" + NatToString(-y)
  }

  /** The text addDays builds: the year as is, month and day padded to two. */
  function FormatDate(d: Date): (r: string)
    requires Valid(d)
  {
    YearString(d.year) + "-" + Pad2(d.month) + "-" + Pad2(d.day)
  }

  /** `^\d{4}-\d{2}-\d{2}$` */
  predicate IsYmdShape(s: string) {
    && |s| == 10
    && AllDigits(s[..4]) && s[4] == '-' && AllDigits(s[5..7]) && s[7] == '-' && AllDigits(s[8..])
  }

  /** The three numbers of a `YYYY-MM-DD` string, unchecked as a calendar day. */
  function ParseYmd(s: string): (r: Option<(nat, nat, nat)>)
    ensures r.Some? <==> IsYmdShape(s)
    ensures r.Some? ==> r.value.0 < 10000 && r.value.1 < 100 && r.value.2 < 100
  {
    if IsYmdShape(s) then
      DigitsValueBound(s[..4]);
      DigitsValueBound(s[5..7]);
      DigitsValueBound(s[8..]);
      Some((DigitsValue(s[..4]), DigitsValue(s[5..7]), DigitsValue(s[8..])))
    else None
  }

  /** `Date.UTC(y, m - 1, d)`: years 0..99 mean 1900..1999, the month index
      and the day overflow into the neighbouring months and years. */
  function UtcDate(y: nat, m: nat, d: nat): (r: Date)
    ensures Valid(r)
  {
    var fullYear := if y <= 99 then 1900 + y else y;
    var first := Date(fullYear + (m - 1) / 12, (m - 1) % 12 + 1, 1);
    Shift(first, d - 1)
  }

  /** addDays: a `YYYY-MM-DD` date shifted by `deltaDays`; any other text
      gives `today`, the clock's date passed in. */
  function AddDays(ymd: string, deltaDays: int, today: string): string
  {
    match ParseYmd(ymd)
    case Some((y, m, d)) => FormatDate(Shift(UtcDate(y, m, d), deltaDays))
    case None => today
  }

  // ---------------------------------------------------------------------
  // Properties of addDays

  /** A four-digit year is written with exactly four digits. */
  lemma {:induction false} FourDigitYear(y: int)
    requires 1000 <= y <= 9999
    ensures |NatToString(y)| == 4
  {
    assert NatToString(y) == NatToString(y / 10) + [DigitChar(y % 10)];
    assert NatToString(y / 10) == NatToString(y / 100) + [DigitChar(y / 10 % 10)];
    assert NatToString(y / 100) == NatToString(y / 1000) + [DigitChar(y / 100 % 10)];
  }

  lemma Pad2Value(n: nat)
    requires n < 100
    ensures |Pad2(n)| == 2 && AllDigits(Pad2(n)) && DigitsValue(Pad2(n)) == n
  {
    DigitsValueOfNatToString(n);
    if n < 10 {
      var s := Pad2(n);
      assert s == ['0', DigitChar(n)];
      assert s[..1] == ['0'];
    } else {
      assert NatToString(n) == NatToString(n / 10) + [DigitChar(n % 10)];
    }
  }

  /** A valid date with a four-digit year reads back as its own numbers. */
  lemma ParseFormatDate(d: Date)
    requires Valid(d) && 1000 <= d.year <= 9999
    ensures ParseYmd(FormatDate(d)) == Some((d.year as nat, d.month as nat, d.day as nat))
  {
    var s := FormatDate(d);
    var ys := NatToString(d.year);
    FourDigitYear(d.year);
    Pad2Value(d.month);
    Pad2Value(d.day);
    DigitsValueOfNatToString(d.year);
    assert s == ys + "-" + Pad2(d.month) + "-" + Pad2(d.day);
    assert s[..4] == ys;
    assert s[5..7] == Pad2(d.month);
    assert s[8..] == Pad2(d.day);
  }

  /** `Date.UTC` on the numbers of a valid date from year 100 on is that date. */
  lemma UtcDateOfValid(d: Date)
    requires Valid(d) && 100 <= d.year
    ensures UtcDate(d.year, d.month, d.day) == d
  {
    ShiftFromFirst(d.year, d.month, d.day - 1);
  }

  /** On a valid date with a four-digit year, addDays is the day shift. */
  lemma AddDaysOfValid(d: Date, k: int, today: string)
    requires Valid(d) && 1000 <= d.year <= 9999
    ensures AddDays(FormatDate(d), k, today) == FormatDate(Shift(d, k))
  {
    ParseFormatDate(d);
    UtcDateOfValid(d);
  }

  /** addDays(addDays(s, k), -k) == s, while both dates have four-digit years. */
  lemma AddDaysRoundTrip(d: Date, k: int, today: string)
    requires Valid(d) && 1000 <= d.year <= 9999
    requires 1000 <= Shift(d, k).year <= 9999
    ensures AddDays(AddDays(FormatDate(d), k, today), -k, today) == FormatDate(d)
  {
    AddDaysOfValid(d, k, today);
    AddDaysOfValid(Shift(d, k), -k, today);
    ShiftInverse(d, k);
  }

  /** `Date.UTC` reads the years 0..99 as 1900..1999. */
  lemma UtcDateTwoDigitYear(y: nat, m: nat, d: nat)
    requires y <= 99 && Valid(Date(1900 + y, m, d))
    ensures UtcDate(y, m, d) == Date(1900 + y, m, d)
  {
    ShiftFromFirst(1900 + y, m, d - 1);
  }

  // ---------------------------------------------------------------------
  // Text order is date order

  /** The value of a digit string, read from the front. */
  lemma {:induction false} DigitsValueCons(c: char, s: string)
    requires IsDigit(c) && AllDigits(s)
    ensures AllDigits([c] + s)
    ensures DigitsValue([c] + s) == (c as int - '0' as int) * Pow10(|s|) + DigitsValue(s)
  {
    var t := [c] + s;
    var x := c as int - '0' as int;
    if s != [] {
      var s' := s[..|s| - 1];
      var last := s[|s| - 1] as int - '0' as int;
      assert t[..|t| - 1] == [c] + s';
      DigitsValueCons(c, s');
      var p := Pow10(|s'|);
      var v := DigitsValue(s');
      assert DigitsValue(t) == (x * p + v) * 10 + last;
      assert DigitsValue(s) == v * 10 + last;
      assert Pow10(|s|) == 10 * p;
      ShiftDigit(x, p, v, last);
    } else {
      assert t[..0] == [];
    }
  }

  lemma ShiftDigit(x: int, p: int, v: int, last: int)
    ensures (x * p + v) * 10 + last == x * (10 * p) + (v * 10 + last)
  {
  }

  lemma LeadingDigitDominates(x: int, y: int, p: int, va: int, vb: int)
    requires 0 <= y < x && 1 <= p && 0 <= va < p && 0 <= vb < p
    ensures x * p + va > y * p + vb
  {
    var k := x - y;
    assert x * p == y * p + k * p by { assert x == y + k; }
    MulAtLeast(k, p);
  }

  lemma {:induction false} MulAtLeast(k: int, p: int)
    requires k >= 1 && p >= 0
    ensures k * p >= p
  {
    if k > 1 {
      MulAtLeast(k - 1, p);
      assert k * p == (k - 1) * p + p;
    }
  }

  /** For digit strings of one width, numeric order is text order. */
  lemma {:induction false} DigitsOrder(a: string, b: string)
    requires AllDigits(a) && AllDigits(b) && |a| == |b|
    requires DigitsValue(a) <= DigitsValue(b)
    ensures StrLe(a, b)
  {
    if a != [] {
      var a1, b1 := a[1..], b[1..];
      assert a == [a[0]] + a1 && b == [b[0]] + b1;
      DigitsValueCons(a[0], a1);
      DigitsValueCons(b[0], b1);
      DigitsValueBound(a1);
      DigitsValueBound(b1);
      var x := a[0] as int - '0' as int;
      var y := b[0] as int - '0' as int;
      if x > y {
        LeadingDigitDominates(x, y, Pow10(|a1|), DigitsValue(a1), DigitsValue(b1));
        assert false;
      } else if x == y {
        DigitsOrder(a1, b1);
      }
    }
  }

  lemma {:induction false} StrLeConcat(a: string, b: string, x: string, y: string)
    requires |a| == |b| && StrLe(a, b)
    requires a == b ==> StrLe(x, y)
    ensures StrLe(a + x, b + y)
  {
    if a == [] {
      assert a + x == x && b + y == y;
    } else {
      var ax, bY := a + x, b + y;
      assert ax[0] == a[0] && bY[0] == b[0];
      assert ax[1..] == a[1..] + x && bY[1..] == b[1..] + y;
      if a[0] == b[0] {
        assert a[1..] == b[1..] ==> a == b by {
          if a[1..] == b[1..] { assert a == [a[0]] + a[1..] && b == [b[0]] + b[1..]; }
        }
        StrLeConcat(a[1..], b[1..], x, y);
      }
    }
  }

  /** Month and day as written, padded to two digits, sort in date order. */
  lemma MonthDayMonotone(a: Date, b: Date)
    requires Valid(a) && Valid(b) && a.year == b.year
    requires a == b || Before(a, b)
    ensures StrLe(Pad2(a.month) + ("-" + Pad2(a.day)), Pad2(b.month) + ("-" + Pad2(b.day)))
  {
    var pa, pb := Pad2(a.month), Pad2(b.month);
    var da, db := Pad2(a.day), Pad2(b.day);
    Pad2Value(a.month);
    Pad2Value(b.month);
    Pad2Value(a.day);
    Pad2Value(b.day);
    DigitsOrder(pa, pb);
    if a.month == b.month {
      DigitsOrder(da, db);
      StrLeConcat("-", "-", da, db);
    }
    StrLeConcat(pa, pb, "-" + da, "-" + db);
  }

  /** The text read as the year, then the rest. */
  lemma FormatDateParts(d: Date)
    requires Valid(d) && d.year >= 0
    ensures FormatDate(d) == NatToString(d.year) + ("-" + (Pad2(d.month) + ("-" + Pad2(d.day))))
  {
    var y, m, x := NatToString(d.year), Pad2(d.month), Pad2(d.day);
    SeqAssoc(y + "-" + m, "-", x);
    SeqAssoc(y + "-", m, "-" + x);
    SeqAssoc(y, "-", m + ("-" + x));
  }

  /** The `YYYY-MM-DD` text of an earlier date sorts first. */
  lemma FormatDateMonotone(a: Date, b: Date)
    requires Valid(a) && Valid(b)
    requires 1000 <= a.year <= 9999 && 1000 <= b.year <= 9999
    requires a == b || Before(a, b)
    ensures StrLe(FormatDate(a), FormatDate(b))
  {
    var ya, yb := NatToString(a.year), NatToString(b.year);
    FourDigitYear(a.year);
    FourDigitYear(b.year);
    DigitsValueOfNatToString(a.year);
    DigitsValueOfNatToString(b.year);
    var ma := Pad2(a.month) + ("-" + Pad2(a.day));
    var mb := Pad2(b.month) + ("-" + Pad2(b.day));
    FormatDateParts(a);
    FormatDateParts(b);
    DigitsOrder(ya, yb);
    if a.year == b.year {
      MonthDayMonotone(a, b);
      StrLeConcat("-", "-", ma, mb);
    }
    StrLeConcat(ya, yb, "-" + ma, "-" + mb);
  }
}
