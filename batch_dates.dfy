/** The "Updated on 13th Dec, 2025" date of a Goodreturns page
    (parseGoodreturnsUpdatedDate in lib/myFuelSourceBatch.ts). */
module BatchDates {
  import opened Common
  import opened Numbers
  import opened Civil

  /** The month-name table, keyed by the lower-cased name. */
  function MonthNumber(name: string): (m: Option<nat>)
    ensures m.Some? ==> 1 <= m.value <= 12
  {
    if name == "jan" || name == "january" then Some(1)
    else if name == "feb" || name == "february" then Some(2)
    else if name == "mar" || name == "march" then Some(3)
    else if name == "apr" || name == "april" then Some(4)
    else if name == "may" then Some(5)
    else if name == "jun" || name == "june" then Some(6)
    else if name == "jul" || name == "july" then Some(7)
    else if name == "aug" || name == "august" then Some(8)
    else if name == "sep" || name == "sept" || name == "september" then Some(9)
    else if name == "oct" || name == "october" then Some(10)
    else if name == "nov" || name == "november" then Some(11)
    else if name == "dec" || name == "december" then Some(12)
    else None
  }

  /** Length of the leading run of white space. */
  function SpaceRun(s: string): (n: nat)
    ensures n <= |s| && forall i :: 0 <= i < n ==> IsSpace(s[i])
    ensures n < |s| ==> !IsSpace(s[n])
  {
    if s == [] || !IsSpace(s[0]) then 0 else 1 + SpaceRun(s[1..])
  }

  /** Length of the leading run of `[A-Za-z]`. */
  function LetterRun(s: string): (n: nat)
    ensures n <= |s| && forall i :: 0 <= i < n ==> IsAsciiLetter(s[i])
    ensures n < |s| ==> !IsAsciiLetter(s[n])
  {
    if s == [] || !IsAsciiLetter(s[0]) then 0 else 1 + LetterRun(s[1..])
  }

  predicate IsOrdinalSuffix(p: string) {
    p == "st" || p == "nd" || p == "rd" || p == "th"
  }

  /** The three groups of one match. */
  datatype DateMatch = DateMatch(day: string, month: string, year: string)

  predicate WellFormedMatch(m: DateMatch) {
    1 <= |m.day| <= 2 && AllDigits(m.day) && |m.month| >= 1 && |m.year| == 4 && AllDigits(m.year)
    && forall i :: 0 <= i < |m.month| ==> IsAsciiLetter(m.month[i])
  }

  /** `(\d{1,2})(?:st|nd|rd|th)?\s+([A-Za-z]+)\,?\s+(\d{4})` matched at the
      start of `s`. Backtracking never changes the outcome: a shorter run
      of digits, letters or spaces, or a skipped suffix or comma, leaves a
      character the next part cannot start with, so a leading run of three
      or more digits fails here. */
  function MatchAt(s: string): (r: Option<DateMatch>)
    ensures r.Some? ==> WellFormedMatch(r.value)
  {
    var n := DigitRun(s);
    if n == 0 || n > 2 then None
    else
      match MonthAndYear(SkipSuffix(s[n..]))
      case None => None
      case Some((month, year)) => Some(DateMatch(s[..n], month, year))
  }

  /** `(?:st|nd|rd|th)?` */
  function SkipSuffix(r: string): string
  {
    if |r| >= 2 && IsOrdinalSuffix(r[..2]) then r[2..] else r
  }

  /** `\s+([A-Za-z]+)\,?\s+(\d{4})` at the start of `r`. */
  function MonthAndYear(r: string): (res: Option<(string, string)>)
    ensures res.Some? ==> IsMonthWord(res.value.0) && |res.value.1| == 4 && AllDigits(res.value.1)
  {
    var sp := SpaceRun(r);
    if sp == 0 then None
    else
      var w := r[sp..];
      var ml := LetterRun(w);
      if ml == 0 then None
      else
        match YearAfterMonth(w[ml..])
        case None => None
        case Some(year) => Some((w[..ml], year))
  }

  /** `\,?\s+(\d{4})` at the start of `r`. */
  function YearAfterMonth(r: string): (res: Option<string>)
    ensures res.Some? ==> |res.value| == 4 && AllDigits(res.value)
  {
    var r1 := if r != [] && r[0] == ',' then r[1..] else r;
    var sp := SpaceRun(r1);
    if sp == 0 then None
    else
      var y := r1[sp..];
      if |y| >= 4 && AllDigits(y[..4]) then Some(y[..4]) else None
  }

  /** `t.match(re)`: the match at the leftmost start where there is one. */
  function FindDate(s: string): (r: Option<DateMatch>)
    ensures r.Some? ==> WellFormedMatch(r.value)
  {
    if s == [] then None
    else if MatchAt(s).Some? then MatchAt(s)
    else FindDate(s[1..])
  }

  /** `${yyyy}-${mm}-${dd}`, each number padded with zeros. */
  function FormatYmd(year: nat, month: nat, day: nat): string
  {
    PadStart(NatToString(year), 4, '0') + "-" + Pad2(month) + "-" + Pad2(day)
  }

  /** parseGoodreturnsUpdatedDate: the first date in the white-space-cleaned
      text, as `YYYY-MM-DD`; null for blank text, no match, or a month name
      outside the table. The day is not checked against the month. */
  function ParseUpdatedDate(text: string): (r: Option<string>)
  {
    var t := CleanText(text);
    if t == [] then None
    else
      match FindDate(t)
      case None => None
      case Some(m) =>
        match MonthNumber(Lower(m.month))
        case None => None
        case Some(month) => Some(FormatYmd(DigitsValue(m.year), month, DigitsValue(m.day)))
  }

  // ---------------------------------------------------------------------
  // Properties

  lemma FormatYmdShape(year: nat, month: nat, day: nat)
    requires year < 10000 && month < 100 && day < 100
    ensures IsYmdShape(FormatYmd(year, month, day))
  {
    assert Pow10(4) == 10000;
    NatToStringLength(year, 4);
    PadStartDigits(NatToString(year), 4);
    Pad2Value(month);
    Pad2Value(day);
    var ys := PadStart(NatToString(year), 4, '0');
    var s := FormatYmd(year, month, day);
    assert s == ys + "-" + Pad2(month) + "-" + Pad2(day);
    assert s[..4] == ys && s[5..7] == Pad2(month) && s[8..] == Pad2(day);
  }

  /** Every date produced has the `YYYY-MM-DD` shape. */
  lemma ParseUpdatedDateShape(text: string)
    ensures ParseUpdatedDate(text).Some? ==> IsYmdShape(ParseUpdatedDate(text).value)
  {
    var t := CleanText(text);
    if t != [] && FindDate(t).Some? {
      var m := FindDate(t).value;
      var month := MonthNumber(Lower(m.month));
      if month.Some? {
        assert ParseUpdatedDate(text) == Some(FormatYmd(DigitsValue(m.year), month.value, DigitsValue(m.day)));
        MatchShape(m, month.value);
      }
    }
  }

  /** A matched date with a month number in range formats to `YYYY-MM-DD`. */
  lemma MatchShape(m: DateMatch, month: nat)
    requires WellFormedMatch(m) && 1 <= month <= 12
    ensures IsYmdShape(FormatYmd(DigitsValue(m.year), month, DigitsValue(m.day)))
  {
    DigitsValueBound(m.year);
    DigitsValueBound(m.day);
    assert Pow10(2) == 100 && Pow10(4) == 10000;
    FormatYmdShape(DigitsValue(m.year), month, DigitsValue(m.day));
  }

  lemma {:induction false} DigitRunOf(d: string, rest: string)
    requires AllDigits(d)
    requires rest == [] || !IsDigit(rest[0])
    ensures DigitRun(d + rest) == |d|
  {
    if d != [] {
      assert (d + rest)[1..] == d[1..] + rest;
      DigitRunOf(d[1..], rest);
    } else {
      assert d + rest == rest;
    }
  }

  lemma {:induction false} LetterRunOf(w: string, rest: string)
    requires forall i :: 0 <= i < |w| ==> IsAsciiLetter(w[i])
    requires rest == [] || !IsAsciiLetter(rest[0])
    ensures LetterRun(w + rest) == |w|
  {
    if w != [] {
      assert (w + rest)[1..] == w[1..] + rest;
      LetterRunOf(w[1..], rest);
    } else {
      assert w + rest == rest;
    }
  }

  /** The page text "<day><suffix> <Month>, <year>", the comma optional. */
  function RenderDate(day: nat, suffix: string, name: string, comma: bool, year: nat): string
  {
    NatToString(day) + suffix + " " + name + (if comma then "," else "") + " " + NatToString(year)
  }

  predicate IsSuffixOrNone(suffix: string) { suffix == "" || IsOrdinalSuffix(suffix) }

  predicate IsMonthWord(name: string) {
    |name| >= 1 && forall i :: 0 <= i < |name| ==> IsAsciiLetter(name[i])
  }

  lemma YearAfterMonthOf(sep: string, ys: string)
    requires sep == "" || sep == ","
    requires |ys| == 4 && AllDigits(ys)
    ensures YearAfterMonth(sep + " " + ys) == Some(ys)
  {
    var r := sep + " " + ys;
    var r1 := if r != [] && r[0] == ',' then r[1..] else r;
    assert r1 == " " + ys;
    assert SpaceRun(r1) == 1;
    assert r1[1..] == ys;
    assert ys[..4] == ys;
  }

  lemma MonthAndYearOf(name: string, sep: string, ys: string)
    requires IsMonthWord(name)
    requires sep == "" || sep == ","
    requires |ys| == 4 && AllDigits(ys)
    ensures MonthAndYear(" " + name + sep + " " + ys) == Some((name, ys))
  {
    var r := " " + name + sep + " " + ys;
    var rest := sep + " " + ys;
    assert SpaceRun(r) == 1;
    assert r[1..] == name + rest;
    LetterRunOf(name, rest);
    assert (name + rest)[..|name|] == name;
    assert (name + rest)[|name|..] == rest;
    YearAfterMonthOf(sep, ys);
  }

  /** The matcher finds the three groups of a rendered date. */
  lemma MatchAtOfRendered(day: nat, suffix: string, name: string, comma: bool, year: nat)
    requires day < 100 && 1000 <= year <= 9999
    requires IsSuffixOrNone(suffix) && IsMonthWord(name)
    ensures MatchAt(RenderDate(day, suffix, name, comma, year))
         == Some(DateMatch(NatToString(day), name, NatToString(year)))
  {
    var ds, ys := NatToString(day), NatToString(year);
    var sep := if comma then "," else "";
    var tail := " " + name + sep + " " + ys;
    RenderDateParts(day, suffix, name, comma, year);
    assert Pow10(2) == 100;
    NatToStringLength(day, 2);
    FourDigitYear(year);
    SkipSuffixOf(suffix, tail);
    MonthAndYearOf(name, sep, ys);
    MatchAtOfDigits(ds, suffix + tail);
  }

  /** The rendered text as the day's digits, then the rest. */
  lemma RenderDateParts(day: nat, suffix: string, name: string, comma: bool, year: nat)
    ensures RenderDate(day, suffix, name, comma, year)
         == NatToString(day) + (suffix + (" " + name + (if comma then "," else "") + " " + NatToString(year)))
  {
    var ds, ys := NatToString(day), NatToString(year);
    var sep := if comma then "," else "";
    SeqAssoc(ds + suffix + " " + name + sep, " ", ys);
    SeqAssoc(ds + suffix + " " + name, sep, " " + ys);
    SeqAssoc(ds + suffix + " ", name, sep + (" " + ys));
    SeqAssoc(ds + suffix, " ", name + (sep + (" " + ys)));
    SeqAssoc(ds, suffix, " " + (name + (sep + (" " + ys))));
    SeqAssoc(" " + name, sep, " ");
    SeqAssoc(" " + name + sep, " ", ys);
    SeqAssoc(" ", name, sep + (" " + ys));
    SeqAssoc(" " + name, sep, " " + ys);
  }

  /** An ordinal suffix, or none, before a space is skipped. */
  lemma SkipSuffixOf(suffix: string, tail: string)
    requires IsSuffixOrNone(suffix) && tail != [] && tail[0] == ' '
    ensures SkipSuffix(suffix + tail) == tail
  {
    if suffix != "" {
      SplitConcat(suffix, tail);
    } else {
      assert suffix + tail == tail;
    }
  }

  /** One or two digits, then a non-digit: the day is the digits and the
      rest is read after them. */
  lemma MatchAtOfDigits(ds: string, rest: string)
    requires AllDigits(ds) && 1 <= |ds| <= 2
    requires rest == [] || !IsDigit(rest[0])
    ensures MatchAt(ds + rest) == match MonthAndYear(SkipSuffix(rest))
                                 case None => None
                                 case Some((month, year)) => Some(DateMatch(ds, month, year))
  {
    DigitRunOf(ds, rest);
    SplitConcat(ds, rest);
  }

  /** Cleaning leaves a rendered date as it is, and the search finds it. */
  lemma FindRenderedDate(day: nat, suffix: string, name: string, comma: bool, year: nat)
    requires day < 100 && 1000 <= year <= 9999
    requires IsSuffixOrNone(suffix) && IsMonthWord(name)
    ensures CleanText(RenderDate(day, suffix, name, comma, year)) == RenderDate(day, suffix, name, comma, year)
    ensures FindDate(RenderDate(day, suffix, name, comma, year))
         == Some(DateMatch(NatToString(day), name, NatToString(year)))
  {
    var s := RenderDate(day, suffix, name, comma, year);
    var ds, ys := NatToString(day), NatToString(year);
    var sep := if comma then "," else "";
    assert NoSpace(ds + suffix) by {
      assert forall i :: 0 <= i < |suffix| ==> IsAsciiLetter(suffix[i]);
    }
    assert NoSpace(name + sep);
    assert NoSpace(ys);
    assert s == (ds + suffix) + " " + (name + sep) + " " + ys;
    CleanTextOfWords(ds + suffix, name + sep, ys);
    MatchAtOfRendered(day, suffix, name, comma, year);
  }

  /** "13th Dec, 2025" and its spellings read as the date they name: the
      digits of the day, the month of the name in any letter case, the year. */
  lemma ParseRenderedDate(day: nat, suffix: string, name: string, comma: bool, year: nat)
    requires day < 100 && 1000 <= year <= 9999
    requires IsSuffixOrNone(suffix) && IsMonthWord(name)
    requires MonthNumber(Lower(name)).Some?
    ensures ParseUpdatedDate(RenderDate(day, suffix, name, comma, year))
         == Some(FormatYmd(year, MonthNumber(Lower(name)).value, day))
  {
    FindRenderedDate(day, suffix, name, comma, year);
    DigitsValueOfNatToString(day);
    DigitsValueOfNatToString(year);
  }

  /** A date the calendar knows comes out as that date's ISO 8601 text. */
  lemma ParseRenderedValidDate(d: Date, suffix: string, name: string, comma: bool)
    requires Valid(d) && 1000 <= d.year <= 9999
    requires IsSuffixOrNone(suffix) && IsMonthWord(name)
    requires MonthNumber(Lower(name)) == Some(d.month as nat)
    ensures ParseUpdatedDate(RenderDate(d.day, suffix, name, comma, d.year)) == Some(FormatDate(d))
    ensures ParseYmd(FormatDate(d)) == Some((d.year as nat, d.month as nat, d.day as nat))
  {
    ParseRenderedDate(d.day, suffix, name, comma, d.year);
    FourDigitYear(d.year);
    ParseFormatDate(d);
  }

  /** Blank text, or text without a digit, has no date. */
  lemma ParseUpdatedDateNoDigit(text: string)
    requires forall i :: 0 <= i < |text| ==> !IsDigit(text[i])
    ensures ParseUpdatedDate(text).None?
  {
    var t := CleanText(text);
    CleanTextChars(text);
    FindDateNoDigit(t);
  }

  lemma {:induction false} FindDateNoDigit(s: string)
    requires forall i :: 0 <= i < |s| ==> !IsDigit(s[i])
    ensures FindDate(s).None?
  {
    if s != [] {
      FindDateNoDigit(s[1..]);
    }
  }

  /** Cleaning adds no character other than the space. */
  lemma CleanTextChars(s: string)
    ensures forall i :: 0 <= i < |CleanText(s)| ==> CleanText(s)[i] == ' ' || CleanText(s)[i] in s
  {
    CollapseSpacesChars(s);
    var c := CollapseSpaces(s);
    var t := TrimStart(c);
    var r := TrimEnd(t);
    assert r == CleanText(s);
    forall i | 0 <= i < |r| ensures r[i] == ' ' || r[i] in s {
      assert r[i] == t[i] == c[|c| - |t| + i];
    }
  }

  lemma {:induction false} CollapseSpacesChars(s: string)
    ensures forall i :: 0 <= i < |CollapseSpaces(s)| ==> CollapseSpaces(s)[i] == ' ' || CollapseSpaces(s)[i] in s
    decreases |s|
  {
    if s != [] {
      if IsSpace(s[0]) {
        var t := TrimStart(s);
        CollapseSpacesChars(t);
        assert forall c :: c in t ==> c in s;
      } else {
        CollapseSpacesChars(s[1..]);
      }
    }
  }

  /** A date with a misspelt month is not read. */
  lemma UnknownMonthGivesNull(day: nat, suffix: string, name: string, comma: bool, year: nat)
    requires day < 100 && 1000 <= year <= 9999
    requires IsSuffixOrNone(suffix) && IsMonthWord(name)
    requires MonthNumber(Lower(name)).None?
    ensures ParseUpdatedDate(RenderDate(day, suffix, name, comma, year)).None?
  {
    FindRenderedDate(day, suffix, name, comma, year);
  }

  /** Text before the date that holds no digit cannot start a match. */
  lemma {:induction false} FindDateSkipsPrefix(pre: string, t: string)
    requires forall i :: 0 <= i < |pre| ==> !IsDigit(pre[i])
    ensures FindDate(pre + t) == FindDate(t)
  {
    if pre != [] {
      assert (pre + t)[1..] == pre[1..] + t;
      assert DigitRun(pre + t) == 0;
      FindDateSkipsPrefix(pre[1..], t);
    } else {
      assert pre + t == t;
    }
  }

  // ---------------------------------------------------------------------
  // The month table as written

  /** What `monthMap[name]` gives on a plain object: an own entry, the
      `Object` function inherited as `constructor` (the one all-lower-case
      letter name on the object prototype), or undefined. */
  datatype MonthValue = MonthIndex(n: nat) | ObjectConstructor | Undefined

  function MonthLookupAsWritten(name: string): MonthValue
  {
    if MonthNumber(name).Some? then MonthIndex(MonthNumber(name).value)
    else if name == "constructor" then ObjectConstructor
    else Undefined
  }

  /** `String(Object)` */
  const ObjectFunctionText: string := "function Object() { [native code] }"

  /** parseGoodreturnsUpdatedDate as written: the inherited function passes
      the `!month` test and is printed into the month position. */
  function ParseUpdatedDateAsWritten(text: string): (r: Option<string>)
  {
    var t := CleanText(text);
    if t == [] then None
    else
      match FindDate(t)
      case None => None
      case Some(m) =>
        var yyyy := PadStart(NatToString(DigitsValue(m.year)), 4, '0');
        var dd := Pad2(DigitsValue(m.day));
        match MonthLookupAsWritten(Lower(m.month))
        case Undefined => None
        case ObjectConstructor => Some(yyyy + "-" + ObjectFunctionText + "-" + dd)
        case MonthIndex(month) => Some(yyyy + "-" + Pad2(month) + "-" + dd)
  }

  /** The two agree on every text except one whose month word is "constructor". */
  lemma AsWrittenAgreesElsewhere(text: string)
    requires FindDate(CleanText(text)).Some? ==> Lower(FindDate(CleanText(text)).value.month) != "constructor"
    ensures ParseUpdatedDateAsWritten(text) == ParseUpdatedDate(text)
  {
  }

  /** A rendered date whose month word is "constructor" in any letter case,
      such as "12th Constructor, 2025": as written it yields text that is not
      `YYYY-MM-DD`; the lookup of own entries rejects it. */
  lemma ParseRenderedConstructor(day: nat, suffix: string, name: string, comma: bool, year: nat)
    requires day < 100 && 1000 <= year <= 9999
    requires IsSuffixOrNone(suffix) && IsMonthWord(name)
    requires Lower(name) == "constructor"
    ensures ParseUpdatedDateAsWritten(RenderDate(day, suffix, name, comma, year))
         == Some(NatToString(year) + "-" + ObjectFunctionText + "-" + Pad2(day))
    ensures !IsYmdShape(NatToString(year) + "-" + ObjectFunctionText + "-" + Pad2(day))
    ensures ParseUpdatedDate(RenderDate(day, suffix, name, comma, year)).None?
  {
    var s := RenderDate(day, suffix, name, comma, year);
    FindRenderedDate(day, suffix, name, comma, year);
    DigitsValueOfNatToString(day);
    DigitsValueOfNatToString(year);
    FourDigitYear(year);
    ConstructorNotAMonth();
    assert MonthLookupAsWritten(Lower(name)) == ObjectConstructor;
    var m := DateMatch(NatToString(day), name, NatToString(year));
    assert FindDate(CleanText(s)) == Some(m);
    assert PadStart(NatToString(year), 4, '0') == NatToString(year);
  }

  lemma ConstructorNotAMonth()
    ensures MonthNumber("constructor").None?
  {
  }
}
