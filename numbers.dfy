/** The number readers the scraper relies on: the two `parsePrice` helpers,
    JavaScript's `parseInt(s, 10)` and `Number(s)` on strings. Values are
    exact reals; binary floating point is not modelled. */
module Numbers {
  import opened Common

  /** The value of `0.` followed by the digits `s`. */
  function FracValue(s: string): (v: real)
    requires AllDigits(s)
    ensures 0.0 <= v <= 1.0
    decreases |s|
  {
    if s == [] then 0.0 else ((s[0] as int - '0' as int) as real + FracValue(s[1..])) / 10.0
  }

  /** Length of the leading run of digits. */
  function DigitRun(s: string): (n: nat)
    ensures n <= |s| && AllDigits(s[..n])
    ensures n < |s| ==> !IsDigit(s[n])
  {
    if s == [] || !IsDigit(s[0]) then 0 else 1 + DigitRun(s[1..])
  }

  /** Length of the leading run of digits and commas. */
  function DigitCommaRun(s: string): (n: nat)
    ensures n <= |s|
    ensures forall i :: 0 <= i < n ==> IsDigit(s[i]) || s[i] == ','
    ensures n < |s| ==> !IsDigit(s[n]) && s[n] != ','
  {
    if s == [] || !(IsDigit(s[0]) || s[0] == ',') then 0 else 1 + DigitCommaRun(s[1..])
  }

  /** `replace(/,/g, "")` */
  function RemoveCommas(s: string): (r: string)
    ensures (forall i :: 0 <= i < |s| ==> IsDigit(s[i]) || s[i] == ',') ==> AllDigits(r)
  {
    if s == [] then [] else (if s[0] == ',' then [] else [s[0]]) + RemoveCommas(s[1..])
  }

  /** A match of `-?\d[\d,]*(?:\.\d+)?`: its sign, its integer part (digits
      and commas) and its fraction digits (empty when there is none). */
  datatype Numeral = Numeral(negative: bool, whole: string, frac: string)

  predicate WellFormed(n: Numeral) {
    && |n.whole| > 0 && IsDigit(n.whole[0])
    && (forall i :: 0 <= i < |n.whole| ==> IsDigit(n.whole[i]) || n.whole[i] == ',')
    && AllDigits(n.frac)
  }

  /** `parseFloat` of the numeral once its commas are removed. */
  function NumeralValue(n: Numeral): real
    requires WellFormed(n)
  {
    var magnitude := DigitsValue(RemoveCommas(n.whole)) as real + FracValue(n.frac);
    if n.negative then -magnitude else magnitude
  }

  /** The numeral the regular expression matches when it is tried at the
      first character of `s`, if any (greedy, so the match is unique). */
  function NumeralAt(s: string): (r: Option<Numeral>)
    ensures r.Some? ==> WellFormed(r.value)
    ensures r.Some? <==> (s != [] && IsDigit(s[0])) || (|s| >= 2 && s[0] == '-' && IsDigit(s[1]))
  {
    var negative := |s| >= 2 && s[0] == '-' && IsDigit(s[1]);
    var start := if negative then 1 else 0;
    if start >= |s| || !IsDigit(s[start]) then None
    else
      var w := DigitCommaRun(s[start..]);
      var rest := s[start + w..];
      var frac := if |rest| >= 2 && rest[0] == '.' && IsDigit(rest[1]) then rest[1..][..DigitRun(rest[1..])] else [];
      Some(Numeral(negative, s[start..start + w], frac))
  }

  /** The leftmost match of `-?\d[\d,]*(?:\.\d+)?` in `s`. */
  function FindNumeral(s: string): (r: Option<Numeral>)
    ensures r.Some? ==> WellFormed(r.value)
  {
    if s == [] then None
    else if NumeralAt(s).Some? then NumeralAt(s)
    else FindNumeral(s[1..])
  }

  /** The leftmost match of `₹\s*(-?\d[\d,]*(?:\.\d+)?)`, reporting the group. */
  function FindRupeeNumeral(s: string): (r: Option<Numeral>)
    ensures r.Some? ==> WellFormed(r.value)
  {
    if s == [] then None
    else if s[0] == '₹' && NumeralAt(TrimStart(s[1..])).Some? then NumeralAt(TrimStart(s[1..]))
    else FindRupeeNumeral(s[1..])
  }

  /** `parsePrice` of the state-table scraper: the number after the first
      rupee sign that is followed by one, else the first number anywhere,
      with thousands separators dropped. */
  function ParsePrice(text: string): Option<real>
  {
    if text == [] then None
    else match FindRupeeNumeral(text)
      case Some(n) => Some(NumeralValue(n))
      case None =>
        match FindNumeral(text)
        case Some(n) => Some(NumeralValue(n))
        case None => None
  }

  predicate HasDigit(s: string) { exists i :: 0 <= i < |s| && IsDigit(s[i]) }

  lemma {:induction false} FindNumeralIff(s: string)
    ensures FindNumeral(s).Some? <==> HasDigit(s)
  {
    if s != [] {
      FindNumeralIff(s[1..]);
      if HasDigit(s[1..]) {
        var i :| 0 <= i < |s[1..]| && IsDigit(s[1..][i]);
        assert IsDigit(s[i + 1]);
      }
      if HasDigit(s) && !IsDigit(s[0]) {
        var i :| 0 <= i < |s| && IsDigit(s[i]);
        assert s[1..][i - 1] == s[i];
      }
    }
  }

  lemma {:induction false} FindRupeeHasDigit(s: string)
    requires FindRupeeNumeral(s).Some?
    ensures HasDigit(s)
  {
    if s[0] == '₹' && NumeralAt(TrimStart(s[1..])).Some? {
      var t := TrimStart(s[1..]);
      var k := |s| - |t|;
      assert t == s[k..];
      if IsDigit(t[0]) { assert IsDigit(s[k]); } else { assert IsDigit(s[k + 1]); }
    } else {
      FindRupeeHasDigit(s[1..]);
      var i :| 0 <= i < |s[1..]| && IsDigit(s[1..][i]);
      assert IsDigit(s[i + 1]);
    }
  }

  /** A price is read exactly when the text holds a digit. */
  lemma ParsePriceSomeIff(text: string)
    ensures ParsePrice(text).Some? <==> HasDigit(text)
  {
    FindNumeralIff(text);
    if FindRupeeNumeral(text).Some? { FindRupeeHasDigit(text); }
  }

  /** The value `whole.cents`. */
  function AmountValue(whole: nat, cents: nat): real
    requires cents < 100
  {
    whole as real + cents as real / 100.0
  }

  /** `String(n)` followed by two decimals. */
  function RenderAmount(whole: nat, cents: nat): string
    requires cents < 100
  {
    NatToString(whole) + "." + [DigitChar(cents / 10), DigitChar(cents % 10)]
  }

  lemma {:induction false} RemoveCommasOfDigits(s: string)
    requires AllDigits(s)
    ensures RemoveCommas(s) == s
  {
    if s != [] {
      RemoveCommasOfDigits(s[1..]);
      assert s == [s[0]] + s[1..];
    }
  }

  lemma {:induction false} DigitCommaRunOfAmount(d: string, rest: string)
    requires AllDigits(d)
    requires rest != [] && rest[0] == '.'
    ensures DigitCommaRun(d + rest) == |d|
  {
    if d != [] {
      assert (d + rest)[1..] == d[1..] + rest;
      DigitCommaRunOfAmount(d[1..], rest);
    }
  }

  lemma FracOfCents(cents: nat)
    requires cents < 100
    ensures FracValue([DigitChar(cents / 10), DigitChar(cents % 10)]) == cents as real / 100.0
  {
    var f := [DigitChar(cents / 10), DigitChar(cents % 10)];
    assert f[1..][1..] == [];
    assert FracValue(f[1..]) == (cents % 10) as real / 10.0;
  }

  lemma NumeralAtOfDecimal(d: string, f: string)
    requires d != [] && AllDigits(d)
    requires f != [] && AllDigits(f)
    ensures NumeralAt(d + "." + f) == Some(Numeral(false, d, f))
  {
    var body := d + "." + f;
    assert IsDigit(body[0]) && body[0] != '-';
    assert DigitCommaRun(body[0..]) == |d| by {
      assert body[0..] == d + ("." + f);
      DigitCommaRunOfAmount(d, "." + f);
    }
    assert body[0..|d|] == d;
    var rest := body[|d|..];
    assert rest == "." + f;
    assert rest[1..] == f;
    DigitRunOfDigits(f);
    assert f[..|f|] == f;
  }

  lemma NumeralAtOfAmount(whole: nat, cents: nat)
    requires cents < 100
    ensures NumeralAt(RenderAmount(whole, cents))
         == Some(Numeral(false, NatToString(whole), [DigitChar(cents / 10), DigitChar(cents % 10)]))
  {
    NumeralAtOfDecimal(NatToString(whole), [DigitChar(cents / 10), DigitChar(cents % 10)]);
  }

  lemma RupeeFirst(body: string)
    requires NumeralAt(body).Some? && !IsSpace(body[0])
    ensures FindRupeeNumeral("₹" + body) == NumeralAt(body)
  {
    var text := "₹" + body;
    assert text[1..] == body;
    assert TrimStart(body) == body;
  }

  lemma NumeralValueOfAmount(whole: nat, cents: nat)
    requires cents < 100
    ensures WellFormed(Numeral(false, NatToString(whole), [DigitChar(cents / 10), DigitChar(cents % 10)]))
    ensures NumeralValue(Numeral(false, NatToString(whole), [DigitChar(cents / 10), DigitChar(cents % 10)]))
         == AmountValue(whole, cents)
  {
    var d := NatToString(whole);
    var f := [DigitChar(cents / 10), DigitChar(cents % 10)];
    RemoveCommasOfDigits(d);
    DigitsValueOfNatToString(whole);
    FracOfCents(cents);
    assert DigitsValue(d) as real == whole as real;
    assert FracValue(f) == cents as real / 100.0;
  }

  lemma ParsePriceOfRupee(text: string)
    requires FindRupeeNumeral(text).Some?
    ensures ParsePrice(text) == Some(NumeralValue(FindRupeeNumeral(text).value))
  {
  }

  /** A rupee amount with two decimals reads back as its value. */
  lemma ParsePriceOfRenderedAmount(whole: nat, cents: nat)
    requires cents < 100
    ensures ParsePrice("₹" + RenderAmount(whole, cents)) == Some(AmountValue(whole, cents))
  {
    var d := NatToString(whole);
    var f := [DigitChar(cents / 10), DigitChar(cents % 10)];
    var body := RenderAmount(whole, cents);
    var n := Numeral(false, d, f);
    NumeralAtOfAmount(whole, cents);
    RupeeFirst(body);
    NumeralValueOfAmount(whole, cents);
    ParsePriceOfRupee("₹" + body);
  }

  // ---------------------------------------------------------------------
  // The seed path's parsePrice

  /** `replace(/[^\d.]/g, "")` */
  function KeepDigitsAndDots(s: string): (r: string)
    ensures forall i :: 0 <= i < |r| ==> IsDigit(r[i]) || r[i] == '.'
  {
    if s == [] then [] else (if IsDigit(s[0]) || s[0] == '.' then [s[0]] else []) + KeepDigitsAndDots(s[1..])
  }

  /** `parseFloat` of a string made of digits and dots: the longest prefix of
      the form `\d*(\.\d*)?` holding at least one digit; none gives NaN. */
  function ParseDecimalPrefix(s: string): (r: Option<real>)
    requires forall i :: 0 <= i < |s| ==> IsDigit(s[i]) || s[i] == '.'
    ensures r.Some? <==> (s != [] && IsDigit(s[0])) || (|s| >= 2 && s[0] == '.' && IsDigit(s[1]))
    ensures r.Some? ==> r.value >= 0.0
  {
    var w := DigitRun(s);
    var rest := s[w..];
    var f := if rest != [] && rest[0] == '.' then rest[1..][..DigitRun(rest[1..])] else [];
    if w == 0 && f == [] then None
    else Some(DigitsValue(s[..w]) as real + FracValue(f))
  }

  /** `parsePrice` of the seed path: drop everything but digits and dots, then
      `parseFloat`. */
  function ParseLoosePrice(text: string): (r: Option<real>)
    ensures r.Some? ==> r.value >= 0.0
  {
    if text == [] then None else ParseDecimalPrefix(KeepDigitsAndDots(text))
  }

  lemma {:induction false} KeepDigitsAndDotsOfClean(s: string)
    requires forall i :: 0 <= i < |s| ==> IsDigit(s[i]) || s[i] == '.'
    ensures KeepDigitsAndDots(s) == s
  {
    if s != [] {
      KeepDigitsAndDotsOfClean(s[1..]);
      assert s == [s[0]] + s[1..];
    }
  }

  /** A rendered amount reads back as its value. */
  lemma ParseLoosePriceOfRenderedAmount(whole: nat, cents: nat)
    requires cents < 100
    ensures ParseLoosePrice(RenderAmount(whole, cents)) == Some(AmountValue(whole, cents))
  {
    var d := NatToString(whole);
    var f := [DigitChar(cents / 10), DigitChar(cents % 10)];
    var s := d + "." + f;
    assert s == RenderAmount(whole, cents);
    KeepDigitsAndDotsOfClean(s);
    assert DigitRun(s) == |d| by {
      assert s == d + ("." + f);
      DigitRunOfAmount(d, "." + f);
    }
    assert s[..|d|] == d;
    assert s[|d|..] == "." + f;
    assert ("." + f)[1..] == f;
    assert DigitRun(f) == 2;
    assert f[..2] == f;
    DigitsValueOfNatToString(whole);
    FracOfCents(cents);
    assert ParseDecimalPrefix(s) == Some(DigitsValue(d) as real + FracValue(f));
  }

  lemma {:induction false} DigitRunOfAmount(d: string, rest: string)
    requires AllDigits(d)
    requires rest != [] && rest[0] == '.'
    ensures DigitRun(d + rest) == |d|
  {
    if d != [] {
      assert (d + rest)[1..] == d[1..] + rest;
      DigitRunOfAmount(d[1..], rest);
    }
  }

  // ---------------------------------------------------------------------
  // parseInt(s, 10) and Number(s)

  /** `parseInt(s, 10)`: leading white space, an optional sign, then the
      leading digits; no digit gives NaN (`None`). */
  function ParseInt(s: string): (r: Option<int>)
    ensures r.Some? ==> HasDigit(s)
  {
    var t := TrimStart(s);
    var negative := t != [] && t[0] == '-';
    var body := if t != [] && (t[0] == '-' || t[0] == '+') then t[1..] else t;
    var n := DigitRun(body);
    if n == 0 then None
    else
      assert IsDigit(s[|s| - |body|]) by { assert body == s[|s| - |body|..]; }
      var v: int := DigitsValue(body[..n]);
      Some(if negative then -v else v)
  }

  /** `parseInt` reads back any non-negative integer. */
  lemma ParseIntOfNat(n: nat)
    ensures ParseInt(NatToString(n)) == Some(n)
  {
    var s := NatToString(n);
    assert TrimStart(s) == s by { assert !IsSpace(s[0]); }
    assert DigitRun(s) == |s| by { DigitRunOfDigits(s); }
    assert s[..|s|] == s;
    DigitsValueOfNatToString(n);
  }

  lemma {:induction false} DigitRunOfDigits(s: string)
    requires AllDigits(s)
    ensures DigitRun(s) == |s|
  {
    if s != [] { DigitRunOfDigits(s[1..]); }
  }

  /** An unsigned decimal `\d+(\.\d*)?` or `\.\d+` making up all of `s`. */
  function UnsignedDecimal(s: string): (r: Option<real>)
    ensures r.Some? ==> r.value >= 0.0
  {
    var w := DigitRun(s);
    if w == |s| then
      (if w == 0 then None else Some(DigitsValue(s[..w]) as real))
    else if s[w] != '.' || !AllDigits(s[w + 1..]) || (w == 0 && w + 1 == |s|) then None
    else Some(DigitsValue(s[..w]) as real + FracValue(s[w + 1..]))
  }

  /** `Number(s)` for a decimal string: trimmed, empty reads as 0, otherwise
      an optional sign and an unsigned decimal must make up the whole string. */
  function ParseNumber(s: string): (r: Option<real>)
    ensures Trim(s) == [] ==> r == Some(0.0)
  {
    var t := Trim(s);
    if t == [] then Some(0.0)
    else if t[0] == '-' || t[0] == '+' then
      match UnsignedDecimal(t[1..])
      case Some(v) => Some(Signed(t[0] == '-', v))
      case None => None
    else UnsignedDecimal(t)
  }

  function Signed(negative: bool, v: real): real { if negative then -v else v }

  lemma UnsignedDecimalOfAmount(whole: nat, cents: nat)
    requires cents < 100
    ensures UnsignedDecimal(RenderAmount(whole, cents)) == Some(AmountValue(whole, cents))
  {
    var d := NatToString(whole);
    var f := [DigitChar(cents / 10), DigitChar(cents % 10)];
    var s := d + "." + f;
    assert s == RenderAmount(whole, cents);
    assert DigitRun(s) == |d| by {
      assert s == d + ("." + f);
      DigitRunOfAmount(d, "." + f);
    }
    assert s[..|d|] == d;
    assert s[|d| + 1..] == f;
    assert s[|d|] == '.';
    DigitsValueOfNatToString(whole);
    FracOfCents(cents);
  }

  /** `Number` reads back a rendered amount. */
  lemma ParseNumberOfRenderedAmount(whole: nat, cents: nat)
    requires cents < 100
    ensures ParseNumber(RenderAmount(whole, cents)) == Some(AmountValue(whole, cents))
  {
    var s := RenderAmount(whole, cents);
    assert IsDigit(s[0]) && IsDigit(s[|s| - 1]);
    assert Trim(s) == s by { TrimOfTrimmed(s); }
    UnsignedDecimalOfAmount(whole, cents);
  }
}
