/** Shared vocabulary: optional values, the character classes the source's
    regular expressions use, and the string normalisations built from them. */
module Common {

  datatype Option<+T> = None | Some(value: T)

  /** An awaited call: the value it returns, or the message of the error it
      throws. */
  datatype Outcome<+T> = Done(value: T) | Threw(message: string)

  // ---------------------------------------------------------------------
  // Character classes

  /** JavaScript's `\s` (and the set `trim` removes). */
  predicate IsSpace(c: char) {
    c == ' ' || c == '\t' || c == '\n' || c == '\r' || c == '\U{B}' || c == '\U{C}'
    || c == '\U{A0}' || c == '\U{1680}' || ('\U{2000}' <= c <= '\U{200A}')
    || c == '\U{2028}' || c == '\U{2029}' || c == '\U{202F}' || c == '\U{205F}'
    || c == '\U{3000}' || c == '\U{FEFF}'
  }

  predicate IsDigit(c: char) { '0' <= c <= '9' }

  predicate IsAsciiLetter(c: char) { 'a' <= c <= 'z' || 'A' <= c <= 'Z' }

  predicate IsUpper(c: char) { 'A' <= c <= 'Z' }

  /** Approximation of `\p{L}`: ASCII letters and the Latin letters U+00C0..U+024F. */
  predicate IsLetter(c: char) {
    IsAsciiLetter(c) || ('\U{C0}' <= c <= '\U{24F}' && c != '\U{D7}' && c != '\U{F7}')
  }

  /** `[\p{L}\d]`, equally `[a-z0-9\p{L}]`. */
  predicate IsAlnum(c: char) { IsLetter(c) || IsDigit(c) }

  /** Regex `\w`, which decides `\b`. */
  predicate IsWordChar(c: char) { IsAsciiLetter(c) || IsDigit(c) || c == '_' }

  function LowerChar(c: char): (d: char)
    ensures !IsUpper(d)
    ensures IsAlnum(d) == IsAlnum(c) && IsSpace(d) == IsSpace(c) && IsDigit(d) == IsDigit(c)
    ensures !IsUpper(c) ==> d == c
  {
    if IsUpper(c) then (c as int + 32) as char else c
  }

  function UpperChar(c: char): (d: char)
    ensures IsAlnum(d) == IsAlnum(c) && IsSpace(d) == IsSpace(c)
    ensures IsAsciiLetter(c) ==> IsUpper(d)
    ensures !('a' <= c <= 'z') ==> d == c
  {
    if 'a' <= c <= 'z' then (c as int - 32) as char else c
  }

  /** `toLowerCase` on ASCII letters; other characters are unchanged. */
  function Lower(s: string): (r: string)
    ensures |r| == |s|
    ensures forall i :: 0 <= i < |s| ==> r[i] == LowerChar(s[i])
  {
    seq(|s|, i requires 0 <= i < |s| => LowerChar(s[i]))
  }

  /** `toUpperCase` on ASCII letters; other characters are unchanged. */
  function Upper(s: string): (r: string)
    ensures |r| == |s|
    ensures forall i :: 0 <= i < |s| ==> r[i] == UpperChar(s[i])
  {
    seq(|s|, i requires 0 <= i < |s| => UpperChar(s[i]))
  }

  predicate NoUpper(s: string) { forall i :: 0 <= i < |s| ==> !IsUpper(s[i]) }

  lemma LowerOfNoUpper(s: string)
    requires NoUpper(s)
    ensures Lower(s) == s
  {
  }

  /** Case-insensitive equality with a lower-case literal. */
  predicate EqualsIgnoreCase(s: string, lowerLit: string) { Lower(s) == lowerLit }

  predicate AllDigits(s: string) { forall i :: 0 <= i < |s| ==> IsDigit(s[i]) }

  predicate AllAlnum(s: string) { forall i :: 0 <= i < |s| ==> IsAlnum(s[i]) }

  /** `^[A-Z]{2}$` */
  predicate IsTwoUpperLetters(s: string) { |s| == 2 && IsUpper(s[0]) && IsUpper(s[1]) }

  // ---------------------------------------------------------------------
  // Substrings

  /** `s.slice(0, n)` */
  function Take<T>(s: seq<T>, n: nat): (r: seq<T>)
    ensures |r| <= n && |r| <= |s| && r == s[..|r|]
    ensures |s| <= n ==> r == s
  {
    if |s| <= n then s else s[..n]
  }

  predicate StartsWith(s: string, p: string) { |p| <= |s| && s[..|p|] == p }

  predicate OccursAt(s: string, p: string, i: int) {
    0 <= i && i + |p| <= |s| && s[i..i + |p|] == p
  }

  /** `s.includes(p)` */
  predicate Contains(s: string, p: string) {
    exists i | 0 <= i <= |s| - |p| :: OccursAt(s, p, i)
  }

  lemma ContainsEmpty(s: string)
    ensures Contains(s, "")
  {
    assert OccursAt(s, "", 0);
  }

  lemma ContainsSelf(s: string)
    ensures Contains(s, s)
  {
    assert OccursAt(s, s, 0);
  }

  /** A string cannot contain a pattern with a character it lacks. */
  lemma NotContainsChar(s: string, p: string, c: char)
    requires c in p && c !in s
    ensures !Contains(s, p)
  {
    var j :| 0 <= j < |p| && p[j] == c;
    forall i | 0 <= i <= |s| - |p| ensures !OccursAt(s, p, i) {
      assert s[i..i + |p|][j] == s[i + j];
    }
  }

  /** A string cannot contain a pattern with two neighbouring characters
      that are never neighbours in the string. */
  lemma NotContainsPair(s: string, p: string, j: nat)
    requires j + 1 < |p|
    requires forall i :: 0 <= i < |s| - 1 ==> !(s[i] == p[j] && s[i + 1] == p[j + 1])
    ensures !Contains(s, p)
  {
    forall i | 0 <= i <= |s| - |p| ensures !OccursAt(s, p, i) {
      assert s[i..i + |p|][j] == s[i + j];
      assert s[i..i + |p|][j + 1] == s[i + j + 1];
    }
  }

  // ---------------------------------------------------------------------
  // Whitespace

  function TrimStart(s: string): (r: string)
    ensures |r| <= |s| && r == s[|s| - |r|..]
    ensures r == [] || !IsSpace(r[0])
    ensures s != [] && IsSpace(s[0]) ==> |r| < |s|
    ensures forall i :: 0 <= i < |s| - |r| ==> IsSpace(s[i])
  {
    if s != [] && IsSpace(s[0]) then TrimStart(s[1..]) else s
  }

  function TrimEnd(s: string): (r: string)
    ensures |r| <= |s| && r == s[..|r|]
    ensures r == [] || !IsSpace(r[|r| - 1])
    ensures forall i :: |r| <= i < |s| ==> IsSpace(s[i])
  {
    if s != [] && IsSpace(s[|s| - 1]) then TrimEnd(s[..|s| - 1]) else s
  }

  /** `trim()` */
  function Trim(s: string): (r: string)
    ensures |r| <= |s|
    ensures r == [] || (!IsSpace(r[0]) && !IsSpace(r[|r| - 1]))
  {
    TrimEnd(TrimStart(s))
  }

  lemma TrimOfTrimmed(s: string)
    requires s == [] || (!IsSpace(s[0]) && !IsSpace(s[|s| - 1]))
    ensures Trim(s) == s
  {
  }

  lemma TrimAllSpaces(s: string)
    requires forall i :: 0 <= i < |s| ==> IsSpace(s[i])
    ensures Trim(s) == []
  {
  }

  /** `replace(/\s+/g, " ")` */
  function CollapseSpaces(s: string): (r: string)
    ensures forall i :: 0 <= i < |r| && IsSpace(r[i]) ==> r[i] == ' '
    ensures forall i :: 0 <= i < |r| - 1 && IsSpace(r[i]) ==> !IsSpace(r[i + 1])
    ensures s != [] && IsSpace(s[0]) <==> r != [] && IsSpace(r[0])
    decreases |s|
  {
    if s == [] then []
    else if IsSpace(s[0]) then [' '] + CollapseSpaces(TrimStart(s))
    else [s[0]] + CollapseSpaces(s[1..])
  }

  /** `replace(/\s+/g, " ").trim()`: the cell and label clean-up used throughout. */
  function CleanText(s: string): string { Trim(CollapseSpaces(s)) }

  predicate NoSpace(s: string) { forall i :: 0 <= i < |s| ==> !IsSpace(s[i]) }

  lemma {:induction false} CollapseSpacesNoSpacePrefix(a: string, rest: string)
    requires NoSpace(a)
    ensures CollapseSpaces(a + rest) == a + CollapseSpaces(rest)
  {
    if a != [] {
      var s := a + rest;
      assert s[0] == a[0] && !IsSpace(s[0]);
      assert s[1..] == a[1..] + rest;
      CollapseSpacesNoSpacePrefix(a[1..], rest);
      assert CollapseSpaces(s) == [a[0]] + (a[1..] + CollapseSpaces(rest));
      SeqAssoc([a[0]], a[1..], CollapseSpaces(rest));
      assert [a[0]] + a[1..] == a;
    } else {
      assert a + rest == rest;
    }
  }

  /** A single space before a word is kept as it is. */
  lemma CollapseSpacesOneSpace(b: string)
    requires b != [] && !IsSpace(b[0])
    ensures CollapseSpaces(" " + b) == " " + CollapseSpaces(b)
  {
    assert (" " + b)[1..] == b;
    assert TrimStart(b) == b;
  }

  lemma WordThenRest(a: string, r: string)
    requires NoSpace(a) && r != [] && !IsSpace(r[0]) && CollapseSpaces(r) == r
    ensures CollapseSpaces(a + " " + r) == a + " " + r
  {
    var sr := " " + r;
    CollapseSpacesOneSpace(r);
    assert CollapseSpaces(sr) == sr;
    CollapseSpacesNoSpacePrefix(a, sr);
    assert CollapseSpaces(a + sr) == a + sr;
    ConcatAssoc(a, " ", r);
  }

  lemma ConcatAssoc(a: string, b: string, c: string)
    ensures a + b + c == a + (b + c)
  {
  }

  lemma SplitConcat<T>(a: seq<T>, b: seq<T>)
    ensures (a + b)[..|a|] == a && (a + b)[|a|..] == b
  {
  }

  lemma SeqAssoc<T>(a: seq<T>, b: seq<T>, c: seq<T>)
    ensures a + b + c == a + (b + c)
  {
  }

  /** Text with one space between words and none at the ends is already clean. */
  lemma CleanTextOfWords(a: string, b: string, c: string)
    requires a != [] && b != [] && c != []
    requires NoSpace(a) && NoSpace(b) && NoSpace(c)
    ensures CleanText(a + " " + b + " " + c) == a + " " + b + " " + c
  {
    CollapseSpacesNoSpacePrefix(c, []);
    assert c + [] == c;
    WordThenRest(b, c);
    var bc := b + " " + c;
    assert bc[0] == b[0];
    WordThenRest(a, bc);
    var t := a + " " + b + " " + c;
    SeqAssoc(a + " ", b, " ");
    SeqAssoc(a + " ", b + " ", c);
    assert t == a + " " + bc;
    LastOfConcat(a + " " + b + " ", c);
    TrimOfTrimmed(t);
  }

  lemma LastOfConcat<T>(a: seq<T>, c: seq<T>)
    requires c != []
    ensures (a + c)[|a + c| - 1] == c[|c| - 1]
  {
  }

  // ---------------------------------------------------------------------
  // Tokens: maximal runs of letters and digits

  /** Length of the leading run of letters and digits. */
  function AlnumRun(s: string): (n: nat)
    ensures n <= |s|
    ensures forall i :: 0 <= i < n ==> IsAlnum(s[i])
    ensures n < |s| ==> !IsAlnum(s[n])
  {
    if s == [] || !IsAlnum(s[0]) then 0 else 1 + AlnumRun(s[1..])
  }

  function Tokens(s: string): (ts: seq<string>)
    ensures forall i :: 0 <= i < |ts| ==> |ts[i]| > 0 && AllAlnum(ts[i])
    ensures NoUpper(s) ==> forall i :: 0 <= i < |ts| ==> NoUpper(ts[i])
    decreases |s|
  {
    if s == [] then []
    else if !IsAlnum(s[0]) then Tokens(s[1..])
    else
      var n := AlnumRun(s);
      [s[..n]] + Tokens(s[n..])
  }

  function Join(ts: seq<string>, sep: char): string
  {
    if ts == [] then ""
    else if |ts| == 1 then ts[0]
    else ts[0] + [sep] + Join(ts[1..], sep)
  }

  predicate TokenList(ts: seq<string>) {
    forall i :: 0 <= i < |ts| ==> |ts[i]| > 0 && AllAlnum(ts[i])
  }

  /** Every run of characters other than letters and digits becomes one `sep`;
      none is left at either end. */
  function Squash(s: string, sep: char): string
  {
    Join(Tokens(s), sep)
  }

  /** The shape of a squashed string. */
  predicate IsSquashed(r: string, sep: char) {
    && (forall i :: 0 <= i < |r| ==> IsAlnum(r[i]) || r[i] == sep)
    && (r != [] ==> r[0] != sep && r[|r| - 1] != sep)
    && (forall i :: 0 <= i < |r| - 1 && r[i] == sep ==> r[i + 1] != sep)
  }

  lemma {:induction false} AlnumRunOfToken(t: string, rest: string)
    requires AllAlnum(t)
    requires rest == [] || !IsAlnum(rest[0])
    ensures AlnumRun(t + rest) == |t|
  {
    if t != [] {
      assert (t + rest)[1..] == t[1..] + rest;
      AlnumRunOfToken(t[1..], rest);
    }
  }

  lemma {:induction false} TokensSkipSeparators(s: string, k: nat)
    requires k <= |s|
    requires forall i :: 0 <= i < k ==> !IsAlnum(s[i])
    ensures Tokens(s) == Tokens(s[k..])
  {
    if k > 0 {
      assert s[1..][k - 1..] == s[k..];
      TokensSkipSeparators(s[1..], k - 1);
    }
  }

  /** Splitting a joined token list gives the tokens back. */
  lemma {:induction false} TokensOfJoin(ts: seq<string>, sep: char)
    requires TokenList(ts)
    requires !IsAlnum(sep)
    ensures Tokens(Join(ts, sep)) == ts
  {
    if ts == [] {
    } else if |ts| == 1 {
      var t := ts[0];
      AlnumRunOfToken(t, []);
      assert t + [] == t;
      assert t[..|t|] == t && t[|t|..] == [];
    } else {
      var t := ts[0];
      var rest := [sep] + Join(ts[1..], sep);
      var s := t + rest;
      assert Join(ts, sep) == s;
      AlnumRunOfToken(t, rest);
      assert s[..|t|] == t;
      assert s[|t|..] == rest;
      TokensSkipSeparators(rest, 1);
      assert rest[1..] == Join(ts[1..], sep);
      TokensOfJoin(ts[1..], sep);
      assert Tokens(s) == [t] + ts[1..];
    }
  }

  lemma {:induction false} JoinShape(ts: seq<string>, sep: char)
    requires TokenList(ts)
    requires !IsAlnum(sep)
    ensures IsSquashed(Join(ts, sep), sep)
    ensures ts != [] ==> Join(ts, sep) != []
    ensures (forall i :: 0 <= i < |ts| ==> NoUpper(ts[i])) && !IsUpper(sep) ==> NoUpper(Join(ts, sep))
  {
    if |ts| > 1 {
      JoinShape(ts[1..], sep);
      var t := ts[0];
      var j := Join(ts[1..], sep);
      var r := t + [sep] + j;
      assert Join(ts, sep) == r;
      forall i | 0 <= i < |r| ensures IsAlnum(r[i]) || r[i] == sep {
        if i > |t| { assert r[i] == j[i - |t| - 1]; }
      }
      forall i | 0 <= i < |r| - 1 ensures r[i] == sep ==> r[i + 1] != sep {
        if i < |t| {
          assert r[i] == t[i];
        } else if i == |t| {
          assert r[i + 1] == j[0];
        } else {
          assert r[i] == j[i - |t| - 1] && r[i + 1] == j[i - |t|];
        }
      }
      assert r[|r| - 1] == j[|j| - 1];
      if (forall i :: 0 <= i < |ts| ==> NoUpper(ts[i])) && !IsUpper(sep) {
        assert forall i :: 0 <= i < |ts| - 1 ==> ts[1..][i] == ts[i + 1];
        forall i | 0 <= i < |r| ensures !IsUpper(r[i]) {
          if i < |t| { assert r[i] == t[i]; }
          else if i > |t| { assert r[i] == j[i - |t| - 1]; }
        }
      }
    }
  }

  lemma SquashShape(s: string, sep: char)
    requires !IsAlnum(sep)
    ensures IsSquashed(Squash(s, sep), sep)
  {
    JoinShape(Tokens(s), sep);
  }

  /** Squashing is idempotent. */
  lemma SquashIdempotent(s: string, sep: char)
    requires !IsAlnum(sep)
    ensures Squash(Squash(s, sep), sep) == Squash(s, sep)
  {
    TokensOfJoin(Tokens(s), sep);
  }

  /** normalizeCityName, normalizeCityKey, normalizeCityForCompare and the
      discovery script's normalisers: lower-case, every run of characters other
      than letters and digits becomes one space, trimmed. */
  function NormalizeKey(s: string): string
  {
    Squash(Lower(s), ' ')
  }

  lemma NormalizeKeyShape(s: string)
    ensures IsSquashed(NormalizeKey(s), ' ')
    ensures NoUpper(NormalizeKey(s))
    ensures Trim(NormalizeKey(s)) == NormalizeKey(s)
  {
    var r := NormalizeKey(s);
    var ts := Tokens(Lower(s));
    assert NoUpper(Lower(s));
    assert forall i :: 0 <= i < |ts| ==> NoUpper(ts[i]);
    JoinShape(ts, ' ');
    assert r == Join(ts, ' ');
    TrimOfTrimmed(r);
  }

  lemma NormalizeKeyIdempotent(s: string)
    ensures NormalizeKey(NormalizeKey(s)) == NormalizeKey(s)
  {
    NormalizeKeyShape(s);
    LowerOfNoUpper(NormalizeKey(s));
    SquashIdempotent(Lower(s), ' ');
  }

  /** The normalised key is empty exactly when the text has no letter or digit. */
  lemma {:induction false} TokensEmptyIff(s: string)
    ensures Tokens(s) == [] <==> forall i :: 0 <= i < |s| ==> !IsAlnum(s[i])
  {
    if s != [] {
      TokensEmptyIff(s[1..]);
      if IsAlnum(s[0]) {
        assert Tokens(s)[0] == s[..AlnumRun(s)];
      } else {
        assert forall i :: 1 <= i < |s| ==> s[i] == s[1..][i - 1];
      }
    }
  }

  lemma NormalizeKeyEmptyIff(s: string)
    ensures NormalizeKey(s) == [] <==> forall i :: 0 <= i < |s| ==> !IsAlnum(s[i])
  {
    TokensEmptyIff(Lower(s));
    JoinShape(Tokens(Lower(s)), ' ');
  }

  // ---------------------------------------------------------------------
  // Decimal rendering

  function DigitChar(d: nat): char
    requires d < 10
  {
    ('0' as int + d) as char
  }

  /** `String(n)` for a non-negative integer. */
  function NatToString(n: nat): (s: string)
    ensures |s| >= 1 && AllDigits(s)
    decreases n
  {
    if n < 10 then [DigitChar(n)] else NatToString(n / 10) + [DigitChar(n % 10)]
  }

  /** `String(n).padStart(width, "0")` */
  function PadStart(s: string, width: nat, c: char): (r: string)
    ensures |r| == if |s| >= width then |s| else width
    ensures |s| >= width ==> r == s
    decreases width - |s|
  {
    if |s| >= width then s else PadStart([c] + s, width, c)
  }

  /** The value of a string of decimal digits. */
  function DigitsValue(s: string): (n: nat)
    requires AllDigits(s)
    decreases |s|
  {
    if s == [] then 0 else DigitsValue(s[..|s| - 1]) * 10 + (s[|s| - 1] as int - '0' as int)
  }

  lemma {:induction false} DigitsValueOfNatToString(n: nat)
    ensures DigitsValue(NatToString(n)) == n
  {
    if n >= 10 {
      var s := NatToString(n);
      assert s[..|s| - 1] == NatToString(n / 10);
      DigitsValueOfNatToString(n / 10);
    }
  }

  /** `String(n)` has at most `k` digits when `n < 10^k`. */
  lemma {:induction false} NatToStringLength(n: nat, k: nat)
    requires 1 <= k && n < Pow10(k)
    ensures |NatToString(n)| <= k
  {
    if n >= 10 {
      NatToStringLength(n / 10, k - 1);
    }
  }

  /** Padding digits with '0' keeps them digits. */
  lemma {:induction false} PadStartDigits(s: string, width: nat)
    requires AllDigits(s)
    ensures AllDigits(PadStart(s, width, '0'))
    decreases width - |s|
  {
    if |s| < width {
      PadStartDigits(['0'] + s, width);
    }
  }

  lemma {:induction false} DigitsValueBound(s: string)
    requires AllDigits(s)
    ensures DigitsValue(s) < Pow10(|s|)
  {
    if s != [] { DigitsValueBound(s[..|s| - 1]); }
  }

  function Pow10(k: nat): (p: nat)
    ensures p >= 1
  {
    if k == 0 then 1 else 10 * Pow10(k - 1)
  }

  // ---------------------------------------------------------------------
  // First present value

  /** The first present value of `f` along `xs`: a loop that returns at
      the first hit. */
  function FirstSome<T, U>(xs: seq<T>, f: T -> Option<U>): (r: Option<U>)
    ensures r.None? <==> forall i :: 0 <= i < |xs| ==> f(xs[i]).None?
    decreases |xs|
  {
    if xs == [] then None
    else if f(xs[0]).Some? then f(xs[0])
    else
      assert forall i :: 1 <= i < |xs| ==> xs[i] == xs[1..][i - 1];
      FirstSome(xs[1..], f)
  }

  /** The index of the first element with the property: `findIndex`. */
  function FindIndex<T>(xs: seq<T>, p: T -> bool): (r: Option<nat>)
    ensures r.Some? ==> r.value < |xs| && p(xs[r.value]) && forall j :: 0 <= j < r.value ==> !p(xs[j])
    ensures r.None? ==> forall j :: 0 <= j < |xs| ==> !p(xs[j])
    decreases |xs|
  {
    if xs == [] then None
    else if p(xs[0]) then Some(0)
    else
      assert forall j :: 1 <= j < |xs| ==> xs[j] == xs[1..][j - 1];
      match FindIndex(xs[1..], p)
      case None => None
      case Some(i) => Some(i + 1)
  }

  /** A present value is `f` at an index before which `f` is absent. */
  lemma {:induction false} FirstSomeAt<T, U>(xs: seq<T>, f: T -> Option<U>)
    requires FirstSome(xs, f).Some?
    ensures exists i :: 0 <= i < |xs| && f(xs[i]) == FirstSome(xs, f) && forall j :: 0 <= j < i ==> f(xs[j]).None?
    decreases |xs|
  {
    if f(xs[0]).None? {
      FirstSomeAt(xs[1..], f);
      var i :| 0 <= i < |xs[1..]| && f(xs[1..][i]) == FirstSome(xs[1..], f) && forall j :: 0 <= j < i ==> f(xs[1..][j]).None?;
      assert f(xs[i + 1]) == FirstSome(xs, f);
      forall j | 0 <= j < i + 1 ensures f(xs[j]).None? {
        if j > 0 { assert xs[j] == xs[1..][j - 1]; }
      }
    } else {
      assert f(xs[0]) == FirstSome(xs, f);
    }
  }

  /** Skipping an absent head leaves the first present value unchanged. */
  lemma FirstSomeSkip<T, U>(xs: seq<T>, i: int, f: T -> Option<U>)
    requires 0 <= i < |xs| && f(xs[i]).None?
    ensures FirstSome(xs[i..], f) == FirstSome(xs[i + 1..], f)
  {
    assert xs[i..][1..] == xs[i + 1..];
  }

  // ---------------------------------------------------------------------
  // Present values, in order

  /** The values `f` gives along `xs`, in order, skipping the elements it
      gives none for: a loop that pushes each present value. */
  function Somes<T, U>(xs: seq<T>, f: T -> Option<U>): seq<U>
    decreases |xs|
  {
    if xs == [] then []
    else Somes(xs[..|xs| - 1], f) + (match f(xs[|xs| - 1]) case Some(y) => [y] case None => [])
  }

  /** Every value kept is `f` at some element. */
  lemma {:induction false} SomesFrom<T, U>(xs: seq<T>, f: T -> Option<U>)
    ensures forall j :: 0 <= j < |Somes(xs, f)| ==> exists i :: 0 <= i < |xs| && f(xs[i]) == Some(Somes(xs, f)[j])
    decreases |xs|
  {
    if xs != [] {
      var init := xs[..|xs| - 1];
      SomesFrom(init, f);
      var c := Somes(xs, f);
      var ci := Somes(init, f);
      assert c[..|ci|] == ci;
      forall j | 0 <= j < |c|
        ensures exists i :: 0 <= i < |xs| && f(xs[i]) == Some(c[j])
      {
        if j < |ci| {
          var i :| 0 <= i < |init| && f(init[i]) == Some(ci[j]);
          assert xs[i] == init[i];
        } else {
          assert f(xs[|xs| - 1]) == Some(c[j]);
        }
      }
    } else {
      assert Somes(xs, f) == [];
    }
  }

  /** Every value `f` gives is kept. */
  lemma {:induction false} SomesHas<T, U>(xs: seq<T>, f: T -> Option<U>, i: int)
    requires 0 <= i < |xs| && f(xs[i]).Some?
    ensures f(xs[i]).value in Somes(xs, f)
    decreases |xs|
  {
    var init := xs[..|xs| - 1];
    if i < |xs| - 1 {
      assert xs[i] == init[i];
      SomesHas(init, f, i);
    }
  }
}
