/** Names in the state-table scraper (lib/myFuelSourceBatch.ts): the
    Goodreturns state-name table, state-name and city-name normalisation,
    and the fallback city slug. */
module BatchNames {
  import opened Common

  /** GOODRETURNS_STATE_NAME_TO_CODE: normalised state name to state code,
      written as the five spellings of Andaman and Nicobar and the names
      of the other states; the two share no name. */
  const StateNameToCode: map<string, string> := OtherStateNames + AndamanNames

  const AndamanNames: map<string, string> := map[
    "andaman nicobar" := "AN",
    "andaman nicobar islands" := "AN",
    "andaman nicobar island" := "AN",
    "andaman and nicobar" := "AN",
    "andaman and nicobar islands" := "AN"
  ]

  const OtherStateNames: map<string, string> := map[
    "andhra pradesh" := "AP",
    "arunachal pradesh" := "AR",
    "assam" := "AS",
    "bihar" := "BR",
    "chandigarh" := "CH",
    "chhattisgarh" := "CG",
    "chhatisgarh" := "CG",
    "dadra and nagar haveli and daman and diu" := "DN",
    "delhi" := "DL",
    "goa" := "GA",
    "gujarat" := "GJ",
    "haryana" := "HR",
    "himachal pradesh" := "HP",
    "jammu kashmir" := "JK",
    "jammu and kashmir" := "JK",
    "jharkhand" := "JH",
    "karnataka" := "KA",
    "kerala" := "KL",
    "ladakh" := "LA",
    "lakshadweep" := "LD",
    "madhya pradesh" := "MP",
    "maharashtra" := "MH",
    "manipur" := "MN",
    "meghalaya" := "ML",
    "mizoram" := "MZ",
    "nagaland" := "NL",
    "odisha" := "OD",
    "orissa" := "OD",
    "pondicherry" := "PY",
    "puducherry" := "PY",
    "punjab" := "PB",
    "rajasthan" := "RJ",
    "sikkim" := "SK",
    "tamil nadu" := "TN",
    "telangana" := "TS",
    "tripura" := "TR",
    "uttar pradesh" := "UP",
    "uttarakhand" := "UK",
    "uttaranchal" := "UK",
    "west bengal" := "WB"
  ]

  /** The state code of a normalised state name, if the table has it. */
  function StateCodeOfName(norm: string): Option<string>
  {
    if norm in StateNameToCode then Some(StateNameToCode[norm]) else None
  }

  /** `GOODRETURNS_STATE_NAME_TO_CODE[norm]` is set. */
  predicate IsStateName(norm: string) { norm in StateNameToCode }

  /** `replace(/&/g, " and ")` */
  function ReplaceAmpersands(s: string): (r: string)
    ensures (forall i :: 0 <= i < |s| ==> s[i] != '&') ==> r == s
  {
    if s == [] then []
    else (if s[0] == '&' then " and " else [s[0]]) + ReplaceAmpersands(s[1..])
  }

  /** normalizeStateName: lower-case, `&` spelled "and", every run of
      characters other than letters and digits one space, trimmed. */
  function NormalizeStateName(s: string): string
  {
    Squash(ReplaceAmpersands(Lower(s)), ' ')
  }

  /** getStateCodeFromGoodreturnsName */
  function StateCodeOf(name: string): (r: Option<string>)
    ensures r.Some? <==> NormalizeStateName(name) in StateNameToCode
    ensures r.Some? ==> r.value == StateNameToCode[NormalizeStateName(name)]
  {
    var norm := NormalizeStateName(name);
    if norm in StateNameToCode then Some(StateNameToCode[norm]) else None
  }

  lemma NormalizeStateNameShape(s: string)
    ensures IsSquashed(NormalizeStateName(s), ' ')
    ensures NoUpper(NormalizeStateName(s))
  {
    var t := ReplaceAmpersands(Lower(s));
    assert NoUpper(t) by { ReplaceAmpersandsNoUpper(Lower(s)); }
    var ts := Tokens(t);
    JoinShape(ts, ' ');
  }

  lemma {:induction false} ReplaceAmpersandsNoUpper(s: string)
    requires NoUpper(s)
    ensures NoUpper(ReplaceAmpersands(s))
  {
    if s != [] {
      ReplaceAmpersandsNoUpper(s[1..]);
      var head := if s[0] == '&' then " and " else [s[0]];
      var r := ReplaceAmpersands(s);
      var rest := ReplaceAmpersands(s[1..]);
      assert r == head + rest;
      forall i | 0 <= i < |r| ensures !IsUpper(r[i]) {
        if i >= |head| { assert r[i] == rest[i - |head|]; }
      }
    }
  }

  /** Normalising a normalised name changes nothing, so a name and its
      normal form map to the same code. */
  lemma NormalizeStateNameIdempotent(s: string)
    ensures NormalizeStateName(NormalizeStateName(s)) == NormalizeStateName(s)
    ensures StateCodeOf(NormalizeStateName(s)) == StateCodeOf(s)
  {
    var n := NormalizeStateName(s);
    NormalizeStateNameShape(s);
    LowerOfNoUpper(n);
    assert ReplaceAmpersands(n) == n by {
      forall i | 0 <= i < |n| ensures n[i] != '&' {
        assert IsAlnum(n[i]) || n[i] == ' ';
      }
    }
    SquashIdempotent(ReplaceAmpersands(Lower(s)), ' ');
  }

  /** normalizeCityName is the shared city key. */
  function NormalizeCityName(s: string): string
  {
    NormalizeKey(s)
  }

  /** slugifyCityNameForGoodreturns: lower-case, runs of characters other than
      letters and digits become one '-', no '-' at either end; empty is null. */
  function SlugifyCityName(s: string): (r: Option<string>)
    ensures r.Some? ==> r.value != [] && IsSquashed(r.value, '-')
    ensures r.None? <==> forall i :: 0 <= i < |s| ==> !IsAlnum(s[i])
  {
    var slug := Squash(Lower(s), '-');
    SquashShape(Lower(s), '-');
    TokensEmptyIff(Lower(s));
    JoinShape(Tokens(Lower(s)), '-');
    if slug == [] then None else Some(slug)
  }
}
