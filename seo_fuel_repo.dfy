/** lib/seoFuelRepo.ts, the lookups behind the SEO pages: the city
    parameter's clean-up, the ILIKE pattern, the two city resolutions, the
    cheapest-petrol summary and the history window. Every query is a
    function from its filter values to the rows it returns. */
module SeoFuelRepo {
  import opened Common
  import opened Sorting
  import opened Dedup
  import opened Civil
  import opened Series
  import opened FuelDb

  // ---------------------------------------------------------------------
  // Snapshots

  /** applyFuelAvailabilityOverrides on a CityFuelSnapshot: Lakshadweep
      sells no LPG or CNG; the code is the row's own. */
  function SnapshotOverrides(row: FuelRecord): (r: FuelRecord)
    ensures r.stateCode == row.stateCode && r.cityName == row.cityName && r.date == row.date
    ensures r.petrol == row.petrol && r.diesel == row.diesel
    ensures Upper(row.stateCode) == "LD" ==> r.lpg.None? && r.cng.None?
    ensures Upper(row.stateCode) != "LD" ==> r == row
  {
    if Upper(row.stateCode) == "LD" then row.(lpg := None, cng := None) else row
  }

  /** The override applied twice is the override applied once. */
  lemma SnapshotOverridesIdempotent(row: FuelRecord)
    ensures SnapshotOverrides(SnapshotOverrides(row)) == SnapshotOverrides(row)
  {
  }

  /** `rows.map(applyFuelAvailabilityOverrides)` */
  function Overridden(rows: seq<FuelRecord>): (r: seq<FuelRecord>)
    ensures |r| == |rows| && forall i :: 0 <= i < |rows| ==> r[i] == SnapshotOverrides(rows[i])
  {
    seq(|rows|, i requires 0 <= i < |rows| => SnapshotOverrides(rows[i]))
  }

  // ---------------------------------------------------------------------
  // normalizeCityParam

  /** `replace(/-/g, " ")` */
  function DashesToSpaces(s: string): (r: string)
    ensures |r| == |s|
    ensures forall i :: 0 <= i < |s| ==> r[i] == (if s[i] == '-' then ' ' else s[i])
  {
    seq(|s|, i requires 0 <= i < |s| => if s[i] == '-' then ' ' else s[i])
  }

  /** normalizeCityParam on decoded text: hyphens become spaces, every run
      of white space one space, trimmed. */
  function NormalizeCityParam(cityParam: string): string {
    CleanText(DashesToSpaces(cityParam))
  }

  /** Every white space is a plain space and none follows another. */
  predicate SingleSpaced(s: string) {
    && (forall i :: 0 <= i < |s| && IsSpace(s[i]) ==> s[i] == ' ')
    && (forall i :: 0 <= i < |s| - 1 && IsSpace(s[i]) ==> !IsSpace(s[i + 1]))
  }

  /** A slice of single-spaced text without hyphens is so too. */
  lemma SliceSingleSpaced(c: string, k: nat, n: nat)
    requires SingleSpaced(c) && '-' !in c && k + n <= |c|
    ensures SingleSpaced(c[k..k + n]) && '-' !in c[k..k + n]
  {
    var r := c[k..k + n];
    forall i | 0 <= i < |r| ensures r[i] != '-' && (IsSpace(r[i]) ==> r[i] == ' ') {
      assert r[i] == c[k + i];
    }
    forall i | 0 <= i < |r| - 1 && IsSpace(r[i]) ensures !IsSpace(r[i + 1]) {
      assert r[i] == c[k + i] && r[i + 1] == c[k + i + 1];
    }
  }

  /** Trimming single-spaced text without hyphens keeps it so. */
  lemma TrimSingleSpaced(c: string)
    requires SingleSpaced(c) && '-' !in c
    ensures SingleSpaced(Trim(c)) && '-' !in Trim(c)
  {
    var t := TrimStart(c);
    var r := TrimEnd(t);
    var k := |c| - |t|;
    assert t == c[k..] && r == t[..|r|];
    assert r == c[k..k + |r|];
    SliceSingleSpaced(c, k, |r|);
  }

  /** Collapsing keeps every character that is not white space from the text. */
  lemma {:induction false} CollapseSpacesFrom(s: string, c: char)
    requires !IsSpace(c)
    ensures c in CollapseSpaces(s) ==> c in s
    decreases |s|
  {
    if s != [] {
      if IsSpace(s[0]) {
        var t := TrimStart(s);
        CollapseSpacesFrom(t, c);
        if c in t {
          var i :| 0 <= i < |t| && t[i] == c;
          assert s[|s| - |t| + i] == c;
        }
      } else {
        CollapseSpacesFrom(s[1..], c);
      }
    }
  }

  /** Collapsing single-spaced text without a leading space changes nothing. */
  lemma {:induction false} CollapseSingleSpaced(s: string)
    requires SingleSpaced(s)
    ensures CollapseSpaces(s) == s
    decreases |s|
  {
    if s != [] {
      assert SingleSpaced(s[1..]);
      CollapseSingleSpaced(s[1..]);
      if IsSpace(s[0]) {
        assert s[1..] == [] || !IsSpace(s[1..][0]);
        assert TrimStart(s) == s[1..];
      }
    }
  }

  lemma DashesGone(s: string)
    ensures '-' !in DashesToSpaces(s)
  {
    var d := DashesToSpaces(s);
    forall i | 0 <= i < |d| ensures d[i] != '-' {
    }
  }

  /** Cleaned text without hyphens is single-spaced and hyphen-free. */
  lemma CleanTextShape(d: string)
    requires '-' !in d
    ensures '-' !in CleanText(d) && SingleSpaced(CleanText(d))
  {
    var c := CollapseSpaces(d);
    CollapseSpacesFrom(d, '-');
    TrimSingleSpaced(c);
  }

  /** The normalised parameter has no hyphen, single spaces, and no space
      at either end. */
  lemma NormalizeCityParamShape(cityParam: string)
    ensures '-' !in NormalizeCityParam(cityParam)
    ensures SingleSpaced(NormalizeCityParam(cityParam))
    ensures Trim(NormalizeCityParam(cityParam)) == NormalizeCityParam(cityParam)
  {
    DashesGone(cityParam);
    CleanTextShape(DashesToSpaces(cityParam));
    TrimOfTrimmed(NormalizeCityParam(cityParam));
  }

  /** Normalising the normalised parameter changes nothing. */
  lemma NormalizeCityParamIdempotent(cityParam: string)
    ensures NormalizeCityParam(NormalizeCityParam(cityParam)) == NormalizeCityParam(cityParam)
  {
    var r := NormalizeCityParam(cityParam);
    NormalizeCityParamShape(cityParam);
    assert DashesToSpaces(r) == r;
    CollapseSingleSpaced(r);
  }

  // ---------------------------------------------------------------------
  // buildCityIlikePattern

  /** `t.replace(/[%_]/g, "")` */
  function StripWildcards(t: string): (r: string)
    ensures '%' !in r && '_' !in r
    ensures ('%' !in t && '_' !in t) ==> r == t
  {
    if t == [] then []
    else (if t[0] == '%' || t[0] == '_' then [] else [t[0]]) + StripWildcards(t[1..])
  }

  /** `tokens.map(stripWildcards)` */
  function StripAll(ts: seq<string>): (r: seq<string>)
    ensures |r| == |ts| && forall i :: 0 <= i < |ts| ==> r[i] == StripWildcards(ts[i])
  {
    seq(|ts|, i requires 0 <= i < |ts| => StripWildcards(ts[i]))
  }

  /** The pattern's words: the lower-cased letter and digit runs of the
      query, at most eight. */
  function PatternTokens(cityQuery: string): seq<string> {
    StripAll(Take(Tokens(Lower(cityQuery)), 8))
  }

  /** buildCityIlikePattern */
  function BuildCityIlikePattern(cityQuery: string): Option<string> {
    var ts := PatternTokens(cityQuery);
    if ts == [] then None else Some("%" + Join(ts, '%') + "%")
  }

  lemma LowerKeepsAlnum(s: string)
    ensures forall i :: 0 <= i < |s| ==> (IsAlnum(Lower(s)[i]) <==> IsAlnum(s[i]))
  {
  }

  /** A letter-and-digit token holds no wildcard. */
  lemma AlnumNoWildcards(t: string)
    requires AllAlnum(t)
    ensures '%' !in t && '_' !in t
  {
    assert !IsAlnum('%') && !IsAlnum('_');
  }

  /** A trailing separator adds no token. */
  lemma {:induction false} TokensTrailingSep(s: string, c: char)
    requires !IsAlnum(c)
    ensures Tokens(s + [c]) == Tokens(s)
    decreases |s|
  {
    if s == [] {
      assert Tokens([c]) == Tokens([c][1..]);
    } else if !IsAlnum(s[0]) {
      assert (s + [c])[1..] == s[1..] + [c];
      TokensTrailingSep(s[1..], c);
    } else {
      var n := AlnumRun(s);
      AlnumRunOfToken(s[..n], s[n..]);
      assert s[..n] + s[n..] == s;
      AlnumRunOfToken(s[..n], s[n..] + [c]);
      assert s[..n] + (s[n..] + [c]) == s + [c];
      assert (s + [c])[..n] == s[..n];
      assert (s + [c])[n..] == s[n..] + [c];
      TokensTrailingSep(s[n..], c);
    }
  }

  /** The empty query gives no pattern. */
  lemma PatternOfEmpty()
    ensures BuildCityIlikePattern("").None?
  {
    assert Tokens(Lower("")) == [];
  }

  /** No pattern exactly when the query has no letter or digit. */
  lemma PatternNoneIff(cityQuery: string)
    ensures BuildCityIlikePattern(cityQuery).None? <==> forall i :: 0 <= i < |cityQuery| ==> !IsAlnum(cityQuery[i])
  {
    var ts := Take(Tokens(Lower(cityQuery)), 8);
    assert |PatternTokens(cityQuery)| == |ts|;
    LowerKeepsAlnum(cityQuery);
    TokensEmptyIff(Lower(cityQuery));
  }

  /** No pattern exactly when the query has no letter or digit; otherwise
      the pattern is `%`-framed, its words are the first eight
      lower-cased words of the query, and no word holds a wildcard. */
  lemma BuildCityIlikePatternProps(cityQuery: string)
    ensures BuildCityIlikePattern(cityQuery).None? <==> forall i :: 0 <= i < |cityQuery| ==> !IsAlnum(cityQuery[i])
    ensures BuildCityIlikePattern(cityQuery).Some? ==>
              var p := BuildCityIlikePattern(cityQuery).value;
              && p[0] == '%' && p[|p| - 1] == '%'
              && Tokens(p) == Take(Tokens(Lower(cityQuery)), 8)
              && 1 <= |Tokens(p)| <= 8
              && forall i :: 0 <= i < |Tokens(p)| ==> '%' !in Tokens(p)[i] && '_' !in Tokens(p)[i] && NoUpper(Tokens(p)[i])
  {
    PatternNoneIff(cityQuery);
    var ts := PatternTokens(cityQuery);
    if ts != [] {
      PatternTokensAre(cityQuery);
      PatternOfTokens(ts);
    }
  }

  /** The pattern's words are the first eight lower-cased words of the
      query, with no wildcard and no upper-case letter. */
  lemma PatternTokensAre(cityQuery: string)
    ensures PatternTokens(cityQuery) == Take(Tokens(Lower(cityQuery)), 8)
    ensures TokenList(PatternTokens(cityQuery))
    ensures forall i :: 0 <= i < |PatternTokens(cityQuery)| ==>
              var t := PatternTokens(cityQuery)[i]; '%' !in t && '_' !in t && NoUpper(t)
  {
    var all := Tokens(Lower(cityQuery));
    var ts := Take(all, 8);
    assert NoUpper(Lower(cityQuery));
    forall i | 0 <= i < |ts| ensures StripWildcards(ts[i]) == ts[i] {
      assert ts[i] == all[i];
      AlnumNoWildcards(ts[i]);
    }
    assert PatternTokens(cityQuery) == ts;
    forall i | 0 <= i < |ts| ensures |ts[i]| > 0 && AllAlnum(ts[i]) && NoUpper(ts[i]) {
      assert ts[i] == all[i];
      AlnumNoWildcards(ts[i]);
    }
  }

  /** Joining words with `%` and framing them with `%` gives back the words. */
  lemma PatternOfTokens(ts: seq<string>)
    requires ts != [] && TokenList(ts)
    ensures var p := "%" + Join(ts, '%') + "%"; p[0] == '%' && p[|p| - 1] == '%' && Tokens(p) == ts
  {
    var j := Join(ts, '%');
    TokensOfJoin(ts, '%');
    TokensTrailingSep("%" + j, '%');
    TokensSkipSeparators("%" + j, 1);
    assert ("%" + j)[1..] == j;
  }

  // ---------------------------------------------------------------------
  // Resolving a city

  /** ResolvedCityResult */
  datatype Resolution =
    | Resolved(snapshot: FuelRecord, candidates: seq<FuelRecord>)
    | Ambiguous(candidates: seq<FuelRecord>)
    | NotFound

  /** `xs.find(p)`, as the index found. */
  function FindFirst<T>(xs: seq<T>, p: T -> bool): (r: Option<nat>)
    ensures r.Some? ==> r.value < |xs| && p(xs[r.value]) && forall j :: 0 <= j < r.value ==> !p(xs[j])
    ensures r.None? ==> forall j :: 0 <= j < |xs| ==> !p(xs[j])
    decreases |xs|
  {
    if xs == [] then None
    else if p(xs[0]) then Some(0)
    else
      var r := FindFirst(xs[1..], p);
      assert forall j :: 1 <= j < |xs| ==> xs[j] == xs[1..][j - 1];
      if r.Some? then Some(r.value + 1) else None
  }

  function StateCodes(rows: seq<FuelRecord>): (r: seq<string>)
    ensures |r| == |rows| && forall i :: 0 <= i < |rows| ==> r[i] == rows[i].stateCode
  {
    seq(|rows|, i requires 0 <= i < |rows| => rows[i].stateCode)
  }

  function InState(code: string): FuelRecord -> bool { (c: FuelRecord) => c.stateCode == code }

  /** The state asked for: `stateCode ? String(stateCode).toUpperCase() : null`,
      with the empty text for null. */
  function DesiredState(stateCode: Option<string>): string {
    if stateCode.Some? && stateCode.value != [] then Upper(stateCode.value) else ""
  }

  /** The choice once the candidates are known: with a state asked for,
      the first candidate in that state; without one, the only candidate,
      or the first when all candidates share one state. */
  function ChooseInState(candidates: seq<FuelRecord>, desired: string): (r: Resolution)
    ensures r.NotFound? <==> candidates == []
    ensures !r.NotFound? ==> r.candidates == candidates
  {
    if candidates == [] then NotFound
    else if desired != [] then
      var found := FindFirst(candidates, InState(desired));
      if found.Some? then Resolved(candidates[found.value], candidates) else Ambiguous(candidates)
    else if |candidates| == 1 then Resolved(candidates[0], candidates)
    else if |Distinct(StateCodes(candidates))| == 1 then Resolved(candidates[0], candidates)
    else Ambiguous(candidates)
  }

  /** resolveCityFromParam, given the latest date and the query of the
      latest day's rows whose city matches a pattern, ordered by state. */
  function ResolveCityFromParam(cityParam: string, stateCode: Option<string>, latestDate: Option<string>,
                                query: (string, string) -> seq<FuelRecord>): Resolution
  {
    var cityQuery := NormalizeCityParam(cityParam);
    if cityQuery == [] then NotFound
    else
      var pattern := BuildCityIlikePattern(cityQuery);
      if pattern.None? || latestDate.None? then NotFound
      else ChooseInState(Overridden(query(latestDate.value, pattern.value)), DesiredState(stateCode))
  }

  /** A `Set` of one element: the list is not empty and all of it equals
      its first element. */
  lemma OneDistinct(s: seq<string>)
    ensures |Distinct(s)| == 1 <==> s != [] && forall i :: 0 <= i < |s| ==> s[i] == s[0]
  {
    DistinctProps(s);
    var d := Distinct(s);
    if |d| == 1 {
      forall i | 0 <= i < |s| ensures s[i] == s[0] {
        DistinctHas(s, s[i]);
        DistinctHas(s, s[0]);
      }
    }
    if s != [] && forall i :: 0 <= i < |s| ==> s[i] == s[0] {
      DistinctHas(s, s[0]);
      assert s[0] in d;
      if |d| > 1 {
        DistinctHas(s, d[0]);
        DistinctHas(s, d[1]);
        assert d[0] != d[1];
      }
    }
  }

  /** With a state asked for, a city resolves exactly when some candidate
      is in that state, and then to the first such candidate. */
  lemma ChooseWithState(candidates: seq<FuelRecord>, desired: string)
    requires candidates != [] && desired != []
    ensures var r := ChooseInState(candidates, desired);
            && (r.Resolved? <==> exists i :: 0 <= i < |candidates| && candidates[i].stateCode == desired)
            && (r.Resolved? ==>
                  r.snapshot.stateCode == desired
                  && exists i :: 0 <= i < |candidates| && r.snapshot == candidates[i]
                                 && forall j :: 0 <= j < i ==> candidates[j].stateCode != desired)
  {
    var found := FindFirst(candidates, InState(desired));
    if found.Some? {
      assert InState(desired)(candidates[found.value]);
    } else {
      assert forall j :: 0 <= j < |candidates| ==> !InState(desired)(candidates[j]);
    }
  }

  /** Without a state, a city resolves exactly when every candidate is in
      the first candidate's state, and then to the first candidate. */
  lemma ChooseWithoutState(candidates: seq<FuelRecord>)
    requires candidates != []
    ensures var r := ChooseInState(candidates, "");
            && (r.Resolved? <==> forall i :: 0 <= i < |candidates| ==> candidates[i].stateCode == candidates[0].stateCode)
            && (r.Resolved? ==> r.snapshot == candidates[0])
  {
    OneDistinct(StateCodes(candidates));
  }

  /** Not found exactly when the parameter gives no pattern (it has no
      letter or digit), there is no latest date, or no row matches; an
      empty parameter needs no check of its own. */
  lemma ResolveCityFromParamNotFound(cityParam: string, stateCode: Option<string>, latestDate: Option<string>,
                                     query: (string, string) -> seq<FuelRecord>)
    ensures var q := NormalizeCityParam(cityParam);
            ResolveCityFromParam(cityParam, stateCode, latestDate, query).NotFound? <==>
              BuildCityIlikePattern(q).None? || latestDate.None?
              || query(latestDate.value, BuildCityIlikePattern(q).value) == []
  {
    if NormalizeCityParam(cityParam) == [] {
      PatternOfEmpty();
    }
  }

  /** Once found, the candidates are the matching rows (with the
      Lakshadweep override). With a state asked for, a resolved city is in
      that state and an ambiguous result has no candidate there; without
      one, a resolved city is the first candidate and all candidates share
      its state, while an ambiguous result spans at least two states. */
  lemma ResolveCityFromParamChoice(cityParam: string, stateCode: Option<string>, latestDate: Option<string>,
                                   query: (string, string) -> seq<FuelRecord>)
    requires !ResolveCityFromParam(cityParam, stateCode, latestDate, query).NotFound?
    ensures var r := ResolveCityFromParam(cityParam, stateCode, latestDate, query);
            var desired := DesiredState(stateCode);
            && latestDate.Some?
            && r.candidates == Overridden(query(latestDate.value, BuildCityIlikePattern(NormalizeCityParam(cityParam)).value))
            && r.candidates != []
            && (r.Resolved? ==> r.snapshot in r.candidates)
            && (desired != [] ==>
                  && (r.Resolved? ==> r.snapshot.stateCode == desired)
                  && (r.Ambiguous? ==> forall i :: 0 <= i < |r.candidates| ==> r.candidates[i].stateCode != desired))
            && (desired == [] ==>
                  && (r.Resolved? ==> r.snapshot == r.candidates[0]
                                      && forall i :: 0 <= i < |r.candidates| ==> r.candidates[i].stateCode == r.snapshot.stateCode)
                  && (r.Ambiguous? ==> exists i :: 0 <= i < |r.candidates| && r.candidates[i].stateCode != r.candidates[0].stateCode))
  {
    var q := NormalizeCityParam(cityParam);
    var candidates := Overridden(query(latestDate.value, BuildCityIlikePattern(q).value));
    assert ResolveCityFromParam(cityParam, stateCode, latestDate, query) == ChooseInState(candidates, DesiredState(stateCode));
    if DesiredState(stateCode) != [] {
      ChooseWithState(candidates, DesiredState(stateCode));
    } else {
      ChooseWithoutState(candidates);
    }
  }

  /** The query resolveCityInStateFromParam looks for: Andhra Pradesh's
      "Kadapa" is stored as "Cuddapah". */
  function InStateQuery(state: string, cityQuery: string): string {
    if state == "AP" && NormalizeKey(cityQuery) == "kadapa" then "Cuddapah" else cityQuery
  }

  function NameMatches(queryNorm: string): FuelRecord -> bool {
    (c: FuelRecord) => NormalizeKey(c.cityName) == queryNorm
  }

  /** The choice within one state: the first candidate named as the
      query, else the only candidate. */
  function ChooseByName(candidates: seq<FuelRecord>, key: string): (r: Resolution)
    ensures r.NotFound? <==> candidates == []
    ensures !r.NotFound? ==> r.candidates == candidates
  {
    if candidates == [] then NotFound
    else
      var exact := FindFirst(candidates, NameMatches(key));
      if exact.Some? then Resolved(candidates[exact.value], candidates)
      else if |candidates| == 1 then Resolved(candidates[0], candidates)
      else Ambiguous(candidates)
  }

  /** A resolved city is the first candidate whose name normalises to the
      query's, or the only candidate when none does; ambiguous means
      several candidates and none named as the query. */
  lemma ChooseByNameProps(candidates: seq<FuelRecord>, key: string)
    ensures var r := ChooseByName(candidates, key);
            && (r.Resolved? ==>
                  (NormalizeKey(r.snapshot.cityName) == key
                   && exists i :: 0 <= i < |candidates| && r.snapshot == candidates[i]
                                  && forall j :: 0 <= j < i ==> NormalizeKey(candidates[j].cityName) != key)
                  || (candidates == [r.snapshot] && NormalizeKey(r.snapshot.cityName) != key))
            && (r.Ambiguous? <==>
                  |candidates| >= 2 && forall j :: 0 <= j < |candidates| ==> NormalizeKey(candidates[j].cityName) != key)
  {
    if candidates != [] {
      var exact := FindFirst(candidates, NameMatches(key));
      if exact.Some? {
        assert NameMatches(key)(candidates[exact.value]);
      } else {
        assert forall j :: 0 <= j < |candidates| ==> !NameMatches(key)(candidates[j]);
        if |candidates| == 1 {
          assert candidates == [candidates[0]];
        }
      }
    }
  }

  /** resolveCityInStateFromParam, given the latest date and the query of
      the latest day's rows of one state whose city matches a pattern,
      ordered by city. */
  function ResolveCityInStateFromParam(stateCode: string, cityParam: string, latestDate: Option<string>,
                                       query: (string, string, string) -> seq<FuelRecord>): Resolution
  {
    var state := Upper(stateCode);
    var cityQuery0 := NormalizeCityParam(cityParam);
    if state == [] || cityQuery0 == [] then NotFound
    else
      var cityQuery := InStateQuery(state, cityQuery0);
      var pattern := BuildCityIlikePattern(cityQuery);
      if pattern.None? || latestDate.None? then NotFound
      else ChooseByName(Overridden(query(latestDate.value, state, pattern.value)), NormalizeKey(cityQuery))
  }

  /** Not found without a state code, without a pattern (no letter or
      digit in the query), without a latest date, or when no row of the
      state matches. */
  lemma ResolveCityInStateNotFound(stateCode: string, cityParam: string, latestDate: Option<string>,
                                   query: (string, string, string) -> seq<FuelRecord>)
    ensures var state := Upper(stateCode);
            var q := InStateQuery(state, NormalizeCityParam(cityParam));
            ResolveCityInStateFromParam(stateCode, cityParam, latestDate, query).NotFound? <==>
              state == [] || BuildCityIlikePattern(q).None? || latestDate.None?
              || query(latestDate.value, state, BuildCityIlikePattern(q).value) == []
  {
    var q0 := NormalizeCityParam(cityParam);
    if q0 == [] {
      assert Tokens(q0) == [];
      assert NormalizeKey(q0) == [];
      PatternOfEmpty();
    }
  }

  /** Once found, a resolved city is the first candidate whose name
      normalises to the query's, or the only candidate when none does; an
      ambiguous result has several candidates and none named as the
      query. */
  lemma ResolveCityInStateChoice(stateCode: string, cityParam: string, latestDate: Option<string>,
                                 query: (string, string, string) -> seq<FuelRecord>)
    requires !ResolveCityInStateFromParam(stateCode, cityParam, latestDate, query).NotFound?
    ensures var r := ResolveCityInStateFromParam(stateCode, cityParam, latestDate, query);
            var key := NormalizeKey(InStateQuery(Upper(stateCode), NormalizeCityParam(cityParam)));
            && r.candidates != []
            && (r.Resolved? ==>
                  (NormalizeKey(r.snapshot.cityName) == key
                   && exists i :: 0 <= i < |r.candidates| && r.snapshot == r.candidates[i]
                                  && forall j :: 0 <= j < i ==> NormalizeKey(r.candidates[j].cityName) != key)
                  || (r.candidates == [r.snapshot] && NormalizeKey(r.snapshot.cityName) != key))
            && (r.Ambiguous? <==>
                  |r.candidates| >= 2 && forall j :: 0 <= j < |r.candidates| ==> NormalizeKey(r.candidates[j].cityName) != key)
  {
    var state := Upper(stateCode);
    var q := InStateQuery(state, NormalizeCityParam(cityParam));
    var candidates := Overridden(query(latestDate.value, state, BuildCityIlikePattern(q).value));
    assert ResolveCityInStateFromParam(stateCode, cityParam, latestDate, query) == ChooseByName(candidates, NormalizeKey(q));
    ChooseByNameProps(candidates, NormalizeKey(q));
  }

  /** In Andhra Pradesh a query for Kadapa searches for Cuddapah and
      resolves to the Cuddapah row when the query returns one. */
  lemma KadapaResolvesToCuddapah(cityParam: string)
    requires NormalizeKey(NormalizeCityParam(cityParam)) == "kadapa"
    ensures InStateQuery("AP", NormalizeCityParam(cityParam)) == "Cuddapah"
    ensures NormalizeKey("Cuddapah") == "cuddapah"
  {
    CuddapahKey();
  }

  lemma CuddapahKey()
    ensures NormalizeKey("Cuddapah") == "cuddapah"
  {
    var l := Lower("Cuddapah");
    assert l == "cuddapah" by {
      assert l[0] == LowerChar('C');
    }
    AlnumRunOfToken(l, []);
    assert l + [] == l;
    assert AlnumRun(l) == |l|;
    assert l[..|l|] == l && l[|l|..] == [];
    assert Tokens(l) == [l];
  }

  // ---------------------------------------------------------------------
  // The cheapest-petrol summary

  /** One row of the latest day's petrol query; `price` is none when it
      is null or not finite. */
  datatype PetrolRow = PetrolRow(city: string, stateCode: string, price: Option<real>)

  datatype CityPrice = CityPrice(city: string, stateCode: string, price: real)

  datatype CheapestSummary = CheapestSummary(
    date: string,
    count: nat,
    nationalAverage: Option<real>,
    cheapest: Option<CityPrice>,
    mostExpensive: Option<CityPrice>,
    top5: seq<CityPrice>)

  /** The row kept: a finite price strictly between 40 and 250. */
  function KeptPrice(r: PetrolRow): Option<CityPrice> {
    if r.price.Some? && 40.0 < r.price.value < 250.0 then Some(CityPrice(r.city, r.stateCode, r.price.value)) else None
  }

  function ByPrice(a: CityPrice, b: CityPrice): bool { a.price <= b.price }

  lemma ByPriceTotalPreorder()
    ensures TotalPreorder(ByPrice)
  {
  }

  /** `rows.reduce((acc, r) => acc + r.price, 0)` */
  function SumPrices(rows: seq<CityPrice>): real
    decreases |rows|
  {
    if rows == [] then 0.0 else SumPrices(rows[..|rows| - 1]) + rows[|rows| - 1].price
  }

  /** getCheapestPetrolSummaryLatest after its query: none without a
      latest date; the kept rows in ascending price order, their count,
      mean, first, last and first five. */
  function CheapestPetrolSummary(latestDate: Option<string>, rows: seq<PetrolRow>): Option<CheapestSummary>
  {
    if latestDate.None? then None
    else
      var kept := Collect(rows, KeptPrice);
      if kept == [] then Some(CheapestSummary(latestDate.value, 0, None, None, None, []))
      else
        var sorted := Sort(kept, ByPrice);
        var avg := SumPrices(sorted) / (|sorted| as real);
        Some(CheapestSummary(latestDate.value, |sorted|, Some(avg), Some(sorted[0]), Some(sorted[|sorted| - 1]),
                             Take(sorted, 5)))
  }

  /** The sum lies between the count times the smallest and the count
      times the largest price. */
  lemma {:induction false} SumBounds(rows: seq<CityPrice>, lo: real, hi: real)
    requires forall i :: 0 <= i < |rows| ==> lo <= rows[i].price <= hi
    ensures (|rows| as real) * lo <= SumPrices(rows) <= (|rows| as real) * hi
    decreases |rows|
  {
    if rows != [] {
      SumBounds(rows[..|rows| - 1], lo, hi);
    }
  }

  /** Every kept row is priced strictly between 40 and 250. */
  lemma KeptInBand(rows: seq<PetrolRow>)
    ensures forall x :: x in Collect(rows, KeptPrice) ==> 40.0 < x.price < 250.0
  {
    forall x | x in Collect(rows, KeptPrice) ensures 40.0 < x.price < 250.0 {
      CollectHas(rows, KeptPrice, x);
    }
  }

  /** In a list sorted by price the first is the cheapest and the last
      the dearest. */
  lemma SortedExtremes(sorted: seq<CityPrice>)
    requires sorted != [] && SortedBy(sorted, ByPrice)
    ensures forall x :: x in sorted ==> sorted[0].price <= x.price <= sorted[|sorted| - 1].price
  {
    forall x | x in sorted ensures sorted[0].price <= x.price <= sorted[|sorted| - 1].price {
      var i :| 0 <= i < |sorted| && sorted[i] == x;
      if 0 < i { assert ByPrice(sorted[0], sorted[i]); }
      if i < |sorted| - 1 { assert ByPrice(sorted[i], sorted[|sorted| - 1]); }
    }
  }

  /** The first five of a list sorted by price are sorted and priced at
      most every row left out. */
  lemma TopFive(sorted: seq<CityPrice>)
    requires SortedBy(sorted, ByPrice)
    ensures SortedBy(Take(sorted, 5), ByPrice)
    ensures multiset(Take(sorted, 5)) <= multiset(sorted)
    ensures forall x: CityPrice, y: CityPrice :: x in Take(sorted, 5) && y in multiset(sorted) - multiset(Take(sorted, 5)) ==> x.price <= y.price
  {
    var top := Take(sorted, 5);
    var rest := sorted[|top|..];
    PrefixAndRest(sorted, |top|);
    forall x: CityPrice, y: CityPrice | x in top && y in multiset(rest) ensures x.price <= y.price {
      PrefixBeforeRest(sorted, |top|, x, y);
    }
  }

  /** A list is its prefix followed by the rest, as a multiset too. */
  lemma PrefixAndRest(s: seq<CityPrice>, k: nat)
    requires k <= |s|
    ensures multiset(s[..k]) <= multiset(s)
    ensures multiset(s) - multiset(s[..k]) == multiset(s[k..])
  {
    assert s == s[..k] + s[k..];
    assert multiset(s) == multiset(s[..k]) + multiset(s[k..]);
  }

  /** In a list sorted by price, a row of a prefix is priced at most every
      row after it. */
  lemma PrefixBeforeRest(s: seq<CityPrice>, k: nat, x: CityPrice, y: CityPrice)
    requires SortedBy(s, ByPrice) && k <= |s|
    requires x in s[..k] && y in multiset(s[k..])
    ensures x.price <= y.price
  {
    var i :| 0 <= i < k && s[..k][i] == x;
    assert y in s[k..];
    var j :| 0 <= j < |s| - k && s[k..][j] == y;
    assert ByPrice(s[i], s[k + j]);
  }

  /** The summary is none without a latest date; the count is the
      number of rows priced strictly between 40 and 250; without any, no
      average, cheapest, most expensive or top five. */
  lemma CheapestPetrolSummaryCount(latestDate: Option<string>, rows: seq<PetrolRow>)
    ensures CheapestPetrolSummary(latestDate, rows).None? <==> latestDate.None?
    ensures var kept := Collect(rows, KeptPrice);
            var r := CheapestPetrolSummary(latestDate, rows);
            r.Some? ==>
              && r.value.date == latestDate.value
              && r.value.count == |kept|
              && (forall x :: x in kept ==> 40.0 < x.price < 250.0)
              && (r.value.count == 0 <==> r.value.nationalAverage.None?)
              && (r.value.count == 0 ==> r.value.cheapest.None? && r.value.mostExpensive.None? && r.value.top5 == [])
  {
    KeptInBand(rows);
  }

  /** With kept rows, the cheapest and most expensive are kept rows priced
      at most and at least every kept row, and the average lies between
      them. */
  lemma CheapestPetrolSummaryExtremes(latestDate: string, rows: seq<PetrolRow>)
    requires Collect(rows, KeptPrice) != []
    ensures var kept := Collect(rows, KeptPrice);
            var r := CheapestPetrolSummary(Some(latestDate), rows).value;
            && r.cheapest.Some? && r.mostExpensive.Some? && r.nationalAverage.Some?
            && r.cheapest.value in kept && r.mostExpensive.value in kept
            && (forall x :: x in kept ==> r.cheapest.value.price <= x.price <= r.mostExpensive.value.price)
            && r.cheapest.value.price <= r.nationalAverage.value <= r.mostExpensive.value.price
  {
    var kept := Collect(rows, KeptPrice);
    var sorted := Sort(kept, ByPrice);
    ByPriceTotalPreorder();
    SortSorted(kept, ByPrice);
    SortedExtremes(sorted);
    var lo := sorted[0];
    var hi := sorted[|sorted| - 1];
    var r := CheapestPetrolSummary(Some(latestDate), rows).value;
    assert r.cheapest == Some(lo) && r.mostExpensive == Some(hi);
    assert r.nationalAverage == Some(SumPrices(sorted) / (|sorted| as real));
    forall x | x in kept ensures lo.price <= x.price <= hi.price {
      assert x in multiset(kept);
    }
    assert lo in multiset(kept) && hi in multiset(kept);
    MeanOfSorted(sorted);
  }

  /** The mean of a list sorted by price lies between its first and last
      prices. */
  lemma MeanOfSorted(sorted: seq<CityPrice>)
    requires sorted != [] && SortedBy(sorted, ByPrice)
    ensures sorted[0].price <= SumPrices(sorted) / (|sorted| as real) <= sorted[|sorted| - 1].price
  {
    SortedExtremes(sorted);
    assert forall i :: 0 <= i < |sorted| ==> sorted[i] in sorted;
    MeanWithin(sorted, sorted[0].price, sorted[|sorted| - 1].price);
  }

  /** The mean of prices that all lie in a range lies in it. */
  lemma MeanWithin(rows: seq<CityPrice>, lo: real, hi: real)
    requires rows != []
    requires forall i :: 0 <= i < |rows| ==> lo <= rows[i].price <= hi
    ensures lo <= SumPrices(rows) / (|rows| as real) <= hi
  {
    SumBounds(rows, lo, hi);
    var s := SumPrices(rows);
    var n := |rows|;
    assert (n as real) * lo <= s <= (n as real) * hi;
    MeanBetween(s, n, lo, hi);
  }

  lemma MeanBetween(sum: real, n: nat, lo: real, hi: real)
    requires n > 0 && (n as real) * lo <= sum <= (n as real) * hi
    ensures lo <= sum / (n as real) <= hi
  {
  }

  /** With kept rows, the top five are the cheapest kept rows, at most
      five of them, in ascending order. */
  lemma CheapestPetrolSummaryTop5(latestDate: string, rows: seq<PetrolRow>)
    requires Collect(rows, KeptPrice) != []
    ensures var kept := Collect(rows, KeptPrice);
            var top5 := CheapestPetrolSummary(Some(latestDate), rows).value.top5;
            && |top5| == (if |kept| < 5 then |kept| else 5)
            && SortedBy(top5, ByPrice)
            && multiset(top5) <= multiset(kept)
            && (forall x: CityPrice, y: CityPrice :: x in top5 && y in multiset(kept) - multiset(top5) ==> x.price <= y.price)
  {
    var kept := Collect(rows, KeptPrice);
    ByPriceTotalPreorder();
    SortSorted(kept, ByPrice);
    TopFive(Sort(kept, ByPrice));
  }

  // ---------------------------------------------------------------------
  // The history window and the latest cities

  /** `since` in getCityHistoryByKey: `max(days, 1) - 1` days before the
      city's latest date. */
  function CityHistorySince(latestDate: string, days: int, today: string): string {
    AddDays(latestDate, -DaysBack(days), today)
  }

  /** `Math.max(days, 1) - 1` */
  function DaysBack(days: int): (n: int)
    ensures n >= 0 && (days >= 1 ==> n == days - 1) && (days < 1 ==> n == 0)
  {
    (if days < 1 then 1 else days) - 1
  }

  /** The window always holds the latest date: `since` sorts no later
      than it, and is exactly `max(days, 1) - 1` days before it. */
  lemma CityHistorySinceHoldsLatest(latest: Date, days: int, today: string)
    requires Valid(latest) && 1000 <= latest.year <= 9999
    requires 1000 <= Shift(latest, -DaysBack(days)).year
    ensures AddDays(CityHistorySince(FormatDate(latest), days, today), DaysBack(days), today) == FormatDate(latest)
    ensures StrLe(CityHistorySince(FormatDate(latest), days, today), FormatDate(latest))
  {
    WindowHoldsLatest(latest, DaysBack(days), today);
  }

  /** `n` days back from a date, then `n` days forward, is the date, and
      the earlier text sorts first. */
  lemma WindowHoldsLatest(latest: Date, n: int, today: string)
    requires Valid(latest) && 1000 <= latest.year <= 9999 && n >= 0
    requires 1000 <= Shift(latest, -n).year
    ensures AddDays(AddDays(FormatDate(latest), -n, today), n, today) == FormatDate(latest)
    ensures StrLe(AddDays(FormatDate(latest), -n, today), FormatDate(latest))
  {
    var since := Shift(latest, -n);
    AddDaysOfValid(latest, -n, today);
    ShiftBackNotAfter(latest, -n);
    assert since.year <= latest.year;
    AddDaysOfValid(since, n, today);
    ShiftBackForth(latest, n);
    FormatDateMonotone(since, latest);
  }

  /** getCitiesInStateLatest after its query: nothing without a code or a
      latest date, otherwise each city name once, in the query's order. */
  function CitiesInStateLatest(stateCode: string, latestDate: Option<string>, names: seq<string>): (r: seq<string>)
    ensures Upper(stateCode) == [] || latestDate.None? ==> r == []
    ensures Upper(stateCode) != [] && latestDate.Some? ==>
              NoDuplicates(r) && forall c :: c in r <==> c in names
    ensures forall i, j :: 0 <= i < j < |r| ==> OccursBefore(names, r[i], r[j])
  {
    if Upper(stateCode) == [] || latestDate.None? then []
    else
      DistinctProps(names);
      DistinctOrder(names);
      Distinct(names)
  }
}
