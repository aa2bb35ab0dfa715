/** What scrapeAndUpsertAllStatesFromStateTables (lib/myFuelSourceBatch.ts)
    decides for one state before it writes: the city keys, the names and
    slugs it gives them, the LPG and CNG medians and coverage, whether a
    re-fetch is needed, the sample check and the keys it re-fetches. */
module BatchKeys {
  import opened Common
  import opened Sorting
  import opened Dedup
  import opened Folds
  import opened BatchNames
  import opened BatchValidation
  import opened BatchTable

  /** A state page's city map with its keys in insertion order. This is the
      order `Object.keys` and `Object.values` use for keys that are not
      integer-like; such keys, which they list first, are not modelled. */
  datatype FuelPage = FuelPage(keys: seq<string>, prices: PriceMap)

  ghost predicate WellKeyed(p: FuelPage) {
    NoDuplicates(p.keys) && forall k :: k in p.prices <==> k in p.keys
  }

  /** An entry of `CITY_SLUGS[state.code]`. */
  datatype SlugEntry = SlugEntry(city: string, slug: string)

  /** `fuelMap[k]?.price ?? null` */
  function PriceAt(m: PriceMap, k: string): (r: Option<real>)
    ensures r.Some? <==> k in m
    ensures r.Some? ==> r.value == m[k].price
  {
    if k in m then Some(m[k].price) else None
  }

  // ---------------------------------------------------------------------
  // City keys, names and configured slugs

  /** The keys the page maps contribute: the petrol page's, or, when it has
      none, those of all four pages in turn. */
  function PageKeys(petrol: FuelPage, diesel: FuelPage, lpg: FuelPage, cng: FuelPage): seq<string>
  {
    if petrol.keys != [] then petrol.keys else petrol.keys + diesel.keys + lpg.keys + cng.keys
  }

  /** The non-empty keys of the configured entries, in order. */
  function EntryKeys(entries: seq<SlugEntry>): (r: seq<string>)
    ensures forall i :: 0 <= i < |r| ==> r[i] != []
  {
    if entries == [] then []
    else
      var key := NormalizeCityName(entries[|entries| - 1].city);
      EntryKeys(entries[..|entries| - 1]) + (if key == [] then [] else [key])
  }

  /** A configured entry's key paired with one of its fields. */
  function NameEntry(e: SlugEntry): Option<(string, string)>
  {
    var key := NormalizeCityName(e.city);
    if key == [] then None else Some((key, e.city))
  }

  function GeneratedSlugEntry(e: SlugEntry): Option<(string, string)>
  {
    var key := NormalizeCityName(e.city);
    if key == [] then None else Some((key, e.slug))
  }

  /** `if (!m[key]) m[key] = value`: an empty string counts as unset. */
  function SetIfFalsy(entry: SlugEntry -> Option<(string, string)>): (map<string, string>, SlugEntry) -> map<string, string>
  {
    (m: map<string, string>, e: SlugEntry) =>
      if entry(e).Some? && (entry(e).value.0 !in m || m[entry(e).value.0] == [])
      then m[entry(e).value.0 := entry(e).value.1] else m
  }

  /** One step of `if (!m[key]) m[key] = value` for an entry with that key
      and value, none when the key is empty. */
  lemma SetIfFalsyStep(entry: SlugEntry -> Option<(string, string)>, m: map<string, string>, e: SlugEntry, key: string, v: string)
    requires entry(e) == if key == [] then None else Some((key, v))
    ensures SetIfFalsy(entry)(m, e) == if key != [] && (key !in m || m[key] == []) then m[key := v] else m
  {
  }

  /** slugCityNameByKey */
  function SlugCityNames(entries: seq<SlugEntry>): map<string, string>
  {
    Fold(map[], entries, SetIfFalsy(NameEntry))
  }

  /** slugByCityKeyFromGenerated */
  function GeneratedSlugs(entries: seq<SlugEntry>): map<string, string>
  {
    Fold(map[], entries, SetIfFalsy(GeneratedSlugEntry))
  }

  /** configuredCityKeys, in insertion order. */
  function ConfiguredKeys(entries: seq<SlugEntry>): seq<string>
  {
    Distinct(EntryKeys(entries))
  }

  /** allCityKeys, in insertion order. */
  function AllCityKeys(pageKeys: seq<string>, entries: seq<SlugEntry>): seq<string>
  {
    Distinct(pageKeys + EntryKeys(entries))
  }

  /** The city keys are the page keys and the configured keys, each once. */
  lemma AllCityKeysProps(pageKeys: seq<string>, entries: seq<SlugEntry>)
    ensures forall k :: k in AllCityKeys(pageKeys, entries) <==> k in pageKeys || k in EntryKeys(entries)
    ensures NoDuplicates(AllCityKeys(pageKeys, entries))
    ensures forall k :: k in ConfiguredKeys(entries) ==> k in AllCityKeys(pageKeys, entries)
    ensures NoDuplicates(ConfiguredKeys(entries))
  {
    DistinctProps(pageKeys + EntryKeys(entries));
    DistinctProps(EntryKeys(entries));
  }

  lemma NameStepKeyed(a: map<string, string>, e: SlugEntry)
    requires forall k :: k in a ==> k != [] && NormalizeCityName(a[k]) == k
    ensures var b := SetIfFalsy(NameEntry)(a, e);
            forall k :: k in b ==> k != [] && NormalizeCityName(b[k]) == k
  {
    var key := NormalizeCityName(e.city);
    var step := SetIfFalsy(NameEntry);
    assert NameEntry(e) == if key == [] then None else Some((key, e.city));
    if key != [] && (key !in a || a[key] == []) {
      assert step(a, e) == a[key := e.city];
      assert NormalizeCityName(e.city) == key;
    } else {
      assert step(a, e) == a;
    }
  }

  /** Every configured name is keyed by its own normal form. */
  lemma SlugCityNamesKeyed(entries: seq<SlugEntry>)
    ensures forall k :: k in SlugCityNames(entries) ==>
              k != [] && NormalizeCityName(SlugCityNames(entries)[k]) == k
  {
    var step := SetIfFalsy(NameEntry);
    var inv := (m: map<string, string>) => forall k :: k in m ==> k != [] && NormalizeCityName(m[k]) == k;
    forall a, e | inv(a) ensures inv(step(a, e)) {
      NameStepKeyed(a, e);
    }
    FoldInvariant(map[], entries, step, inv);
  }

  /** One more configured entry adds its key, if it has one, to both key
      lists unless they hold it already. */
  lemma KeyListsStep(pageKeys: seq<string>, entries: seq<SlugEntry>, i: int)
    requires 0 <= i < |entries|
    ensures var key := NormalizeCityName(entries[i].city);
            var before := EntryKeys(entries[..i]);
            && (key == [] ==> EntryKeys(entries[..i + 1]) == before)
            && (key != [] ==>
                  && Distinct(EntryKeys(entries[..i + 1])) == Distinct(before) + (if key in Distinct(before) then [] else [key])
                  && Distinct(pageKeys + EntryKeys(entries[..i + 1]))
                     == Distinct(pageKeys + before) + (if key in Distinct(pageKeys + before) then [] else [key]))
  {
    var key := NormalizeCityName(entries[i].city);
    var before := EntryKeys(entries[..i]);
    assert entries[..i + 1][..i] == entries[..i];
    if key != [] {
      assert EntryKeys(entries[..i + 1]) == before + [key];
      assert pageKeys + (before + [key]) == (pageKeys + before) + [key];
      DistinctSnoc(before, key);
      DistinctSnoc(pageKeys + before, key);
      DistinctProps(before);
      DistinctProps(pageKeys + before);
    }
  }

  /** The loop over the configured entries, adding to the maps and the two
      key sets. */
  method ReadSlugEntries(pageKeys: seq<string>, entries: seq<SlugEntry>)
      returns (names: map<string, string>, slugs: map<string, string>, configured: seq<string>, all: seq<string>)
    ensures names == SlugCityNames(entries) && slugs == GeneratedSlugs(entries)
    ensures configured == ConfiguredKeys(entries) && all == AllCityKeys(pageKeys, entries)
  {
    names := map[];
    slugs := map[];
    configured := [];
    all := Distinct(pageKeys);
    assert pageKeys + EntryKeys(entries[..0]) == pageKeys;
    for i := 0 to |entries|
      invariant names == Fold(map[], entries[..i], SetIfFalsy(NameEntry))
      invariant slugs == Fold(map[], entries[..i], SetIfFalsy(GeneratedSlugEntry))
      invariant configured == Distinct(EntryKeys(entries[..i]))
      invariant all == Distinct(pageKeys + EntryKeys(entries[..i]))
    {
      var e := entries[i];
      var key := NormalizeCityName(e.city);
      FoldSnoc(map[], entries, i, SetIfFalsy(NameEntry));
      FoldSnoc(map[], entries, i, SetIfFalsy(GeneratedSlugEntry));
      SetIfFalsyStep(NameEntry, names, e, key, e.city);
      SetIfFalsyStep(GeneratedSlugEntry, slugs, e, key, e.slug);
      KeyListsStep(pageKeys, entries, i);
      if key == [] {
        continue;
      }
      if key !in names || names[key] == [] {
        names := names[key := e.city];
      }
      if key !in slugs || slugs[key] == [] {
        slugs := slugs[key := e.slug];
      }
      if key !in configured {
        configured := configured + [key];
      }
      if key !in all {
        all := all + [key];
      }
    }
    assert entries[..|entries|] == entries;
  }

  // ---------------------------------------------------------------------
  // Medians and coverage

  /** `Object.values(m).map(v => v?.price ?? null).filter(isValid)` */
  function ValidValues(keys: seq<string>, m: PriceMap, fuel: FuelType): (r: seq<real>)
    ensures |r| <= |keys|
    ensures forall i :: 0 <= i < |r| ==> IsValidFuelPrice(fuel, Some(r[i]))
  {
    if keys == [] then []
    else
      var k := keys[|keys| - 1];
      ValidValues(keys[..|keys| - 1], m, fuel)
        + (if IsValidFuelPrice(fuel, PriceAt(m, k)) then [m[k].price] else [])
  }

  /** `cityCount ? valid.length / cityCount : 0` */
  function Coverage(valid: nat, cityCount: nat): real
  {
    if cityCount == 0 then 0.0 else valid as real / cityCount as real
  }

  /** Coverage below a quarter means fewer valid prices than a quarter of
      the cities, or no cities at all. */
  lemma LowCoverage(valid: nat, cityCount: nat)
    ensures Coverage(valid, cityCount) < 0.25 <==> cityCount == 0 || 4 * valid < cityCount
  {
    if cityCount > 0 {
      DivBelow(valid as real, cityCount as real, 0.25);
    }
  }

  lemma DivBelow(v: real, n: real, t: real)
    requires n > 0.0
    ensures v / n < t <==> v < t * n
  {
    var q := v / n;
    assert q * n == v;
    if q < t {
      assert (t - q) * n > 0.0;
    } else {
      assert (q - t) * n >= 0.0;
    }
  }

  /** shouldFilterSuspects: at least 10 valid prices and a quarter of the
      cities covered. */
  predicate ShouldFilterSuspects(valid: nat, cityCount: nat) {
    valid >= 10 && Coverage(valid, cityCount) >= 0.25
  }

  // ---------------------------------------------------------------------
  // Names and slugs for a key

  /** The maps the per-key lookups read. */
  datatype Lookup = Lookup(
    petrol: PriceMap, diesel: PriceMap, lpg: PriceMap, cng: PriceMap,
    slugNames: map<string, string>,
    generated: map<string, string>,
    fromLinks: map<string, string>)

  /** getCityNameForKey: the first page map that has the key, then the
      configured name, then the key itself. */
  function NameOf(L: Lookup, k: string): string
  {
    if k in L.petrol then L.petrol[k].city
    else if k in L.diesel then L.diesel[k].city
    else if k in L.lpg then L.lpg[k].city
    else if k in L.cng then L.cng[k].city
    else if k in L.slugNames then L.slugNames[k]
    else k
  }

  /** getSlugForKey: the petrol link's slug, a slug from the petrol page's
      links, the configured slug, or the slug made from the name. */
  function SlugOf(L: Lookup, k: string): Option<string>
  {
    if k in L.petrol && L.petrol[k].slug.Some? then L.petrol[k].slug
    else if k in L.fromLinks then Some(L.fromLinks[k])
    else if k in L.generated then Some(L.generated[k])
    else SlugifyCityName(NameOf(L, k))
  }

  /** A slug that passes `if (!slug)`. */
  predicate Usable(slug: Option<string>) { slug.Some? && slug.value != [] }

  /** A key without a petrol link slug, a link slug or a configured slug
      gets a slug exactly when its name has a letter or digit. */
  lemma SlugFallback(L: Lookup, k: string)
    requires !(k in L.petrol && L.petrol[k].slug.Some?) && k !in L.fromLinks && k !in L.generated
    ensures Usable(SlugOf(L, k)) <==> exists i :: 0 <= i < |NameOf(L, k)| && IsAlnum(NameOf(L, k)[i])
  {
  }

  /** Every name a key gets has that key as its normal form, when the maps
      are keyed by their cities' normal forms and the key is normal. */
  predicate KeyedByCity(m: PriceMap) {
    forall k :: k in m ==> NormalizeCityName(m[k].city) == k
  }

  predicate NamesKeyed(L: Lookup) {
    && KeyedByCity(L.petrol) && KeyedByCity(L.diesel) && KeyedByCity(L.lpg) && KeyedByCity(L.cng)
    && forall k :: k in L.slugNames ==> NormalizeCityName(L.slugNames[k]) == k
  }

  lemma NameOfKeyed(L: Lookup, k: string)
    requires NamesKeyed(L) && NormalizeCityName(k) == k
    ensures NormalizeCityName(NameOf(L, k)) == k
  {
  }

  // ---------------------------------------------------------------------
  // Need for a re-fetch, and the sample check

  function FuelMap(L: Lookup, fuel: FuelType): PriceMap
  {
    if fuel == Lpg then L.lpg else L.cng
  }

  /** lpgBad / cngBad: missing, out of range, or far from the median. */
  predicate IsBad(fuel: FuelType, p: Option<real>, med: Option<real>) {
    p.None? || !IsValidFuelPrice(fuel, p) || (IsValidFuelPrice(fuel, p) && IsSuspectByMedian(fuel, p.value, med))
  }

  /** hasBackfillNeed */
  predicate HasBackfillNeed(L: Lookup, keys: seq<string>, lpgMed: Option<real>, cngMed: Option<real>,
                            lpgCoverage: real, cngCoverage: real) {
    (exists i :: 0 <= i < |keys| && (IsBad(Lpg, PriceAt(L.lpg, keys[i]), lpgMed) || IsBad(Cng, PriceAt(L.cng, keys[i]), cngMed)))
    || lpgCoverage < 0.25 || cngCoverage < 0.25
  }

  /** A key `sampleKeysForFuel` may sample: a valid price and a slug. */
  predicate Sampleable(L: Lookup, fuel: FuelType, k: string) {
    IsValidFuelPrice(fuel, PriceAt(FuelMap(L, fuel), k)) && Usable(SlugOf(L, k))
  }

  /** The first `m` elements a filter keeps are those it keeps from some
      prefix, which is the whole list unless `m` were found. */
  lemma {:induction false} TakeFilterPrefix<T>(s: seq<T>, p: T -> bool, m: nat)
    ensures exists n :: 0 <= n <= |s| && Take(Filter(s, p), m) == Filter(s[..n], p)
                        && (|Take(Filter(s, p), m)| == m || n == |s|)
    decreases |s|
  {
    if s == [] || m == 0 {
      assert Take(Filter(s, p), m) == Filter(s[..0], p);
    } else {
      var m' := if p(s[0]) then m - 1 else m;
      TakeFilterPrefix(s[1..], p, m');
      var n' :| 0 <= n' <= |s[1..]| && Take(Filter(s[1..], p), m') == Filter(s[1..][..n'], p)
                 && (|Take(Filter(s[1..], p), m')| == m' || n' == |s[1..]|);
      var pre := s[..n' + 1];
      assert pre[0] == s[0] && pre[1..] == s[1..][..n'];
      var f := Filter(s[1..], p);
      if p(s[0]) {
        assert Filter(s, p) == [s[0]] + f;
        assert Take([s[0]] + f, m) == [s[0]] + Take(f, m - 1);
      }
      assert Take(Filter(s, p), m) == Filter(pre, p);
    }
  }

  /** `r` is what a filter keeps from the first `n` elements of `s`, and
      either `m` were kept or those are all of `s`: the first `m` kept. */
  ghost predicate FirstPicked<T>(r: seq<T>, s: seq<T>, p: T -> bool, m: nat, n: int) {
    0 <= n <= |s| && (|r| == m || n == |s|) && exists idx :: PicksAt(r, s[..n], p, idx)
  }

  /** The first `m` elements a filter keeps, picked from that prefix. */
  lemma TakeFilterPicks<T>(s: seq<T>, p: T -> bool, m: nat)
    ensures exists n :: FirstPicked(Take(Filter(s, p), m), s, p, m, n)
  {
    TakeFilterPrefix(s, p, m);
    var n :| 0 <= n <= |s| && Take(Filter(s, p), m) == Filter(s[..n], p)
             && (|Take(Filter(s, p), m)| == m || n == |s|);
    FilterPicks(s[..n], p);
    assert FirstPicked(Take(Filter(s, p), m), s, p, m, n);
  }

  /** The filter `sampleKeysForFuel` applies. */
  function SampleTest(L: Lookup, fuel: FuelType): string -> bool
  {
    (k: string) => Sampleable(L, fuel, k)
  }

  /** `r` is the first two sampleable keys among `keys`, found in its
      first `n` keys (all of them, when fewer than two qualify). */
  ghost predicate FirstSamples(r: seq<string>, L: Lookup, keys: seq<string>, fuel: FuelType, n: int) {
    FirstPicked(r, keys, SampleTest(L, fuel), 2, n)
  }

  /** sampleKeysForFuel: the first two keys with a valid price and a slug. */
  function SampleKeys(L: Lookup, keys: seq<string>, fuel: FuelType): (r: seq<string>)
    ensures |r| <= 2
    ensures forall i :: 0 <= i < |r| ==> r[i] in keys && Sampleable(L, fuel, r[i])
    ensures exists n :: FirstSamples(r, L, keys, fuel, n)
  {
    var q := SampleTest(L, fuel);
    FilterMembers(keys, q);
    var r := Take(Filter(keys, q), 2);
    assert exists n :: FirstSamples(r, L, keys, fuel, n) by {
      TakeFilterPicks(keys, q, 2);
      var n :| FirstPicked(r, keys, q, 2, n);
      assert FirstSamples(r, L, keys, fuel, n);
    }
    r
  }

  /** Fewer than two samples means every sampleable key was taken. */
  lemma SampleKeysAllWhenFew(L: Lookup, keys: seq<string>, fuel: FuelType)
    ensures |SampleKeys(L, keys, fuel)| < 2 ==>
              forall k :: k in keys && Sampleable(L, fuel, k) ==> k in SampleKeys(L, keys, fuel)
  {
    var r := SampleKeys(L, keys, fuel);
    if |r| < 2 {
      var n :| FirstSamples(r, L, keys, fuel, n);
      assert n == |keys| && keys[..n] == keys;
      var idx :| PicksAt(r, keys, SampleTest(L, fuel), idx);
      forall k | k in keys && Sampleable(L, fuel, k) ensures k in r {
        var j :| 0 <= j < |keys| && keys[j] == k;
        assert SampleTest(L, fuel)(keys[j]);
        var i :| 0 <= i < |idx| && idx[i] == j;
        assert r[i] == k;
      }
    }
  }

  /** The tolerance of the sample check: 0.25 for LPG, 0.35 for CNG. */
  function SampleTolerance(fuel: FuelType): real
  {
    if fuel == Lpg then 0.25 else 0.35
  }

  function Max(a: real, b: real): real { if a >= b then a else b }

  /** One sample disagrees: the city page and the state table both give a
      valid price, and they differ by more than the tolerance of the
      larger. */
  predicate SampleDisagrees(L: Lookup, k: string, fuel: FuelType, fetch: (FuelType, string) -> Option<real>) {
    Usable(SlugOf(L, k))
    && var res := fetch(fuel, SlugOf(L, k).value);
       var sp := PriceAt(FuelMap(L, fuel), k);
       IsValidFuelPrice(fuel, res) && IsValidFuelPrice(fuel, sp)
       && Abs(res.value - sp.value) / Max(res.value, sp.value) > SampleTolerance(fuel)
  }

  /** lpgMismatch / cngMismatch: some sample disagrees. */
  predicate Mismatch(L: Lookup, sample: seq<string>, fuel: FuelType, fetch: (FuelType, string) -> Option<real>)
  {
    exists i :: 0 <= i < |sample| && SampleDisagrees(L, sample[i], fuel, fetch)
  }

  /** One pass of the sample loop: fetch the city page's price and compare
      it with the state table's. */
  method CheckSample(L: Lookup, k: string, fuel: FuelType, fetch: (FuelType, string) -> Option<real>)
      returns (disagrees: bool)
    ensures disagrees == SampleDisagrees(L, k, fuel, fetch)
  {
    var slug := SlugOf(L, k);
    if !Usable(slug) {
      return false;
    }
    var res := fetch(fuel, slug.value);
    var sp := PriceAt(FuelMap(L, fuel), k);
    if !(IsValidFuelPrice(fuel, res) && IsValidFuelPrice(fuel, sp)) {
      return false;
    }
    var rel := Abs(res.value - sp.value) / Max(res.value, sp.value);
    disagrees := rel > SampleTolerance(fuel);
  }

  /** The sample loop, which sets the flag for any disagreeing sample. */
  method CheckSamples(L: Lookup, sample: seq<string>, fuel: FuelType, fetch: (FuelType, string) -> Option<real>)
      returns (mismatch: bool)
    ensures mismatch == Mismatch(L, sample, fuel, fetch)
  {
    mismatch := false;
    for i := 0 to |sample|
      invariant mismatch == AnyOf(sample[..i], Disagrees(L, fuel, fetch))
    {
      var d := CheckSample(L, sample[i], fuel, fetch);
      AnyOfStep(sample, i, Disagrees(L, fuel, fetch));
      if d {
        mismatch := true;
      }
    }
    assert sample[..|sample|] == sample;
    MismatchIsAnyOf(L, sample, fuel, fetch);
  }

  function Disagrees(L: Lookup, fuel: FuelType, fetch: (FuelType, string) -> Option<real>): string -> bool
  {
    (k: string) => SampleDisagrees(L, k, fuel, fetch)
  }

  lemma MismatchIsAnyOf(L: Lookup, sample: seq<string>, fuel: FuelType, fetch: (FuelType, string) -> Option<real>)
    ensures Mismatch(L, sample, fuel, fetch) == AnyOf(sample, Disagrees(L, fuel, fetch))
  {
    AnyOfIff(sample, Disagrees(L, fuel, fetch));
  }

  // ---------------------------------------------------------------------
  // Keys to re-fetch

  /** lpgSuspectKeys / cngSuspectKeys */
  function SuspectKeys(L: Lookup, keys: seq<string>, fuel: FuelType, med: Option<real>): seq<string>
  {
    Filter(keys, (k: string) => !IsValidFuelPrice(fuel, PriceAt(FuelMap(L, fuel), k))
                                || IsSuspectByMedian(fuel, PriceAt(FuelMap(L, fuel), k).value, med))
  }

  function MissingKeys(L: Lookup, suspects: seq<string>, fuel: FuelType): seq<string>
  {
    Filter(suspects, (k: string) => !IsValidFuelPrice(fuel, PriceAt(FuelMap(L, fuel), k)))
  }

  function OutlierKeys(L: Lookup, suspects: seq<string>, fuel: FuelType): seq<string>
  {
    Filter(suspects, (k: string) => IsValidFuelPrice(fuel, PriceAt(FuelMap(L, fuel), k)))
  }

  /** The comparator `aC - bC`: configured keys (0) before the rest (1). */
  function Rank(configured: seq<string>, k: string): int { if k in configured then 0 else 1 }

  function ConfiguredFirst(configured: seq<string>): (string, string) -> bool
  {
    (a: string, b: string) => Rank(configured, a) <= Rank(configured, b)
  }

  /** `[...missing.sort(configuredFirst), ...outliers.filter(k => !missingSet.has(k))]` */
  function Prioritized(L: Lookup, keys: seq<string>, configured: seq<string>, fuel: FuelType, med: Option<real>): seq<string>
  {
    var suspects := SuspectKeys(L, keys, fuel, med);
    var missing := Sort(MissingKeys(L, suspects, fuel), ConfiguredFirst(configured));
    missing + Filter(OutlierKeys(L, suspects, fuel), (k: string) => k !in missing)
  }

  /** prioritizedAllCityKeys */
  function PrioritizedAll(configured: seq<string>, keys: seq<string>): seq<string>
  {
    Distinct(configured + keys)
  }

  /** lpgKeysToFetch / cngKeysToFetch: all keys, configured first, up to 80
      when coverage is low or the sample disagreed; otherwise the
      prioritised suspects, up to 25. */
  function KeysToFetch(L: Lookup, keys: seq<string>, configured: seq<string>, fuel: FuelType,
                       med: Option<real>, coverage: real, mismatch: bool): (r: seq<string>)
    ensures coverage < 0.25 || mismatch ==>
              |r| <= 80 && |r| <= |PrioritizedAll(configured, keys)| && r == PrioritizedAll(configured, keys)[..|r|]
    ensures !(coverage < 0.25 || mismatch) ==>
              |r| <= 25 && |r| <= |Prioritized(L, keys, configured, fuel, med)|
              && r == Prioritized(L, keys, configured, fuel, med)[..|r|]
  {
    if coverage < 0.25 || mismatch then Take(PrioritizedAll(configured, keys), 80)
    else Take(Prioritized(L, keys, configured, fuel, med), 25)
  }

  lemma ConfiguredFirstOrder(configured: seq<string>)
    ensures TotalPreorder(ConfiguredFirst(configured))
    ensures IsClassOf((k: string) => k in configured, ConfiguredFirst(configured))
    ensures IsClassOf((k: string) => k !in configured, ConfiguredFirst(configured))
  {
  }

  lemma {:induction false} FilterAll<T>(s: seq<T>, p: T -> bool)
    requires forall i :: 0 <= i < |s| ==> p(s[i])
    ensures Filter(s, p) == s
  {
    if s != [] {
      FilterAll(s[1..], p);
    }
  }

  lemma {:induction false} FilterNone<T>(s: seq<T>, p: T -> bool)
    requires forall i :: 0 <= i < |s| ==> !p(s[i])
    ensures Filter(s, p) == []
  {
    if s != [] {
      FilterNone(s[1..], p);
    }
  }

  /** A list sorted configured-first is its configured keys followed by
      the rest. */
  lemma {:induction false} SortedSplits(s: seq<string>, configured: seq<string>)
    requires SortedBy(s, ConfiguredFirst(configured))
    ensures s == Filter(s, (k: string) => k in configured) + Filter(s, (k: string) => k !in configured)
  {
    if s != [] {
      var tail := s[1..];
      assert SortedBy(tail, ConfiguredFirst(configured)) by {
        forall i, j | 0 <= i < j < |tail| ensures ConfiguredFirst(configured)(tail[i], tail[j]) {
          assert tail[i] == s[i + 1] && tail[j] == s[j + 1];
        }
      }
      SortedSplits(tail, configured);
      if s[0] !in configured {
        forall i | 0 <= i < |s| ensures s[i] !in configured {
          if i > 0 {
            assert ConfiguredFirst(configured)(s[0], s[i]);
          }
        }
        FilterNone(s, (k: string) => k in configured);
        FilterAll(s, (k: string) => k !in configured);
      }
    }
  }

  /** The prioritised suspects: the missing or invalid keys of configured
      cities, then the other missing or invalid keys, each in key order,
      then the outliers. */
  lemma PrioritizedOrder(L: Lookup, keys: seq<string>, configured: seq<string>, fuel: FuelType, med: Option<real>)
    ensures var suspects := SuspectKeys(L, keys, fuel, med);
            var missing := MissingKeys(L, suspects, fuel);
            Prioritized(L, keys, configured, fuel, med)
              == Filter(missing, (k: string) => k in configured) + Filter(missing, (k: string) => k !in configured)
                 + OutlierKeys(L, suspects, fuel)
  {
    var suspects := SuspectKeys(L, keys, fuel, med);
    var missing := MissingKeys(L, suspects, fuel);
    var le := ConfiguredFirst(configured);
    var sorted := Sort(missing, le);
    ConfiguredFirstOrder(configured);
    SortSorted(missing, le);
    SortedSplits(sorted, configured);
    SortStable(missing, le, (k: string) => k in configured);
    SortStable(missing, le, (k: string) => k !in configured);
    var outliers := OutlierKeys(L, suspects, fuel);
    FilterMembers(suspects, (k: string) => !IsValidFuelPrice(fuel, PriceAt(FuelMap(L, fuel), k)));
    forall i | 0 <= i < |outliers| ensures outliers[i] !in sorted {
      assert IsValidFuelPrice(fuel, PriceAt(FuelMap(L, fuel), outliers[i]));
      assert outliers[i] !in missing;
      assert outliers[i] !in multiset(sorted);
    }
    FilterAll(outliers, (k: string) => k !in sorted);
  }

  /** keysToFetch: the union of both lists, LPG's first. */
  function UnionKeys(lpgKeys: seq<string>, cngKeys: seq<string>): (r: seq<string>)
    ensures NoDuplicates(r)
    ensures forall k :: k in r <==> k in lpgKeys || k in cngKeys
  {
    DistinctProps(lpgKeys + cngKeys);
    Distinct(lpgKeys + cngKeys)
  }
}
