/** scrapeAndUpsertAllStatesFromStateTables (lib/myFuelSourceBatch.ts) as a
    whole: for each selected state, the records it builds from what it
    read, and the writes it makes to the store, in order. */
module BatchRun {
  import opened Common
  import opened Sorting
  import opened Dedup
  import opened Folds
  import opened BatchNames
  import opened BatchValidation
  import opened BatchDiscovery
  import opened BatchTable
  import opened BatchKeys
  import opened BatchPipeline
  import opened FuelDb

  /** What one state's run reads besides its state page: the four state
      pages' city maps, the configured slug entries, the Kerala LPG and CNG
      tables, the petrol page's links and the last-known LPG and CNG
      prices. A page or table that could not be fetched is empty. */
  datatype StateInputs = StateInputs(
    petrol: FuelPage, diesel: FuelPage, lpg: FuelPage, cng: FuelPage,
    entries: seq<SlugEntry>,
    keralaLpg: map<string, real>, keralaCng: map<string, real>,
    petrolLinks: seq<Link>,
    lastKnownLpg: map<string, real>, lastKnownCng: map<string, real>)

  predicate IsKerala(code: string) { Upper(code) == "KL" }

  predicate IsLakshadweep(code: string) { Upper(code) == "LD" }

  // ---------------------------------------------------------------------
  // What a state's run decides

  /** allCityKeys */
  function CityKeys(s: StateInputs): seq<string>
  {
    AllCityKeys(PageKeys(s.petrol, s.diesel, s.lpg, s.cng), s.entries)
  }

  /** The maps as fetched, before any override. */
  function InitialLookup(s: StateInputs): Lookup
  {
    Lookup(s.petrol.prices, s.diesel.prices, s.lpg.prices, s.cng.prices,
           SlugCityNames(s.entries), GeneratedSlugs(s.entries), map[])
  }

  /** The valid-price count, median, coverage and filter decision of one
      gas, all read from the page before any override. */
  datatype GasStats = GasStats(valid: nat, median: Option<real>, coverage: real, filter: bool)

  function StatsOf(page: FuelPage, fuel: FuelType, cityCount: nat): GasStats
  {
    var valid := ValidValues(page.keys, page.prices, fuel);
    GasStats(|valid|, Median(valid), Coverage(|valid|, cityCount), ShouldFilterSuspects(|valid|, cityCount))
  }

  /** The maps after the Kerala tables, which only Kerala reads. */
  function AfterKerala(code: string, s: StateInputs, L: Lookup, keys: seq<string>): Lookup
  {
    if IsKerala(code)
    then L.(lpg := Fold(L.lpg, keys, Upsert(KeralaEntry(L, s.keralaLpg, Lpg))),
            cng := Fold(L.cng, keys, Upsert(KeralaEntry(L, s.keralaCng, Cng))))
    else L
  }

  /** The maps after the re-fetch of the keys in both lists. */
  function AfterRefetch(L: Lookup, lpgKeys: seq<string>, cngKeys: seq<string>,
                        fetch: (FuelType, string) -> Option<real>): Lookup
  {
    L.(lpg := Fold(L.lpg, UnionKeys(lpgKeys, cngKeys), Upsert(RefetchEntry(L, lpgKeys, Lpg, fetch))),
       cng := Fold(L.cng, UnionKeys(lpgKeys, cngKeys), Upsert(RefetchEntry(L, cngKeys, Cng, fetch))))
  }

  /** The maps after the petrol page's link slugs, the sample check and
      the re-fetch of the two fetch lists. */
  function Refetched(L1: Lookup, links: seq<Link>, keys: seq<string>, configured: seq<string>,
                     lpgSt: GasStats, cngSt: GasStats, fetch: (FuelType, string) -> Option<real>): Lookup
  {
    var L2 := L1.(fromLinks := LinkSlugs(links, keys));
    var lpgMismatch := Mismatch(L2, SampleKeys(L2, keys, Lpg), Lpg, fetch);
    var cngMismatch := Mismatch(L2, SampleKeys(L2, keys, Cng), Cng, fetch);
    AfterRefetch(L2, KeysToFetch(L2, keys, configured, Lpg, lpgSt.median, lpgSt.coverage, lpgMismatch),
                 KeysToFetch(L2, keys, configured, Cng, cngSt.median, cngSt.coverage, cngMismatch), fetch)
  }

  /** The maps the records are read from: after the Kerala tables, and,
      when some price is bad or a coverage is low, after the re-fetch. */
  function FinalLookup(code: string, s: StateInputs, fetch: (FuelType, string) -> Option<real>): Lookup
  {
    var keys := CityKeys(s);
    var lpgSt := StatsOf(s.lpg, Lpg, |keys|);
    var cngSt := StatsOf(s.cng, Cng, |keys|);
    var L1 := AfterKerala(code, s, InitialLookup(s), keys);
    if !HasBackfillNeed(L1, keys, lpgSt.median, cngSt.median, lpgSt.coverage, cngSt.coverage) then L1
    else Refetched(L1, s.petrolLinks, keys, ConfiguredKeys(s.entries), lpgSt, cngSt, fetch)
  }

  /** The last-known prices are read only for a state with configured
      cities other than Lakshadweep. */
  function PolicyOf(code: string, configured: seq<string>, lastKnown: map<string, real>, st: GasStats): GasPolicy
  {
    GasPolicy(if configured != [] && !IsLakshadweep(code) then lastKnown else map[], st.filter, st.median)
  }

  /** The records of a state, one per city key in order. */
  function StateRecords(code: string, today: string, s: StateInputs, fetch: (FuelType, string) -> Option<real>)
    : seq<FuelRecord>
  {
    var keys := CityKeys(s);
    var configured := ConfiguredKeys(s.entries);
    RecordsFor(code, today, FinalLookup(code, s, fetch), IsLakshadweep(code),
               PolicyOf(code, configured, s.lastKnownLpg, StatsOf(s.lpg, Lpg, |keys|)),
               PolicyOf(code, configured, s.lastKnownCng, StatsOf(s.cng, Cng, |keys|)), keys)
  }

  /** cityNames */
  function CityNames(records: seq<FuelRecord>): (r: seq<string>)
    ensures |r| == |records| && forall i :: 0 <= i < |r| ==> r[i] == records[i].cityName
  {
    seq(|records|, i requires 0 <= i < |records| => records[i].cityName)
  }

  // ---------------------------------------------------------------------
  // What it decides, computed

  /** The link slugs, the sample check, the two fetch lists and the
      re-fetch. */
  method RefetchPhase(L: Lookup, links: seq<Link>, keys: seq<string>, configured: seq<string>,
                      lpgSt: GasStats, cngSt: GasStats, fetch: (FuelType, string) -> Option<real>)
      returns (L': Lookup)
    ensures L' == Refetched(L, links, keys, configured, lpgSt, cngSt, fetch)
  {
    var fromLinks := ReadLinkSlugs(links, keys);
    var L2 := L.(fromLinks := fromLinks);
    var lpgMismatch := CheckSamples(L2, SampleKeys(L2, keys, Lpg), Lpg, fetch);
    var cngMismatch := CheckSamples(L2, SampleKeys(L2, keys, Cng), Cng, fetch);
    var lpgKeys := KeysToFetch(L2, keys, configured, Lpg, lpgSt.median, lpgSt.coverage, lpgMismatch);
    var cngKeys := KeysToFetch(L2, keys, configured, Cng, cngSt.median, cngSt.coverage, cngMismatch);
    var lpg, cng := Refetch(L2, lpgKeys, cngKeys, fetch);
    L' := L2.(lpg := lpg, cng := cng);
  }

  /** The maps the records are read from, computed step by step. */
  method ComputeLookup(code: string, s: StateInputs, fetch: (FuelType, string) -> Option<real>)
      returns (keys: seq<string>, configured: seq<string>, L: Lookup)
    ensures keys == CityKeys(s) && configured == ConfiguredKeys(s.entries)
    ensures L == FinalLookup(code, s, fetch)
  {
    var pageKeys := PageKeys(s.petrol, s.diesel, s.lpg, s.cng);
    var slugNames, generated;
    slugNames, generated, configured, keys := ReadSlugEntries(pageKeys, s.entries);
    var lpgSt := StatsOf(s.lpg, Lpg, |keys|);
    var cngSt := StatsOf(s.cng, Cng, |keys|);
    L := Lookup(s.petrol.prices, s.diesel.prices, s.lpg.prices, s.cng.prices, slugNames, generated, map[]);
    if IsKerala(code) {
      var lpg, cng := KeralaOverride(L, keys, s.keralaLpg, s.keralaCng);
      L := L.(lpg := lpg, cng := cng);
    }
    if HasBackfillNeed(L, keys, lpgSt.median, cngSt.median, lpgSt.coverage, cngSt.coverage) {
      L := RefetchPhase(L, s.petrolLinks, keys, configured, lpgSt, cngSt, fetch);
    }
  }

  /** Everything before the writes: the city keys, and the names and
      records the loop over them pushes. */
  method PlanState(code: string, today: string, s: StateInputs, fetch: (FuelType, string) -> Option<real>)
      returns (keys: seq<string>, names: seq<string>, records: seq<FuelRecord>)
    ensures keys == CityKeys(s)
    ensures records == StateRecords(code, today, s, fetch)
    ensures names == CityNames(records) && |records| == |keys|
  {
    var configured, L;
    keys, configured, L := ComputeLookup(code, s, fetch);
    var lpg := PolicyOf(code, configured, s.lastKnownLpg, StatsOf(s.lpg, Lpg, |keys|));
    var cng := PolicyOf(code, configured, s.lastKnownCng, StatsOf(s.cng, Cng, |keys|));
    names, records := BuildRecords(code, today, L, IsLakshadweep(code), lpg, cng, keys);
  }

  // ---------------------------------------------------------------------
  // What the records are

  /** A state page's map as the state-table reader builds it: every entry
      under its city's normal form, and the key list naming exactly the
      map's keys (BatchTable.CityPriceMapEntries proves the first). */
  ghost predicate PageKeyed(p: FuelPage) {
    KeyedByCity(p.prices) && forall k :: k in p.keys ==> k in p.prices
  }

  ghost predicate InputsKeyed(s: StateInputs) {
    PageKeyed(s.petrol) && PageKeyed(s.diesel) && PageKeyed(s.lpg) && PageKeyed(s.cng)
  }

  /** Configured keys are normal forms. */
  lemma {:induction false} EntryKeysNormal(entries: seq<SlugEntry>)
    ensures forall k :: k in EntryKeys(entries) ==> NormalizeCityName(k) == k
    decreases |entries|
  {
    if entries != [] {
      EntryKeysNormal(entries[..|entries| - 1]);
      NormalizeKeyIdempotent(entries[|entries| - 1].city);
    }
  }

  /** Every city key is a normal form, and none is repeated. */
  lemma CityKeysNormal(s: StateInputs)
    requires InputsKeyed(s)
    ensures NoDuplicates(CityKeys(s))
    ensures forall k :: k in CityKeys(s) ==> NormalizeCityName(k) == k
  {
    var pageKeys := PageKeys(s.petrol, s.diesel, s.lpg, s.cng);
    AllCityKeysProps(pageKeys, s.entries);
    EntryKeysNormal(s.entries);
    forall k | k in pageKeys ensures NormalizeCityName(k) == k {
      var m := if k in s.petrol.keys then s.petrol.prices else if k in s.diesel.keys then s.diesel.prices
               else if k in s.lpg.keys then s.lpg.prices else s.cng.prices;
      assert k in m && NormalizeCityName(m[k].city) == k;
      NormalizeKeyIdempotent(m[k].city);
    }
  }

  /** The Kerala tables write every entry under its key's name. */
  lemma KeralaKeepsNames(code: string, s: StateInputs, L: Lookup, keys: seq<string>)
    ensures SameNames(AfterKerala(code, s, L, keys), L)
  {
    if IsKerala(code) {
      var lpgEntry := KeralaEntry(L, s.keralaLpg, Lpg);
      var cngEntry := KeralaEntry(L, s.keralaCng, Cng);
      assert WithMap(L, Lpg, L.lpg) == L;
      UpsertKeepsNames(L, L, Lpg, L.lpg, keys, lpgEntry);
      var Lm := L.(lpg := Fold(L.lpg, keys, Upsert(lpgEntry)));
      assert WithMap(Lm, Cng, L.cng) == Lm;
      UpsertKeepsNames(Lm, L, Cng, L.cng, keys, cngEntry);
      assert AfterKerala(code, s, L, keys) == WithMap(Lm, Cng, Fold(L.cng, keys, Upsert(cngEntry)));
    }
  }

  /** The link slugs do not name keys, and the re-fetch writes every entry
      under its key's name. */
  lemma RefetchedKeepsNames(L1: Lookup, links: seq<Link>, keys: seq<string>, configured: seq<string>,
                            lpgSt: GasStats, cngSt: GasStats, fetch: (FuelType, string) -> Option<real>)
    ensures SameNames(Refetched(L1, links, keys, configured, lpgSt, cngSt, fetch), L1)
  {
    var L2 := L1.(fromLinks := LinkSlugs(links, keys));
    var lpgKeys := KeysToFetch(L2, keys, configured, Lpg, lpgSt.median, lpgSt.coverage,
                               Mismatch(L2, SampleKeys(L2, keys, Lpg), Lpg, fetch));
    var cngKeys := KeysToFetch(L2, keys, configured, Cng, cngSt.median, cngSt.coverage,
                               Mismatch(L2, SampleKeys(L2, keys, Cng), Cng, fetch));
    var R := AfterRefetch(L2, lpgKeys, cngKeys, fetch);
    assert Refetched(L1, links, keys, configured, lpgSt, cngSt, fetch) == R;
    RefetchKeepsNames(L2, lpgKeys, cngKeys, fetch);
    LinksKeepNames(L1, LinkSlugs(links, keys));
    SameNamesTrans(R, L2, L1);
  }

  /** The link slugs play no part in a key's name. */
  lemma LinksKeepNames(L: Lookup, fromLinks: map<string, string>)
    ensures SameNames(L.(fromLinks := fromLinks), L)
  {
    forall k ensures NameOf(L.(fromLinks := fromLinks), k) == NameOf(L, k) {
    }
  }

  lemma SameNamesTrans(a: Lookup, b: Lookup, c: Lookup)
    requires SameNames(a, b) && SameNames(b, c)
    ensures SameNames(a, c)
  {
    forall k ensures NameOf(a, k) == NameOf(c, k) {
      assert NameOf(a, k) == NameOf(b, k);
    }
  }

  /** The final maps name every key as the fetched maps do. */
  lemma FinalNames(code: string, s: StateInputs, fetch: (FuelType, string) -> Option<real>)
    ensures SameNames(FinalLookup(code, s, fetch), InitialLookup(s))
  {
    var keys := CityKeys(s);
    var L1 := AfterKerala(code, s, InitialLookup(s), keys);
    KeralaKeepsNames(code, s, InitialLookup(s), keys);
    RefetchedKeepsNames(L1, s.petrolLinks, keys, ConfiguredKeys(s.entries),
                        StatsOf(s.lpg, Lpg, |keys|), StatsOf(s.cng, Cng, |keys|), fetch);
  }

  /** The re-fetch writes every entry under its key's name. */
  lemma RefetchKeepsNames(L: Lookup, lpgKeys: seq<string>, cngKeys: seq<string>, fetch: (FuelType, string) -> Option<real>)
    ensures SameNames(AfterRefetch(L, lpgKeys, cngKeys, fetch), L)
  {
    var keys := UnionKeys(lpgKeys, cngKeys);
    var lpgEntry := RefetchEntry(L, lpgKeys, Lpg, fetch);
    var cngEntry := RefetchEntry(L, cngKeys, Cng, fetch);
    assert WithMap(L, Lpg, L.lpg) == L;
    UpsertKeepsNames(L, L, Lpg, L.lpg, keys, lpgEntry);
    var Lm := L.(lpg := Fold(L.lpg, keys, Upsert(lpgEntry)));
    assert WithMap(Lm, Cng, L.cng) == Lm;
    UpsertKeepsNames(Lm, L, Cng, L.cng, keys, cngEntry);
    assert AfterRefetch(L, lpgKeys, cngKeys, fetch) == WithMap(Lm, Cng, Fold(L.cng, keys, Upsert(cngEntry)));
  }

  /** The records of a state: one per city key, in order, all of the state
      and the run date, each under a name whose normal form is its key, so
      no two share a (state, city, date) key; petrol and diesel only when
      valid; no LPG or CNG for Lakshadweep. */
  lemma StateRecordsProps(code: string, today: string, s: StateInputs, fetch: (FuelType, string) -> Option<real>)
    requires InputsKeyed(s)
    ensures var keys := CityKeys(s);
            var rs := StateRecords(code, today, s, fetch);
            && |rs| == |keys|
            && (forall i :: 0 <= i < |rs| ==> rs[i].stateCode == code && rs[i].date == today)
            && (forall i :: 0 <= i < |rs| ==> NormalizeCityName(rs[i].cityName) == keys[i])
            && (forall i, j :: 0 <= i < j < |rs| ==> KeyOf(rs[i]) != KeyOf(rs[j]))
            && (forall i :: 0 <= i < |rs| ==> rs[i].petrol.Some? ==> IsValidFuelPrice(Petrol, rs[i].petrol))
            && (forall i :: 0 <= i < |rs| ==> rs[i].diesel.Some? ==> IsValidFuelPrice(Diesel, rs[i].diesel))
            && (IsLakshadweep(code) ==> forall i :: 0 <= i < |rs| ==> rs[i].lpg.None? && rs[i].cng.None?)
  {
    var keys := CityKeys(s);
    var L0 := InitialLookup(s);
    var configured := ConfiguredKeys(s.entries);
    CityKeysNormal(s);
    SlugCityNamesKeyed(s.entries);
    assert NamesKeyed(L0);
    FinalNames(code, s, fetch);
    RecordsForProps(code, today, L0, FinalLookup(code, s, fetch), IsLakshadweep(code),
                    PolicyOf(code, configured, s.lastKnownLpg, StatsOf(s.lpg, Lpg, |keys|)),
                    PolicyOf(code, configured, s.lastKnownCng, StatsOf(s.cng, Cng, |keys|)), keys);
  }

  // ---------------------------------------------------------------------
  // The writes

  const ChunkSize: nat := 500

  /** The upserts of `records.slice(i, i + 500)` for i = 0, 500, ... */
  function ChunkWrites(rs: seq<FuelRecord>): seq<Write>
    decreases |rs|
  {
    if rs == [] then []
    else if |rs| <= ChunkSize then [PricesUpserted(rs)]
    else [PricesUpserted(rs[..ChunkSize])] + ChunkWrites(rs[ChunkSize..])
  }

  /** The rows of a list of price upserts, in order. */
  function UpsertedRows(ws: seq<Write>): seq<FuelRecord>
    decreases |ws|
  {
    if ws == [] then []
    else (if ws[0].PricesUpserted? then ws[0].rows else []) + UpsertedRows(ws[1..])
  }

  /** The chunks are non-empty upserts of at most 500 rows, as many as 500
      goes into the record count rounding up, and together they write
      every record once, in order. */
  lemma {:induction false} ChunkWritesProps(rs: seq<FuelRecord>)
    ensures UpsertedRows(ChunkWrites(rs)) == rs
    ensures |ChunkWrites(rs)| == (|rs| + ChunkSize - 1) / ChunkSize
    ensures forall i :: 0 <= i < |ChunkWrites(rs)| ==>
              ChunkWrites(rs)[i].PricesUpserted? && 1 <= |ChunkWrites(rs)[i].rows| <= ChunkSize
    decreases |rs|
  {
    if |rs| > ChunkSize {
      var ws := ChunkWrites(rs);
      ChunkWritesProps(rs[ChunkSize..]);
      assert ws[1..] == ChunkWrites(rs[ChunkSize..]);
      assert UpsertedRows(ws) == rs[..ChunkSize] + UpsertedRows(ws[1..]);
      assert rs[..ChunkSize] + rs[ChunkSize..] == rs;
    } else if rs != [] {
      assert UpsertedRows([PricesUpserted(rs)]) == rs + UpsertedRows([]);
    }
  }

  /** The chunk that starts at `i` is the first write for the rest. */
  lemma NextChunk(records: seq<FuelRecord>, i: int, end: int)
    requires 0 <= i < |records|
    requires end == if i + ChunkSize <= |records| then i + ChunkSize else |records|
    ensures ChunkWrites(records[i..]) == [PricesUpserted(records[i..end])] + ChunkWrites(records[end..])
  {
    var rest := records[i..];
    if |rest| > ChunkSize {
      assert rest[..ChunkSize] == records[i..end];
      assert rest[ChunkSize..] == records[end..];
    } else {
      assert rest == records[i..end];
      assert records[end..] == [];
      assert ChunkWrites(rest) == [PricesUpserted(rest)];
    }
  }

  /** The chunk loop: upsertFuelPrices on each slice, counting the rows. */
  method WriteChunks(store: Store, records: seq<FuelRecord>) returns (upserts: nat)
    modifies store
    ensures store.prices == UpsertedPrices(old(store.prices), records)
    ensures store.log == old(store.log) + ChunkWrites(records)
    ensures store.stateNames == old(store.stateNames) && store.cityRows == old(store.cityRows)
    ensures upserts == |records|
  {
    upserts := 0;
    var i := 0;
    while i < |records|
      invariant 0 <= i <= |records|
      invariant store.prices == UpsertedPrices(old(store.prices), records[..i])
      invariant store.log + ChunkWrites(records[i..]) == old(store.log) + ChunkWrites(records)
      invariant store.stateNames == old(store.stateNames) && store.cityRows == old(store.cityRows)
      invariant upserts == i
      decreases |records| - i
    {
      var end := if i + ChunkSize <= |records| then i + ChunkSize else |records|;
      var chunk := records[i..end];
      NextChunk(records, i, end);
      ghost var log := store.log;
      FoldAppend(old(store.prices), records[..i], chunk, Upsert(PriceEntry));
      assert records[..i] + chunk == records[..end];
      store.UpsertFuelPrices(chunk);
      SeqAssoc(log, [PricesUpserted(chunk)], ChunkWrites(records[end..]));
      upserts := upserts + |chunk|;
      i := end;
    }
    assert records[..i] == records;
  }

  // ---------------------------------------------------------------------
  // The store as a value, and one state's effect on it

  /** The store's tables and log. */
  datatype Db = Db(stateNames: map<string, string>, cityRows: set<(string, string)>,
                   prices: map<PriceKey, FuelRecord>, log: seq<Write>)

  function Snapshot(store: Store): Db
    reads store
  {
    Db(store.stateNames, store.cityRows, store.prices, store.log)
  }

  /** The calls one state with records makes: the roster's delete and
      upsert, the day's delete and the chunks. */
  function StateLog(code: string, today: string, records: seq<FuelRecord>): seq<Write>
  {
    [CitiesDeleted(code), CitiesUpserted(code, CityNames(records)), DayDeleted(code, today)] + ChunkWrites(records)
  }

  /** One state's writes: none without records; otherwise the roster
      becomes the records' names, the state's rows for the day are
      deleted, and the records are upserted. */
  function ApplyState(db: Db, code: string, today: string, records: seq<FuelRecord>): Db
  {
    if records == [] then db
    else Db(db.stateNames,
            ReplacedCities(db.cityRows, code, CityNames(records)),
            UpsertedPrices(WithoutDay(db.prices, code, today), records),
            db.log + StateLog(code, today, records))
  }

  /** After a state's writes, its rows for the day are exactly its
      records and every other row is as it was. */
  lemma DayReplaced(db: Db, code: string, today: string, records: seq<FuelRecord>)
    requires records != []
    requires forall i :: 0 <= i < |records| ==> records[i].stateCode == code && records[i].date == today
    requires forall i, j :: 0 <= i < j < |records| ==> KeyOf(records[i]) != KeyOf(records[j])
    ensures var p := ApplyState(db, code, today, records).prices;
            && (forall i :: 0 <= i < |records| ==> KeyOf(records[i]) in p && p[KeyOf(records[i])] == records[i])
            && (forall k: PriceKey :: k.0 == code && k.2 == today ==>
                  (k in p <==> exists i :: 0 <= i < |records| && KeyOf(records[i]) == k))
            && (forall k: PriceKey :: !(k.0 == code && k.2 == today) ==>
                  (k in p <==> k in db.prices) && (k in p ==> p[k] == db.prices[k]))
  {
    var base := WithoutDay(db.prices, code, today);
    UpsertedPricesStores(base, records);
  }

  /** A run error: the state and the reason. */
  datatype RunError = RunError(state: string, reason: string)

  /** The run's `results`. */
  datatype Summary = Summary(fetchedStates: nat, fetched: nat, upserts: nat, cities: nat, errors: seq<RunError>)

  /** One state's effect on the results: "no cities" without records;
      otherwise its record count added to cities, upserts and fetched. */
  function Tally(sum: Summary, code: string, records: seq<FuelRecord>): Summary
  {
    if records == [] then sum.(errors := sum.errors + [RunError(code, "no cities")])
    else sum.(fetched := sum.fetched + |records|, upserts := sum.upserts + |records|, cities := sum.cities + |records|)
  }

  /** One state's writes: replace the roster, delete the day, write the
      chunks; the rows the chunks upserted. */
  method WriteState(store: Store, code: string, today: string, names: seq<string>, records: seq<FuelRecord>)
      returns (upserts: nat)
    requires records != [] && names == CityNames(records)
    modifies store
    ensures Snapshot(store) == ApplyState(old(Snapshot(store)), code, today, records)
    ensures upserts == |records|
  {
    ghost var db := Snapshot(store);
    ClearState(store, code, today, names);
    upserts := WriteChunks(store, records);
    StateWritten(db, code, today, records, Snapshot(store));
  }

  /** The store after the roster's replacement, the day's delete and the
      chunks is the store ApplyState describes. */
  lemma StateWritten(db: Db, code: string, today: string, records: seq<FuelRecord>, after: Db)
    requires records != []
    requires after.stateNames == db.stateNames
    requires after.cityRows == ReplacedCities(db.cityRows, code, CityNames(records))
    requires after.prices == UpsertedPrices(WithoutDay(db.prices, code, today), records)
    requires after.log == db.log + [CitiesDeleted(code), CitiesUpserted(code, CityNames(records)), DayDeleted(code, today)]
                          + ChunkWrites(records)
    ensures after == ApplyState(db, code, today, records)
  {
    SeqAssoc(db.log, [CitiesDeleted(code), CitiesUpserted(code, CityNames(records)), DayDeleted(code, today)],
             ChunkWrites(records));
  }

  /** The roster's replacement and the day's delete. */
  method ClearState(store: Store, code: string, today: string, names: seq<string>)
    requires names != []
    modifies store
    ensures store.cityRows == ReplacedCities(old(store.cityRows), code, names)
    ensures store.prices == WithoutDay(old(store.prices), code, today)
    ensures store.log == old(store.log) + [CitiesDeleted(code), CitiesUpserted(code, names), DayDeleted(code, today)]
    ensures store.stateNames == old(store.stateNames)
  {
    store.ReplaceCitiesForState(code, names);
    store.DeleteFuelPricesForStateDate(code, today);
  }

  /** One state's task: plan; without city keys, record the error;
      otherwise write, counting the cities, the upserted rows and the
      records fetched. */
  method ProcessState(store: Store, sum: Summary, p: StatePage, today: string, s: StateInputs,
                      fetch: (FuelType, string) -> Option<real>)
      returns (sum': Summary)
    modifies store
    ensures Snapshot(store) == ApplyState(old(Snapshot(store)), p.code, today, StateRecords(p.code, today, s, fetch))
    ensures sum' == Tally(sum, p.code, StateRecords(p.code, today, s, fetch))
  {
    var keys, names, records := PlanState(p.code, today, s, fetch);
    sum' := WriteOrReport(store, sum, p.code, today, keys, names, records);
  }

  /** Without city keys, the "no cities" error; otherwise the writes and
      the counts. */
  method WriteOrReport(store: Store, sum: Summary, code: string, today: string, keys: seq<string>,
                       names: seq<string>, records: seq<FuelRecord>)
      returns (sum': Summary)
    requires |records| == |keys| && names == CityNames(records)
    modifies store
    ensures Snapshot(store) == ApplyState(old(Snapshot(store)), code, today, records)
    ensures sum' == Tally(sum, code, records)
  {
    if keys == [] {
      sum' := sum.(errors := sum.errors + [RunError(code, "no cities")]);
      return;
    }
    var upserts := WriteState(store, code, today, names, records);
    sum' := sum.(cities := sum.cities + |records|, upserts := sum.upserts + upserts, fetched := sum.fetched + |records|);
  }

  // ---------------------------------------------------------------------
  // The run over all states

  /** filterSet: the upper-cased, trimmed two-letter codes asked for. */
  function CodeFilter(only: seq<string>): (r: set<string>)
    ensures forall c :: c in r <==> exists i :: 0 <= i < |only| && c == Trim(Upper(only[i])) && IsTwoUpperLetters(c)
  {
    set i | 0 <= i < |only| && IsTwoUpperLetters(Trim(Upper(only[i]))) :: Trim(Upper(only[i]))
  }

  /** The states to run: those whose upper-cased code was asked for, or
      all when none was. */
  function SelectedStates(all: seq<StatePage>, codes: set<string>): (r: seq<StatePage>)
    ensures codes == {} ==> r == all
    ensures codes != {} ==> r == Filter(all, (p: StatePage) => Upper(p.code) in codes)
  {
    if codes == {} then all else Filter(all, (p: StatePage) => Upper(p.code) in codes)
  }

  /** `states.map(s => ({ code: s.code, name: s.name }))` */
  function StateRows(states: seq<StatePage>): (r: seq<StateRow>)
    ensures |r| == |states| && forall i :: 0 <= i < |r| ==> r[i] == StateRow(states[i].code, states[i].name)
  {
    seq(|states|, i requires 0 <= i < |states| => StateRow(states[i].code, states[i].name))
  }

  /** The store once the states are upserted. */
  function Registered(db: Db, states: seq<StatePage>): Db
  {
    db.(stateNames := Fold(db.stateNames, StateRows(states), Upsert(StateEntry)),
        log := db.log + [StatesUpserted(StateRows(states))])
  }

  function StateStep(today: string, inputsOf: StatePage -> StateInputs, fetch: (FuelType, string) -> Option<real>)
    : (Db, StatePage) -> Db
  {
    (db: Db, p: StatePage) => ApplyState(db, p.code, today, StateRecords(p.code, today, inputsOf(p), fetch))
  }

  function TallyStep(today: string, inputsOf: StatePage -> StateInputs, fetch: (FuelType, string) -> Option<real>)
    : (Summary, StatePage) -> Summary
  {
    (sum: Summary, p: StatePage) => Tally(sum, p.code, StateRecords(p.code, today, inputsOf(p), fetch))
  }

  /** scrapeAndUpsertAllStatesFromStateTables, with the discovered states,
      the date, each state's inputs and the city-page fetch given, run
      one state after another. */
  method ScrapeStates(store: Store, statesAll: seq<StatePage>, only: seq<string>, today: string,
                      inputsOf: StatePage -> StateInputs, fetch: (FuelType, string) -> Option<real>)
      returns (sum: Summary)
    modifies store
    ensures var states := SelectedStates(statesAll, CodeFilter(only));
            && (states == [] ==> sum == Summary(0, 0, 0, 0, []) && Snapshot(store) == old(Snapshot(store)))
            && (states != [] ==>
                  Snapshot(store) == Fold(Registered(old(Snapshot(store)), states), states, StateStep(today, inputsOf, fetch))
                  && sum == Fold(Summary(|states|, 0, 0, 0, []), states, TallyStep(today, inputsOf, fetch)))
  {
    var states := SelectedStates(statesAll, CodeFilter(only));
    sum := Summary(|states|, 0, 0, 0, []);
    if states == [] {
      return;
    }
    store.UpsertStates(StateRows(states));
    ghost var db0 := Snapshot(store);
    ghost var sum0 := sum;
    var step := StateStep(today, inputsOf, fetch);
    var tally := TallyStep(today, inputsOf, fetch);
    for i := 0 to |states|
      invariant Snapshot(store) == Fold(db0, states[..i], step)
      invariant sum == Fold(sum0, states[..i], tally)
    {
      FoldSnoc(db0, states, i, step);
      FoldSnoc(sum0, states, i, tally);
      sum := ProcessState(store, sum, states[i], today, inputsOf(states[i]), fetch);
    }
    assert states[..|states|] == states;
  }

  // ---------------------------------------------------------------------
  // The results over a run

  /** The records all states write together. */
  function RecordTotal(states: seq<StatePage>, today: string, inputsOf: StatePage -> StateInputs,
                       fetch: (FuelType, string) -> Option<real>): nat
    decreases |states|
  {
    if states == [] then 0
    else RecordTotal(states[..|states| - 1], today, inputsOf, fetch)
         + |StateRecords(states[|states| - 1].code, today, inputsOf(states[|states| - 1]), fetch)|
  }

  /** The "no cities" errors: one per state without city keys, in order. */
  function NoCityErrors(states: seq<StatePage>, today: string, inputsOf: StatePage -> StateInputs,
                        fetch: (FuelType, string) -> Option<real>): seq<RunError>
    decreases |states|
  {
    if states == [] then []
    else
      var p := states[|states| - 1];
      NoCityErrors(states[..|states| - 1], today, inputsOf, fetch)
        + (if CityKeys(inputsOf(p)) == [] then [RunError(p.code, "no cities")] else [])
  }

  /** The results count every state, and fetched, upserts and cities each
      add up to the records written; a state adds an error exactly when
      it has no city keys. */
  lemma {:induction false} SummaryTotals(n: nat, states: seq<StatePage>, today: string,
                                         inputsOf: StatePage -> StateInputs, fetch: (FuelType, string) -> Option<real>)
    ensures var sum := Fold(Summary(n, 0, 0, 0, []), states, TallyStep(today, inputsOf, fetch));
            && sum.fetchedStates == n
            && sum.fetched == sum.upserts == sum.cities == RecordTotal(states, today, inputsOf, fetch)
            && sum.errors == NoCityErrors(states, today, inputsOf, fetch)
    decreases |states|
  {
    if states != [] {
      SummaryTotals(n, states[..|states| - 1], today, inputsOf, fetch);
      var p := states[|states| - 1];
      assert |StateRecords(p.code, today, inputsOf(p), fetch)| == |CityKeys(inputsOf(p))|;
    }
  }
}
