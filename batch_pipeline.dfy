/** The per-state steps of scrapeAndUpsertAllStatesFromStateTables
    (lib/myFuelSourceBatch.ts) that change the LPG and CNG maps, and the
    record each city key becomes: the Kerala table override, the slugs
    read from the petrol page's links, the re-fetch of doubtful prices, and
    the last-known backfill, suspect filter and Lakshadweep override. */
module BatchPipeline {
  import opened Common
  import opened Dedup
  import opened Folds
  import opened BatchNames
  import opened BatchValidation
  import opened BatchDiscovery
  import opened BatchTable
  import opened BatchKeys
  import opened FuelDb

  // ---------------------------------------------------------------------
  // Names survive the writes

  /** The lookup with a new entry for `k` in the LPG or the CNG map. */
  function WithEntry(L: Lookup, fuel: FuelType, k: string, e: CityPrice): Lookup
  {
    if fuel == Lpg then L.(lpg := L.lpg[k := e]) else L.(cng := L.cng[k := e])
  }

  /** Both lookups give every key the same name. */
  ghost predicate SameNames(a: Lookup, b: Lookup) {
    forall k :: NameOf(a, k) == NameOf(b, k)
  }

  /** An entry written under the key's own name changes no key's name:
      the name of `k` came from the petrol or diesel map, from the entry
      it replaces, or from a later source, which the new entry repeats. */
  lemma WriteKeepsNames(L: Lookup, fuel: FuelType, k: string, price: real, slug: Option<string>)
    ensures SameNames(WithEntry(L, fuel, k, CityPrice(NameOf(L, k), price, slug)), L)
  {
    var L' := WithEntry(L, fuel, k, CityPrice(NameOf(L, k), price, slug));
    forall j ensures NameOf(L', j) == NameOf(L, j) {
      if j == k {
        if k !in L.petrol && k !in L.diesel {
          if fuel == Lpg {
            assert NameOf(L', k) == L'.lpg[k].city;
          } else if k !in L.lpg {
            assert NameOf(L', k) == L'.cng[k].city;
          }
        }
      }
    }
  }

  /** Slugs come from the petrol map, the link slugs, the configured slugs
      and the name, so lookups that agree on those agree on slugs. */
  lemma SameSlugs(a: Lookup, b: Lookup, k: string)
    requires a.petrol == b.petrol && a.fromLinks == b.fromLinks && a.generated == b.generated
    requires NameOf(a, k) == NameOf(b, k)
    ensures SlugOf(a, k) == SlugOf(b, k)
  {
  }

  // ---------------------------------------------------------------------
  // Kerala table override

  /** The Kerala table's entry for a key: its price, when valid, under the
      key's name and without a slug. */
  function KeralaEntry(L: Lookup, table: map<string, real>, fuel: FuelType): string -> Option<(string, CityPrice)>
  {
    (k: string) =>
      if k in table && IsValidFuelPrice(fuel, Some(table[k]))
      then Some((k, CityPrice(NameOf(L, k), table[k], None)))
      else None
  }

  /** The loop over allCityKeys that writes the Kerala LPG and CNG tables'
      valid prices into the state maps, naming each city by the maps as
      they stand. */
  method KeralaOverride(L: Lookup, keys: seq<string>, lpgTable: map<string, real>, cngTable: map<string, real>)
      returns (lpg: PriceMap, cng: PriceMap)
    ensures lpg == Fold(L.lpg, keys, Upsert(KeralaEntry(L, lpgTable, Lpg)))
    ensures cng == Fold(L.cng, keys, Upsert(KeralaEntry(L, cngTable, Cng)))
  {
    lpg := L.lpg;
    cng := L.cng;
    for i := 0 to |keys|
      invariant lpg == Fold(L.lpg, keys[..i], Upsert(KeralaEntry(L, lpgTable, Lpg)))
      invariant cng == Fold(L.cng, keys[..i], Upsert(KeralaEntry(L, cngTable, Cng)))
      invariant SameNames(L.(lpg := lpg, cng := cng), L)
    {
      FoldSnoc(L.lpg, keys, i, Upsert(KeralaEntry(L, lpgTable, Lpg)));
      FoldSnoc(L.cng, keys, i, Upsert(KeralaEntry(L, cngTable, Cng)));
      var k := keys[i];
      var cur := L.(lpg := lpg, cng := cng);
      var name := NameOf(cur, k);
      if k in lpgTable && IsValidFuelPrice(Lpg, Some(lpgTable[k])) {
        WriteKeepsNames(cur, Lpg, k, lpgTable[k], None);
        lpg := lpg[k := CityPrice(name, lpgTable[k], None)];
      }
      var cur' := L.(lpg := lpg, cng := cng);
      if k in cngTable && IsValidFuelPrice(Cng, Some(cngTable[k])) {
        WriteKeepsNames(cur', Cng, k, cngTable[k], None);
        cng := cng[k := CityPrice(name, cngTable[k], None)];
      }
    }
    assert keys[..|keys|] == keys;
  }

  /** Over distinct keys, a listed key with a valid table price takes it
      under its name; every other key keeps its entry. */
  lemma KeralaOverrideEffect(L: Lookup, acc: PriceMap, keys: seq<string>, table: map<string, real>, fuel: FuelType, k: string)
    requires NoDuplicates(keys)
    ensures var m := Fold(acc, keys, Upsert(KeralaEntry(L, table, fuel)));
            && (k in keys && k in table && IsValidFuelPrice(fuel, Some(table[k])) ==>
                  k in m && m[k] == CityPrice(NameOf(L, k), table[k], None))
            && (!(k in keys && k in table && IsValidFuelPrice(fuel, Some(table[k]))) ==>
                  (k in m <==> k in acc) && (k in acc ==> m[k] == acc[k]))
  {
    UpsertOwnKeys(acc, keys, KeralaEntry(L, table, fuel), k);
  }

  // ---------------------------------------------------------------------
  // Slugs from the petrol page's links

  /** `/-s\d+\.html/i.test(href)` */
  predicate HasStateSuffix(h: string)
    decreases |h|
  {
    StateSuffixAt(h) || (h != [] && HasStateSuffix(h[1..]))
  }

  /** `petrol-price-in-([^./]+)\.html` (any letter case) at the start of
      `h`: the group, which stops at the first '.' or '/'. */
  function PetrolSlugAt(h: string): (r: Option<string>)
    ensures r.Some? ==> r.value != []
  {
    if |h| < 16 || Lower(h[..16]) != "petrol-price-in-" then None
    else
      var rest := h[16..];
      var n := NonDotSlashRun(rest);
      if n >= 1 && |rest| >= n + 5 && Lower(rest[n..n + 5]) == ".html" then Some(rest[..n]) else None
  }

  /** `href.match(...)`: the leftmost match. */
  function FindPetrolSlug(h: string): (r: Option<string>)
    ensures r.Some? ==> r.value != []
  {
    if h == [] then None
    else if PetrolSlugAt(h).Some? then PetrolSlugAt(h)
    else FindPetrolSlug(h[1..])
  }

  /** The key and slug an `a[href*='petrol-price-in-']` contributes: a
      city page link (no `-sN.html`) whose trimmed text has a key among
      the city keys. */
  function LinkSlugEntry(keys: seq<string>): Link -> Option<(string, string)>
  {
    (l: Link) =>
      if !Contains(l.href, "petrol-price-in-") || HasStateSuffix(l.href) || FindPetrolSlug(l.href).None? then None
      else
        var key := NormalizeCityName(Trim(l.text));
        if key == [] || key !in keys then None else Some((key, FindPetrolSlug(l.href).value))
  }

  /** slugByCityKeyFromPetrolLinks. `if (!m[key]) m[key] = slug` keeps the
      first slug, since no slug is empty. A page that could not be fetched
      has no links. */
  function LinkSlugs(links: seq<Link>, keys: seq<string>): map<string, string>
  {
    Fold(map[], links, InsertNew(LinkSlugEntry(keys)))
  }

  /** The `.each` over the petrol page's links. */
  method ReadLinkSlugs(links: seq<Link>, keys: seq<string>) returns (m: map<string, string>)
    ensures m == LinkSlugs(links, keys)
  {
    m := FoldLoop(map[], links, InsertNew(LinkSlugEntry(keys)));
  }

  /** Every link slug is non-empty and belongs to a city key; a key's slug
      is the one of the first link that yields the key. */
  lemma LinkSlugsProps(links: seq<Link>, keys: seq<string>, k: string)
    ensures forall j :: j in LinkSlugs(links, keys) ==> j != [] && j in keys && LinkSlugs(links, keys)[j] != []
    ensures k in LinkSlugs(links, keys) <==> exists i :: 0 <= i < |links| && YieldsKey(LinkSlugEntry(keys), links[i], k)
    ensures k in LinkSlugs(links, keys) ==>
              exists i :: 0 <= i < |links| && LinkSlugEntry(keys)(links[i]) == Some((k, LinkSlugs(links, keys)[k]))
                          && forall j :: 0 <= j < i ==> !YieldsKey(LinkSlugEntry(keys), links[j], k)
  {
    InsertNewKeeps(map[], links, LinkSlugEntry(keys), (j: string, v: string) => j != [] && j in keys && v != []);
    InsertNewFirstWins(links, LinkSlugEntry(keys), k);
  }

  // ---------------------------------------------------------------------
  // Re-fetch of doubtful prices

  /** What the re-fetch of a key yields for one fuel: when the key is in
      that fuel's list and has a slug, the city page's price if valid,
      under the key's name and with the slug. */
  function RefetchEntry(L: Lookup, fetchKeys: seq<string>, fuel: FuelType,
                        fetch: (FuelType, string) -> Option<real>): string -> Option<(string, CityPrice)>
  {
    (k: string) =>
      var slug := SlugOf(L, k);
      if k in fetchKeys && Usable(slug) && IsValidFuelPrice(fuel, fetch(fuel, slug.value))
      then Some((k, CityPrice(NameOf(L, k), fetch(fuel, slug.value).value, slug)))
      else None
  }

  /** One step of the re-fetch, for a key's slug and name. */
  lemma RefetchStep(L: Lookup, fetchKeys: seq<string>, fuel: FuelType, fetch: (FuelType, string) -> Option<real>,
                    m: PriceMap, k: string, slug: Option<string>, name: string)
    requires slug == SlugOf(L, k) && name == NameOf(L, k)
    ensures Upsert(RefetchEntry(L, fetchKeys, fuel, fetch))(m, k)
            == if k in fetchKeys && Usable(slug) && IsValidFuelPrice(fuel, fetch(fuel, slug.value))
               then m[k := CityPrice(name, fetch(fuel, slug.value).value, slug)] else m
  {
  }

  /** The map of one of the two re-fetched fuels. */
  function FuelMap(L: Lookup, fuel: FuelType): PriceMap
  {
    if fuel == Lpg then L.lpg else L.cng
  }

  /** One key of the re-fetch for one fuel: the write it makes, if any,
      into the lookup `cur`. */
  method RefetchFuel(cur: Lookup, L: Lookup, fuel: FuelType, k: string, fuelKeys: seq<string>,
                     fetch: (FuelType, string) -> Option<real>, name: string, slug: Option<string>)
      returns (m: PriceMap)
    requires fuel == Lpg || fuel == Cng
    requires SameNames(cur, L)
    requires name == NameOf(L, k) && slug == SlugOf(L, k)
    ensures m == Upsert(RefetchEntry(L, fuelKeys, fuel, fetch))(FuelMap(cur, fuel), k)
    ensures SameNames(if fuel == Lpg then cur.(lpg := m) else cur.(cng := m), L)
  {
    m := FuelMap(cur, fuel);
    RefetchStep(L, fuelKeys, fuel, fetch, m, k, slug, name);
    if Usable(slug) && k in fuelKeys {
      var res := fetch(fuel, slug.value);
      if IsValidFuelPrice(fuel, res) {
        WriteKeepsNames(cur, fuel, k, res.value, slug);
        m := m[k := CityPrice(name, res.value, slug)];
        assert WithEntry(cur, fuel, k, CityPrice(name, res.value, slug))
               == if fuel == Lpg then cur.(lpg := m) else cur.(cng := m);
        return;
      }
    }
    assert (if fuel == Lpg then cur.(lpg := m) else cur.(cng := m)) == cur;
  }

  /** One key of the re-fetch: the writes it makes to both maps. */
  method RefetchKey(cur: Lookup, L: Lookup, k: string, lpgKeys: seq<string>, cngKeys: seq<string>,
                    fetch: (FuelType, string) -> Option<real>)
      returns (lpg: PriceMap, cng: PriceMap)
    requires SameNames(cur, L)
    requires cur.petrol == L.petrol && cur.fromLinks == L.fromLinks && cur.generated == L.generated
    ensures lpg == Upsert(RefetchEntry(L, lpgKeys, Lpg, fetch))(cur.lpg, k)
    ensures cng == Upsert(RefetchEntry(L, cngKeys, Cng, fetch))(cur.cng, k)
    ensures SameNames(cur.(lpg := lpg, cng := cng), L)
  {
    var name := NameOf(cur, k);
    var slug := SlugOf(cur, k);
    SameSlugs(cur, L, k);
    lpg := RefetchFuel(cur, L, Lpg, k, lpgKeys, fetch, name, slug);
    var cur' := cur.(lpg := lpg);
    assert cur'.cng == cur.cng;
    cng := RefetchFuel(cur', L, Cng, k, cngKeys, fetch, name, slug);
    assert cur.(lpg := lpg, cng := cng) == cur'.(cng := cng);
  }

  /** The re-fetch over keysToFetch, the union of both lists. */
  method Refetch(L: Lookup, lpgKeys: seq<string>, cngKeys: seq<string>, fetch: (FuelType, string) -> Option<real>)
      returns (lpg: PriceMap, cng: PriceMap)
    ensures lpg == Fold(L.lpg, UnionKeys(lpgKeys, cngKeys), Upsert(RefetchEntry(L, lpgKeys, Lpg, fetch)))
    ensures cng == Fold(L.cng, UnionKeys(lpgKeys, cngKeys), Upsert(RefetchEntry(L, cngKeys, Cng, fetch)))
  {
    var keys := UnionKeys(lpgKeys, cngKeys);
    lpg := L.lpg;
    cng := L.cng;
    for i := 0 to |keys|
      invariant lpg == Fold(L.lpg, keys[..i], Upsert(RefetchEntry(L, lpgKeys, Lpg, fetch)))
      invariant cng == Fold(L.cng, keys[..i], Upsert(RefetchEntry(L, cngKeys, Cng, fetch)))
      invariant SameNames(L.(lpg := lpg, cng := cng), L)
    {
      FoldSnoc(L.lpg, keys, i, Upsert(RefetchEntry(L, lpgKeys, Lpg, fetch)));
      FoldSnoc(L.cng, keys, i, Upsert(RefetchEntry(L, cngKeys, Cng, fetch)));
      lpg, cng := RefetchKey(L.(lpg := lpg, cng := cng), L, keys[i], lpgKeys, cngKeys, fetch);
    }
    assert keys[..|keys|] == keys;
  }

  /** A re-fetched price replaces a key's entry only when the key is in
      that fuel's list, has a slug and the city page gives a valid price;
      every other entry stays. */
  lemma RefetchEffect(L: Lookup, acc: PriceMap, lpgKeys: seq<string>, cngKeys: seq<string>, fuel: FuelType,
                      fetch: (FuelType, string) -> Option<real>, k: string)
    requires fuel == Lpg || fuel == Cng
    ensures var fetchKeys := if fuel == Lpg then lpgKeys else cngKeys;
            var m := Fold(acc, UnionKeys(lpgKeys, cngKeys), Upsert(RefetchEntry(L, fetchKeys, fuel, fetch)));
            var slug := SlugOf(L, k);
            && (k in fetchKeys && Usable(slug) && IsValidFuelPrice(fuel, fetch(fuel, slug.value)) ==>
                  k in m && m[k] == CityPrice(NameOf(L, k), fetch(fuel, slug.value).value, slug))
            && (!(k in fetchKeys && Usable(slug) && IsValidFuelPrice(fuel, fetch(fuel, slug.value))) ==>
                  (k in m <==> k in acc) && (k in acc ==> m[k] == acc[k]))
  {
    var fetchKeys := if fuel == Lpg then lpgKeys else cngKeys;
    UpsertOwnKeys(acc, UnionKeys(lpgKeys, cngKeys), RefetchEntry(L, fetchKeys, fuel, fetch), k);
  }

  // ---------------------------------------------------------------------
  // The names after all writes

  /** The lookup with `m` as its LPG or CNG map. */
  function WithMap(L: Lookup, fuel: FuelType, m: PriceMap): Lookup
  {
    if fuel == Lpg then L.(lpg := m) else L.(cng := m)
  }

  /** An upsert whose entries carry their key's name under `L` keeps every
      name of `B`, when `B` already names every key as `L` does. */
  lemma UpsertKeepsNames<T>(B: Lookup, L: Lookup, fuel: FuelType, acc: PriceMap, xs: seq<T>,
                            entry: T -> Option<(string, CityPrice)>)
    requires SameNames(WithMap(B, fuel, acc), L)
    requires forall x :: entry(x).Some? ==> entry(x).value.1.city == NameOf(L, entry(x).value.0)
    ensures SameNames(WithMap(B, fuel, Fold(acc, xs, Upsert(entry))), L)
  {
    var inv := (m: PriceMap) => SameNames(WithMap(B, fuel, m), L);
    forall a, x | inv(a) ensures inv(Upsert(entry)(a, x)) {
      if entry(x).Some? {
        var k := entry(x).value.0;
        var e := entry(x).value.1;
        var cur := WithMap(B, fuel, a);
        assert e.city == NameOf(cur, k);
        WriteKeepsNames(cur, fuel, k, e.price, e.slug);
        assert WithEntry(cur, fuel, k, e) == WithMap(B, fuel, Upsert(entry)(a, x));
      }
    }
    FoldInvariant(acc, xs, Upsert(entry), inv);
  }

  // ---------------------------------------------------------------------
  // Records

  /** What decides a gas price's last steps: the last-known prices (empty
      when not read), whether suspects are filtered, and the median. */
  datatype GasPolicy = GasPolicy(lastKnown: map<string, real>, filter: bool, median: Option<real>)

  /** lpgFinalWithOverrides / cngFinalWithOverrides */
  function FinalGas(fuel: FuelType, ld: bool, current: Option<real>, p: GasPolicy, k: string): (r: Option<real>)
    ensures ld ==> r == None
    ensures r.Some? ==> IsValidFuelPrice(fuel, r) && !(p.filter && IsSuspectByMedian(fuel, r.value, p.median))
    ensures r.Some? ==> r == current || (!IsValidFuelPrice(fuel, current) && k in p.lastKnown && r == Some(p.lastKnown[k]))
    ensures !ld && IsValidFuelPrice(fuel, current) ==>
              (r == current <==> !(p.filter && IsSuspectByMedian(fuel, current.value, p.median)))
    ensures (!ld && !IsValidFuelPrice(fuel, current) && k in p.lastKnown && IsValidFuelPrice(fuel, Some(p.lastKnown[k]))
             && !(p.filter && IsSuspectByMedian(fuel, p.lastKnown[k], p.median))) ==> r == Some(p.lastKnown[k])
  {
    var price := if !ld && !IsValidFuelPrice(fuel, current) && k in p.lastKnown && IsValidFuelPrice(fuel, Some(p.lastKnown[k]))
                 then Some(p.lastKnown[k]) else current;
    var validated := ValidOrNull(fuel, price);
    var final := if validated.Some? && p.filter && IsSuspectByMedian(fuel, validated.value, p.median) then None else validated;
    if ld then None else final
  }

  /** The record of a city key: its name, today's date, petrol and diesel
      when valid, and the final LPG and CNG prices. */
  function RecordFor(code: string, today: string, L: Lookup, ld: bool, lpg: GasPolicy, cng: GasPolicy, k: string): (r: FuelRecord)
    ensures r.stateCode == code && r.cityName == NameOf(L, k) && r.date == today
    ensures r.petrol.Some? ==> r.petrol == PriceAt(L.petrol, k) && IsValidFuelPrice(Petrol, r.petrol)
    ensures r.diesel.Some? ==> r.diesel == PriceAt(L.diesel, k) && IsValidFuelPrice(Diesel, r.diesel)
    ensures IsValidFuelPrice(Petrol, PriceAt(L.petrol, k)) ==> r.petrol == PriceAt(L.petrol, k)
    ensures IsValidFuelPrice(Diesel, PriceAt(L.diesel, k)) ==> r.diesel == PriceAt(L.diesel, k)
    ensures ld ==> r.lpg == None && r.cng == None
  {
    FuelRecord(code, NameOf(L, k), today,
               ValidOrNull(Petrol, PriceAt(L.petrol, k)), ValidOrNull(Diesel, PriceAt(L.diesel, k)),
               FinalGas(Lpg, ld, PriceAt(L.lpg, k), lpg, k), FinalGas(Cng, ld, PriceAt(L.cng, k), cng, k))
  }

  /** The records of the keys, in order. */
  function RecordsFor(code: string, today: string, L: Lookup, ld: bool, lpg: GasPolicy, cng: GasPolicy,
                      keys: seq<string>): (rs: seq<FuelRecord>)
    ensures |rs| == |keys|
    ensures forall i :: 0 <= i < |keys| ==> rs[i] == RecordFor(code, today, L, ld, lpg, cng, keys[i])
  {
    seq(|keys|, i requires 0 <= i < |keys| => RecordFor(code, today, L, ld, lpg, cng, keys[i]))
  }

  /** The loop over allCityKeys that pushes each key's name and record. */
  method BuildRecords(code: string, today: string, L: Lookup, ld: bool, lpg: GasPolicy, cng: GasPolicy, keys: seq<string>)
      returns (names: seq<string>, records: seq<FuelRecord>)
    ensures records == RecordsFor(code, today, L, ld, lpg, cng, keys)
    ensures |names| == |records| && forall i :: 0 <= i < |keys| ==> names[i] == records[i].cityName
  {
    names := [];
    records := [];
    for i := 0 to |keys|
      invariant |names| == |records| == i
      invariant forall j :: 0 <= j < i ==> records[j] == RecordFor(code, today, L, ld, lpg, cng, keys[j])
      invariant forall j :: 0 <= j < i ==> names[j] == records[j].cityName
    {
      var k := keys[i];
      var name := NameOf(L, k);
      var petrol := PriceAt(L.petrol, k);
      var diesel := PriceAt(L.diesel, k);
      var lpgFinal := FinalGas(Lpg, ld, PriceAt(L.lpg, k), lpg, k);
      var cngFinal := FinalGas(Cng, ld, PriceAt(L.cng, k), cng, k);
      names := names + [name];
      records := records + [FuelRecord(code, name, today, ValidOrNull(Petrol, petrol), ValidOrNull(Diesel, diesel), lpgFinal, cngFinal)];
    }
    assert records == RecordsFor(code, today, L, ld, lpg, cng, keys);
  }

  /** The records of distinct normal keys, named as through maps keyed by
      their cities' normal forms: all of the state and the date, each
      under a name whose normal form is its key, so that no two share a
      (state, city, date) key and each lands on its own row; petrol and
      diesel only when valid; no LPG or CNG under the Lakshadweep rule. */
  lemma RecordsForProps(code: string, today: string, L0: Lookup, L: Lookup, ld: bool, lpg: GasPolicy, cng: GasPolicy,
                        keys: seq<string>)
    requires NamesKeyed(L0) && SameNames(L, L0) && NoDuplicates(keys)
    requires forall k :: k in keys ==> NormalizeCityName(k) == k
    ensures var rs := RecordsFor(code, today, L, ld, lpg, cng, keys);
            && (forall i :: 0 <= i < |rs| ==> rs[i].stateCode == code && rs[i].date == today)
            && (forall i :: 0 <= i < |rs| ==> NormalizeCityName(rs[i].cityName) == keys[i])
            && (forall i, j :: 0 <= i < j < |rs| ==> KeyOf(rs[i]) != KeyOf(rs[j]))
            && (forall i :: 0 <= i < |rs| ==> rs[i].petrol.Some? ==> IsValidFuelPrice(Petrol, rs[i].petrol))
            && (forall i :: 0 <= i < |rs| ==> rs[i].diesel.Some? ==> IsValidFuelPrice(Diesel, rs[i].diesel))
            && (ld ==> forall i :: 0 <= i < |rs| ==> rs[i].lpg.None? && rs[i].cng.None?)
  {
    var rs := RecordsFor(code, today, L, ld, lpg, cng, keys);
    forall i | 0 <= i < |rs| ensures NormalizeCityName(rs[i].cityName) == keys[i] {
      assert keys[i] in keys;
      NameOfKeyed(L0, keys[i]);
    }
  }
}
