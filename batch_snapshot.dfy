/** The city-page path of lib/myFuelSourceBatch.ts: the price and date
    fetchSingleFuelFromPage reads from one fuel's city page, the snapshot
    fetchFuelSnapshotForCityWithSlug assembles from the four pages, and
    scrapeAndUpsertAll, which writes one snapshot per configured city. */
module BatchSnapshot {
  import opened Common
  import opened Sorting
  import opened Folds
  import opened Numbers
  import opened BatchNames
  import opened BatchValidation
  import opened BatchDates
  import opened Civil
  import opened BatchTable
  import opened BatchKeys
  import opened FuelDb

  // ---------------------------------------------------------------------
  // fetchSingleFuelFromPage

  /** A `.gd-fuel-price` element: its text, and the text of the first
      `.gd-fuel-updated-date` of its enclosing `.gd-fuel-priceblock`. */
  datatype PriceBlock = PriceBlock(text: string, updatedText: string)

  /** What the reader takes from a city page: the price elements inside
      `.gd-fuel-priceblock-container` and those inside
      `.gd-fuel-priceblock`, the page's first `.gd-fuel-updated-date`
      text, the first `b` of the intro paragraph and the whole intro text,
      and the price the body-text patterns find (not modelled). */
  datatype CityPage = CityPage(
    containerBlocks: seq<PriceBlock>,
    fallbackBlocks: seq<PriceBlock>,
    firstUpdatedText: string,
    introBold: string,
    introText: string,
    bodyPrice: Option<real>)

  /** FuelPageResult */
  datatype PageResult = PageResult(price: Option<real>, updatedDate: Option<string>)

  /** unitMatch: "ltr" as a word for petrol and diesel; "kg" as a word
      without "14.2" for CNG; "14.2" and "kg" for the LPG cylinder. */
  predicate UnitMatch(fuel: FuelType, txt: string) {
    var t := Lower(txt);
    match fuel
    case Petrol => HasWord(t, "ltr")
    case Diesel => HasWord(t, "ltr")
    case Cng => HasWord(t, "kg") && !Contains(t, "14.2")
    case Lpg => Contains(t, "14.2") && Contains(t, "kg")
  }

  /** The index of the first block whose text shows the fuel's unit. */
  function FirstUnitMatch(blocks: seq<PriceBlock>, fuel: FuelType): (r: Option<nat>)
    ensures r.Some? ==> r.value < |blocks| && UnitMatch(fuel, blocks[r.value].text)
                        && forall j :: 0 <= j < r.value ==> !UnitMatch(fuel, blocks[j].text)
    ensures r.None? ==> forall j :: 0 <= j < |blocks| ==> !UnitMatch(fuel, blocks[j].text)
  {
    if blocks == [] then None
    else if UnitMatch(fuel, blocks[0].text) then Some(0)
    else
      match FirstUnitMatch(blocks[1..], fuel)
      case None => None
      case Some(i) => Some(i + 1)
  }

  /** chosenEl: the first block with the fuel's unit, else the first block. */
  function ChosenBlock(blocks: seq<PriceBlock>, fuel: FuelType): Option<PriceBlock>
  {
    match FirstUnitMatch(blocks, fuel)
    case Some(i) => Some(blocks[i])
    case None => if blocks == [] then None else Some(blocks[0])
  }

  /** A per-kg LPG reading below the range, in a text that says "kg" and
      not "14.2", is taken ×14.2 when the cylinder price is valid. */
  function CylinderPrice(fuel: FuelType, price: real, context: string): (r: real)
    ensures r == price || (fuel == Lpg && price < MinPrice(Lpg) && r == price * CylinderKg && InRange(Lpg, r))
  {
    var t := Lower(context);
    if fuel == Lpg && price < 100.0 && HasWord(t, "kg") && !Contains(t, "14.2")
       && IsValidFuelPrice(Lpg, Some(price * CylinderKg))
    then price * CylinderKg else price
  }

  /** The blocks read: those in the container whenever there are any. */
  function BlocksOf(pg: CityPage): seq<PriceBlock>
  {
    if pg.containerBlocks != [] then pg.containerBlocks else pg.fallbackBlocks
  }

  /** The chosen block's date. */
  function BlockDate(chosen: Option<PriceBlock>): (r: Option<string>)
    ensures r.Some? ==> IsYmdShape(r.value)
    ensures chosen.Some? ==> r == ParseUpdatedDate(Trim(chosen.value.updatedText))
  {
    if chosen.Some? then
      ParseUpdatedDateShape(Trim(chosen.value.updatedText));
      ParseUpdatedDate(Trim(chosen.value.updatedText))
    else None
  }

  /** The chosen block's price, before the cylinder conversion. */
  function BlockPrice(chosen: Option<PriceBlock>): (r: Option<real>)
    ensures chosen.None? ==> r.None?
    ensures chosen.Some? ==> r == ParsePrice(Trim(chosen.value.text))
  {
    var mainText := if chosen.Some? then Trim(chosen.value.text) else "";
    if mainText != [] then ParsePrice(mainText) else None
  }

  /** The date when the block gives no price: the block's, else the page's
      first. */
  function FallbackDate(pg: CityPage, blockDate: Option<string>): (r: Option<string>)
    ensures blockDate.Some? ==> r == blockDate
    ensures r.Some? ==> blockDate.Some? || r == ParseUpdatedDate(Trim(pg.firstUpdatedText))
  {
    if blockDate.Some? then blockDate else ParseUpdatedDate(Trim(pg.firstUpdatedText))
  }

  /** The price when the block gives none: the intro's bold price, else
      what the body scan found. */
  function FallbackPrice(pg: CityPage, fuel: FuelType): Option<real>
  {
    var bold := Trim(pg.introBold);
    var introPrice := if bold != [] then ParsePrice(bold) else None;
    if introPrice.Some? then Some(CylinderPrice(fuel, introPrice.value, pg.introText)) else pg.bodyPrice
  }

  /** fetchSingleFuelFromPage, with the page given (None when the fetch
      failed): the chosen block's price; else the intro's bold price; else
      what the body scan found. The date is the chosen block's, else the
      page's first. */
  function FetchSingleFuel(page: Option<CityPage>, fuel: FuelType): PageResult
  {
    match page
    case None => PageResult(None, None)
    case Some(pg) =>
      var chosen := ChosenBlock(BlocksOf(pg), fuel);
      var blockDate := BlockDate(chosen);
      var mainPrice := BlockPrice(chosen);
      if mainPrice.Some? then PageResult(Some(CylinderPrice(fuel, mainPrice.value, Trim(chosen.value.text))), blockDate)
      else PageResult(FallbackPrice(pg, fuel), FallbackDate(pg, blockDate))
  }

  /** The block the reader takes its price from: the first one showing the
      fuel's unit, and the first block only when none does; the container
      blocks are preferred whenever there are any. */
  lemma ChosenBlockProps(blocks: seq<PriceBlock>, fuel: FuelType)
    ensures ChosenBlock(blocks, fuel).None? <==> blocks == []
    ensures (exists i :: 0 <= i < |blocks| && UnitMatch(fuel, blocks[i].text)) ==>
              exists i :: 0 <= i < |blocks| && ChosenBlock(blocks, fuel) == Some(blocks[i]) && UnitMatch(fuel, blocks[i].text)
                          && forall j :: 0 <= j < i ==> !UnitMatch(fuel, blocks[j].text)
    ensures (forall i :: 0 <= i < |blocks| ==> !UnitMatch(fuel, blocks[i].text)) && blocks != [] ==>
              ChosenBlock(blocks, fuel) == Some(blocks[0])
  {
    var r := FirstUnitMatch(blocks, fuel);
    if r.Some? {
      assert ChosenBlock(blocks, fuel) == Some(blocks[r.value]);
    }
  }

  /** The page's price: none when the fetch failed; the chosen block's
      parsed price (or its cylinder conversion) whenever it parses; the
      intro's only when the block gives none. */
  lemma FetchSingleFuelPrice(page: Option<CityPage>, fuel: FuelType)
    ensures page.None? ==> FetchSingleFuel(page, fuel) == PageResult(None, None)
    ensures page.Some? ==>
              var chosen := ChosenBlock(BlocksOf(page.value), fuel);
              var r := FetchSingleFuel(page, fuel);
              && (chosen.Some? && ParsePrice(Trim(chosen.value.text)).Some? ==>
                    var n := ParsePrice(Trim(chosen.value.text)).value;
                    r.price == Some(n) || (fuel == Lpg && n < MinPrice(Lpg) && r.price == Some(n * CylinderKg)
                                           && IsValidFuelPrice(Lpg, r.price)))
              && (chosen.Some? && ParsePrice(Trim(chosen.value.text)).None? ==> r.price == FallbackPrice(page.value, fuel))
              && (chosen.None? ==> r.price == FallbackPrice(page.value, fuel))
  {
  }

  /** The page's date: the chosen block's whenever that parses, else the
      page's first date; every date has the `YYYY-MM-DD` shape. */
  lemma FetchSingleFuelDate(page: Option<CityPage>, fuel: FuelType)
    ensures page.Some? ==>
              var chosen := ChosenBlock(BlocksOf(page.value), fuel);
              var r := FetchSingleFuel(page, fuel);
              && (chosen.Some? && ParseUpdatedDate(Trim(chosen.value.updatedText)).Some? ==>
                    r.updatedDate == ParseUpdatedDate(Trim(chosen.value.updatedText)))
              && (r.updatedDate.Some? ==> IsYmdShape(r.updatedDate.value))
  {
    if page.Some? {
      var pg := page.value;
      var chosen := ChosenBlock(BlocksOf(pg), fuel);
      var blockDate := BlockDate(chosen);
      var r := FetchSingleFuel(page, fuel);
      if BlockPrice(chosen).Some? {
        assert r.updatedDate == blockDate;
      } else {
        assert r.updatedDate == FallbackDate(pg, blockDate);
        ParseUpdatedDateShape(Trim(pg.firstUpdatedText));
      }
    }
  }

  // ---------------------------------------------------------------------
  // fetchFuelSnapshotForCityWithSlug

  /** The first page date, in petrol, diesel, LPG, CNG order. */
  function FirstDate(rs: seq<PageResult>): (r: Option<string>)
    ensures r.Some? ==> exists i :: 0 <= i < |rs| && rs[i].updatedDate == r &&
                          forall j :: 0 <= j < i ==> rs[j].updatedDate.None?
    ensures r.None? <==> forall i :: 0 <= i < |rs| ==> rs[i].updatedDate.None?
  {
    if rs == [] then None
    else if rs[0].updatedDate.Some? then rs[0].updatedDate
    else
      var r := FirstDate(rs[1..]);
      assert forall i :: 1 <= i < |rs| ==> rs[i] == rs[1..][i - 1];
      r
  }

  /** fetchFuelSnapshotForCityWithSlug with the four page results given:
      no snapshot when no page gave a price; otherwise the page prices,
      dated with the first page date when it sorts after the run date. */
  function SnapshotWithSlug(code: string, city: string, date: string,
                            petrol: PageResult, diesel: PageResult, lpg: PageResult, cng: PageResult): Option<FuelRecord>
  {
    if petrol.price.None? && diesel.price.None? && lpg.price.None? && cng.price.None? then None
    else
      var pageDate := FirstDate([petrol, diesel, lpg, cng]);
      var effective := if pageDate.Some? && pageDate.value != [] && StrLt(date, pageDate.value) then pageDate.value else date;
      Some(FuelRecord(code, city, effective, petrol.price, diesel.price, lpg.price, cng.price))
  }

  /** A snapshot exists exactly when some page gave a price; it carries the
      four prices as read, and its date is the run date or a later page
      date. */
  lemma SnapshotWithSlugProps(code: string, city: string, date: string,
                              petrol: PageResult, diesel: PageResult, lpg: PageResult, cng: PageResult)
    ensures var r := SnapshotWithSlug(code, city, date, petrol, diesel, lpg, cng);
            && (r.None? <==> petrol.price.None? && diesel.price.None? && lpg.price.None? && cng.price.None?)
            && (r.Some? ==> r.value.stateCode == code && r.value.cityName == city
                            && r.value.petrol == petrol.price && r.value.diesel == diesel.price
                            && r.value.lpg == lpg.price && r.value.cng == cng.price)
            && (r.Some? ==> StrLe(date, r.value.date)
                            && (r.value.date == date || Some(r.value.date) == FirstDate([petrol, diesel, lpg, cng])))
  {
    StrLeRefl(date);
  }

  // ---------------------------------------------------------------------
  // scrapeAndUpsertAll

  /** One configured city to fetch. */
  datatype Task = Task(stateKey: string, city: string, slug: string)

  /** The configured cities of a state, as tasks. */
  function StateTasks(key: string, entries: seq<SlugEntry>): (r: seq<Task>)
    ensures |r| == |entries| && forall j :: 0 <= j < |r| ==> r[j] == Task(key, entries[j].city, entries[j].slug)
  {
    seq(|entries|, j requires 0 <= j < |entries| => Task(key, entries[j].city, entries[j].slug))
  }

  /** tasks: every configured city, state by state in `CITY_SLUGS` order. */
  function Tasks(citySlugs: seq<(string, seq<SlugEntry>)>): seq<Task>
    decreases |citySlugs|
  {
    if citySlugs == [] then []
    else Tasks(citySlugs[..|citySlugs| - 1]) + StateTasks(citySlugs[|citySlugs| - 1].0, citySlugs[|citySlugs| - 1].1)
  }

  /** The nested loops that push the tasks. */
  method ListTasks(citySlugs: seq<(string, seq<SlugEntry>)>) returns (tasks: seq<Task>)
    ensures tasks == Tasks(citySlugs)
  {
    tasks := [];
    for i := 0 to |citySlugs|
      invariant tasks == Tasks(citySlugs[..i])
    {
      assert citySlugs[..i + 1][..i] == citySlugs[..i];
      var key := citySlugs[i].0;
      var cities := citySlugs[i].1;
      ghost var before := tasks;
      for j := 0 to |cities|
        invariant tasks == before + StateTasks(key, cities[..j])
      {
        assert StateTasks(key, cities[..j + 1]) == StateTasks(key, cities[..j]) + [Task(key, cities[j].city, cities[j].slug)];
        tasks := tasks + [Task(key, cities[j].city, cities[j].slug)];
      }
      assert cities[..|cities|] == cities;
    }
    assert citySlugs[..|citySlugs|] == citySlugs;
  }

  /** Every configured city becomes one task, in order. */
  lemma {:induction false} TasksProps(citySlugs: seq<(string, seq<SlugEntry>)>, t: Task)
    ensures t in Tasks(citySlugs) <==>
              exists i, j :: 0 <= i < |citySlugs| && 0 <= j < |citySlugs[i].1|
                             && t == Task(citySlugs[i].0, citySlugs[i].1[j].city, citySlugs[i].1[j].slug)
    decreases |citySlugs|
  {
    if citySlugs != [] {
      var n := |citySlugs| - 1;
      var init := citySlugs[..n];
      TasksProps(init, t);
      var last := StateTasks(citySlugs[n].0, citySlugs[n].1);
      if t in last {
        var j :| 0 <= j < |last| && last[j] == t;
        assert 0 <= n < |citySlugs| && 0 <= j < |citySlugs[n].1|;
      }
      if exists i, j :: 0 <= i < |citySlugs| && 0 <= j < |citySlugs[i].1|
                        && t == Task(citySlugs[i].0, citySlugs[i].1[j].city, citySlugs[i].1[j].slug) {
        var i, j :| 0 <= i < |citySlugs| && 0 <= j < |citySlugs[i].1|
                    && t == Task(citySlugs[i].0, citySlugs[i].1[j].city, citySlugs[i].1[j].slug);
        if i == n {
          assert last[j] == t;
        } else {
          assert init[i] == citySlugs[i];
        }
      }
    }
  }

  /** `CITY_SLUGS[key]`: the entries under the key, or none. */
  function SlugsOf(citySlugs: seq<(string, seq<SlugEntry>)>, key: string): seq<SlugEntry>
    decreases |citySlugs|
  {
    if citySlugs == [] then []
    else if citySlugs[0].0 == key then citySlugs[0].1
    else SlugsOf(citySlugs[1..], key)
  }

  /** The Kerala tables are read only when Kerala has configured cities. */
  function KeralaTable(citySlugs: seq<(string, seq<SlugEntry>)>, table: map<string, real>): map<string, real>
  {
    if SlugsOf(citySlugs, "KL") != [] then table else map[]
  }

  /** The four page results of a city's slug. */
  function CitySnapshot(t: Task, today: string, pageOf: (FuelType, string) -> Option<CityPage>): Option<FuelRecord>
  {
    SnapshotWithSlug(t.stateKey, t.city, today,
                     FetchSingleFuel(pageOf(Petrol, t.slug), Petrol), FetchSingleFuel(pageOf(Diesel, t.slug), Diesel),
                     FetchSingleFuel(pageOf(Lpg, t.slug), Lpg), FetchSingleFuel(pageOf(Cng, t.slug), Cng))
  }

  /** What a task writes: its snapshot with the Kerala table prices for a
      Kerala city, no LPG or CNG for Lakshadweep, and every price checked
      against its range. */
  function TaskRecord(t: Task, today: string, pageOf: (FuelType, string) -> Option<CityPage>,
                      klLpg: map<string, real>, klCng: map<string, real>): Option<FuelRecord>
  {
    match CitySnapshot(t, today, pageOf)
    case None => None
    case Some(snap) =>
      var key := NormalizeCityName(t.city);
      var lpg := if t.stateKey == "KL" && key in klLpg && IsValidFuelPrice(Lpg, Some(klLpg[key])) then Some(klLpg[key]) else snap.lpg;
      var cng := if t.stateKey == "KL" && key in klCng && IsValidFuelPrice(Cng, Some(klCng[key])) then Some(klCng[key]) else snap.cng;
      var ld := Upper(snap.stateCode) == "LD";
      Some(snap.(petrol := ValidOrNull(Petrol, snap.petrol), diesel := ValidOrNull(Diesel, snap.diesel),
                 lpg := ValidOrNull(Lpg, if ld then None else lpg), cng := ValidOrNull(Cng, if ld then None else cng)))
  }

  /** A task writes a record exactly when its city pages gave a price; the
      record is the task's state and city, every price in it is in range,
      Lakshadweep gets no LPG or CNG, and a Kerala city takes the table's
      valid LPG and CNG prices. */
  lemma TaskRecordProps(t: Task, today: string, pageOf: (FuelType, string) -> Option<CityPage>,
                        klLpg: map<string, real>, klCng: map<string, real>)
    ensures var r := TaskRecord(t, today, pageOf, klLpg, klCng);
            && (r.None? <==> CitySnapshot(t, today, pageOf).None?)
            && (r.Some? ==> r.value.stateCode == t.stateKey && r.value.cityName == t.city && StrLe(today, r.value.date))
            && (r.Some? ==> (r.value.petrol.Some? ==> IsValidFuelPrice(Petrol, r.value.petrol))
                            && (r.value.diesel.Some? ==> IsValidFuelPrice(Diesel, r.value.diesel))
                            && (r.value.lpg.Some? ==> IsValidFuelPrice(Lpg, r.value.lpg))
                            && (r.value.cng.Some? ==> IsValidFuelPrice(Cng, r.value.cng)))
            && (r.Some? && Upper(t.stateKey) == "LD" ==> r.value.lpg.None? && r.value.cng.None?)
            && (r.Some? && t.stateKey == "KL" && NormalizeCityName(t.city) in klLpg
                && IsValidFuelPrice(Lpg, Some(klLpg[NormalizeCityName(t.city)])) ==>
                  r.value.lpg == Some(klLpg[NormalizeCityName(t.city)]))
            && (r.Some? && t.stateKey == "KL" && NormalizeCityName(t.city) in klCng
                && IsValidFuelPrice(Cng, Some(klCng[NormalizeCityName(t.city)])) ==>
                  r.value.cng == Some(klCng[NormalizeCityName(t.city)]))
  {
    var petrol := FetchSingleFuel(pageOf(Petrol, t.slug), Petrol);
    var diesel := FetchSingleFuel(pageOf(Diesel, t.slug), Diesel);
    var lpg := FetchSingleFuel(pageOf(Lpg, t.slug), Lpg);
    var cng := FetchSingleFuel(pageOf(Cng, t.slug), Cng);
    SnapshotWithSlugProps(t.stateKey, t.city, today, petrol, diesel, lpg, cng);
    if t.stateKey == "KL" {
      assert Upper(t.stateKey) == "KL";
    }
  }

  /** The task-to-record function of one run. */
  function RecordOf(today: string, pageOf: (FuelType, string) -> Option<CityPage>,
                    klLpg: map<string, real>, klCng: map<string, real>): Task -> Option<FuelRecord>
  {
    t => TaskRecord(t, today, pageOf, klLpg, klCng)
  }

  /** The records the tasks write, in order. */
  function Written(tasks: seq<Task>, rec: Task -> Option<FuelRecord>): seq<FuelRecord>
    decreases |tasks|
  {
    if tasks == [] then []
    else
      var r := rec(tasks[|tasks| - 1]);
      Written(tasks[..|tasks| - 1], rec) + (if r.Some? then [r.value] else [])
  }

  /** A failed task. */
  datatype TaskError = TaskError(task: Task, reason: string)

  /** The "no data" errors: one per task without a snapshot, in order. */
  function NoDataErrors(tasks: seq<Task>, rec: Task -> Option<FuelRecord>): seq<TaskError>
    decreases |tasks|
  {
    if tasks == [] then []
    else
      var t := tasks[|tasks| - 1];
      NoDataErrors(tasks[..|tasks| - 1], rec) + (if rec(t).None? then [TaskError(t, "no data")] else [])
  }

  /** Every task either writes a record or reports "no data"; the records
      are those of the tasks that have one, in task order. */
  lemma {:induction false} TasksAccounted(tasks: seq<Task>, rec: Task -> Option<FuelRecord>)
    ensures |Written(tasks, rec)| + |NoDataErrors(tasks, rec)| == |tasks|
    ensures forall r :: r in Written(tasks, rec) <==> exists t :: t in tasks && rec(t) == Some(r)
    decreases |tasks|
  {
    if tasks != [] {
      var init := tasks[..|tasks| - 1];
      var t := tasks[|tasks| - 1];
      TasksAccounted(init, rec);
      assert tasks == init + [t];
      forall r | exists u :: u in tasks && rec(u) == Some(r)
        ensures r in Written(tasks, rec)
      {
        var u :| u in tasks && rec(u) == Some(r);
        if u != t {
          assert u in init;
        }
      }
    }
  }

  /** One upsertFuelPrice call per record. */
  function SingleWrites(rs: seq<FuelRecord>): (ws: seq<Write>)
    ensures |ws| == |rs| && forall i :: 0 <= i < |rs| ==> ws[i] == PricesUpserted([rs[i]])
  {
    seq(|rs|, i requires 0 <= i < |rs| => PricesUpserted([rs[i]]))
  }

  /** scrapeAndUpsertAll's `results`. */
  datatype CitySummary = CitySummary(fetched: nat, upserts: nat, errors: seq<TaskError>)

  /** One task: its record is upserted and counted, or "no data" is
      recorded. */
  method RunTask(store: Store, sum: CitySummary, t: Task, rec: Task -> Option<FuelRecord>) returns (sum': CitySummary)
    modifies store
    ensures rec(t).None? ==> sum' == sum.(errors := sum.errors + [TaskError(t, "no data")])
                             && store.prices == old(store.prices) && store.log == old(store.log)
    ensures rec(t).Some? ==> sum' == sum.(fetched := sum.fetched + 1, upserts := sum.upserts + 1)
                             && store.prices == UpsertedPrices(old(store.prices), [rec(t).value])
                             && store.log == old(store.log) + [PricesUpserted([rec(t).value])]
    ensures store.stateNames == old(store.stateNames) && store.cityRows == old(store.cityRows)
  {
    var r := rec(t);
    if r.None? {
      sum' := sum.(errors := sum.errors + [TaskError(t, "no data")]);
      return;
    }
    sum' := sum.(fetched := sum.fetched + 1);
    store.UpsertFuelPrices([r.value]);
    sum' := sum'.(upserts := sum'.upserts + 1);
  }

  /** The task loop: one task after another, every record upserted in task
      order, and the counts and errors follow. */
  method RunTasks(store: Store, tasks: seq<Task>, rec: Task -> Option<FuelRecord>) returns (sum: CitySummary)
    modifies store
    ensures store.prices == UpsertedPrices(old(store.prices), Written(tasks, rec))
    ensures store.log == old(store.log) + SingleWrites(Written(tasks, rec))
    ensures sum.fetched == |Written(tasks, rec)| && sum.upserts == |Written(tasks, rec)|
    ensures sum.errors == NoDataErrors(tasks, rec)
    ensures store.stateNames == old(store.stateNames) && store.cityRows == old(store.cityRows)
  {
    sum := CitySummary(0, 0, []);
    ghost var p0 := store.prices;
    ghost var l0 := store.log;
    ghost var ws: seq<FuelRecord> := [];
    for i := 0 to |tasks|
      invariant ws == Written(tasks[..i], rec)
      invariant store.prices == UpsertedPrices(p0, ws)
      invariant store.log == l0 + SingleWrites(ws)
      invariant sum.fetched == |ws| && sum.upserts == |ws|
      invariant sum.errors == NoDataErrors(tasks[..i], rec)
      invariant store.stateNames == old(store.stateNames) && store.cityRows == old(store.cityRows)
    {
      assert tasks[..i + 1][..i] == tasks[..i];
      var r := rec(tasks[i]);
      sum := RunTask(store, sum, tasks[i], rec);
      if r.Some? {
        FoldAppend(p0, ws, [r.value], Upsert(PriceEntry));
        assert SingleWrites(ws + [r.value]) == SingleWrites(ws) + [PricesUpserted([r.value])];
        ws := ws + [r.value];
      }
    }
    assert tasks[..|tasks|] == tasks;
  }

  /** scrapeAndUpsertAll, with `CITY_SLUGS`, the Kerala tables, the date
      and the city pages given: the tasks of every configured city, run in
      order. */
  method ScrapeAll(store: Store, citySlugs: seq<(string, seq<SlugEntry>)>,
                   keralaLpg: map<string, real>, keralaCng: map<string, real>,
                   today: string, pageOf: (FuelType, string) -> Option<CityPage>)
      returns (sum: CitySummary)
    modifies store
    ensures var rec := RecordOf(today, pageOf, KeralaTable(citySlugs, keralaLpg), KeralaTable(citySlugs, keralaCng));
            var ws := Written(Tasks(citySlugs), rec);
            && store.prices == UpsertedPrices(old(store.prices), ws)
            && store.log == old(store.log) + SingleWrites(ws)
            && sum.fetched == |ws| && sum.upserts == |ws|
            && sum.errors == NoDataErrors(Tasks(citySlugs), rec)
    ensures store.stateNames == old(store.stateNames) && store.cityRows == old(store.cityRows)
  {
    var tasks := ListTasks(citySlugs);
    var klLpg: map<string, real> := map[];
    var klCng: map<string, real> := map[];
    if SlugsOf(citySlugs, "KL") != [] {
      klLpg := keralaLpg;
      klCng := keralaCng;
    }
    sum := RunTasks(store, tasks, RecordOf(today, pageOf, klLpg, klCng));
  }
}
