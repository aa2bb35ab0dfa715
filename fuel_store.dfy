/** The read side of lib/fuelStore.ts: the Kadapa/Cuddapah city aliases,
    the column readers `toNumberOrNull` and `normalizeToYmd`, the Lakshadweep
    override, and what getFuelHistory, buildChartData, buildTrendPoints,
    getTodayFuelPrices and getLatestNonNullFuelPriceMapForState do with the
    rows a query returned. */
module FuelStore {
  import opened Common
  import opened Sorting
  import opened Dedup
  import opened Folds
  import opened Numbers
  import opened Civil
  import opened Series
  import opened BatchValidation

  // ---------------------------------------------------------------------
  // City aliases

  /** normalizeCityNameForStateLookup: the trimmed name, except that
      Andhra Pradesh's "Kadapa" is stored as "Cuddapah". */
  function LookupCityName(stateCode: string, cityName: string): (r: string)
    ensures r == Trim(cityName) || (r == "Cuddapah" && Upper(stateCode) == "AP" && Lower(Trim(cityName)) == "kadapa")
  {
    var city := Trim(cityName);
    if Upper(stateCode) == "AP" && Lower(city) == "kadapa" then "Cuddapah" else city
  }

  /** normalizeCityNameForStateDisplay: the trimmed name, except that
      Andhra Pradesh's stored "Cuddapah" is shown as "Kadapa". */
  function DisplayCityName(stateCode: string, cityName: string): (r: string)
    ensures r == Trim(cityName) || (r == "Kadapa" && Upper(stateCode) == "AP" && Lower(Trim(cityName)) == "cuddapah")
  {
    var city := Trim(cityName);
    if Upper(stateCode) == "AP" && Lower(city) == "cuddapah" then "Kadapa" else city
  }

  /** The two alias literals, spelled out. */
  lemma AliasLiterals()
    ensures Trim("Kadapa") == "Kadapa" && Lower("Kadapa") == "kadapa"
    ensures Trim("Cuddapah") == "Cuddapah" && Lower("Cuddapah") == "cuddapah"
  {
    KadapaLiteral();
    CuddapahLiteral();
  }

  lemma KadapaLiteral()
    ensures Trim("Kadapa") == "Kadapa" && Lower("Kadapa") == "kadapa"
  {
    TrimOfTrimmed("Kadapa");
    LowerCapitalized("Kadapa");
  }

  lemma CuddapahLiteral()
    ensures Trim("Cuddapah") == "Cuddapah" && Lower("Cuddapah") == "cuddapah"
  {
    TrimOfTrimmed("Cuddapah");
    LowerCapitalized("Cuddapah");
  }

  /** Lowering a capitalised word lowers its first letter only. */
  lemma LowerCapitalized(w: string)
    requires |w| > 0 && IsUpper(w[0])
    requires forall i :: 1 <= i < |w| ==> !IsUpper(w[i])
    ensures Lower(w) == [(w[0] as int + 32) as char] + w[1..]
  {
  }

  /** Looking up the name a stored city is shown under finds that stored
      city again, for every stored name that is trimmed and is not itself a
      spelling of the alias. */
  lemma DisplayThenLookup(stateCode: string, stored: string)
    requires Trim(stored) == stored
    requires Lower(stored) != "kadapa"
    requires Lower(stored) == "cuddapah" ==> stored == "Cuddapah"
    ensures LookupCityName(stateCode, DisplayCityName(stateCode, stored)) == stored
  {
    if Upper(stateCode) == "AP" && Lower(stored) == "cuddapah" {
      assert DisplayCityName(stateCode, stored) == "Kadapa";
      KadapaLiteral();
    } else {
      assert DisplayCityName(stateCode, stored) == stored;
    }
  }

  /** Kadapa is looked up as Cuddapah and shown as Kadapa again; every
      other name is shown the same whether or not it was looked up first. */
  lemma LookupThenDisplay(stateCode: string, cityName: string)
    ensures Upper(stateCode) == "AP" && Lower(Trim(cityName)) == "kadapa" ==>
              LookupCityName(stateCode, cityName) == "Cuddapah"
              && DisplayCityName(stateCode, LookupCityName(stateCode, cityName)) == "Kadapa"
    ensures !(Upper(stateCode) == "AP" && Lower(Trim(cityName)) == "kadapa") ==>
              DisplayCityName(stateCode, LookupCityName(stateCode, cityName)) == DisplayCityName(stateCode, cityName)
  {
    if Upper(stateCode) == "AP" && Lower(Trim(cityName)) == "kadapa" {
      LookupKadapa(stateCode, cityName);
    } else {
      LookupOther(stateCode, cityName);
    }
  }

  lemma LookupKadapa(stateCode: string, cityName: string)
    requires Upper(stateCode) == "AP" && Lower(Trim(cityName)) == "kadapa"
    ensures LookupCityName(stateCode, cityName) == "Cuddapah"
    ensures DisplayCityName(stateCode, "Cuddapah") == "Kadapa"
  {
    CuddapahLiteral();
  }

  lemma LookupOther(stateCode: string, cityName: string)
    requires !(Upper(stateCode) == "AP" && Lower(Trim(cityName)) == "kadapa")
    ensures DisplayCityName(stateCode, LookupCityName(stateCode, cityName)) == DisplayCityName(stateCode, cityName)
  {
    var t := Trim(cityName);
    assert LookupCityName(stateCode, cityName) == t;
    TrimTrimmed(cityName);
  }

  lemma TrimTrimmed(s: string)
    ensures Trim(Trim(s)) == Trim(s)
  {
    TrimOfTrimmed(Trim(s));
  }

  // ---------------------------------------------------------------------
  // Column readers

  /** A column value as the database client hands it over. */
  datatype JsValue = Num(n: real) | NonFinite | Str(s: string) | Null

  /** The value a history row's price (`number | null`) is as a column. */
  function AsJs(p: Option<real>): JsValue {
    if p.Some? then Num(p.value) else Null
  }

  /** toNumberOrNull: a finite number as it is, a string through `Number`,
      anything else null. */
  function ToNumberOrNull(v: JsValue): (r: Option<real>)
    ensures v.Num? ==> r == Some(v.n)
    ensures v.Null? || v.NonFinite? ==> r.None?
    ensures v.Str? && Trim(v.s) == [] ==> r == Some(0.0)
  {
    match v
    case Num(n) => Some(n)
    case Str(s) => ParseNumber(s)
    case _ => None
  }

  /** A price read back from a column is the price: a number or null as it
      is, and a price the database renders as a two-decimal string as its
      value. */
  lemma ToNumberOrNullRoundTrip(p: Option<real>, whole: nat, cents: nat)
    requires cents < 100
    ensures ToNumberOrNull(AsJs(p)) == p
    ensures ToNumberOrNull(Str(RenderAmount(whole, cents))) == Some(AmountValue(whole, cents))
  {
    ParseNumberOfRenderedAmount(whole, cents);
  }

  /** normalizeToYmd: the first ten characters of the trimmed text when they
      read `YYYY-MM-DD`; null otherwise. */
  function NormalizeToYmd(s: string): (r: Option<string>)
    ensures r.Some? <==> |Trim(s)| >= 10 && IsYmdShape(Trim(s)[..10])
    ensures r.Some? ==> r.value == Trim(s)[..10]
  {
    var t := Trim(s);
    if t == [] then None
    else
      var ymd := if |t| >= 10 then t[..10] else t;
      if IsYmdShape(ymd) then Some(ymd) else None
  }

  /** A `YYYY-MM-DD` text is its own normal form, and normalising twice
      changes nothing. */
  lemma NormalizeToYmdProps(s: string)
    ensures IsYmdShape(s) ==> NormalizeToYmd(s) == Some(s)
    ensures NormalizeToYmd(s).Some? ==>
              IsYmdShape(NormalizeToYmd(s).value) && NormalizeToYmd(NormalizeToYmd(s).value) == NormalizeToYmd(s)
  {
    if IsYmdShape(s) {
      YmdIsNormal(s);
    }
    var r := NormalizeToYmd(s);
    if r.Some? {
      assert IsYmdShape(r.value);
      YmdIsNormal(r.value);
    }
  }

  /** A `YYYY-MM-DD` text normalises to itself. */
  lemma YmdIsNormal(s: string)
    requires IsYmdShape(s)
    ensures NormalizeToYmd(s) == Some(s)
  {
    TrimOfTrimmed(s);
    assert s[..10] == s;
  }

  // ---------------------------------------------------------------------
  // Rows

  /** FuelHistoryRow, and FuelTrendPoint, which has the same fields. */
  datatype PriceRow = PriceRow(date: string, petrol: Option<real>, diesel: Option<real>,
                               lpg: Option<real>, cng: Option<real>)

  /** A `fuel_prices` row as the history query returns it (`String(row.date
      ?? "")` for the date). */
  datatype DbRow = DbRow(date: string, petrol: JsValue, diesel: JsValue, lpg: JsValue, cng: JsValue)

  /** applyFuelAvailabilityOverrides: Lakshadweep sells no LPG or CNG. */
  function ApplyOverrides(stateCode: string, row: PriceRow): (r: PriceRow)
    ensures r.date == row.date && r.petrol == row.petrol && r.diesel == row.diesel
    ensures Upper(stateCode) == "LD" ==> r.lpg.None? && r.cng.None?
    ensures Upper(stateCode) != "LD" ==> r == row
  {
    if Upper(stateCode) == "LD" then row.(lpg := None, cng := None) else row
  }

  /** The override applied twice is the override applied once. */
  lemma ApplyOverridesIdempotent(stateCode: string, row: PriceRow)
    ensures ApplyOverrides(stateCode, ApplyOverrides(stateCode, row)) == ApplyOverrides(stateCode, row)
  {
  }

  function PriceOf(row: PriceRow, fuel: FuelType): Option<real> {
    match fuel
    case Petrol => row.petrol
    case Diesel => row.diesel
    case Lpg => row.lpg
    case Cng => row.cng
  }

  /** Rows ordered by `a.date.localeCompare(b.date)`. */
  function ByDate(a: PriceRow, b: PriceRow): bool { StrLe(a.date, b.date) }

  lemma ByDateTotalPreorder()
    ensures TotalPreorder(ByDate)
  {
    forall x, y ensures ByDate(x, y) || ByDate(y, x) { StrLeTotal(x.date, y.date); }
    forall x, y, z | ByDate(x, y) && ByDate(y, z) ensures ByDate(x, z) { StrLeTrans(x.date, y.date, z.date); }
  }

  function HasDate(d: string): PriceRow -> bool { (r: PriceRow) => r.date == d }

  /** One date is one class of the order. */
  lemma HasDateIsClass(d: string)
    ensures IsClassOf(HasDate(d), ByDate)
  {
    forall x, y | HasDate(d)(x) ensures HasDate(d)(y) <==> ByDate(x, y) && ByDate(y, x) {
      StrLeRefl(x.date);
      if ByDate(x, y) && ByDate(y, x) {
        StrLeAntisym(x.date, y.date);
      }
    }
  }

  predicate DatesAscend(rows: seq<PriceRow>) {
    forall i, j :: 0 <= i < j < |rows| ==> StrLt(rows[i].date, rows[j].date)
  }

  function RowDate(r: PriceRow): string { r.date }

  /** Sorted by date with pairwise distinct dates: strictly ascending. */
  lemma AscendOfSortedDistinct(rows: seq<PriceRow>)
    requires SortedBy(rows, ByDate) && DistinctKeys(rows, RowDate)
    ensures DatesAscend(rows)
  {
  }

  /** `(date, row)` for the `byDate` Map. */
  function DateEntry(r: PriceRow): Option<(string, PriceRow)> { Some((r.date, r)) }

  // ---------------------------------------------------------------------
  // getFuelHistory

  /** One query row as a history row: null when its date does not read
      `YYYY-MM-DD`, the prices through toNumberOrNull, then the override. */
  function HistoryRowOf(stateCode: string): DbRow -> Option<PriceRow>
  {
    (raw: DbRow) =>
      match NormalizeToYmd(raw.date)
      case None => None
      case Some(date) =>
        Some(ApplyOverrides(stateCode, PriceRow(date, ToNumberOrNull(raw.petrol), ToNumberOrNull(raw.diesel),
                                                ToNumberOrNull(raw.lpg), ToNumberOrNull(raw.cng))))
  }

  /** `r` is the last of `rows` with its date. */
  predicate IsLastWithDate(rows: seq<PriceRow>, r: PriceRow) {
    var dated := Filter(rows, HasDate(r.date));
    dated != [] && dated[|dated| - 1] == r
  }

  /** What the `byDate` Map holds, in insertion order, after one `set` per
      row keyed by its date: one row per date, the last with that date. */
  function LatestByDate(rows: seq<PriceRow>): seq<PriceRow> {
    Latest(Collect(rows, DateEntry))
  }

  /** DateEntry always yields, keyed by the row's date. */
  lemma {:induction false} DateEntries(rows: seq<PriceRow>)
    ensures |Collect(rows, DateEntry)| == |rows|
    ensures forall i :: 0 <= i < |rows| ==> Collect(rows, DateEntry)[i] == (rows[i].date, rows[i])
    decreases |rows|
  {
    if rows != [] {
      DateEntries(rows[..|rows| - 1]);
    }
  }

  /** Each row the Map keeps is the last row with its date, kept at its
      date's place in the order dates first appear. */
  lemma LatestByDateIsLast(rows: seq<PriceRow>, j: int)
    requires 0 <= j < |LatestByDate(rows)|
    ensures LatestByDate(rows)[j].date == Distinct(Keys(Collect(rows, DateEntry)))[j]
    ensures IsLastWithDate(rows, LatestByDate(rows)[j])
  {
    var es := Collect(rows, DateEntry);
    LatestAt(es, j);
    var i :| IsLastOfKey(es, i) && es[i] == (Distinct(Keys(es))[j], Latest(es)[j]);
    DateEntries(rows);
    assert forall k :: i < k < |rows| ==> rows[k].date != rows[i].date by {
      forall k | i < k < |rows| ensures rows[k].date != rows[i].date {
        assert es[k].0 != es[i].0;
      }
    }
    LastWithDate(rows, i);
  }

  /** A row no later row shares a date with is the last with its date. */
  lemma LastWithDate(rows: seq<PriceRow>, i: int)
    requires 0 <= i < |rows|
    requires forall k :: i < k < |rows| ==> rows[k].date != rows[i].date
    ensures IsLastWithDate(rows, rows[i])
  {
    LastOfFilter(rows, HasDate(rows[i].date), i);
  }

  /** Sorting by date keeps the rows of one date in their order. */
  lemma SortKeepsDateOrder(rows: seq<PriceRow>, d: string)
    ensures Filter(Sort(rows, ByDate), HasDate(d)) == Filter(rows, HasDate(d))
  {
    HasDateIsClass(d);
    ByDateTotalPreorder();
    SortStable(rows, ByDate, HasDate(d));
  }

  /** The rows the Map keeps have pairwise distinct dates. */
  lemma LatestByDateDistinct(rows: seq<PriceRow>)
    ensures DistinctKeys(LatestByDate(rows), RowDate)
  {
    var es := Collect(rows, DateEntry);
    var kept := LatestByDate(rows);
    LatestProps(es);
    forall i, j | 0 <= i < j < |kept| ensures RowDate(kept[i]) != RowDate(kept[j]) {
      LatestByDateIsLast(rows, i);
      LatestByDateIsLast(rows, j);
    }
  }

  /** The dates of some rows. */
  function DatesOf(rows: seq<PriceRow>): set<string> {
    set r | r in rows :: r.date
  }

  /** A kept row's date is the date of some row. */
  lemma KeptDateInRows(rows: seq<PriceRow>, j: int)
    requires 0 <= j < |LatestByDate(rows)|
    ensures LatestByDate(rows)[j].date in DatesOf(rows)
  {
    var es := Collect(rows, DateEntry);
    var d := LatestByDate(rows)[j].date;
    LatestByDateIsLast(rows, j);
    DistinctHas(Keys(es), d);
    var m :| 0 <= m < |es| && Keys(es)[m] == d;
    DateEntries(rows);
    assert rows[m] in rows;
  }

  /** Every date of the rows has a kept row. */
  lemma RowDateKept(rows: seq<PriceRow>, r: PriceRow)
    requires r in rows
    ensures r.date in DatesOf(LatestByDate(rows))
  {
    var es := Collect(rows, DateEntry);
    var m :| 0 <= m < |rows| && rows[m] == r;
    DateEntries(rows);
    assert Keys(es)[m] == r.date;
    DistinctHas(Keys(es), r.date);
    var j :| 0 <= j < |Distinct(Keys(es))| && Distinct(Keys(es))[j] == r.date;
    LatestByDateIsLast(rows, j);
    assert LatestByDate(rows)[j] in LatestByDate(rows);
  }

  /** The Map keeps a row for a date exactly when some row has that date. */
  lemma LatestByDateDates(rows: seq<PriceRow>)
    ensures DatesOf(LatestByDate(rows)) == DatesOf(rows)
  {
    var kept := LatestByDate(rows);
    forall d | d in DatesOf(kept) ensures d in DatesOf(rows) {
      var j :| 0 <= j < |kept| && kept[j].date == d;
      KeptDateInRows(rows, j);
    }
    forall d | d in DatesOf(rows) ensures d in DatesOf(kept) {
      var r :| r in rows && r.date == d;
      RowDateKept(rows, r);
    }
  }

  /** The kept rows sorted again by date: dates strictly ascend, the dates
      are those of `rows`, and each row is the last row with its date. */
  lemma SortedLatestByDate(rows: seq<PriceRow>, out: seq<PriceRow>)
    requires out == Sort(LatestByDate(rows), ByDate)
    ensures DatesAscend(out)
    ensures DatesOf(out) == DatesOf(rows)
    ensures forall i :: 0 <= i < |out| ==> IsLastWithDate(rows, out[i]) && out[i] in rows
  {
    var kept := LatestByDate(rows);
    LatestByDateDistinct(rows);
    DistinctKeysPermutation(kept, out, RowDate);
    ByDateTotalPreorder();
    SortSorted(kept, ByDate);
    AscendOfSortedDistinct(out);
    forall i | 0 <= i < |out| ensures IsLastWithDate(rows, out[i]) && out[i] in rows {
      SortedKeptIsLast(rows, out, i);
    }
    LatestByDateDates(rows);
    SameRowsSameDates(kept, out);
  }

  /** A row of the re-sorted list is a kept row: the last with its date. */
  lemma SortedKeptIsLast(rows: seq<PriceRow>, out: seq<PriceRow>, i: int)
    requires out == Sort(LatestByDate(rows), ByDate) && 0 <= i < |out|
    ensures IsLastWithDate(rows, out[i]) && out[i] in rows
  {
    var kept := LatestByDate(rows);
    assert out[i] in multiset(kept);
    var j :| 0 <= j < |kept| && kept[j] == out[i];
    LatestByDateIsLast(rows, j);
    var dated := Filter(rows, HasDate(out[i].date));
    assert dated[|dated| - 1] in dated;
    FilterHas(rows, HasDate(out[i].date), out[i]);
  }

  /** Lists with the same rows have the same dates. */
  lemma SameRowsSameDates(a: seq<PriceRow>, b: seq<PriceRow>)
    requires multiset(a) == multiset(b)
    ensures DatesOf(a) == DatesOf(b)
  {
    forall r ensures r in a <==> r in b {
      assert r in a <==> r in multiset(a);
      assert r in b <==> r in multiset(b);
    }
  }

  /** Rows sorted by date before the Map is filled: what the Map keeps,
      sorted again, is a row of `rows` for each of their dates, the last
      one with that date. */
  lemma SortedRowsLatest(rows: seq<PriceRow>, out: seq<PriceRow>)
    requires out == Sort(LatestByDate(Sort(rows, ByDate)), ByDate)
    ensures DatesAscend(out)
    ensures DatesOf(out) == DatesOf(rows)
    ensures forall i :: 0 <= i < |out| ==> IsLastWithDate(rows, out[i]) && out[i] in rows
  {
    var sorted := Sort(rows, ByDate);
    SortedLatestByDate(sorted, out);
    SameRowsSameDates(sorted, rows);
    forall i | 0 <= i < |out| ensures IsLastWithDate(rows, out[i]) && out[i] in rows {
      SortedRowIsLast(rows, sorted, out[i]);
    }
  }

  /** The last row with a date after sorting by date is the last before. */
  lemma SortedRowIsLast(rows: seq<PriceRow>, sorted: seq<PriceRow>, r: PriceRow)
    requires sorted == Sort(rows, ByDate)
    requires IsLastWithDate(sorted, r) && r in sorted
    ensures IsLastWithDate(rows, r) && r in rows
  {
    SortKeepsDateOrder(rows, r.date);
    LastOfSameFilter(sorted, rows, r);
    SortedHas(rows, r);
  }

  lemma LastOfSameFilter(a: seq<PriceRow>, b: seq<PriceRow>, r: PriceRow)
    requires Filter(a, HasDate(r.date)) == Filter(b, HasDate(r.date))
    requires IsLastWithDate(a, r)
    ensures IsLastWithDate(b, r)
  {
  }

  lemma SortedHas(rows: seq<PriceRow>, r: PriceRow)
    requires r in Sort(rows, ByDate)
    ensures r in rows
  {
    assert r in multiset(Sort(rows, ByDate));
  }

  /** The dates the query rows read as. */
  function YmdDates(data: seq<DbRow>): set<string> {
    set k | 0 <= k < |data| && NormalizeToYmd(data[k].date).Some? :: NormalizeToYmd(data[k].date).value
  }

  /** The converted rows have the dates the query rows read as, and carry
      the override. */
  lemma HistoryRowFacts(stateCode: string, data: seq<DbRow>)
    ensures DatesOf(Collect(data, HistoryRowOf(stateCode))) == YmdDates(data)
    ensures Upper(stateCode) == "LD" ==>
              forall r :: r in Collect(data, HistoryRowOf(stateCode)) ==> r.lpg.None? && r.cng.None?
  {
    var f := HistoryRowOf(stateCode);
    var rows := Collect(data, f);
    forall r | r in rows ensures r.date in YmdDates(data)
                         ensures Upper(stateCode) == "LD" ==> r.lpg.None? && r.cng.None?
    {
      CollectHas(data, f, r);
    }
    forall d | d in YmdDates(data) ensures d in DatesOf(rows) {
      var k :| 0 <= k < |data| && NormalizeToYmd(data[k].date) == Some(d);
      CollectHas(data, f, f(data[k]).value);
    }
  }

  /** The post-query part of getFuelHistory, given the rows the query
      returned: one row per date, dates ascending, a row for exactly the
      dates the query rows read as, each the last converted row with its
      date, with the override applied. */
  method FuelHistory(stateCode: string, data: seq<DbRow>) returns (history: seq<PriceRow>)
    ensures DatesAscend(history)
    ensures DatesOf(history) == YmdDates(data)
    ensures forall i :: 0 <= i < |history| ==> IsLastWithDate(Collect(data, HistoryRowOf(stateCode)), history[i])
    ensures Upper(stateCode) == "LD" ==> forall i :: 0 <= i < |history| ==> history[i].lpg.None? && history[i].cng.None?
  {
    var rows := Collect(data, HistoryRowOf(stateCode));
    var sorted := Sort(rows, ByDate);
    var dates, byDate := LatestLoop(sorted, DateEntry);
    history := Sort(byDate, ByDate);
    SortedLatestByDate(sorted, history);
    SortedRowsLatest(rows, history);
    HistoryRowFacts(stateCode, data);
  }

  /** `since` of the history query: `max(2, days) - 1` days before today,
      so the window always reaches back at least one day. */
  function HistorySince(today: Date, days: int): (since: Date)
    requires Valid(today)
    ensures Valid(since)
  {
    Shift(today, -(if days < 2 then 1 else days - 1))
  }

  /** The window ends today and covers `max(2, days)` calendar days. */
  lemma HistorySinceSpan(today: Date, days: int)
    requires Valid(today)
    ensures Shift(HistorySince(today, days), if days < 2 then 1 else days - 1) == today
    ensures Before(HistorySince(today, days), today)
  {
    var n := if days < 2 then 1 else days - 1;
    ShiftInverse(today, -n);
    ShiftBackNotAfter(PrevDay(today), -n + 1);
    PrevBefore(today);
  }

  lemma PrevBefore(d: Date)
    requires Valid(d)
    ensures Before(PrevDay(d), d)
  {
  }

  // ---------------------------------------------------------------------
  // buildChartData and buildTrendPoints

  /** `Boolean(r?.date)` */
  function HasSomeDate(r: PriceRow): bool { r.date != [] }

  /** The rows both builders walk: those with a date, sorted by date. */
  function DatedRows(historyRows: seq<PriceRow>): seq<PriceRow> {
    Sort(Filter(historyRows, HasSomeDate), ByDate)
  }

  /** The rows walked are the rows with a date. */
  lemma DatedRowsHas(historyRows: seq<PriceRow>, r: PriceRow)
    ensures r in DatedRows(historyRows) <==> r in historyRows && r.date != []
  {
    var rows := Filter(historyRows, HasSomeDate);
    FilterHas(historyRows, HasSomeDate, r);
    assert r in DatedRows(historyRows) <==> r in multiset(DatedRows(historyRows));
    assert r in rows <==> r in multiset(rows);
  }

  /** A normalised date comes from a non-empty text. */
  lemma NormalizeToYmdNonEmpty(s: string)
    requires NormalizeToYmd(s).Some?
    ensures s != []
  {
  }

  /** One row as a chart point of one fuel: none when its date does not
      read `YYYY-MM-DD` or the price is null. */
  function ChartPoint(fuel: FuelType, r: PriceRow): (e: Option<(string, real)>)
    ensures e.Some? <==> NormalizeToYmd(r.date).Some? && PriceOf(r, fuel).Some?
    ensures e.Some? ==> e.value == (NormalizeToYmd(r.date).value, PriceOf(r, fuel).value)
  {
    match NormalizeToYmd(r.date)
    case None => None
    case Some(date) =>
      var v := ToNumberOrNull(AsJs(PriceOf(r, fuel)));
      if v.None? then None else Some((date, v.value))
  }

  function ChartEntry(fuel: FuelType): PriceRow -> Option<(string, real)> {
    (r: PriceRow) => ChartPoint(fuel, r)
  }

  /** The last row, in date order, with a point for date `d` has price `v`. */
  ghost predicate IsLastPoint(rows: seq<PriceRow>, fuel: FuelType, d: string, v: real) {
    exists i :: IsLastYieldAt(rows, ChartEntry(fuel), i, d, v)
  }

  /** The dates that have a point. */
  function ChartDates(historyRows: seq<PriceRow>, fuel: FuelType): set<string> {
    set r | r in historyRows && ChartEntry(fuel)(r).Some? :: ChartEntry(fuel)(r).value.0
  }

  predicate AllYmd(rows: seq<PriceRow>) {
    forall i :: 0 <= i < |rows| ==> IsYmdShape(rows[i].date)
  }

  /** buildChartData: one label per date that has a price, each once, the
      value of the last row for that date in date order, and labels in
      ascending order when the rows carry `YYYY-MM-DD` dates, as
      getFuelHistory's do. */
  method BuildChartData(historyRows: seq<PriceRow>, fuel: FuelType) returns (labels: seq<string>, values: seq<real>)
    ensures |labels| == |values|
    ensures NoDuplicates(labels)
    ensures forall d :: d in labels <==> d in ChartDates(historyRows, fuel)
    ensures forall j :: 0 <= j < |labels| ==> IsLastPoint(DatedRows(historyRows), fuel, labels[j], values[j])
    ensures AllYmd(historyRows) ==> forall i, j :: 0 <= i < j < |labels| ==> StrLt(labels[i], labels[j])
  {
    var rows := Filter(historyRows, HasSomeDate);
    var sorted := Sort(rows, ByDate);
    labels, values := LatestLoop(sorted, ChartEntry(fuel));
    ChartProps(historyRows, fuel, labels, values);
  }

  lemma ChartProps(historyRows: seq<PriceRow>, fuel: FuelType, labels: seq<string>, values: seq<real>)
    requires labels == Distinct(Keys(Collect(DatedRows(historyRows), ChartEntry(fuel))))
    requires values == Latest(Collect(DatedRows(historyRows), ChartEntry(fuel)))
    ensures |labels| == |values|
    ensures NoDuplicates(labels)
    ensures forall d :: d in labels <==> d in ChartDates(historyRows, fuel)
    ensures forall j :: 0 <= j < |labels| ==> IsLastPoint(DatedRows(historyRows), fuel, labels[j], values[j])
    ensures AllYmd(historyRows) ==> forall i, j :: 0 <= i < j < |labels| ==> StrLt(labels[i], labels[j])
  {
    var sorted := DatedRows(historyRows);
    var es := Collect(sorted, ChartEntry(fuel));
    LatestProps(es);
    forall d ensures d in labels <==> d in ChartDates(historyRows, fuel) {
      ChartLabel(historyRows, fuel, d);
    }
    forall j | 0 <= j < |labels| ensures IsLastPoint(sorted, fuel, labels[j], values[j]) {
      LatestYield(sorted, ChartEntry(fuel), j);
    }
    if AllYmd(historyRows) {
      ChartAscending(historyRows, fuel);
    }
  }

  /** A date is a label exactly when some row has a point for it. */
  lemma ChartLabel(historyRows: seq<PriceRow>, fuel: FuelType, d: string)
    ensures d in Distinct(Keys(Collect(DatedRows(historyRows), ChartEntry(fuel)))) <==> d in ChartDates(historyRows, fuel)
  {
    var sorted := DatedRows(historyRows);
    var f := ChartEntry(fuel);
    DistinctHas(Keys(Collect(sorted, f)), d);
    CollectKeyHas(sorted, f, d);
    if d in ChartDates(historyRows, fuel) {
      ChartDateHasRow(historyRows, fuel, d);
    }
    if exists i :: 0 <= i < |sorted| && YieldsKey(f, sorted[i], d) {
      var i :| 0 <= i < |sorted| && YieldsKey(f, sorted[i], d);
      RowPointDated(historyRows, fuel, sorted[i]);
    }
  }

  /** A row of the dated rows with a point adds its date. */
  lemma RowPointDated(historyRows: seq<PriceRow>, fuel: FuelType, r: PriceRow)
    requires r in DatedRows(historyRows) && ChartEntry(fuel)(r).Some?
    ensures ChartEntry(fuel)(r).value.0 in ChartDates(historyRows, fuel)
  {
    DatedRowsHas(historyRows, r);
  }

  /** A date with a point comes from one of the dated rows. */
  lemma ChartDateHasRow(historyRows: seq<PriceRow>, fuel: FuelType, d: string)
    requires d in ChartDates(historyRows, fuel)
    ensures exists i :: 0 <= i < |DatedRows(historyRows)| && YieldsKey(ChartEntry(fuel), DatedRows(historyRows)[i], d)
  {
    var sorted := DatedRows(historyRows);
    var f := ChartEntry(fuel);
    var r :| r in historyRows && f(r).Some? && f(r).value.0 == d;
    NormalizeToYmdNonEmpty(r.date);
    DatedRowsHas(historyRows, r);
    var i :| 0 <= i < |sorted| && sorted[i] == r;
    assert YieldsKey(f, sorted[i], d);
  }

  /** Rows with `YYYY-MM-DD` dates give labels in ascending order. */
  lemma ChartAscending(historyRows: seq<PriceRow>, fuel: FuelType)
    requires AllYmd(historyRows)
    ensures var labels := Distinct(Keys(Collect(DatedRows(historyRows), ChartEntry(fuel))));
            forall i, j :: 0 <= i < j < |labels| ==> StrLt(labels[i], labels[j])
  {
    var sorted := DatedRows(historyRows);
    var f := ChartEntry(fuel);
    forall i | 0 <= i < |sorted| && f(sorted[i]).Some? ensures EntryDate(f(sorted[i]).value) == RowDate(sorted[i]) {
      ChartKeyIsDate(historyRows, fuel, sorted[i]);
    }
    DatedRowsSorted(historyRows);
    CollectSorted(sorted, f, RowDate, EntryDate);
    var es := Collect(sorted, f);
    assert SortedBy(Keys(es), StrLe) by {
      forall i, j | 0 <= i < j < |es| ensures StrLe(Keys(es)[i], Keys(es)[j]) {
        assert StrLe(EntryDate(es[i]), EntryDate(es[j]));
      }
    }
    DistinctAscending(Keys(es));
  }

  lemma DatedRowsSorted(historyRows: seq<PriceRow>)
    ensures SortedBy(DatedRows(historyRows), (a: PriceRow, b: PriceRow) => StrLe(RowDate(a), RowDate(b)))
  {
    ByDateTotalPreorder();
    SortSorted(Filter(historyRows, HasSomeDate), ByDate);
  }

  /** With `YYYY-MM-DD` dates, a point's label is its row's date. */
  lemma ChartKeyIsDate(historyRows: seq<PriceRow>, fuel: FuelType, r: PriceRow)
    requires AllYmd(historyRows) && r in DatedRows(historyRows)
    ensures ChartPoint(fuel, r).Some? ==> ChartPoint(fuel, r).value.0 == r.date
  {
    DatedRowsHas(historyRows, r);
    var k :| 0 <= k < |historyRows| && historyRows[k] == r;
    assert IsYmdShape(r.date);
    YmdIsNormal(r.date);
  }

  function EntryDate(e: (string, real)): string { e.0 }

  /** One row as a trend point: none when its date does not read
      `YYYY-MM-DD`; the prices through toNumberOrNull. */
  function TrendPointOf(r: PriceRow): Option<PriceRow> {
    match NormalizeToYmd(r.date)
    case None => None
    case Some(date) =>
      Some(PriceRow(date, ToNumberOrNull(AsJs(r.petrol)), ToNumberOrNull(AsJs(r.diesel)),
                    ToNumberOrNull(AsJs(r.lpg)), ToNumberOrNull(AsJs(r.cng))))
  }

  /** A trend point is its row under the normalised date. */
  lemma TrendPointOfRow(r: PriceRow)
    ensures TrendPointOf(r).Some? <==> NormalizeToYmd(r.date).Some?
    ensures TrendPointOf(r).Some? ==> TrendPointOf(r).value == r.(date := NormalizeToYmd(r.date).value)
  {
    ToNumberOrNullRoundTrip(r.petrol, 0, 0);
    ToNumberOrNullRoundTrip(r.diesel, 0, 0);
    ToNumberOrNullRoundTrip(r.lpg, 0, 0);
    ToNumberOrNullRoundTrip(r.cng, 0, 0);
  }

  /** `byDate.set(date, point)` */
  function TrendEntry(r: PriceRow): Option<(string, PriceRow)> {
    if TrendPointOf(r).Some? then DateEntry(TrendPointOf(r).value) else None
  }

  /** Setting each point under its date is converting all rows, then
      setting each point under its date. */
  lemma {:induction false} CollectTrend(xs: seq<PriceRow>)
    ensures Collect(xs, TrendEntry) == Collect(Collect(xs, TrendPointOf), DateEntry)
    decreases |xs|
  {
    if xs != [] {
      var init := xs[..|xs| - 1];
      CollectTrend(init);
      var pts := Collect(xs, TrendPointOf);
      var p := TrendPointOf(xs[|xs| - 1]);
      var extra := if p.Some? then [p.value] else [];
      assert pts == Collect(init, TrendPointOf) + extra;
      CollectConcat(Collect(init, TrendPointOf), extra, DateEntry);
    }
  }

  /** The dates that have a trend point. */
  function TrendDates(historyRows: seq<PriceRow>): set<string> {
    set r | r in historyRows && NormalizeToYmd(r.date).Some? :: NormalizeToYmd(r.date).value
  }

  /** buildTrendPoints: one point per date, dates ascending, a point for
      exactly the dates the rows read as, each the point of the last row
      with that date in date order. */
  method BuildTrendPoints(historyRows: seq<PriceRow>) returns (points: seq<PriceRow>)
    ensures DatesAscend(points)
    ensures DatesOf(points) == TrendDates(historyRows)
    ensures forall i :: 0 <= i < |points| ==>
              IsLastWithDate(Collect(DatedRows(historyRows), TrendPointOf), points[i])
              && points[i] in Collect(DatedRows(historyRows), TrendPointOf)
  {
    var rows := Filter(historyRows, HasSomeDate);
    var sorted := Sort(rows, ByDate);
    var dates, byDate := LatestLoop(sorted, TrendEntry);
    points := Sort(byDate, ByDate);
    CollectTrend(sorted);
    SortedLatestByDate(Collect(sorted, TrendPointOf), points);
    TrendDatesOf(historyRows);
  }

  /** The converted rows have the dates the rows read as. */
  lemma TrendDatesOf(historyRows: seq<PriceRow>)
    ensures DatesOf(Collect(DatedRows(historyRows), TrendPointOf)) == TrendDates(historyRows)
  {
    var sorted := DatedRows(historyRows);
    var pts := Collect(sorted, TrendPointOf);
    forall p | p in pts ensures p.date in TrendDates(historyRows) {
      CollectHas(sorted, TrendPointOf, p);
      var i :| 0 <= i < |sorted| && TrendPointOf(sorted[i]) == Some(p);
      DatedRowsHas(historyRows, sorted[i]);
    }
    forall d | d in TrendDates(historyRows) ensures d in DatesOf(pts) {
      var r :| r in historyRows && NormalizeToYmd(r.date) == Some(d);
      NormalizeToYmdNonEmpty(r.date);
      DatedRowsHas(historyRows, r);
      var i :| 0 <= i < |sorted| && sorted[i] == r;
      CollectHas(sorted, TrendPointOf, TrendPointOf(r).value);
    }
  }

  // ---------------------------------------------------------------------
  // getTodayFuelPrices

  /** `rows.find(row => row.date === date)` */
  function FindByDate(rows: seq<PriceRow>, date: string): (r: Option<PriceRow>)
    ensures r.Some? ==> r.value in rows && r.value.date == date
    ensures r.None? <==> forall i :: 0 <= i < |rows| ==> rows[i].date != date
    ensures r.Some? ==> exists i :: 0 <= i < |rows| && rows[i] == r.value && forall k :: 0 <= k < i ==> rows[k].date != date
  {
    if rows == [] then None
    else if rows[0].date == date then Some(rows[0])
    else
      var r := FindByDate(rows[1..], date);
      assert r.Some? ==> exists i :: 0 <= i < |rows| && rows[i] == r.value && forall k :: 0 <= k < i ==> rows[k].date != date by {
        if r.Some? {
          var i :| 0 <= i < |rows[1..]| && rows[1..][i] == r.value && forall k :: 0 <= k < i ==> rows[1..][k].date != date;
          assert rows[i + 1] == r.value;
          assert forall k :: 0 < k < i + 1 ==> rows[k] == rows[1..][k - 1];
        }
      }
      assert r.None? ==> forall i :: 0 <= i < |rows| ==> rows[i].date != date by {
        if r.None? {
          assert forall i :: 0 < i < |rows| ==> rows[i] == rows[1..][i - 1];
        }
      }
      r
  }

  /** The post-query part of getTodayFuelPrices: the first row dated today
      and the first dated yesterday, each with the override applied. */
  function TodayPrices(stateCode: string, rows: seq<PriceRow>, today: string, yesterday: string)
    : (r: (Option<PriceRow>, Option<PriceRow>))
    ensures r.0.Some? <==> exists i :: 0 <= i < |rows| && rows[i].date == today
    ensures r.1.Some? <==> exists i :: 0 <= i < |rows| && rows[i].date == yesterday
    ensures r.0.Some? ==> r.0.value.date == today && r.0.value == ApplyOverrides(stateCode, FindByDate(rows, today).value)
    ensures r.1.Some? ==> r.1.value.date == yesterday && r.1.value == ApplyOverrides(stateCode, FindByDate(rows, yesterday).value)
  {
    var t := FindByDate(rows, today);
    var y := FindByDate(rows, yesterday);
    (if t.Some? then Some(ApplyOverrides(stateCode, t.value)) else None,
     if y.Some? then Some(ApplyOverrides(stateCode, y.value)) else None)
  }

  // ---------------------------------------------------------------------
  // getLatestNonNullFuelPriceMapForState

  /** A row of the `city_name, date, <fuel>_price` query, newest first;
      `cityName` is `String(city_name ?? "")`. */
  datatype CityPriceRow = CityPriceRow(cityName: string, price: JsValue)

  /** The row's entry: its normalised city key and its price, none when
      the key is empty or the price is null. */
  function CityPriceEntry(r: CityPriceRow): Option<(string, real)> {
    var key := NormalizeKey(r.cityName);
    var price := ToNumberOrNull(r.price);
    if key == [] || price.None? then None else Some((key, price.value))
  }

  /** The loop of getLatestNonNullFuelPriceMapForState: each city key gets
      the price of its first row, which is its newest; keys are non-empty
      and in normal form. */
  method LatestNonNullPriceMap(rows: seq<CityPriceRow>) returns (prices: map<string, real>)
    ensures prices == Fold(map[], rows, InsertNew(CityPriceEntry))
    ensures forall k :: k in prices ==> k != [] && NormalizeKey(k) == k
    ensures forall k :: k in prices <==> exists i :: 0 <= i < |rows| && YieldsKey(CityPriceEntry, rows[i], k)
    ensures forall k :: k in prices ==>
              exists i :: 0 <= i < |rows| && CityPriceEntry(rows[i]) == Some((k, prices[k]))
                          && forall j :: 0 <= j < i ==> !YieldsKey(CityPriceEntry, rows[j], k)
  {
    prices := map[];
    for i := 0 to |rows|
      invariant prices == Fold(map[], rows[..i], InsertNew(CityPriceEntry))
    {
      FoldSnoc(map[], rows, i, InsertNew(CityPriceEntry));
      var key := NormalizeKey(rows[i].cityName);
      if key == [] || key in prices {
        assert CityPriceEntry(rows[i]).None? || CityPriceEntry(rows[i]).value.0 in prices;
        continue;
      }
      var price := ToNumberOrNull(rows[i].price);
      if price.None? {
        assert CityPriceEntry(rows[i]).None?;
        continue;
      }
      assert CityPriceEntry(rows[i]) == Some((key, price.value));
      prices := prices[key := price.value];
    }
    assert rows[..|rows|] == rows;
    LatestNonNullProps(rows);
  }

  lemma LatestNonNullProps(rows: seq<CityPriceRow>)
    ensures forall k :: k in Fold(map[], rows, InsertNew(CityPriceEntry)) ==> k != [] && NormalizeKey(k) == k
    ensures forall k :: k in Fold(map[], rows, InsertNew(CityPriceEntry)) <==>
              exists i :: 0 <= i < |rows| && YieldsKey(CityPriceEntry, rows[i], k)
    ensures forall k :: k in Fold(map[], rows, InsertNew(CityPriceEntry)) ==>
              exists i :: 0 <= i < |rows| && CityPriceEntry(rows[i]) == Some((k, Fold(map[], rows, InsertNew(CityPriceEntry))[k]))
                          && forall j :: 0 <= j < i ==> !YieldsKey(CityPriceEntry, rows[j], k)
  {
    forall r | CityPriceEntry(r).Some? ensures KeyInNormalForm(CityPriceEntry(r).value.0, CityPriceEntry(r).value.1) {
      NormalizeKeyIdempotent(r.cityName);
    }
    InsertNewKeeps(map[], rows, CityPriceEntry, KeyInNormalForm);
    forall k ensures (k in Fold(map[], rows, InsertNew(CityPriceEntry)) <==>
                      exists i :: 0 <= i < |rows| && YieldsKey(CityPriceEntry, rows[i], k))
                  && (k in Fold(map[], rows, InsertNew(CityPriceEntry)) ==>
                      exists i :: 0 <= i < |rows| && CityPriceEntry(rows[i]) == Some((k, Fold(map[], rows, InsertNew(CityPriceEntry))[k]))
                                  && forall j :: 0 <= j < i ==> !YieldsKey(CityPriceEntry, rows[j], k))
    {
      InsertNewFirstWins(rows, CityPriceEntry, k);
    }
  }

  predicate KeyInNormalForm(k: string, price: real) {
    k != [] && NormalizeKey(k) == k
  }
}
