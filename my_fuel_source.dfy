/** The seed-list path of lib/myFuelSource.ts: prices read from the rows of
    a city's four fuel pages, the Kerala state tables consulted for LPG and
    CNG, and one snapshot per configured city. A page is what its fetch
    returned (none when the fetch or the parse failed), given as the rows
    of its price tables and the text the body pattern captured. */
module MyFuelSource {
  import opened Common
  import opened Numbers
  import opened Series
  import opened FuelDb
  import BatchKeys
  import BatchSnapshot

  /** A fetched page: the trimmed cell texts of each row of its price
      tables (`table.tbldata01 tbody tr, table.fuel_table tr, table.table
      tr`), and the digits the body-text pattern captured after the word,
      if it matched. */
  datatype TablePage = TablePage(rows: seq<seq<string>>, bodyMatch: Option<string>)

  const GoodreturnsBase: string := "https://www.goodreturns.in"

  /** petrolUrl, dieselUrl, lpgUrl and cngUrl: `<base>/<fuel>-price/<slug>.html`. */
  function FuelUrl(fuel: string, slug: string): string {
    GoodreturnsBase + "/" + fuel + "-price/" + slug + ".html"
  }

  /** The Kerala state table of a fuel. */
  function KeralaUrl(fuel: string): string {
    GoodreturnsBase + "/" + fuel + "-price-in-kerala-s18.html"
  }

  // ---------------------------------------------------------------------
  // normalizeName

  /** `replace(/[^a-z0-9\p{L}]+/gu, "")` on lower-cased text: only the
      letters and digits remain. */
  function KeepAlnum(s: string): (r: string)
    ensures |r| <= |s| && AllAlnum(r)
    ensures NoUpper(s) ==> NoUpper(r)
    ensures AllAlnum(s) ==> r == s
    decreases |s|
  {
    if s == [] then []
    else (if IsAlnum(s[0]) then [s[0]] else []) + KeepAlnum(s[1..])
  }

  /** normalizeName: lower-cased, every character but letters and digits
      removed (the trailing `trim` has nothing left to remove). */
  function NormalizeName(name: string): string {
    KeepAlnum(Lower(name))
  }

  /** The name holds only lower-case letters and digits: no space and no
      punctuation. */
  lemma NormalizeNameShape(name: string)
    ensures AllAlnum(NormalizeName(name)) && NoUpper(NormalizeName(name))
    ensures Trim(NormalizeName(name)) == NormalizeName(name)
  {
    var r := NormalizeName(name);
    assert NoUpper(Lower(name));
    if r != [] {
      assert IsAlnum(r[0]) && IsAlnum(r[|r| - 1]);
    }
    TrimOfTrimmed(r);
  }

  /** Normalising a normalised name changes nothing. */
  lemma NormalizeNameIdempotent(name: string)
    ensures NormalizeName(NormalizeName(name)) == NormalizeName(name)
  {
    var r := NormalizeName(name);
    NormalizeNameShape(name);
    LowerOfNoUpper(r);
  }

  lemma {:induction false} KeepAlnumConcat(a: string, b: string)
    ensures KeepAlnum(a + b) == KeepAlnum(a) + KeepAlnum(b)
    decreases |a|
  {
    if a != [] {
      assert (a + b)[1..] == a[1..] + b;
      KeepAlnumConcat(a[1..], b);
    } else {
      assert a + b == b;
    }
  }

  lemma LowerConcat(a: string, b: string)
    ensures Lower(a + b) == Lower(a) + Lower(b)
  {
  }

  /** The name of a concatenation is the concatenation of the names. */
  lemma NormalizeNameConcat(a: string, b: string)
    ensures NormalizeName(a + b) == NormalizeName(a) + NormalizeName(b)
  {
    LowerConcat(a, b);
    KeepAlnumConcat(Lower(a), Lower(b));
  }

  /** Separators do not count: a space, a hyphen or a bracket between two
      parts gives the name of the parts written together. */
  lemma NormalizeNameIgnoresSeparator(a: string, c: char, b: string)
    requires !IsAlnum(c)
    ensures NormalizeName(a + [c] + b) == NormalizeName(a + b)
  {
    NormalizeNameConcat(a + [c], b);
    NormalizeNameConcat(a, [c]);
    NormalizeNameConcat(a, b);
    SeparatorVanishes(c);
    assert NormalizeName(a) + NormalizeName([c]) == NormalizeName(a);
  }

  lemma SeparatorVanishes(c: char)
    requires !IsAlnum(c)
    ensures NormalizeName([c]) == []
  {
    assert Lower([c]) == [LowerChar(c)];
    assert KeepAlnum([LowerChar(c)]) == [];
  }

  // ---------------------------------------------------------------------
  // parseFuelFromHtml

  /** `cells[1] ?? cells.find(Boolean) ?? ""` */
  function ChosenCell(cells: seq<string>): string {
    if |cells| >= 2 then cells[1]
    else
      match FirstSome(cells, (c: string) => if c != [] then Some(c) else None)
      case Some(c) => c
      case None => ""
  }

  /** A second cell is always present when there are two cells, even when
      empty, so the fall-back to the first non-empty cell only ever picks
      the single cell of a one-cell row. */
  lemma ChosenCellIsSecondOrOnly(cells: seq<string>)
    requires cells != []
    ensures ChosenCell(cells) == (if |cells| >= 2 then cells[1] else cells[0])
  {
  }

  /** A row's price for a word: a row with cells whose joined, lower-cased
      text mentions the word gives the parsed chosen cell. */
  function LabelledRowPrice(cells: seq<string>, word: string): (r: Option<real>)
    ensures cells == [] ==> r.None?
    ensures r.Some? ==> r.value >= 0.0
  {
    if cells == [] then None
    else if Contains(Lower(Join(cells, ' ')), word) then ParseLoosePrice(ChosenCell(cells))
    else None
  }

  function RowPriceOf(word: string): seq<string> -> Option<real> {
    (cells: seq<string>) => LabelledRowPrice(cells, word)
  }

  /** parseFuelFromHtml with the page read: the first row that gives a
      price, else the body-text capture parsed. */
  function FuelFromPage(page: TablePage, word: string): Option<real> {
    match FirstSome(page.rows, RowPriceOf(word))
    case Some(p) => Some(p)
    case None => if page.bodyMatch.Some? then ParseLoosePrice(page.bodyMatch.value) else None
  }

  /** The row loop of parseFuelFromHtml, returning at the first row that
      gives a price, then the body-text capture. */
  method ParseFuelFromHtml(page: TablePage, word: string) returns (price: Option<real>)
    ensures price == FuelFromPage(page, word)
  {
    var rows := page.rows;
    var i := 0;
    while i < |rows|
      invariant 0 <= i <= |rows|
      invariant FirstSome(rows[i..], RowPriceOf(word)) == FirstSome(rows, RowPriceOf(word))
    {
      var cells := rows[i];
      if cells != [] {
        var joined := Lower(Join(cells, ' '));
        if Contains(joined, word) {
          var p := ParseLoosePrice(ChosenCell(cells));
          if p.Some? {
            assert RowPriceOf(word)(rows[i..][0]) == p;
            return p;
          }
        }
      }
      FirstSomeSkip(rows, i, RowPriceOf(word));
      i := i + 1;
    }
    if page.bodyMatch.Some? {
      price := ParseLoosePrice(page.bodyMatch.value);
    } else {
      price := None;
    }
  }

  /** The rows win over the body text: a price from the rows comes from
      the first row that gives one, every earlier row giving none; the body
      capture is read only when no row gives a price. */
  lemma FuelFromPageFirstRow(page: TablePage, word: string)
    ensures FirstSome(page.rows, RowPriceOf(word)).Some? ==>
              exists i :: 0 <= i < |page.rows|
                          && LabelledRowPrice(page.rows[i], word) == FuelFromPage(page, word)
                          && forall j :: 0 <= j < i ==> LabelledRowPrice(page.rows[j], word).None?
    ensures FirstSome(page.rows, RowPriceOf(word)).None? ==>
              FuelFromPage(page, word) == (if page.bodyMatch.Some? then ParseLoosePrice(page.bodyMatch.value) else None)
  {
    if FirstSome(page.rows, RowPriceOf(word)).Some? {
      FirstSomeAt(page.rows, RowPriceOf(word));
    }
  }

  lemma {:induction false} ContainsExtend(s: string, t: string, p: string)
    requires Contains(s, p)
    ensures Contains(s + t, p)
  {
    var i :| 0 <= i <= |s| - |p| && OccursAt(s, p, i);
    assert (s + t)[i..i + |p|] == s[i..i + |p|];
    assert OccursAt(s + t, p, i);
  }

  /** A row whose first cell names the word and whose second cell shows
      an amount as `d.cc` gives that amount. */
  lemma LabelledRowOfRendered(first: string, whole: nat, cents: nat, rest: seq<string>, word: string)
    requires cents < 100
    requires Contains(Lower(first), word)
    ensures LabelledRowPrice([first, RenderAmount(whole, cents)] + rest, word) == Some(AmountValue(whole, cents))
  {
    var cells := [first, RenderAmount(whole, cents)] + rest;
    assert cells[1..] == [RenderAmount(whole, cents)] + rest;
    var tail := [' '] + Join(cells[1..], ' ');
    assert Join(cells, ' ') == first + tail;
    LowerConcat(first, tail);
    ContainsExtend(Lower(first), Lower(tail), word);
    ParseLoosePriceOfRenderedAmount(whole, cents);
  }

  // ---------------------------------------------------------------------
  // fetchKeralaTableFuel

  /** A Kerala table row names the city when its normalised name equals
      the target, or either contains the other. */
  predicate NamesCity(rowNorm: string, target: string) {
    rowNorm == target || Contains(rowNorm, target) || Contains(target, rowNorm)
  }

  /** A Kerala row's price for a target: rows of fewer than two cells and
      rows whose first cell normalises to nothing are skipped. */
  function KeralaRowPrice(cells: seq<string>, target: string): (r: Option<real>)
    ensures (|cells| < 2 || NormalizeName(cells[0]) == []) ==> r.None?
    ensures r.Some? ==> NamesCity(NormalizeName(cells[0]), target) && r == ParseLoosePrice(cells[1])
  {
    if |cells| < 2 then None
    else
      var rowNorm := NormalizeName(cells[0]);
      if rowNorm == [] then None
      else if NamesCity(rowNorm, target) then ParseLoosePrice(cells[1])
      else None
  }

  function KeralaRowPriceOf(target: string): seq<string> -> Option<real> {
    (cells: seq<string>) => KeralaRowPrice(cells, target)
  }

  /** fetchKeralaTableFuel with the table page given: none when the fetch
      failed, else the first matching row's parsed price. */
  function KeralaFuel(page: Option<TablePage>, cityName: string): Option<real> {
    if page.None? then None else FirstSome(page.value.rows, KeralaRowPriceOf(NormalizeName(cityName)))
  }

  /** The test of one row inside the loop of fetchKeralaTableFuel. */
  method KeralaRow(cells: seq<string>, target: string) returns (p: Option<real>)
    ensures p == KeralaRowPriceOf(target)(cells)
  {
    p := None;
    if |cells| >= 2 {
      var rowNorm := NormalizeName(cells[0]);
      if rowNorm != [] && (rowNorm == target || Contains(rowNorm, target) || Contains(target, rowNorm)) {
        p := ParseLoosePrice(cells[1]);
      }
    }
  }

  /** The row loop of fetchKeralaTableFuel. */
  method KeralaTableFuel(page: Option<TablePage>, cityName: string) returns (price: Option<real>)
    ensures price == KeralaFuel(page, cityName)
  {
    if page.None? {
      return None;
    }
    var rows := page.value.rows;
    var target := NormalizeName(cityName);
    var i := 0;
    while i < |rows|
      invariant 0 <= i <= |rows|
      invariant FirstSome(rows[i..], KeralaRowPriceOf(target)) == FirstSome(rows, KeralaRowPriceOf(target))
    {
      var p := KeralaRow(rows[i], target);
      if p.Some? {
        assert rows[i..][0] == rows[i];
        return p;
      }
      FirstSomeSkip(rows, i, KeralaRowPriceOf(target));
      i := i + 1;
    }
    price := None;
  }

  /** A Kerala price comes from the first row that names the city with a
      parsable price; every earlier row either has fewer than two cells, no
      name, names another place, or shows no price. */
  lemma KeralaFuelFirstMatch(page: Option<TablePage>, cityName: string)
    requires KeralaFuel(page, cityName).Some?
    ensures var rows := page.value.rows;
            var target := NormalizeName(cityName);
            exists i :: 0 <= i < |rows| && |rows[i]| >= 2
                        && NormalizeName(rows[i][0]) != [] && NamesCity(NormalizeName(rows[i][0]), target)
                        && ParseLoosePrice(rows[i][1]) == KeralaFuel(page, cityName)
                        && forall j :: 0 <= j < i ==> KeralaRowPrice(rows[j], target).None?
  {
    FirstSomeAt(page.value.rows, KeralaRowPriceOf(NormalizeName(cityName)));
  }

  /** A row named as the city, in any case and spacing, with an amount in
      its second cell gives that amount. */
  lemma KeralaRowOfRendered(name: string, whole: nat, cents: nat, rest: seq<string>, cityName: string)
    requires cents < 100
    requires NormalizeName(name) == NormalizeName(cityName) != []
    ensures KeralaRowPrice([name, RenderAmount(whole, cents)] + rest, NormalizeName(cityName)) == Some(AmountValue(whole, cents))
  {
    ParseLoosePriceOfRenderedAmount(whole, cents);
  }

  // ---------------------------------------------------------------------
  // fetchFuelSnapshotForCity

  /** The snapshot of one city from its four page prices and, for Kerala,
      the table prices: none when all four prices are missing. */
  function CitySnapshot(stateCode: string, cityName: string, date: string,
                        petrol: Option<real>, diesel: Option<real>, lpg: Option<real>, cng: Option<real>): (r: Option<FuelRecord>)
    ensures r.None? <==> petrol.None? && diesel.None? && lpg.None? && cng.None?
    ensures r.Some? ==> r.value == FuelRecord(stateCode, cityName, date, petrol, diesel, lpg, cng)
  {
    if petrol.None? && diesel.None? && lpg.None? && cng.None? then None
    else Some(FuelRecord(stateCode, cityName, date, petrol, diesel, lpg, cng))
  }

  /** A Kerala page price when the city page gave none: only in Kerala. */
  function WithKerala(stateCode: string, pagePrice: Option<real>, table: Option<TablePage>, cityName: string): (r: Option<real>)
    ensures stateCode != "KL" || pagePrice.Some? ==> r == pagePrice
    ensures stateCode == "KL" && pagePrice.None? ==> r == KeralaFuel(table, cityName)
  {
    if stateCode == "KL" && pagePrice.None? then KeralaFuel(table, cityName) else pagePrice
  }

  /** fetchFuelSnapshotForCity with the pages given by URL. */
  function SnapshotForCity(stateCode: string, cityName: string, slug: string, date: string,
                           pageOf: string -> Option<TablePage>): Option<FuelRecord>
  {
    var petrol := PagePrice(pageOf(FuelUrl("petrol", slug)), "petrol");
    var diesel := PagePrice(pageOf(FuelUrl("diesel", slug)), "diesel");
    var lpg := PagePrice(pageOf(FuelUrl("lpg", slug)), "lpg");
    var cng := PagePrice(pageOf(FuelUrl("cng", slug)), "cng");
    CitySnapshot(stateCode, cityName, date, petrol, diesel,
                 WithKerala(stateCode, lpg, pageOf(KeralaUrl("lpg")), cityName),
                 WithKerala(stateCode, cng, pageOf(KeralaUrl("cng")), cityName))
  }

  /** fetchFuelFromPage: none when the fetch failed. */
  function PagePrice(page: Option<TablePage>, word: string): Option<real> {
    if page.None? then None else FuelFromPage(page.value, word)
  }

  method FetchFuelFromPage(page: Option<TablePage>, word: string) returns (price: Option<real>)
    ensures price == PagePrice(page, word)
  {
    if page.None? {
      price := None;
    } else {
      price := ParseFuelFromHtml(page.value, word);
    }
  }

  /** fetchFuelSnapshotForCity: the four page prices, then for Kerala the
      state tables for a missing LPG or CNG price, and no snapshot when all
      four are missing. The date is the override, else today. */
  method FetchFuelSnapshotForCity(stateCode: string, cityName: string, slug: string, dateOverride: Option<string>,
                                  today: string, pageOf: string -> Option<TablePage>)
    returns (snap: Option<FuelRecord>)
    ensures snap == SnapshotForCity(stateCode, cityName, slug, if dateOverride.Some? then dateOverride.value else today, pageOf)
  {
    var date := if dateOverride.Some? then dateOverride.value else today;
    var petrol := FetchFuelFromPage(pageOf(FuelUrl("petrol", slug)), "petrol");
    var diesel := FetchFuelFromPage(pageOf(FuelUrl("diesel", slug)), "diesel");
    var lpg := FetchFuelFromPage(pageOf(FuelUrl("lpg", slug)), "lpg");
    var cng := FetchFuelFromPage(pageOf(FuelUrl("cng", slug)), "cng");
    var finalPetrol, finalDiesel, finalLpg, finalCng := petrol, diesel, lpg, cng;
    if stateCode == "KL" {
      if finalLpg.None? {
        finalLpg := KeralaTableFuel(pageOf(KeralaUrl("lpg")), cityName);
      }
      if finalCng.None? {
        finalCng := KeralaTableFuel(pageOf(KeralaUrl("cng")), cityName);
      }
    }
    if finalPetrol.None? && finalDiesel.None? && finalLpg.None? && finalCng.None? {
      return None;
    }
    snap := Some(FuelRecord(stateCode, cityName, date, finalPetrol, finalDiesel, finalLpg, finalCng));
  }

  /** A snapshot exists exactly when some price was found; it carries the
      page prices, with the Kerala table consulted only in Kerala and only
      for a fuel whose page gave no price. */
  lemma SnapshotForCityProps(stateCode: string, cityName: string, slug: string, date: string,
                             pageOf: string -> Option<TablePage>)
    ensures var r := SnapshotForCity(stateCode, cityName, slug, date, pageOf);
            var lpg := PagePrice(pageOf(FuelUrl("lpg", slug)), "lpg");
            var cng := PagePrice(pageOf(FuelUrl("cng", slug)), "cng");
            && (r.Some? ==>
                  && r.value.stateCode == stateCode && r.value.cityName == cityName && r.value.date == date
                  && r.value.petrol == PagePrice(pageOf(FuelUrl("petrol", slug)), "petrol")
                  && r.value.diesel == PagePrice(pageOf(FuelUrl("diesel", slug)), "diesel")
                  && (stateCode != "KL" ==> r.value.lpg == lpg && r.value.cng == cng)
                  && (lpg.Some? ==> r.value.lpg == lpg)
                  && (cng.Some? ==> r.value.cng == cng))
            && (stateCode != "KL" ==>
                  (r.None? <==> PagePrice(pageOf(FuelUrl("petrol", slug)), "petrol").None?
                                && PagePrice(pageOf(FuelUrl("diesel", slug)), "diesel").None?
                                && lpg.None? && cng.None?))
  {
  }

  // ---------------------------------------------------------------------
  // fetchFuelSnapshotsForAllConfiguredCities

  function TaskSnapshot(date: string, pageOf: string -> Option<TablePage>): BatchSnapshot.Task -> Option<FuelRecord> {
    (t: BatchSnapshot.Task) => SnapshotForCity(t.stateKey, t.city, t.slug, date, pageOf)
  }

  /** The inner loop: one state's configured cities in order. */
  method FetchStateSnapshots(stateCode: string, entries: seq<BatchKeys.SlugEntry>, date: string,
                             pageOf: string -> Option<TablePage>)
    returns (snapshots: seq<FuelRecord>)
    ensures snapshots == Collect(BatchSnapshot.StateTasks(stateCode, entries), TaskSnapshot(date, pageOf))
  {
    snapshots := [];
    for j := 0 to |entries|
      invariant snapshots == Collect(BatchSnapshot.StateTasks(stateCode, entries[..j]), TaskSnapshot(date, pageOf))
    {
      var t := BatchSnapshot.Task(stateCode, entries[j].city, entries[j].slug);
      var ts := BatchSnapshot.StateTasks(stateCode, entries[..j + 1]);
      assert ts[..j] == BatchSnapshot.StateTasks(stateCode, entries[..j]) && ts[j] == t;
      CollectSnoc(ts, j, TaskSnapshot(date, pageOf));
      assert ts[..j + 1] == ts;
      var snap := FetchFuelSnapshotForCity(stateCode, entries[j].city, entries[j].slug, Some(date), date, pageOf);
      assert snap == TaskSnapshot(date, pageOf)(t);
      if snap.Some? {
        snapshots := snapshots + [snap.value];
      }
    }
    assert entries[..|entries|] == entries;
  }

  /** The configured cities in `CITY_SLUGS` order, state by state, each
      fetched for the given date; cities without any price are left out. */
  method FetchFuelSnapshotsForAllConfiguredCities(citySlugs: seq<(string, seq<BatchKeys.SlugEntry>)>, date: string,
                                                  pageOf: string -> Option<TablePage>)
    returns (snapshots: seq<FuelRecord>)
    ensures snapshots == Collect(BatchSnapshot.Tasks(citySlugs), TaskSnapshot(date, pageOf))
  {
    snapshots := [];
    for i := 0 to |citySlugs|
      invariant snapshots == Collect(BatchSnapshot.Tasks(citySlugs[..i]), TaskSnapshot(date, pageOf))
    {
      assert citySlugs[..i + 1][..i] == citySlugs[..i];
      var state := FetchStateSnapshots(citySlugs[i].0, citySlugs[i].1, date, pageOf);
      CollectConcat(BatchSnapshot.Tasks(citySlugs[..i]), BatchSnapshot.StateTasks(citySlugs[i].0, citySlugs[i].1),
                    TaskSnapshot(date, pageOf));
      snapshots := snapshots + state;
    }
    assert citySlugs[..|citySlugs|] == citySlugs;
  }

  /** Every snapshot is the snapshot of a configured city of the run's
      date, with some price found; and every configured city with a price
      found has its snapshot listed. */
  lemma ConfiguredSnapshotsProps(citySlugs: seq<(string, seq<BatchKeys.SlugEntry>)>, date: string,
                                 pageOf: string -> Option<TablePage>, s: FuelRecord)
    ensures s in Collect(BatchSnapshot.Tasks(citySlugs), TaskSnapshot(date, pageOf)) <==>
              exists i, j :: 0 <= i < |citySlugs| && 0 <= j < |citySlugs[i].1|
                             && SnapshotForCity(citySlugs[i].0, citySlugs[i].1[j].city, citySlugs[i].1[j].slug, date, pageOf) == Some(s)
    ensures s in Collect(BatchSnapshot.Tasks(citySlugs), TaskSnapshot(date, pageOf)) ==>
              s.date == date && (s.petrol.Some? || s.diesel.Some? || s.lpg.Some? || s.cng.Some?)
  {
    var tasks := BatchSnapshot.Tasks(citySlugs);
    var f := TaskSnapshot(date, pageOf);
    CollectHas(tasks, f, s);
    if s in Collect(tasks, f) {
      var k :| 0 <= k < |tasks| && f(tasks[k]) == Some(s);
      BatchSnapshot.TasksProps(citySlugs, tasks[k]);
    }
    if exists i, j :: 0 <= i < |citySlugs| && 0 <= j < |citySlugs[i].1|
                      && SnapshotForCity(citySlugs[i].0, citySlugs[i].1[j].city, citySlugs[i].1[j].slug, date, pageOf) == Some(s) {
      var i, j :| 0 <= i < |citySlugs| && 0 <= j < |citySlugs[i].1|
                  && SnapshotForCity(citySlugs[i].0, citySlugs[i].1[j].city, citySlugs[i].1[j].slug, date, pageOf) == Some(s);
      var t := BatchSnapshot.Task(citySlugs[i].0, citySlugs[i].1[j].city, citySlugs[i].1[j].slug);
      BatchSnapshot.TasksProps(citySlugs, t);
      var k :| 0 <= k < |tasks| && tasks[k] == t;
      assert f(tasks[k]) == Some(s);
    }
  }
}
