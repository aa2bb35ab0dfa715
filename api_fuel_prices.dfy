/** The read endpoint app/api/fuel-prices/route.ts: the `days` and `fuel`
    parameter defaults, the 400 and 404 answers, and the chart of the
    chosen fuel among the charts of all four. */
module FuelPricesRoute {
  import opened Common
  import opened Sorting
  import opened Dedup
  import opened Numbers
  import opened BatchValidation
  import opened FuelStore

  /** `daysParam ? parseInt(daysParam, 10) || 7 : 7`: absent, empty, not a
      number or zero give 7. */
  function Days(daysParam: Option<string>): (d: int)
    ensures d != 0
    ensures daysParam.None? || daysParam.value == "" ==> d == 7
    ensures daysParam.Some? && ParseInt(daysParam.value).Some? && ParseInt(daysParam.value).value != 0 ==>
              d == ParseInt(daysParam.value).value
    ensures daysParam.Some? && (ParseInt(daysParam.value).None? || ParseInt(daysParam.value).value == 0) ==> d == 7
  {
    if daysParam.None? || daysParam.value == "" then 7
    else
      var n := ParseInt(daysParam.value);
      if n.None? || n.value == 0 then 7 else n.value
  }

  /** A count of days written in decimal is read back, and 0 gives 7. */
  lemma DaysOfNat(k: nat)
    ensures Days(Some(NatToString(k))) == if k == 0 then 7 else k
  {
    ParseIntOfNat(k);
  }

  /** The `FuelKey` spelling of a fuel. */
  function FuelName(f: FuelType): string {
    match f
    case Petrol => "petrol"
    case Diesel => "diesel"
    case Lpg => "lpg"
    case Cng => "cng"
  }

  /** `(fuelParam ?? "petrol").toLowerCase()`, kept when it names a fuel,
      petrol otherwise. */
  function FuelOf(fuelParam: Option<string>): (f: FuelType)
    ensures fuelParam.None? ==> f == Petrol
    ensures f != Petrol ==> fuelParam.Some? && Lower(fuelParam.value) == FuelName(f)
  {
    var candidate := Lower(if fuelParam.Some? then fuelParam.value else "petrol");
    if candidate == "petrol" then Petrol
    else if candidate == "diesel" then Diesel
    else if candidate == "lpg" then Lpg
    else if candidate == "cng" then Cng
    else Petrol
  }

  /** Every fuel is chosen by its name, in any letter case. */
  lemma FuelOfName(f: FuelType, param: string)
    requires Lower(param) == FuelName(f)
    ensures FuelOf(Some(param)) == f
  {
  }

  /** One fuel's chart: labels and values. */
  datatype Chart = Chart(labels: seq<string>, values: seq<real>)

  /** What the two lookups return: today's and yesterday's rows, and the
      history of the requested number of days. */
  datatype Fetched = Fetched(today: Option<PriceRow>, yesterday: Option<PriceRow>, history: seq<PriceRow>)

  datatype PricesResponse =
    | MissingParams
    | NoData
    | Unavailable
    | Prices(today: Option<PriceRow>, yesterday: Option<PriceRow>, history: seq<PriceRow>,
             chartData: Chart, chartDataByFuel: map<FuelType, Chart>)

  /** A chart as buildChartData promises it: as many values as labels, each
      date once, the dates with a price of that fuel, each value the price
      of the last row for its date, and the dates ascending when every row's
      date reads as YYYY-MM-DD. */
  ghost predicate ChartOf(c: Chart, history: seq<PriceRow>, f: FuelType) {
    && |c.labels| == |c.values|
    && NoDuplicates(c.labels)
    && (forall d :: d in c.labels <==> d in ChartDates(history, f))
    && (forall j :: 0 <= j < |c.labels| ==> IsLastPoint(DatedRows(history), f, c.labels[j], c.values[j]))
    && (AllYmd(history) ==> forall i, j :: 0 <= i < j < |c.labels| ==> StrLt(c.labels[i], c.labels[j]))
  }

  /** GET, given the query parameters and what the lookups do for a number
      of days (`None` when they throw). */
  method GetFuelPrices(stateCode: Option<string>, city: Option<string>, daysParam: Option<string>,
                       fuelParam: Option<string>, fetch: int -> Option<Fetched>) returns (resp: PricesResponse)
    ensures resp.MissingParams? <==> stateCode.None? || stateCode.value == "" || city.None? || city.value == ""
    ensures !resp.MissingParams? ==>
              && (resp.Unavailable? <==> fetch(Days(daysParam)).None?)
              && (resp.NoData? <==> fetch(Days(daysParam)).Some? &&
                                    fetch(Days(daysParam)).value.today.None? &&
                                    fetch(Days(daysParam)).value.history == [])
    ensures resp.Prices? ==>
              && Fetched(resp.today, resp.yesterday, resp.history) == fetch(Days(daysParam)).value
              && resp.chartDataByFuel.Keys == {Petrol, Diesel, Lpg, Cng}
              && resp.chartData == resp.chartDataByFuel[FuelOf(fuelParam)]
              && forall f :: f in resp.chartDataByFuel ==> ChartOf(resp.chartDataByFuel[f], resp.history, f)
  {
    var days := Days(daysParam);
    var fuel := FuelOf(fuelParam);
    if stateCode.None? || stateCode.value == "" || city.None? || city.value == "" {
      return MissingParams;
    }
    var fetched := fetch(days);
    if fetched.None? {
      return Unavailable;
    }
    var history := fetched.value.history;
    var byFuel := ChartsByFuel(history);
    if fetched.value.today.None? && history == [] {
      return NoData;
    }
    resp := Prices(fetched.value.today, fetched.value.yesterday, history, byFuel[fuel], byFuel);
  }

  /** `chartDataByFuel`: the chart of each of the four fuels. */
  method ChartsByFuel(history: seq<PriceRow>) returns (byFuel: map<FuelType, Chart>)
    ensures byFuel.Keys == {Petrol, Diesel, Lpg, Cng}
    ensures forall f :: f in byFuel ==> ChartOf(byFuel[f], history, f)
  {
    var petrolLabels, petrolValues := BuildChartData(history, Petrol);
    var dieselLabels, dieselValues := BuildChartData(history, Diesel);
    var lpgLabels, lpgValues := BuildChartData(history, Lpg);
    var cngLabels, cngValues := BuildChartData(history, Cng);
    byFuel := map[Petrol := Chart(petrolLabels, petrolValues), Diesel := Chart(dieselLabels, dieselValues),
                  Lpg := Chart(lpgLabels, lpgValues), Cng := Chart(cngLabels, cngValues)];
  }
}
