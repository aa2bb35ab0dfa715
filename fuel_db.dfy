/** The database writes of lib/fuelStore.ts as a store in memory: the
    `states` table keyed by code, the `cities` roster keyed by (state,
    name), and `fuel_prices` keyed by (state, city, date), with a log of
    the calls in the order they were made. */
module FuelDb {
  import opened Common
  import opened Folds

  /** FuelPriceRecord */
  datatype FuelRecord = FuelRecord(
    stateCode: string,
    cityName: string,
    date: string,
    petrol: Option<real>,
    diesel: Option<real>,
    lpg: Option<real>,
    cng: Option<real>)

  /** StateRecord */
  datatype StateRow = StateRow(code: string, name: string)

  /** The conflict target `state_code,city_name,date`. */
  type PriceKey = (string, string, string)

  function KeyOf(r: FuelRecord): PriceKey { (r.stateCode, r.cityName, r.date) }

  /** A call that reached the database. */
  datatype Write =
    | StatesUpserted(states: seq<StateRow>)
    | CitiesDeleted(state: string)
    | CitiesUpserted(state: string, names: seq<string>)
    | DayDeleted(state: string, date: string)
    | PricesUpserted(rows: seq<FuelRecord>)

  function StateEntry(s: StateRow): Option<(string, string)> { Some((s.code, s.name)) }

  function PriceEntry(r: FuelRecord): Option<(PriceKey, FuelRecord)> { Some((KeyOf(r), r)) }

  /** The roster after `delete().eq("state_code", code)` and the upsert of
      `names`. */
  function ReplacedCities(rows: set<(string, string)>, code: string, names: seq<string>): (r: set<(string, string)>)
    ensures forall c :: c in r <==> (c in rows && c.0 != code) || (c.0 == code && c.1 in names)
  {
    (set c | c in rows && c.0 != code) + (set n | n in names :: (code, n))
  }

  /** `fuel_prices` after `delete().eq("state_code", code).eq("date", date)`. */
  function WithoutDay(prices: map<PriceKey, FuelRecord>, code: string, date: string): (r: map<PriceKey, FuelRecord>)
    ensures forall k :: k in r <==> k in prices && !(k.0 == code && k.2 == date)
    ensures forall k :: k in r ==> r[k] == prices[k]
  {
    map k | k in prices && !(k.0 == code && k.2 == date) :: prices[k]
  }

  /** An upsert of a batch: each row replaces the row with its key, later
      rows of the batch after earlier ones. */
  function UpsertedPrices(prices: map<PriceKey, FuelRecord>, rows: seq<FuelRecord>): map<PriceKey, FuelRecord>
  {
    Fold(prices, rows, Upsert(PriceEntry))
  }

  /** Upserting rows with distinct keys stores every row under its key and
      leaves every other key as it was. */
  lemma UpsertedPricesStores(prices: map<PriceKey, FuelRecord>, rows: seq<FuelRecord>)
    requires forall i, j :: 0 <= i < j < |rows| ==> KeyOf(rows[i]) != KeyOf(rows[j])
    ensures forall i :: 0 <= i < |rows| ==>
              KeyOf(rows[i]) in UpsertedPrices(prices, rows) && UpsertedPrices(prices, rows)[KeyOf(rows[i])] == rows[i]
    ensures forall k :: (forall i :: 0 <= i < |rows| ==> KeyOf(rows[i]) != k) ==>
              (k in UpsertedPrices(prices, rows) <==> k in prices)
              && (k in prices ==> UpsertedPrices(prices, rows)[k] == prices[k])
  {
    forall i | 0 <= i < |rows|
      ensures KeyOf(rows[i]) in UpsertedPrices(prices, rows) && UpsertedPrices(prices, rows)[KeyOf(rows[i])] == rows[i]
    {
      UpsertLastRow(prices, rows, PriceEntry, i);
    }
    forall k | forall i :: 0 <= i < |rows| ==> KeyOf(rows[i]) != k
      ensures (k in UpsertedPrices(prices, rows) <==> k in prices)
              && (k in prices ==> UpsertedPrices(prices, rows)[k] == prices[k])
    {
      UpsertUntouched(prices, rows, PriceEntry, k);
    }
  }

  class Store {
    var stateNames: map<string, string>
    var cityRows: set<(string, string)>
    var prices: map<PriceKey, FuelRecord>
    var log: seq<Write>

    constructor()
      ensures stateNames == map[] && cityRows == {} && prices == map[] && log == []
    {
      stateNames := map[];
      cityRows := {};
      prices := map[];
      log := [];
    }

    /** upsertStates: nothing for an empty list. */
    method UpsertStates(rows: seq<StateRow>)
      modifies this
      ensures rows == [] ==> stateNames == old(stateNames) && log == old(log)
      ensures rows != [] ==> stateNames == Fold(old(stateNames), rows, Upsert(StateEntry))
                             && log == old(log) + [StatesUpserted(rows)]
      ensures cityRows == old(cityRows) && prices == old(prices)
    {
      if rows == [] {
        return;
      }
      stateNames := FoldLoop(stateNames, rows, Upsert(StateEntry));
      log := log + [StatesUpserted(rows)];
    }

    /** replaceCitiesForState: delete the state's roster, then upsertCities,
        which does nothing for an empty list. */
    method ReplaceCitiesForState(code: string, names: seq<string>)
      modifies this
      ensures cityRows == ReplacedCities(old(cityRows), code, names)
      ensures log == old(log) + [CitiesDeleted(code)] + (if names == [] then [] else [CitiesUpserted(code, names)])
      ensures stateNames == old(stateNames) && prices == old(prices)
    {
      cityRows := set c | c in cityRows && c.0 != code;
      log := log + [CitiesDeleted(code)];
      if names == [] {
        return;
      }
      cityRows := cityRows + set n | n in names :: (code, n);
      log := log + [CitiesUpserted(code, names)];
    }

    /** deleteFuelPricesForStateDate */
    method DeleteFuelPricesForStateDate(code: string, date: string)
      modifies this
      ensures prices == WithoutDay(old(prices), code, date)
      ensures log == old(log) + [DayDeleted(code, date)]
      ensures stateNames == old(stateNames) && cityRows == old(cityRows)
    {
      prices := WithoutDay(prices, code, date);
      log := log + [DayDeleted(code, date)];
    }

    /** upsertFuelPrices: nothing for an empty batch. */
    method UpsertFuelPrices(rows: seq<FuelRecord>)
      modifies this
      ensures prices == UpsertedPrices(old(prices), rows)
      ensures log == old(log) + (if rows == [] then [] else [PricesUpserted(rows)])
      ensures stateNames == old(stateNames) && cityRows == old(cityRows)
    {
      if rows == [] {
        return;
      }
      prices := FoldLoop(prices, rows, Upsert(PriceEntry));
      log := log + [PricesUpserted(rows)];
    }
  }
}
