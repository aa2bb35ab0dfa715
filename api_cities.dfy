/** The read endpoint app/api/cities/route.ts: the cities of one state from
    the first of three database lookups that returns any, else from the
    configuration, with Andhra Pradesh's "Cuddapah" shown as "Kadapa" and
    each name once. */
module CitiesRoute {
  import opened Common
  import opened Dedup
  import FuelStore

  /** `normalizeCityForDisplay`, for the upper-cased `code`. */
  function DisplayCity(code: string, name: string): (r: string)
    ensures r == name || (r == "Kadapa" && code == "AP" && Lower(Trim(name)) == "cuddapah")
  {
    if code == "AP" && Lower(Trim(name)) == "cuddapah" then "Kadapa" else name
  }

  /** `names.map(normalizeCityForDisplay)` */
  function DisplayAll(code: string, names: seq<string>): (r: seq<string>)
    ensures |r| == |names| && forall i :: 0 <= i < |names| ==> r[i] == DisplayCity(code, names[i])
  {
    seq(|names|, i requires 0 <= i < |names| => DisplayCity(code, names[i]))
  }

  /** A lookup that answered with at least one city. */
  predicate Hit(lookup: Outcome<Option<seq<string>>>) {
    lookup.Done? && lookup.value.Some? && |lookup.value.value| > 0
  }

  /** `STATE_CITIES[code] ?? []` */
  function ConfigCities(config: map<string, seq<string>>, code: string): seq<string> {
    if code in config then config[code] else []
  }

  /** The cities the response is built from: the first lookup, in order,
      that answers with any; the configuration when none does or one
      throws first. */
  function ChosenCities(lookups: seq<Outcome<Option<seq<string>>>>, config: map<string, seq<string>>, code: string)
    : (r: seq<string>)
    ensures r == ConfigCities(config, code) ||
            exists k :: 0 <= k < |lookups| && Hit(lookups[k]) && r == lookups[k].value.value
  {
    if lookups == [] then ConfigCities(config, code)
    else if lookups[0].Threw? then ConfigCities(config, code)
    else if Hit(lookups[0]) then lookups[0].value.value
    else
      var r := ChosenCities(lookups[1..], config, code);
      assert r != ConfigCities(config, code) ==> exists k :: 1 <= k < |lookups| && Hit(lookups[k]) && r == lookups[k].value.value by {
        if r != ConfigCities(config, code) {
          var k :| 0 <= k < |lookups[1..]| && Hit(lookups[1..][k]) && r == lookups[1..][k].value.value;
          assert lookups[k + 1] == lookups[1..][k];
        }
      }
      r
  }

  /** The lookup used is the first hit, and only when no lookup before it
      threw; with no hit, or a throw before the first, the configuration
      is used. */
  lemma {:induction false} ChosenFirstHit(lookups: seq<Outcome<Option<seq<string>>>>, config: map<string, seq<string>>,
                                          code: string, k: int)
    requires 0 <= k < |lookups| && Hit(lookups[k])
    requires forall j :: 0 <= j < k ==> lookups[j].Done? && !Hit(lookups[j])
    ensures ChosenCities(lookups, config, code) == lookups[k].value.value
  {
    if k > 0 {
      ChosenFirstHit(lookups[1..], config, code, k - 1);
    }
  }

  lemma {:induction false} ChosenConfig(lookups: seq<Outcome<Option<seq<string>>>>, config: map<string, seq<string>>,
                                        code: string, k: int)
    requires 0 <= k <= |lookups|
    requires forall j :: 0 <= j < k ==> lookups[j].Done? && !Hit(lookups[j])
    requires k == |lookups| || lookups[k].Threw?
    ensures ChosenCities(lookups, config, code) == ConfigCities(config, code)
  {
    if k > 0 {
      ChosenConfig(lookups[1..], config, code, k - 1);
    }
  }

  datatype CitiesResponse = MissingStateCode | Cities(cities: seq<string>)

  /** GET, given the `stateCode` parameter and what the three lookups for
      the upper-cased code did (latest snapshot, roster, cities with data). */
  function GetCities(stateCode: Option<string>, lookups: seq<Outcome<Option<seq<string>>>>,
                     config: map<string, seq<string>>): (r: CitiesResponse)
    ensures r.MissingStateCode? <==> stateCode.None? || stateCode.value == ""
    ensures r.Cities? ==> r.cities == Distinct(DisplayAll(Upper(stateCode.value), ChosenCities(lookups, config, Upper(stateCode.value))))
  {
    if stateCode.None? || stateCode.value == "" then MissingStateCode
    else
      var code := Upper(stateCode.value);
      Cities(Distinct(DisplayAll(code, ChosenCities(lookups, config, code))))
  }

  /** Each city is listed once, and a name is listed exactly when it shows
      one of the chosen cities. */
  lemma CitiesListed(stateCode: Option<string>, lookups: seq<Outcome<Option<seq<string>>>>,
                     config: map<string, seq<string>>, name: string)
    requires GetCities(stateCode, lookups, config).Cities?
    ensures var r := GetCities(stateCode, lookups, config).cities;
            && (forall i, j :: 0 <= i < j < |r| ==> r[i] != r[j])
            && (name in r <==> exists c :: c in ChosenCities(lookups, config, Upper(stateCode.value)) &&
                                            DisplayCity(Upper(stateCode.value), c) == name)
  {
    var code := Upper(stateCode.value);
    var chosen := ChosenCities(lookups, config, code);
    DistinctProps(DisplayAll(code, chosen));
    if name in DisplayAll(code, chosen) {
      var i :| 0 <= i < |chosen| && DisplayAll(code, chosen)[i] == name;
      assert chosen[i] in chosen;
    }
    if exists c :: c in chosen && DisplayCity(code, c) == name {
      var c :| c in chosen && DisplayCity(code, c) == name;
      var i :| 0 <= i < |chosen| && chosen[i] == c;
      assert DisplayAll(code, chosen)[i] == name;
    }
  }

  /** Andhra Pradesh never lists a "Cuddapah" spelling; other states' names
      pass unchanged. */
  lemma NoCuddapahShown(stateCode: Option<string>, lookups: seq<Outcome<Option<seq<string>>>>,
                        config: map<string, seq<string>>, name: string)
    requires GetCities(stateCode, lookups, config).Cities?
    requires name in GetCities(stateCode, lookups, config).cities
    ensures Upper(stateCode.value) == "AP" ==> Lower(Trim(name)) != "cuddapah"
    ensures Upper(stateCode.value) != "AP" ==> name in ChosenCities(lookups, config, Upper(stateCode.value))
  {
    CitiesListed(stateCode, lookups, config, name);
    FuelStore.AliasLiterals();
  }
}
