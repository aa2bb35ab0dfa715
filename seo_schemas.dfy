/** The SEO helpers of lib/seoSchemas.ts: the city slug of page URLs, the
    100 km travel cost, the schema.org BreadcrumbList/ItemList element
    lists, the canonical city page URL and the choice of answers on a city's
    FAQ. Numbers are reals or "not finite"; `toFixed` and the rendering of a
    number as text are parameters. */
module SeoSchemas {
  import opened Common
  import SeoFuelRepo
  import Middleware

  // ---------------------------------------------------------------------
  // toCitySlug

  /** toCitySlug: lower-case, every run of characters other than letters and
      digits one '-', no '-' at either end. */
  function ToCitySlug(cityName: string): (r: string)
    ensures IsSquashed(r, '-') && NoUpper(r)
    ensures r == [] <==> forall i :: 0 <= i < |cityName| ==> !IsAlnum(cityName[i])
  {
    var ts := Tokens(Lower(cityName));
    assert NoUpper(Lower(cityName));
    JoinShape(ts, '-');
    TokensEmptyIff(Lower(cityName));
    Join(ts, '-')
  }

  /** Slugifying a slug changes nothing. */
  lemma ToCitySlugIdempotent(cityName: string)
    ensures ToCitySlug(ToCitySlug(cityName)) == ToCitySlug(cityName)
  {
    LowerOfNoUpper(ToCitySlug(cityName));
    SquashIdempotent(Lower(cityName), '-');
  }

  /** The slug has the words of the name, in order. */
  lemma ToCitySlugTokens(cityName: string)
    ensures Tokens(ToCitySlug(cityName)) == Tokens(Lower(cityName))
  {
    TokensOfJoin(Tokens(Lower(cityName)), '-');
  }

  lemma AlnumNotSpace(c: char)
    requires IsAlnum(c)
    ensures !IsSpace(c) && c != '-'
  {
  }

  /** Hyphens back to spaces: the words joined by '-' become the words joined
      by ' '. */
  lemma {:induction false} DashesToSpacesOfJoin(ts: seq<string>)
    requires TokenList(ts)
    ensures SeoFuelRepo.DashesToSpaces(Join(ts, '-')) == Join(ts, ' ')
  {
    var d := SeoFuelRepo.DashesToSpaces(Join(ts, '-'));
    if |ts| == 1 {
      forall i | 0 <= i < |ts[0]| ensures d[i] == ts[0][i] {
        AlnumNotSpace(ts[0][i]);
      }
    } else if |ts| > 1 {
      DashesToSpacesOfJoin(ts[1..]);
      var t := ts[0];
      var j := Join(ts[1..], '-');
      var dj := SeoFuelRepo.DashesToSpaces(j);
      assert Join(ts, '-') == t + ['-'] + j;
      assert Join(ts, ' ') == t + [' '] + dj;
      forall i | 0 <= i < |d| ensures d[i] == (t + [' '] + dj)[i] {
        if i < |t| {
          AlnumNotSpace(t[i]);
        } else if i > |t| {
          assert (t + ['-'] + j)[i] == j[i - |t| - 1];
        }
      }
    }
  }

  /** A squashed, space-separated text is already clean. */
  lemma CleanSquashed(s: string)
    requires IsSquashed(s, ' ')
    ensures CleanText(s) == s
  {
    forall i | 0 <= i < |s| && IsSpace(s[i]) ensures s[i] == ' ' {
      if IsAlnum(s[i]) { AlnumNotSpace(s[i]); }
    }
    forall i | 0 <= i < |s| - 1 && IsSpace(s[i]) ensures !IsSpace(s[i + 1]) {
      if IsAlnum(s[i]) { AlnumNotSpace(s[i]); }
      if IsAlnum(s[i + 1]) { AlnumNotSpace(s[i + 1]); }
    }
    assert SeoFuelRepo.SingleSpaced(s);
    SeoFuelRepo.CollapseSingleSpaced(s);
    if s != [] {
      AlnumNotSpace(s[0]);
      AlnumNotSpace(s[|s| - 1]);
    }
    TrimOfTrimmed(s);
  }

  /** A city page's slug, read back by the repository's normalizeCityParam,
      gives the city's normalised key: the slug in a URL names its city. */
  lemma CitySlugRoundTrip(cityName: string)
    ensures SeoFuelRepo.NormalizeCityParam(ToCitySlug(cityName)) == NormalizeKey(cityName)
  {
    var ts := Tokens(Lower(cityName));
    DashesToSpacesOfJoin(ts);
    JoinShape(ts, ' ');
    CleanSquashed(Join(ts, ' '));
  }

  // ---------------------------------------------------------------------
  // computeTravelCost

  /** A JavaScript number: finite, or NaN / an infinity. */
  datatype Number = Finite(value: real) | NotFinite

  /** computeTravelCost: (100 / mileage) × price, or nothing when the price
      is missing or not finite or the mileage is not a positive finite
      number. */
  function ComputeTravelCost(price: Option<Number>, mileage: Number): (r: Option<real>)
    ensures r.Some? <==> price.Some? && price.value.Finite? && mileage.Finite? && mileage.value > 0.0
    ensures r.Some? ==> r.value * mileage.value == 100.0 * price.value.value
  {
    if price.None? || price.value.NotFinite? || mileage.NotFinite? || mileage.value <= 0.0 then None
    else Some((100.0 / mileage.value) * price.value.value)
  }

  /** The cost grows with the price and shrinks as the mileage grows. */
  lemma TravelCostMonotone(p1: real, p2: real, m1: real, m2: real)
    requires 0.0 <= p1 <= p2 && 0.0 < m2 <= m1
    ensures ComputeTravelCost(Some(Finite(p1)), Finite(m1)).value <= ComputeTravelCost(Some(Finite(p2)), Finite(m2)).value
  {
    var c1 := ComputeTravelCost(Some(Finite(p1)), Finite(m1)).value;
    var c2 := ComputeTravelCost(Some(Finite(p2)), Finite(m2)).value;
    assert c1 == 100.0 * p1 / m1 && c2 == 100.0 * p2 / m2;
    assert 100.0 * p1 * m2 <= 100.0 * p2 * m1 by {
      assert p1 * m2 <= p2 * m2;
      assert p2 * m2 <= p2 * m1;
    }
  }

  // ---------------------------------------------------------------------
  // BreadcrumbList and ItemList

  /** An entry handed to the builders: a name and its link (`item` for a
      breadcrumb, `url` for an item list). */
  datatype Link = Link(name: string, target: string)

  /** One `ListItem` of `itemListElement`. */
  datatype ListItem = ListItem(position: nat, name: string, target: string)

  datatype ListLd = BreadcrumbList(elements: seq<ListItem>) | ItemList(listName: string, elements: seq<ListItem>)

  /** `items.map((it, idx) => ({ position: idx + 1, … }))` */
  function NumberedItems(items: seq<Link>): (r: seq<ListItem>)
    ensures |r| == |items|
    ensures forall i :: 0 <= i < |r| ==> r[i].position == i + 1
  {
    seq(|items|, i requires 0 <= i < |items| => ListItem(i + 1, items[i].name, items[i].target))
  }

  function BuildBreadcrumbLd(items: seq<Link>): ListLd {
    BreadcrumbList(NumberedItems(items))
  }

  function BuildItemListLd(name: string, items: seq<Link>): ListLd {
    ItemList(name, NumberedItems(items))
  }

  /** The entries a list carries, without positions. */
  function LinksOf(elements: seq<ListItem>): (r: seq<Link>)
    ensures |r| == |elements|
  {
    seq(|elements|, i requires 0 <= i < |elements| => Link(elements[i].name, elements[i].target))
  }

  /** Both lists carry the entries given, in order and unchanged, numbered
      1, 2, … without gaps. */
  lemma ListLdProps(name: string, items: seq<Link>)
    ensures LinksOf(BuildBreadcrumbLd(items).elements) == items
    ensures LinksOf(BuildItemListLd(name, items).elements) == items
    ensures BuildItemListLd(name, items).listName == name
    ensures forall i :: 0 <= i < |items| ==> BuildBreadcrumbLd(items).elements[i].position == i + 1
    ensures forall i, j :: 0 <= i < j < |items| ==>
              BuildBreadcrumbLd(items).elements[i].position < BuildBreadcrumbLd(items).elements[j].position
  {
    var r := NumberedItems(items);
    assert LinksOf(r) == items;
  }

  // ---------------------------------------------------------------------
  // Canonical city URL

  /** The path of a city page: "/section/<state, lower-case>/<city slug>". */
  function CanonicalCityPath(section: string, stateCode: string, cityName: string): string {
    "/" + section + "/" + Lower(stateCode) + "/" + ToCitySlug(cityName)
  }

  /** buildCanonicalCityPage, with the site URL as a parameter and the
      segments already URL-safe. */
  function BuildCanonicalCityPage(site: string, section: string, stateCode: string, cityName: string): string {
    site + CanonicalCityPath(section, stateCode, cityName)
  }

  /** The page for a city and the page for its slug have the same
      canonical URL. */
  lemma CanonicalOfSlug(site: string, section: string, stateCode: string, cityName: string)
    ensures BuildCanonicalCityPage(site, section, stateCode, ToCitySlug(cityName))
            == BuildCanonicalCityPage(site, section, stateCode, cityName)
  {
    ToCitySlugIdempotent(cityName);
  }

  /** The canonical path of a city with a name and a two-letter state code
      is served as it is: the middleware passes it through. */
  lemma CanonicalPathNotRewritten(section: string, stateCode: string, cityName: string)
    requires section in Middleware.Sections
    requires Middleware.IsTwoLetterState(stateCode)
    requires exists i :: 0 <= i < |cityName| && IsAlnum(cityName[i])
    ensures Middleware.Route(CanonicalCityPath(section, stateCode, cityName)) == Middleware.Next
  {
    var slug := ToCitySlug(cityName);
    assert forall i :: 0 <= i < |slug| ==> slug[i] != '/';
    assert '/' !in section;
    var st := Lower(stateCode);
    assert Middleware.IsTwoLetterState(st);
    Middleware.CanonicalPathPasses(section, st, slug);
  }

  // ---------------------------------------------------------------------
  // buildCityFaqLd

  /** formatInr: "₹" and the number with `digits` decimals, or nothing for
      a missing or non-finite value. */
  function FormatInr(value: Option<Number>, digits: nat, toFixed: (real, nat) -> string): (r: Option<string>)
    ensures r.Some? <==> value.Some? && value.value.Finite?
    ensures r.Some? ==> r.value != [] && r.value[0] == '\U{20B9}'
  {
    if value.None? || value.value.NotFinite? then None
    else Some("\U{20B9}" + toFixed(value.value.value, digits))
  }

  datatype Question = Question(name: string, answer: string)

  /** "Today’s <fuel> price in <city> is " */
  function TodayPrefix(fuel: string, cityName: string): string {
    "Today\U{2019}s " + fuel + " price in " + cityName + " is "
  }

  function CheckBackLater(): string {
    "updated daily." + " If it\U{2019}s unavailable, please check back later."
  }

  /** The answer about today's price of a fuel: the price when it has a
      shown, otherwise "check back later". */
  function PriceAnswer(fuel: string, cityName: string, shown: Option<string>): string {
    match shown
    case Some(l) => TodayPrefix(fuel, cityName) + (l + " per litre. Prices are updated daily.")
    case None => TodayPrefix(fuel, cityName) + CheckBackLater()
  }

  function FormulaAnswer(): string {
    "We divide 100 by your mileage (km/l)" + " to get litres required," + " then multiply by the petrol price."
  }

  /** The answer about the cost of 100 km: the sample cost when it has a
      shown, otherwise how the cost is computed. */
  function TravelAnswer(mileageText: string, cityName: string, shown: Option<string>): string {
    match shown
    case Some(l) => "At " + mileageText + " km/l, travelling 100 km in " + cityName + " costs about " + l + " in petrol."
    case None => FormulaAnswer()
  }

  /** "What is today’s <fuel> price in <city>?" and its answer. */
  function PriceQuestion(fuel: string, cityName: string, price: Option<Number>, toFixed: (real, nat) -> string): Question {
    Question("What is today\U{2019}s " + fuel + " price in " + cityName + "?",
             PriceAnswer(fuel, cityName, FormatInr(price, 2, toFixed)))
  }

  /** The sample cost of 100 km, when one can be computed. */
  function SampleCost(petrolPrice: Option<Number>, mileage: Number): Option<Number> {
    var cost := ComputeTravelCost(petrolPrice, mileage);
    if cost.Some? then Some(Finite(cost.value)) else None
  }

  /** The question about the cost of 100 km and its answer. */
  function TravelQuestion(cityName: string, petrolPrice: Option<Number>, mileage: Number,
                          toFixed: (real, nat) -> string, numberText: Number -> string): Question {
    Question("How do you calculate cost to travel 100 km in " + cityName + "?",
             TravelAnswer(numberText(mileage), cityName, FormatInr(SampleCost(petrolPrice, mileage), 0, toFixed)))
  }

  const RefreshAnswer: string := "Fuel prices are refreshed daily via an automated data pipeline."

  const PumpAnswer: string := "Local pump prices can vary slightly due to station-level pricing and rounding."

  /** buildCityFaqLd: five questions; the sample mileage defaults to 18. */
  function BuildCityFaqLd(cityName: string, petrolPrice: Option<Number>, dieselPrice: Option<Number>,
                          sampleMileage: Option<Number>, toFixed: (real, nat) -> string,
                          numberText: Number -> string): (r: seq<Question>)
    ensures |r| == 5
  {
    [ PriceQuestion("petrol", cityName, petrolPrice, toFixed),
      PriceQuestion("diesel", cityName, dieselPrice, toFixed),
      Question("How often are fuel prices updated for " + cityName + "?", RefreshAnswer),
      TravelQuestion(cityName, petrolPrice, SampleMileage(sampleMileage), toFixed, numberText),
      Question("Why can fuel prices differ slightly from pump rates in " + cityName + "?", PumpAnswer) ]
  }

  /** A price answer says "check back later" exactly when no price is shown. */
  lemma PriceAnswerUnavailable(fuel: string, cityName: string, shown: Option<string>)
    requires shown.Some? ==> shown.value != [] && shown.value[0] == '\U{20B9}'
    ensures PriceAnswer(fuel, cityName, shown) == PriceAnswer(fuel, cityName, None) <==> shown.None?
  {
    if shown.Some? {
      var p := TodayPrefix(fuel, cityName);
      var a := PriceAnswer(fuel, cityName, shown);
      var b := PriceAnswer(fuel, cityName, None);
      assert a == p + (shown.value + " per litre. Prices are updated daily.");
      assert a[|p|] == shown.value[0];
      assert b == p + CheckBackLater();
      assert CheckBackLater()[0] == 'u';
      assert b[|p|] == 'u';
    }
  }

  /** The travel answer is the formula exactly when no cost is shown. */
  lemma TravelAnswerFormula(mileageText: string, cityName: string, shown: Option<string>)
    ensures TravelAnswer(mileageText, cityName, shown) == FormulaAnswer() <==> shown.None?
  {
    if shown.Some? {
      assert TravelAnswer(mileageText, cityName, shown)[0] == 'A';
      assert FormulaAnswer()[0] == 'W';
    }
  }

  /** The sample mileage, 18 km/l unless given. */
  function SampleMileage(sampleMileage: Option<Number>): Number {
    if sampleMileage.Some? then sampleMileage.value else Finite(18.0)
  }

  /** The petrol and diesel answers say "check back later" exactly when
      that price is missing or not finite. */
  lemma CityFaqPriceAnswers(cityName: string, petrolPrice: Option<Number>, dieselPrice: Option<Number>,
                            sampleMileage: Option<Number>, toFixed: (real, nat) -> string, numberText: Number -> string)
    ensures var r := BuildCityFaqLd(cityName, petrolPrice, dieselPrice, sampleMileage, toFixed, numberText);
            && (r[0].answer == PriceAnswer("petrol", cityName, None) <==> petrolPrice.None? || petrolPrice.value.NotFinite?)
            && (r[1].answer == PriceAnswer("diesel", cityName, None) <==> dieselPrice.None? || dieselPrice.value.NotFinite?)
  {
    var r := BuildCityFaqLd(cityName, petrolPrice, dieselPrice, sampleMileage, toFixed, numberText);
    assert r[0] == PriceQuestion("petrol", cityName, petrolPrice, toFixed);
    assert r[1] == PriceQuestion("diesel", cityName, dieselPrice, toFixed);
    PriceQuestionFallback("petrol", cityName, petrolPrice, toFixed);
    PriceQuestionFallback("diesel", cityName, dieselPrice, toFixed);
  }

  lemma PriceQuestionFallback(fuel: string, cityName: string, price: Option<Number>, toFixed: (real, nat) -> string)
    ensures PriceQuestion(fuel, cityName, price, toFixed).answer == PriceAnswer(fuel, cityName, None)
            <==> price.None? || price.value.NotFinite?
  {
    PriceAnswerUnavailable(fuel, cityName, FormatInr(price, 2, toFixed));
  }

  /** The travel answer falls back to the formula exactly when no sample
      cost can be computed: a missing or non-finite petrol price, or a
      mileage that is not a positive finite number. The other two answers
      are fixed. */
  lemma CityFaqOtherAnswers(cityName: string, petrolPrice: Option<Number>, dieselPrice: Option<Number>,
                            sampleMileage: Option<Number>, toFixed: (real, nat) -> string, numberText: Number -> string)
    ensures var r := BuildCityFaqLd(cityName, petrolPrice, dieselPrice, sampleMileage, toFixed, numberText);
            && (r[3].answer == FormulaAnswer() <==> ComputeTravelCost(petrolPrice, SampleMileage(sampleMileage)).None?)
            && r[2].answer == RefreshAnswer && r[4].answer == PumpAnswer
  {
    var mileage := SampleMileage(sampleMileage);
    TravelAnswerFormula(numberText(mileage), cityName, FormatInr(SampleCost(petrolPrice, mileage), 0, toFixed));
  }

  /** `s` occurs in `p + s + q`. */
  lemma Mentions(p: string, s: string, q: string)
    ensures Contains(p + s + q, s)
  {
    assert (p + s + q)[|p|..|p| + |s|] == s;
    assert OccursAt(p + s + q, s, |p|);
  }

  /** Every question names the city. */
  lemma CityFaqQuestionsNameCity(cityName: string, petrolPrice: Option<Number>, dieselPrice: Option<Number>,
                                 sampleMileage: Option<Number>, toFixed: (real, nat) -> string,
                                 numberText: Number -> string)
    ensures forall i :: 0 <= i < 5 ==>
              Contains(BuildCityFaqLd(cityName, petrolPrice, dieselPrice, sampleMileage, toFixed, numberText)[i].name, cityName)
  {
    Mentions("What is today\U{2019}s " + "petrol" + " price in ", cityName, "?");
    Mentions("What is today\U{2019}s " + "diesel" + " price in ", cityName, "?");
    Mentions("How often are fuel prices updated for ", cityName, "?");
    Mentions("How do you calculate cost to travel 100 km in ", cityName, "?");
    Mentions("Why can fuel prices differ slightly from pump rates in ", cityName, "?");
  }
}
