/** The coverage-discovery script (scripts/discoverGoodreturnsCoverage.ts):
    it finds the state pages on the Goodreturns petrol index, maps each
    state name to the script's own short state table, collects the city
    links (or, failing those, the city names of the tables) of each known
    state's page, and builds the `CITY_SLUGS` table keyed by state code.
    Pages are inputs: the index page as its anchors, each state page as its
    anchors and table rows, or None when fetching it fails. */
module DiscoverCoverage {
  import opened Common
  import opened Dedup
  import opened Folds
  import opened Series
  import BatchDiscovery
  import BatchNames
  import BatchKeys

  type Anchor = BatchDiscovery.Anchor
  type SlugEntry = BatchKeys.SlugEntry

  /** The script's local state table, code then display name, in order. */
  const StateNames: seq<(string, string)> := [
    ("KL", "Kerala"),
    ("MH", "Maharashtra"),
    ("KA", "Karnataka"),
    ("TN", "Tamil Nadu"),
    ("GJ", "Gujarat"),
    ("DL", "Delhi"),
    ("UP", "Uttar Pradesh"),
    ("WB", "West Bengal")
  ]

  // ---------------------------------------------------------------------
  // The name -> code map

  /** One table entry as a map entry: normalised name to code. Both
      normalizeStateName and normalizeCityName of the script are
      Common.NormalizeKey (lower-case, runs of characters other than letters
      and digits one space, trimmed). */
  function NameEntry(e: (string, string)): Option<(string, string)>
  {
    Some((NormalizeKey(e.1), e.0))
  }

  /** The map built from a table of (code, name) entries. */
  function NameToCodeMap(names: seq<(string, string)>): map<string, string>
  {
    Fold(map[], names, Upsert(NameEntry))
  }

  /** The map buildStateNameToCodeMap returns. */
  function StateNameToCodeMap(): map<string, string>
  {
    NameToCodeMap(StateNames)
  }

  /** buildStateNameToCodeMap: `map[normalizeStateName(name)] = code` for
      each entry in turn. */
  method BuildStateNameToCodeMap() returns (m: map<string, string>)
    ensures m == StateNameToCodeMap()
  {
    m := BuildNameToCodeMap(StateNames);
  }

  /** The loop of buildStateNameToCodeMap over a given table. */
  method BuildNameToCodeMap(names: seq<(string, string)>) returns (m: map<string, string>)
    ensures m == NameToCodeMap(names)
  {
    m := map[];
    for i := 0 to |names|
      invariant m == Fold(map[], names[..i], Upsert(NameEntry))
    {
      FoldSnoc(map[], names, i, Upsert(NameEntry));
      assert NameEntry(names[i]) == Some((NormalizeKey(names[i].1), names[i].0));
      m := m[NormalizeKey(names[i].1) := names[i].0];
    }
    assert names[..|names|] == names;
  }

  /** A name is in the map exactly when it is the normal form of a table
      name, and it maps to the code of the last such entry. */
  lemma NameToCodeMapProps(names: seq<(string, string)>, k: string)
    ensures k in NameToCodeMap(names) <==> exists i :: 0 <= i < |names| && NormalizeKey(names[i].1) == k
    ensures k in NameToCodeMap(names) ==>
              exists i :: 0 <= i < |names| && NormalizeKey(names[i].1) == k
                          && NameToCodeMap(names)[k] == names[i].0
                          && forall j :: i < j < |names| ==> NormalizeKey(names[j].1) != k
  {
    UpsertLastWins(names, NameEntry, k);
    assert forall i :: 0 <= i < |names| ==> (YieldsKey(NameEntry, names[i], k) <==> NormalizeKey(names[i].1) == k);
  }

  /** The codes of a table. */
  function CodesOf(names: seq<(string, string)>): set<string>
  {
    set i | 0 <= i < |names| :: names[i].0
  }

  /** Every code the map yields is a code of the table. */
  lemma NameToCodeMapCodes(names: seq<(string, string)>, k: string)
    requires k in NameToCodeMap(names)
    ensures NameToCodeMap(names)[k] in CodesOf(names)
  {
    NameToCodeMapProps(names, k);
  }

  // ---------------------------------------------------------------------
  // State pages on the index

  /** `-s\d+\.html` at the start of `t`, letter case as written. */
  predicate StateSuffixAt(t: string) {
    |t| >= 2 && t[..2] == "-s"
    && var rest := t[2..];
       var n := BatchDiscovery.DigitRunOf(rest);
       n >= 1 && |rest| >= n + 5 && rest[n..n + 5] == ".html"
  }

  /** `.*-s\d+\.html`: the suffix after a stretch without line terminators. */
  predicate TailMatches(t: string)
    decreases |t|
  {
    StateSuffixAt(t) || (t != [] && !BatchDiscovery.IsLineTerminator(t[0]) && TailMatches(t[1..]))
  }

  /** `/petrol-price-in-.*-s\d+\.html/.test(href)`, without the `i` flag. */
  predicate MatchesStatePattern(h: string)
    decreases |h|
  {
    (|h| >= 16 && h[..16] == "petrol-price-in-" && TailMatches(h[16..]))
    || (h != [] && MatchesStatePattern(h[1..]))
  }

  /** The selector `a[href*='petrol-price-in-']` and the pattern. */
  predicate IsStatePageHref(href: string) {
    Contains(href, "petrol-price-in-") && MatchesStatePattern(href)
  }

  /** One entry of `results`: the anchor's trimmed text and absolute URL. */
  datatype StateLink = StateLink(stateName: string, url: string)

  /** What one index anchor contributes to `results`, if anything. */
  function LinkOfAnchor(a: Anchor): (r: Option<StateLink>)
    ensures r.Some? <==> a.href != [] && Trim(a.text) != [] && IsStatePageHref(a.href)
    ensures r.Some? ==> r.value.url == BatchDiscovery.Absolutize(a.href) && r.value.stateName == Trim(a.text)
  {
    var text := Trim(a.text);
    if a.href == [] || text == [] || !IsStatePageHref(a.href) then None
    else Some(StateLink(text, BatchDiscovery.Absolutize(a.href)))
  }

  function LinkUrl(l: StateLink): string { l.url }

  /** discoverStatePages' result: the kept anchors, first one per URL. */
  function DiscoveredPages(anchors: seq<Anchor>): seq<StateLink>
  {
    FirstByKey(Collect(anchors, LinkOfAnchor), LinkUrl)
  }

  /** The `each` loop filling `results`. */
  method CollectStateLinks(anchors: seq<Anchor>) returns (results: seq<StateLink>)
    ensures results == Collect(anchors, LinkOfAnchor)
  {
    results := [];
    for i := 0 to |anchors|
      invariant results == Collect(anchors[..i], LinkOfAnchor)
    {
      CollectSnoc(anchors, i, LinkOfAnchor);
      var href := anchors[i].href;
      var text := Trim(anchors[i].text);
      if href == [] || text == [] {
        continue;
      }
      if !IsStatePageHref(href) {
        continue;
      }
      results := results + [StateLink(text, BatchDiscovery.Absolutize(href))];
    }
    assert anchors[..|anchors|] == anchors;
  }

  /** discoverStatePages: the anchors, then the `seen`-set loop by URL. */
  method DiscoverStatePages(anchors: seq<Anchor>) returns (unique: seq<StateLink>)
    ensures unique == DiscoveredPages(anchors)
  {
    var results := CollectStateLinks(anchors);
    unique := DedupFirst(results, LinkUrl);
  }

  /** Every discovered page comes from a kept anchor. */
  lemma DiscoveredPagesSound(anchors: seq<Anchor>, j: int)
    requires 0 <= j < |DiscoveredPages(anchors)|
    ensures exists i :: 0 <= i < |anchors| && LinkOfAnchor(anchors[i]) == Some(DiscoveredPages(anchors)[j])
  {
    FirstByKeyKeeps(Collect(anchors, LinkOfAnchor), LinkUrl, j);
    CollectHas(anchors, LinkOfAnchor, DiscoveredPages(anchors)[j]);
  }

  /** No URL is listed twice. */
  lemma DiscoveredPagesDistinct(anchors: seq<Anchor>)
    ensures DistinctKeys(DiscoveredPages(anchors), LinkUrl)
  {
    FirstByKeyDistinct(Collect(anchors, LinkOfAnchor), LinkUrl);
  }

  /** Every kept anchor's URL is among the discovered pages, with the text
      of the first kept anchor carrying that URL. */
  lemma DiscoveredPagesComplete(anchors: seq<Anchor>, i: int)
    requires 0 <= i < |anchors| && LinkOfAnchor(anchors[i]).Some?
    ensures exists j :: 0 <= j < |DiscoveredPages(anchors)| && DiscoveredPages(anchors)[j].url == BatchDiscovery.Absolutize(anchors[i].href)
  {
    var c := Collect(anchors, LinkOfAnchor);
    var u := DiscoveredPages(anchors);
    FirstByKeyKeys(c, LinkUrl);
    CollectHas(anchors, LinkOfAnchor, LinkOfAnchor(anchors[i]).value);
    var k :| 0 <= k < |c| && c[k] == LinkOfAnchor(anchors[i]).value;
    assert LinkUrl(c[k]) in KeySet(u, LinkUrl);
  }

  lemma {:induction false} TailMatchesOf(slug: string, suffix: string)
    requires forall i :: 0 <= i < |slug| ==> !BatchDiscovery.IsLineTerminator(slug[i])
    requires StateSuffixAt(suffix)
    ensures TailMatches(slug + suffix)
  {
    if slug != [] {
      assert (slug + suffix)[1..] == slug[1..] + suffix;
      TailMatchesOf(slug[1..], suffix);
    } else {
      assert slug + suffix == suffix;
    }
  }

  lemma {:induction false} MatchesAfterPrefix(prefix: string, h: string)
    requires MatchesStatePattern(h)
    ensures MatchesStatePattern(prefix + h)
  {
    if prefix != [] {
      assert (prefix + h)[1..] == prefix[1..] + h;
      MatchesAfterPrefix(prefix[1..], h);
    } else {
      assert prefix + h == h;
    }
  }

  lemma StateSuffixOf(n: nat)
    ensures StateSuffixAt("-s" + NatToString(n) + ".html")
  {
    var d := NatToString(n);
    var t := "-s" + d + ".html";
    assert t[..2] == "-s";
    assert t[2..] == d + ".html";
    BatchDiscovery.DigitRunOfDigitsThen(d, ".html");
    assert (d + ".html")[|d|..|d| + 5] == ".html";
  }

  /** The path of a state page, from "petrol-price-in-" on, matches the
      pattern. */
  lemma StatePathMatches(slug: string, n: nat)
    requires forall i :: 0 <= i < |slug| ==> !BatchDiscovery.IsLineTerminator(slug[i])
    ensures MatchesStatePattern("petrol-price-in-" + (slug + ("-s" + NatToString(n) + ".html")))
  {
    var suffix := "-s" + NatToString(n) + ".html";
    var h := "petrol-price-in-" + (slug + suffix);
    StateSuffixOf(n);
    TailMatchesOf(slug, suffix);
    SplitConcat("petrol-price-in-", slug + suffix);
    MatchesAtStart(h);
  }

  lemma MatchesAtStart(h: string)
    requires |h| >= 16 && h[..16] == "petrol-price-in-" && TailMatches(h[16..])
    ensures MatchesStatePattern(h)
  {
  }

  /** A state-page link such as "/petrol-price-in-kerala-s18.html", after any
      prefix, passes the selector and the pattern. */
  lemma StatePageHrefOf(prefix: string, slug: string, n: nat)
    requires forall i :: 0 <= i < |slug| ==> !BatchDiscovery.IsLineTerminator(slug[i])
    ensures IsStatePageHref(prefix + "petrol-price-in-" + slug + "-s" + NatToString(n) + ".html")
  {
    var d := NatToString(n);
    var suffix := "-s" + d + ".html";
    var h := "petrol-price-in-" + (slug + suffix);
    SeqAssoc(prefix, "petrol-price-in-", slug);
    SeqAssoc(prefix + "petrol-price-in-", slug, "-s");
    SeqAssoc(prefix + "petrol-price-in-" + slug, "-s", d);
    SeqAssoc(prefix + "petrol-price-in-" + slug, "-s" + d, ".html");
    SeqAssoc(prefix + "petrol-price-in-", slug, suffix);
    SeqAssoc(prefix, "petrol-price-in-", slug + suffix);
    StatePathMatches(slug, n);
    MatchesAfterPrefix(prefix, h);
    BatchDiscovery.MarkerAfterPrefix(prefix, slug + suffix);
  }

  lemma StateSuffixLoose(t: string)
    requires StateSuffixAt(t)
    ensures BatchDiscovery.StateSuffixAt(t)
  {
    LowerOfNoUpper(".html");
  }

  lemma {:induction false} TailMatchesLoose(t: string)
    requires TailMatches(t)
    ensures BatchDiscovery.TailMatches(t)
    decreases |t|
  {
    if StateSuffixAt(t) {
      StateSuffixLoose(t);
    } else {
      TailMatchesLoose(t[1..]);
    }
  }

  /** Every state-page link this script accepts, the scraper's own state
      discovery (whose pattern ignores letter case) accepts too. */
  lemma {:induction false} StatePatternLoose(h: string)
    requires MatchesStatePattern(h)
    ensures BatchDiscovery.MatchesStatePattern(h)
    decreases |h|
  {
    if |h| >= 16 && h[..16] == "petrol-price-in-" && TailMatches(h[16..]) {
      LowerOfNoUpper("petrol-price-in-");
      TailMatchesLoose(h[16..]);
    } else {
      StatePatternLoose(h[1..]);
    }
  }

  // ---------------------------------------------------------------------
  // Cities of a state page

  /** A state page: the anchors the city selectors find, and the cells of
      the rows the fallback selectors find. */
  datatype StatePage = StatePage(links: seq<Anchor>, rows: seq<seq<string>>)

  /** The length of the run of `[^./]` characters at the start of `s`. */
  function SlugRun(s: string): (n: nat)
    ensures n <= |s|
    ensures forall i :: 0 <= i < n ==> s[i] != '.' && s[i] != '/'
    ensures n < |s| ==> s[n] == '.' || s[n] == '/'
  {
    if s == [] || s[0] == '.' || s[0] == '/' then 0 else 1 + SlugRun(s[1..])
  }

  /** The capture of `petrol-price-in-([^./]+)\.html` (any letter case)
      matched at the start of `t`. The greedy run can only be followed by
      `.html` when it is the whole run, so no shorter capture exists. */
  function SlugCaptureAt(t: string): (r: Option<string>)
    ensures r.Some? ==> r.value != [] && forall i :: 0 <= i < |r.value| ==> r.value[i] != '.' && r.value[i] != '/'
  {
    if |t| >= 16 && Lower(t[..16]) == "petrol-price-in-" then
      var rest := t[16..];
      var n := SlugRun(rest);
      if n >= 1 && |rest| >= n + 5 && Lower(rest[n..n + 5]) == ".html" then Some(rest[..n]) else None
    else None
  }

  /** `href.match(/petrol-price-in-([^./]+)\.html/i)?.[1]`: the leftmost match. */
  function SlugCapture(h: string): (r: Option<string>)
    ensures r.Some? ==> r.value != [] && forall i :: 0 <= i < |r.value| ==> r.value[i] != '.' && r.value[i] != '/'
    decreases |h|
  {
    if |h| < 16 then None
    else if SlugCaptureAt(h).Some? then SlugCaptureAt(h)
    else SlugCapture(h[1..])
  }

  /** What one city anchor contributes to `cities`: its trimmed text and
      the captured slug. */
  function CityOfLink(a: Anchor): (r: Option<SlugEntry>)
    ensures r.Some? <==> a.href != [] && Trim(a.text) != [] && Contains(a.href, "petrol-price-in-")
                         && SlugCapture(a.href).Some?
    ensures r.Some? ==> r.value == BatchKeys.SlugEntry(Trim(a.text), SlugCapture(a.href).value)
  {
    var city := Trim(a.text);
    if a.href == [] || city == [] || !Contains(a.href, "petrol-price-in-") then None
    else
      match SlugCapture(a.href)
      case None => None
      case Some(slug) => Some(BatchKeys.SlugEntry(city, slug))
  }

  /** What one fallback row contributes: its first cell, trimmed, and that
      name slugified (lower-case, runs of other characters one '-', no '-'
      at either end). */
  function CityOfRow(cells: seq<string>): (r: Option<SlugEntry>)
    ensures r.Some? <==> cells != [] && Trim(cells[0]) != [] && BatchNames.SlugifyCityName(Trim(cells[0])).Some?
    ensures r.Some? ==> r.value == BatchKeys.SlugEntry(Trim(cells[0]), BatchNames.SlugifyCityName(Trim(cells[0])).value)
  {
    if cells == [] then None
    else
      var city := Trim(cells[0]);
      if city == [] then None
      else
        match BatchNames.SlugifyCityName(city)
        case None => None
        case Some(slug) => Some(BatchKeys.SlugEntry(city, slug))
  }

  /** The de-duplication key of a city. */
  function CityKey(e: SlugEntry): string { NormalizeKey(e.city) }

  /** An entry the de-duplication loop considers: one with a non-empty key. */
  function Keyed(e: SlugEntry): (r: Option<SlugEntry>)
    ensures r.Some? <==> CityKey(e) != []
    ensures r.Some? ==> r.value == e
  {
    if CityKey(e) == [] then None else Some(e)
  }

  /** The city list before de-duplication: the links, or the rows when no
      link yields a city. */
  function RawCities(page: StatePage): seq<SlugEntry>
  {
    var fromLinks := Collect(page.links, CityOfLink);
    if fromLinks == [] then Collect(page.rows, CityOfRow) else fromLinks
  }

  /** discoverCitiesForState's result: the first city per non-empty key. */
  function StateCities(page: StatePage): seq<SlugEntry>
  {
    FirstByKey(Collect(RawCities(page), Keyed), CityKey)
  }

  method CollectCityLinks(links: seq<Anchor>) returns (cities: seq<SlugEntry>)
    ensures cities == Collect(links, CityOfLink)
  {
    cities := [];
    for i := 0 to |links|
      invariant cities == Collect(links[..i], CityOfLink)
    {
      CollectSnoc(links, i, CityOfLink);
      var href := links[i].href;
      var city := Trim(links[i].text);
      if href == [] || city == [] || !Contains(href, "petrol-price-in-") {
        continue;
      }
      var m := SlugCapture(href);
      if m.None? {
        continue;
      }
      cities := cities + [BatchKeys.SlugEntry(city, m.value)];
    }
    assert links[..|links|] == links;
  }

  method CollectCityRows(rows: seq<seq<string>>) returns (cities: seq<SlugEntry>)
    ensures cities == Collect(rows, CityOfRow)
  {
    cities := [];
    for i := 0 to |rows|
      invariant cities == Collect(rows[..i], CityOfRow)
    {
      CollectSnoc(rows, i, CityOfRow);
      var tds := rows[i];
      if tds == [] {
        continue;
      }
      var city := Trim(tds[0]);
      if city == [] {
        continue;
      }
      var slug := BatchNames.SlugifyCityName(city);
      if slug.Some? {
        cities := cities + [BatchKeys.SlugEntry(city, slug.value)];
      }
    }
    assert rows[..|rows|] == rows;
  }

  /** One more element for FirstByKey: kept when its key is new. */
  lemma FirstByKeySnoc<T, K>(xs: seq<T>, x: T, key: T -> K)
    ensures FirstByKey(xs + [x], key) == FirstByKey(xs, key) + (if key(x) in KeySet(xs, key) then [] else [x])
    ensures KeySet(xs + [x], key) == KeySet(xs, key) + {key(x)}
  {
    assert (xs + [x])[..|xs|] == xs;
  }

  /** What one more element does to the elements considered. */
  lemma KeyedSnoc<T>(xs: seq<T>, i: int, f: T -> Option<T>, key: T -> string)
    requires 0 <= i < |xs|
    requires f(xs[i]).Some? <==> key(xs[i]) != []
    requires f(xs[i]).Some? ==> f(xs[i]).value == xs[i]
    ensures Collect(xs[..i + 1], f) == Collect(xs[..i], f) + (if key(xs[i]) == [] then [] else [xs[i]])
  {
    CollectSnoc(xs, i, f);
    if key(xs[i]) == [] {
      assert Collect(xs[..i], f) + [] == Collect(xs[..i], f);
    }
  }

  /** One element of the `seen`-set loop: kept, and its key marked seen,
      when its key is new. */
  method SeenStep<T>(seen: set<string>, deduped: seq<T>, x: T, key: T -> string, ghost prev: seq<T>)
      returns (seen': set<string>, deduped': seq<T>)
    requires deduped == FirstByKey(prev, key) && seen == KeySet(prev, key)
    ensures deduped' == FirstByKey(prev + [x], key) && seen' == KeySet(prev + [x], key)
  {
    FirstByKeySnoc(prev, x, key);
    var k := key(x);
    if k in seen {
      assert seen + {k} == seen;
      return seen, deduped;
    }
    seen' := seen + {k};
    deduped' := deduped + [x];
  }

  /** The `seen`-set loop that skips elements with an empty key. */
  method DedupNonEmptyKeys<T>(xs: seq<T>, f: T -> Option<T>, key: T -> string) returns (deduped: seq<T>)
    requires forall x :: (f(x).Some? <==> key(x) != []) && (f(x).Some? ==> f(x).value == x)
    ensures deduped == FirstByKey(Collect(xs, f), key)
  {
    var seen: set<string> := {};
    deduped := [];
    for i := 0 to |xs|
      invariant deduped == FirstByKey(Collect(xs[..i], f), key)
      invariant seen == KeySet(Collect(xs[..i], f), key)
    {
      KeyedSnoc(xs, i, f, key);
      ghost var prev := Collect(xs[..i], f);
      var k := key(xs[i]);
      if k == [] {
        assert Collect(xs[..i + 1], f) == prev;
        continue;
      }
      assert Collect(xs[..i + 1], f) == prev + [xs[i]];
      seen, deduped := SeenStep(seen, deduped, xs[i], key, prev);
    }
    assert xs[..|xs|] == xs;
  }

  /** The `seen`-set loop over normalised city names. */
  method DedupCities(cities: seq<SlugEntry>) returns (deduped: seq<SlugEntry>)
    ensures deduped == FirstByKey(Collect(cities, Keyed), CityKey)
  {
    deduped := DedupNonEmptyKeys(cities, Keyed, CityKey);
  }

  /** discoverCitiesForState on a fetched page. */
  method DiscoverCitiesForState(page: StatePage) returns (deduped: seq<SlugEntry>)
    ensures deduped == StateCities(page)
  {
    var cities := CollectCityLinks(page.links);
    if |cities| == 0 {
      cities := CollectCityRows(page.rows);
    }
    deduped := DedupCities(cities);
  }

  /** An element FirstByKey keeps is an element of its input. */
  lemma FirstByKeyKeeps<T, K>(xs: seq<T>, key: T -> K, j: int)
    requires 0 <= j < |FirstByKey(xs, key)|
    ensures FirstByKey(xs, key)[j] in xs
  {
    FirstByKeyProps(xs, key);
  }

  /** No two cities listed share a key. */
  lemma StateCitiesDistinct(page: StatePage)
    ensures DistinctKeys(StateCities(page), CityKey)
  {
    FirstByKeyDistinct(Collect(RawCities(page), Keyed), CityKey);
  }

  /** Every city listed has a non-empty key and is one of the raw cities. */
  lemma StateCitiesSound(page: StatePage, j: int)
    requires 0 <= j < |StateCities(page)|
    ensures CityKey(StateCities(page)[j]) != []
    ensures StateCities(page)[j] in RawCities(page)
  {
    var raw := RawCities(page);
    var x := StateCities(page)[j];
    FirstByKeyKeeps(Collect(raw, Keyed), CityKey, j);
    CollectHas(raw, Keyed, x);
  }

  /** When some city link yields a city, the raw cities are exactly those
      of the links. */
  lemma RawCitiesFromLinks(page: StatePage, e: SlugEntry, i: int)
    requires 0 <= i < |page.links| && CityOfLink(page.links[i]).Some?
    ensures e in RawCities(page) <==> exists k :: 0 <= k < |page.links| && CityOfLink(page.links[k]) == Some(e)
  {
    CollectHas(page.links, CityOfLink, CityOfLink(page.links[i]).value);
    CollectHas(page.links, CityOfLink, e);
  }

  /** When no city link yields a city, the raw cities are those of the
      fallback rows. */
  lemma RawCitiesFromRows(page: StatePage, e: SlugEntry)
    requires forall i :: 0 <= i < |page.links| ==> CityOfLink(page.links[i]).None?
    ensures e in RawCities(page) <==> exists k :: 0 <= k < |page.rows| && CityOfRow(page.rows[k]) == Some(e)
  {
    var fromLinks := Collect(page.links, CityOfLink);
    if fromLinks != [] {
      CollectHas(page.links, CityOfLink, fromLinks[0]);
    }
    CollectHas(page.rows, CityOfRow, e);
  }

  /** Every raw city with a non-empty key is represented by the first raw
      city with the same key. */
  lemma StateCitiesComplete(page: StatePage, e: SlugEntry)
    requires e in RawCities(page) && CityKey(e) != []
    ensures exists j :: 0 <= j < |StateCities(page)| && CityKey(StateCities(page)[j]) == CityKey(e)
  {
    var raw := RawCities(page);
    var c := Collect(raw, Keyed);
    var i :| 0 <= i < |raw| && raw[i] == e;
    CollectHas(raw, Keyed, e);
    FirstByKeyKeys(c, CityKey);
    var k :| 0 <= k < |c| && c[k] == e;
    assert CityKey(c[k]) in KeySet(StateCities(page), CityKey);
  }

  lemma {:induction false} SlugRunOf(slug: string, rest: string)
    requires forall i :: 0 <= i < |slug| ==> slug[i] != '.' && slug[i] != '/'
    requires rest != [] && rest[0] == '.'
    ensures SlugRun(slug + rest) == |slug|
  {
    if slug != [] {
      assert (slug + rest)[1..] == slug[1..] + rest;
      SlugRunOf(slug[1..], rest);
    } else {
      assert slug + rest == rest;
    }
  }

  /** The pattern matched right at "petrol-price-in-<slug>.html". */
  lemma SlugCaptureAtOf(slug: string)
    requires slug != [] && forall i :: 0 <= i < |slug| ==> slug[i] != '.' && slug[i] != '/'
    ensures SlugCaptureAt("petrol-price-in-" + slug + ".html") == Some(slug)
  {
    var t := "petrol-price-in-" + slug + ".html";
    assert t[..16] == "petrol-price-in-";
    LowerOfNoUpper("petrol-price-in-");
    LowerOfNoUpper(".html");
    var rest := t[16..];
    assert rest == slug + ".html";
    SlugRunOf(slug, ".html");
    assert rest[|slug|..|slug| + 5] == ".html";
    assert rest[..|slug|] == slug;
  }

  /** No match starts at a '/'. */
  lemma SlugCaptureAfterSlash(t: string)
    requires SlugCaptureAt(t).Some?
    ensures SlugCapture("/" + t) == SlugCaptureAt(t)
  {
    var h := "/" + t;
    assert h[1..] == t;
    assert Lower(h[..16])[0] == '/';
  }

  /** A city link such as "/petrol-price-in-agra.html" yields its slug. */
  lemma SlugCaptureOf(slug: string)
    requires slug != [] && forall i :: 0 <= i < |slug| ==> slug[i] != '.' && slug[i] != '/'
    ensures SlugCapture("/petrol-price-in-" + slug + ".html") == Some(slug)
  {
    SlugCaptureAtOf(slug);
    SlugCaptureAfterSlash("petrol-price-in-" + slug + ".html");
    SlashPath(slug);
  }

  lemma SlashPath(slug: string)
    ensures "/petrol-price-in-" + slug + ".html" == "/" + ("petrol-price-in-" + slug + ".html")
  {
    assert "/petrol-price-in-" == "/" + "petrol-price-in-";
    ConcatAssoc("/", "petrol-price-in-", slug);
    ConcatAssoc("/", "petrol-price-in-" + slug, ".html");
  }

  // ---------------------------------------------------------------------
  // The coverage table

  /** What one discovered state page contributes to `citySlugs`: nothing
      when its name is not in the table or its page cannot be fetched,
      otherwise its code and its cities. */
  function PageEntry(nameToCode: map<string, string>, pageOf: string -> Option<StatePage>)
    : StateLink -> Option<(string, seq<SlugEntry>)>
  {
    (p: StateLink) =>
      var norm := NormalizeKey(p.stateName);
      if norm !in nameToCode || nameToCode[norm] == [] || pageOf(p.url).None? then None
      else Some((nameToCode[norm], StateCities(pageOf(p.url).value)))
  }

  /** The table main builds: a later page of the same state replaces an
      earlier one. */
  function CitySlugs(indexAnchors: seq<Anchor>, pageOf: string -> Option<StatePage>): map<string, seq<SlugEntry>>
  {
    Fold(map[], DiscoveredPages(indexAnchors), Upsert(PageEntry(StateNameToCodeMap(), pageOf)))
  }

  /** One state page of main's loop. */
  method AddStatePage(citySlugs: map<string, seq<SlugEntry>>, nameToCode: map<string, string>,
                      p: StateLink, pageOf: string -> Option<StatePage>)
    returns (next: map<string, seq<SlugEntry>>)
    ensures next == Upsert(PageEntry(nameToCode, pageOf))(citySlugs, p)
  {
    next := citySlugs;
    var norm := NormalizeKey(p.stateName);
    if norm !in nameToCode || nameToCode[norm] == [] {
      return;
    }
    var code := nameToCode[norm];
    var page := pageOf(p.url);
    if page.None? {
      return;
    }
    var cities := DiscoverCitiesForState(page.value);
    next := citySlugs[code := cities];
  }

  /** main, up to writing the generated file. */
  method DiscoverCoverage(indexAnchors: seq<Anchor>, pageOf: string -> Option<StatePage>)
    returns (citySlugs: map<string, seq<SlugEntry>>)
    ensures citySlugs == CitySlugs(indexAnchors, pageOf)
  {
    var nameToCode := BuildStateNameToCodeMap();
    var statePages := DiscoverStatePages(indexAnchors);
    citySlugs := map[];
    for i := 0 to |statePages|
      invariant citySlugs == Fold(map[], statePages[..i], Upsert(PageEntry(nameToCode, pageOf)))
    {
      FoldSnoc(map[], statePages, i, Upsert(PageEntry(nameToCode, pageOf)));
      citySlugs := AddStatePage(citySlugs, nameToCode, statePages[i], pageOf);
    }
    assert statePages[..|statePages|] == statePages;
  }

  /** A code is in the table exactly when some discovered page names a state
      of the table with that code and its page was fetched; its cities are
      those of the last such page. */
  lemma CitySlugsProps(indexAnchors: seq<Anchor>, pageOf: string -> Option<StatePage>, code: string)
    ensures code in CitySlugs(indexAnchors, pageOf) <==>
              exists i :: 0 <= i < |DiscoveredPages(indexAnchors)|
                          && YieldsKey(PageEntry(StateNameToCodeMap(), pageOf), DiscoveredPages(indexAnchors)[i], code)
    ensures code in CitySlugs(indexAnchors, pageOf) ==>
              exists i :: 0 <= i < |DiscoveredPages(indexAnchors)|
                          && var p := DiscoveredPages(indexAnchors)[i];
                             && pageOf(p.url).Some?
                             && NormalizeKey(p.stateName) in StateNameToCodeMap()
                             && StateNameToCodeMap()[NormalizeKey(p.stateName)] == code
                             && CitySlugs(indexAnchors, pageOf)[code] == StateCities(pageOf(p.url).value)
  {
    var pages := DiscoveredPages(indexAnchors);
    var entry := PageEntry(StateNameToCodeMap(), pageOf);
    UpsertLastWins(pages, entry, code);
    if code in CitySlugs(indexAnchors, pageOf) {
      var i :| 0 <= i < |pages| && entry(pages[i]) == Some((code, CitySlugs(indexAnchors, pageOf)[code]))
               && forall j :: i < j < |pages| ==> !YieldsKey(entry, pages[j], code);
      EntryOfPage(StateNameToCodeMap(), pageOf, pages[i], code, CitySlugs(indexAnchors, pageOf)[code]);
    }
  }

  /** What an entry of a page says about the page. */
  lemma EntryOfPage(nameToCode: map<string, string>, pageOf: string -> Option<StatePage>, p: StateLink,
                    code: string, cities: seq<SlugEntry>)
    requires PageEntry(nameToCode, pageOf)(p) == Some((code, cities))
    ensures pageOf(p.url).Some? && NormalizeKey(p.stateName) in nameToCode
    ensures nameToCode[NormalizeKey(p.stateName)] == code && cities == StateCities(pageOf(p.url).value)
  {
  }

  /** Every code of the table is a code of the script's state table. */
  lemma CitySlugsCodes(indexAnchors: seq<Anchor>, pageOf: string -> Option<StatePage>, code: string)
    requires code in CitySlugs(indexAnchors, pageOf)
    ensures code in CodesOf(StateNames)
  {
    CitySlugsProps(indexAnchors, pageOf, code);
    var pages := DiscoveredPages(indexAnchors);
    var i :| 0 <= i < |pages| && var p := pages[i];
               && pageOf(p.url).Some?
               && NormalizeKey(p.stateName) in StateNameToCodeMap()
               && StateNameToCodeMap()[NormalizeKey(p.stateName)] == code
               && CitySlugs(indexAnchors, pageOf)[code] == StateCities(pageOf(p.url).value);
    NameToCodeMapCodes(StateNames, NormalizeKey(pages[i].stateName));
  }
}
