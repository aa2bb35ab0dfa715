/** Discovery of the Goodreturns state pages (discoverGoodreturnsStates and
    discoverGoodreturnsStateCodes in lib/myFuelSourceBatch.ts): the anchors of
    the petrol index page, kept when they point at a state page and name a
    known state, made absolute and de-duplicated by URL. */
module BatchDiscovery {
  import opened Common
  import opened Sorting
  import opened Dedup
  import opened BatchNames

  const GoodreturnsBase: string := "https://www.goodreturns.in"

  /** An anchor of the page: its `href` attribute and its text. */
  datatype Anchor = Anchor(href: string, text: string)

  datatype StatePage = StatePage(code: string, name: string, petrolUrl: string)

  predicate IsLineTerminator(c: char) {
    c == '\n' || c == '\r' || c == '\U{2028}' || c == '\U{2029}'
  }

  /** `-s\d+\.html` (any letter case) at the start of `t`. */
  predicate StateSuffixAt(t: string) {
    |t| >= 2 && t[0] == '-' && (t[1] == 's' || t[1] == 'S')
    && var rest := t[2..];
       var n := DigitRunOf(rest);
       n >= 1 && |rest| >= n + 5 && Lower(rest[n..n + 5]) == ".html"
  }

  function DigitRunOf(s: string): (n: nat)
    ensures n <= |s| && AllDigits(s[..n])
  {
    if s == [] || !IsDigit(s[0]) then 0 else 1 + DigitRunOf(s[1..])
  }

  /** `.*-s\d+\.html`: the suffix after a stretch without line terminators. */
  predicate TailMatches(t: string)
    decreases |t|
  {
    StateSuffixAt(t) || (t != [] && !IsLineTerminator(t[0]) && TailMatches(t[1..]))
  }

  /** `/petrol-price-in-.*-s\d+\.html/i.test(href)` */
  predicate MatchesStatePattern(h: string)
    decreases |h|
  {
    (|h| >= 16 && Lower(h[..16]) == "petrol-price-in-" && TailMatches(h[16..]))
    || (h != [] && MatchesStatePattern(h[1..]))
  }

  /** The anchor selector `a[href*='petrol-price-in-']` and the pattern. */
  predicate IsStatePageHref(href: string) {
    Contains(href, "petrol-price-in-") && MatchesStatePattern(href)
  }

  lemma {:induction false} DigitRunOfDigitsThen(d: string, rest: string)
    requires AllDigits(d) && (rest == [] || !IsDigit(rest[0]))
    ensures DigitRunOf(d + rest) == |d|
  {
    if d != [] {
      assert (d + rest)[1..] == d[1..] + rest;
      DigitRunOfDigitsThen(d[1..], rest);
    } else {
      assert d + rest == rest;
    }
  }

  lemma StateSuffixOf(n: nat)
    ensures StateSuffixAt("-s" + NatToString(n) + ".html")
  {
    var d := NatToString(n);
    var t := "-s" + d + ".html";
    assert t[2..] == d + ".html";
    DigitRunOfDigitsThen(d, ".html");
    assert (d + ".html")[|d|..|d| + 5] == ".html";
    LowerOfNoUpper(".html");
  }

  lemma {:induction false} TailMatchesOf(slug: string, suffix: string)
    requires forall i :: 0 <= i < |slug| ==> !IsLineTerminator(slug[i])
    requires StateSuffixAt(suffix)
    ensures TailMatches(slug + suffix)
  {
    if slug != [] {
      assert (slug + suffix)[1..] == slug[1..] + suffix;
      TailMatchesOf(slug[1..], suffix);
    } else {
      assert slug + suffix == suffix;
    }
  }

  lemma {:induction false} MatchesAfterPrefix(prefix: string, h: string)
    requires MatchesStatePattern(h)
    ensures MatchesStatePattern(prefix + h)
  {
    if prefix != [] {
      assert (prefix + h)[1..] == prefix[1..] + h;
      MatchesAfterPrefix(prefix[1..], h);
    } else {
      assert prefix + h == h;
    }
  }

  /** The path of a state page, from "petrol-price-in-" on, matches the
      pattern. */
  lemma StatePathMatches(slug: string, n: nat)
    requires forall i :: 0 <= i < |slug| ==> !IsLineTerminator(slug[i])
    ensures MatchesStatePattern("petrol-price-in-" + (slug + ("-s" + NatToString(n) + ".html")))
  {
    var suffix := "-s" + NatToString(n) + ".html";
    var h := "petrol-price-in-" + (slug + suffix);
    StateSuffixOf(n);
    TailMatchesOf(slug, suffix);
    SplitConcat("petrol-price-in-", slug + suffix);
    MarkerLower();
    MatchesAtStart(h);
  }

  lemma MarkerLower()
    ensures |"petrol-price-in-"| == 16 && Lower("petrol-price-in-") == "petrol-price-in-"
  {
    LowerOfNoUpper("petrol-price-in-");
  }

  lemma MatchesAtStart(h: string)
    requires |h| >= 16 && Lower(h[..16]) == "petrol-price-in-" && TailMatches(h[16..])
    ensures MatchesStatePattern(h)
  {
  }

  /** The marker follows the prefix. */
  lemma MarkerAfterPrefix(prefix: string, rest: string)
    ensures OccursAt(prefix + ("petrol-price-in-" + rest), "petrol-price-in-", |prefix|)
  {
    var h := "petrol-price-in-" + rest;
    assert (prefix + h)[|prefix|..|prefix| + 16] == h[..16];
  }

  /** A state-page link such as "/petrol-price-in-kerala-s18.html", after any
      prefix, passes both the selector and the pattern. */
  lemma StatePageHrefOf(prefix: string, slug: string, n: nat)
    requires forall i :: 0 <= i < |slug| ==> !IsLineTerminator(slug[i])
    ensures IsStatePageHref(prefix + "petrol-price-in-" + slug + "-s" + NatToString(n) + ".html")
  {
    var d := NatToString(n);
    var suffix := "-s" + d + ".html";
    var h := "petrol-price-in-" + (slug + suffix);
    SeqAssoc(prefix, "petrol-price-in-", slug);
    SeqAssoc(prefix + "petrol-price-in-", slug, "-s");
    SeqAssoc(prefix + "petrol-price-in-" + slug, "-s", d);
    SeqAssoc(prefix + "petrol-price-in-" + slug, "-s" + d, ".html");
    SeqAssoc(prefix + "petrol-price-in-", slug, suffix);
    SeqAssoc(prefix, "petrol-price-in-", slug + suffix);
    StatePathMatches(slug, n);
    MatchesAfterPrefix(prefix, h);
    MarkerAfterPrefix(prefix, slug + suffix);
  }

  /** Relative links are put under the site, with a '/' between. */
  function Absolutize(href: string): (url: string)
    ensures StartsWith(url, "http")
    ensures StartsWith(href, "http") ==> url == href
    ensures !StartsWith(href, "http") && StartsWith(href, "/") ==> url == GoodreturnsBase + href
    ensures !StartsWith(href, "http") && !StartsWith(href, "/") ==> url == GoodreturnsBase + "/" + href
  {
    if StartsWith(href, "http") then href
    else
      var url := GoodreturnsBase + (if StartsWith(href, "/") then href else "/" + href);
      assert url[..4] == GoodreturnsBase[..4];
      url
  }

  /** What one anchor contributes to `results`, if anything. */
  function StateOfAnchor(a: Anchor): (r: Option<StatePage>)
    ensures r.Some? <==> a.href != [] && Trim(a.text) != [] && IsStatePageHref(a.href)
                         && StateCodeOf(Trim(a.text)).Some?
    ensures r.Some? ==> (r.value.code == StateCodeOf(Trim(a.text)).value
                         && r.value.petrolUrl == Absolutize(a.href)
                         && r.value.name == CleanText(Trim(a.text)))
  {
    var text := Trim(a.text);
    if a.href == [] || text == [] then None
    else if !IsStatePageHref(a.href) then None
    else
      match StateCodeOf(text)
      case None => None
      case Some(code) => Some(StatePage(code, CleanText(text), Absolutize(a.href)))
  }

  /** The kept anchors, in page order, before de-duplication. */
  function Candidates(anchors: seq<Anchor>): (r: seq<StatePage>)
  {
    Somes(anchors, StateOfAnchor)
  }

  function UrlOf(p: StatePage): string { p.petrolUrl }

  /** The first page found per URL, in page order. */
  function DiscoveredStates(anchors: seq<Anchor>): seq<StatePage>
  {
    FirstByKey(Candidates(anchors), UrlOf)
  }

  /** discoverGoodreturnsStates: the `each` loop filling `results`, then the
      `seen`-set loop keeping the first page per URL. */
  method DiscoverStates(anchors: seq<Anchor>) returns (unique: seq<StatePage>)
    ensures unique == DiscoveredStates(anchors)
  {
    var results: seq<StatePage> := [];
    for i := 0 to |anchors|
      invariant results == Candidates(anchors[..i])
    {
      assert anchors[..i + 1][..i] == anchors[..i];
      var text := Trim(anchors[i].text);
      var href := anchors[i].href;
      if href == [] || text == [] {
        continue;
      }
      if !IsStatePageHref(href) {
        continue;
      }
      var code := StateCodeOf(text);
      if code.None? {
        continue;
      }
      results := results + [StatePage(code.value, CleanText(text), Absolutize(href))];
    }
    assert anchors[..|anchors|] == anchors;
    unique := DedupFirst(results, UrlOf);
  }

  lemma CandidatesFromAnchors(anchors: seq<Anchor>)
    ensures forall j :: 0 <= j < |Candidates(anchors)| ==>
              exists i :: 0 <= i < |anchors| && StateOfAnchor(anchors[i]) == Some(Candidates(anchors)[j])
  {
    SomesFrom(anchors, StateOfAnchor);
    forall j | 0 <= j < |Candidates(anchors)|
      ensures exists i :: 0 <= i < |anchors| && StateOfAnchor(anchors[i]) == Some(Candidates(anchors)[j])
    {
      var i :| 0 <= i < |anchors| && StateOfAnchor(anchors[i]) == Some(Somes(anchors, StateOfAnchor)[j]);
    }
    assert forall j :: 0 <= j < |Candidates(anchors)| ==>
      exists i :: 0 <= i < |anchors| && StateOfAnchor(anchors[i]) == Some(Candidates(anchors)[j]);
  }

  lemma AnchorsToCandidates(anchors: seq<Anchor>, i: int)
    requires 0 <= i < |anchors| && StateOfAnchor(anchors[i]).Some?
    ensures StateOfAnchor(anchors[i]).value in Candidates(anchors)
  {
    SomesHas(anchors, StateOfAnchor, i);
  }

  /** Every discovered page comes from an anchor on a state page that names
      a known state (with that state's code and an absolute URL). */
  lemma DiscoveredStatesSound(anchors: seq<Anchor>)
    ensures forall j :: 0 <= j < |DiscoveredStates(anchors)| ==>
              exists i :: 0 <= i < |anchors| && StateOfAnchor(anchors[i]) == Some(DiscoveredStates(anchors)[j])
  {
    CandidatesFromAnchors(anchors);
    FirstByKeyPreserves(Candidates(anchors), UrlOf,
      (p: StatePage) => exists i :: 0 <= i < |anchors| && StateOfAnchor(anchors[i]) == Some(p));
  }

  /** No URL is kept twice. */
  lemma DiscoveredStatesDistinct(anchors: seq<Anchor>)
    ensures DistinctKeys(DiscoveredStates(anchors), UrlOf)
  {
    FirstByKeyProps(Candidates(anchors), UrlOf);
  }

  /** Every kept anchor's URL is among the discovered pages. */
  lemma DiscoveredStatesComplete(anchors: seq<Anchor>, i: int)
    requires 0 <= i < |anchors| && StateOfAnchor(anchors[i]).Some?
    ensures exists j :: 0 <= j < |DiscoveredStates(anchors)| && DiscoveredStates(anchors)[j].petrolUrl == Absolutize(anchors[i].href)
  {
    var c := Candidates(anchors);
    var u := DiscoveredStates(anchors);
    FirstByKeyKeys(c, UrlOf);
    AnchorsToCandidates(anchors, i);
    var p := StateOfAnchor(anchors[i]).value;
    var k :| 0 <= k < |c| && c[k] == p;
    assert UrlOf(c[k]) in KeySet(u, UrlOf);
  }

  // ---------------------------------------------------------------------
  // The exported codes

  function UpperCodes(states: seq<StatePage>): (r: seq<string>)
    ensures |r| == |states|
    ensures forall i :: 0 <= i < |r| ==> r[i] == Upper(states[i].code)
  {
    if states == [] then [] else UpperCodes(states[..|states| - 1]) + [Upper(states[|states| - 1].code)]
  }

  /** discoverGoodreturnsStateCodes: upper-cased codes that are two letters,
      each once, sorted. */
  function StateCodes(states: seq<StatePage>): seq<string>
  {
    Sort(Distinct(Filter(UpperCodes(states), IsTwoUpperLetters)), StrLe)
  }

  lemma StateCodesProps(states: seq<StatePage>)
    ensures SortedBy(StateCodes(states), StrLe)
    ensures NoDuplicates(StateCodes(states))
    ensures forall c :: c in StateCodes(states) <==>
              IsTwoUpperLetters(c) && exists i :: 0 <= i < |states| && Upper(states[i].code) == c
  {
    var f := Filter(UpperCodes(states), IsTwoUpperLetters);
    var d := Distinct(f);
    var r := StateCodes(states);
    StrLeTotalPreorder();
    SortSorted(d, StrLe);
    DistinctProps(f);
    NoDuplicatesPermutation(d, r);
    FilterMembers(UpperCodes(states), IsTwoUpperLetters);
    forall c ensures c in r <==> c in d {
      assert c in r <==> c in multiset(r);
    }
  }
}
