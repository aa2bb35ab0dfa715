/** The city price table of one Goodreturns state page
    (fetchCityPriceMapFromStatePage and fetchPriceTableMap in
    lib/myFuelSourceBatch.ts). The page is given as its tables: caption,
    nearest heading, header cells, row count, and per row the cell texts and
    links. */
module BatchTable {
  import opened Common
  import opened Sorting
  import opened Numbers
  import opened BatchNames
  import opened BatchValidation
  import opened BatchDiscovery
  import opened Folds

  datatype Link = Link(href: string, text: string)

  /** A `tr`: the trimmed texts of its `td`/`th` cells and its anchors. */
  datatype Row = Row(cells: seq<string>, links: seq<Link>)

  /** A `table`: caption, heading found before it, the cells of its header
      row, the row count used for scoring, its rows and all its anchors. */
  datatype Table = Table(caption: string, heading: string, headerCells: seq<string>,
                         rowCount: nat, rows: seq<Row>, links: seq<Link>)

  /** A map entry: the city as written, its price, and the page slug when
      the row linked to the city page. */
  datatype CityPrice = CityPrice(city: string, price: real, slug: Option<string>)

  type PriceMap = map<string, CityPrice>

  /** Kilograms in a domestic LPG cylinder. */
  const CylinderKg: real := 14.2

  /** The fuel a state page is about, read from its URL. */
  function FuelFromUrl(url: string): FuelType
  {
    if Contains(url, "/lpg-price-in-") then Lpg
    else if Contains(url, "/cng-price-in-") then Cng
    else if Contains(url, "/diesel-price-in-") then Diesel
    else Petrol
  }

  predicate InRange(fuel: FuelType, n: real) { MinPrice(fuel) <= n <= MaxPrice(fuel) }

  // ---------------------------------------------------------------------
  // Row text

  /** Non-empty, with no space at either end. */
  predicate Trimmed(s: string) { s != [] && !IsSpace(s[0]) && !IsSpace(s[|s| - 1]) }

  /** `cells.map(clean)` */
  function CleanEach(cells: seq<string>): (r: seq<string>)
    ensures |r| == |cells|
    ensures forall i :: 0 <= i < |r| ==> r[i] == [] || Trimmed(r[i])
  {
    seq(|cells|, i requires 0 <= i < |cells| => CleanText(cells[i]))
  }

  /** `filter(Boolean)` */
  function NonEmpty(ss: seq<string>): (r: seq<string>)
    ensures forall i :: 0 <= i < |r| ==> r[i] != [] && r[i] in ss
  {
    if ss == [] then [] else if ss[0] == [] then NonEmpty(ss[1..]) else [ss[0]] + NonEmpty(ss[1..])
  }

  /** `cells.map(clean).filter(Boolean)` */
  function CleanParts(cells: seq<string>): (parts: seq<string>)
    ensures forall i :: 0 <= i < |parts| ==> Trimmed(parts[i])
  {
    NonEmpty(CleanEach(cells))
  }

  /** `/city|district|town/.test(j) && /price/.test(j)` on lower-cased text. */
  predicate IsHeaderText(j: string) {
    (Contains(j, "city") || Contains(j, "district") || Contains(j, "town")) && Contains(j, "price")
  }

  /** `w` occurs in `s` at `i` between word boundaries (`\b`). */
  predicate WordAt(s: string, w: string, i: int) {
    0 <= i && i + |w| <= |s| && s[i..i + |w|] == w
    && (i == 0 || !IsWordChar(s[i - 1]))
    && (i + |w| == |s| || !IsWordChar(s[i + |w|]))
  }

  predicate HasWord(s: string, w: string) {
    exists i | 0 <= i <= |s| - |w| :: WordAt(s, w, i)
  }

  /** `/\b(city|district|town|price)\b/i` */
  predicate HasLabelWord(p: string) {
    var l := Lower(p);
    HasWord(l, "city") || HasWord(l, "district") || HasWord(l, "town") || HasWord(l, "price")
  }

  predicate HasLetter(p: string) { exists i :: 0 <= i < |p| && IsLetter(p[i]) }

  /** A cell that can name the city: it has a letter and no label word. */
  predicate IsCityCell(p: string) { HasLetter(p) && !HasLabelWord(p) }

  /** `parts.find(isCityCell)` */
  function FirstCityCell(parts: seq<string>): (r: Option<string>)
    ensures r.Some? ==> IsCityCell(r.value)
                        && exists i :: 0 <= i < |parts| && parts[i] == r.value
                                       && forall j :: 0 <= j < i ==> !IsCityCell(parts[j])
    ensures r.None? ==> forall i :: 0 <= i < |parts| ==> !IsCityCell(parts[i])
  {
    if parts == [] then None
    else if IsCityCell(parts[0]) then Some(parts[0])
    else
      var r := FirstCityCell(parts[1..]);
      if r.Some? then
        var i :| 0 <= i < |parts| - 1 && parts[1..][i] == r.value
                 && forall j :: 0 <= j < i ==> !IsCityCell(parts[1..][j]);
        assert parts[i + 1] == r.value;
        assert forall j :: 0 <= j < i + 1 ==> !IsCityCell(parts[j]) by {
          forall j | 0 <= j < i + 1 ensures !IsCityCell(parts[j]) {
            if j > 0 { assert parts[j] == parts[1..][j - 1]; }
          }
        }
        r
      else r
  }

  // ---------------------------------------------------------------------
  // Price candidates of a row

  datatype Candidate = Candidate(n: real, hasRupee: bool)

  /** The LPG rule: a per-kg value below the range is taken ×14.2 when the
      cylinder price lands in the range; any other value is kept. */
  function AdjustLpg(fuel: FuelType, n: real): (r: real)
    ensures r == n || r == n * CylinderKg
  {
    if fuel == Lpg && n < MinPrice(fuel) && InRange(fuel, n * CylinderKg) then n * CylinderKg else n
  }

  /** addRow's candidate from one cell: its price, after the LPG rule, when
      inside the fuel's range; `hasRupee` marks a '₹' in the cell. */
  function RowCellCandidate(p: string, fuel: FuelType): (c: Option<Candidate>)
    ensures c.Some? ==> InRange(fuel, c.value.n)
  {
    match ParsePrice(p)
    case None => None
    case Some(n) =>
      var a := AdjustLpg(fuel, n);
      if InRange(fuel, a) then Some(Candidate(a, Contains(p, "₹"))) else None
  }

  /** The anchor-table strategy's candidate from one cell: its price when
      not below the minimum (no maximum, no LPG rule). */
  function LinkCellCandidate(p: string, fuel: FuelType): (c: Option<Candidate>)
    ensures c.Some? ==> c.value.n >= MinPrice(fuel)
  {
    match ParsePrice(p)
    case None => None
    case Some(n) => if n >= MinPrice(fuel) then Some(Candidate(n, Contains(p, "₹"))) else None
  }

  /** The present values, in order. */
  function Present(os: seq<Option<Candidate>>): (r: seq<Candidate>)
    ensures forall i :: 0 <= i < |r| ==> Some(r[i]) in os
  {
    if os == [] then []
    else if os[0].None? then Present(os[1..])
    else [os[0].value] + Present(os[1..])
  }

  function RowCandidates(parts: seq<string>, fuel: FuelType): (cs: seq<Candidate>)
    ensures forall i :: 0 <= i < |cs| ==> InRange(fuel, cs[i].n)
  {
    var os := seq(|parts|, i requires 0 <= i < |parts| => RowCellCandidate(parts[i], fuel));
    var cs := Present(os);
    assert forall i :: 0 <= i < |cs| ==> InRange(fuel, cs[i].n) by {
      forall i | 0 <= i < |cs| ensures InRange(fuel, cs[i].n) {
        var j :| 0 <= j < |os| && os[j] == Some(cs[i]);
      }
    }
    cs
  }

  function LinkRowCandidates(parts: seq<string>, fuel: FuelType): (cs: seq<Candidate>)
    ensures forall i :: 0 <= i < |cs| ==> cs[i].n >= MinPrice(fuel)
  {
    var os := seq(|parts|, i requires 0 <= i < |parts| => LinkCellCandidate(parts[i], fuel));
    var cs := Present(os);
    assert forall i :: 0 <= i < |cs| ==> cs[i].n >= MinPrice(fuel) by {
      forall i | 0 <= i < |cs| ensures cs[i].n >= MinPrice(fuel) {
        var j :| 0 <= j < |os| && os[j] == Some(cs[i]);
      }
    }
    cs
  }

  function RupeeOnly(cs: seq<Candidate>): (r: seq<Candidate>)
    ensures forall i :: 0 <= i < |r| ==> r[i].hasRupee && r[i] in cs
    ensures forall c :: c in cs && c.hasRupee ==> c in r
  {
    if cs == [] then [] else (if cs[0].hasRupee then [cs[0]] else []) + RupeeOnly(cs[1..])
  }

  /** `reduce((best, cur) => cur.n > best.n ? cur : best)`: the position
      of the largest value, the earliest one on a tie. */
  function LargestIndex(cs: seq<Candidate>): (i: nat)
    requires cs != []
    ensures i < |cs|
    ensures forall j :: 0 <= j < |cs| ==> cs[j].n <= cs[i].n
    ensures forall j :: 0 <= j < i ==> cs[j].n < cs[i].n
    decreases |cs|
  {
    if |cs| == 1 then 0
    else
      var init := cs[..|cs| - 1];
      var b := LargestIndex(init);
      assert forall j :: 0 <= j < |init| ==> init[j] == cs[j];
      if cs[|cs| - 1].n > cs[b].n then |cs| - 1 else b
  }

  function Largest(cs: seq<Candidate>): (r: Candidate)
    requires cs != []
    ensures r in cs && forall c :: c in cs ==> c.n <= r.n
  {
    cs[LargestIndex(cs)]
  }

  /** The price of a row: the largest candidate, among the '₹' ones when
      there are any. */
  function ChosenPrice(cs: seq<Candidate>): (p: real)
    requires cs != []
  {
    var pool := if RupeeOnly(cs) != [] then RupeeOnly(cs) else cs;
    Largest(pool).n
  }

  lemma ChosenPriceProps(cs: seq<Candidate>)
    requires cs != []
    ensures exists c :: c in cs && c.n == ChosenPrice(cs) && ((exists d :: d in cs && d.hasRupee) ==> c.hasRupee)
    ensures forall c :: c in cs && (c.hasRupee || !(exists d :: d in cs && d.hasRupee)) ==> c.n <= ChosenPrice(cs)
  {
    var r := RupeeOnly(cs);
    if r != [] {
      var b := Largest(r);
      assert b in r;
    } else {
      assert forall d :: d in cs ==> !d.hasRupee;
    }
  }

  // ---------------------------------------------------------------------
  // addRow

  /** The entry a row of a header-matched table yields, whatever the map
      already holds: at least two non-empty cleaned cells, not a header
      row, a city cell that does not name another state, and an in-range
      price candidate. */
  function RowEntry(cells: seq<string>, stateNorm: string, fuel: FuelType): (r: Option<CityPrice>)
    ensures r.Some? ==> NormalizeCityName(r.value.city) != [] && InRange(fuel, r.value.price) && r.value.slug.None?
  {
    var parts := CleanParts(cells);
    if |parts| < 2 || IsHeaderText(Lower(Join(parts, ' '))) then None
    else
      match FirstCityCell(parts)
      case None => None
      case Some(cell) =>
        var city := Trim(cell);
        var asState := NormalizeStateName(city);
        if stateNorm != [] && IsStateName(asState) && asState != stateNorm then None
        else if NormalizeCityName(city) == [] then None
        else
          var cs := RowCandidates(parts, fuel);
          if cs == [] then None
          else
            ChosenPriceProps(cs);
            Some(CityPrice(city, ChosenPrice(cs), None))
  }

  /** A row yields an entry only if it has two non-empty cells and is not a
      header row; its city is the first cell that has a letter and no label
      word, and does not name another state. */
  lemma RowEntryCity(cells: seq<string>, stateNorm: string, fuel: FuelType)
    requires RowEntry(cells, stateNorm, fuel).Some?
    ensures |CleanParts(cells)| >= 2 && !IsHeaderText(Lower(Join(CleanParts(cells), ' ')))
    ensures var e := RowEntry(cells, stateNorm, fuel).value;
            var parts := CleanParts(cells);
            && IsCityCell(e.city)
            && (exists i :: 0 <= i < |parts| && parts[i] == e.city && forall j :: 0 <= j < i ==> !IsCityCell(parts[j]))
            && (stateNorm == [] || !IsStateName(NormalizeStateName(e.city)) || NormalizeStateName(e.city) == stateNorm)
  {
    var parts := CleanParts(cells);
    var cell := FirstCityCell(parts).value;
    var i :| 0 <= i < |parts| && parts[i] == cell && forall j :: 0 <= j < i ==> !IsCityCell(parts[j]);
    TrimOfTrimmed(cell);
  }

  /** A row's price is the largest of its in-range candidates, among the
      '₹' ones when there are any. */
  lemma RowEntryPrice(cells: seq<string>, stateNorm: string, fuel: FuelType)
    requires RowEntry(cells, stateNorm, fuel).Some?
    ensures var cs := RowCandidates(CleanParts(cells), fuel);
            && cs != []
            && RowEntry(cells, stateNorm, fuel).value.price == ChosenPrice(cs)
  {
  }

  /** An entry keyed by its city's normal form, the key under which addRow
      stores it unless that key is already taken. */
  function Keyed(e: Option<CityPrice>): (r: Option<(string, CityPrice)>)
    ensures r.Some? <==> e.Some?
    ensures r.Some? ==> r.value.1 == e.value && r.value.0 == NormalizeCityName(e.value.city)
  {
    match e
    case None => None
    case Some(p) => Some((NormalizeCityName(p.city), p))
  }

  /** addRow's entry for a row of a header-matched table. */
  function RowKeyed(stateNorm: string, fuel: FuelType): Row -> Option<(string, CityPrice)>
  {
    (row: Row) => Keyed(RowEntry(row.cells, stateNorm, fuel))
  }

  /** The step of `.each(tr => addRow(cells))`: a city already in the map
      keeps its first entry. */
  function RowStep(stateNorm: string, fuel: FuelType): (PriceMap, Row) -> PriceMap
  {
    InsertNew(RowKeyed(stateNorm, fuel))
  }

  /** Entries are keyed by their city's normal form and priced inside the
      fuel's range. */
  predicate RangedEntries(m: PriceMap, fuel: FuelType) {
    forall k :: k in m ==> k != [] && k == NormalizeCityName(m[k].city) && InRange(fuel, m[k].price) && m[k].slug.None?
  }

  /** Running addRow over a table's rows never overwrites an entry, and
      keeps every entry keyed by its city and priced in range. */
  lemma AddRowsRanged(m: PriceMap, rows: seq<Row>, stateNorm: string, fuel: FuelType)
    requires RangedEntries(m, fuel)
    ensures RangedEntries(Fold(m, rows, RowStep(stateNorm, fuel)), fuel)
    ensures Extends(Fold(m, rows, RowStep(stateNorm, fuel)), m)
  {
    InsertNewKeeps(m, rows, RowKeyed(stateNorm, fuel),
      (k: string, e: CityPrice) => k != [] && k == NormalizeCityName(e.city) && InRange(fuel, e.price) && e.slug.None?);
  }

  /** From an empty map, a city is in the map read from a table exactly
      when some row yields it, and its entry is that of the first such row. */
  lemma AddRowsFirstWins(rows: seq<Row>, stateNorm: string, fuel: FuelType, k: string)
    ensures var m := Fold(map[], rows, RowStep(stateNorm, fuel));
            && (k in m <==> exists i :: 0 <= i < |rows| && YieldsKey(RowKeyed(stateNorm, fuel), rows[i], k))
            && (k in m ==> exists i :: 0 <= i < |rows| && RowKeyed(stateNorm, fuel)(rows[i]) == Some((k, m[k]))
                                       && forall j :: 0 <= j < i ==> !YieldsKey(RowKeyed(stateNorm, fuel), rows[j], k))
  {
    InsertNewFirstWins(rows, RowKeyed(stateNorm, fuel), k);
  }

  /** The LPG rule changes a value exactly when it converts a per-kg price
      below 100 into a cylinder price between 100 and 2500. */
  lemma LpgRule(fuel: FuelType, n: real)
    ensures AdjustLpg(fuel, n) != n <==> fuel == Lpg && n < 100.0 && 100.0 <= n * CylinderKg <= 2500.0
  {
  }

  // ---------------------------------------------------------------------
  // Links

  /** Length of the leading run of characters other than '.' and '/'. */
  function NonDotSlashRun(s: string): (n: nat)
    ensures n <= |s| && forall i :: 0 <= i < n ==> s[i] != '.' && s[i] != '/'
  {
    if s == [] || s[0] == '.' || s[0] == '/' then 0 else 1 + NonDotSlashRun(s[1..])
  }

  /** `(petrol|diesel|lpg|cng)-price-in-([^./]+)\.html` (any letter case) at
      the start of `h`: the second group. The greedy group stops at the
      first '.' or '/', so no other split can match. */
  function PriceLinkSlugAt(h: string): (r: Option<string>)
    ensures r.Some? ==> r.value != []
  {
    var l := Lower(h);
    var w := if StartsWith(l, "petrol") then 6
             else if StartsWith(l, "diesel") then 6
             else if StartsWith(l, "lpg") || StartsWith(l, "cng") then 3
             else 0;
    if w == 0 || |h| < w + 10 || l[w..w + 10] != "-price-in-" then None
    else
      var rest := h[w + 10..];
      var n := NonDotSlashRun(rest);
      if n >= 1 && |rest| >= n + 5 && Lower(rest[n..n + 5]) == ".html" then Some(rest[..n]) else None
  }

  /** `href.match(priceLinkRe)`: the leftmost match. */
  function FindPriceLinkSlug(h: string): (r: Option<string>)
    ensures r.Some? ==> r.value != []
  {
    if h == [] then None
    else if PriceLinkSlugAt(h).Some? then PriceLinkSlugAt(h)
    else FindPriceLinkSlug(h[1..])
  }

  /** `/-price-in-.*-s\d+\.html/i`: a link to a state page. */
  predicate MatchesStateLink(h: string)
    decreases |h|
  {
    (|h| >= 10 && Lower(h[..10]) == "-price-in-" && TailMatches(h[10..]))
    || (h != [] && MatchesStateLink(h[1..]))
  }

  /** `a[href*='-price-in-']` */
  predicate IsPriceLink(l: Link) {
    Contains(l.href, "-price-in-")
  }

  /** The links the selector matches: every matching link, in page order. */
  function PriceLinks(links: seq<Link>): (r: seq<Link>)
    ensures forall i :: 0 <= i < |r| ==> Contains(r[i].href, "-price-in-") && r[i] in links
    ensures exists idx :: PicksAt(r, links, IsPriceLink, idx)
  {
    FilterMembers(links, IsPriceLink);
    FilterPicks(links, IsPriceLink);
    Filter(links, IsPriceLink)
  }

  /** getCityFromLinkEl: the trimmed text of a link to a fuel price page
      that is not a state page, unless the text names another state. */
  function LinkCity(l: Link, stateNorm: string): (r: Option<string>)
    ensures r.Some? ==> r.value != [] && FindPriceLinkSlug(l.href).Some? && !MatchesStateLink(l.href)
  {
    if l.href == [] || MatchesStateLink(l.href) || FindPriceLinkSlug(l.href).None? then None
    else
      var city := Trim(l.text);
      if city == [] then None
      else
        var ns := NormalizeStateName(city);
        if IsStateName(ns) && ns != stateNorm then None else Some(city)
  }

  /** getSlugFromLinkEl */
  function LinkSlug(l: Link): Option<string>
  {
    if l.href == [] || MatchesStateLink(l.href) then None else FindPriceLinkSlug(l.href)
  }

  /** The number of links of a table that name a city. */
  function LinkCount(links: seq<Link>, stateNorm: string): nat
  {
    if links == [] then 0
    else (if LinkCity(links[0], stateNorm).Some? then 1 else 0) + LinkCount(links[1..], stateNorm)
  }

  /** `.find(a => getCityFromLinkEl(a))` */
  function FirstCityLink(links: seq<Link>, stateNorm: string): (r: Option<Link>)
    ensures r.Some? ==> r.value in links && LinkCity(r.value, stateNorm).Some?
    ensures r.Some? ==> exists i :: 0 <= i < |links| && links[i] == r.value &&
                          forall j :: 0 <= j < i ==> LinkCity(links[j], stateNorm).None?
    ensures r.None? ==> forall l :: l in links ==> LinkCity(l, stateNorm).None?
  {
    match FindIndex(links, (l: Link) => LinkCity(l, stateNorm).Some?)
    case None => None
    case Some(i) => Some(links[i])
  }

  /** The entry a row of the chosen anchor table yields: the city of its
      first city link, the largest candidate not below the minimum (from
      the '₹' cells when any), and the link's slug. */
  function LinkRowEntry(row: Row, stateNorm: string, fuel: FuelType): (r: Option<CityPrice>)
    ensures r.Some? ==> NormalizeCityName(r.value.city) != [] && r.value.price >= MinPrice(fuel) && r.value.slug.Some?
  {
    match FirstCityLink(PriceLinks(row.links), stateNorm)
    case None => None
    case Some(l) =>
      var city := LinkCity(l, stateNorm).value;
      var cs := LinkRowCandidates(row.cells, fuel);
      if NormalizeCityName(city) == [] || cs == [] then None
      else
        ChosenPriceProps(cs);
        Some(CityPrice(city, ChosenPrice(cs), LinkSlug(l)))
  }

  /** The anchor table's entry for a row. */
  function LinkRowKeyed(stateNorm: string, fuel: FuelType): Row -> Option<(string, CityPrice)>
  {
    (row: Row) => Keyed(LinkRowEntry(row, stateNorm, fuel))
  }

  /** The step of the anchor table's row loop: a city already in the map
      keeps its first entry. */
  function LinkRowStep(stateNorm: string, fuel: FuelType): (PriceMap, Row) -> PriceMap
  {
    InsertNew(LinkRowKeyed(stateNorm, fuel))
  }

  /** Entries of the anchor strategy: keyed by their city's normal form,
      not below the minimum, and carrying the slug of their link. */
  predicate AnchorEntries(m: PriceMap, fuel: FuelType) {
    forall k :: k in m ==> k != [] && k == NormalizeCityName(m[k].city) && m[k].price >= MinPrice(fuel) && m[k].slug.Some?
  }

  /** Running the anchor table's rows never overwrites an entry, and keeps
      every entry keyed, not below the minimum and with its slug. */
  lemma AddLinkRowsProps(m: PriceMap, rows: seq<Row>, stateNorm: string, fuel: FuelType)
    requires AnchorEntries(m, fuel)
    ensures AnchorEntries(Fold(m, rows, LinkRowStep(stateNorm, fuel)), fuel)
    ensures Extends(Fold(m, rows, LinkRowStep(stateNorm, fuel)), m)
  {
    InsertNewKeeps(m, rows, LinkRowKeyed(stateNorm, fuel),
      (k: string, e: CityPrice) => k != [] && k == NormalizeCityName(e.city) && e.price >= MinPrice(fuel) && e.slug.Some?);
  }

  // ---------------------------------------------------------------------
  // Table context and scores

  /** `${caption} ${heading}` */
  function Context(t: Table): string { t.caption + " " + t.heading }

  /** `/major cities|metro cities|top cities|india/` on the lower-cased context. */
  predicate IsAggregateContext(ctx: string) {
    var l := Lower(ctx);
    Contains(l, "major cities") || Contains(l, "metro cities") || Contains(l, "top cities") || Contains(l, "india")
  }

  /** Two table names of the same state. */
  predicate SameState(k: string, stateNorm: string) {
    k == stateNorm || (StateCodeOfName(stateNorm).Some? && StateCodeOfName(k) == StateCodeOfName(stateNorm))
  }

  /** ctxMentionsOtherState, as intended: the context contains a name from
      the state table that belongs to a different state. */
  predicate MentionsOtherState(ctxNorm: string, stateNorm: string) {
    stateNorm != [] && ctxNorm != []
    && exists k :: k in StateNameToCode && !SameState(k, stateNorm) && Contains(ctxNorm, k)
  }

  /** ctxMentionsOtherState as written: any other table key counts, even a
      longer name of the same state. */
  predicate MentionsOtherStateAsWritten(ctxNorm: string, stateNorm: string) {
    stateNorm != [] && ctxNorm != []
    && exists k :: k in StateNameToCode && k != stateNorm && Contains(ctxNorm, k)
  }

  /** As written, the heading of the Andaman and Nicobar Islands table
      counts as naming another state, because the table's longer key
      for the same state differs from the page's; as intended it names
      no other state. */
  lemma AndamanHeadingCounterexample()
    ensures var ctx := "andaman and nicobar islands";
            var sn := "andaman and nicobar";
            MentionsOtherStateAsWritten(ctx, sn) && !MentionsOtherState(ctx, sn)
  {
    var ctx := "andaman and nicobar islands";
    var sn := "andaman and nicobar";
    ContainsSelf(ctx);
    assert ctx in StateNameToCode && ctx != sn;
    forall k | k in StateNameToCode && Contains(ctx, k) ensures SameState(k, sn) {
      if k !in AndamanNames {
        StateKeyLetters(k);
        LettersNotInAndamanHeading(k);
      }
      assert StateCodeOfName(k) == Some("AN");
    }
  }

  /** A name with one of the letters h, p, e, u, t, g, k, z, or either of
      "assam" and "orissa", does not occur in the Andaman and Nicobar
      Islands heading. */
  lemma LettersNotInAndamanHeading(k: string)
    requires || 'h' in k || 'p' in k || 'e' in k || 'u' in k || 't' in k || 'g' in k || 'k' in k || 'z' in k
             || k == "assam" || k == "orissa"
    ensures !Contains("andaman and nicobar islands", k)
  {
    var ctx := "andaman and nicobar islands";
    if 'h' in k { NotContainsChar(ctx, k, 'h'); }
    else if 'p' in k { NotContainsChar(ctx, k, 'p'); }
    else if 'e' in k { NotContainsChar(ctx, k, 'e'); }
    else if 'u' in k { NotContainsChar(ctx, k, 'u'); }
    else if 't' in k { NotContainsChar(ctx, k, 't'); }
    else if 'g' in k { NotContainsChar(ctx, k, 'g'); }
    else if 'k' in k { NotContainsChar(ctx, k, 'k'); }
    else if 'z' in k { NotContainsChar(ctx, k, 'z'); }
    else if k == "assam" { NotContainsPair(ctx, k, 1); }
    else { NotContainsPair(ctx, k, 3); }
  }

  /** Every name of a state other than Andaman and Nicobar has a letter
      that "andaman and nicobar islands" lacks, or is "assam" or "orissa",
      whose "ss" it lacks too. */
  lemma StateKeyLetters(k: string)
    requires k in OtherStateNames
    ensures || 'h' in k || 'p' in k || 'e' in k || 'u' in k || 't' in k || 'g' in k || 'k' in k || 'z' in k
            || k == "assam" || k == "orissa"
  {
  }

  /** +50 for naming the target state, −200 for naming another, −1000 for
      an all-India or metro-cities table. */
  function ContextScore(t: Table, stateNorm: string): int
  {
    var ctxNorm := NormalizeStateName(Context(t));
    (if stateNorm != [] && Contains(ctxNorm, stateNorm) then 50 else 0)
    + (if MentionsOtherState(ctxNorm, stateNorm) then -200 else 0)
    + (if IsAggregateContext(Context(t)) then -1000 else 0)
  }

  /** A candidate table: its index on the page and its score. */
  datatype Scored = Scored(index: nat, score: int)

  /** An anchor-table candidate: a table with at least one city link,
      scored by its link count plus the context score. */
  function AnchorCandidate(t: Table, i: nat, stateNorm: string): (r: seq<Scored>)
    ensures |r| <= 1 && forall c :: c in r ==> c.index == i
  {
    var count := LinkCount(PriceLinks(t.links), stateNorm);
    if count == 0 then [] else [Scored(i, count + ContextScore(t, stateNorm))]
  }

  /** The anchor-table candidates of a page, in page order. */
  function AnchorTableScores(tables: seq<Table>, stateNorm: string): (r: seq<Scored>)
    ensures forall c :: c in r ==> c.index < |tables|
    decreases |tables|
  {
    if tables == [] then []
    else
      AnchorTableScores(tables[..|tables| - 1], stateNorm)
        + AnchorCandidate(tables[|tables| - 1], |tables| - 1, stateNorm)
  }

  /** The header test of getHeaderJoined. */
  predicate HeaderMatches(t: Table) {
    var h := Lower(Join(t.headerCells, ' '));
    Contains(h, "price") && (Contains(h, "city") || Contains(h, "district") || Contains(h, "town"))
  }

  function Min(a: int, b: int): int { if a <= b then a else b }

  /** A header-table candidate: a header-matched table, scored by context
      plus min(30, rows). */
  function HeaderCandidate(t: Table, i: nat, stateNorm: string): (r: seq<Scored>)
    ensures |r| <= 1 && forall c :: c in r ==> c.index == i
  {
    if HeaderMatches(t) then [Scored(i, ContextScore(t, stateNorm) + Min(30, t.rowCount))] else []
  }

  /** The header-table candidates of a page, in page order. */
  function HeaderTableScores(tables: seq<Table>, stateNorm: string): (r: seq<Scored>)
    ensures forall c :: c in r ==> c.index < |tables|
    decreases |tables|
  {
    if tables == [] then []
    else
      HeaderTableScores(tables[..|tables| - 1], stateNorm)
        + HeaderCandidate(tables[|tables| - 1], |tables| - 1, stateNorm)
  }

  /** The `$("table").each` loop pushing anchor-table candidates. */
  method ScoreAnchorTables(tables: seq<Table>, stateNorm: string) returns (cands: seq<Scored>)
    ensures cands == AnchorTableScores(tables, stateNorm)
  {
    cands := [];
    for i := 0 to |tables|
      invariant cands == AnchorTableScores(tables[..i], stateNorm)
    {
      assert tables[..i + 1][..i] == tables[..i];
      cands := cands + AnchorCandidate(tables[i], i, stateNorm);
    }
    assert tables[..|tables|] == tables;
  }

  /** The `$("table").each` loop pushing header-table candidates. */
  method ScoreHeaderTables(tables: seq<Table>, stateNorm: string) returns (cands: seq<Scored>)
    ensures cands == HeaderTableScores(tables, stateNorm)
  {
    cands := [];
    for i := 0 to |tables|
      invariant cands == HeaderTableScores(tables[..i], stateNorm)
    {
      assert tables[..i + 1][..i] == tables[..i];
      cands := cands + HeaderCandidate(tables[i], i, stateNorm);
    }
    assert tables[..|tables|] == tables;
  }

  function ScoreDesc(a: Scored, b: Scored): bool { a.score >= b.score }

  /** `candidates.sort((a, b) => b.score - a.score)[0]` */
  function BestTable(cands: seq<Scored>): (r: Option<Scored>)
    ensures r.None? <==> cands == []
    ensures r.Some? ==> r.value in cands
  {
    if cands == [] then None
    else
      var sorted := Sort(cands, ScoreDesc);
      assert sorted[0] in multiset(cands);
      Some(sorted[0])
  }

  lemma {:induction false} FilterFirst<T>(s: seq<T>, p: T -> bool)
    requires Filter(s, p) != []
    ensures exists i :: 0 <= i < |s| && s[i] == Filter(s, p)[0] && p(s[i]) && forall j :: 0 <= j < i ==> !p(s[j])
  {
    if !p(s[0]) {
      FilterFirst(s[1..], p);
      var i :| 0 <= i < |s| - 1 && s[1..][i] == Filter(s[1..], p)[0] && p(s[1..][i])
               && forall j :: 0 <= j < i ==> !p(s[1..][j]);
      assert s[i + 1] == s[1..][i];
      assert forall j :: 0 <= j < i + 1 ==> !p(s[j]) by {
        forall j | 0 <= j < i + 1 ensures !p(s[j]) {
          if j > 0 { assert s[j] == s[1..][j - 1]; }
        }
      }
    }
  }

  /** The stable sort puts first the earliest table with the highest score. */
  lemma BestTableIsFirstMax(cands: seq<Scored>)
    requires cands != []
    ensures BestTable(cands).value in cands
    ensures forall c :: c in cands ==> c.score <= BestTable(cands).value.score
    ensures exists i :: 0 <= i < |cands| && cands[i] == BestTable(cands).value
                        && forall j :: 0 <= j < i ==> cands[j].score < BestTable(cands).value.score
  {
    var sorted := Sort(cands, ScoreDesc);
    var b := sorted[0];
    assert TotalPreorder(ScoreDesc);
    SortSorted(cands, ScoreDesc);
    assert b in multiset(cands);
    forall c | c in cands ensures c.score <= b.score {
      assert c in multiset(sorted);
      var k :| 0 <= k < |sorted| && sorted[k] == c;
      if k > 0 { assert ScoreDesc(sorted[0], sorted[k]); }
    }
    var p := (c: Scored) => c.score == b.score;
    assert IsClassOf(p, ScoreDesc);
    SortStable(cands, ScoreDesc, p);
    assert Filter(sorted, p)[0] == b;
    FilterFirst(cands, p);
  }

  // ---------------------------------------------------------------------
  // The page

  /** A table the unscored fallback reads: header-matched, neither an
      aggregate table nor about another state. */
  predicate FallbackTable(t: Table, stateNorm: string) {
    HeaderMatches(t) && !IsAggregateContext(Context(t))
    && !MentionsOtherState(NormalizeStateName(Context(t)), stateNorm)
  }

  /** The step of the fallback's table loop: every row of an acceptable
      table through addRow. */
  function TableStep(stateNorm: string, fuel: FuelType): (PriceMap, Table) -> PriceMap
  {
    (acc: PriceMap, t: Table) =>
      if FallbackTable(t, stateNorm) then Fold(acc, t.rows, RowStep(stateNorm, fuel)) else acc
  }

  /** The anchor-table strategy: the rows of the best anchor table, when
      its score is positive. */
  function AnchorStage(tables: seq<Table>, stateNorm: string, fuel: FuelType): PriceMap
  {
    StageOf(tables, BestTable(AnchorTableScores(tables, stateNorm)), LinkRowStep(stateNorm, fuel))
  }

  /** The rows of the best table walked with `step`, when its score is
      positive; nothing otherwise. */
  function StageOf(tables: seq<Table>, best: Option<Scored>, step: (PriceMap, Row) -> PriceMap): PriceMap
    requires best.Some? ==> best.value.index < |tables|
  {
    if best.Some? && best.value.score > 0
    then Fold(map[], tables[best.value.index].rows, step) else map[]
  }

  /** StageOf, step by step. */
  method RunStage(tables: seq<Table>, best: Option<Scored>, step: (PriceMap, Row) -> PriceMap) returns (m: PriceMap)
    requires best.Some? ==> best.value.index < |tables|
    ensures m == StageOf(tables, best, step)
  {
    m := map[];
    if best.Some? && best.value.score > 0 {
      m := FoldLoop(m, tables[best.value.index].rows, step);
    }
  }

  /** The header strategy: the rows of the best header-matched table, when
      its score is positive. */
  function HeaderStage(tables: seq<Table>, stateNorm: string, fuel: FuelType): PriceMap
  {
    StageOf(tables, BestTable(HeaderTableScores(tables, stateNorm)), RowStep(stateNorm, fuel))
  }

  /** The unscored fallback over all tables. */
  function FallbackStage(tables: seq<Table>, stateNorm: string, fuel: FuelType): PriceMap
  {
    Fold(map[], tables, TableStep(stateNorm, fuel))
  }

  /** fetchCityPriceMapFromStatePage, with the page given (None when the
      fetch failed): the anchor strategy if it yields a row; else the
      header strategy; else, when still empty, every acceptable
      header-matched table. */
  function CityPriceMap(page: Option<seq<Table>>, url: string, stateName: string): PriceMap
  {
    match page
    case None => map[]
    case Some(tables) =>
      var fuel := FuelFromUrl(url);
      var stateNorm := NormalizeStateName(stateName);
      var m1 := AnchorStage(tables, stateNorm, fuel);
      if |m1| > 0 then m1
      else
        var m2 := HeaderStage(tables, stateNorm, fuel);
        if |m2| > 0 then m2 else FallbackStage(tables, stateNorm, fuel)
  }

  /** The fallback loop over all tables. */
  method FallbackTables(tables: seq<Table>, stateNorm: string, fuel: FuelType) returns (m: PriceMap)
    ensures m == FallbackStage(tables, stateNorm, fuel)
  {
    m := map[];
    for i := 0 to |tables|
      invariant m == Fold(map[], tables[..i], TableStep(stateNorm, fuel))
    {
      assert tables[..i + 1][..i] == tables[..i];
      var t := tables[i];
      if FallbackTable(t, stateNorm) {
        m := FoldLoop(m, t.rows, RowStep(stateNorm, fuel));
      }
    }
    assert tables[..|tables|] == tables;
  }

  /** The anchor-table strategy, step by step. */
  method AnchorTables(tables: seq<Table>, stateNorm: string, fuel: FuelType) returns (m: PriceMap)
    ensures m == AnchorStage(tables, stateNorm, fuel)
  {
    var cands := ScoreAnchorTables(tables, stateNorm);
    m := RunStage(tables, BestTable(cands), LinkRowStep(stateNorm, fuel));
  }

  /** The header strategy, step by step. */
  method HeaderTables(tables: seq<Table>, stateNorm: string, fuel: FuelType) returns (m: PriceMap)
    ensures m == HeaderStage(tables, stateNorm, fuel)
  {
    var cands := ScoreHeaderTables(tables, stateNorm);
    m := RunStage(tables, BestTable(cands), RowStep(stateNorm, fuel));
  }

  /** The whole procedure, step by step as the page is walked. */
  method FetchCityPriceMap(page: Option<seq<Table>>, url: string, stateName: string) returns (m: PriceMap)
    ensures m == CityPriceMap(page, url, stateName)
  {
    if page.None? {
      return map[];
    }
    var tables := page.value;
    var fuel := FuelFromUrl(url);
    var stateNorm := NormalizeStateName(stateName);
    m := AnchorTables(tables, stateNorm, fuel);
    if |m| > 0 {
      return;
    }
    m := HeaderTables(tables, stateNorm, fuel);
    if |m| == 0 {
      m := FallbackTables(tables, stateNorm, fuel);
    }
  }

  lemma FallbackRanged(tables: seq<Table>, stateNorm: string, fuel: FuelType)
    ensures RangedEntries(FallbackStage(tables, stateNorm, fuel), fuel)
  {
    TableStepKeepsRanged(stateNorm, fuel);
    FoldInvariant(map[], tables, TableStep(stateNorm, fuel), (a: PriceMap) => RangedEntries(a, fuel));
  }

  /** Every fallback table keeps every entry inside the range. */
  lemma TableStepKeepsRanged(stateNorm: string, fuel: FuelType)
    ensures forall a, t :: RangedEntries(a, fuel) ==> RangedEntries(TableStep(stateNorm, fuel)(a, t), fuel)
  {
    forall a, t | RangedEntries(a, fuel) ensures RangedEntries(TableStep(stateNorm, fuel)(a, t), fuel) {
      TableStepRanged(a, t, stateNorm, fuel);
    }
  }

  /** One fallback table keeps every entry inside the range. */
  lemma TableStepRanged(a: PriceMap, t: Table, stateNorm: string, fuel: FuelType)
    requires RangedEntries(a, fuel)
    ensures RangedEntries(TableStep(stateNorm, fuel)(a, t), fuel)
  {
    if FallbackTable(t, stateNorm) {
      AddRowsRanged(a, t.rows, stateNorm, fuel);
    }
  }

  lemma AnchorStageEntries(tables: seq<Table>, stateNorm: string, fuel: FuelType)
    ensures AnchorEntries(AnchorStage(tables, stateNorm, fuel), fuel)
  {
    var best := BestTable(AnchorTableScores(tables, stateNorm));
    if best.Some? && best.value.score > 0 {
      AddLinkRowsProps(map[], tables[best.value.index].rows, stateNorm, fuel);
    }
  }

  lemma HeaderStageRanged(tables: seq<Table>, stateNorm: string, fuel: FuelType)
    ensures RangedEntries(HeaderStage(tables, stateNorm, fuel), fuel)
  {
    var best := BestTable(HeaderTableScores(tables, stateNorm));
    if best.Some? && best.value.score > 0 {
      AddRowsRanged(map[], tables[best.value.index].rows, stateNorm, fuel);
    }
  }

  /** Every entry of the page's map is keyed by its city's normal form and
      priced at least at the fuel's minimum; an entry read from an anchor
      table carries a slug, and one without a slug (from a header-matched
      table) is inside the whole range. */
  lemma CityPriceMapEntries(page: Option<seq<Table>>, url: string, stateName: string)
    ensures var m := CityPriceMap(page, url, stateName);
            forall k :: k in m ==>
              && k != [] && k == NormalizeCityName(m[k].city)
              && m[k].price >= MinPrice(FuelFromUrl(url))
              && (m[k].slug.None? ==> InRange(FuelFromUrl(url), m[k].price))
  {
    if page.Some? {
      var tables := page.value;
      var fuel := FuelFromUrl(url);
      var stateNorm := NormalizeStateName(stateName);
      AnchorStageEntries(tables, stateNorm, fuel);
      HeaderStageRanged(tables, stateNorm, fuel);
      FallbackRanged(tables, stateNorm, fuel);
    }
  }

  // ---------------------------------------------------------------------
  // fetchPriceTableMap (the Kerala LPG and CNG tables)

  /** One `tr` of the selected tables: not a header row, the first cell as
      the city key and the digits and dots of the second as the number. */
  function PlainRowEntry(tds: seq<string>): (r: Option<(string, real)>)
    ensures r.Some? ==> r.value.0 != [] && r.value.1 >= 0.0
  {
    if |tds| < 2 || IsHeaderText(Lower(Join(tds, ' '))) then None
    else
      var key := NormalizeCityName(tds[0]);
      var n := ParseDecimalPrefix(KeepDigitsAndDots(tds[1]));
      if key != [] && n.Some? then Some((key, n.value)) else None
  }

  /** The row loop's step: a later row for the same key overwrites an
      earlier one. */
  function PlainStep(): (map<string, real>, seq<string>) -> map<string, real>
  {
    Upsert(PlainRowEntry)
  }

  /** fetchPriceTableMap with the `td` texts of its rows given; the
      whole-body text scan used when no row yields a value is not modelled. */
  method FetchPriceTableMap(rows: seq<seq<string>>) returns (m: map<string, real>)
    ensures m == Fold(map[], rows, PlainStep())
  {
    m := FoldLoop(map[], rows, PlainStep());
  }

  /** The map holds a key exactly when some row yields it, and then the
      value of the last such row. */
  lemma PlainRowsLastWins(rows: seq<seq<string>>, k: string)
    ensures k in Fold(map[], rows, PlainStep()) <==>
              exists i :: 0 <= i < |rows| && PlainRowEntry(rows[i]).Some? && PlainRowEntry(rows[i]).value.0 == k
    ensures k in Fold(map[], rows, PlainStep()) ==>
              exists i :: 0 <= i < |rows| && PlainRowEntry(rows[i]) == Some((k, Fold(map[], rows, PlainStep())[k]))
                          && forall j :: i < j < |rows| ==> PlainRowEntry(rows[j]).None? || PlainRowEntry(rows[j]).value.0 != k
  {
    UpsertLastWins(rows, PlainRowEntry, k);
  }
}
