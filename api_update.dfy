/** The cron endpoint app/api/update-fuel-prices/route.ts: the secret check,
    the choice of scraping mode, the `stateCode` query, the batch size, the
    hour-based round robin over the discovered states, the summary the run
    reports and the HTTP status chosen from it. The scrapers and the
    database writes it calls are given as their outcomes. */
module UpdateFuelPricesRoute {
  import opened Common
  import opened Dedup
  import opened Series
  import opened Numbers
  import opened FuelDb

  // ---------------------------------------------------------------------
  // Secret check

  /** `authHeader?.startsWith("Bearer ") ? authHeader.slice(7) : null` */
  function BearerToken(authHeader: Option<string>): (r: Option<string>)
    ensures r.Some? <==> authHeader.Some? && StartsWith(authHeader.value, "Bearer ")
    ensures r.Some? ==> authHeader.value == "Bearer " + r.value
  {
    if authHeader.Some? && StartsWith(authHeader.value, "Bearer ") then
      assert authHeader.value == authHeader.value[..7] + authHeader.value[7..];
      Some(authHeader.value[7..])
    else None
  }

  /** `headerSecret ?? bearer`: the `x-cron-secret` header, when sent, wins
      over the bearer token. */
  function ProvidedSecret(headerSecret: Option<string>, authHeader: Option<string>): Option<string> {
    if headerSecret.Some? then headerSecret else BearerToken(authHeader)
  }

  /** What the secret check lets through. */
  datatype Gate = Pass | Refuse(status: nat, error: string)

  /** The secret check: 500 without a configured secret, 401 without a
      provided one or with a wrong one. Empty strings count as absent. */
  function Authorize(cronSecret: Option<string>, headerSecret: Option<string>, authHeader: Option<string>): (g: Gate)
    ensures g == Refuse(500, "CRON_SECRET not configured") <==> cronSecret.None? || cronSecret.value == ""
    ensures g.Pass? <==> cronSecret.Some? && cronSecret.value != "" && ProvidedSecret(headerSecret, authHeader) == cronSecret
    ensures g.Refuse? && g.status != 500 ==> g == Refuse(401, "Unauthorized")
  {
    if cronSecret.None? || cronSecret.value == "" then Refuse(500, "CRON_SECRET not configured")
    else
      var provided := ProvidedSecret(headerSecret, authHeader);
      if provided.None? || provided.value == "" then Refuse(401, "Unauthorized")
      else if provided.value != cronSecret.value then Refuse(401, "Unauthorized")
      else Pass
  }

  /** Once the header is sent, the `Authorization` header plays no part. */
  lemma HeaderTakesPrecedence(cronSecret: Option<string>, headerSecret: Option<string>, a1: Option<string>, a2: Option<string>)
    requires headerSecret.Some?
    ensures Authorize(cronSecret, headerSecret, a1) == Authorize(cronSecret, headerSecret, a2)
  {
  }

  /** A correct bearer token alone is accepted; a wrong header refuses even
      a correct bearer token. */
  lemma BearerAccepted(secret: string, wrong: string)
    requires secret != "" && wrong != secret
    ensures Authorize(Some(secret), None, Some("Bearer " + secret)) == Pass
    ensures Authorize(Some(secret), Some(wrong), Some("Bearer " + secret)) == Refuse(401, "Unauthorized")
  {
    var h := "Bearer " + secret;
    assert h[..7] == "Bearer " && h[7..] == secret;
  }

  // ---------------------------------------------------------------------
  // Mode

  /** The three paths of the handler: `mode=all`, `mode=batch`, and the
      in-process fetch of the configured cities. */
  datatype Mode = AllStates | BatchMode | ConfiguredCities

  /** `modeParam ?? defaultMode`, then the check: an absent or empty mode
      takes the configured-cities path, "all" and "batch" their own, and
      anything else is refused (`None`, answered with 400). */
  function SelectMode(modeParam: Option<string>, defaultMode: Option<string>): (r: Option<Mode>)
    ensures var m := if modeParam.Some? then modeParam else defaultMode;
            && (r.None? <==> m.Some? && m.value != "" && m.value != "all" && m.value != "batch")
            && (r == Some(AllStates) <==> m == Some("all"))
            && (r == Some(BatchMode) <==> m == Some("batch"))
  {
    var mode := if modeParam.Some? then modeParam else defaultMode;
    if mode.None? || mode.value == "" then Some(ConfiguredCities)
    else if mode.value == "all" then Some(AllStates)
    else if mode.value == "batch" then Some(BatchMode)
    else None
  }

  /** The query's mode, when present, overrides the environment's default,
      even when it is empty. */
  lemma QueryModeOverrides(modeParam: Option<string>, d1: Option<string>, d2: Option<string>)
    requires modeParam.Some?
    ensures SelectMode(modeParam, d1) == SelectMode(modeParam, d2)
  {
  }

  // ---------------------------------------------------------------------
  // The stateCode query

  /** Length of the leading run of characters other than ','. */
  function CommaRun(s: string): (n: nat)
    ensures n <= |s|
    ensures forall i :: 0 <= i < n ==> s[i] != ','
    ensures n < |s| ==> s[n] == ','
  {
    if s == [] || s[0] == ',' then 0 else 1 + CommaRun(s[1..])
  }

  /** `s.split(",")`: the pieces between commas, empty ones included. */
  function SplitCommas(s: string): (parts: seq<string>)
    ensures |parts| >= 1
    ensures forall i :: 0 <= i < |parts| ==> ',' !in parts[i]
    decreases |s|
  {
    var n := CommaRun(s);
    assert forall i :: 0 <= i < n ==> s[..n][i] != ',';
    if n == |s| then
      assert s[..n] == s;
      [s]
    else [s[..n]] + SplitCommas(s[n + 1..])
  }

  /** Joining the pieces with commas gives the text back. */
  lemma {:induction false} JoinSplitCommas(s: string)
    ensures Join(SplitCommas(s), ',') == s
    decreases |s|
  {
    var n := CommaRun(s);
    if n == |s| {
      assert s[..n] == s;
    } else {
      var rest := SplitCommas(s[n + 1..]);
      JoinSplitCommas(s[n + 1..]);
      assert ([s[..n]] + rest)[1..] == rest;
      assert s == s[..n] + [','] + s[n + 1..];
    }
  }

  lemma {:induction false} CommaRunOf(t: string, rest: string)
    requires ',' !in t
    requires rest == [] || rest[0] == ','
    ensures CommaRun(t + rest) == |t|
  {
    if t != [] {
      assert (t + rest)[1..] == t[1..] + rest;
      CommaRunOf(t[1..], rest);
    } else {
      assert t + rest == rest;
    }
  }

  /** Splitting comma-joined pieces that hold no comma gives them back. */
  lemma {:induction false} SplitJoinCommas(ts: seq<string>)
    requires ts != []
    requires forall i :: 0 <= i < |ts| ==> ',' !in ts[i]
    ensures SplitCommas(Join(ts, ',')) == ts
    decreases |ts|
  {
    var t := ts[0];
    if |ts| == 1 {
      CommaRunOf(t, []);
      assert t + [] == t;
    } else {
      var rest := Join(ts[1..], ',');
      var s := t + ([','] + rest);
      SeqAssoc(t, [','], rest);
      assert Join(ts, ',') == s;
      CommaRunOf(t, [','] + rest);
      SplitConcat(t, [','] + rest);
      assert s[|t| + 1..] == rest by {
        assert s[|t| + 1..] == s[|t|..][1..];
      }
      SplitJoinCommas(ts[1..]);
      assert SplitCommas(s) == [t] + SplitCommas(rest);
      assert ts == [t] + ts[1..];
    }
  }

  /** `getAll("stateCode").flatMap((s) => s.split(","))` */
  function Pieces(values: seq<string>): seq<string>
  {
    if values == [] then []
    else Pieces(values[..|values| - 1]) + SplitCommas(values[|values| - 1])
  }

  /** A piece belongs to the split of one of the values. */
  lemma {:induction false} PiecesHas(values: seq<string>, p: string)
    ensures p in Pieces(values) <==> exists i :: 0 <= i < |values| && p in SplitCommas(values[i])
  {
    if values != [] {
      var init := values[..|values| - 1];
      PiecesHas(init, p);
      if p in Pieces(values) && p !in Pieces(init) {
        assert p in SplitCommas(values[|values| - 1]);
      }
      if exists i :: 0 <= i < |values| && p in SplitCommas(values[i]) {
        var i :| 0 <= i < |values| && p in SplitCommas(values[i]);
        if i < |values| - 1 {
          assert init[i] == values[i];
        }
      }
    }
  }

  /** `.toUpperCase().trim()` kept when it is two capital letters. */
  function CodeOf(piece: string): (r: Option<string>)
    ensures r.Some? ==> IsTwoUpperLetters(r.value)
  {
    var c := Trim(Upper(piece));
    if IsTwoUpperLetters(c) then Some(c) else None
  }

  /** The `stateCode` query as a list of codes, each once, in the order
      first seen; no code at all is `undefined` (`None`). */
  function ParseStateCodes(values: seq<string>): (r: Option<seq<string>>)
  {
    var raw := Collect(Pieces(values), CodeOf);
    if raw == [] then None else Some(Distinct(raw))
  }

  /** The codes are two capital letters, each once, and are exactly the
      pieces that read as a code once upper-cased and trimmed. */
  lemma StateCodesProps(values: seq<string>, c: string)
    ensures var r := ParseStateCodes(values);
            && (r.Some? ==> forall i, j :: 0 <= i < j < |r.value| ==> r.value[i] != r.value[j])
            && (r.Some? ==> forall i :: 0 <= i < |r.value| ==> IsTwoUpperLetters(r.value[i]))
            && ((r.Some? && c in r.value) <==>
                  exists i :: 0 <= i < |Pieces(values)| && CodeOf(Pieces(values)[i]) == Some(c))
  {
    var raw := Collect(Pieces(values), CodeOf);
    DistinctProps(raw);
    CollectHas(Pieces(values), CodeOf, c);
    forall x | x in raw ensures IsTwoUpperLetters(x) {
      CollectHas(Pieces(values), CodeOf, x);
    }
  }

  lemma CodeOfCode(c: string)
    requires IsTwoUpperLetters(c)
    ensures CodeOf(c) == Some(c)
  {
    assert Upper(c) == c;
    assert !IsSpace(c[0]) && !IsSpace(c[1]);
    TrimOfTrimmed(c);
  }

  lemma SplitCode(c: string)
    requires IsTwoUpperLetters(c)
    ensures SplitCommas(c) == [c]
  {
    CommaRunOf(c, []);
    assert c + [] == c && c[..|c|] == c;
  }

  lemma {:induction false} PiecesOfCodes(values: seq<string>)
    requires forall i :: 0 <= i < |values| ==> IsTwoUpperLetters(values[i])
    ensures Pieces(values) == values
  {
    if values != [] {
      var init := values[..|values| - 1];
      PiecesOfCodes(init);
      SplitCode(values[|values| - 1]);
      assert init + [values[|values| - 1]] == values;
    }
  }

  lemma {:induction false} CollectCodes(values: seq<string>)
    requires forall i :: 0 <= i < |values| ==> IsTwoUpperLetters(values[i])
    ensures Collect(values, CodeOf) == values
  {
    if values != [] {
      var init := values[..|values| - 1];
      CollectCodes(init);
      CodeOfCode(values[|values| - 1]);
      assert init + [values[|values| - 1]] == values;
    }
  }

  /** Codes sent one per parameter, already clean, come back deduplicated
      in the order sent. */
  lemma CleanCodesKept(values: seq<string>)
    requires values != []
    requires forall i :: 0 <= i < |values| ==> IsTwoUpperLetters(values[i])
    ensures ParseStateCodes(values) == Some(Distinct(values))
  {
    PiecesOfCodes(values);
    CollectCodes(values);
  }

  // ---------------------------------------------------------------------
  // Batch size and the round robin

  /** `p ? parseInt(p, 10) : NaN` */
  function ParseSize(p: Option<string>): Option<int> {
    if p.Some? && p.value != "" then ParseInt(p.value) else None
  }

  predicate InSizeRange(n: Option<int>) { n.Some? && 0 < n.value <= 10 }

  /** The batch size: the query's when it is 1 to 10, else the
      environment's when it is 1 to 10, else 2. */
  function BatchSize(query: Option<string>, env: Option<string>): (n: nat)
    ensures 1 <= n <= 10
    ensures InSizeRange(ParseSize(query)) ==> n == ParseSize(query).value
    ensures !InSizeRange(ParseSize(query)) && InSizeRange(ParseSize(env)) ==> n == ParseSize(env).value
    ensures !InSizeRange(ParseSize(query)) && !InSizeRange(ParseSize(env)) ==> n == 2
  {
    var q := ParseSize(query);
    if InSizeRange(q) then q.value
    else
      var e := ParseSize(env);
      if InSizeRange(e) then e.value else 2
  }

  /** A size written in decimal is taken from the query when it is 1 to 10
      and otherwise left to the environment. */
  lemma BatchSizeOfQuery(k: nat, env: Option<string>)
    ensures 1 <= k <= 10 ==> BatchSize(Some(NatToString(k)), env) == k
    ensures k > 10 ==> BatchSize(Some(NatToString(k)), env) == BatchSize(None, env)
  {
    ParseIntOfNat(k);
  }

  /** `Math.max(1, Math.ceil(n / size))` */
  function BatchCount(n: nat, size: nat): (c: nat)
    requires size >= 1
    ensures c >= 1
    ensures n > 0 ==> (c - 1) * size < n <= c * size
  {
    var c := (n + size - 1) / size;
    if c < 1 then 1 else c
  }

  function Min(a: int, b: int): int { if a <= b then a else b }

  /** The states of one hour: batch number `hour % count`, sliced as
      `slice(start, start + size)` clamps. */
  function Shard(all: seq<string>, size: nat, hour: nat): (r: seq<string>)
    requires size >= 1
    ensures |r| <= size
    ensures var start := (hour % BatchCount(|all|, size)) * size;
            start < |all| ==> |r| == Min(size, |all| - start)
    ensures var start := (hour % BatchCount(|all|, size)) * size;
            forall k :: 0 <= k < |r| ==> start + k < |all| && r[k] == all[start + k]
  {
    var start := (hour % BatchCount(|all|, size)) * size;
    all[Min(start, |all|)..Min(start + size, |all|)]
  }

  /** Every hour has work while some state was discovered. */
  lemma ShardNonEmpty(all: seq<string>, size: nat, hour: nat)
    requires size >= 1 && all != []
    ensures Shard(all, size, hour) != []
  {
    var c := BatchCount(|all|, size);
    var b := hour % c;
    MulMono(b, c - 1, size);
  }

  lemma MulMono(a: int, b: int, k: int)
    requires a <= b && k >= 0
    ensures a * k <= b * k
  {
    assert b * k - a * k == (b - a) * k;
  }

  /** Euclidean division has one quotient and one remainder. */
  lemma DivModUnique(a: int, c: int, q: int, r: int)
    requires c > 0 && a == c * q + r && 0 <= r < c
    ensures a / c == q && a % c == r
  {
    var q' := a / c;
    if q' > q {
      MulMono(q + 1, q', c);
    } else if q' < q {
      MulMono(q' + 1, q, c);
    }
  }

  /** State `i` is visited at hour `i / size` of each cycle, at position
      `i % size` of that hour's batch. */
  lemma ShardCovers(all: seq<string>, size: nat, i: nat)
    requires size >= 1 && i < |all|
    ensures i % size < |Shard(all, size, i / size)|
    ensures Shard(all, size, i / size)[i % size] == all[i]
  {
    var c := BatchCount(|all|, size);
    var b := i / size;
    BatchOfIndex(|all|, size, i);
    DivModUnique(b, c, 0, b);
    IndexSplit(i, size);
    assert (b % c) * size == b * size;
  }

  /** The batch of an index is one of the batches. */
  lemma BatchOfIndex(n: nat, size: nat, i: nat)
    requires size >= 1 && i < n
    ensures i / size < BatchCount(n, size)
  {
    var c := BatchCount(n, size);
    var b := i / size;
    IndexSplit(i, size);
    if b >= c {
      MulMono(c, b, size);
      assert false;
    }
  }

  lemma IndexSplit(i: nat, size: nat)
    requires size >= 1
    ensures (i / size) * size + i % size == i && 0 <= i % size < size
  {
  }

  /** The batches repeat every `count` hours. */
  lemma ShardPeriodic(all: seq<string>, size: nat, hour: nat)
    requires size >= 1
    ensures Shard(all, size, hour + BatchCount(|all|, size)) == Shard(all, size, hour)
  {
    var c := BatchCount(|all|, size);
    DivModUnique(hour + c, c, hour / c + 1, hour % c);
  }

  /** The states the `all` scraper is given: the query's codes when sent,
      otherwise this hour's batch of the discovered states, or every state
      (`undefined`) when discovery found none. */
  function SelectStates(stateCodes: Option<seq<string>>, discovered: seq<string>, size: nat, hour: nat): (r: Option<seq<string>>)
    requires size >= 1
    ensures stateCodes.Some? ==> r == stateCodes
    ensures stateCodes.None? ==> (r.None? <==> discovered == [])
    ensures stateCodes.None? && r.Some? ==> r.value == Shard(discovered, size, hour)
  {
    if stateCodes.Some? then stateCodes
    else if discovered == [] then None
    else Some(Shard(discovered, size, hour))
  }

  // ---------------------------------------------------------------------
  // The run and its summary

  datatype Status = Ok | Error

  datatype Summary = Summary(
    status: Status,
    date: string,
    totalStatesDiscovered: nat,
    totalCitiesDiscovered: nat,
    totalCitiesConfigured: nat,
    totalSnapshotsFetched: nat,
    totalUpserts: nat,
    errors: seq<string>)

  /** A scraper's error: a string, or an object logged as its JSON text. */
  datatype ErrValue = Text(text: string) | Structured(json: string)

  /** `typeof err === "string" ? err : JSON.stringify(err)` */
  function ErrMessage(e: ErrValue): string {
    match e
    case Text(s) => s
    case Structured(j) => j
  }

  function ErrMessages(es: seq<ErrValue>): (r: seq<string>)
    ensures |r| == |es| && forall i :: 0 <= i < |es| ==> r[i] == ErrMessage(es[i])
  {
    seq(|es|, i requires 0 <= i < |es| => ErrMessage(es[i]))
  }

  /** What a scraper reports (the batch scraper leaves the first two at 0). */
  datatype ScrapeReport = ScrapeReport(fetchedStates: nat, cities: nat, fetched: nat, upserts: nat, errors: seq<ErrValue>)

  /** What the calls of the run's `try` block do: the two roster upserts,
      state discovery, the two scrapers (the `all` one given the selected
      codes), the in-process fetch, and each snapshot's upsert (the
      message it throws, if any). */
  datatype Effects = Effects(
    statesUpsert: Option<string>,
    citiesUpsert: Option<string>,
    configuredCities: nat,
    discover: Outcome<seq<string>>,
    scrapeAll: Option<seq<string>> -> Outcome<ScrapeReport>,
    scrapeBatch: Outcome<ScrapeReport>,
    fetchSnapshots: Outcome<seq<FuelRecord>>,
    upsert: FuelRecord -> Option<string>)

  /** The line logged for a snapshot whose upsert failed. */
  function FailureLine(upsert: FuelRecord -> Option<string>): FuelRecord -> Option<string> {
    (snap: FuelRecord) =>
      if upsert(snap).Some? then
        Some("Failed upsert for " + snap.stateCode + "-" + snap.cityName + ": " + upsert(snap).value)
      else None
  }

  /** The number of snapshots whose upsert succeeded. */
  function Succeeded(snaps: seq<FuelRecord>, upsert: FuelRecord -> Option<string>): (n: nat)
    ensures n <= |snaps|
  {
    if snaps == [] then 0
    else Succeeded(snaps[..|snaps| - 1], upsert) + (if upsert(snaps[|snaps| - 1]).None? then 1 else 0)
  }

  /** Every snapshot is counted once: as an upsert or as an error line. */
  lemma {:induction false} TallyComplete(snaps: seq<FuelRecord>, upsert: FuelRecord -> Option<string>)
    ensures Succeeded(snaps, upsert) + |Collect(snaps, FailureLine(upsert))| == |snaps|
  {
    if snaps != [] {
      var init := snaps[..|snaps| - 1];
      TallyComplete(init, upsert);
      CollectSnoc(snaps, |snaps| - 1, FailureLine(upsert));
      assert snaps[..|snaps|] == snaps;
    }
  }

  /** The loop over the fetched snapshots: each upsert either counts or
      leaves its error line, in order. */
  method UpsertSnapshots(snaps: seq<FuelRecord>, upsert: FuelRecord -> Option<string>)
    returns (upserts: nat, errors: seq<string>)
    ensures upserts == Succeeded(snaps, upsert)
    ensures errors == Collect(snaps, FailureLine(upsert))
  {
    upserts := 0;
    errors := [];
    for i := 0 to |snaps|
      invariant upserts == Succeeded(snaps[..i], upsert)
      invariant errors == Collect(snaps[..i], FailureLine(upsert))
    {
      CollectSnoc(snaps, i, FailureLine(upsert));
      assert snaps[..i + 1][..i] == snaps[..i];
      var failure := upsert(snaps[i]);
      if failure.None? {
        upserts := upserts + 1;
      } else {
        errors := errors + ["Failed upsert for " + snaps[i].stateCode + "-" + snaps[i].cityName + ": " + failure.value];
      }
    }
    assert snaps[..|snaps|] == snaps;
  }

  /** The summary after a scraper's outcome: its totals and error texts
      (the state and city counts only on the `all` path), or, when it
      throws, an error with its message. */
  predicate Reported(s: Summary, date: string, configured: nat, outcome: Outcome<ScrapeReport>, allStates: bool) {
    match outcome
    case Done(rep) =>
      s == Summary(Ok, date, if allStates then rep.fetchedStates else 0, if allStates then rep.cities else 0,
                   configured, rep.fetched, rep.upserts, ErrMessages(rep.errors))
    case Threw(m) => s == Summary(Error, date, 0, 0, configured, 0, 0, [m])
  }

  /** The summary of a run on `date`, path by path. A call that throws
      ends the run as an error with its message, keeping the totals set
      before it (the configured-city count once the states are written).
      The `all` path hands the scraper the query's codes, or this hour's
      batch of the discovered states. The configured-cities path counts
      the fetched snapshots, the successful upserts and a line per failed
      one. */
  predicate RunSpec(mode: Mode, stateCodes: Option<seq<string>>, size: nat, hour: nat, date: string, fx: Effects, s: Summary)
    requires 1 <= size
  {
    if fx.statesUpsert.Some? then s == Summary(Error, date, 0, 0, 0, 0, 0, [fx.statesUpsert.value])
    else if fx.citiesUpsert.Some? then s == Summary(Error, date, 0, 0, fx.configuredCities, 0, 0, [fx.citiesUpsert.value])
    else
      match mode
      case AllStates =>
        if stateCodes.Some? then Reported(s, date, fx.configuredCities, fx.scrapeAll(stateCodes), true)
        else if fx.discover.Threw? then s == Summary(Error, date, 0, 0, fx.configuredCities, 0, 0, [fx.discover.message])
        else Reported(s, date, fx.configuredCities, fx.scrapeAll(SelectStates(None, fx.discover.value, size, hour)), true)
      case BatchMode => Reported(s, date, fx.configuredCities, fx.scrapeBatch, false)
      case ConfiguredCities =>
        if fx.fetchSnapshots.Threw? then s == Summary(Error, date, 0, 0, fx.configuredCities, 0, 0, [fx.fetchSnapshots.message])
        else
          var snaps := fx.fetchSnapshots.value;
          s == Summary(Ok, date, 0, 0, fx.configuredCities, |snaps|, Succeeded(snaps, fx.upsert),
                       Collect(snaps, FailureLine(fx.upsert)))
  }

  /** A failed run has logged at least one message and written nothing, so
      its answer is 500; a run that did not fail has status ok. */
  lemma RunSpecFailed(mode: Mode, stateCodes: Option<seq<string>>, size: nat, hour: nat, date: string, fx: Effects, s: Summary)
    requires 1 <= size && RunSpec(mode, stateCodes, size, hour, date, fx, s)
    ensures s.date == date
    ensures s.status == Error ==> s.errors != [] && s.totalUpserts == 0 && HttpStatus(s) == 500
  {
  }

  /** The run: the roster upserts, then the chosen path, with the summary
      its specification gives. */
  method Run(mode: Mode, stateCodes: Option<seq<string>>, size: nat, hour: nat, date: string, fx: Effects)
    returns (summary: Summary)
    requires 1 <= size
    ensures RunSpec(mode, stateCodes, size, hour, date, fx, summary)
  {
    summary := Summary(Ok, date, 0, 0, 0, 0, 0, []);
    if fx.statesUpsert.Some? {
      summary := summary.(status := Error, errors := summary.errors + [fx.statesUpsert.value]);
      return;
    }
    summary := summary.(totalCitiesConfigured := fx.configuredCities);
    if fx.citiesUpsert.Some? {
      summary := summary.(status := Error, errors := summary.errors + [fx.citiesUpsert.value]);
      return;
    }
    var outcome: Outcome<ScrapeReport>;
    if mode == AllStates {
      var selected := stateCodes;
      if stateCodes.None? {
        if fx.discover.Threw? {
          summary := summary.(status := Error, errors := summary.errors + [fx.discover.message]);
          return;
        }
        selected := SelectStates(stateCodes, fx.discover.value, size, hour);
      }
      outcome := fx.scrapeAll(selected);
    } else if mode == BatchMode {
      outcome := fx.scrapeBatch;
    } else {
      if fx.fetchSnapshots.Threw? {
        summary := summary.(status := Error, errors := summary.errors + [fx.fetchSnapshots.message]);
        return;
      }
      var snaps := fx.fetchSnapshots.value;
      summary := summary.(totalSnapshotsFetched := |snaps|);
      var upserts, errors := UpsertSnapshots(snaps, fx.upsert);
      summary := summary.(totalUpserts := upserts, errors := errors);
      return;
    }
    if outcome.Threw? {
      summary := summary.(status := Error, errors := summary.errors + [outcome.message]);
      return;
    }
    var rep := outcome.value;
    if mode == AllStates {
      summary := summary.(totalStatesDiscovered := rep.fetchedStates, totalCitiesDiscovered := rep.cities);
    }
    summary := summary.(totalSnapshotsFetched := rep.fetched, totalUpserts := rep.upserts);
    summary := summary.(errors := ErrMessages(rep.errors));
  }

  /** 500 only for a run that failed without writing anything. */
  function HttpStatus(s: Summary): (code: nat)
    ensures code == 500 || code == 200
    ensures code == 500 <==> s.status == Error && s.totalUpserts == 0
  {
    if s.status == Error && s.totalUpserts == 0 then 500 else 200
  }

  // ---------------------------------------------------------------------
  // The handler

  /** The parts of the request the handler reads. */
  datatype Request = Request(
    headerSecret: Option<string>,
    authorization: Option<string>,
    mode: Option<string>,
    stateCode: seq<string>,
    batchSize: Option<string>)

  /** The environment variables it reads. */
  datatype Env = Env(cronSecret: Option<string>, defaultMode: Option<string>, batchSize: Option<string>)

  datatype Response = Refused(status: nat, error: string) | Report(status: nat, summary: Summary)

  /** GET: the secret check, then the mode check (400), then the run and
      its summary with the status HttpStatus picks. */
  method Get(req: Request, env: Env, hour: nat, date: string, fx: Effects) returns (resp: Response)
    ensures var g := Authorize(env.cronSecret, req.headerSecret, req.authorization);
            g.Refuse? ==> resp == Refused(g.status, g.error)
    ensures (Authorize(env.cronSecret, req.headerSecret, req.authorization).Pass? &&
             SelectMode(req.mode, env.defaultMode).None?) ==> resp == Refused(400, "Invalid mode")
    ensures resp.Report? <==>
              Authorize(env.cronSecret, req.headerSecret, req.authorization).Pass? &&
              SelectMode(req.mode, env.defaultMode).Some?
    ensures resp.Report? ==> resp.status == HttpStatus(resp.summary) && resp.summary.date == date
    ensures resp.Report? && resp.status == 500 ==> resp.summary.status == Error
    ensures resp.Report? && SelectMode(req.mode, env.defaultMode).Some? ==>
              RunSpec(SelectMode(req.mode, env.defaultMode).value, ParseStateCodes(req.stateCode),
                      BatchSize(req.batchSize, env.batchSize), hour, date, fx, resp.summary)
  {
    var gate := Authorize(env.cronSecret, req.headerSecret, req.authorization);
    if gate.Refuse? {
      return Refused(gate.status, gate.error);
    }
    var mode := SelectMode(req.mode, env.defaultMode);
    if mode.None? {
      return Refused(400, "Invalid mode");
    }
    var stateCodes := ParseStateCodes(req.stateCode);
    var size := BatchSize(req.batchSize, env.batchSize);
    var summary := Run(mode.value, stateCodes, size, hour, date, fx);
    resp := Report(HttpStatus(summary), summary);
  }
}
