/** The read endpoint app/api/states/route.ts: the states stored in the
    database, kept when their code is two capital letters, one per code,
    sorted by name; the configured states when none is left or the query
    fails. */
module StatesRoute {
  import opened Common
  import opened Sorting
  import opened Dedup
  import opened Folds
  import opened Series
  import opened FuelDb

  /** A row with a two-capital-letter code, as a `[code, row]` entry of the
      `Map`. */
  function StateEntryOf(s: StateRow): (e: Option<(string, StateRow)>)
    ensures e.Some? <==> IsTwoUpperLetters(s.code)
    ensures e.Some? ==> e.value == (s.code, s)
  {
    if IsTwoUpperLetters(s.code) then Some((s.code, s)) else None
  }

  /** `a.name.localeCompare(b.name) <= 0`, as code-point order. */
  function ByName(a: StateRow, b: StateRow): bool { StrLe(a.name, b.name) }

  lemma ByNameTotalPreorder()
    ensures TotalPreorder(ByName)
  {
    StrLeTotalPreorder();
  }

  /** `filteredDbStates`: the `Map` keeps each code at the place it was
      first set, with the row set last; its values are then sorted by
      name. */
  function FilteredStates(db: seq<StateRow>): seq<StateRow> {
    Sort(Latest(Collect(db, StateEntryOf)), ByName)
  }

  /** The rows before sorting: one per code, each the last row with it. */
  lemma LatestRows(db: seq<StateRow>, j: int)
    requires 0 <= j < |Latest(Collect(db, StateEntryOf))|
    ensures var r := Latest(Collect(db, StateEntryOf))[j];
            && r.code == Distinct(Keys(Collect(db, StateEntryOf)))[j]
            && exists i :: IsLastYieldAt(db, StateEntryOf, i, r.code, r)
  {
    LatestYield(db, StateEntryOf, j);
  }

  /** No code appears twice before sorting. */
  lemma LatestCodesDistinct(db: seq<StateRow>, rows: seq<StateRow>)
    requires rows == Latest(Collect(db, StateEntryOf))
    ensures forall i, j :: 0 <= i < j < |rows| ==> rows[i].code != rows[j].code
  {
    LatestProps(Collect(db, StateEntryOf));
    forall i, j | 0 <= i < j < |rows| ensures rows[i].code != rows[j].code {
      LatestRows(db, i);
      LatestRows(db, j);
    }
  }

  /** The response's states are sorted by name. */
  lemma FilteredSorted(db: seq<StateRow>)
    ensures SortedBy(FilteredStates(db), ByName)
  {
    ByNameTotalPreorder();
    SortSorted(Latest(Collect(db, StateEntryOf)), ByName);
  }

  /** Each state kept is the last row given for its code, and that code is
      two capital letters. */
  lemma FilteredRowsLast(db: seq<StateRow>, r: StateRow)
    requires r in FilteredStates(db)
    ensures IsTwoUpperLetters(r.code)
    ensures exists i :: IsLastYieldAt(db, StateEntryOf, i, r.code, r)
  {
    var rows := Latest(Collect(db, StateEntryOf));
    assert r in multiset(FilteredStates(db));
    assert r in rows;
    var j :| 0 <= j < |rows| && rows[j] == r;
    LatestRows(db, j);
  }

  /** Reordering keeps codes distinct. */
  lemma CodesDistinctPermutation(rows: seq<StateRow>, out: seq<StateRow>)
    requires multiset(rows) == multiset(out)
    requires forall i, j :: 0 <= i < j < |rows| ==> rows[i].code != rows[j].code
    ensures forall i, j :: 0 <= i < j < |out| ==> out[i].code != out[j].code
  {
    assert NoDuplicates(rows);
    NoDuplicatesPermutation(rows, out);
    forall i, j | 0 <= i < j < |out| ensures out[i].code != out[j].code {
      assert out[i] in multiset(rows) && out[j] in multiset(rows);
      var p :| 0 <= p < |rows| && rows[p] == out[i];
      var q :| 0 <= q < |rows| && rows[q] == out[j];
      assert p != q;
    }
  }

  /** No code is listed twice. */
  lemma FilteredCodesDistinct(db: seq<StateRow>)
    ensures var out := FilteredStates(db);
            forall i, j :: 0 <= i < j < |out| ==> out[i].code != out[j].code
  {
    var rows := Latest(Collect(db, StateEntryOf));
    LatestCodesDistinct(db, rows);
    CodesDistinctPermutation(rows, FilteredStates(db));
  }

  /** A code is listed exactly when some row carries it and it is two
      capital letters. */
  lemma FilteredCodes(db: seq<StateRow>, c: string)
    ensures (exists r :: r in FilteredStates(db) && r.code == c) <==>
              IsTwoUpperLetters(c) && exists i :: 0 <= i < |db| && db[i].code == c
  {
    var es := Collect(db, StateEntryOf);
    var rows := Latest(es);
    LatestProps(es);
    CollectKeyHas(db, StateEntryOf, c);
    if exists r :: r in FilteredStates(db) && r.code == c {
      var r :| r in FilteredStates(db) && r.code == c;
      FilteredRowsLast(db, r);
    }
    if IsTwoUpperLetters(c) && exists i :: 0 <= i < |db| && db[i].code == c {
      var i :| 0 <= i < |db| && db[i].code == c;
      assert YieldsKey(StateEntryOf, db[i], c);
      assert c in Keys(es);
      assert c in Distinct(Keys(es));
      var j :| 0 <= j < |Distinct(Keys(es))| && Distinct(Keys(es))[j] == c;
      LatestRows(db, j);
      assert rows[j] in multiset(FilteredStates(db));
    }
  }

  datatype Source = FromDb | FromConfig

  /** The JSON body: `count` is the length of `states`; `dbError` is sent
      only with `debug=1` after a failed query. */
  datatype StatesBody = StatesBody(states: seq<StateRow>, count: nat, source: Source, dbError: Option<string>)

  /** `Object.keys(STATE_CITIES).map((code) => ({ code, name: getStateName(code) }))` */
  function ConfigStates(configCodes: seq<string>, stateName: string -> string): (r: seq<StateRow>)
    ensures |r| == |configCodes|
    ensures forall i :: 0 <= i < |r| ==> r[i] == StateRow(configCodes[i], stateName(configCodes[i]))
  {
    seq(|configCodes|, i requires 0 <= i < |configCodes| => StateRow(configCodes[i], stateName(configCodes[i])))
  }

  /** GET, given what `getStates` did (`dbStates ?? []` folded in) and the
      `debug` query parameter. */
  function GetStates(db: Outcome<seq<StateRow>>, debugParam: Option<string>,
                     configCodes: seq<string>, stateName: string -> string): (b: StatesBody)
    ensures b.count == |b.states|
    ensures b.source == FromDb <==> db.Done? && FilteredStates(db.value) != []
    ensures b.source == FromDb ==> b.states == FilteredStates(db.value)
    ensures b.source == FromConfig ==> b.states == ConfigStates(configCodes, stateName)
    ensures b.dbError.Some? <==> db.Threw? && debugParam == Some("1")
    ensures b.dbError.Some? ==> b.dbError.value == db.message
  {
    var config := ConfigStates(configCodes, stateName);
    match db
    case Done(rows) =>
      var filtered := FilteredStates(rows);
      if |filtered| > 0 then StatesBody(filtered, |filtered|, FromDb, None)
      else StatesBody(config, |config|, FromConfig, None)
    case Threw(m) =>
      StatesBody(config, |config|, FromConfig, if debugParam == Some("1") then Some(m) else None)
  }

  /** The database answers whenever one of its rows has a proper code. */
  lemma DbWinsWithOneCode(rows: seq<StateRow>, i: int, debugParam: Option<string>,
                          configCodes: seq<string>, stateName: string -> string)
    requires 0 <= i < |rows| && IsTwoUpperLetters(rows[i].code)
    ensures GetStates(Done(rows), debugParam, configCodes, stateName).source == FromDb
  {
    FilteredCodes(rows, rows[i].code);
  }
}
