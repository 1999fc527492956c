/**
  The persistence store: the `workflows` table of an SQLite file, held in
  memory. Rows are kept in rowid order, which is the order SQLite's plain
  `SELECT *` scans them in; the column id is the AUTOINCREMENT key, and
  UNIQUE(workflow, platform, country) is the natural key that
  `INSERT OR REPLACE` resolves conflicts on (the old row is deleted and the
  new one inserted with a fresh id).
 */
module Database {
  import opened Wrappers
  import opened Schema
  import Text

  /** A row of the table. */
  datatype Row = Row(
    id: nat,
    workflow: string,
    platform: string,
    popularityMetrics: Metrics,
    country: string,
    lastUpdated: string)

  /** The dictionary get_workflows returns for a row: every column but id. */
  datatype View = View(
    workflow: string,
    platform: string,
    popularityMetrics: Metrics,
    country: string,
    lastUpdated: string)

  /** The columns of the UNIQUE constraint. */
  datatype Key = Key(workflow: string, platform: string, country: string)

  function KeyOf(r: Row): Key { Key(r.workflow, r.platform, r.country) }

  function RecordKey(w: WorkflowMetrics): Key { Key(w.workflow, w.platform, w.country) }

  function ViewOf(r: Row): View { View(r.workflow, r.platform, r.popularityMetrics, r.country, r.lastUpdated) }

  /** The table's contents and its AUTOINCREMENT counter (the id the next insert receives). */
  datatype Table = Table(rows: seq<Row>, nextId: nat)

  /** The table freshly created by CREATE TABLE: no rows, and ids start at 1. */
  const FreshTable := Table([], 1)

  /** UNIQUE(workflow, platform, country): at most one row per natural key. */
  predicate KeysUnique(rows: seq<Row>)
  {
    forall i, j :: 0 <= i < j < |rows| ==> KeyOf(rows[i]) != KeyOf(rows[j])
  }

  /** AUTOINCREMENT: ids are positive, increase along rowid order and stay below the counter. */
  predicate IdsAscending(rows: seq<Row>, nextId: nat)
  {
    0 < nextId &&
    (forall i, j :: 0 <= i < j < |rows| ==> rows[i].id < rows[j].id) &&
    (forall i :: 0 <= i < |rows| ==> 0 < rows[i].id < nextId)
  }

  predicate WellFormed(t: Table)
  {
    KeysUnique(t.rows) && IdsAscending(t.rows, t.nextId)
  }

  /** `workflow.last_updated or now`: the record's timestamp unless it is None or empty. */
  function StampOr(lastUpdated: Option<string>, now: string): (s: string)
    ensures lastUpdated.Some? && lastUpdated.value != "" ==> s == lastUpdated.value
    ensures lastUpdated.None? || lastUpdated.value == "" ==> s == now
  {
    if lastUpdated.Some? && lastUpdated.value != "" then lastUpdated.value else now
  }

  /** The row INSERT OR REPLACE writes for a record. */
  function RowFor(w: WorkflowMetrics, id: nat, now: string): Row
  {
    Row(id, w.workflow, w.platform, w.popularityMetrics, w.country, StampOr(w.lastUpdated, now))
  }

  /** What reading back the row written for w yields. */
  function StoredView(w: WorkflowMetrics, now: string): View
  {
    ViewOf(RowFor(w, 0, now))
  }

  /** The rows whose key is not k, in their order. */
  function Without(rows: seq<Row>, k: Key): (r: seq<Row>)
    ensures |r| <= |rows|
    ensures forall x :: x in r <==> x in rows && KeyOf(x) != k
  {
    if rows == [] then []
    else
      var rest := Without(rows[..|rows| - 1], k);
      assert forall x :: x in rows <==> x in rows[..|rows| - 1] || x == rows[|rows| - 1];
      if KeyOf(rows[|rows| - 1]) == k then rest else rest + [rows[|rows| - 1]]
  }

  /** Appending a row keeps the invariants when its key is new and its id exceeds all others. */
  lemma AppendWellFormed(rows: seq<Row>, last: Row, nextId: nat)
    requires KeysUnique(rows) && IdsAscending(rows, nextId)
    requires forall x :: x in rows ==> KeyOf(x) != KeyOf(last) && x.id < last.id
    requires 0 < last.id < nextId
    ensures KeysUnique(rows + [last]) && IdsAscending(rows + [last], nextId)
  {
    var r := rows + [last];
    forall i, j | 0 <= i < j < |r|
      ensures KeyOf(r[i]) != KeyOf(r[j]) && r[i].id < r[j].id
    {
      assert r[i] == rows[i];
      if j < |rows| {
        assert r[j] == rows[j];
      } else {
        assert rows[i] in rows;
      }
    }
  }

  /** Every stored row's key differs from the last row's, and its id is smaller. */
  lemma PrefixBeforeLast(rows: seq<Row>, nextId: nat)
    requires rows != [] && KeysUnique(rows) && IdsAscending(rows, nextId)
    ensures KeysUnique(rows[..|rows| - 1]) && IdsAscending(rows[..|rows| - 1], nextId)
    ensures forall x :: x in rows[..|rows| - 1] ==> KeyOf(x) != KeyOf(rows[|rows| - 1]) && x.id < rows[|rows| - 1].id
  {
    var prefix := rows[..|rows| - 1];
    forall x | x in prefix
      ensures KeyOf(x) != KeyOf(rows[|rows| - 1]) && x.id < rows[|rows| - 1].id
    {
      var j :| 0 <= j < |prefix| && prefix[j] == x;
      assert rows[j] == x;
    }
  }

  /** Ids below the counter, stated per row. */
  lemma IdsBelow(rows: seq<Row>, nextId: nat)
    requires IdsAscending(rows, nextId)
    ensures forall x :: x in rows ==> 0 < x.id < nextId
  {
    forall x | x in rows
      ensures 0 < x.id < nextId
    {
      var j :| 0 <= j < |rows| && rows[j] == x;
    }
  }

  lemma {:induction false} WithoutWellFormed(rows: seq<Row>, nextId: nat, k: Key)
    requires KeysUnique(rows) && IdsAscending(rows, nextId)
    ensures KeysUnique(Without(rows, k)) && IdsAscending(Without(rows, k), nextId)
  {
    if rows != [] {
      var prefix := rows[..|rows| - 1];
      var last := rows[|rows| - 1];
      PrefixBeforeLast(rows, nextId);
      WithoutWellFormed(prefix, nextId, k);
      if KeyOf(last) != k {
        AppendWellFormed(Without(prefix, k), last, nextId);
      }
    }
  }

  /** INSERT OR REPLACE of one record: the row holding its key goes, the new row is appended. */
  function Upsert(t: Table, w: WorkflowMetrics, now: string): (r: Table)
    ensures r.nextId == t.nextId + 1
  {
    Table(Without(t.rows, RecordKey(w)) + [RowFor(w, t.nextId, now)], t.nextId + 1)
  }

  /** After one upsert the new row comes last, and the rows are the old rows of other keys plus that new row. */
  lemma UpsertRows(t: Table, w: WorkflowMetrics, now: string)
    ensures var r := Upsert(t, w, now).rows;
      r != [] && r[|r| - 1] == RowFor(w, t.nextId, now) &&
      forall x :: x in r <==> (x in t.rows && KeyOf(x) != RecordKey(w)) || x == RowFor(w, t.nextId, now)
  {
  }

  lemma UpsertWellFormed(t: Table, w: WorkflowMetrics, now: string)
    requires WellFormed(t)
    ensures WellFormed(Upsert(t, w, now))
  {
    var kept := Without(t.rows, RecordKey(w));
    WithoutWellFormed(t.rows, t.nextId, RecordKey(w));
    IdsBelow(t.rows, t.nextId);
    AppendWellFormed(kept, RowFor(w, t.nextId, now), t.nextId + 1);
  }

  /** The table after save_workflows(batch): the records upserted one after another, in batch order. */
  function SaveAll(t: Table, batch: seq<WorkflowMetrics>, now: string): Table
  {
    if batch == [] then t
    else Upsert(SaveAll(t, batch[..|batch| - 1], now), batch[|batch| - 1], now)
  }

  /** A batch adds at most one row per record. */
  lemma {:induction false} SaveAllGrowth(t: Table, batch: seq<WorkflowMetrics>, now: string)
    ensures |SaveAll(t, batch, now).rows| <= |t.rows| + |batch|
  {
    if batch != [] {
      SaveAllGrowth(t, batch[..|batch| - 1], now);
    }
  }

  /** Saving keeps the table well formed and consumes one id per record. */
  lemma {:induction false} SaveAllWellFormed(t: Table, batch: seq<WorkflowMetrics>, now: string)
    requires WellFormed(t)
    ensures WellFormed(SaveAll(t, batch, now))
    ensures SaveAll(t, batch, now).nextId == t.nextId + |batch|
  {
    if batch != [] {
      SaveAllWellFormed(t, batch[..|batch| - 1], now);
      UpsertWellFormed(SaveAll(t, batch[..|batch| - 1], now), batch[|batch| - 1], now);
    }
  }

  /** The row holding key k, if any. */
  function Find(rows: seq<Row>, k: Key): (r: Option<Row>)
    ensures r.Some? ==> r.value in rows && KeyOf(r.value) == k
    ensures r.None? ==> forall x :: x in rows ==> KeyOf(x) != k
  {
    if rows == [] then None
    else if KeyOf(rows[0]) == k then Some(rows[0])
    else Find(rows[1..], k)
  }

  lemma FindUnique(rows: seq<Row>, x: Row)
    requires KeysUnique(rows) && x in rows
    ensures Find(rows, KeyOf(x)) == Some(x)
  {
    var r := Find(rows, KeyOf(x));
    var i :| 0 <= i < |rows| && rows[i] == r.value;
    var j :| 0 <= j < |rows| && rows[j] == x;
    assert i == j;
  }

  /** The view of the row holding key k, if any. */
  function ViewAt(rows: seq<Row>, k: Key): Option<View>
  {
    match Find(rows, k)
    case Some(r) => Some(ViewOf(r))
    case None => None
  }

  /** One upsert replaces the row of its own key and leaves every other key's row as it was. */
  lemma UpsertFind(t: Table, w: WorkflowMetrics, now: string, k: Key)
    requires WellFormed(t)
    ensures Find(Upsert(t, w, now).rows, k) ==
      if k == RecordKey(w) then Some(RowFor(w, t.nextId, now)) else Find(t.rows, k)
  {
    UpsertWellFormed(t, w, now);
    var after := Upsert(t, w, now).rows;
    if k == RecordKey(w) {
      FindUnique(after, RowFor(w, t.nextId, now));
    } else if Find(t.rows, k).Some? {
      FindUnique(after, Find(t.rows, k).value);
    }
  }

  /** Record i of the batch carries key k and no later record does. */
  predicate LastOfKeyAt(batch: seq<WorkflowMetrics>, i: int, k: Key)
  {
    0 <= i < |batch| && RecordKey(batch[i]) == k && forall j :: i < j < |batch| ==> RecordKey(batch[j]) != k
  }

  /** The last record of the batch that carries key k. */
  function LastWithKey(batch: seq<WorkflowMetrics>, k: Key): (r: Option<WorkflowMetrics>)
    ensures r.Some? ==> RecordKey(r.value) == k
    ensures r.Some? ==> exists i :: LastOfKeyAt(batch, i, k) && batch[i] == r.value
    ensures r.None? ==> forall w :: w in batch ==> RecordKey(w) != k
  {
    if batch == [] then None
    else if RecordKey(batch[|batch| - 1]) == k then
      assert LastOfKeyAt(batch, |batch| - 1, k);
      Some(batch[|batch| - 1])
    else
      var prefix := batch[..|batch| - 1];
      var r := LastWithKey(prefix, k);
      assert batch == prefix + [batch[|batch| - 1]];
      if r.Some? then
        var i :| LastOfKeyAt(prefix, i, k) && prefix[i] == r.value;
        LastOfKeyExtend(prefix, batch[|batch| - 1], i, k);
        r
      else
        assert forall w :: w in batch ==> w in prefix || w == batch[|batch| - 1];
        r
  }

  /** A record without key k appended after the last record of key k leaves that record the last. */
  lemma LastOfKeyExtend(prefix: seq<WorkflowMetrics>, last: WorkflowMetrics, i: int, k: Key)
    requires LastOfKeyAt(prefix, i, k) && RecordKey(last) != k
    ensures LastOfKeyAt(prefix + [last], i, k) && (prefix + [last])[i] == prefix[i]
  {
    var batch := prefix + [last];
    forall j | i < j < |batch|
      ensures RecordKey(batch[j]) != k
    {
      if j < |prefix| {
        assert batch[j] == prefix[j];
      }
    }
  }

  /** Rows whose key no record of the batch carries are left exactly as they were, id included. */
  lemma {:induction false} SaveAllUntouched(t: Table, batch: seq<WorkflowMetrics>, now: string, k: Key)
    requires WellFormed(t)
    requires LastWithKey(batch, k).None?
    ensures Find(SaveAll(t, batch, now).rows, k) == Find(t.rows, k)
  {
    if batch != [] {
      var prefix := batch[..|batch| - 1];
      assert LastWithKey(prefix, k).None?;
      SaveAllUntouched(t, prefix, now, k);
      SaveAllWellFormed(t, prefix, now);
      UpsertFind(SaveAll(t, prefix, now), batch[|batch| - 1], now, k);
    }
  }

  /** Last write wins: a key of the batch ends up holding the values of its last record in the batch. */
  lemma {:induction false} SaveAllLastWins(t: Table, batch: seq<WorkflowMetrics>, now: string, k: Key)
    requires WellFormed(t)
    requires LastWithKey(batch, k).Some?
    ensures ViewAt(SaveAll(t, batch, now).rows, k) == Some(StoredView(LastWithKey(batch, k).value, now))
  {
    var prefix := batch[..|batch| - 1];
    var last := batch[|batch| - 1];
    SaveAllWellFormed(t, prefix, now);
    UpsertFind(SaveAll(t, prefix, now), last, now, k);
    if RecordKey(last) != k {
      SaveAllLastWins(t, prefix, now, k);
    }
  }

  /** What any key holds after saving a batch, in terms of the table before and the batch. */
  lemma SaveAllViewAt(t: Table, batch: seq<WorkflowMetrics>, now: string, k: Key)
    requires WellFormed(t)
    ensures ViewAt(SaveAll(t, batch, now).rows, k) ==
      match LastWithKey(batch, k)
      case Some(w) => Some(StoredView(w, now))
      case None => ViewAt(t.rows, k)
  {
    if LastWithKey(batch, k).Some? {
      SaveAllLastWins(t, batch, now, k);
    } else {
      SaveAllUntouched(t, batch, now, k);
    }
  }

  /** Saving the same batch a second time leaves every key holding what the first save stored. */
  lemma SaveAllIdempotent(t: Table, batch: seq<WorkflowMetrics>, now: string, k: Key)
    requires WellFormed(t)
    ensures ViewAt(SaveAll(SaveAll(t, batch, now), batch, now).rows, k) == ViewAt(SaveAll(t, batch, now).rows, k)
  {
    SaveAllWellFormed(t, batch, now);
    SaveAllViewAt(SaveAll(t, batch, now), batch, now, k);
    SaveAllViewAt(t, batch, now, k);
  }

  /** Python truthiness of an optional filter string: neither None nor "". */
  predicate Given(filter: Option<string>)
  {
    filter.Some? && filter.value != ""
  }

  /** The filter get_workflows applies: case-insensitive equality on each given filter. */
  predicate Matches(r: Row, platform: Option<string>, country: Option<string>)
  {
    (Given(platform) ==> Text.Lower(r.platform) == Text.Lower(platform.value)) &&
    (Given(country) ==> Text.Lower(r.country) == Text.Lower(country.value))
  }

  /** The views of the rows that match the filters, in rowid order. */
  function Select(rows: seq<Row>, platform: Option<string>, country: Option<string>): (vs: seq<View>)
    ensures |vs| <= |rows|
  {
    if rows == [] then []
    else
      Select(rows[..|rows| - 1], platform, country) +
      (if Matches(rows[|rows| - 1], platform, country) then [ViewOf(rows[|rows| - 1])] else [])
  }

  /** The views of all rows, in rowid order. */
  function Views(rows: seq<Row>): (vs: seq<View>)
    ensures |vs| == |rows|
    ensures forall i :: 0 <= i < |rows| ==> vs[i] == ViewOf(rows[i])
  {
    if rows == [] then [] else Views(rows[..|rows| - 1]) + [ViewOf(rows[|rows| - 1])]
  }

  /** With no filter given, every stored row is returned. */
  lemma {:induction false} SelectEverything(rows: seq<Row>, platform: Option<string>, country: Option<string>)
    requires !Given(platform) && !Given(country)
    ensures Select(rows, platform, country) == Views(rows)
  {
    if rows != [] {
      SelectEverything(rows[..|rows| - 1], platform, country);
    }
  }

  /** A view is returned exactly when some row matching the filters has it. */
  lemma {:induction false} SelectExactly(rows: seq<Row>, platform: Option<string>, country: Option<string>, v: View)
    ensures v in Select(rows, platform, country) <==> exists r :: r in rows && Matches(r, platform, country) && ViewOf(r) == v
  {
    if rows != [] {
      var prefix := rows[..|rows| - 1];
      SelectExactly(prefix, platform, country, v);
      assert forall r :: r in rows <==> r in prefix || r == rows[|rows| - 1];
    }
  }

  /** A record that is the last of its key in a saved batch is read back with its metrics as saved. */
  lemma ReadBack(t: Table, batch: seq<WorkflowMetrics>, now: string, w: WorkflowMetrics)
    requires WellFormed(t)
    requires LastWithKey(batch, RecordKey(w)) == Some(w)
    ensures StoredView(w, now) in Select(SaveAll(t, batch, now).rows, None, None)
    ensures StoredView(w, now).popularityMetrics == w.popularityMetrics
  {
    var after := SaveAll(t, batch, now).rows;
    SaveAllLastWins(t, batch, now, RecordKey(w));
    SelectExactly(after, None, None, StoredView(w, now));
    assert Find(after, RecordKey(w)).value in after;
  }

  /** One condition of the WHERE clause get_workflows builds. */
  datatype Condition = PlatformIs(platform: string) | CountryIs(country: string)

  predicate Holds(c: Condition, r: Row)
  {
    match c
    case PlatformIs(p) => Text.Lower(r.platform) == Text.Lower(p)
    case CountryIs(x) => Text.Lower(r.country) == Text.Lower(x)
  }

  /** The conditions joined with AND (none at all: no WHERE clause). */
  predicate HoldsAll(conditions: seq<Condition>, r: Row)
  {
    forall i :: 0 <= i < |conditions| ==> Holds(conditions[i], r)
  }

  /** What SQLite's SELECT … WHERE returns: the rows satisfying every condition, in rowid order. */
  function Where(rows: seq<Row>, conditions: seq<Condition>): seq<Row>
  {
    if rows == [] then []
    else
      Where(rows[..|rows| - 1], conditions) +
      (if HoldsAll(conditions, rows[|rows| - 1]) then [rows[|rows| - 1]] else [])
  }

  /** Evaluating a WHERE clause equivalent to the filters selects exactly what Select describes. */
  lemma {:induction false} WhereIsSelect(rows: seq<Row>, conditions: seq<Condition>, platform: Option<string>, country: Option<string>)
    requires forall r :: HoldsAll(conditions, r) <==> Matches(r, platform, country)
    ensures Views(Where(rows, conditions)) == Select(rows, platform, country)
  {
    if rows != [] {
      var prefix := rows[..|rows| - 1];
      WhereIsSelect(prefix, conditions, platform, country);
      var w := Where(prefix, conditions);
      if Matches(rows[|rows| - 1], platform, country) {
        assert Views(w + [rows[|rows| - 1]]) == Views(w) + [ViewOf(rows[|rows| - 1])];
      }
    }
  }

  /** The WHERE clause get_workflows builds: one case-insensitive condition per given filter, joined with AND. */
  method WhereClause(platform: Option<string>, country: Option<string>) returns (conditions: seq<Condition>)
    ensures forall r :: HoldsAll(conditions, r) <==> Matches(r, platform, country)
  {
    conditions := [];
    if Given(platform) || Given(country) {
      if Given(platform) {
        conditions := conditions + [PlatformIs(platform.value)];
      }
      if Given(country) {
        conditions := conditions + [CountryIs(country.value)];
      }
    }
    forall r ensures HoldsAll(conditions, r) <==> Matches(r, platform, country) {
      if Given(platform) && Given(country) {
        assert Holds(conditions[0], r) && Holds(conditions[1], r) <==> HoldsAll(conditions, r);
      } else if Given(platform) || Given(country) {
        assert Holds(conditions[0], r) <==> HoldsAll(conditions, r);
      }
    }
  }

  /** The loop turning each fetched row into its dictionary, in fetch order. */
  method RowDicts(fetched: seq<Row>) returns (results: seq<View>)
    ensures results == Views(fetched)
  {
    results := [];
    var i := 0;
    while i < |fetched|
      invariant 0 <= i <= |fetched|
      invariant results == Views(fetched[..i])
    {
      assert fetched[..i + 1][..i] == fetched[..i];
      results := results + [ViewOf(fetched[i])];
      i := i + 1;
    }
    assert fetched[..i] == fetched;
  }

  /** DatabaseManager: a connection-less handle on the workflows table of one database file. */
  class DatabaseManager {
    /** Whether the file holds the workflows table yet. */
    var tableExists: bool
    var rows: seq<Row>
    var nextId: nat
    /** Every batch save_workflows was called with, oldest first. */
    ghost var batches: seq<seq<WorkflowMetrics>>

    ghost predicate Valid()
      reads this
    {
      WellFormed(Table(rows, nextId)) && (!tableExists ==> Table(rows, nextId) == FreshTable)
    }

    function State(): Table
      reads this
    {
      Table(rows, nextId)
    }

    /** DatabaseManager(db_path) on a file holding the given table (None: no workflows table yet). */
    constructor (file: Option<Table>)
      requires file.Some? ==> WellFormed(file.value)
      ensures Valid() && tableExists
      ensures State() == if file.Some? then file.value else FreshTable
      ensures batches == []
    {
      tableExists := file.Some?;
      rows := if file.Some? then file.value.rows else [];
      nextId := if file.Some? then file.value.nextId else 1;
      batches := [];
      new;
      InitDatabase();
    }

    /** init_database: CREATE TABLE IF NOT EXISTS. On an existing table it changes nothing. */
    method InitDatabase()
      requires Valid()
      modifies this
      ensures Valid() && tableExists
      ensures old(tableExists) ==> State() == old(State())
      ensures !old(tableExists) ==> State() == FreshTable
      ensures batches == old(batches)
    {
      if !tableExists {
        tableExists := true;
        rows := [];
        nextId := 1;
      }
    }

    /** save_workflows: one INSERT OR REPLACE per record, in batch order, then commit. */
    method SaveWorkflows(workflows: seq<WorkflowMetrics>, now: string)
      requires Valid() && tableExists
      modifies this
      ensures Valid() && tableExists
      ensures State() == SaveAll(old(State()), workflows, now)
      ensures batches == old(batches) + [workflows]
    {
      ghost var start := State();
      var i := 0;
      while i < |workflows|
        invariant 0 <= i <= |workflows|
        invariant tableExists && batches == old(batches)
        invariant State() == SaveAll(start, workflows[..i], now)
      {
        assert workflows[..i + 1][..i] == workflows[..i];
        var w := workflows[i];
        rows := Without(rows, RecordKey(w)) + [RowFor(w, nextId, now)];
        nextId := nextId + 1;
        i := i + 1;
      }
      assert workflows[..i] == workflows;
      SaveAllWellFormed(start, workflows, now);
      batches := batches + [workflows];
    }

    /** get_workflows(platform, country): build the WHERE clause, run the query, map each row to its dictionary. */
    method GetWorkflows(platform: Option<string>, country: Option<string>) returns (results: seq<View>)
      requires Valid() && tableExists
      ensures results == Select(rows, platform, country)
    {
      var conditions := WhereClause(platform, country);
      var fetched := Where(rows, conditions);
      results := RowDicts(fetched);
      WhereIsSelect(rows, conditions, platform, country);
    }
  }
}
