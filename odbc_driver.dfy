/**
 * The ODBC driver's v6 data operations (`dballe/db/odbc/driver.cc`):
 * `bulk_insert_v6`, which sorts a batch of values, classifies each one
 * against the rows already stored for the same station, report and
 * datetime, then runs an update pass and an insert pass;
 * `run_delete_query_v6`, which removes each selected datum with its
 * attributes; and the outcome of `create_tables_v5`/`create_tables_v6`.
 *
 * The database is an object of its own (`V6Database`) holding the `data`
 * and `attr` tables as sequences of rows, the next auto-increment id and the
 * settings table. The merge-join classifier `AnnotateVarsV6` is not part of
 * this model; its classification is stated by key lookup in `Annotate`.
 */
module OdbcDriver {
  import opened Wrappers
  import opened Defs

  datatype ServerType = MySQL | SQLite | Oracle | Postgres

  /** The flags `annotate` and the two passes set on a value of the batch. */
  datatype Status = Untouched | NeedsUpdate | NeedsInsert | Updated | Inserted

  /** One value of a `bulk::InsertV6` batch. */
  datatype BulkVar = BulkVar(idLevtr: int, code: int, value: string, idData: int, status: Status)

  /** A row of the v6 `data` table. */
  datatype DataRow = DataRow(id: int, idStation: int, idReport: int, datetime: Datetime,
                             idLevtr: int, code: int, value: string)

  /** A row of the v6 `attr` table. */
  datatype AttrRow = AttrRow(idData: int, attrType: int, value: string)

  /** The station, report and datetime a batch belongs to. */
  datatype Context = Context(idStation: int, idReport: int, datetime: Datetime)

  // ------------------------------------------------------------ sorting

  /** The batch order: by level/time range id, then by variable code. */
  predicate VarLe(a: BulkVar, b: BulkVar)
  {
    a.idLevtr < b.idLevtr || (a.idLevtr == b.idLevtr && a.code <= b.code)
  }

  predicate SortedVars(s: seq<BulkVar>)
  {
    forall i, j :: 0 <= i < j < |s| ==> VarLe(s[i], s[j])
  }

  function InsertSorted(x: BulkVar, s: seq<BulkVar>): (r: seq<BulkVar>)
    requires SortedVars(s)
    ensures SortedVars(r)
    ensures multiset(r) == multiset(s) + multiset{x} && |r| == |s| + 1
    decreases |s|
  {
    if s == [] then [x]
    else if VarLe(x, s[0]) then [x] + s
    else
      var rest := InsertSorted(x, s[1..]);
      assert s == [s[0]] + s[1..];
      forall k | 0 <= k < |rest| ensures VarLe(s[0], rest[k]) {
        assert rest[k] in multiset(rest);
        if rest[k] != x {
          assert rest[k] in multiset(s[1..]);
          var m :| 0 <= m < |s[1..]| && s[1..][m] == rest[k];
          assert s[m + 1] == rest[k];
        }
      }
      [s[0]] + rest
  }

  /** `std::sort` of the batch: sorted, and a permutation of it. */
  function SortVars(s: seq<BulkVar>): (r: seq<BulkVar>)
    ensures SortedVars(r)
    ensures multiset(r) == multiset(s) && |r| == |s|
    decreases |s|
  {
    if s == [] then []
    else
      assert s == [s[0]] + s[1..];
      InsertSorted(s[0], SortVars(s[1..]))
  }

  // ------------------------------------------------------------ annotate

  /** The rows of the `data` table that belong to a context: the SELECT of `bulk_insert_v6`. */
  function Select(rows: seq<DataRow>, ctx: Context): (r: seq<DataRow>)
    ensures forall k :: 0 <= k < |r| ==> r[k] in rows
    ensures forall k :: 0 <= k < |r| ==> Context(r[k].idStation, r[k].idReport, r[k].datetime) == ctx
    decreases |rows|
  {
    if rows == [] then []
    else if Context(rows[0].idStation, rows[0].idReport, rows[0].datetime) == ctx then [rows[0]] + Select(rows[1..], ctx)
    else Select(rows[1..], ctx)
  }

  /** The stored row of a level/time range and variable among the selected rows, if any. */
  function FindStored(fetched: seq<DataRow>, idLevtr: int, code: int): (r: Option<DataRow>)
    ensures r.None? <==> forall k :: 0 <= k < |fetched| ==> !(fetched[k].idLevtr == idLevtr && fetched[k].code == code)
    ensures r.Some? ==> r.value in fetched && r.value.idLevtr == idLevtr && r.value.code == code
    decreases |fetched|
  {
    if fetched == [] then None
    else if fetched[0].idLevtr == idLevtr && fetched[0].code == code then Some(fetched[0])
    else
      var r := FindStored(fetched[1..], idLevtr, code);
      assert forall k :: 1 <= k < |fetched| ==> fetched[k] == fetched[1..][k - 1];
      r
  }

  /**
   * The classification `annotate` gives a value: one not yet stored needs
   * an insert; a stored one takes the row's id, and needs an update when
   * its value differs from the stored one.
   */
  function AnnotateOne(v: BulkVar, fetched: seq<DataRow>): BulkVar
  {
    match FindStored(fetched, v.idLevtr, v.code)
    case None => v.(status := NeedsInsert)
    case Some(row) =>
      if row.value == v.value then v.(idData := row.id, status := Untouched)
      else v.(idData := row.id, status := NeedsUpdate)
  }

  function Annotate(items: seq<BulkVar>, fetched: seq<DataRow>): (r: seq<BulkVar>)
    ensures |r| == |items|
  {
    seq(|items|, i requires 0 <= i < |items| => AnnotateOne(items[i], fetched))
  }

  /** `todo.do_update` / `todo.do_insert`: some value carries the flag. */
  predicate HasStatus(items: seq<BulkVar>, st: Status)
  {
    exists i :: 0 <= i < |items| && items[i].status == st
  }

  // ------------------------------------------------------------ the update pass

  function MarkUpdated(v: BulkVar): BulkVar
  {
    if v.status == NeedsUpdate then v.(status := Updated) else v
  }

  /** The batch after the update pass: each value needing an update is marked updated. */
  function UpdatedItems(items: seq<BulkVar>): (r: seq<BulkVar>)
    ensures |r| == |items|
  {
    seq(|items|, i requires 0 <= i < |items| => MarkUpdated(items[i]))
  }

  /** `UPDATE data SET value=? WHERE id=?`. */
  function SetValueById(rows: seq<DataRow>, id: int, value: string): (r: seq<DataRow>)
    ensures |r| == |rows|
  {
    seq(|rows|, j requires 0 <= j < |rows| => if rows[j].id == id then rows[j].(value := value) else rows[j])
  }

  /** The `data` table after the update pass has run over the batch. */
  function UpdateRows(rows: seq<DataRow>, items: seq<BulkVar>): (r: seq<DataRow>)
    ensures |r| == |rows|
    decreases |items|
  {
    if items == [] then rows
    else
      var last := items[|items| - 1];
      var r := UpdateRows(rows, items[..|items| - 1]);
      if last.status == NeedsUpdate then SetValueById(r, last.idData, last.value) else r
  }

  /** The update pass keeps every row's id and key, and leaves alone each row no value of the batch targets. */
  lemma {:induction false} UpdateRowsKeepsOthers(rows: seq<DataRow>, items: seq<BulkVar>, j: nat)
    requires j < |rows|
    ensures UpdateRows(rows, items)[j] == rows[j].(value := UpdateRows(rows, items)[j].value)
    ensures (forall k :: 0 <= k < |items| && items[k].status == NeedsUpdate ==> items[k].idData != rows[j].id)
            ==> UpdateRows(rows, items)[j] == rows[j]
    decreases |items|
  {
    if items != [] {
      var init := items[..|items| - 1];
      UpdateRowsKeepsOthers(rows, init, j);
      assert forall k :: 0 <= k < |init| ==> init[k] == items[k];
    }
  }

  /** A row targeted by a value of the batch ends up holding the value of the last such one. */
  lemma {:induction false} UpdateRowsStores(rows: seq<DataRow>, items: seq<BulkVar>, j: nat, k: nat)
    requires j < |rows| && k < |items|
    requires items[k].status == NeedsUpdate && items[k].idData == rows[j].id
    requires forall m :: k < m < |items| && items[m].status == NeedsUpdate ==> items[m].idData != rows[j].id
    ensures UpdateRows(rows, items)[j].value == items[k].value
    decreases |items|
  {
    var init := items[..|items| - 1];
    UpdateRowsKeepsOthers(rows, init, j);
    if k < |items| - 1 {
      UpdateRowsStores(rows, init, j, k);
    }
  }

  // ------------------------------------------------------------ the insert pass

  /** The number of values of the batch that need an insert. */
  function CountInserts(items: seq<BulkVar>): (n: nat)
    ensures n <= |items|
    decreases |items|
  {
    if items == [] then 0
    else CountInserts(items[..|items| - 1]) + (if items[|items| - 1].status == NeedsInsert then 1 else 0)
  }

  function MarkInserted(v: BulkVar, id: int): BulkVar
  {
    if v.status == NeedsInsert then v.(idData := id, status := Inserted) else v
  }

  /** The batch after the insert pass: the n-th value needing an insert gets id `next + n` and is marked inserted. */
  function InsertedItems(items: seq<BulkVar>, next: int): (r: seq<BulkVar>)
    ensures |r| == |items|
    decreases |items|
  {
    if items == [] then []
    else
      var init := items[..|items| - 1];
      InsertedItems(init, next) + [MarkInserted(items[|items| - 1], next + CountInserts(init))]
  }

  /** The row the insert pass adds for a value. */
  function NewRow(v: BulkVar, id: int, ctx: Context): DataRow
  {
    DataRow(id, ctx.idStation, ctx.idReport, ctx.datetime, v.idLevtr, v.code, v.value)
  }

  /** The rows one value adds: its new row with id `id` when it needs an insert, else none. */
  function AddedRows(v: BulkVar, id: int, ctx: Context): seq<DataRow>
  {
    if v.status == NeedsInsert then [NewRow(v, id, ctx)] else []
  }

  /** The ids one value takes: one when it needs an insert, else none. */
  function InsertCount(v: BulkVar): nat
  {
    if v.status == NeedsInsert then 1 else 0
  }

  /** The rows the insert pass appends to the `data` table, one per value needing an insert, in order. */
  function NewRows(items: seq<BulkVar>, next: int, ctx: Context): (r: seq<DataRow>)
    ensures |r| == CountInserts(items)
    decreases |items|
  {
    if items == [] then []
    else
      var init := items[..|items| - 1];
      var last := items[|items| - 1];
      NewRows(init, next, ctx) + (if last.status == NeedsInsert then [NewRow(last, next + CountInserts(init), ctx)] else [])
  }

  /** One more value of the batch: the count and the appended rows grow by its insert, if it needs one. */
  lemma InsertStep(seen: seq<BulkVar>, v: BulkVar, next: int, ctx: Context)
    ensures CountInserts(seen + [v]) == CountInserts(seen) + InsertCount(v)
    ensures InsertedItems(seen + [v], next) == InsertedItems(seen, next) + [MarkInserted(v, next + CountInserts(seen))]
    ensures NewRows(seen + [v], next, ctx) == NewRows(seen, next, ctx) + AddedRows(v, next + CountInserts(seen), ctx)
  {
    assert (seen + [v])[..|seen|] == seen;
  }


  /**
   * The insert pass after value `i`: from the batch, the rows and the
   * counter after the first `i` values, one more insert gives those after
   * the first `i + 1`.
   */
  lemma InsertAdvance(items: seq<BulkVar>, i: int, next: int, ctx: Context,
                      rows0: seq<DataRow>, data: seq<DataRow>, counter: int, out: seq<BulkVar>)
    requires 0 <= i < |items|
    requires out == InsertedItems(items[..i], next)
    requires data == rows0 + NewRows(items[..i], next, ctx)
    requires counter == next + CountInserts(items[..i])
    ensures out + [MarkInserted(items[i], counter)] == InsertedItems(items[..i + 1], next)
    ensures data + AddedRows(items[i], counter, ctx) == rows0 + NewRows(items[..i + 1], next, ctx)
    ensures counter + InsertCount(items[i]) == next + CountInserts(items[..i + 1])
  {
    assert items[..i + 1] == items[..i] + [items[i]];
    InsertStep(items[..i], items[i], next, ctx);
    assert data + AddedRows(items[i], counter, ctx)
        == rows0 + (NewRows(items[..i], next, ctx) + AddedRows(items[i], counter, ctx));
  }

  /** The appended rows take consecutive ids from `next` on. */
  lemma {:induction false} NewRowsIds(items: seq<BulkVar>, next: int, ctx: Context)
    ensures forall k :: 0 <= k < |NewRows(items, next, ctx)| ==> NewRows(items, next, ctx)[k].id == next + k
    decreases |items|
  {
    if items != [] {
      NewRowsIds(items[..|items| - 1], next, ctx);
    }
  }

  // ------------------------------------------------------------ the database

  /** The tables `bulk_insert_v6` and `run_delete_query_v6` act on. */
  class V6Database {
    var data: seq<DataRow>
    var attr: seq<AttrRow>
    /** The id the next INSERT into `data` receives. */
    var autoIncrement: int
    var settings: map<string, string>

    /** Every stored id was handed out by the auto-increment counter. */
    ghost predicate Valid()
      reads this
    {
      IdsBelow(data, autoIncrement)
    }

    constructor ()
      ensures Valid() && data == [] && attr == [] && settings == map[]
    {
      data := [];
      attr := [];
      autoIncrement := 1;
      settings := map[];
    }

    /** `UPDATE data SET value=? WHERE id=?`. */
    method UpdateValue(id: int, value: string)
      modifies this`data
      ensures data == SetValueById(old(data), id, value)
    {
      data := SetValueById(data, id, value);
    }

    /** The INSERT of the insert pass, followed by `get_last_insert_id`. */
    method InsertRow(v: BulkVar, ctx: Context) returns (id: int)
      modifies this`data, this`autoIncrement
      ensures id == old(autoIncrement) && autoIncrement == id + 1
      ensures data == old(data) + [NewRow(v, id, ctx)]
    {
      id := autoIncrement;
      data := data + [NewRow(v, id, ctx)];
      autoIncrement := autoIncrement + 1;
    }
  }

  /** A `bulk::InsertV6` batch: its context and its values. */
  class InsertV6 {
    const ctx: Context
    var items: seq<BulkVar>

    constructor (ctx: Context, items: seq<BulkVar>)
      ensures this.ctx == ctx && this.items == items
    {
      this.ctx := ctx;
      this.items := items;
    }
  }

  /** The batch after the whole of `bulk_insert_v6`. */
  function BulkItems(items: seq<BulkVar>, rows: seq<DataRow>, ctx: Context, updateExisting: bool, next: int): seq<BulkVar>
  {
    var annotated := Annotate(SortVars(items), Select(rows, ctx));
    InsertedItems(if updateExisting then UpdatedItems(annotated) else annotated, next)
  }

  /** The `data` table after the whole of `bulk_insert_v6`. */
  function BulkRows(items: seq<BulkVar>, rows: seq<DataRow>, ctx: Context, updateExisting: bool, next: int): seq<DataRow>
  {
    var annotated := Annotate(SortVars(items), Select(rows, ctx));
    (if updateExisting then UpdateRows(rows, annotated) else rows) + NewRows(annotated, next, ctx)
  }

  /** The update pass only flips statuses of values needing an update, so the insert pass sees the same inserts. */
  lemma {:induction false} UpdatedKeepsInserts(items: seq<BulkVar>, next: int, ctx: Context)
    ensures CountInserts(UpdatedItems(items)) == CountInserts(items)
    ensures NewRows(UpdatedItems(items), next, ctx) == NewRows(items, next, ctx)
    decreases |items|
  {
    if items != [] {
      var init := items[..|items| - 1];
      assert UpdatedItems(items)[..|items| - 1] == UpdatedItems(init);
      UpdatedKeepsInserts(init, next, ctx);
    }
  }

  /** The update pass leaves every value needing an insert where it is, and adds none. */
  lemma UpdatedInsertStatus(items: seq<BulkVar>)
    ensures HasStatus(UpdatedItems(items), NeedsInsert) == HasStatus(items, NeedsInsert)
  {
    var u := UpdatedItems(items);
    if HasStatus(u, NeedsInsert) {
      var i :| 0 <= i < |u| && u[i].status == NeedsInsert;
      assert items[i].status == NeedsInsert;
    }
    if HasStatus(items, NeedsInsert) {
      var i :| 0 <= i < |items| && items[i].status == NeedsInsert;
      assert u[i].status == NeedsInsert;
    }
  }

  /** Without any value needing an update, the update pass changes nothing: `do_update` is only a shortcut. */
  lemma {:induction false} NoUpdatesNoChange(rows: seq<DataRow>, items: seq<BulkVar>)
    requires !HasStatus(items, NeedsUpdate)
    ensures UpdatedItems(items) == items
    ensures UpdateRows(rows, items) == rows
    decreases |items|
  {
    if items != [] {
      var init := items[..|items| - 1];
      assert !HasStatus(init, NeedsUpdate) by {
        forall i | 0 <= i < |init| ensures init[i].status != NeedsUpdate {
          assert init[i] == items[i];
        }
      }
      NoUpdatesNoChange(rows, init);
    }
  }

  /** Without any value needing an insert, the insert pass changes nothing: `do_insert` is only a shortcut. */
  lemma {:induction false} NoInsertsNoChange(items: seq<BulkVar>, next: int, ctx: Context)
    requires !HasStatus(items, NeedsInsert)
    ensures InsertedItems(items, next) == items
    ensures NewRows(items, next, ctx) == []
    decreases |items|
  {
    if items != [] {
      var init := items[..|items| - 1];
      assert !HasStatus(init, NeedsInsert) by {
        forall i | 0 <= i < |init| ensures init[i].status != NeedsInsert {
          assert init[i] == items[i];
        }
      }
      NoInsertsNoChange(init, next, ctx);
    }
  }

  /** The i-th value after the insert pass: marked with the id after those of the earlier inserts. */
  lemma {:induction false} InsertedItemsAt(items: seq<BulkVar>, next: int, i: nat)
    requires i < |items|
    ensures InsertedItems(items, next)[i] == MarkInserted(items[i], next + CountInserts(items[..i]))
    decreases |items|
  {
    var init := items[..|items| - 1];
    if i < |items| - 1 {
      InsertedItemsAt(init, next, i);
      assert init[..i] == items[..i];
    }
  }

  /** One value through the classification and both passes, given the id an insert would give it. */
  function Processed(v: BulkVar, fetched: seq<DataRow>, updateExisting: bool, id: int): BulkVar
  {
    var a := AnnotateOne(v, fetched);
    MarkInserted(if updateExisting then MarkUpdated(a) else a, id)
  }

  /**
   * What the classification and the passes make of one value: its key and
   * value are kept, no insert is left pending, an update is left pending
   * only when `updateExisting` is off, and the status tells how the value
   * compares with the stored row of its key.
   */
  lemma ProcessedOutcome(v: BulkVar, fetched: seq<DataRow>, updateExisting: bool, id: int)
    ensures var b := Processed(v, fetched, updateExisting, id);
            var stored := FindStored(fetched, v.idLevtr, v.code);
            b.idLevtr == v.idLevtr && b.code == v.code && b.value == v.value &&
            b.status != NeedsInsert &&
            (b.status == NeedsUpdate ==> !updateExisting) &&
            (b.status == Inserted <==> stored.None?) &&
            (b.status == Inserted ==> b.idData == id) &&
            (b.status == Untouched <==> stored.Some? && stored.value.value == v.value) &&
            (b.status == NeedsUpdate || b.status == Updated <==> stored.Some? && stored.value.value != v.value) &&
            (stored.Some? ==> b.idData == stored.value.id)
  {
  }

  /** What `bulk_insert_v6` leaves in the batch is the sorted batch, each value processed as `Processed` says. */
  lemma BulkItemsOutcome(items: seq<BulkVar>, rows: seq<DataRow>, ctx: Context, updateExisting: bool, next: int, i: nat)
    requires i < |items|
    ensures |BulkItems(items, rows, ctx, updateExisting, next)| == |items|
    ensures exists id :: BulkItems(items, rows, ctx, updateExisting, next)[i]
                         == Processed(SortVars(items)[i], Select(rows, ctx), updateExisting, id)
  {
    var sorted := SortVars(items);
    var fetched := Select(rows, ctx);
    var id := ProcessedAt(sorted, fetched, updateExisting, next, i);
    assert BulkItems(items, rows, ctx, updateExisting, next)[i] == Processed(sorted[i], fetched, updateExisting, id);
  }

  /** Value `i` of a classified batch after both passes, and the id the insert pass would give it. */
  lemma ProcessedAt(sorted: seq<BulkVar>, fetched: seq<DataRow>, updateExisting: bool, next: int, i: nat)
    returns (id: int)
    requires i < |sorted|
    ensures var annotated := Annotate(sorted, fetched);
            InsertedItems(if updateExisting then UpdatedItems(annotated) else annotated, next)[i]
            == Processed(sorted[i], fetched, updateExisting, id)
  {
    var annotated := Annotate(sorted, fetched);
    var passed := if updateExisting then UpdatedItems(annotated) else annotated;
    assert annotated[i] == AnnotateOne(sorted[i], fetched);
    InsertedItemsAt(passed, next, i);
    id := next + CountInserts(passed[..i]);
  }

  /** Every id of the rows is below a bound. */
  predicate IdsBelow(rows: seq<DataRow>, bound: int)
  {
    forall j :: 0 <= j < |rows| ==> rows[j].id < bound
  }

  /** Every id the passes leave in the table was handed out by the counter. */
  lemma BulkRowsValid(rows: seq<DataRow>, todo: seq<BulkVar>, updateExisting: bool, next: int, ctx: Context)
    requires IdsBelow(rows, next)
    ensures IdsBelow((if updateExisting then UpdateRows(rows, todo) else rows) + NewRows(todo, next, ctx),
                     next + CountInserts(todo))
  {
    var u := if updateExisting then UpdateRows(rows, todo) else rows;
    var r := u + NewRows(todo, next, ctx);
    NewRowsIds(todo, next, ctx);
    forall j | 0 <= j < |r| ensures r[j].id < next + CountInserts(todo) {
      if j < |u| && updateExisting {
        UpdateRowsKeepsOthers(rows, todo, j);
      }
    }
  }

  /** The ODBC driver of a database. */
  class Driver {
    const serverType: ServerType
    const db: V6Database

    constructor (serverType: ServerType, db: V6Database)
      ensures this.serverType == serverType && this.db == db
    {
      this.serverType := serverType;
      this.db := db;
    }

    /** The update pass: each value needing an update has its row's value replaced, and is marked updated. */
    method UpdatePass(items: seq<BulkVar>) returns (out: seq<BulkVar>)
      modifies db`data
      ensures out == UpdatedItems(items)
      ensures db.data == UpdateRows(old(db.data), items)
    {
      ghost var rows0 := db.data;
      out := items;
      var i := 0;
      while i < |items|
        invariant 0 <= i <= |items| && |out| == |items|
        invariant forall k :: 0 <= k < i ==> out[k] == MarkUpdated(items[k])
        invariant forall k :: i <= k < |items| ==> out[k] == items[k]
        invariant db.data == UpdateRows(rows0, items[..i])
      {
        assert items[..i + 1][..i] == items[..i];
        if items[i].status == NeedsUpdate {
          db.UpdateValue(items[i].idData, items[i].value);
          out := out[i := items[i].(status := Updated)];
        }
        i := i + 1;
      }
      assert items[..i] == items;
    }

    /** One value of the insert pass: a value needing an insert gets a new row, takes its id, and is marked inserted. */
    method InsertOne(v: BulkVar, ctx: Context) returns (r: BulkVar)
      modifies db`data, db`autoIncrement
      ensures r == MarkInserted(v, old(db.autoIncrement))
      ensures db.data == old(db.data) + AddedRows(v, old(db.autoIncrement), ctx)
      ensures db.autoIncrement == old(db.autoIncrement) + InsertCount(v)
    {
      r := v;
      if v.status == NeedsInsert {
        var id := db.InsertRow(v, ctx);
        r := v.(idData := id, status := Inserted);
      } else {
        assert db.data == old(db.data) + [];
      }
    }

    /** The insert pass: each value needing an insert gets a new row, takes its id, and is marked inserted. */
    method InsertPass(items: seq<BulkVar>, ctx: Context) returns (out: seq<BulkVar>)
      modifies db`data, db`autoIncrement
      ensures out == InsertedItems(items, old(db.autoIncrement))
      ensures db.data == old(db.data) + NewRows(items, old(db.autoIncrement), ctx)
      ensures db.autoIncrement == old(db.autoIncrement) + CountInserts(items)
    {
      ghost var rows0 := db.data;
      ghost var next := db.autoIncrement;
      out := [];
      var i := 0;
      while i < |items|
        invariant 0 <= i <= |items|
        invariant out == InsertedItems(items[..i], next)
        invariant db.data == rows0 + NewRows(items[..i], next, ctx)
        invariant db.autoIncrement == next + CountInserts(items[..i])
      {
        InsertAdvance(items, i, next, ctx, rows0, db.data, db.autoIncrement, out);
        var v := InsertOne(items[i], ctx);
        out := out + [v];
        i := i + 1;
      }
      assert items[..i] == items;
    }

    /**
     * The two passes over a classified batch: the update pass when
     * `updateExisting` is set and some value needs an update, then the
     * insert pass when some value needs an insert.
     */
    method RunPasses(todo: seq<BulkVar>, updateExisting: bool, ctx: Context) returns (out: seq<BulkVar>)
      modifies db`data, db`autoIncrement
      ensures out == InsertedItems(if updateExisting then UpdatedItems(todo) else todo, old(db.autoIncrement))
      ensures db.data == (if updateExisting then UpdateRows(old(db.data), todo) else old(db.data))
                         + NewRows(todo, old(db.autoIncrement), ctx)
      ensures db.autoIncrement == old(db.autoIncrement) + CountInserts(todo)
    {
      ghost var next := db.autoIncrement;
      var mid := FirstPass(todo, updateExisting);
      UpdatedKeepsInserts(todo, next, ctx);
      UpdatedInsertStatus(todo);
      var doInsert := HasStatus(todo, NeedsInsert);
      if doInsert {
        out := InsertPass(mid, ctx);
      } else {
        out := mid;
        NoInsertsNoChange(mid, next, ctx);
      }
    }

    /** The update pass, run when `updateExisting` is set and some value needs an update. */
    method FirstPass(todo: seq<BulkVar>, updateExisting: bool) returns (out: seq<BulkVar>)
      modifies db`data
      ensures out == if updateExisting then UpdatedItems(todo) else todo
      ensures db.data == if updateExisting then UpdateRows(old(db.data), todo) else old(db.data)
    {
      var doUpdate := HasStatus(todo, NeedsUpdate);
      out := todo;
      if updateExisting && doUpdate {
        out := UpdatePass(todo);
      } else if updateExisting {
        NoUpdatesNoChange(db.data, todo);
      }
    }

    /**
     * `bulk_insert_v6`: sort the batch, select the stored rows of its
     * context and classify the batch against them, then run the two passes.
     */
    method BulkInsertV6(vars: InsertV6, updateExisting: bool)
      requires db.Valid()
      modifies vars, db`data, db`autoIncrement
      ensures db.Valid()
      ensures vars.items == BulkItems(old(vars.items), old(db.data), vars.ctx, updateExisting, old(db.autoIncrement))
      ensures db.data == BulkRows(old(vars.items), old(db.data), vars.ctx, updateExisting, old(db.autoIncrement))
    {
      vars.items := SortVars(vars.items);
      var fetched := Select(db.data, vars.ctx);
      var todo := Annotate(vars.items, fetched);
      ghost var rows0 := db.data;
      ghost var next := db.autoIncrement;
      vars.items := RunPasses(todo, updateExisting, vars.ctx);
      BulkRowsValid(rows0, todo, updateExisting, next, vars.ctx);
    }

    /**
     * `run_delete_query_v6`: for each data id the query selects, delete
     * the data row with that id and every attribute row of it.
     */
    method RunDeleteQueryV6(selected: seq<int>)
      modifies db`data, db`attr
      ensures db.data == KeepData(old(db.data), Ids(selected))
      ensures db.attr == KeepAttrs(old(db.attr), Ids(selected))
    {
      ghost var data0 := db.data;
      ghost var attr0 := db.attr;
      KeepNothing(data0, attr0);
      assert Ids(selected[..0]) == {};
      var i := 0;
      while i < |selected|
        invariant 0 <= i <= |selected|
        invariant db.data == KeepData(data0, Ids(selected[..i]))
        invariant db.attr == KeepAttrs(attr0, Ids(selected[..i]))
      {
        IdsStep(selected, i);
        // DELETE FROM data WHERE id=?
        KeepDataTwice(data0, Ids(selected[..i]), selected[i]);
        db.data := KeepData(db.data, {selected[i]});
        // DELETE FROM attr WHERE id_data=?
        KeepAttrsTwice(attr0, Ids(selected[..i]), selected[i]);
        db.attr := KeepAttrs(db.attr, {selected[i]});
        i := i + 1;
      }
      assert selected[..i] == selected;
    }

    /** `create_tables_v5`: only MySQL and Oracle are supported; success records version V5. */
    method CreateTablesV5() returns (r: Result<()>)
      modifies db`settings
      ensures r.Ok? <==> serverType == MySQL || serverType == Oracle
      ensures r.Ok? ==> db.settings == old(db.settings)["version" := "V5"]
      ensures r.Err? ==> r.error.Unimplemented? && db.settings == old(db.settings)
    {
      if serverType != MySQL && serverType != Oracle {
        return Err(Unimplemented("ODBC connection is only supported for MySQL and Oracle"));
      }
      // the DDL of the supported servers is not modelled
      db.settings := db.settings["version" := "V5"];
      return Ok(());
    }

    /** `create_tables_v6`: only MySQL and Oracle are supported; success records version V6. */
    method CreateTablesV6() returns (r: Result<()>)
      modifies db`settings
      ensures r.Ok? <==> serverType == MySQL || serverType == Oracle
      ensures r.Ok? ==> db.settings == old(db.settings)["version" := "V6"]
      ensures r.Err? ==> r.error.Unimplemented? && db.settings == old(db.settings)
    {
      if serverType != MySQL && serverType != Oracle {
        return Err(Unimplemented("ODBC connection is only supported for MySQL and Oracle"));
      }
      // the DDL of the supported servers is not modelled
      db.settings := db.settings["version" := "V6"];
      return Ok(());
    }
  }

  // ------------------------------------------------------------ deletion

  /** The data rows whose id is not among `gone`, in order. */
  function KeepData(rows: seq<DataRow>, gone: set<int>): (r: seq<DataRow>)
    ensures forall k :: 0 <= k < |r| ==> r[k] in rows && r[k].id !in gone
    ensures forall k :: 0 <= k < |rows| && rows[k].id !in gone ==> rows[k] in r
    decreases |rows|
  {
    if rows == [] then []
    else if rows[0].id in gone then KeepData(rows[1..], gone)
    else [rows[0]] + KeepData(rows[1..], gone)
  }

  /** The attribute rows whose datum is not among `gone`, in order. */
  function KeepAttrs(rows: seq<AttrRow>, gone: set<int>): (r: seq<AttrRow>)
    ensures forall k :: 0 <= k < |r| ==> r[k] in rows && r[k].idData !in gone
    ensures forall k :: 0 <= k < |rows| && rows[k].idData !in gone ==> rows[k] in r
    decreases |rows|
  {
    if rows == [] then []
    else if rows[0].idData in gone then KeepAttrs(rows[1..], gone)
    else [rows[0]] + KeepAttrs(rows[1..], gone)
  }

  /** The ids a query selected, as a set. */
  function Ids(selected: seq<int>): set<int>
  {
    set x | x in selected
  }

  lemma IdsStep(selected: seq<int>, i: nat)
    requires i < |selected|
    ensures Ids(selected[..i + 1]) == Ids(selected[..i]) + {selected[i]}
  {
    assert selected[..i + 1] == selected[..i] + [selected[i]];
  }

  /** Deleting no id keeps every row. */
  lemma {:induction false} KeepNothing(data: seq<DataRow>, attr: seq<AttrRow>)
    ensures KeepData(data, {}) == data && KeepAttrs(attr, {}) == attr
    decreases |data| + |attr|
  {
    if data != [] {
      KeepNothing(data[1..], attr);
      assert data == [data[0]] + data[1..];
    }
    if attr != [] {
      KeepNothing(data, attr[1..]);
      assert attr == [attr[0]] + attr[1..];
    }
  }

  /** Deleting one more id after a set of them is deleting the union. */
  lemma {:induction false} KeepDataTwice(rows: seq<DataRow>, gone: set<int>, id: int)
    ensures KeepData(KeepData(rows, gone), {id}) == KeepData(rows, gone + {id})
    decreases |rows|
  {
    if rows != [] {
      KeepDataTwice(rows[1..], gone, id);
    }
  }

  lemma {:induction false} KeepAttrsTwice(rows: seq<AttrRow>, gone: set<int>, id: int)
    ensures KeepAttrs(KeepAttrs(rows, gone), {id}) == KeepAttrs(rows, gone + {id})
    decreases |rows|
  {
    if rows != [] {
      KeepAttrsTwice(rows[1..], gone, id);
    }
  }
}
