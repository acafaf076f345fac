/** The bar tables: current rows, append-only revisions and version receipts, as the upsert statement,
    the table triggers and the receipt reconciliation change them.

    A failed transaction leaves the tables as they were. */
module BarVersions {
  import opened Common
  import opened Sorting
  import opened BarBatches

  datatype Version = Version(values: Values, fetchedAt: int, asOf: int, recordedAt: int)

  datatype Revision = Revision(key: BarKey, previous: Version, incoming: Version)

  datatype VersionId = VersionId(key: BarKey, recordedAt: int)

  datatype Database = Database(
    bars: map<BarKey, Version>, revisions: seq<Revision>, receipts: map<VersionId, int>)

  /** A revision the planner expects: the stored row and the incoming one. */
  datatype PlannedRevision = PlannedRevision(key: BarKey, previous: Version, incoming: BarRow)

  const EMPTY := Database(map[], [], map[])

  // ---- planning ----

  predicate Newer(row: BarRow, stored: Version) {
    stored.asOf < row.asOf && stored.fetchedAt < row.fetchedAt
  }

  function PlanRow(bars: map<BarKey, Version>, row: BarRow): Option<seq<PlannedRevision>> {
    if row.key !in bars || bars[row.key].values == row.values then Some([])
    else if !Newer(row, bars[row.key]) then None
    else Some([PlannedRevision(row.key, bars[row.key], row)])
  }

  function PlanRows(bars: map<BarKey, Version>, rows: seq<BarRow>): Option<seq<PlannedRevision>> {
    if rows == [] then Some([])
    else
      match PlanRows(bars, Init(rows))
      case None => None
      case Some(planned) =>
        match PlanRow(bars, Last(rows))
        case None => None
        case Some(more) => Some(planned + more)
  }

  method BuildBarUpsertPlan(bars: map<BarKey, Version>, batch: seq<BarRow>)
    returns (r: Option<(seq<BarRow>, seq<PlannedRevision>)>)
    ensures r == match Deduped(batch)
                 case None => None
                 case Some(rows) =>
                   match PlanRows(bars, rows)
                   case None => None
                   case Some(revisions) => Some((rows, revisions))
  {
    var deduped := DedupeRows(batch);
    if deduped.None? {
      return None;
    }
    var rows := deduped.value;
    var revisions: seq<PlannedRevision> := [];
    for i := 0 to |rows|
      invariant PlanRows(bars, rows[..i]) == Some(revisions)
    {
      var row := rows[i];
      PlanNext(bars, rows, i);
      if row.key in bars && bars[row.key].values != row.values {
        if row.asOf <= bars[row.key].asOf || row.fetchedAt <= bars[row.key].fetchedAt {
          PlanStops(bars, rows, i + 1);
          return None;
        }
        revisions := revisions + [PlannedRevision(row.key, bars[row.key], row)];
      }
    }
    assert rows[..|rows|] == rows;
    return Some((rows, revisions));
  }

  lemma PlanNext(bars: map<BarKey, Version>, rows: seq<BarRow>, i: nat)
    requires i < |rows| && PlanRows(bars, rows[..i]).Some?
    ensures PlanRows(bars, rows[..i + 1])
         == match PlanRow(bars, rows[i])
            case None => None
            case Some(more) => Some(PlanRows(bars, rows[..i]).value + more)
    ensures PlanRow(bars, rows[i]) == Some([]) ==> PlanRows(bars, rows[..i + 1]) == PlanRows(bars, rows[..i])
  {
    assert Init(rows[..i + 1]) == rows[..i] && Last(rows[..i + 1]) == rows[i];
    assert PlanRows(bars, rows[..i]).value + [] == PlanRows(bars, rows[..i]).value;
  }

  lemma {:induction false} PlanStops(bars: map<BarKey, Version>, rows: seq<BarRow>, i: nat)
    requires i <= |rows| && PlanRows(bars, rows[..i]).None?
    ensures PlanRows(bars, rows).None?
  {
    if i == |rows| {
      assert rows[..i] == rows;
    } else {
      assert Init(rows)[..i] == rows[..i];
      PlanStops(bars, Init(rows), i);
    }
  }

  // ---- writing ----

  function NewVersion(row: BarRow, recordedAt: int): Version {
    Version(row.values, row.fetchedAt, row.asOf, recordedAt)
  }

  /** Insert, or update where a value differs, through the row trigger. The clock reading is the
      trigger's; a version recorded before its own `as_of` violates a table constraint. */
  function WriteRow(db: Database, row: BarRow, clock: int): Option<Database> {
    if row.key !in db.bars then
      if clock < row.asOf then None else Some(db.(bars := db.bars[row.key := NewVersion(row, clock)]))
    else
      var stored := db.bars[row.key];
      if stored.values == row.values then Some(db)
      else if !Newer(row, stored) then None
      else
        var recorded := Max(clock, stored.recordedAt + 1);
        if recorded < row.asOf then None
        else Some(db.(bars := db.bars[row.key := NewVersion(row, recorded)],
                      revisions := db.revisions + [Revision(row.key, stored, NewVersion(row, recorded))]))
  }

  function WriteRows(db: Database, rows: seq<BarRow>, clock: BarKey -> int): Option<Database> {
    if rows == [] then Some(db)
    else
      match WriteRows(db, Init(rows), clock)
      case None => None
      case Some(d) => WriteRow(d, Last(rows), clock(Last(rows).key))
  }

  predicate Persisted(db: Database, rows: seq<BarRow>) {
    forall i :: 0 <= i < |rows| ==> rows[i].key in db.bars && db.bars[rows[i].key].values == rows[i].values
  }

  /** Deduplicate, plan, write, verify. */
  function Upsert(db: Database, batch: seq<BarRow>, clock: BarKey -> int): Option<Database> {
    match Deduped(batch)
    case None => None
    case Some(rows) =>
      if PlanRows(db.bars, rows).None? then None
      else match WriteRows(db, rows, clock)
        case None => None
        case Some(d) => if Persisted(d, rows) then Some(d) else None
  }

  // ---- receipts ----

  /** Everything but the timestamp of the conflict key. */
  function Lane(key: BarKey): BarKey {
    key.(ts := 0)
  }

  /** Every stored version: current rows, and both sides of every revision. */
  function StoredIds(db: Database): set<VersionId> {
    (set k | k in db.bars :: VersionId(k, db.bars[k].recordedAt))
    + (set i | 0 <= i < |db.revisions| :: VersionId(db.revisions[i].key, db.revisions[i].previous.recordedAt))
    + (set i | 0 <= i < |db.revisions| :: VersionId(db.revisions[i].key, db.revisions[i].incoming.recordedAt))
  }

  function MissingIds(db: Database, rows: seq<BarRow>): set<VersionId> {
    var lanes := set r | r in rows :: Lane(r.key);
    set id | id in StoredIds(db) && Lane(id.key) in lanes && id !in db.receipts
  }

  /** Give every unreceipted version of the rows' lanes a receipt, stamped by the database clock. */
  function Finalize(db: Database, batch: seq<BarRow>, clock: VersionId -> int): Option<Database> {
    match Deduped(batch)
    case None => None
    case Some(rows) =>
      var missing := MissingIds(db, rows);
      if exists id :: id in missing && clock(id) < id.recordedAt then None
      else Some(db.(receipts := db.receipts + map id | id in missing :: clock(id)))
  }

  // ---- runs ----

  datatype Event =
    | UpsertBatch(batch: seq<BarRow>, clock: BarKey -> int)
    | FinalizeBatch(batch: seq<BarRow>, stamp: VersionId -> int)

  function Step(db: Database, e: Event): Database {
    var r := match e
             case UpsertBatch(batch, clock) => Upsert(db, batch, clock)
             case FinalizeBatch(batch, stamp) => Finalize(db, batch, stamp);
    if r.Some? then r.value else db
  }

  function Continue(db: Database, events: seq<Event>): Database {
    if events == [] then db else Step(Continue(db, Init(events)), Last(events))
  }

  // ---- the history of one key ----

  function Previous(revisions: seq<Revision>, key: BarKey): seq<Version> {
    if revisions == [] then []
    else Previous(Init(revisions), key) + (if Last(revisions).key == key then [Last(revisions).previous] else [])
  }

  function Incoming(revisions: seq<Revision>, key: BarKey): seq<Version> {
    if revisions == [] then []
    else Incoming(Init(revisions), key) + (if Last(revisions).key == key then [Last(revisions).incoming] else [])
  }

  /** Oldest first: the replaced versions, then the current row. */
  function History(db: Database, key: BarKey): seq<Version> {
    Previous(db.revisions, key) + (if key in db.bars then [db.bars[key]] else [])
  }

  predicate Before(v: Version, w: Version) {
    v.asOf < w.asOf && v.fetchedAt < w.fetchedAt && v.recordedAt < w.recordedAt
  }

  ghost predicate Ascending(vs: seq<Version>) {
    forall i, j :: 0 <= i < j < |vs| ==> Before(vs[i], vs[j])
  }

  /** The revisions of a key link its versions one to the next, up to the current row. */
  ghost predicate KeyOk(db: Database, key: BarKey) {
    var h := History(db, key);
    && (key !in db.bars ==> Previous(db.revisions, key) == [])
    && Incoming(db.revisions, key) == (if h == [] then [] else h[1..])
    && Ascending(h)
    && forall i :: 0 <= i < |h| ==> h[i].asOf <= h[i].recordedAt
  }

  ghost predicate InHistory(db: Database, id: VersionId) {
    exists i :: 0 <= i < |History(db, id.key)| && History(db, id.key)[i].recordedAt == id.recordedAt
  }

  ghost predicate ReceiptOk(db: Database, id: VersionId) {
    id in db.receipts ==> InHistory(db, id) && id.recordedAt <= db.receipts[id]
  }

  ghost predicate Inv(db: Database) {
    && (forall key :: KeyOk(db, key))
    && (forall id :: ReceiptOk(db, id))
  }

  lemma AscendingSnoc(vs: seq<Version>, v: Version)
    requires Ascending(vs) && (vs != [] ==> Before(Last(vs), v))
    ensures Ascending(vs + [v])
  {
    forall i | 0 <= i < |vs| ensures Before(vs[i], v) {
      assert i < |vs| - 1 ==> Before(vs[i], Last(vs));
    }
  }

  lemma UpdateTables(db: Database, row: BarRow, clock: int)
    requires row.key in db.bars && WriteRow(db, row, clock).Some? && db.bars[row.key].values != row.values
    ensures var d := WriteRow(db, row, clock).value; var v := d.bars[row.key];
            && History(db, row.key) == Previous(db.revisions, row.key) + [db.bars[row.key]]
            && History(d, row.key) == History(db, row.key) + [v]
            && Incoming(d.revisions, row.key) == Incoming(db.revisions, row.key) + [v]
            && Before(db.bars[row.key], v) && v.asOf <= v.recordedAt
  {
    var d := WriteRow(db, row, clock).value;
    SnocParts(db.revisions, Last(d.revisions));
  }

  lemma TailSnoc<T>(h: seq<T>, v: T)
    requires h != []
    ensures (h + [v])[1..] == h[1..] + [v]
  {
  }

  lemma UpdateHistory(db: Database, row: BarRow, clock: int)
    requires KeyOk(db, row.key) && row.key in db.bars && db.bars[row.key].values != row.values
    requires WriteRow(db, row, clock).Some?
    ensures var d := WriteRow(db, row, clock).value;
            KeyOk(d, row.key) && History(d, row.key) == History(db, row.key) + [d.bars[row.key]]
  {
    var d := WriteRow(db, row, clock).value;
    var h, v := History(db, row.key), d.bars[row.key];
    assert h[|h| - 1] == db.bars[row.key];
    UpdateTables(db, row, clock);
    AscendingSnoc(h, v);
    TailSnoc(h, v);
  }

  /** What one written row does to the histories: nothing, or one version more for its key. */
  lemma WriteRowHistory(db: Database, row: BarRow, clock: int, key: BarKey)
    requires KeyOk(db, key) && WriteRow(db, row, clock).Some?
    ensures var d := WriteRow(db, row, clock).value;
            && KeyOk(d, key) && d.receipts == db.receipts
            && (History(d, key) == History(db, key)
                || (key == row.key && History(d, key) == History(db, key) + [d.bars[key]]))
  {
    var d := WriteRow(db, row, clock).value;
    if d.revisions != db.revisions {
      SnocParts(db.revisions, Last(d.revisions));
      if key == row.key {
        UpdateHistory(db, row, clock);
      } else {
        assert History(d, key) == History(db, key);
      }
    } else if key != row.key || d == db {
      assert History(d, key) == History(db, key);
    } else {
      assert History(d, key) == [d.bars[key]] && History(db, key) == [];
    }
  }

  lemma InHistoryGrows(db: Database, d: Database, id: VersionId)
    requires InHistory(db, id) && History(db, id.key) <= History(d, id.key)
    ensures InHistory(d, id)
  {
    var i :| 0 <= i < |History(db, id.key)| && History(db, id.key)[i].recordedAt == id.recordedAt;
    assert History(d, id.key)[i] == History(db, id.key)[i];
  }

  ghost predicate Extends(db: Database, d: Database) {
    forall key :: History(db, key) <= History(d, key)
  }

  lemma WriteRowKeeps(db: Database, row: BarRow, clock: int)
    requires Inv(db) && WriteRow(db, row, clock).Some?
    ensures Inv(WriteRow(db, row, clock).value) && Extends(db, WriteRow(db, row, clock).value)
  {
    var d := WriteRow(db, row, clock).value;
    forall key ensures KeyOk(d, key) && History(db, key) <= History(d, key) && d.receipts == db.receipts {
      assert KeyOk(db, key);
      WriteRowHistory(db, row, clock, key);
    }
    forall id ensures ReceiptOk(d, id) {
      assert ReceiptOk(db, id);
      if id in db.receipts {
        InHistoryGrows(db, d, id);
      }
    }
  }

  lemma {:induction false} WriteRowsKeeps(db: Database, rows: seq<BarRow>, clock: BarKey -> int)
    requires Inv(db) && WriteRows(db, rows, clock).Some?
    ensures Inv(WriteRows(db, rows, clock).value) && Extends(db, WriteRows(db, rows, clock).value)
    ensures WriteRows(db, rows, clock).value.receipts == db.receipts
  {
    if rows != [] {
      WriteRowsKeeps(db, Init(rows), clock);
      var mid := WriteRows(db, Init(rows), clock).value;
      var d := WriteRow(mid, Last(rows), clock(Last(rows).key)).value;
      WriteRowKeeps(mid, Last(rows), clock(Last(rows).key));
      forall key ensures History(db, key) <= History(d, key) {
        assert History(db, key) <= History(mid, key) <= History(d, key);
      }
    }
  }

  // ---- stored versions are histories ----

  lemma {:induction false} PreviousFound(revisions: seq<Revision>, i: nat)
    requires i < |revisions|
    ensures revisions[i].previous in Previous(revisions, revisions[i].key)
    ensures revisions[i].incoming in Incoming(revisions, revisions[i].key)
  {
    if i < |revisions| - 1 {
      PreviousFound(Init(revisions), i);
    }
  }

  lemma {:induction false} PreviousStored(revisions: seq<Revision>, key: BarKey, v: Version)
    requires v in Previous(revisions, key)
    ensures exists i :: 0 <= i < |revisions| && revisions[i].key == key && revisions[i].previous == v
  {
    if v in Previous(Init(revisions), key) {
      PreviousStored(Init(revisions), key, v);
      var i :| 0 <= i < |Init(revisions)| && Init(revisions)[i].key == key && Init(revisions)[i].previous == v;
      assert revisions[i].key == key && revisions[i].previous == v;
    } else {
      assert Last(revisions) == revisions[|revisions| - 1];
    }
  }

  lemma InHistoryAt(db: Database, id: VersionId, v: Version)
    requires v in History(db, id.key) && v.recordedAt == id.recordedAt
    ensures InHistory(db, id)
  {
    var h := History(db, id.key);
    var i :| 0 <= i < |h| && h[i] == v;
  }

  lemma StoredInHistory(db: Database, id: VersionId)
    requires KeyOk(db, id.key) && id in StoredIds(db)
    ensures InHistory(db, id)
  {
    var h := History(db, id.key);
    if i :| 0 <= i < |db.revisions| && id == VersionId(db.revisions[i].key, db.revisions[i].previous.recordedAt) {
      PreviousFound(db.revisions, i);
      InHistoryAt(db, id, db.revisions[i].previous);
    } else if i :| 0 <= i < |db.revisions|
                   && id == VersionId(db.revisions[i].key, db.revisions[i].incoming.recordedAt) {
      PreviousFound(db.revisions, i);
      assert h != [] && db.revisions[i].incoming in h[1..];
      InHistoryAt(db, id, db.revisions[i].incoming);
    } else {
      assert Last(h) == db.bars[id.key];
      InHistoryAt(db, id, db.bars[id.key]);
    }
  }

  lemma HistoryStored(db: Database, id: VersionId)
    requires InHistory(db, id)
    ensures id in StoredIds(db)
  {
    var h := History(db, id.key);
    var i :| 0 <= i < |h| && h[i].recordedAt == id.recordedAt;
    if i < |Previous(db.revisions, id.key)| {
      PreviousStored(db.revisions, id.key, h[i]);
    }
  }

  /** The union of current rows, replaced versions and incoming versions is exactly the histories. */
  lemma StoredIsHistory(db: Database, id: VersionId)
    requires KeyOk(db, id.key)
    ensures id in StoredIds(db) <==> InHistory(db, id)
  {
    if id in StoredIds(db) {
      StoredInHistory(db, id);
    }
    if InHistory(db, id) {
      HistoryStored(db, id);
    }
  }

  lemma FinalizeKeeps(db: Database, batch: seq<BarRow>, clock: VersionId -> int)
    requires Inv(db) && Finalize(db, batch, clock).Some?
    ensures Inv(Finalize(db, batch, clock).value) && Extends(db, Finalize(db, batch, clock).value)
  {
    var d := Finalize(db, batch, clock).value;
    assert forall key :: History(d, key) == History(db, key);
    forall key ensures KeyOk(d, key) {
      assert KeyOk(db, key);
    }
    forall id ensures ReceiptOk(d, id) {
      assert ReceiptOk(db, id) && KeyOk(db, id.key);
      StoredIsHistory(db, id);
      if id in db.receipts {
        InHistoryGrows(db, d, id);
      } else if id in d.receipts {
        InHistoryGrows(db, d, id);
      }
    }
  }

  lemma StepKeeps(db: Database, e: Event)
    requires Inv(db)
    ensures Inv(Step(db, e)) && Extends(db, Step(db, e))
  {
    match e {
      case UpsertBatch(batch, clock) =>
        if Upsert(db, batch, clock).Some? {
          WriteRowsKeeps(db, Deduped(batch).value, clock);
        }
      case FinalizeBatch(batch, stamp) =>
        if Finalize(db, batch, stamp).Some? {
          FinalizeKeeps(db, batch, stamp);
        }
    }
  }

  lemma EmptyOk()
    ensures Inv(EMPTY)
  {
  }

  /** Along any run, histories only grow at the end. */
  lemma {:induction false} ContinueKeeps(db: Database, events: seq<Event>)
    requires Inv(db)
    ensures Inv(Continue(db, events)) && Extends(db, Continue(db, events))
  {
    if events != [] {
      ContinueKeeps(db, Init(events));
      var mid := Continue(db, Init(events));
      StepKeeps(mid, Last(events));
      forall key ensures History(db, key) <= History(Continue(db, events), key) {
        assert History(db, key) <= History(mid, key) <= History(Step(mid, Last(events)), key);
      }
    }
  }

  /** After any run, a key's versions strictly increase in `as_of`, in `fetched_at` and in recorded
      time, and the revision table links each to the next. */
  lemma VersionsIncrease(events: seq<Event>, key: BarKey, i: nat, j: nat)
    requires i < j < |History(Continue(EMPTY, events), key)|
    ensures var db := Continue(EMPTY, events); var h := History(db, key);
            && h[i].asOf < h[j].asOf && h[i].fetchedAt < h[j].fetchedAt && h[i].recordedAt < h[j].recordedAt
            && |Incoming(db.revisions, key)| == |h| - 1 && Incoming(db.revisions, key)[j - 1] == h[j]
  {
    EmptyOk();
    ContinueKeeps(EMPTY, events);
    assert KeyOk(Continue(EMPTY, events), key);
    assert Before(History(Continue(EMPTY, events), key)[i], History(Continue(EMPTY, events), key)[j]);
  }

  // ---- the planner and the trigger state the same rule ----

  ghost predicate DistinctKeys(rows: seq<BarRow>) {
    forall i, j :: 0 <= i < j < |rows| ==> rows[i].key != rows[j].key
  }

  lemma DedupedKeys(batch: seq<BarRow>)
    requires Deduped(batch).Some?
    ensures DistinctKeys(Deduped(batch).value)
  {
    DedupedMeans(batch);
    var rows := Deduped(batch).value;
    forall i, j | 0 <= i < j < |rows| ensures rows[i].key != rows[j].key {
      assert ROW_ORDER(rows[i], rows[j]);
      KeyOrder(rows[i].key, rows[j].key, rows[i].key);
    }
  }

  lemma {:induction false} UntouchedKey(db: Database, rows: seq<BarRow>, clock: BarKey -> int, key: BarKey)
    requires WriteRows(db, rows, clock).Some? && forall i :: 0 <= i < |rows| ==> rows[i].key != key
    ensures var d := WriteRows(db, rows, clock).value;
            (key in d.bars <==> key in db.bars) && (key in db.bars ==> d.bars[key] == db.bars[key])
  {
    if rows != [] {
      UntouchedKey(db, Init(rows), clock, key);
      assert Last(rows).key != key;
    }
  }

  ghost predicate Emitted(revision: Revision, planned: PlannedRevision) {
    && revision.key == planned.key && revision.previous == planned.previous
    && revision.incoming == NewVersion(planned.incoming, revision.incoming.recordedAt)
  }

  /** The revisions written are the ones planned, in order; where the planner refuses, the trigger does. */
  lemma {:induction false} PlanAgrees(db: Database, rows: seq<BarRow>, clock: BarKey -> int)
    requires DistinctKeys(rows)
    ensures PlanRows(db.bars, rows).None? ==> WriteRows(db, rows, clock).None?
    ensures WriteRows(db, rows, clock).Some? ==>
              var d := WriteRows(db, rows, clock).value; var planned := PlanRows(db.bars, rows).value;
              && |d.revisions| == |db.revisions| + |planned|
              && d.revisions[..|db.revisions|] == db.revisions
              && forall i :: 0 <= i < |planned| ==> Emitted(d.revisions[|db.revisions| + i], planned[i])
  {
    if rows != [] {
      var rest, row := Init(rows), Last(rows);
      PlanAgrees(db, rest, clock);
      if WriteRows(db, rest, clock).Some? {
        UntouchedKey(db, rest, clock, row.key);
        var mid := WriteRows(db, rest, clock).value;
        assert PlanRow(mid.bars, row) == PlanRow(db.bars, row);
        OnePlanned(mid, row, clock(row.key));
      }
    }
  }

  lemma OnePlanned(db: Database, row: BarRow, clock: int)
    ensures PlanRow(db.bars, row).None? ==> WriteRow(db, row, clock).None?
    ensures WriteRow(db, row, clock).Some? ==>
              var d := WriteRow(db, row, clock).value; var planned := PlanRow(db.bars, row).value;
              if planned == [] then d.revisions == db.revisions
              else && |planned| == 1 && |d.revisions| == |db.revisions| + 1
                   && d.revisions == db.revisions + [Last(d.revisions)]
                   && Emitted(Last(d.revisions), planned[0])
  {
  }

  /** The verification after the write cannot fail while the key locks are held. */
  lemma {:induction false} WritesPersist(db: Database, rows: seq<BarRow>, clock: BarKey -> int)
    requires DistinctKeys(rows) && WriteRows(db, rows, clock).Some?
    ensures Persisted(WriteRows(db, rows, clock).value, rows)
  {
    if rows != [] {
      var rest, row := Init(rows), Last(rows);
      WritesPersist(db, rest, clock);
      var mid := WriteRows(db, rest, clock).value;
      var d := WriteRows(db, rows, clock).value;
      forall i | 0 <= i < |rows| ensures rows[i].key in d.bars && d.bars[rows[i].key].values == rows[i].values {
        if i < |rest| {
          assert rest[i] == rows[i] && rows[i].key != row.key;
        }
      }
    }
  }

  /** So an upsert succeeds exactly when the batch agrees with itself and the statement runs. */
  lemma UpsertSucceeds(db: Database, batch: seq<BarRow>, clock: BarKey -> int)
    ensures !Agreeing(batch) ==> Upsert(db, batch, clock).None?
    ensures Agreeing(batch) ==>
              Deduped(batch).Some? && Upsert(db, batch, clock) == WriteRows(db, Deduped(batch).value, clock)
  {
    DedupedMeans(batch);
    if Agreeing(batch) {
      DedupedKeys(batch);
      PlanAgrees(db, Deduped(batch).value, clock);
      if WriteRows(db, Deduped(batch).value, clock).Some? {
        WritesPersist(db, Deduped(batch).value, clock);
      }
    }
  }

  // ---- replays ----

  lemma {:induction false} NothingToWrite(db: Database, rows: seq<BarRow>, clock: BarKey -> int)
    requires Persisted(db, rows)
    ensures WriteRows(db, rows, clock) == Some(db) && PlanRows(db.bars, rows) == Some([])
  {
    if rows != [] {
      assert Persisted(db, Init(rows)) by {
        assert forall i :: 0 <= i < |rows| - 1 ==> Init(rows)[i] == rows[i];
      }
      NothingToWrite(db, Init(rows), clock);
      var none: seq<PlannedRevision> := [];
      assert none + none == none;
      assert Last(rows) == rows[|rows| - 1];
    }
  }

  /** Replaying a batch at once changes nothing and plans no revision. */
  lemma ReplayChangesNothing(db: Database, batch: seq<BarRow>, clock: BarKey -> int, again: BarKey -> int)
    requires Upsert(db, batch, clock).Some?
    ensures var d := Upsert(db, batch, clock).value; Upsert(d, batch, again) == Some(d)
  {
    NothingToWrite(Upsert(db, batch, clock).value, Deduped(batch).value, again);
  }

  /** At any time, an accepted batch changes nothing exactly when every row's values are stored already. */
  lemma UpsertChangesIff(db: Database, batch: seq<BarRow>, clock: BarKey -> int)
    requires Upsert(db, batch, clock).Some?
    ensures Upsert(db, batch, clock) == Some(db) <==> Persisted(db, Deduped(batch).value)
  {
    if Persisted(db, Deduped(batch).value) {
      NothingToWrite(db, Deduped(batch).value, clock);
    }
  }

  /** A row that once became a version can never become one again, whatever happened in between. */
  lemma WrittenRowIsSpent(db: Database, row: BarRow, recordedAt: int, events: seq<Event>, clock: int)
    requires Inv(db) && NewVersion(row, recordedAt) in History(db, row.key)
    ensures var d := Continue(db, events); WriteRow(d, row, clock).Some? ==> WriteRow(d, row, clock) == Some(d)
  {
    ContinueKeeps(db, events);
    var d := Continue(db, events);
    assert KeyOk(d, row.key);
    var h, v := History(d, row.key), NewVersion(row, recordedAt);
    assert History(db, row.key) <= h;
    var i :| 0 <= i < |h| && h[i] == v;
    assert row.key in d.bars && Last(h) == d.bars[row.key];
    assert i < |h| - 1 ==> Before(h[i], Last(h));
  }

  /** A row that was a no-op is not spent: its newer stamps were never stored, so a correction stamped in
      between is accepted, and a delayed replay of the row then overturns the correction. */
  lemma DelayedReplayOverturns(key: BarKey, first: Values, second: Values)
    requires first != second && key.ts <= 10
    ensures var original, repeated := BarRow(key, first, 10, 10), BarRow(key, first, 30, 30);
            var correction := BarRow(key, second, 20, 20);
            var clock: BarKey -> int := _ => 40;
            && var db := Continue(EMPTY, [UpsertBatch([original], clock), UpsertBatch([repeated], clock),
                                          UpsertBatch([correction], clock)]);
               && key in db.bars && db.bars[key].values == second
               && var d := Step(db, UpsertBatch([repeated], clock));
                  key in d.bars && d.bars[key].values == first && d.bars[key].asOf == 30
  {
    var original, repeated := BarRow(key, first, 10, 10), BarRow(key, first, 30, 30);
    var correction := BarRow(key, second, 20, 20);
    var clock: BarKey -> int := _ => 40;
    var e1, e2, e3 := UpsertBatch([original], clock), UpsertBatch([repeated], clock), UpsertBatch([correction], clock);
    var d1 := EMPTY.(bars := map[key := Version(first, 10, 10, 40)]);
    OneRow(EMPTY, original, clock);
    OneRow(d1, repeated, clock);
    OneRow(d1, correction, clock);
    var d3 := WriteRow(d1, correction, 40).value;
    OneRow(d3, repeated, clock);
    assert EMPTY.bars[key := Version(first, 10, 10, 40)] == d1.bars;
    assert Init([e1]) == [] && Init([e1, e2]) == [e1] && Init([e1, e2, e3]) == [e1, e2];
    assert Continue(EMPTY, [e1]) == d1;
    assert Continue(EMPTY, [e1, e2]) == d1;
    assert Continue(EMPTY, [e1, e2, e3]) == d3;
  }

  lemma OneRowBatch(row: BarRow)
    ensures Deduped([row]) == Some([row])
  {
    DedupedFixes([row]);
  }

  lemma OneRow(db: Database, row: BarRow, clock: BarKey -> int)
    ensures Upsert(db, [row], clock) == WriteRow(db, row, clock(row.key))
  {
    OneRowBatch(row);
    assert Init([row]) == [];
    assert WriteRows(db, [], clock) == Some(db);
    assert PlanRows(db.bars, []) == Some([]);
    assert WriteRows(db, [row], clock) == WriteRow(db, row, clock(row.key));
    assert PlanRows(db.bars, [row]).Some? <==> PlanRow(db.bars, row).Some?;
  }
}
