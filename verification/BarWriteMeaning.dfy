/** What writing a batch of bars and reconciling receipts do to the tables, row by row, and exactly when each
    is refused. */
module BarWriteMeaning {
  import opened Common
  import opened Sorting
  import opened BarBatches
  import opened BarVersions

  // ---- deduplication ----

  lemma CoveredRow(batch: seq<BarRow>, rows: seq<BarRow>, x: BarRow) returns (y: BarRow)
    requires Covers(batch, rows) && x in batch
    ensures y in rows && y in batch && y.key == x.key
    ensures y.asOf < x.asOf || (y.asOf == x.asOf && y.fetchedAt <= x.fetchedAt)
  {
    assert Represented(x, rows);
    y :| y in rows && y.key == x.key && !Earlier(x, y);
  }

  /** The row kept for a key is the first available of its key: by `as_of`, then by the time it was fetched. */
  lemma DedupedEarliest(batch: seq<BarRow>, x: BarRow)
    requires Deduped(batch).Some? && x in batch
    ensures exists y :: y in Deduped(batch).value && y in batch && y.key == x.key && y.values == x.values
                        && (y.asOf < x.asOf || (y.asOf == x.asOf && y.fetchedAt <= x.fetchedAt))
  {
    hide Deduped, Covers;
    DedupedMeans(batch);
    var y := CoveredRow(batch, Deduped(batch).value, x);
  }

  /** Rows are kept in the order of their keys: symbol, timespan, multiplier, time, source, basis. */
  lemma KeysInOrder(batch: seq<BarRow>, i: nat, j: nat)
    requires Deduped(batch).Some? && i < j < |Deduped(batch).value|
    ensures var k, m := Deduped(batch).value[i].key, Deduped(batch).value[j].key;
            || TextLess(k.symbol, m.symbol)
            || (k.symbol == m.symbol && TextLess(k.timespan, m.timespan))
            || (k.symbol == m.symbol && k.timespan == m.timespan && k.multiplier < m.multiplier)
            || (k.symbol == m.symbol && k.timespan == m.timespan && k.multiplier == m.multiplier && k.ts < m.ts)
            || (k.symbol == m.symbol && k.timespan == m.timespan && k.multiplier == m.multiplier && k.ts == m.ts
                && (TextLess(k.source, m.source) || (k.source == m.source && TextLess(k.basis, m.basis))))
  {
    hide Deduped;
    DedupedMeans(batch);
    assert ROW_ORDER(Deduped(batch).value[i], Deduped(batch).value[j]);
  }

  // ---- writing ----

  /** A row that can be written: the first of its key, not before its own availability; or one that repeats the
      stored values; or a correction strictly newer in both stamps, available by the time it is recorded. */
  ghost predicate RowFits(db: Database, r: BarRow, now: int) {
    if r.key !in db.bars then r.asOf <= now
    else
      var stored := db.bars[r.key];
      || stored.values == r.values
      || (stored.asOf < r.asOf && stored.fetchedAt < r.fetchedAt && (r.asOf <= now || r.asOf <= stored.recordedAt + 1))
  }

  /** What the table then holds for the key: the stored version if its values are repeated, and otherwise the
      row's values and stamps, recorded now but after the version before. */
  function Written(db: Database, r: BarRow, now: int): Version {
    if r.key in db.bars && db.bars[r.key].values == r.values then db.bars[r.key]
    else if r.key in db.bars && now <= db.bars[r.key].recordedAt
    then Version(r.values, r.fetchedAt, r.asOf, db.bars[r.key].recordedAt + 1)
    else Version(r.values, r.fetchedAt, r.asOf, now)
  }

  /** The correction recorded for the row, if it is one. */
  function Corrected(db: Database, r: BarRow, now: int): seq<Revision> {
    if r.key in db.bars && db.bars[r.key].values != r.values
    then [Revision(r.key, db.bars[r.key], Written(db, r, now))]
    else []
  }

  function AllCorrected(db: Database, rows: seq<BarRow>, clock: BarKey -> int): seq<Revision> {
    if rows == [] then []
    else AllCorrected(db, Init(rows), clock) + Corrected(db, Last(rows), clock(Last(rows).key))
  }

  /** Exactly the given rows have been written into the tables. */
  ghost predicate WrittenOver(db: Database, rows: seq<BarRow>, clock: BarKey -> int, d: Database) {
    && d.receipts == db.receipts && d.revisions == db.revisions + AllCorrected(db, rows, clock)
    && RowsHeld(db, rows, clock, d)
    && forall key :: NotAmong(rows, key) ==> SameRow(db, d, key)
  }

  /** Every row's key holds what the row leaves there. */
  ghost predicate RowsHeld(db: Database, rows: seq<BarRow>, clock: BarKey -> int, d: Database) {
    forall i :: 0 <= i < |rows| ==>
      rows[i].key in d.bars && d.bars[rows[i].key] == Written(db, rows[i], clock(rows[i].key))
  }

  ghost predicate NotAmong(rows: seq<BarRow>, key: BarKey) {
    forall i :: 0 <= i < |rows| ==> rows[i].key != key
  }

  ghost predicate SameRow(db: Database, d: Database, key: BarKey) {
    (key in d.bars <==> key in db.bars) && (key in db.bars ==> d.bars[key] == db.bars[key])
  }

  lemma OneWritten(db: Database, d: Database, r: BarRow, now: int)
    requires (r.key in d.bars <==> r.key in db.bars) && (r.key in db.bars ==> d.bars[r.key] == db.bars[r.key])
    ensures WriteRow(d, r, now).Some? <==> RowFits(db, r, now)
    ensures WriteRow(d, r, now).Some? ==>
              var e := WriteRow(d, r, now).value;
              && e.bars == d.bars[r.key := Written(db, r, now)] && e.receipts == d.receipts
              && e.revisions == d.revisions + Corrected(db, r, now)
  {
    if r.key in d.bars && d.bars[r.key].values == r.values {
      assert d.bars == d.bars[r.key := d.bars[r.key]];
      assert d.revisions + [] == d.revisions;
    }
  }

  lemma {:induction false} AllWritten(db: Database, rows: seq<BarRow>, clock: BarKey -> int)
    requires DistinctKeys(rows)
    ensures WriteRows(db, rows, clock).Some? <==>
              forall i :: 0 <= i < |rows| ==> RowFits(db, rows[i], clock(rows[i].key))
    ensures WriteRows(db, rows, clock).Some? ==> WrittenOver(db, rows, clock, WriteRows(db, rows, clock).value)
  {
    if rows != [] {
      var rest, r := Init(rows), Last(rows);
      AllWritten(db, rest, clock);
      assert forall i :: 0 <= i < |rest| ==> rest[i] == rows[i];
      if WriteRows(db, rest, clock).Some? {
        NextWritten(db, rows, clock, WriteRows(db, rest, clock).value);
      }
    } else {
      assert db.revisions + [] == db.revisions;
    }
  }

  lemma RowHeldNext(db: Database, rows: seq<BarRow>, clock: BarKey -> int, d: Database, e: Database)
    requires rows != [] && DistinctKeys(rows) && RowsHeld(db, Init(rows), clock, d)
    requires e.bars == d.bars[Last(rows).key := Written(db, Last(rows), clock(Last(rows).key))]
    ensures RowsHeld(db, rows, clock, e)
  {
    hide Written;
    forall i | 0 <= i < |rows|
      ensures rows[i].key in e.bars && e.bars[rows[i].key] == Written(db, rows[i], clock(rows[i].key))
    {
      if i < |rows| - 1 {
        assert Init(rows)[i] == rows[i] && rows[i].key != rows[|rows| - 1].key;
      }
    }
  }

  lemma NotAmongNext(rows: seq<BarRow>, key: BarKey)
    requires rows != [] && NotAmong(rows, key)
    ensures NotAmong(Init(rows), key) && Last(rows).key != key
  {
  }

  /** The tables with one more row written. */
  lemma WrittenOnce(db: Database, rows: seq<BarRow>, clock: BarKey -> int, d: Database, e: Database)
    requires rows != [] && DistinctKeys(rows) && WrittenOver(db, Init(rows), clock, d)
    requires var r := Last(rows); var now := clock(r.key);
             && e.bars == d.bars[r.key := Written(db, r, now)] && e.receipts == d.receipts
             && e.revisions == d.revisions + Corrected(db, r, now)
    ensures WrittenOver(db, rows, clock, e)
  {
    hide Written, Corrected, RowsHeld, NotAmong;
    assert e.revisions == db.revisions + AllCorrected(db, rows, clock);
    RowHeldNext(db, rows, clock, d, e);
    forall key | NotAmong(rows, key) ensures SameRow(db, e, key) {
      NotAmongNext(rows, key);
    }
  }

  lemma NextWritten(db: Database, rows: seq<BarRow>, clock: BarKey -> int, d: Database)
    requires rows != [] && DistinctKeys(rows) && WrittenOver(db, Init(rows), clock, d)
    ensures var next := WriteRow(d, Last(rows), clock(Last(rows).key));
            && (next.Some? <==> RowFits(db, Last(rows), clock(Last(rows).key)))
            && (next.Some? ==> WrittenOver(db, rows, clock, next.value))
  {
    hide RowFits, WriteRow, Written, Corrected;
    var r := Last(rows);
    assert NotAmong(Init(rows), r.key) by {
      assert forall i :: 0 <= i < |rows| - 1 ==> Init(rows)[i] == rows[i] && rows[i].key != rows[|rows| - 1].key;
    }
    assert SameRow(db, d, r.key);
    OneWritten(db, d, r, clock(r.key));
    hide WrittenOver;
    if WriteRow(d, r, clock(r.key)).Some? {
      WrittenOnce(db, rows, clock, d, WriteRow(d, r, clock(r.key)).value);
    }
  }

  /** A batch is written exactly when no two of its rows disagree and every kept row fits; the tables then hold
      just that: the kept rows' values under their stamps, a revision for every correction in order of key,
      and everything else as before. */
  lemma UpsertIff(db: Database, batch: seq<BarRow>, clock: BarKey -> int)
    ensures Upsert(db, batch, clock).Some? <==>
              && (forall x, y :: x in batch && y in batch && x.key == y.key ==> x.values == y.values)
              && Deduped(batch).Some?
              && forall i :: 0 <= i < |Deduped(batch).value| ==>
                   RowFits(db, Deduped(batch).value[i], clock(Deduped(batch).value[i].key))
    ensures Upsert(db, batch, clock).Some? ==>
              WrittenOver(db, Deduped(batch).value, clock, Upsert(db, batch, clock).value)
  {
    hide RowFits, WrittenOver, Upsert, WriteRows, Deduped;
    UpsertSucceeds(db, batch, clock);
    if Agreeing(batch) {
      DedupedKeys(batch);
      AllWritten(db, Deduped(batch).value, clock);
    }
  }

  // ---- receipts ----

  /** A version of a series the batch names, current or superseded, that has no receipt yet. */
  ghost predicate Unreceipted(db: Database, batch: seq<BarRow>, id: VersionId) {
    && id !in db.receipts
    && (exists v :: v in History(db, id.key) && v.recordedAt == id.recordedAt)
    && Names(batch, id.key)
  }

  ghost predicate SameSeries(k: BarKey, m: BarKey) {
    k.symbol == m.symbol && k.timespan == m.timespan && k.multiplier == m.multiplier
    && k.source == m.source && k.basis == m.basis
  }

  ghost predicate Names(batch: seq<BarRow>, key: BarKey) {
    exists r :: r in batch && SameSeries(r.key, key)
  }

  lemma LaneIff(k: BarKey, m: BarKey)
    ensures Lane(k) == Lane(m) <==> SameSeries(k, m)
  {
  }

  lemma SeriesNamed(batch: seq<BarRow>, rows: seq<BarRow>, key: BarKey)
    requires Covers(batch, rows)
    ensures Lane(key) in (set r | r in rows :: Lane(r.key)) <==> Names(batch, key)
  {
    hide Lane, SameSeries;
    if r :| r in rows && Lane(r.key) == Lane(key) {
      LaneIff(r.key, key);
    }
    if r :| r in batch && SameSeries(r.key, key) {
      var y := CoveredRow(batch, rows, r);
      LaneIff(y.key, key);
    }
  }

  lemma MissingIff(db: Database, batch: seq<BarRow>, id: VersionId)
    requires Inv(db) && Deduped(batch).Some?
    ensures id in MissingIds(db, Deduped(batch).value) <==> Unreceipted(db, batch, id)
  {
    hide Deduped, Covers, KeyOk, ReceiptOk, StoredIds, InHistory, History, Lane, SameSeries;
    assert KeyOk(db, id.key) && ReceiptOk(db, id);
    StoredIsHistory(db, id);
    StoredVersion(db, id);
    DedupedMeans(batch);
    SeriesNamed(batch, Deduped(batch).value, id.key);
  }

  lemma StoredVersion(db: Database, id: VersionId)
    ensures InHistory(db, id) <==> exists v :: v in History(db, id.key) && v.recordedAt == id.recordedAt
  {
    var h := History(db, id.key);
    if i :| 0 <= i < |h| && h[i].recordedAt == id.recordedAt {
      assert h[i] in h;
    }
    if v :| v in h && v.recordedAt == id.recordedAt {
      var i :| 0 <= i < |h| && h[i] == v;
    }
  }

  /** Reconciliation is refused exactly for a batch that disagrees with itself or a receipt before its version;
      otherwise every version of the batch's series that had none has one, with the stamp given, and nothing
      else has changed. */
  lemma FinalizeIff(db: Database, batch: seq<BarRow>, stamp: VersionId -> int)
    requires Inv(db)
    ensures Finalize(db, batch, stamp).Some? <==>
              && (forall x, y :: x in batch && y in batch && x.key == y.key ==> x.values == y.values)
              && forall id :: Unreceipted(db, batch, id) ==> id.recordedAt <= stamp(id)
    ensures Finalize(db, batch, stamp).Some? ==>
              var d := Finalize(db, batch, stamp).value;
              && d.bars == db.bars && d.revisions == db.revisions
              && (forall id :: id in d.receipts <==> id in db.receipts || Unreceipted(db, batch, id))
              && (forall id :: id in db.receipts ==> d.receipts[id] == db.receipts[id])
              && (forall id :: Unreceipted(db, batch, id) ==> d.receipts[id] == stamp(id))
  {
    hide Deduped, Inv, MissingIds, Unreceipted;
    DedupedMeans(batch);
    if Deduped(batch).Some? {
      forall id ensures id in MissingIds(db, Deduped(batch).value) <==> Unreceipted(db, batch, id) {
        MissingIff(db, batch, id);
      }
      NotReceipted(db, batch);
    }
  }

  lemma NotReceipted(db: Database, batch: seq<BarRow>)
    ensures forall id :: Unreceipted(db, batch, id) ==> id !in db.receipts
  {
  }
}
