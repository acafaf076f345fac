/** Selecting the evidence of a factor set at a cutoff: the newest bar version and the newest complete
    action collections whose receipts were stamped by then. */
module PointInTime {
  import opened Common
  import opened Sorting
  import opened Decimal34
  import opened AdjustmentFactors
  import opened BarBatches
  import opened BarVersions

  datatype Spec = Spec(symbol: string, coverageStart: int, coverageEnd: int, cutoff: int)

  // ---- raw bars ----

  predicate InScope(spec: Spec, key: BarKey) {
    && key.symbol == spec.symbol && key.timespan == "day" && key.multiplier == 1
    && key.source == "polygon_open_close" && key.basis == "raw"
    && spec.coverageStart * DAY_MICROSECONDS <= key.ts < (spec.coverageEnd + 1) * DAY_MICROSECONDS
  }

  /** A stored version whose receipt was stamped by the cutoff. */
  ghost predicate Visible(db: Database, id: VersionId, cutoff: int) {
    id in StoredIds(db) && id in db.receipts && db.receipts[id] <= cutoff
  }

  /** First by recorded time among the visible versions of one observation. */
  ghost predicate Newest(db: Database, id: VersionId, cutoff: int) {
    && Visible(db, id, cutoff)
    && forall other :: Visible(db, other, cutoff) && other.key == id.key ==> other.recordedAt <= id.recordedAt
  }

  /** A row of the union of current, previous and incoming versions. */
  ghost predicate StoredAs(db: Database, id: VersionId, v: Version) {
    && v.recordedAt == id.recordedAt
    && (|| (id.key in db.bars && db.bars[id.key] == v)
        || (exists i :: 0 <= i < |db.revisions| && db.revisions[i].key == id.key && db.revisions[i].previous == v)
        || (exists i :: 0 <= i < |db.revisions| && db.revisions[i].key == id.key && db.revisions[i].incoming == v))
  }

  lemma StoredAsHistory(db: Database, id: VersionId, v: Version)
    requires KeyOk(db, id.key)
    ensures StoredAs(db, id, v) <==> v in History(db, id.key) && v.recordedAt == id.recordedAt
  {
    var h := History(db, id.key);
    if StoredAs(db, id, v) {
      if i :| 0 <= i < |db.revisions| && db.revisions[i].key == id.key && db.revisions[i].previous == v {
        PreviousFound(db.revisions, i);
      } else if i :| 0 <= i < |db.revisions| && db.revisions[i].key == id.key && db.revisions[i].incoming == v {
        PreviousFound(db.revisions, i);
        assert h != [] && v in h[1..];
      } else {
        assert h[|h| - 1] == v;
      }
    }
    if v in Previous(db.revisions, id.key) {
      PreviousStored(db.revisions, id.key, v);
    }
  }

  /** A recorded stamp names one version, so a selection is never ambiguous. */
  lemma OneVersionPerStamp(db: Database, id: VersionId, v: Version, w: Version)
    requires Inv(db) && StoredAs(db, id, v) && StoredAs(db, id, w)
    ensures v == w
  {
    assert KeyOk(db, id.key);
    StoredAsHistory(db, id, v);
    StoredAsHistory(db, id, w);
    var h := History(db, id.key);
    var i :| 0 <= i < |h| && h[i] == v;
    var j :| 0 <= j < |h| && h[j] == w;
    assert i < j ==> Before(h[i], h[j]);
    assert j < i ==> Before(h[j], h[i]);
  }

  /** The decimal of a stored float8 close, through its shortest text. */
  function StoredDecimal(b: Binary64, close: real): real {
    if 0.0 < close then b.shortest(close) else close
  }

  function RawRow(b: Binary64, id: VersionId, v: Version, availableAt: int): RawClose<real> {
    RawClose(id.key.ts / DAY_MICROSECONDS, id.key.ts, id.key.timespan, id.key.multiplier, id.key.source, id.key.basis,
             id.recordedAt, availableAt, StoredDecimal(b, v.values.close))
  }

  ghost predicate RowFrom(db: Database, b: Binary64, cutoff: int, r: RawClose<real>, id: VersionId, v: Version) {
    Newest(db, id, cutoff) && StoredAs(db, id, v) && r == RawRow(b, id, v, db.receipts[id])
  }

  ghost predicate RowSelected(db: Database, b: Binary64, spec: Spec, r: RawClose<real>) {
    exists id: VersionId, v: Version :: InScope(spec, id.key) && RowFrom(db, b, spec.cutoff, r, id, v)
  }

  const BY_OBSERVATION: (RawClose<real>, RawClose<real>) -> bool :=
    (x: RawClose<real>, y: RawClose<real>) => x.observedAt < y.observedAt

  /** What the selection statement returns: one row per observation, ordered. */
  ghost predicate IsSelection(db: Database, b: Binary64, spec: Spec, rows: seq<RawClose<real>>) {
    Strict(rows, BY_OBSERVATION) && forall r :: r in rows <==> RowSelected(db, b, spec, r)
  }

  lemma SelectionUnique(db: Database, b: Binary64, spec: Spec, rows: seq<RawClose<real>>, others: seq<RawClose<real>>)
    requires IsSelection(db, b, spec, rows) && IsSelection(db, b, spec, others)
    ensures rows == others
  {
    assert StrictOrder(BY_OBSERVATION);
    forall r ensures r in rows <==> r in others {
      assert r in rows <==> RowSelected(db, b, spec, r);
      assert r in others <==> RowSelected(db, b, spec, r);
    }
    StrictSameMembers(rows, others, BY_OBSERVATION);
  }

  // ---- later history ----

  /** Every receipt these events can stamp is later than the cutoff. Bars may change at will. */
  ghost predicate StampedAfter(events: seq<Event>, cutoff: int) {
    forall i :: 0 <= i < |events| && events[i].FinalizeBatch? ==> forall id :: cutoff < events[i].stamp(id)
  }

  /** What a state says about receipts up to the cutoff. */
  ghost predicate SameReceipts(db: Database, d: Database, cutoff: int) {
    && (forall id :: id in db.receipts && db.receipts[id] <= cutoff ==>
          id in d.receipts && d.receipts[id] == db.receipts[id])
    && (forall id :: id in d.receipts && d.receipts[id] <= cutoff ==>
          id in db.receipts && db.receipts[id] == d.receipts[id])
  }

  lemma {:induction false} WritesKeepReceipts(db: Database, rows: seq<BarRow>, clock: BarKey -> int)
    requires WriteRows(db, rows, clock).Some?
    ensures WriteRows(db, rows, clock).value.receipts == db.receipts
  {
    if rows != [] {
      WritesKeepReceipts(db, Init(rows), clock);
    }
  }

  lemma {:induction false} ReceiptsUntouched(db: Database, events: seq<Event>, cutoff: int)
    requires StampedAfter(events, cutoff)
    ensures SameReceipts(db, Continue(db, events), cutoff)
  {
    if events != [] {
      ReceiptsUntouched(db, Init(events), cutoff);
      var mid, e := Continue(db, Init(events)), Last(events);
      match e {
        case UpsertBatch(batch, clock) =>
          if Upsert(mid, batch, clock).Some? {
            WritesKeepReceipts(mid, Deduped(batch).value, clock);
          }
        case FinalizeBatch(batch, stamp) =>
          assert events[|events| - 1].FinalizeBatch?;
          assert SameReceipts(mid, Step(mid, e), cutoff);
      }
    }
  }

  lemma VisibleIsReceipted(db: Database, id: VersionId, cutoff: int)
    requires Inv(db)
    ensures Visible(db, id, cutoff) <==> id in db.receipts && db.receipts[id] <= cutoff
  {
    assert KeyOk(db, id.key) && ReceiptOk(db, id);
    StoredIsHistory(db, id);
  }

  lemma NewestUnchanged(db: Database, d: Database, id: VersionId, cutoff: int)
    requires Inv(db) && Inv(d) && SameReceipts(db, d, cutoff)
    ensures Newest(d, id, cutoff) <==> Newest(db, id, cutoff)
  {
    forall other ensures Visible(d, other, cutoff) <==> Visible(db, other, cutoff) {
      VisibleIsReceipted(db, other, cutoff);
      VisibleIsReceipted(d, other, cutoff);
    }
  }

  lemma StoredUnchanged(db: Database, d: Database, id: VersionId, v: Version)
    requires Inv(db) && Inv(d) && Extends(db, d) && id in StoredIds(db)
    ensures StoredAs(d, id, v) <==> StoredAs(db, id, v)
  {
    assert KeyOk(db, id.key) && KeyOk(d, id.key);
    StoredIsHistory(db, id);
    StoredAsHistory(db, id, v);
    StoredAsHistory(d, id, v);
    var h, g := History(db, id.key), History(d, id.key);
    assert h <= g;
    var i :| 0 <= i < |h| && h[i].recordedAt == id.recordedAt;
    assert g[i] == h[i];
    if StoredAs(d, id, v) {
      StoredAsHistory(d, id, h[i]);
      OneVersionPerStamp(d, id, v, h[i]);
    }
    if v in h {
      var k :| 0 <= k < |h| && h[k] == v;
      assert g[k] == v;
    }
  }

  /** Whatever upserts follow, and whatever receipts are stamped after the cutoff, the raw closes
      selected at the cutoff stay the same, even as current rows move into revision history. */
  lemma RawSelectionFixed(db: Database, b: Binary64, spec: Spec, events: seq<Event>, rows: seq<RawClose<real>>)
    requires Inv(db) && StampedAfter(events, spec.cutoff)
    ensures IsSelection(Continue(db, events), b, spec, rows) <==> IsSelection(db, b, spec, rows)
  {
    var d := Continue(db, events);
    ContinueKeeps(db, events);
    ReceiptsUntouched(db, events, spec.cutoff);
    forall r ensures RowSelected(d, b, spec, r) <==> RowSelected(db, b, spec, r) {
      RowUnchanged(db, d, b, spec, r);
    }
  }

  lemma RowUnchanged(db: Database, d: Database, b: Binary64, spec: Spec, r: RawClose<real>)
    requires Inv(db) && Inv(d) && Extends(db, d) && SameReceipts(db, d, spec.cutoff)
    ensures RowSelected(d, b, spec, r) <==> RowSelected(db, b, spec, r)
  {
    forall id, v ensures RowFrom(d, b, spec.cutoff, r, id, v) <==> RowFrom(db, b, spec.cutoff, r, id, v) {
      NewestUnchanged(db, d, id, spec.cutoff);
      if Newest(db, id, spec.cutoff) {
        StoredUnchanged(db, d, id, v);
      }
    }
  }

  /** Receipts are append-only. */
  lemma {:induction false} ReceiptsStay(db: Database, events: seq<Event>)
    ensures forall id :: id in db.receipts ==>
              id in Continue(db, events).receipts && Continue(db, events).receipts[id] == db.receipts[id]
  {
    if events != [] {
      ReceiptsStay(db, Init(events));
      var mid := Continue(db, Init(events));
      match Last(events) {
        case UpsertBatch(batch, clock) =>
          if Upsert(mid, batch, clock).Some? {
            WritesKeepReceipts(mid, Deduped(batch).value, clock);
          }
        case FinalizeBatch(batch, stamp) =>
      }
    }
  }

  // ---- exactly which later events change a selection ----

  /** The event is an accepted reconciliation that receipts `other`, at or before the cutoff. */
  ghost predicate Receipts(db: Database, e: Event, other: VersionId, cutoff: int) {
    && e.FinalizeBatch? && Finalize(db, e.batch, e.stamp).Some?
    && other in MissingIds(db, Deduped(e.batch).value) && e.stamp(other) <= cutoff
  }

  lemma StepReceipts(db: Database, e: Event, other: VersionId, cutoff: int)
    ensures other in db.receipts ==> other in Step(db, e).receipts && Step(db, e).receipts[other] == db.receipts[other]
    ensures other !in db.receipts ==>
              (other in Step(db, e).receipts && Step(db, e).receipts[other] <= cutoff
               <==> Receipts(db, e, other, cutoff))
  {
    match e {
      case UpsertBatch(batch, clock) =>
        if Upsert(db, batch, clock).Some? {
          WritesKeepReceipts(db, Deduped(batch).value, clock);
        }
      case FinalizeBatch(batch, stamp) =>
    }
  }

  /** One event makes visible what was visible and what it receipts in time. */
  lemma StepVisible(db: Database, e: Event, other: VersionId, cutoff: int)
    requires Inv(db)
    ensures Visible(Step(db, e), other, cutoff) <==> Visible(db, other, cutoff) || Receipts(db, e, other, cutoff)
  {
    StepKeeps(db, e);
    StepReceipts(db, e, other, cutoff);
    VisibleIsReceipted(db, other, cutoff);
    VisibleIsReceipted(Step(db, e), other, cutoff);
  }

  /** Visibility is never lost. */
  lemma VisibleStays(db: Database, events: seq<Event>, id: VersionId, cutoff: int)
    requires Inv(db) && Visible(db, id, cutoff)
    ensures Visible(Continue(db, events), id, cutoff)
  {
    ContinueKeeps(db, events);
    ReceiptsStay(db, events);
    VisibleIsReceipted(db, id, cutoff);
    VisibleIsReceipted(Continue(db, events), id, cutoff);
  }

  /** The event receipts a newer version of the same observation in time. */
  ghost predicate Displaces(db: Database, e: Event, id: VersionId, cutoff: int) {
    exists other :: Receipts(db, e, other, cutoff) && other.key == id.key && id.recordedAt < other.recordedAt
  }

  lemma StepNewest(db: Database, e: Event, id: VersionId, cutoff: int)
    requires Inv(db) && Newest(db, id, cutoff)
    ensures Newest(Step(db, e), id, cutoff) <==> !Displaces(db, e, id, cutoff)
  {
    forall other
      ensures Visible(Step(db, e), other, cutoff) <==> Visible(db, other, cutoff) || Receipts(db, e, other, cutoff)
    {
      StepVisible(db, e, other, cutoff);
    }
  }

  lemma NotNewestStep(db: Database, e: Event, id: VersionId, cutoff: int)
    requires Inv(db) && Visible(db, id, cutoff) && !Newest(db, id, cutoff)
    ensures !Newest(Step(db, e), id, cutoff)
  {
    var other :| Visible(db, other, cutoff) && other.key == id.key && id.recordedAt < other.recordedAt;
    StepVisible(db, e, other, cutoff);
  }

  lemma ContinueSplit(db: Database, events: seq<Event>, i: nat)
    requires i < |events|
    ensures Continue(db, events[..i + 1]) == Step(Continue(db, events[..i]), events[i])
  {
    assert Init(events[..i + 1]) == events[..i] && Last(events[..i + 1]) == events[i];
  }

  /** No event of the run has property `p` in the state it meets. */
  ghost predicate Never(db: Database, events: seq<Event>, p: (Database, Event) -> bool) {
    forall i :: 0 <= i < |events| ==> !p(Continue(db, events[..i]), events[i])
  }

  lemma NeverEarlier(db: Database, events: seq<Event>, p: (Database, Event) -> bool, i: nat)
    requires i < |events| - 1
    ensures p(Continue(db, events[..i]), events[i]) <==> p(Continue(db, Init(events)[..i]), Init(events)[i])
  {
    assert events[..i] == Init(events)[..i];
  }

  lemma NeverLast(db: Database, events: seq<Event>, p: (Database, Event) -> bool)
    requires events != []
    ensures Never(db, events, p) <==> Never(db, Init(events), p) && !p(Continue(db, Init(events)), Last(events))
  {
    var rest, n := Init(events), |events| - 1;
    assert events[..n] == rest;
    forall i | 0 <= i < n ensures p(Continue(db, events[..i]), events[i]) <==> p(Continue(db, rest[..i]), rest[i]) {
      NeverEarlier(db, events, p, i);
    }
  }

  ghost function Displacing(id: VersionId, cutoff: int): (Database, Event) -> bool {
    (db: Database, e: Event) => Displaces(db, e, id, cutoff)
  }

  /** A selected version stays selected through a run exactly when no event of the run is an accepted
      reconciliation that receipts a newer version of its observation with a stamp up to the cutoff. */
  lemma {:induction false} StaysNewestIff(db: Database, events: seq<Event>, id: VersionId, cutoff: int)
    requires Inv(db) && Newest(db, id, cutoff)
    ensures Newest(Continue(db, events), id, cutoff) <==> Never(db, events, Displacing(id, cutoff))
  {
    if events != [] {
      var mid := Continue(db, Init(events));
      StaysNewestIff(db, Init(events), id, cutoff);
      NeverLast(db, events, Displacing(id, cutoff));
      ContinueKeeps(db, Init(events));
      VisibleStays(db, Init(events), id, cutoff);
      if Newest(mid, id, cutoff) {
        StepNewest(mid, Last(events), id, cutoff);
      } else {
        NotNewestStep(mid, Last(events), id, cutoff);
      }
    }
  }

  /** The event receipts in time a version in scope that is newer than every visible one of its
      observation. */
  ghost predicate Changes(db: Database, e: Event, spec: Spec) {
    exists other :: ChangesTo(db, e, spec, other)
  }

  ghost predicate ChangesTo(db: Database, e: Event, spec: Spec, other: VersionId) {
    && InScope(spec, other.key) && Receipts(db, e, other, spec.cutoff)
    && forall v :: Visible(db, v, spec.cutoff) && v.key == other.key ==> v.recordedAt < other.recordedAt
  }

  ghost function Changing(spec: Spec): (Database, Event) -> bool {
    (db: Database, e: Event) => Changes(db, e, spec)
  }

  ghost predicate SameNewest(db: Database, d: Database, spec: Spec) {
    forall id: VersionId :: InScope(spec, id.key) ==> (Newest(d, id, spec.cutoff) <==> Newest(db, id, spec.cutoff))
  }

  lemma NewlyVisible(db: Database, e: Event, id: VersionId, spec: Spec)
    requires Inv(db) && InScope(spec, id.key) && Newest(Step(db, e), id, spec.cutoff) && !Visible(db, id, spec.cutoff)
    ensures ChangesTo(db, e, spec, id)
  {
    StepVisible(db, e, id, spec.cutoff);
    forall v | Visible(db, v, spec.cutoff) && v.key == id.key ensures v.recordedAt < id.recordedAt {
      StepVisible(db, e, v, spec.cutoff);
      assert v != id ==> v.recordedAt != id.recordedAt;
    }
  }

  lemma StepUnchanged(db: Database, e: Event, spec: Spec)
    requires Inv(db) && !Changes(db, e, spec)
    ensures SameNewest(db, Step(db, e), spec)
  {
    forall id: VersionId | InScope(spec, id.key)
      ensures Newest(Step(db, e), id, spec.cutoff) <==> Newest(db, id, spec.cutoff)
    {
      if Newest(db, id, spec.cutoff) {
        StepNewest(db, e, id, spec.cutoff);
        forall other | Receipts(db, e, other, spec.cutoff) && other.key == id.key && id.recordedAt < other.recordedAt
          ensures ChangesTo(db, e, spec, other)
        {
        }
      } else if Newest(Step(db, e), id, spec.cutoff) {
        StepVisible(db, e, id, spec.cutoff);
        if !Visible(db, id, spec.cutoff) {
          NewlyVisible(db, e, id, spec);
        } else {
          NotNewestStep(db, e, id, spec.cutoff);
        }
      }
    }
  }

  lemma {:induction false} RunUnchanged(db: Database, events: seq<Event>, spec: Spec)
    requires Inv(db) && Never(db, events, Changing(spec))
    ensures SameNewest(db, Continue(db, events), spec)
  {
    if events != [] {
      NeverLast(db, events, Changing(spec));
      RunUnchanged(db, Init(events), spec);
      ContinueKeeps(db, Init(events));
      StepUnchanged(Continue(db, Init(events)), Last(events), spec);
    }
  }

  /** The same newest versions give the same rows. */
  lemma RowsFollowNewest(db: Database, d: Database, b: Binary64, spec: Spec, r: RawClose<real>)
    requires Inv(db) && Inv(d) && Extends(db, d) && SameNewest(db, d, spec)
    requires forall id :: id in db.receipts ==> id in d.receipts && d.receipts[id] == db.receipts[id]
    ensures RowSelected(d, b, spec, r) <==> RowSelected(db, b, spec, r)
  {
    forall id: VersionId, v: Version | InScope(spec, id.key)
      ensures RowFrom(d, b, spec.cutoff, r, id, v) <==> RowFrom(db, b, spec.cutoff, r, id, v)
    {
      assert Newest(d, id, spec.cutoff) <==> Newest(db, id, spec.cutoff);
      if Newest(db, id, spec.cutoff) {
        StoredUnchanged(db, d, id, v);
      }
    }
  }

  // ---- a change shows ----

  ghost function VisibleOf(db: Database, key: BarKey, cutoff: int): set<VersionId> {
    set id | id in db.receipts && id.key == key && db.receipts[id] <= cutoff
  }

  lemma {:induction false} LatestIn(ids: set<VersionId>) returns (latest: VersionId)
    requires ids != {}
    ensures latest in ids && forall id :: id in ids ==> id.recordedAt <= latest.recordedAt
    decreases |ids|
  {
    var id :| id in ids;
    if ids == {id} {
      latest := id;
    } else {
      assert ids - {id} != {};
      var other := LatestIn(ids - {id});
      latest := if other.recordedAt < id.recordedAt then id else other;
    }
  }

  /** Where something is visible, something is newest, and selected. */
  lemma NewestExists(db: Database, b: Binary64, other: VersionId, spec: Spec) returns (id: VersionId, r: RawClose<real>)
    requires Inv(db) && Visible(db, other, spec.cutoff) && InScope(spec, other.key)
    ensures id.key == other.key && other.recordedAt <= id.recordedAt && Visible(db, id, spec.cutoff)
    ensures RowSelected(db, b, spec, r) && r.observedAt == id.key.ts && r.recordedAt == id.recordedAt
  {
    VisibleIsReceipted(db, other, spec.cutoff);
    assert other in VisibleOf(db, other.key, spec.cutoff);
    id := LatestIn(VisibleOf(db, other.key, spec.cutoff));
    VisibleIsReceipted(db, id, spec.cutoff);
    forall v | Visible(db, v, spec.cutoff) && v.key == id.key ensures v.recordedAt <= id.recordedAt {
      assert v in VisibleOf(db, other.key, spec.cutoff);
    }
    var v := StoredVersion(db, id);
    r := RawRow(b, id, v, db.receipts[id]);
    assert RowFrom(db, b, spec.cutoff, r, id, v);
  }

  lemma StoredVersion(db: Database, id: VersionId) returns (v: Version)
    requires Inv(db) && id in StoredIds(db)
    ensures StoredAs(db, id, v)
  {
    assert KeyOk(db, id.key);
    StoredIsHistory(db, id);
    var h := History(db, id.key);
    var i :| 0 <= i < |h| && h[i].recordedAt == id.recordedAt;
    v := h[i];
    StoredAsHistory(db, id, v);
  }

  /** What a changing event receipts is visible from then on. */
  lemma ChangeVisible(db: Database, e: Event, later: seq<Event>, other: VersionId, cutoff: int)
    requires Inv(db) && Receipts(db, e, other, cutoff)
    ensures Visible(Continue(Step(db, e), later), other, cutoff)
  {
    StepVisible(db, e, other, cutoff);
    StepKeeps(db, e);
    VisibleStays(Step(db, e), later, other, cutoff);
  }

  lemma ContinueAt(db: Database, events: seq<Event>, i: nat)
    requires i < |events|
    ensures Continue(db, events) == Continue(Step(Continue(db, events[..i]), events[i]), events[i + 1..])
  {
    ContinueSplit(db, events, i);
    ContinueJoin(db, events[..i + 1], events[i + 1..]);
    assert events == events[..i + 1] + events[i + 1..];
  }

  /** A selected row names its version. */
  lemma RowNames(db: Database, b: Binary64, spec: Spec, r: RawClose<real>, id: VersionId)
    requires RowSelected(db, b, spec, r) && InScope(spec, id.key)
    requires r.observedAt == id.key.ts && r.recordedAt == id.recordedAt
    ensures Visible(db, id, spec.cutoff)
  {
    var x: VersionId, v: Version :| InScope(spec, x.key) && RowFrom(db, b, spec.cutoff, r, x, v);
    assert x == id;
  }

  /** After a change no list of rows selected before it can be the selection. */
  lemma ChangeShows(db: Database, b: Binary64, spec: Spec, events: seq<Event>, rows: seq<RawClose<real>>, i: nat)
    requires Inv(db) && IsSelection(db, b, spec, rows)
    requires i < |events| && Changes(Continue(db, events[..i]), events[i], spec)
    ensures !IsSelection(Continue(db, events), b, spec, rows)
  {
    var mid := Continue(db, events[..i]);
    var other :| ChangesTo(mid, events[i], spec, other);
    ContinueKeeps(db, events[..i]);
    ChangeVisible(mid, events[i], events[i + 1..], other, spec.cutoff);
    ContinueAt(db, events, i);
    ContinueKeeps(db, events);
    var id, r := NewestExists(Continue(db, events), b, other, spec);
    if RowSelected(db, b, spec, r) {
      RowNames(db, b, spec, r, id);
      VisibleStays(db, events[..i], id, spec.cutoff);
      assert false;
    }
    assert r !in rows;
  }

  lemma {:induction false} ContinueJoin(db: Database, first: seq<Event>, second: seq<Event>)
    ensures Continue(db, first + second) == Continue(Continue(db, first), second)
  {
    if second == [] {
      assert first + second == first;
    } else {
      ContinueJoin(db, first, Init(second));
      assert Init(first + second) == first + Init(second) && Last(first + second) == Last(second);
    }
  }

  /** A selection survives a run exactly when no event of the run is an accepted reconciliation that
      receipts, with a stamp up to the cutoff, a version in scope newer than all that is visible of its
      observation. */
  lemma SelectionFixedIff(db: Database, b: Binary64, spec: Spec, events: seq<Event>, rows: seq<RawClose<real>>)
    requires Inv(db) && IsSelection(db, b, spec, rows)
    ensures IsSelection(Continue(db, events), b, spec, rows) <==>
              Never(db, events, Changing(spec))
  {
    if i :| 0 <= i < |events| && Changing(spec)(Continue(db, events[..i]), events[i]) {
      ChangeShows(db, b, spec, events, rows, i);
    } else {
      RunUnchanged(db, events, spec);
      ContinueKeeps(db, events);
      ReceiptsStay(db, events);
      forall r ensures RowSelected(Continue(db, events), b, spec, r) <==> RowSelected(db, b, spec, r) {
        RowsFollowNewest(db, Continue(db, events), b, spec, r);
      }
    }
  }

  // ---- a receipt up to the cutoff, committed after the read ----

  /** A clock that always reads the same. */
  function Fixed<T>(n: int): T -> int {
    _ => n
  }

  lemma OneStored(key: BarKey, v: Version, receipts: map<VersionId, int>)
    ensures StoredIds(Database(map[key := v], [], receipts)) == {VersionId(key, v.recordedAt)}
  {
    var db := Database(map[key := v], [], receipts);
    forall id ensures id in StoredIds(db) <==> id == VersionId(key, v.recordedAt) {
      if id == VersionId(key, v.recordedAt) {
        assert key in db.bars;
      }
    }
  }

  /** The reconciliation of a lane with one unreceipted version. */
  lemma FinalizeOne(db: Database, row: BarRow, id: VersionId, stamp: int)
    requires id in StoredIds(db) && id.key == row.key && id !in db.receipts && id.recordedAt <= stamp
    requires forall other :: other in StoredIds(db) && other != id ==> other in db.receipts
    ensures Finalize(db, [row], Fixed(stamp)) == Some(db.(receipts := db.receipts[id := stamp]))
    ensures id in MissingIds(db, [row])
  {
    OneRowBatch(row);
    var missing := MissingIds(db, [row]);
    assert row in [row];
    assert missing == {id};
    var clock: VersionId -> int := Fixed(stamp);
    assert db.receipts + (map x | x in missing :: clock(x)) == db.receipts[id := stamp];
  }

  /** The two tables a first version and its receipt leave. */
  lemma FirstReceipted(key: BarKey, first: Values)
    requires key.ts <= 10
    ensures var row := BarRow(key, first, 10, 10); var v := Version(first, 10, 10, 15);
            Continue(EMPTY, [UpsertBatch([row], Fixed(15)), FinalizeBatch([row], Fixed(16))])
            == Database(map[key := v], [], map[VersionId(key, 15) := 16])
  {
    var row, v := BarRow(key, first, 10, 10), Version(first, 10, 10, 15);
    var e1, e2 := UpsertBatch([row], Fixed(15)), FinalizeBatch([row], Fixed(16));
    var d1 := Database(map[key := v], [], map[]);
    BarVersions.OneRow(EMPTY, row, Fixed(15));
    assert EMPTY.bars[key := v] == d1.bars;
    OneStored(key, v, map[]);
    FinalizeOne(d1, row, VersionId(key, 15), 16);
    assert Init([e1]) == [] && Init([e1, e2]) == [e1];
    assert Continue(EMPTY, [e1]) == d1;
    assert d1.receipts[VersionId(key, 15) := 16] == map[VersionId(key, 15) := 16];
  }

  /** And the two tables once a correction is written and receipted. */
  lemma SecondReceipted(key: BarKey, first: Values, second: Values, stamp: int)
    requires first != second && 21 <= stamp
    ensures var row := BarRow(key, second, 20, 20); var v, w := Version(first, 10, 10, 15), Version(second, 20, 20, 21);
            var db := Database(map[key := v], [], map[VersionId(key, 15) := 16]);
            Continue(db, [UpsertBatch([row], Fixed(21)), FinalizeBatch([row], Fixed(stamp))])
            == Database(map[key := w], [Revision(key, v, w)],
                        map[VersionId(key, 15) := 16, VersionId(key, 21) := stamp])
  {
    var row, v, w := BarRow(key, second, 20, 20), Version(first, 10, 10, 15), Version(second, 20, 20, 21);
    var db := Database(map[key := v], [], map[VersionId(key, 15) := 16]);
    var d1 := db.(bars := map[key := w], revisions := [Revision(key, v, w)]);
    var e1, e2 := UpsertBatch([row], Fixed(21)), FinalizeBatch([row], Fixed(stamp));
    BarVersions.OneRow(db, row, Fixed(21));
    assert db.bars[key := w] == d1.bars && db.revisions + [Revision(key, v, w)] == d1.revisions;
    StoredPair(key, v, w, db.receipts);
    FinalizeOne(d1, row, VersionId(key, 21), stamp);
    assert Init([e1]) == [] && Init([e1, e2]) == [e1];
    assert Continue(db, [e1]) == d1;
  }

  lemma StoredPair(key: BarKey, v: Version, w: Version, receipts: map<VersionId, int>)
    ensures StoredIds(Database(map[key := w], [Revision(key, v, w)], receipts))
         == {VersionId(key, v.recordedAt), VersionId(key, w.recordedAt)}
  {
    var db := Database(map[key := w], [Revision(key, v, w)], receipts);
    assert key in db.bars && db.revisions[0] == Revision(key, v, w);
  }

  /** The failing case, for a bar observed by time 10: a version is receipted at 16 and selected at cutoff
      40; then a correction is written, and a reconciliation stamps its receipt at any time up to 40.
      Nothing has to be stamped at the cutoff itself: the receipt need only commit after the read. */
  lemma LateCommitReplaces(key: BarKey, first: Values, second: Values, stamp: int)
    requires key.ts <= 10 && first != second && 21 <= stamp <= 40
    ensures var row, correction := BarRow(key, first, 10, 10), BarRow(key, second, 20, 20);
            var db := Continue(EMPTY, [UpsertBatch([row], Fixed(15)), FinalizeBatch([row], Fixed(16))]);
            var d := Continue(db, [UpsertBatch([correction], Fixed(21)), FinalizeBatch([correction], Fixed(stamp))]);
            && Newest(db, VersionId(key, 15), 40)
            && !Newest(d, VersionId(key, 15), 40) && Newest(d, VersionId(key, 21), 40)
  {
    var v, w := Version(first, 10, 10, 15), Version(second, 20, 20, 21);
    FirstReceipted(key, first);
    SecondReceipted(key, first, second, stamp);
    OneStored(key, v, map[VersionId(key, 15) := 16]);
    StoredPair(key, v, w, map[VersionId(key, 15) := 16, VersionId(key, 21) := stamp]);
    var d := Database(map[key := w], [Revision(key, v, w)], map[VersionId(key, 15) := 16, VersionId(key, 21) := stamp]);
    assert Visible(d, VersionId(key, 21), 40);
  }

  // ---- corporate-action collections ----

  datatype ActionKind = SplitActions | DividendActions

  datatype Collection = Collection(
    symbol: string, kind: ActionKind, coverageStart: int, coverageEnd: int, recordedAt: int,
    splits: seq<SplitVersion<real>>, dividends: seq<DividendVersion<real>>)

  datatype ActionStore = ActionStore(collections: map<string, Collection>, receipts: map<string, int>)

  datatype ActionEvent = Record(id: string, collection: Collection) | Receipt(id: string, stamp: int)

  /** Collections and receipts are inserted once and never change. */
  function ActionStep(s: ActionStore, e: ActionEvent): ActionStore {
    match e
    case Record(id, c) => if id in s.collections then s else s.(collections := s.collections[id := c])
    case Receipt(id, stamp) =>
      if id !in s.collections || id in s.receipts || stamp < s.collections[id].recordedAt then s
      else s.(receipts := s.receipts[id := stamp])
  }

  function ActionRun(s: ActionStore, events: seq<ActionEvent>): ActionStore {
    if events == [] then s else ActionStep(ActionRun(s, Init(events)), Last(events))
  }

  ghost predicate StoreOk(s: ActionStore) {
    forall id :: id in s.receipts ==> id in s.collections
  }

  predicate CollectionVisible(s: ActionStore, spec: Spec, kind: ActionKind, id: string) {
    && id in s.collections && id in s.receipts && s.receipts[id] <= spec.cutoff
    && var c := s.collections[id];
       && c.symbol == spec.symbol && c.kind == kind
       && c.coverageStart == spec.coverageStart && c.coverageEnd == spec.coverageEnd
  }

  /** Newest recorded, then greatest ID, among the visible collections of the exact scope. */
  ghost predicate Loaded(s: ActionStore, spec: Spec, kind: ActionKind, id: string) {
    && CollectionVisible(s, spec, kind, id)
    && forall other :: CollectionVisible(s, spec, kind, other) ==>
         || other == id
         || s.collections[other].recordedAt < s.collections[id].recordedAt
         || (s.collections[other].recordedAt == s.collections[id].recordedAt && TextLess(other, id))
  }

  lemma LoadedUnique(s: ActionStore, spec: Spec, kind: ActionKind, id: string, other: string)
    requires Loaded(s, spec, kind, id) && Loaded(s, spec, kind, other)
    ensures id == other
  {
    if TextLess(id, other) && TextLess(other, id) {
      TextLessTransitive(id, other, id);
      TextLessIrreflexive(id);
    }
  }

  ghost predicate ActionsStampedAfter(events: seq<ActionEvent>, cutoff: int) {
    forall i :: 0 <= i < |events| && events[i].Receipt? ==> cutoff < events[i].stamp
  }

  ghost predicate SameActions(s: ActionStore, t: ActionStore, cutoff: int) {
    && StoreOk(t)
    && (forall id :: id in s.collections ==> id in t.collections && t.collections[id] == s.collections[id])
    && (forall id :: id in s.receipts ==> id in t.receipts && t.receipts[id] == s.receipts[id])
    && (forall id :: id in t.receipts && t.receipts[id] <= cutoff ==> id in s.receipts)
  }

  lemma {:induction false} ActionsUntouched(s: ActionStore, events: seq<ActionEvent>, cutoff: int)
    requires StoreOk(s) && ActionsStampedAfter(events, cutoff)
    ensures SameActions(s, ActionRun(s, events), cutoff)
  {
    if events != [] {
      ActionsUntouched(s, Init(events), cutoff);
      assert Last(events) == events[|events| - 1];
    }
  }

  /** The collection loaded at a cutoff stays the same, with the same actions. */
  lemma LoadedFixed(s: ActionStore, spec: Spec, kind: ActionKind, events: seq<ActionEvent>, id: string)
    requires StoreOk(s) && ActionsStampedAfter(events, spec.cutoff)
    ensures Loaded(ActionRun(s, events), spec, kind, id) <==> Loaded(s, spec, kind, id)
    ensures Loaded(s, spec, kind, id) ==> ActionRun(s, events).collections[id] == s.collections[id]
  {
    var t := ActionRun(s, events);
    ActionsUntouched(s, events, spec.cutoff);
    forall other ensures CollectionVisible(t, spec, kind, other) <==> CollectionVisible(s, spec, kind, other) {
    }
  }

  // ---- preparing a factor set ----

  /** Every row of a split collection is a split inside the coverage; one of the other kind lacks its fields. */
  predicate SplitsCovered(c: Collection, spec: Spec) {
    && c.dividends == []
    && (forall i :: 0 <= i < |c.splits| ==> spec.coverageStart <= c.splits[i].day <= spec.coverageEnd)
  }

  predicate DividendsCovered(c: Collection, spec: Spec) {
    && c.splits == []
    && (forall i :: 0 <= i < |c.dividends| ==> spec.coverageStart <= c.dividends[i].day <= spec.coverageEnd)
  }

  /** `result` is what preparing at database time `now` computes from the tables. */
  ghost predicate Prepared(calendar: seq<TradingDay>, b: Binary64, db: Database, s: ActionStore, spec: Spec, now: int,
                           result: FactorSet) {
    && spec.cutoff <= now
    && exists rows, split, dividend :: PreparedFrom(calendar, b, db, s, spec, result, rows, split, dividend)
  }

  ghost predicate PreparedFrom(
    calendar: seq<TradingDay>, b: Binary64, db: Database, s: ActionStore, spec: Spec, result: FactorSet,
    rows: seq<RawClose<real>>, split: string, dividend: string)
  {
    && IsSelection(db, b, spec, rows) && rows != []
    && Loaded(s, spec, SplitActions, split) && Loaded(s, spec, DividendActions, dividend)
    && SplitsCovered(s.collections[split], spec) && DividendsCovered(s.collections[dividend], spec)
    && FactorSetOf(calendar, b, Inputs(spec.symbol, spec.cutoff, rows, split, s.collections[split].splits,
                                       dividend, s.collections[dividend].dividends)) == Some(result)
  }

  /** At most one factor set can be prepared from one state of the tables. */
  lemma PreparedUnique(calendar: seq<TradingDay>, b: Binary64, db: Database, s: ActionStore, spec: Spec, now: int,
                       r: FactorSet, q: FactorSet)
    requires Prepared(calendar, b, db, s, spec, now, r) && Prepared(calendar, b, db, s, spec, now, q)
    ensures r == q
  {
    var rows, split, dividend :| PreparedFrom(calendar, b, db, s, spec, r, rows, split, dividend);
    var rows', split', dividend' :| PreparedFrom(calendar, b, db, s, spec, q, rows', split', dividend');
    SelectionUnique(db, b, spec, rows, rows');
    LoadedUnique(s, spec, SplitActions, split, split');
    LoadedUnique(s, spec, DividendActions, dividend, dividend');
  }

  /** Later history cannot change an earlier answer: after any later upserts, collections and receipts
      stamped after the cutoff, preparing gives the identical factor set, or fails as before. */
  lemma PreparedFixed(calendar: seq<TradingDay>, b: Binary64, db: Database, s: ActionStore, spec: Spec,
                      now: int, later: int,
                      events: seq<Event>, actions: seq<ActionEvent>, result: FactorSet)
    requires Inv(db) && StoreOk(s) && spec.cutoff <= now <= later
    requires StampedAfter(events, spec.cutoff) && ActionsStampedAfter(actions, spec.cutoff)
    ensures Prepared(calendar, b, Continue(db, events), ActionRun(s, actions), spec, later, result)
       <==> Prepared(calendar, b, db, s, spec, now, result)
  {
    var d, t := Continue(db, events), ActionRun(s, actions);
    forall rows, split, dividend
      ensures PreparedFrom(calendar, b, d, t, spec, result, rows, split, dividend)
         <==> PreparedFrom(calendar, b, db, s, spec, result, rows, split, dividend)
    {
      RawSelectionFixed(db, b, spec, events, rows);
      LoadedFixed(s, spec, SplitActions, actions, split);
      LoadedFixed(s, spec, DividendActions, actions, dividend);
    }
  }
}
