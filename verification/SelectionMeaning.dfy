/** What a selection at a cutoff, and the factor set prepared from it, say about the stored tables. */
module SelectionMeaning {
  import opened Common
  import opened Sorting
  import opened Decimal34
  import opened AdjustmentFactors
  import opened FactorArtifact
  import opened FactorMeaning
  import opened BarBatches
  import opened BarVersions
  import opened PointInTime

  /** A daily raw observation of the symbol, on a day of the coverage. */
  ghost predicate Covered(spec: Spec, key: BarKey) {
    && key.symbol == spec.symbol && key.timespan == "day" && key.multiplier == 1
    && key.source == "polygon_open_close" && key.basis == "raw"
    && spec.coverageStart <= key.ts / DAY_MICROSECONDS <= spec.coverageEnd
  }

  /** A version of the observation, current or superseded, whose receipt is stamped by the cutoff. */
  ghost predicate Received(db: Database, key: BarKey, v: Version, cutoff: int) {
    && v in History(db, key)
    && VersionId(key, v.recordedAt) in db.receipts && db.receipts[VersionId(key, v.recordedAt)] <= cutoff
  }

  /** The last recorded of them. */
  ghost predicate Chosen(db: Database, key: BarKey, v: Version, cutoff: int) {
    Received(db, key, v, cutoff) && forall w :: Received(db, key, w, cutoff) ==> w.recordedAt <= v.recordedAt
  }

  /** The stored value is a positive binary64 float. */
  ghost predicate IsFloat(b: Binary64, x: real) {
    0.0 < x && b.nearest(x) == Some(x)
  }

  /** The row is that version of that observation: its stamps, its receipt and its close. */
  ghost predicate RowShows(db: Database, b: Binary64, r: RawClose<real>, key: BarKey, v: Version) {
    && r.day == key.ts / DAY_MICROSECONDS && r.observedAt == key.ts
    && r.timespan == key.timespan && r.multiplier == key.multiplier && r.source == key.source && r.basis == key.basis
    && r.recordedAt == v.recordedAt
    && VersionId(key, v.recordedAt) in db.receipts && r.availableAt == db.receipts[VersionId(key, v.recordedAt)]
    && (IsFloat(b, v.values.close) ==> 0.0 < r.close && b.nearest(r.close) == Some(v.values.close))
  }

  lemma CoveredInScope(spec: Spec, key: BarKey)
    ensures Covered(spec, key) <==> InScope(spec, key)
  {
  }

  lemma NewestIsChosen(db: Database, id: VersionId, v: Version, cutoff: int)
    requires Inv(db) && StoredAs(db, id, v)
    ensures Newest(db, id, cutoff) <==> Chosen(db, id.key, v, cutoff)
  {
    assert KeyOk(db, id.key);
    StoredAsHistory(db, id, v);
    assert id == VersionId(id.key, v.recordedAt);
    VisibleIsReceipted(db, id, cutoff);
    if Newest(db, id, cutoff) {
      forall w | Received(db, id.key, w, cutoff) ensures w.recordedAt <= v.recordedAt {
        VisibleIsReceipted(db, VersionId(id.key, w.recordedAt), cutoff);
      }
    }
    if Chosen(db, id.key, v, cutoff) {
      forall other | Visible(db, other, cutoff) && other.key == id.key ensures other.recordedAt <= id.recordedAt {
        VisibleIsReceipted(db, other, cutoff);
        assert ReceiptOk(db, other);
        var i :| 0 <= i < |History(db, other.key)| && History(db, other.key)[i].recordedAt == other.recordedAt;
        assert Received(db, id.key, History(db, other.key)[i], cutoff);
      }
    }
  }

  lemma RowShown(db: Database, b: Binary64, spec: Spec, r: RawClose<real>, id: VersionId, v: Version)
    requires Inv(db) && Lawful(b) && RowFrom(db, b, spec.cutoff, r, id, v)
    ensures Chosen(db, id.key, v, spec.cutoff) && RowShows(db, b, r, id.key, v)
  {
    NewestIsChosen(db, id, v, spec.cutoff);
    assert id == VersionId(id.key, v.recordedAt);
  }

  lemma ChosenSelected(db: Database, b: Binary64, spec: Spec, key: BarKey, v: Version)
    requires Inv(db) && Covered(spec, key) && Chosen(db, key, v, spec.cutoff)
    ensures exists r :: RowSelected(db, b, spec, r) && r.observedAt == key.ts
  {
    var id := VersionId(key, v.recordedAt);
    assert KeyOk(db, key);
    StoredAsHistory(db, id, v);
    NewestIsChosen(db, id, v, spec.cutoff);
    CoveredInScope(spec, key);
    var r := RawRow(b, id, v, db.receipts[id]);
    assert RowFrom(db, b, spec.cutoff, r, id, v);
    assert RowSelected(db, b, spec, r) && r.observedAt == key.ts;
  }

  /** Among versions with increasing stamps, the last received one is chosen. */
  lemma {:induction false} SomeChosen(db: Database, key: BarKey, v: Version, cutoff: int) returns (c: Version)
    requires Inv(db) && Received(db, key, v, cutoff)
    ensures Chosen(db, key, c, cutoff)
  {
    c := LastReceived(db, key, History(db, key), v, cutoff);
  }

  lemma {:induction false} LastReceived(db: Database, key: BarKey, h: seq<Version>, v: Version, cutoff: int)
    returns (c: Version)
    requires v in h && Received(db, key, v, cutoff)
    ensures c in h && Received(db, key, c, cutoff)
    ensures forall w :: w in h && Received(db, key, w, cutoff) ==> w.recordedAt <= c.recordedAt
  {
    var last := Last(h);
    InitLast(h);
    if exists w :: w in Init(h) && Received(db, key, w, cutoff) {
      var w :| w in Init(h) && Received(db, key, w, cutoff);
      var best := LastReceived(db, key, Init(h), w, cutoff);
      c := if Received(db, key, last, cutoff) && best.recordedAt < last.recordedAt then last else best;
    } else {
      c := v;
    }
  }

  /** The row shows the chosen version of a covered observation. */
  ghost predicate ShowsChosen(db: Database, b: Binary64, spec: Spec, r: RawClose<real>) {
    exists key, v :: Covered(spec, key) && Chosen(db, key, v, spec.cutoff) && RowShows(db, b, r, key, v)
  }

  /** What is selected at a cutoff: for every covered observation with a received version, and for no other,
      one row, which shows the last recorded received version with its receipt and its close; the rows are
      in order of observation. */
  lemma SelectionMeans(db: Database, b: Binary64, spec: Spec, rows: seq<RawClose<real>>)
    requires Inv(db) && Lawful(b) && IsSelection(db, b, spec, rows)
    ensures forall i, j :: 0 <= i < j < |rows| ==> rows[i].observedAt < rows[j].observedAt
    ensures forall i :: 0 <= i < |rows| ==> ShowsChosen(db, b, spec, rows[i])
    ensures forall key, v :: Covered(spec, key) && Received(db, key, v, spec.cutoff) ==>
              exists i :: 0 <= i < |rows| && rows[i].observedAt == key.ts
  {
    forall i, j | 0 <= i < j < |rows| ensures rows[i].observedAt < rows[j].observedAt {
      assert BY_OBSERVATION(rows[i], rows[j]);
    }
    forall i | 0 <= i < |rows| ensures ShowsChosen(db, b, spec, rows[i]) {
      assert RowSelected(db, b, spec, rows[i]);
      var id: VersionId, v: Version :| InScope(spec, id.key) && RowFrom(db, b, spec.cutoff, rows[i], id, v);
      RowShown(db, b, spec, rows[i], id, v);
      CoveredInScope(spec, id.key);
    }
    forall key, v | Covered(spec, key) && Received(db, key, v, spec.cutoff)
      ensures exists i :: 0 <= i < |rows| && rows[i].observedAt == key.ts
    {
      var c := SomeChosen(db, key, v, spec.cutoff);
      ChosenSelected(db, b, spec, key, c);
      var r :| RowSelected(db, b, spec, r) && r.observedAt == key.ts;
      assert r in rows;
    }
  }

  // ---- the prepared set ----

  ghost predicate CloseChosen(db: Database, b: Binary64, spec: Spec, q: RawInput) {
    exists key, v :: Covered(spec, key) && Chosen(db, key, v, spec.cutoff) && CloseShows(db, b, q, key, v)
  }

  /** A close of the prepared set shows the version: its stamps, its receipt, and its stored float. */
  ghost predicate CloseShows(db: Database, b: Binary64, q: RawInput, key: BarKey, v: Version) {
    && q.day == key.ts / DAY_MICROSECONDS && q.observedAt == key.ts && q.recordedAt == v.recordedAt
    && VersionId(key, v.recordedAt) in db.receipts && q.availableAt == db.receipts[VersionId(key, v.recordedAt)]
    && (IsFloat(b, v.values.close) ==> b.nearest(q.close) == Some(v.values.close))
  }

  lemma ShownClose(db: Database, b: Binary64, id: VersionId, v: Version, cutoff: int, r: RawClose<real>, q: RawInput)
    requires Inv(db) && Lawful(b) && RowFrom(db, b, cutoff, r, id, v) && RawKept(b, r, q)
    ensures Chosen(db, id.key, v, cutoff) && CloseShows(db, b, q, id.key, v)
  {
    NewestIsChosen(db, id, v, cutoff);
    assert id == VersionId(id.key, v.recordedAt);
    if IsFloat(b, v.values.close) {
      assert Round(b.shortest(v.values.close)) == b.shortest(v.values.close);
    }
  }

  /** The closes of the prepared set are the selection's. */
  lemma ClosesShown(db: Database, b: Binary64, spec: Spec, rows: seq<RawClose<real>>, raws: seq<RawInput>, j: nat)
    requires Inv(db) && Lawful(b) && IsSelection(db, b, spec, rows) && OneToOne(rows, raws, RawPairs(b)) && j < |raws|
    ensures CloseChosen(db, b, spec, raws[j])
  {
    var i := PartnerOf(rows, raws, RawPairs(b), j);
    assert RowSelected(db, b, spec, rows[i]);
    var id: VersionId, v: Version :| InScope(spec, id.key) && RowFrom(db, b, spec.cutoff, rows[i], id, v);
    ShownClose(db, b, id, v, spec.cutoff, rows[i], raws[j]);
    CoveredInScope(spec, id.key);
  }

  lemma ObservationKept(db: Database, b: Binary64, spec: Spec, rows: seq<RawClose<real>>, raws: seq<RawInput>,
                        key: BarKey, v: Version)
    requires Inv(db) && Lawful(b) && IsSelection(db, b, spec, rows) && OneToOne(rows, raws, RawPairs(b))
    requires Covered(spec, key) && Received(db, key, v, spec.cutoff)
    ensures exists j :: 0 <= j < |raws| && raws[j].observedAt == key.ts
  {
    SelectionMeans(db, b, spec, rows);
    var i :| 0 <= i < |rows| && rows[i].observedAt == key.ts;
    var j := PartnerFor(rows, raws, RawPairs(b), i);
    assert RawKept(b, rows[i], raws[j]);
  }

  /** A prepared set carries, for every covered observation with a received version and for no other, the
      close of the last recorded received version, and every action of the two loaded collections. */
  lemma PreparedMeans(calendar: seq<TradingDay>, b: Binary64, db: Database, s: ActionStore, spec: Spec, now: int,
                      result: FactorSet)
    requires Inv(db) && Lawful(b) && Prepared(calendar, b, db, s, spec, now, result)
    ensures var p := result.payload;
            && p.symbol == spec.symbol && p.cutoff == spec.cutoff <= now
            && (forall j :: 0 <= j < |p.raws| ==> CloseChosen(db, b, spec, p.raws[j]))
            && (forall key, v :: Covered(spec, key) && Received(db, key, v, spec.cutoff) ==>
                  exists j :: 0 <= j < |p.raws| && p.raws[j].observedAt == key.ts)
            && Loaded(s, spec, SplitActions, p.splitCollection)
            && Loaded(s, spec, DividendActions, p.dividendCollection)
            && OneToOne(s.collections[p.splitCollection].splits, p.splits, SPLIT_PAIRS)
            && OneToOne(s.collections[p.dividendCollection].dividends, p.dividends, DIVIDEND_PAIRS)
  {
    var rows, split, dividend :| PreparedFrom(calendar, b, db, s, spec, result, rows, split, dividend);
    var x := Inputs(spec.symbol, spec.cutoff, rows, split, s.collections[split].splits,
                    dividend, s.collections[dividend].dividends);
    hide FactorSetOf, Lawful, Inv, IsSelection, Covered, CloseChosen, Received, OneToOne, Loaded;
    BuiltCarries(calendar, b, x);
    var p := result.payload;
    forall j | 0 <= j < |p.raws| ensures CloseChosen(db, b, spec, p.raws[j]) {
      ClosesShown(db, b, spec, rows, p.raws, j);
    }
    forall key, v | Covered(spec, key) && Received(db, key, v, spec.cutoff)
      ensures exists j :: 0 <= j < |p.raws| && p.raws[j].observedAt == key.ts
    {
      ObservationKept(db, b, spec, rows, p.raws, key, v);
    }
  }

  /** With a selection and both collections at hand, a set is prepared exactly when the cutoff is not in the
      future, something is selected, every row of a collection is an action of its kind in the coverage, and the
      set can be built. */
  lemma PreparedWhen(calendar: seq<TradingDay>, b: Binary64, db: Database, s: ActionStore, spec: Spec, now: int,
                     rows: seq<RawClose<real>>, split: string, dividend: string)
    requires IsSelection(db, b, spec, rows)
    requires Loaded(s, spec, SplitActions, split) && Loaded(s, spec, DividendActions, dividend)
    ensures (exists result :: Prepared(calendar, b, db, s, spec, now, result)) <==>
              && spec.cutoff <= now && rows != []
              && s.collections[split].dividends == [] && s.collections[dividend].splits == []
              && var splits, dividends := s.collections[split].splits, s.collections[dividend].dividends;
                 && (forall i :: 0 <= i < |splits| ==> spec.coverageStart <= splits[i].day <= spec.coverageEnd)
                 && (forall i :: 0 <= i < |dividends| ==> spec.coverageStart <= dividends[i].day <= spec.coverageEnd)
                 && FactorSetOf(calendar, b, Inputs(spec.symbol, spec.cutoff, rows, split, splits,
                                                    dividend, dividends)).Some?
  {
    hide FactorSetOf, IsSelection;
    var built := FactorSetOf(calendar, b, Inputs(spec.symbol, spec.cutoff, rows, split, s.collections[split].splits,
                                                 dividend, s.collections[dividend].dividends));
    hide Loaded;
    if result :| Prepared(calendar, b, db, s, spec, now, result) {
      var rows', split', dividend' :| PreparedFrom(calendar, b, db, s, spec, result, rows', split', dividend');
      SelectionUnique(db, b, spec, rows, rows');
      LoadedUnique(s, spec, SplitActions, split, split');
      LoadedUnique(s, spec, DividendActions, dividend, dividend');
      assert SplitsCovered(s.collections[split], spec) && DividendsCovered(s.collections[dividend], spec);
      assert built == Some(result) && rows != [] && spec.cutoff <= now;
    }
    if && spec.cutoff <= now && rows != [] && built.Some?
       && SplitsCovered(s.collections[split], spec) && DividendsCovered(s.collections[dividend], spec)
    {
      PreparedBy(calendar, b, db, s, spec, now, rows, split, dividend, built.value);
    }
  }

  lemma PreparedBy(calendar: seq<TradingDay>, b: Binary64, db: Database, s: ActionStore, spec: Spec, now: int,
                   rows: seq<RawClose<real>>, split: string, dividend: string, result: FactorSet)
    requires PreparedFrom(calendar, b, db, s, spec, result, rows, split, dividend) && spec.cutoff <= now
    ensures Prepared(calendar, b, db, s, spec, now, result)
  {
  }

  // ---- which collection is loaded ----

  /** A new collection with its receipt is loaded from then on exactly when it has the exact scope, is received by
      the cutoff, and is recorded after the one loaded before, or with it under a greater ID; otherwise that one
      stays. A receipt before its collection is refused. */
  lemma NewCollectionLoads(s: ActionStore, spec: Spec, kind: ActionKind, before: string, id: string, c: Collection,
                           stamp: int)
    requires Loaded(s, spec, kind, before) && id !in s.collections && id !in s.receipts
    ensures var t := ActionRun(s, [Record(id, c), Receipt(id, stamp)]); var loaded := s.collections[before];
            && (Loaded(t, spec, kind, id) <==>
                  && c.symbol == spec.symbol && c.kind == kind
                  && c.coverageStart == spec.coverageStart && c.coverageEnd == spec.coverageEnd
                  && c.recordedAt <= stamp <= spec.cutoff
                  && (loaded.recordedAt < c.recordedAt
                      || (loaded.recordedAt == c.recordedAt && TextLess(before, id))))
            && (Loaded(t, spec, kind, id) || Loaded(t, spec, kind, before))
  {
    var events := [Record(id, c), Receipt(id, stamp)];
    assert Init(events) == [Record(id, c)] && Init([Record(id, c)]) == [];
    var t := ActionRun(s, events);
    assert ActionRun(s, [Record(id, c)]) == s.(collections := s.collections[id := c]);
    assert t == ActionStore(s.collections[id := c],
                            if stamp < c.recordedAt then s.receipts else s.receipts[id := stamp]);
    TextLessTotal(before, id);
    forall other | other != id
      ensures CollectionVisible(t, spec, kind, other) <==> CollectionVisible(s, spec, kind, other)
    {
    }
    LoadedOrder(s, spec, kind, before, id);
  }

  lemma LoadedOrder(s: ActionStore, spec: Spec, kind: ActionKind, before: string, id: string)
    requires Loaded(s, spec, kind, before)
    ensures forall other :: CollectionVisible(s, spec, kind, other) && TextLess(before, id) ==>
              s.collections[other].recordedAt == s.collections[before].recordedAt ==> TextLess(other, id)
    ensures !(TextLess(before, id) && TextLess(id, before))
  {
    forall other | CollectionVisible(s, spec, kind, other) && TextLess(before, id)
                   && s.collections[other].recordedAt == s.collections[before].recordedAt
      ensures TextLess(other, id)
    {
      if other != before {
        TextLessTransitive(other, before, id);
      }
    }
    if TextLess(before, id) && TextLess(id, before) {
      TextLessTransitive(before, id, before);
      TextLessIrreflexive(before);
    }
  }
}
