/** What a joined dataset contains, and exactly when a join succeeds, in terms of the cohort, the proofs and
    what validating each proof gives. */
module JoinMeaning {
  import opened Common
  import opened Sorting
  import opened CalibrationJoin

  // ---- what a dataset contains ----

  /** The coverage is `m` thousandths, up to one part in 10^12. */
  ghost predicate Thousandths(c: real, m: int) {
    1 <= m <= 999 && -0.000000000001 <= c - m as real / 1000.0 <= 0.000000000001
  }

  /** The same bounds and quantiles; the coverage is put on its thousandth. */
  ghost predicate IntervalKept(x: Interval, y: Interval) {
    && y.lower == x.lower && y.upper == x.upper
    && y.lowerQuantile == x.lowerQuantile && y.upperQuantile == x.upperQuantile
    && exists m: int :: Thousandths(x.coverage, m) && y.coverage == m as real / 1000.0
  }

  ghost const INTERVAL_PAIRS: (Interval, Interval) -> bool := (x: Interval, y: Interval) => IntervalKept(x, y)

  /** The same observation in every field, its intervals each kept once and put in order of coverage. */
  ghost predicate ObservationKept(a: Observation, o: Observation) {
    && o.forecastId == a.forecastId && o.horizon == a.horizon && o.targetTime == a.targetTime
    && o.outcomeId == a.outcomeId && o.opportunity == a.opportunity && o.outputHash == a.outputHash
    && o.scope == a.scope && o.realized == a.realized && o.point == a.point
    && OneToOne(a.intervals, o.intervals, INTERVAL_PAIRS)
    && forall i, k :: 0 <= i < k < |o.intervals| ==> o.intervals[i].coverage < o.intervals[k].coverage
  }

  ghost const OBSERVATION_PAIRS: (Observation, Observation) -> bool :=
    (a: Observation, o: Observation) => ObservationKept(a, o)

  /** What validating the proof against its own member gives. */
  ghost predicate ObservedAs(j: Joiner, cohort: Cohort, p: Proof, a: Observation) {
    exists m :: m in cohort.members && m.identity == p.identity && j.observe(p, m) == Some(a)
  }

  ghost function ProofPairs(j: Joiner, cohort: Cohort): (Proof, Observation) -> bool {
    (p: Proof, a: Observation) => ObservedAs(j, cohort, p, a)
  }

  ghost predicate ProvenBy(j: Joiner, cohort: Cohort, p: Proof, o: Observation) {
    exists a :: ObservedAs(j, cohort, p, a) && ObservationKept(a, o)
  }

  ghost function DatasetPairs(j: Joiner, cohort: Cohort): (Proof, Observation) -> bool {
    (p: Proof, o: Observation) => ProvenBy(j, cohort, p, o)
  }

  /** Target time, then forecast in text order, then horizon. */
  ghost predicate Earlier(x: Observation, y: Observation) {
    || x.targetTime < y.targetTime
    || (x.targetTime == y.targetTime && TextLess(x.forecastId, y.forecastId))
    || (x.targetTime == y.targetTime && x.forecastId == y.forecastId && x.horizon < y.horizon)
  }

  lemma IntervalIsKept(x: Interval)
    requires NormalInterval(x).Some?
    ensures IntervalKept(x, NormalInterval(x).value)
  {
    var m := CoverageMillis(x.coverage).value;
    assert Thousandths(x.coverage, m);
  }

  lemma IntervalsKept(xs: seq<Interval>)
    requires NormalIntervals(xs).Some?
    ensures var ys := NormalIntervals(xs).value;
            && OneToOne(xs, ys, INTERVAL_PAIRS)
            && forall i, k :: 0 <= i < k < |ys| ==> ys[i].coverage < ys[k].coverage
  {
    CollectAt(xs, NORMAL_INTERVAL);
    forall i | 0 <= i < |xs| && NORMAL_INTERVAL(xs[i]).Some?
      ensures INTERVAL_PAIRS(xs[i], NORMAL_INTERVAL(xs[i]).value)
    {
      IntervalIsKept(xs[i]);
    }
    SortedPairs(xs, NORMAL_INTERVAL, BY_COVERAGE, INTERVAL_PAIRS);
    var zs := Collect(xs, NORMAL_INTERVAL).value;
    CoverageOrder(zs);
    SortStrict(zs, BY_COVERAGE);
    var ys := Sort(zs, BY_COVERAGE);
    assert forall i, k :: 0 <= i < k < |ys| ==> BY_COVERAGE(ys[i], ys[k]);
  }

  lemma ObservationIsKept(a: Observation)
    requires NormalObservation(a).Some?
    ensures ObservationKept(a, NormalObservation(a).value)
  {
    IntervalsKept(a.intervals);
  }

  lemma NormalsKept(xs: seq<Observation>)
    requires Collect(xs, NORMAL_OBSERVATION).Some?
    ensures OneToOne(xs, Sort(Collect(xs, NORMAL_OBSERVATION).value, BY_TARGET), OBSERVATION_PAIRS)
  {
    forall i | 0 <= i < |xs| && NORMAL_OBSERVATION(xs[i]).Some?
      ensures OBSERVATION_PAIRS(xs[i], NORMAL_OBSERVATION(xs[i]).value)
    {
      ObservationIsKept(xs[i]);
    }
    SortedPairs(xs, NORMAL_OBSERVATION, BY_TARGET, OBSERVATION_PAIRS);
  }

  lemma {:induction false} ExpectedMember(members: seq<Member>, id: Identity)
    requires id in Expected(members)
    ensures Expected(members)[id] in members && Expected(members)[id].identity == id
  {
    if Last(members).identity != id {
      ExpectedMember(Init(members), id);
      InitLast(members);
    }
  }

  lemma ProofsObserved(j: Joiner, cohort: Cohort, proofs: seq<Proof>)
    requires Collect(proofs, Observe(j, Expected(cohort.members))).Some?
    ensures var os := Collect(proofs, Observe(j, Expected(cohort.members))).value;
            OneToOne(proofs, Sort(os, BY_TARGET), ProofPairs(j, cohort))
  {
    var f := Observe(j, Expected(cohort.members));
    CollectAt(proofs, f);
    forall i | 0 <= i < |proofs| && f(proofs[i]).Some?
      ensures ProofPairs(j, cohort)(proofs[i], f(proofs[i]).value)
    {
      ExpectedMember(cohort.members, proofs[i].identity);
    }
    SortedPairs(proofs, f, BY_TARGET, ProofPairs(j, cohort));
  }

  lemma SortedEarlier(os: seq<Observation>)
    requires Distinct(Keys(os)) && Distinct(Opportunities(os))
    ensures var zs := Sort(os, BY_TARGET); forall i, k :: 0 <= i < k < |zs| ==> Earlier(zs[i], zs[k])
  {
    DistinctSorted(os);
    TargetOrder();
    SortStrict(os, BY_TARGET);
    var zs := Sort(os, BY_TARGET);
    assert forall i, k :: 0 <= i < k < |zs| ==> BY_TARGET(zs[i], zs[k]);
  }

  /** Normalising leaves identity, order, opportunity and digest row of an observation alone. */
  lemma NormalInOrder(xs: seq<Observation>)
    requires Collect(xs, NORMAL_OBSERVATION).Some? && Strict(xs, BY_TARGET)
    ensures var ys := Collect(xs, NORMAL_OBSERVATION).value;
            && |ys| == |xs| && Sort(ys, BY_TARGET) == ys
            && (forall i :: 0 <= i < |xs| ==> ObservationKept(xs[i], ys[i]))
  {
    var ys := Collect(xs, NORMAL_OBSERVATION).value;
    CollectAt(xs, NORMAL_OBSERVATION);
    forall i | 0 <= i < |xs| ensures ObservationKept(xs[i], ys[i]) {
      assert NORMAL_OBSERVATION(xs[i]) == Some(ys[i]);
      ObservationIsKept(xs[i]);
    }
    forall i, k | 0 <= i < k < |ys| ensures BY_TARGET(ys[i], ys[k]) {
      assert BY_TARGET(xs[i], xs[k]) && ObservationKept(xs[i], ys[i]) && ObservationKept(xs[k], ys[k]);
    }
    TargetOrder();
    SortFixes(ys, BY_TARGET);
  }

  lemma OrderedByTarget(os: seq<Observation>)
    requires forall i, k :: 0 <= i < k < |os| ==> IdentityOf(os[i]) != IdentityOf(os[k])
    ensures var zs := Sort(os, BY_TARGET);
            && Strict(zs, BY_TARGET) && |zs| == |os| && multiset(zs) == multiset(os)
            && forall i, k :: 0 <= i < k < |zs| ==> IdentityOf(zs[i]) != IdentityOf(zs[k])
  {
    ObservationsSeparated(os);
    TargetOrder();
    SortStrict(os, BY_TARGET);
    SortPermutes(os, BY_TARGET);
    SameMembers(os, Sort(os, BY_TARGET));
    SortedIdentities(os, Sort(os, BY_TARGET));
  }

  /** Normalised and sorted, the observations are paired with the proofs, ordered, and of the draft's scope. */
  lemma JoinedObservations(j: Joiner, cohort: Cohort, proofs: seq<Proof>, ordered: seq<Observation>)
    requires OneToOne(proofs, ordered, ProofPairs(j, cohort)) && Collect(ordered, NORMAL_OBSERVATION).Some?
    ensures OneToOne(proofs, Sort(Collect(ordered, NORMAL_OBSERVATION).value, BY_TARGET), DatasetPairs(j, cohort))
  {
    NormalsKept(ordered);
    forall p, a, o | ProofPairs(j, cohort)(p, a) && OBSERVATION_PAIRS(a, o) ensures DatasetPairs(j, cohort)(p, o) {
      assert ObservedAs(j, cohort, p, a) && ObservationKept(a, o);
    }
    hide OneToOne, Sort, Collect;
    PairedThrough(proofs, ordered, Sort(Collect(ordered, NORMAL_OBSERVATION).value, BY_TARGET),
                  ProofPairs(j, cohort), OBSERVATION_PAIRS, DatasetPairs(j, cohort));
  }

  lemma ShapeMeans(d: EvidenceSet)
    requires NormalizedShape(d).Some?
    ensures var e := NormalizedShape(d).value;
            && e == d.(observations := e.observations) && Collect(d.observations, NORMAL_OBSERVATION).Some?
            && e.observations == Sort(Collect(d.observations, NORMAL_OBSERVATION).value, BY_TARGET)
            && (forall i, k :: 0 <= i < k < |e.observations| ==> Earlier(e.observations[i], e.observations[k]))
            && (forall i :: 0 <= i < |e.observations| ==> e.observations[i].scope == d.scope)
  {
    hide Earlier, Distinct;
    var normal := Collect(d.observations, NORMAL_OBSERVATION).value;
    SortedEarlier(normal);
    SortPermutes(normal, BY_TARGET);
    SortedScope(normal, Sort(normal, BY_TARGET), d.scope);
  }

  // ---- when a join succeeds ----

  /** A central equal-tailed interval of `m` thousandths, up to one part in 10^9, and not inverted. */
  ghost predicate IntervalOk(x: Interval, m: int) {
    && Thousandths(x.coverage, m)
    && -0.000000001 <= x.lowerQuantile - (1.0 - m as real / 1000.0) / 2.0 <= 0.000000001
    && -0.000000001 <= x.upperQuantile - (1.0 + m as real / 1000.0) / 2.0 <= 0.000000001
    && x.lower <= x.upper
  }

  ghost predicate SameThousandth(x: Interval, y: Interval) {
    exists m: int :: Thousandths(x.coverage, m) && Thousandths(y.coverage, m)
  }

  ghost predicate Central(x: Interval) {
    exists m: int :: IntervalOk(x, m)
  }

  ghost predicate ObservationOk(o: Observation) {
    && 1 <= o.horizon <= 252 && 0.0 <= o.realized && o.intervals != []
    && (forall i :: 0 <= i < |o.intervals| ==> Central(o.intervals[i]))
    && (forall i, k :: 0 <= i < k < |o.intervals| ==> !SameThousandth(o.intervals[i], o.intervals[k]))
  }

  lemma MillisIff(c: real, m: int)
    ensures CoverageMillis(c) == Some(m) <==> Thousandths(c, m)
  {
    if Thousandths(c, m) {
      assert -0.000000001 <= c * 1000.0 - m as real <= 0.000000001;
      assert HalfEven(c * 1000.0) == m;
    }
  }

  lemma IntervalIff(x: Interval)
    ensures NormalInterval(x).Some? <==> Central(x)
    ensures NormalInterval(x).Some? ==>
              exists m: int :: Thousandths(x.coverage, m) && NormalInterval(x).value.coverage == m as real / 1000.0
  {
    if CoverageMillis(x.coverage).Some? {
      var m := CoverageMillis(x.coverage).value;
      MillisIff(x.coverage, m);
      assert NormalInterval(x).Some? ==> IntervalOk(x, m);
    }
    if m :| IntervalOk(x, m) {
      MillisIff(x.coverage, m);
    }
  }

  lemma SameCoverage(x: Interval, y: Interval)
    requires NormalInterval(x).Some? && NormalInterval(y).Some?
    ensures NormalInterval(x).value.coverage == NormalInterval(y).value.coverage <==> SameThousandth(x, y)
  {
    var m, n := CoverageMillis(x.coverage).value, CoverageMillis(y.coverage).value;
    MillisIff(x.coverage, m);
    MillisIff(y.coverage, n);
    if k :| Thousandths(x.coverage, k) && Thousandths(y.coverage, k) {
      MillisIff(x.coverage, k);
      MillisIff(y.coverage, k);
    }
    if m as real / 1000.0 == n as real / 1000.0 {
      assert m as real == n as real;
      assert Thousandths(x.coverage, m) && Thousandths(y.coverage, m);
    }
  }

  lemma IntervalsIff(xs: seq<Interval>)
    ensures NormalIntervals(xs).Some? <==>
              && (forall i :: 0 <= i < |xs| ==> Central(xs[i]))
              && (forall i, k :: 0 <= i < k < |xs| ==> !SameThousandth(xs[i], xs[k]))
  {
    hide Central, SameThousandth, NormalInterval;
    CollectAt(xs, NORMAL_INTERVAL);
    forall i | 0 <= i < |xs| ensures NORMAL_INTERVAL(xs[i]).Some? <==> Central(xs[i]) {
      IntervalIff(xs[i]);
    }
    if Collect(xs, NORMAL_INTERVAL).Some? {
      var ys := Collect(xs, NORMAL_INTERVAL).value;
      DistinctPairs(Coverages(ys));
      forall i, k | 0 <= i < k < |xs| ensures Coverages(ys)[i] == Coverages(ys)[k] <==> SameThousandth(xs[i], xs[k]) {
        assert NORMAL_INTERVAL(xs[i]) == Some(ys[i]) && NORMAL_INTERVAL(xs[k]) == Some(ys[k]);
        SameCoverage(xs[i], xs[k]);
      }
    }
  }

  lemma ObservationIff(o: Observation)
    ensures NormalObservation(o).Some? <==> ObservationOk(o)
  {
    hide Central, SameThousandth;
    IntervalsIff(o.intervals);
  }

  /** Raw daily closes in dollars of one uncalibrated model. */
  ghost predicate ScopeFits(s: Scope) {
    && s.target == "close" && s.seriesBasis == "raw" && s.horizonUnit == "trading_day" && s.currency == "USD"
    && s.symbol != "" && s.modelVersion != ""
    && s.calibrationMethod == "none" && s.calibrationVersion == "uncalibrated:" + s.modelVersion
  }

  ghost predicate OpportunitiesDiffer(os: seq<Observation>) {
    forall i, k :: 0 <= i < k < |os| ==> os[i].opportunity != os[k].opportunity || os[i].horizon != os[k].horizon
  }

  /** Acceptable observations of one fitting scope, no two of one opportunity at one horizon. */
  ghost predicate DatasetOk(os: seq<Observation>) {
    && os != [] && ScopeFits(os[0].scope)
    && (forall i :: 0 <= i < |os| ==> ObservationOk(os[i]) && os[i].scope == os[0].scope)
    && OpportunitiesDiffer(os)
  }

  lemma OpportunitiesIff(os: seq<Observation>)
    ensures Distinct(Opportunities(os)) <==> OpportunitiesDiffer(os)
  {
    DistinctPairs(Opportunities(os));
    assert forall i :: 0 <= i < |os| ==> Opportunities(os)[i] == (os[i].opportunity, os[i].horizon);
  }

  lemma KeysIff(os: seq<Observation>)
    ensures Distinct(Keys(os)) <==> forall i, k :: 0 <= i < k < |os| ==> IdentityOf(os[i]) != IdentityOf(os[k])
  {
    DistinctPairs(Keys(os));
    assert forall i :: 0 <= i < |os| ==> Keys(os)[i] == IdentityOf(os[i]);
  }

  /** Rearranging keeps a dataset acceptable. */
  lemma DatasetOkRearranged(os: seq<Observation>, zs: seq<Observation>)
    requires multiset(os) == multiset(zs) && Distinct(Keys(os)) && DatasetOk(os)
    ensures DatasetOk(zs)
  {
    hide ObservationOk, ScopeFits, Distinct, OpportunitiesDiffer;
    SameMembers(os, zs);
    OpportunitiesIff(os);
    OpportunitiesIff(zs);
    SameKeySets(os, zs);
    forall i | 0 <= i < |zs| ensures ObservationOk(zs[i]) && zs[i].scope == os[0].scope {
      assert zs[i] in os;
    }
  }

  lemma DatasetOkSorted(os: seq<Observation>, zs: seq<Observation>)
    requires multiset(os) == multiset(zs) && Distinct(Keys(os)) && Distinct(Keys(zs))
    ensures DatasetOk(os) <==> DatasetOk(zs)
  {
    if DatasetOk(os) {
      DatasetOkRearranged(os, zs);
    } else if DatasetOk(zs) {
      DatasetOkRearranged(zs, os);
    }
  }

  lemma NormalsIff(xs: seq<Observation>)
    ensures Collect(xs, NORMAL_OBSERVATION).Some? <==> forall i :: 0 <= i < |xs| ==> ObservationOk(xs[i])
  {
    hide ObservationOk, NormalObservation;
    CollectAt(xs, NORMAL_OBSERVATION);
    forall i | 0 <= i < |xs| ensures NORMAL_OBSERVATION(xs[i]).Some? <==> ObservationOk(xs[i]) {
      ObservationIff(xs[i]);
    }
  }

  /** The digest covers nothing that normalising changes. */
  lemma SameDigest(id: string, xs: seq<Observation>, ys: seq<Observation>)
    requires |xs| == |ys| && forall i :: 0 <= i < |xs| ==> ObservationKept(xs[i], ys[i])
    ensures DigestOf(id, xs) == DigestOf(id, ys)
    ensures Keys(xs) == Keys(ys) && Opportunities(xs) == Opportunities(ys)
    ensures forall i :: 0 <= i < |xs| ==> IdentityOf(xs[i]) == IdentityOf(ys[i])
  {
    forall i | 0 <= i < |xs|
      ensures RowOf(xs[i]) == RowOf(ys[i]) && IdentityOf(xs[i]) == IdentityOf(ys[i])
      ensures xs[i].opportunity == ys[i].opportunity && xs[i].horizon == ys[i].horizon
    {
      assert ObservationKept(xs[i], ys[i]);
    }
  }

  /** The shape checks on sorted observations under their own digest. */
  lemma ShapeIff(d: EvidenceSet)
    requires d.observations != [] && d.sourceMembers != [] && Strict(d.observations, BY_TARGET)
    requires Distinct(Keys(d.observations)) && d.digest == DigestOf(d.cohort.cohortId, d.observations)
    requires d.scope == d.observations[0].scope && OneScope(d.observations, d.scope) && ScopeFits(d.scope)
    ensures NormalizedShape(d).Some? <==> DatasetOk(d.observations)
    ensures NormalizedShape(d).Some? ==>
              && NormalizedShape(d).value == d.(observations := NormalizedShape(d).value.observations)
              && |NormalizedShape(d).value.observations| == |d.observations|
              && (forall i :: 0 <= i < |d.observations| ==>
                    ObservationKept(d.observations[i], NormalizedShape(d).value.observations[i]))
  {
    hide ObservationOk, OpportunitiesDiffer, Strict, Distinct, ObservationKept;
    NormalsIff(d.observations);
    OpportunitiesIff(d.observations);
    var c := Collect(d.observations, NORMAL_OBSERVATION);
    if c.Some? {
      NormalInOrder(d.observations);
      SameDigest(d.cohort.cohortId, d.observations, c.value);
      ScopeKept(d.observations, c.value, d.scope);
    }
  }

  lemma ScopeKept(xs: seq<Observation>, ys: seq<Observation>, scope: Scope)
    requires |xs| == |ys| && OneScope(xs, scope) && forall i :: 0 <= i < |xs| ==> ObservationKept(xs[i], ys[i])
    ensures OneScope(ys, scope)
  {
    forall i | 0 <= i < |ys| ensures ys[i].scope == scope {
      assert ObservationKept(xs[i], ys[i]);
    }
  }

  lemma SourcesFound(zs: seq<Observation>, proofs: map<Identity, Proof>)
    requires forall o :: o in zs ==> IdentityOf(o) in proofs
    ensures Sources(zs, proofs).Some? && |Sources(zs, proofs).value| == |zs|
    ensures forall i :: 0 <= i < |zs| ==> Sources(zs, proofs).value[i] == proofs[IdentityOf(zs[i])]
  {
  }

  /** Every stored proof is its observation's, and the digest is the observations'. */
  ghost predicate SourcesOk(d: EvidenceSet, cohort: Cohort, proofs: map<Identity, Proof>) {
    && |d.sourceMembers| == |d.observations|
    && (forall i :: 0 <= i < |d.observations| ==>
          && IdentityOf(d.observations[i]) in proofs
          && d.sourceMembers[i] == proofs[IdentityOf(d.observations[i])])
    && d.digest == DigestOf(cohort.cohortId, d.observations)
  }

  function DraftOf(cohort: Cohort, ordered: seq<Observation>, sources: seq<Proof>): EvidenceSet
    requires ordered != []
  {
    EvidenceSet(cohort, DigestOf(cohort.cohortId, ordered), ordered[0].scope, ordered, sources)
  }

  lemma DraftShape(cohort: Cohort, ordered: seq<Observation>, proofs: map<Identity, Proof>)
    requires ordered != [] && Strict(ordered, BY_TARGET) && Distinct(Keys(ordered))
    requires OneScope(ordered, ordered[0].scope) && ScopeFits(ordered[0].scope) && Sources(ordered, proofs).Some?
    ensures var shape := NormalizedShape(DraftOf(cohort, ordered, Sources(ordered, proofs).value));
            (shape.Some? <==> DatasetOk(ordered)) && (shape.Some? ==> SourcesOk(shape.value, cohort, proofs))
  {
    hide ScopeFits, DatasetOk, Strict, Distinct, NormalizedShape, OneScope, ObservationKept;
    var draft := DraftOf(cohort, ordered, Sources(ordered, proofs).value);
    ShapeIff(draft);
    if NormalizedShape(draft).Some? {
      var os := NormalizedShape(draft).value.observations;
      SameDigest(cohort.cohortId, ordered, os);
    }
  }

  lemma AssembledSorted(cohort: Cohort, os: seq<Observation>, proofs: map<Identity, Proof>)
    requires Sort(os, BY_TARGET) != [] && Sources(Sort(os, BY_TARGET), proofs).Some?
    ensures var ordered := Sort(os, BY_TARGET);
            Assembled(cohort, os, proofs)
            == if OneScope(ordered, ordered[0].scope) && ScopeFits(ordered[0].scope)
               then NormalizedShape(DraftOf(cohort, ordered, Sources(ordered, proofs).value)) else None
  {
    hide NormalizedShape;
  }

  lemma DatasetScope(os: seq<Observation>)
    requires DatasetOk(os)
    ensures os != [] && OneScope(os, os[0].scope) && ScopeFits(os[0].scope)
  {
  }

  /** Assembling succeeds exactly for acceptable observations. */
  lemma AssembledIff(cohort: Cohort, os: seq<Observation>, proofs: map<Identity, Proof>)
    requires Distinct(Keys(os)) && forall o :: o in os ==> IdentityOf(o) in proofs
    ensures Assembled(cohort, os, proofs).Some? <==> DatasetOk(os)
    ensures Assembled(cohort, os, proofs).Some? ==> SourcesOk(Assembled(cohort, os, proofs).value, cohort, proofs)
  {
    hide DatasetOk, SourcesOk, NormalizedShape, Distinct, ScopeFits, Strict, DraftOf, OneScope, Sources;
    KeysIff(os);
    OrderedByTarget(os);
    var ordered := Sort(os, BY_TARGET);
    KeysIff(ordered);
    DatasetOkSorted(os, ordered);
    SameMembers(os, ordered);
    SourcesFound(ordered, proofs);
    if DatasetOk(ordered) {
      DatasetScope(ordered);
    }
    if ordered != [] {
      AssembledSorted(cohort, os, proofs);
      if OneScope(ordered, ordered[0].scope) && ScopeFits(ordered[0].scope) {
        DraftShape(cohort, ordered, proofs);
      }
    }
  }

  // ---- the whole join ----

  /** Members and proofs match one to one by identity. */
  ghost predicate MatchedUp(cohort: Cohort, proofs: seq<Proof>) {
    && |proofs| == |cohort.members|
    && (forall i, k :: 0 <= i < k < |proofs| ==> proofs[i].identity != proofs[k].identity)
    && (forall i, k :: 0 <= i < k < |cohort.members| ==> cohort.members[i].identity != cohort.members[k].identity)
    && (forall i :: 0 <= i < |cohort.members| ==> exists p :: p in proofs && p.identity == cohort.members[i].identity)
  }

  /** `os` is what validating the proofs gives, proof by proof. */
  ghost predicate AllObserved(j: Joiner, cohort: Cohort, proofs: seq<Proof>, os: seq<Observation>) {
    |os| == |proofs| && forall i :: 0 <= i < |proofs| ==> ObservedAs(j, cohort, proofs[i], os[i])
  }

  lemma {:induction false} ExpectedAt(members: seq<Member>, m: Member)
    requires m in members && forall i, k :: 0 <= i < k < |members| ==> members[i].identity != members[k].identity
    ensures m.identity in Expected(members) && Expected(members)[m.identity] == m
  {
    InitLast(members);
    if m != Last(members) {
      ExpectedAt(Init(members), m);
      var i :| 0 <= i < |members| - 1 && members[i] == m;
      assert members[i].identity != members[|members| - 1].identity;
    }
  }

  lemma ObservedOnce(j: Joiner, cohort: Cohort, p: Proof, a: Observation)
    requires forall i, k :: 0 <= i < k < |cohort.members| ==> cohort.members[i].identity != cohort.members[k].identity
    ensures ObservedAs(j, cohort, p, a) <==> Observe(j, Expected(cohort.members))(p) == Some(a)
  {
    if m :| m in cohort.members && m.identity == p.identity && j.observe(p, m) == Some(a) {
      ExpectedAt(cohort.members, m);
    }
    if p.identity in Expected(cohort.members) {
      ExpectedMember(cohort.members, p.identity);
    }
  }

  lemma AllObservedIff(j: Joiner, cohort: Cohort, proofs: seq<Proof>, os: seq<Observation>)
    requires MatchedUp(cohort, proofs)
    ensures AllObserved(j, cohort, proofs, os) <==> Collect(proofs, Observe(j, Expected(cohort.members))) == Some(os)
  {
    var f := Observe(j, Expected(cohort.members));
    CollectAt(proofs, f);
    if |os| == |proofs| {
      forall i | 0 <= i < |proofs| ensures ObservedAs(j, cohort, proofs[i], os[i]) <==> f(proofs[i]) == Some(os[i]) {
        ObservedOnce(j, cohort, proofs[i], os[i]);
      }
      if AllObserved(j, cohort, proofs, os) {
        CollectFixed(proofs, f, os);
      }
    }
  }

  lemma SubsetFull<T>(s: set<T>, t: set<T>)
    requires s <= t && |s| == |t|
    ensures s == t
  {
    assert |t - s| == 0;
    assert t == s + (t - s);
  }

  lemma MemberCount(members: seq<Member>)
    requires forall i, k :: 0 <= i < k < |members| ==> members[i].identity != members[k].identity
    ensures |Expected(members).Keys| == |members|
  {
    ExpectedKeys(members);
    DistinctPairs(MemberIds(members));
    assert forall i :: 0 <= i < |members| ==> MemberIds(members)[i] == members[i].identity;
  }

  lemma KeysMatched(cohort: Cohort, proofs: seq<Proof>)
    requires MatchedUp(cohort, proofs)
    ensures Expected(cohort.members).Keys <= IdentitySet(proofs)
  {
    ExpectedKeys(cohort.members);
    forall x | x in Expected(cohort.members).Keys ensures x in IdentitySet(proofs) {
      var i :| 0 <= i < |cohort.members| && MemberIds(cohort.members)[i] == x;
      var p :| p in proofs && p.identity == cohort.members[i].identity;
    }
  }

  lemma MatchedSets(cohort: Cohort, proofs: seq<Proof>)
    requires MatchedUp(cohort, proofs)
    ensures Distinct(Identities(proofs)) && IdentitySet(proofs) == Expected(cohort.members).Keys
  {
    DistinctIdentities(proofs);
    IdentitySetIs(proofs);
    MemberCount(cohort.members);
    KeysMatched(cohort, proofs);
    SubsetFull(Expected(cohort.members).Keys, IdentitySet(proofs));
  }

  lemma JoinMatches(j: Joiner, cohort: Cohort, proofs: seq<Proof>)
    requires Join(j, cohort, proofs).Some?
    ensures MatchedUp(cohort, proofs)
  {
    JoinIsBijection(j, cohort, proofs);
  }

  lemma ObservationsSourced(j: Joiner, cohort: Cohort, proofs: seq<Proof>)
    requires Binding(j) && MatchedUp(cohort, proofs)
    requires Collect(proofs, Observe(j, Expected(cohort.members))).Some?
    ensures var os := Collect(proofs, Observe(j, Expected(cohort.members))).value;
            && Distinct(Keys(os)) && |os| == |proofs|
            && forall o :: o in os ==>
                 IdentityOf(o) in ProofMap(proofs) && ProofMap(proofs)[IdentityOf(o)] in proofs
                 && ProofMap(proofs)[IdentityOf(o)].identity == IdentityOf(o)
  {
    var os := Collect(proofs, Observe(j, Expected(cohort.members))).value;
    MatchedSets(cohort, proofs);
    CollectedIdentities(j, cohort, proofs);
    KeysIff(os);
    forall o | o in os
      ensures IdentityOf(o) in ProofMap(proofs) && ProofMap(proofs)[IdentityOf(o)] in proofs
      ensures ProofMap(proofs)[IdentityOf(o)].identity == IdentityOf(o)
    {
      var i :| 0 <= i < |os| && os[i] == o;
      ProofMapAt(proofs, IdentityOf(o));
      assert proofs[i].identity == IdentityOf(o);
    }
  }

  lemma JoinIsAssembled(j: Joiner, cohort: Cohort, proofs: seq<Proof>)
    requires MatchedUp(cohort, proofs)
    ensures var c := Collect(proofs, Observe(j, Expected(cohort.members)));
            Join(j, cohort, proofs) == if c.None? then None else Assembled(cohort, c.value, ProofMap(proofs))
  {
    hide Assembled;
    MatchedSets(cohort, proofs);
  }

  /** A join succeeds exactly when members and proofs match one to one by identity, every proof validates
      against its own member, and the observations are acceptable, of one fitting scope, and no two of one
      opportunity at one horizon. */
  lemma JoinsIff(j: Joiner, cohort: Cohort, proofs: seq<Proof>)
    requires Binding(j)
    ensures Join(j, cohort, proofs).Some? <==>
              MatchedUp(cohort, proofs) && exists os :: AllObserved(j, cohort, proofs, os) && DatasetOk(os)
  {
    hide Join, MatchedUp, AllObserved, DatasetOk, Binding, Assembled, Collect;
    if Join(j, cohort, proofs).Some? {
      JoinMatches(j, cohort, proofs);
    }
    if MatchedUp(cohort, proofs) {
      JoinIsAssembled(j, cohort, proofs);
      var c := Collect(proofs, Observe(j, Expected(cohort.members)));
      forall os ensures AllObserved(j, cohort, proofs, os) <==> c == Some(os) {
        AllObservedIff(j, cohort, proofs, os);
      }
      if c.Some? {
        ObservationsSourced(j, cohort, proofs);
        AssembledIff(cohort, c.value, ProofMap(proofs));
      }
    }
  }

  /** The stored proofs are those of the observations, one by one. */
  ghost predicate SourcesMatch(d: EvidenceSet, proofs: seq<Proof>) {
    && |d.sourceMembers| == |d.observations|
    && forall i :: 0 <= i < |d.observations| ==>
         && d.sourceMembers[i] in proofs
         && d.sourceMembers[i].identity == Identity(d.observations[i].forecastId, d.observations[i].horizon)
  }

  /** The digest covers the cohort and, of every observation, what identifies it and its evidence. */
  ghost predicate DigestCovers(d: EvidenceSet) {
    && d.digest.cohortId == d.cohort.cohortId && |d.digest.rows| == |d.observations|
    && forall i :: 0 <= i < |d.observations| ==>
         var o, r := d.observations[i], d.digest.rows[i];
         && r.forecastId == o.forecastId && r.horizon == o.horizon && r.opportunity == o.opportunity
         && r.outcomeId == o.outcomeId && r.outputHash == o.outputHash && r.targetTime == o.targetTime
  }

  lemma AssembledMeans(cohort: Cohort, os: seq<Observation>, proofs: map<Identity, Proof>)
    requires Assembled(cohort, os, proofs).Some?
    ensures var d := Assembled(cohort, os, proofs).value; var ordered := Sort(os, BY_TARGET);
            && d.cohort == cohort && Collect(ordered, NORMAL_OBSERVATION).Some?
            && d.observations == Sort(Collect(ordered, NORMAL_OBSERVATION).value, BY_TARGET)
            && (forall i, k :: 0 <= i < k < |d.observations| ==> Earlier(d.observations[i], d.observations[k]))
            && (forall i :: 0 <= i < |d.observations| ==> d.observations[i].scope == d.scope)
  {
    hide NormalizedShape, Earlier;
    var ordered := Sort(os, BY_TARGET);
    ShapeMeans(DraftOf(cohort, ordered, Sources(ordered, proofs).value));
  }

  /** A joined dataset holds one observation for every proof and no other: what validating the proof against its
      own member gives, in every field, with its intervals on their thousandths in order of coverage. The
      observations are ordered by target time, forecast and horizon and share one scope; each is stored with
      its own proof, and the digest covers them all. */
  lemma JoinMeans(j: Joiner, cohort: Cohort, proofs: seq<Proof>)
    requires Binding(j) && Join(j, cohort, proofs).Some?
    ensures var d := Join(j, cohort, proofs).value;
            && d.cohort == cohort
            && OneToOne(proofs, d.observations, DatasetPairs(j, cohort))
            && (forall i, k :: 0 <= i < k < |d.observations| ==> Earlier(d.observations[i], d.observations[k]))
            && (forall i :: 0 <= i < |d.observations| ==> d.observations[i].scope == d.scope)
            && SourcesMatch(d, proofs) && DigestCovers(d)
  {
    hide Join, MatchedUp, Binding, Assembled, Collect, Sort, OneToOne, DatasetOk, Earlier;
    JoinMatches(j, cohort, proofs);
    JoinIsAssembled(j, cohort, proofs);
    var os := Collect(proofs, Observe(j, Expected(cohort.members))).value;
    ObservationsSourced(j, cohort, proofs);
    AssembledIff(cohort, os, ProofMap(proofs));
    AssembledMeans(cohort, os, ProofMap(proofs));
    ProofsObserved(j, cohort, proofs);
    JoinedObservations(j, cohort, proofs, Sort(os, BY_TARGET));
    StoredProofs(j, cohort, proofs);
  }

  lemma StoredProofs(j: Joiner, cohort: Cohort, proofs: seq<Proof>)
    requires Binding(j) && Join(j, cohort, proofs).Some?
    requires SourcesOk(Join(j, cohort, proofs).value, cohort, ProofMap(proofs))
    requires MatchedUp(cohort, proofs) && Join(j, cohort, proofs).value.cohort == cohort
    ensures SourcesMatch(Join(j, cohort, proofs).value, proofs) && DigestCovers(Join(j, cohort, proofs).value)
  {
    hide Join, Binding;
    var d := Join(j, cohort, proofs).value;
    forall i | 0 <= i < |d.observations|
      ensures d.sourceMembers[i] in proofs && d.sourceMembers[i].identity == IdentityOf(d.observations[i])
    {
      ProofMapAt(proofs, IdentityOf(d.observations[i]));
    }
  }

  /** A stored dataset is returned only when it holds what joining its own proofs gives: the same digest, scope
      and proofs, and the same observations up to their order and their intervals' noise. */
  lemma RequiredMeans(j: Joiner, d: EvidenceSet)
    requires RequireDataset(j, d).Some?
    ensures var e := RequireDataset(j, d).value;
            && Join(j, d.cohort, d.sourceMembers) == Some(e)
            && e.digest == d.digest && e.scope == d.scope && e.sourceMembers == d.sourceMembers
            && OneToOne(d.observations, e.observations, OBSERVATION_PAIRS)
  {
    hide Join, NormalizedShape, OneToOne;
    ShapeMeans(d);
    NormalsKept(d.observations);
  }
}
