/** Joining a sealed cohort to its proofs: an exact cover, ordered and content-addressed.

    Validating one archived run and outcome against one committed member is a parameter. */
module CalibrationJoin {
  import opened Common
  import opened Sorting

  datatype Identity = Identity(forecastId: string, step: int)

  datatype Member = Member(identity: Identity, commitment: string)

  datatype Cohort = Cohort(cohortId: string, purpose: string, members: seq<Member>)

  /** One archived run and its outcome; the identity is the outcome publication's. */
  datatype Proof = Proof(identity: Identity, content: string)

  datatype Interval = Interval(coverage: real, lowerQuantile: real, upperQuantile: real, lower: real, upper: real)

  datatype Scope = Scope(
    symbol: string, target: string, seriesBasis: string, horizonUnit: string, currency: string, modelVersion: string,
    calibrationVersion: string, calibrationMethod: string, resolutionPolicy: string, availabilityRules: string)

  datatype Observation = Observation(
    forecastId: string, horizon: int, targetTime: int, outcomeId: string, opportunity: string, outputHash: string,
    scope: Scope, realized: real, point: real, intervals: seq<Interval>)

  /** What the digest covers of one observation. */
  datatype DigestRow = DigestRow(
    forecastId: string, horizon: int, opportunity: string, outcomeId: string, outputHash: string, targetTime: int)

  datatype Digest = EvidenceDigest(cohortId: string, rows: seq<DigestRow>)

  datatype EvidenceSet = EvidenceSet(
    cohort: Cohort, digest: Digest, scope: Scope, observations: seq<Observation>, sourceMembers: seq<Proof>)

  /** The validation of one proof against its committed member. */
  datatype Joiner = Joiner(observe: (Proof, Member) -> Option<Observation>)

  /** An observation carries the identity of the member it was validated against. */
  ghost predicate Binding(j: Joiner) {
    forall p, m :: j.observe(p, m).Some? ==>
      j.observe(p, m).value.forecastId == m.identity.forecastId && j.observe(p, m).value.horizon == m.identity.step
  }

  // ---- normalising one observation ----

  function Absolute(x: real): real {
    if x < 0.0 then -x else x
  }

  /** Coverage in thousandths; refused unless it is canonical. */
  function CoverageMillis(c: real): Option<int> {
    var m := HalfEven(c * 1000.0);
    if 1 <= m <= 999 && Absolute(c - m as real / 1000.0) <= 0.000000000001 then Some(m) else None
  }

  function NormalInterval(x: Interval): Option<Interval> {
    match CoverageMillis(x.coverage)
    case None => None
    case Some(m) =>
      var c := m as real / 1000.0;
      if && Absolute(x.lowerQuantile - (1.0 - c) / 2.0) <= 0.000000001
         && Absolute(x.upperQuantile - (1.0 + c) / 2.0) <= 0.000000001
         && x.lower <= x.upper
      then Some(x.(coverage := c)) else None
  }

  const NORMAL_INTERVAL: Interval -> Option<Interval> := x => NormalInterval(x)

  const BY_COVERAGE: (Interval, Interval) -> bool := (x: Interval, y: Interval) => x.coverage < y.coverage

  function Coverages(xs: seq<Interval>): (r: seq<real>)
    ensures |r| == |xs|
  {
    seq(|xs|, i requires 0 <= i < |xs| => xs[i].coverage)
  }

  function NormalIntervals(xs: seq<Interval>): Option<seq<Interval>> {
    match Collect(xs, NORMAL_INTERVAL)
    case None => None
    case Some(ys) => if Distinct(Coverages(ys)) then Some(Sort(ys, BY_COVERAGE)) else None
  }

  function NormalObservation(o: Observation): Option<Observation> {
    if !(1 <= o.horizon <= 252) || o.intervals == [] || o.realized < 0.0 then None
    else match NormalIntervals(o.intervals)
      case None => None
      case Some(xs) => Some(o.(intervals := xs))
  }

  const NORMAL_OBSERVATION: Observation -> Option<Observation> := o => NormalObservation(o)

  // ---- the dataset ----

  const BY_TARGET: (Observation, Observation) -> bool := (x: Observation, y: Observation) =>
    || x.targetTime < y.targetTime
    || (x.targetTime == y.targetTime &&
          (TextLess(x.forecastId, y.forecastId) || (x.forecastId == y.forecastId && x.horizon < y.horizon)))

  function IdentityOf(o: Observation): Identity {
    Identity(o.forecastId, o.horizon)
  }

  function Keys(os: seq<Observation>): (r: seq<Identity>)
    ensures |r| == |os|
  {
    seq(|os|, i requires 0 <= i < |os| => IdentityOf(os[i]))
  }

  function Opportunities(os: seq<Observation>): (r: seq<(string, int)>)
    ensures |r| == |os|
  {
    seq(|os|, i requires 0 <= i < |os| => (os[i].opportunity, os[i].horizon))
  }

  function RowOf(o: Observation): DigestRow {
    DigestRow(o.forecastId, o.horizon, o.opportunity, o.outcomeId, o.outputHash, o.targetTime)
  }

  function DigestOf(cohortId: string, os: seq<Observation>): Digest {
    EvidenceDigest(cohortId, seq(|os|, i requires 0 <= i < |os| => RowOf(os[i])))
  }

  predicate ScopeOk(s: Scope) {
    && s.target == "close" && s.seriesBasis == "raw" && s.horizonUnit == "trading_day" && s.currency == "USD"
    && s.symbol != "" && s.modelVersion != ""
    && s.calibrationMethod == "none" && s.calibrationVersion == "uncalibrated:" + s.modelVersion
  }

  predicate OneScope(os: seq<Observation>, scope: Scope) {
    forall i :: 0 <= i < |os| ==> os[i].scope == scope
  }

  /** Everything a dataset must satisfy by itself, with its observations normalised and sorted. */
  function NormalizedShape(d: EvidenceSet): Option<EvidenceSet> {
    if d.observations == [] || d.sourceMembers == [] || !ScopeOk(d.scope) then None
    else match Collect(d.observations, NORMAL_OBSERVATION)
      case None => None
      case Some(os) =>
        var ordered := Sort(os, BY_TARGET);
        if Distinct(Keys(os)) && Distinct(Opportunities(os)) && OneScope(os, d.scope)
           && d.digest == DigestOf(d.cohort.cohortId, ordered)
        then Some(d.(observations := ordered)) else None
  }

  // ---- the join ----

  function Expected(members: seq<Member>): map<Identity, Member> {
    if members == [] then map[] else Expected(Init(members))[Last(members).identity := Last(members)]
  }

  function Observe(j: Joiner, expected: map<Identity, Member>): Proof -> Option<Observation> {
    (p: Proof) => if p.identity in expected then j.observe(p, expected[p.identity]) else None
  }

  function Identities(ps: seq<Proof>): (r: seq<Identity>)
    ensures |r| == |ps|
  {
    seq(|ps|, i requires 0 <= i < |ps| => ps[i].identity)
  }

  function IdentitySet(ps: seq<Proof>): set<Identity> {
    set p | p in ps :: p.identity
  }

  function ProofMap(ps: seq<Proof>): map<Identity, Proof> {
    if ps == [] then map[] else ProofMap(Init(ps))[Last(ps).identity := Last(ps)]
  }

  function Sources(os: seq<Observation>, proofs: map<Identity, Proof>): Option<seq<Proof>> {
    if forall i :: 0 <= i < |os| ==> IdentityOf(os[i]) in proofs
    then Some(seq(|os|, i requires 0 <= i < |os| => proofs[IdentityOf(os[i])])) else None
  }

  /** The dataset assembled from one observation per proof. */
  function Assembled(cohort: Cohort, os: seq<Observation>, proofs: map<Identity, Proof>): Option<EvidenceSet> {
    var ordered := Sort(os, BY_TARGET);
    if ordered == [] then None
    else
      var sources := Sources(ordered, proofs);
      if !OneScope(ordered, ordered[0].scope) || !ScopeOk(ordered[0].scope) || sources.None? then None
      else NormalizedShape(
        EvidenceSet(cohort, DigestOf(cohort.cohortId, ordered), ordered[0].scope, ordered, sources.value))
  }

  function Join(j: Joiner, cohort: Cohort, proofs: seq<Proof>): Option<EvidenceSet> {
    var expected := Expected(cohort.members);
    if |proofs| != |cohort.members| || !Distinct(Identities(proofs)) then None
    else match Collect(proofs, Observe(j, expected))
      case None => None
      case Some(os) =>
        if IdentitySet(proofs) != expected.Keys then None else Assembled(cohort, os, ProofMap(proofs))
  }

  method JoinCalibrationEvidence(j: Joiner, cohort: Cohort, proofs: seq<Proof>) returns (r: Option<EvidenceSet>)
    ensures r == Join(j, cohort, proofs)
  {
    if |proofs| != |cohort.members| {
      return None;
    }
    var expected := Expected(cohort.members);
    var seen: set<Identity>, byIdentity: map<Identity, Proof> := {}, map[];
    var observations: seq<Observation> := [];
    for i := 0 to |proofs|
      invariant seen == IdentitySet(proofs[..i]) && byIdentity == ProofMap(proofs[..i])
      invariant Distinct(Identities(proofs[..i]))
      invariant Collect(proofs[..i], Observe(j, expected)) == Some(observations)
    {
      var proof := proofs[i];
      NextIdentity(proofs, i);
      CollectStops(proofs, i, Observe(j, expected));
      if proof.identity in seen {
        return None;
      }
      seen := seen + {proof.identity};
      byIdentity := byIdentity[proof.identity := proof];
      if proof.identity !in expected {
        return None;
      }
      var observation := j.observe(proof, expected[proof.identity]);
      if observation.None? {
        return None;
      }
      observations := observations + [observation.value];
    }
    assert proofs[..|proofs|] == proofs;
    if seen != expected.Keys {
      return None;
    }
    r := Assembled(cohort, observations, byIdentity);
  }

  lemma NextIdentity(proofs: seq<Proof>, i: nat)
    requires i < |proofs| && Distinct(Identities(proofs[..i]))
    ensures var next := proofs[..i + 1];
            && IdentitySet(next) == IdentitySet(proofs[..i]) + {proofs[i].identity}
            && ProofMap(next) == ProofMap(proofs[..i])[proofs[i].identity := proofs[i]]
    ensures proofs[i].identity !in IdentitySet(proofs[..i]) ==> Distinct(Identities(proofs[..i + 1]))
    ensures proofs[i].identity in IdentitySet(proofs[..i]) ==> !Distinct(Identities(proofs))
  {
    var before, next := proofs[..i], proofs[..i + 1];
    assert Init(next) == before && Last(next) == proofs[i];
    assert forall p :: p in next <==> p in before || p == proofs[i];
    if proofs[i].identity in IdentitySet(before) {
      var p :| p in before && p.identity == proofs[i].identity;
      var k :| 0 <= k < i && before[k] == p;
      DistinctPairs(Identities(proofs));
      assert Identities(proofs)[k] == Identities(proofs)[i];
    } else {
      NewIdentity(before, proofs[i]);
      assert next == before + [proofs[i]];
    }
  }

  lemma NewIdentity(before: seq<Proof>, p: Proof)
    requires Distinct(Identities(before)) && p.identity !in IdentitySet(before)
    ensures Distinct(Identities(before + [p]))
  {
    var ids, more := Identities(before), Identities(before + [p]);
    DistinctPairs(ids);
    DistinctPairs(more);
    forall k | 0 <= k < |before| ensures more[k] == ids[k] && more[k] != p.identity {
      assert before[k] in before;
    }
  }

  /** A stored dataset, re-derived from its own proofs. */
  function RequireDataset(j: Joiner, d: EvidenceSet): Option<EvidenceSet> {
    match NormalizedShape(d)
    case None => None
    case Some(normalized) =>
      match Join(j, normalized.cohort, normalized.sourceMembers)
      case None => None
      case Some(rejoined) => if normalized == rejoined then Some(rejoined) else None
  }

  // ---- a bijection ----

  function MemberIds(members: seq<Member>): (r: seq<Identity>)
    ensures |r| == |members|
  {
    seq(|members|, i requires 0 <= i < |members| => members[i].identity)
  }

  lemma {:induction false} ExpectedKeys(members: seq<Member>)
    ensures Expected(members).Keys == set x | x in MemberIds(members)
  {
    if members != [] {
      var rest, m := Init(members), Last(members);
      ExpectedKeys(rest);
      assert MemberIds(members) == MemberIds(rest) + [m.identity];
    }
  }

  lemma IdentitySetIs(ps: seq<Proof>)
    ensures IdentitySet(ps) == set x | x in Identities(ps)
  {
    forall x | x in IdentitySet(ps) ensures x in Identities(ps) {
      var p :| p in ps && p.identity == x;
      var k :| 0 <= k < |ps| && ps[k] == p;
      assert Identities(ps)[k] == x;
    }
    forall x | x in Identities(ps) ensures x in IdentitySet(ps) {
      var k :| 0 <= k < |ps| && Identities(ps)[k] == x;
      assert ps[k] in ps;
    }
  }

  lemma MembersDistinct(members: seq<Member>)
    requires |Expected(members).Keys| == |members|
    ensures forall i, k :: 0 <= i < k < |members| ==> members[i].identity != members[k].identity
  {
    ExpectedKeys(members);
    DistinctPairs(MemberIds(members));
    assert forall i :: 0 <= i < |members| ==> MemberIds(members)[i] == members[i].identity;
  }

  lemma MemberExpected(members: seq<Member>, m: Member)
    requires m in members
    ensures m.identity in Expected(members)
  {
    ExpectedKeys(members);
    var k :| 0 <= k < |members| && members[k] == m;
    assert MemberIds(members)[k] == m.identity;
  }

  /** A join succeeds only when members and proofs correspond one to one by identity, each proof
      validated against its own member. */
  lemma JoinIsBijection(j: Joiner, cohort: Cohort, proofs: seq<Proof>)
    requires Join(j, cohort, proofs).Some?
    ensures forall i, k :: 0 <= i < k < |cohort.members| ==> cohort.members[i].identity != cohort.members[k].identity
    ensures forall i, k :: 0 <= i < k < |proofs| ==> proofs[i].identity != proofs[k].identity
    ensures forall m :: m in cohort.members ==> exists p :: p in proofs && p.identity == m.identity
    ensures forall p :: p in proofs ==>
              p.identity in Expected(cohort.members) && j.observe(p, Expected(cohort.members)[p.identity]).Some?
  {
    var expected := Expected(cohort.members);
    IdentitySetIs(proofs);
    MembersDistinct(cohort.members);
    DistinctIdentities(proofs);
    forall m | m in cohort.members ensures exists p :: p in proofs && p.identity == m.identity {
      MemberExpected(cohort.members, m);
      assert m.identity in IdentitySet(proofs);
    }
    CollectAt(proofs, Observe(j, expected));
  }

  // ---- order independence ----

  lemma TargetOrder()
    ensures StrictOrder(BY_TARGET)
  {
    forall x: Observation, y: Observation, z: Observation
      ensures !BY_TARGET(x, x) && (BY_TARGET(x, y) && BY_TARGET(y, z) ==> BY_TARGET(x, z))
    {
      TextLessIrreflexive(x.forecastId);
      if TextLess(x.forecastId, y.forecastId) && TextLess(y.forecastId, z.forecastId) {
        TextLessTransitive(x.forecastId, y.forecastId, z.forecastId);
      }
    }
  }

  lemma TargetSeparates(x: Observation, y: Observation)
    requires IdentityOf(x) != IdentityOf(y)
    ensures BY_TARGET(x, y) || BY_TARGET(y, x)
  {
    TextLessTotal(x.forecastId, y.forecastId);
  }

  lemma {:induction false} ObservationsSeparated(os: seq<Observation>)
    requires forall i, k :: 0 <= i < k < |os| ==> IdentityOf(os[i]) != IdentityOf(os[k])
    ensures Separated(multiset(os), BY_TARGET)
  {
    if os != [] {
      var rest, o := Init(os), Last(os);
      ObservationsSeparated(rest);
      InitLast(os);
      SnocMultiset(rest, o);
      forall y | y in rest ensures BY_TARGET(o, y) || BY_TARGET(y, o) {
        TargetSeparates(o, y);
      }
      assert forall y :: multiset(os)[y] == multiset(rest)[y] + multiset{o}[y];
      assert o !in rest;
    }
  }

  lemma {:induction false} ProofMapAt(ps: seq<Proof>, id: Identity)
    requires forall i, k :: 0 <= i < k < |ps| ==> ps[i].identity != ps[k].identity
    ensures id in ProofMap(ps) <==> exists p :: p in ps && p.identity == id
    ensures forall p :: p in ps && p.identity == id ==> id in ProofMap(ps) && ProofMap(ps)[id] == p
  {
    if ps != [] {
      ProofMapAt(Init(ps), id);
      InitLast(ps);
      assert forall p :: p in ps <==> p in Init(ps) || p == Last(ps);
      assert forall p :: p in Init(ps) ==> p.identity != Last(ps).identity;
    }
  }

  lemma SameProofMap(ps: seq<Proof>, qs: seq<Proof>)
    requires forall i, k :: 0 <= i < k < |ps| ==> ps[i].identity != ps[k].identity
    requires forall i, k :: 0 <= i < k < |qs| ==> qs[i].identity != qs[k].identity
    requires forall p :: p in ps <==> p in qs
    ensures ProofMap(ps) == ProofMap(qs)
  {
    forall id
      ensures id in ProofMap(ps) <==> id in ProofMap(qs)
      ensures id in ProofMap(ps) ==> ProofMap(ps)[id] == ProofMap(qs)[id]
    {
      ProofMapAt(ps, id);
      ProofMapAt(qs, id);
    }
  }

  lemma DistinctIdentities(ps: seq<Proof>)
    ensures Distinct(Identities(ps)) <==> forall i, k :: 0 <= i < k < |ps| ==> ps[i].identity != ps[k].identity
  {
    DistinctPairs(Identities(ps));
    assert forall i :: 0 <= i < |ps| ==> Identities(ps)[i] == ps[i].identity;
  }

  /** The identity of each observation is its proof's. */
  lemma CollectedIdentities(j: Joiner, cohort: Cohort, ps: seq<Proof>)
    requires Binding(j) && Collect(ps, Observe(j, Expected(cohort.members))).Some? && Distinct(Identities(ps))
    ensures var os := Collect(ps, Observe(j, Expected(cohort.members))).value;
            && |os| == |ps| && (forall i :: 0 <= i < |os| ==> IdentityOf(os[i]) == ps[i].identity)
            && Separated(multiset(os), BY_TARGET)
  {
    var f := Observe(j, Expected(cohort.members));
    var os := Collect(ps, f).value;
    CollectAt(ps, f);
    DistinctIdentities(ps);
    forall i | 0 <= i < |os| ensures IdentityOf(os[i]) == ps[i].identity {
      assert f(ps[i]) == Some(os[i]);
      ExpectedBinds(cohort.members, ps[i].identity);
    }
    ObservationsSeparated(os);
  }

  lemma {:induction false} ExpectedBinds(members: seq<Member>, id: Identity)
    requires id in Expected(members)
    ensures Expected(members)[id].identity == id
  {
    if Last(members).identity != id {
      ExpectedBinds(Init(members), id);
    }
  }

  lemma SameMembers<T>(xs: seq<T>, ys: seq<T>)
    requires multiset(xs) == multiset(ys)
    ensures |xs| == |ys| && forall x :: x in xs <==> x in ys
  {
    assert |xs| == |multiset(xs)| == |multiset(ys)| == |ys|;
    forall x ensures x in xs <==> x in ys {
      assert x in multiset(xs) <==> x in multiset(ys);
    }
  }

  lemma DistinctPermutes(ps: seq<Proof>, qs: seq<Proof>)
    requires multiset(ps) == multiset(qs) && Distinct(Identities(ps))
    ensures Distinct(Identities(qs))
  {
    SameMembers(ps, qs);
    IdentitySetIs(ps);
    IdentitySetIs(qs);
    assert IdentitySet(ps) == IdentitySet(qs);
  }

  /** The same dataset, and the same digest, for every order of the proofs. */
  lemma JoinForgetsOrder(j: Joiner, cohort: Cohort, ps: seq<Proof>, qs: seq<Proof>)
    requires Binding(j) && multiset(ps) == multiset(qs)
    ensures Join(j, cohort, ps) == Join(j, cohort, qs)
  {
    var f := Observe(j, Expected(cohort.members));
    SameMembers(ps, qs);
    CollectPermutes(ps, qs, f);
    if Distinct(Identities(ps)) {
      DistinctPermutes(ps, qs);
    } else if Distinct(Identities(qs)) {
      DistinctPermutes(qs, ps);
    }
    assert IdentitySet(ps) == IdentitySet(qs);
    if Distinct(Identities(ps)) && Collect(ps, f).Some? {
      CollectedIdentities(j, cohort, ps);
      TargetOrder();
      SortCanonical(Collect(ps, f).value, Collect(qs, f).value, BY_TARGET);
      DistinctIdentities(ps);
      DistinctIdentities(qs);
      SameProofMap(ps, qs);
    }
  }

  // ---- rejoining a stored dataset ----

  lemma MillisFixed(c: real)
    requires CoverageMillis(c).Some?
    ensures CoverageMillis(CoverageMillis(c).value as real / 1000.0) == CoverageMillis(c)
  {
    var m := CoverageMillis(c).value;
    assert (m as real / 1000.0) * 1000.0 == m as real;
  }

  lemma IntervalFixed(x: Interval)
    requires NormalInterval(x).Some?
    ensures NormalInterval(NormalInterval(x).value) == NormalInterval(x)
  {
    MillisFixed(x.coverage);
  }

  lemma CoverageOrder(xs: seq<Interval>)
    requires Distinct(Coverages(xs))
    ensures StrictOrder(BY_COVERAGE) && Separated(multiset(xs), BY_COVERAGE)
  {
    DistinctPairs(Coverages(xs));
    assert forall i :: 0 <= i < |xs| ==> Coverages(xs)[i] == xs[i].coverage;
    CoveragesSeparated(xs);
  }

  lemma {:induction false} CoveragesSeparated(xs: seq<Interval>)
    requires forall i, k :: 0 <= i < k < |xs| ==> xs[i].coverage != xs[k].coverage
    ensures Separated(multiset(xs), BY_COVERAGE)
  {
    if xs != [] {
      CoveragesSeparated(Init(xs));
      InitLast(xs);
      SnocMultiset(Init(xs), Last(xs));
      assert forall y :: y in Init(xs) ==> y.coverage != Last(xs).coverage;
      assert forall y :: multiset(xs)[y] == multiset(Init(xs))[y] + multiset{Last(xs)}[y];
    }
  }

  lemma StrictCoverages(xs: seq<Interval>)
    requires Strict(xs, BY_COVERAGE)
    ensures Distinct(Coverages(xs))
  {
    DistinctPairs(Coverages(xs));
    forall i, k | 0 <= i < k < |xs| ensures Coverages(xs)[i] != Coverages(xs)[k] {
      assert BY_COVERAGE(xs[i], xs[k]);
    }
  }

  lemma IntervalsFixed(xs: seq<Interval>)
    requires NormalIntervals(xs).Some?
    ensures NormalIntervals(NormalIntervals(xs).value) == NormalIntervals(xs)
    ensures |NormalIntervals(xs).value| == |xs|
  {
    var ys := Collect(xs, NORMAL_INTERVAL).value;
    var zs := Sort(ys, BY_COVERAGE);
    CoverageOrder(ys);
    SortPermutes(ys, BY_COVERAGE);
    SortStrict(ys, BY_COVERAGE);
    SortedAgain(ys, BY_COVERAGE);
    StrictCoverages(zs);
    CollectAt(xs, NORMAL_INTERVAL);
    forall i | 0 <= i < |zs| ensures NORMAL_INTERVAL(zs[i]) == Some(zs[i]) {
      var x := SortedCollected(xs, NORMAL_INTERVAL, BY_COVERAGE, i);
      IntervalFixed(x);
    }
    CollectFixed(zs, NORMAL_INTERVAL, zs);
  }

  lemma ObservationFixed(o: Observation)
    requires NormalObservation(o).Some?
    ensures NormalObservation(NormalObservation(o).value) == NormalObservation(o)
  {
    IntervalsFixed(o.intervals);
  }

  lemma DistinctSorted(os: seq<Observation>)
    requires Distinct(Keys(os)) && Distinct(Opportunities(os))
    ensures var zs := Sort(os, BY_TARGET);
            && Separated(multiset(os), BY_TARGET) && multiset(zs) == multiset(os)
            && Distinct(Keys(zs)) && Distinct(Opportunities(zs))
  {
    DistinctPairs(Keys(os));
    assert forall i :: 0 <= i < |os| ==> Keys(os)[i] == IdentityOf(os[i]);
    ObservationsSeparated(os);
    SortPermutes(os, BY_TARGET);
    var zs := Sort(os, BY_TARGET);
    SameMembers(os, zs);
    SameKeySets(os, zs);
  }

  lemma SameKeySets(os: seq<Observation>, zs: seq<Observation>)
    requires |os| == |zs| && forall o :: o in os <==> o in zs
    requires Distinct(Keys(os)) && Distinct(Opportunities(os))
    ensures Distinct(Keys(zs)) && Distinct(Opportunities(zs))
  {
    KeySetIs(os);
    KeySetIs(zs);
    assert (set o | o in os :: IdentityOf(o)) == (set o | o in zs :: IdentityOf(o));
    assert (set o | o in os :: (o.opportunity, o.horizon)) == (set o | o in zs :: (o.opportunity, o.horizon));
  }

  lemma KeySetIs(os: seq<Observation>)
    ensures (set x | x in Keys(os)) == set o | o in os :: IdentityOf(o)
    ensures (set x | x in Opportunities(os)) == set o | o in os :: (o.opportunity, o.horizon)
  {
    forall i | 0 <= i < |os|
      ensures Keys(os)[i] == IdentityOf(os[i]) && os[i] in os
      ensures Opportunities(os)[i] == (os[i].opportunity, os[i].horizon)
    {
    }
    forall o | o in os ensures IdentityOf(o) in Keys(os) && (o.opportunity, o.horizon) in Opportunities(os) {
      var k :| 0 <= k < |os| && os[k] == o;
      assert Keys(os)[k] == IdentityOf(o) && Opportunities(os)[k] == (o.opportunity, o.horizon);
    }
  }

  lemma NormalsFixed(xs: seq<Observation>)
    requires Collect(xs, NORMAL_OBSERVATION).Some?
    ensures var zs := Sort(Collect(xs, NORMAL_OBSERVATION).value, BY_TARGET);
            Collect(zs, NORMAL_OBSERVATION) == Some(zs)
  {
    var zs := Sort(Collect(xs, NORMAL_OBSERVATION).value, BY_TARGET);
    forall i | 0 <= i < |zs| ensures NORMAL_OBSERVATION(zs[i]) == Some(zs[i]) {
      var o := SortedCollected(xs, NORMAL_OBSERVATION, BY_TARGET, i);
      ObservationFixed(o);
    }
    CollectFixed(zs, NORMAL_OBSERVATION, zs);
  }

  lemma ShapeOfNormal(d: EvidenceSet)
    requires d.observations != [] && d.sourceMembers != [] && ScopeOk(d.scope)
    requires Collect(d.observations, NORMAL_OBSERVATION) == Some(d.observations)
    requires Sort(d.observations, BY_TARGET) == d.observations
    requires Distinct(Keys(d.observations)) && Distinct(Opportunities(d.observations))
    requires OneScope(d.observations, d.scope)
    requires d.digest == DigestOf(d.cohort.cohortId, d.observations)
    ensures NormalizedShape(d) == Some(d)
  {
  }

  lemma SortedScope(os: seq<Observation>, zs: seq<Observation>, scope: Scope)
    requires OneScope(os, scope) && multiset(os) == multiset(zs)
    ensures OneScope(zs, scope) && |zs| == |os|
  {
    SameMembers(os, zs);
    forall i | 0 <= i < |zs| ensures zs[i].scope == scope {
      assert zs[i] in os;
    }
  }

  /** Normalising a normalised dataset changes nothing. */
  lemma ShapeFixed(d: EvidenceSet)
    requires NormalizedShape(d).Some?
    ensures NormalizedShape(NormalizedShape(d).value) == NormalizedShape(d)
  {
    var os := Collect(d.observations, NORMAL_OBSERVATION).value;
    CollectAt(d.observations, NORMAL_OBSERVATION);
    DistinctSorted(os);
    TargetOrder();
    SortedScope(os, Sort(os, BY_TARGET), d.scope);
    SortedAgain(os, BY_TARGET);
    NormalsFixed(d.observations);
    ShapeOfNormal(NormalizedShape(d).value);
  }

  /** One source per observation, each of them a supplied proof. */
  lemma SourcesAreProofs(zs: seq<Observation>, ps: seq<Proof>)
    requires Sources(zs, ProofMap(ps)).Some? && Distinct(Identities(ps))
    requires forall i, k :: 0 <= i < k < |zs| ==> IdentityOf(zs[i]) != IdentityOf(zs[k])
    ensures var sources := Sources(zs, ProofMap(ps)).value;
            && |sources| == |zs| && (forall q :: q in sources ==> q in ps)
            && (forall i, k :: 0 <= i < k < |sources| ==> sources[i].identity != sources[k].identity)
  {
    var sources := Sources(zs, ProofMap(ps)).value;
    DistinctIdentities(ps);
    forall i | 0 <= i < |zs| ensures sources[i] in ps && sources[i].identity == IdentityOf(zs[i]) {
      ProofMapAt(ps, IdentityOf(zs[i]));
    }
  }

  /** The stored proofs are the supplied ones, rearranged. */
  lemma SourcesPermute(j: Joiner, cohort: Cohort, ps: seq<Proof>)
    requires Binding(j) && Join(j, cohort, ps).Some?
    ensures Join(j, cohort, ps).value.cohort == cohort
    ensures multiset(Join(j, cohort, ps).value.sourceMembers) == multiset(ps)
  {
    var os := Collect(ps, Observe(j, Expected(cohort.members))).value;
    var zs := Sort(os, BY_TARGET);
    CollectedIdentities(j, cohort, ps);
    DistinctIdentities(ps);
    SortPermutes(os, BY_TARGET);
    SameMembers(os, zs);
    SortedIdentities(os, zs);
    SourcesAreProofs(zs, ps);
    SameSize(ps, Sources(zs, ProofMap(ps)).value);
  }

  /** Sorting keeps identities distinct. */
  lemma SortedIdentities(os: seq<Observation>, zs: seq<Observation>)
    requires multiset(os) == multiset(zs)
    requires forall i, k :: 0 <= i < k < |os| ==> IdentityOf(os[i]) != IdentityOf(os[k])
    ensures forall i, k :: 0 <= i < k < |zs| ==> IdentityOf(zs[i]) != IdentityOf(zs[k])
  {
    SameMembers(os, zs);
    DistinctPairs(Keys(os));
    DistinctPairs(Keys(zs));
    KeySetIs(os);
    KeySetIs(zs);
    assert forall i :: 0 <= i < |os| ==> Keys(os)[i] == IdentityOf(os[i]);
    assert (set o | o in os :: IdentityOf(o)) == (set o | o in zs :: IdentityOf(o));
    assert forall i :: 0 <= i < |zs| ==> Keys(zs)[i] == IdentityOf(zs[i]);
  }

  /** As many distinct elements, all of them members: the same elements. */
  lemma SameSize(ps: seq<Proof>, qs: seq<Proof>)
    requires |ps| == |qs| && forall q :: q in qs ==> q in ps
    requires forall i, k :: 0 <= i < k < |qs| ==> qs[i].identity != qs[k].identity
    ensures multiset(ps) == multiset(qs)
  {
    assert multiset(qs) <= multiset(ps) by {
      forall q ensures multiset(qs)[q] <= multiset(ps)[q] {
        if q in qs {
          OnceOnly(qs, q);
          assert q in multiset(ps);
        }
      }
    }
    assert |multiset(ps) - multiset(qs)| == 0;
    assert multiset(ps) == multiset(qs) + (multiset(ps) - multiset(qs));
  }

  lemma {:induction false} OnceOnly(qs: seq<Proof>, q: Proof)
    requires q in qs && forall i, k :: 0 <= i < k < |qs| ==> qs[i].identity != qs[k].identity
    ensures multiset(qs)[q] == 1
  {
    InitLast(qs);
    SnocMultiset(Init(qs), Last(qs));
    if q in Init(qs) {
      OnceOnly(Init(qs), q);
      assert q != Last(qs);
    } else {
      assert multiset(Init(qs))[q] == 0;
    }
  }

  /** Re-deriving a joined dataset from its own stored proofs returns it unchanged. */
  lemma RejoinFixed(j: Joiner, cohort: Cohort, proofs: seq<Proof>)
    requires Binding(j) && Join(j, cohort, proofs).Some?
    ensures RequireDataset(j, Join(j, cohort, proofs).value) == Join(j, cohort, proofs)
  {
    var d := Join(j, cohort, proofs).value;
    SourcesPermute(j, cohort, proofs);
    JoinForgetsOrder(j, cohort, proofs, d.sourceMembers);
    JoinNormalized(j, cohort, proofs);
  }

  lemma JoinNormalized(j: Joiner, cohort: Cohort, proofs: seq<Proof>)
    requires Join(j, cohort, proofs).Some?
    ensures NormalizedShape(Join(j, cohort, proofs).value) == Join(j, cohort, proofs)
  {
    var os := Collect(proofs, Observe(j, Expected(cohort.members))).value;
    var ordered := Sort(os, BY_TARGET);
    ShapeFixed(EvidenceSet(cohort, DigestOf(cohort.cohortId, ordered), ordered[0].scope, ordered,
                           Sources(ordered, ProofMap(proofs)).value));
  }
}
