/** The journal's left-to-right validator: one pass over the records, nine running dictionaries.

    `ValidateRecords` is the loop. `Run` is its specification, and the lemmas tie every
    dictionary to an independent reading of the whole record sequence by filtering it. */
module LedgerValidator {
  import opened Common
  import opened LedgerRecords

  datatype Counters = Counters(
    headers: map<AuthorizationId, Header>,
    attempts: set<Key>,
    outcomes: set<Key>,
    attemptCounts: map<AuthorizationId, int>,
    lastPositions: map<AuthorizationId, int>,
    campaignRecords: map<CampaignId, seq<Record>>,
    baseCalls: map<CampaignId, int>,
    authorizedCalls: map<CampaignId, int>,
    reservedCalls: map<CampaignId, int>)

  const EMPTY := Counters(map[], {}, {}, map[], map[], map[], map[], map[], map[])

  function Get<K, V>(m: map<K, V>, k: K, default: V): V {
    if k in m then m[k] else default
  }

  function AttemptedIds(attempts: set<Key>, a: AuthorizationId): set<CallId> {
    set k | k in attempts && k.authId == a :: k.callId
  }

  predicate CallsInsideWindow(calls: seq<Call>, scope: Scope)
    requires scope.sessions != []
  {
    forall i :: 0 <= i < |calls| ==>
      && WindowStart(scope) <= calls[i].start
      && calls[i].end <= WindowEnd(scope)
      && (calls[i].kind.OpenClose? ==> calls[i].start in scope.sessions)
  }

  predicate AuthorizationOk(v: Counters, r: Header) {
    var priorAuthorized := Get(v.authorizedCalls, r.campaignId, 0);
    var priorReserved := Get(v.reservedCalls, r.campaignId, 0);
    var expectedBase := Get(v.baseCalls, r.campaignId, r.maxCalls);
    && r.authId !in v.headers
    && (forall i :: 0 <= i < |r.calls| ==> ValidCall(r.calls[i]))
    && CallsOrdered(r.calls)
    && ValidScope(r.scope)
    && r.campaignId == CampaignDigest(r.scope)
    && r.allocation == AllocationOf(r.calls)
    && r.maxCalls == |r.calls|
    && 1 <= r.maxCalls <= MAX_AUTHORIZED_CALLS
    && r.baseCalls == expectedBase
    && 1 <= r.baseCalls <= MAX_AUTHORIZED_CALLS
    && r.budgetDelta == Max(0, priorReserved + |r.calls| - priorAuthorized)
    && r.authorizedCalls == priorAuthorized + r.budgetDelta
    && r.authorizedCalls <= HardMax(expectedBase)
    && priorReserved + |r.calls| <= r.authorizedCalls
    && r.reservedBefore == priorReserved
    && r.ledgerBefore == LedgerDigestOf(Get(v.campaignRecords, r.campaignId, []))
    && r.callsDigest == CallsDigestOf(r.calls)
    && r.windowStart == WindowStart(r.scope)
    && r.windowEnd == WindowEnd(r.scope)
    && CallsInsideWindow(r.calls, r.scope)
  }

  predicate ChildOk(v: Counters, r: Record)
    requires !r.Authorization?
  {
    && r.authId in v.headers
    && v.headers[r.authId].planId == r.planId
    && v.headers[r.authId].campaignId == r.campaignId
    && var i := IndexOf(v.headers[r.authId].calls, r.callId);
       0 <= i && v.headers[r.authId].calls[i].kind == r.callKind
  }

  predicate AttemptOk(v: Counters, r: Record)
    requires r.Attempt?
  {
    && ChildOk(v, r)
    && var calls := v.headers[r.authId].calls;
       var p := IndexOf(calls, r.callId);
       && Key(r.authId, r.callId) !in v.attempts
       && r.attemptNumber == Get(v.attemptCounts, r.authId, 0) + 1
       && r.campaignAttemptNumber == Get(v.reservedCalls, r.campaignId, 0) + 1
       && r.campaignAttemptNumber <= Get(v.authorizedCalls, r.campaignId, 0)
       && r.endpoint == calls[p].endpoint
       && r.start == calls[p].start
       && r.end == calls[p].end
       && Get(v.lastPositions, r.authId, -1) < p
       && EarlierActions(calls, p) <= AttemptedIds(v.attempts, r.authId)
  }

  /** A checkpoint carries evidence and no failure; a failure carries its type and no evidence. */
  predicate OutcomeDetailOk(status: Status, evidence: Option<string>, failure: Option<string>) {
    match status
    case Checkpointed => evidence.Some? && failure.None?
    case FailedBeforeAdmission => evidence.None? && failure.Some?
    case FailedAfterAdmission => evidence.None? && failure.Some?
    case UnknownStatus(_) => false
  }

  predicate OutcomeOk(v: Counters, r: Record)
    requires r.Outcome?
  {
    && ChildOk(v, r)
    && Key(r.authId, r.callId) in v.attempts
    && Key(r.authId, r.callId) !in v.outcomes
    && OutcomeDetailOk(r.status, r.evidence, r.failure)
  }

  predicate RecordOk(v: Counters, r: Record) {
    match r
    case Authorization(_, _, _, _, _, _, _, _, _, _, _, _, _, _, _) => AuthorizationOk(v, r)
    case Attempt(_, _, _, _, _, _, _, _, _, _) => AttemptOk(v, r)
    case Outcome(_, _, _, _, _, _, _, _) => OutcomeOk(v, r)
  }

  function Advance(v: Counters, r: Record): Counters
    requires RecordOk(v, r)
  {
    var grown := v.campaignRecords[r.campaignId := Get(v.campaignRecords, r.campaignId, []) + [r]];
    if r.Authorization? then
      v.(headers := v.headers[r.authId := r],
         attemptCounts := v.attemptCounts[r.authId := 0],
         lastPositions := v.lastPositions[r.authId := -1],
         baseCalls := v.baseCalls[r.campaignId := r.baseCalls],
         authorizedCalls := v.authorizedCalls[r.campaignId := r.authorizedCalls],
         reservedCalls := v.reservedCalls[r.campaignId := Get(v.reservedCalls, r.campaignId, 0)],
         campaignRecords := grown)
    else if r.Attempt? then
      v.(attempts := v.attempts + {Key(r.authId, r.callId)},
         attemptCounts := v.attemptCounts[r.authId := r.attemptNumber],
         lastPositions := v.lastPositions[r.authId := IndexOf(v.headers[r.authId].calls, r.callId)],
         reservedCalls := v.reservedCalls[r.campaignId := r.campaignAttemptNumber],
         campaignRecords := grown)
    else
      v.(outcomes := v.outcomes + {Key(r.authId, r.callId)}, campaignRecords := grown)
  }

  function Run(rs: seq<Record>): Option<Counters> {
    if rs == [] then Some(EMPTY)
    else match Run(Init(rs))
      case None => None
      case Some(v) => if RecordOk(v, Last(rs)) then Some(Advance(v, Last(rs))) else None
  }

  predicate Accepts(rs: seq<Record>) {
    Run(rs).Some?
  }

  /** The validator as the source runs it: one loop, dictionaries updated in place. */
  method ValidateRecords(records: seq<Record>) returns (accepted: bool)
    ensures accepted <==> Accepts(records)
  {
    var headers: map<AuthorizationId, Header> := map[];
    var attempts: set<Key>, outcomes: set<Key> := {}, {};
    var attemptCounts: map<AuthorizationId, int>, lastPositions: map<AuthorizationId, int> := map[], map[];
    var campaignRecords: map<CampaignId, seq<Record>> := map[];
    var baseCalls: map<CampaignId, int> := map[];
    var authorizedCalls: map<CampaignId, int>, reservedCalls: map<CampaignId, int> := map[], map[];
    for i := 0 to |records|
      invariant Run(records[..i]) ==
                Some(Counters(headers, attempts, outcomes, attemptCounts, lastPositions,
                              campaignRecords, baseCalls, authorizedCalls, reservedCalls))
    {
      var r := records[i];
      var v := Counters(headers, attempts, outcomes, attemptCounts, lastPositions,
                        campaignRecords, baseCalls, authorizedCalls, reservedCalls);
      assert records[..i + 1] == records[..i] + [r];
      AcceptsSnoc(records[..i], r);
      if !RecordOk(v, r) {
        RejectedForever(records, i + 1);
        return false;
      }
      campaignRecords := campaignRecords[r.campaignId := Get(campaignRecords, r.campaignId, []) + [r]];
      match r {
        case Authorization(_, _, _, _, _, _, _, _, _, _, _, _, _, _, _) =>
          headers := headers[r.authId := r];
          attemptCounts := attemptCounts[r.authId := 0];
          lastPositions := lastPositions[r.authId := -1];
          baseCalls := baseCalls[r.campaignId := r.baseCalls];
          authorizedCalls := authorizedCalls[r.campaignId := r.authorizedCalls];
          reservedCalls := reservedCalls[r.campaignId := Get(reservedCalls, r.campaignId, 0)];
        case Attempt(_, _, _, _, _, _, _, _, _, _) =>
          attempts := attempts + {Key(r.authId, r.callId)};
          attemptCounts := attemptCounts[r.authId := Get(attemptCounts, r.authId, 0) + 1];
          lastPositions := lastPositions[r.authId := IndexOf(headers[r.authId].calls, r.callId)];
          reservedCalls := reservedCalls[r.campaignId := Get(reservedCalls, r.campaignId, 0) + 1];
        case Outcome(_, _, _, _, _, _, _, _) =>
          outcomes := outcomes + {Key(r.authId, r.callId)};
      }
      assert Advance(v, r) == Counters(headers, attempts, outcomes, attemptCounts, lastPositions,
                                       campaignRecords, baseCalls, authorizedCalls, reservedCalls);
    }
    assert records[..|records|] == records;
    return true;
  }

  /** Acceptance is closed under prefixes, so one bad record condemns every longer journal. */
  lemma {:induction false} AcceptedPrefix(rs: seq<Record>, n: nat)
    requires Accepts(rs) && n <= |rs|
    ensures Accepts(rs[..n])
    decreases |rs|
  {
    if n == |rs| {
      assert rs[..n] == rs;
    } else {
      AcceptedPrefix(Init(rs), n);
      assert Init(rs)[..n] == rs[..n];
    }
  }

  lemma RejectedForever(rs: seq<Record>, n: nat)
    requires n <= |rs| && !Accepts(rs[..n])
    ensures !Accepts(rs)
  {
    if Accepts(rs) {
      AcceptedPrefix(rs, n);
    }
  }

  lemma AcceptsSnoc(rs: seq<Record>, r: Record)
    requires Accepts(rs)
    ensures Accepts(rs + [r]) <==> RecordOk(Run(rs).value, r)
    ensures Accepts(rs + [r]) ==> Run(rs + [r]).value == Advance(Run(rs).value, r)
  {
    SnocParts(rs, r);
  }

  // ---- every dictionary equals a filter over the records ----

  predicate HeaderWellFormed(h: Header) {
    && (forall i :: 0 <= i < |h.calls| ==> ValidCall(h.calls[i]))
    && CallsOrdered(h.calls)
    && ValidScope(h.scope)
    && h.campaignId == CampaignDigest(h.scope)
    && h.maxCalls == |h.calls|
  }

  lemma {:induction false} HeadersTracked(rs: seq<Record>, a: AuthorizationId, p: PlanId)
    requires Accepts(rs)
    ensures var v := Run(rs).value;
            && PlanHeaders(rs, a, p) ==
                 (if a in v.headers && v.headers[a].planId == p then [v.headers[a]] else [])
            && (a in v.headers ==> v.headers[a].authId == a && HeaderWellFormed(v.headers[a]))
  {
    if rs != [] {
      HeadersTracked(Init(rs), a, p);
    }
  }

  /** Any record of an authorization, not only its header, uses the authorization's identity up. */
  lemma {:induction false} AuthorizationUsed(rs: seq<Record>, a: AuthorizationId)
    requires Accepts(rs)
    ensures a in Run(rs).value.headers <==> exists i :: 0 <= i < |rs| && rs[i].authId == a
  {
    if rs != [] {
      AuthorizationUsed(Init(rs), a);
      assert forall i :: 0 <= i < |rs| - 1 ==> rs[i] == Init(rs)[i];
      assert Last(rs) == rs[|rs| - 1];
      if a in Run(Init(rs)).value.headers {
        var i :| 0 <= i < |Init(rs)| && Init(rs)[i].authId == a;
        assert rs[i].authId == a;
      }
    }
  }

  lemma {:induction false} KeysTracked(rs: seq<Record>)
    requires Accepts(rs)
    ensures Run(rs).value.attempts == AttemptKeys(rs)
    ensures Run(rs).value.outcomes == OutcomeKeys(rs)
    ensures OutcomeKeys(rs) <= AttemptKeys(rs)
  {
    if rs != [] {
      KeysTracked(Init(rs));
      InitLast(rs);
      KeysSnoc(Init(rs), Last(rs));
    }
  }

  /** What an authorization's attempts look like: the header's calls, at strictly increasing positions. */
  ghost predicate AttemptsFollowHeader(xs: seq<Record>, h: Header) {
    && (forall i :: 0 <= i < |xs| ==>
          && xs[i].Attempt? && xs[i].campaignId == h.campaignId
          && 0 <= IndexOf(h.calls, xs[i].callId))
    && (forall i, j :: 0 <= i < j < |xs| ==> IndexOf(h.calls, xs[i].callId) < IndexOf(h.calls, xs[j].callId))
  }

  function LastPosition(xs: seq<Record>, h: Header): int
    requires forall i :: 0 <= i < |xs| ==> xs[i].Attempt?
  {
    if xs == [] then -1 else IndexOf(h.calls, Last(xs).callId)
  }

  ghost predicate AttemptsTrackedBy(v: Counters, rs: seq<Record>, a: AuthorizationId)
    requires a in v.headers
  {
    var h := v.headers[a];
    var xs := PlanAttempts(rs, a, h.planId);
    && a in v.attemptCounts && v.attemptCounts[a] == |xs|
    && a in v.lastPositions && v.lastPositions[a] == LastPosition(xs, h)
    && AttemptsFollowHeader(xs, h)
    && AttemptedIds(v.attempts, a) == (set i | 0 <= i < |xs| :: xs[i].callId)
  }

  lemma {:induction false} AttemptsTracked(rs: seq<Record>, a: AuthorizationId)
    requires Accepts(rs) && a in Run(rs).value.headers
    ensures AttemptsTrackedBy(Run(rs).value, rs, a)
  {
    var v0 := Run(Init(rs)).value;
    var r := Last(rs);
    if a !in v0.headers {
      NoAttempts(Init(rs), a, r.planId);
      assert AttemptedIds(Run(rs).value.attempts, a) == {};
    } else {
      AttemptsTracked(Init(rs), a);
      InitLast(rs);
      if r.Attempt? && r.authId == a {
        NextAttemptTracked(v0, Init(rs), r);
      } else {
        OtherRecordTracked(v0, Init(rs), r, a);
      }
    }
  }

  lemma OtherRecordTracked(v: Counters, rs: seq<Record>, r: Record, a: AuthorizationId)
    requires a in v.headers && RecordOk(v, r) && !(r.Attempt? && r.authId == a)
    requires AttemptsTrackedBy(v, rs, a)
    ensures a in Advance(v, r).headers && AttemptsTrackedBy(Advance(v, r), rs + [r], a)
  {
    var w := Advance(v, r);
    SnocParts(rs, r);
    assert w.headers[a] == v.headers[a];
    assert PlanAttempts(rs + [r], a, v.headers[a].planId) == PlanAttempts(rs, a, v.headers[a].planId);
    assert AttemptedIds(w.attempts, a) == AttemptedIds(v.attempts, a);
  }

  lemma NextAttemptTracked(v: Counters, rs: seq<Record>, r: Record)
    requires r.Attempt? && AttemptOk(v, r) && AttemptsTrackedBy(v, rs, r.authId)
    ensures AttemptsTrackedBy(Advance(v, r), rs + [r], r.authId)
  {
    var h := v.headers[r.authId];
    var xs := PlanAttempts(rs, r.authId, h.planId);
    SnocParts(rs, r);
    AttemptedSnoc(v.attempts, r.authId, xs, r);
    FollowsSnoc(xs, h, r);
    assert PlanAttempts(rs + [r], r.authId, h.planId) == xs + [r];
  }

  lemma FollowsSnoc(xs: seq<Record>, h: Header, r: Record)
    requires AttemptsFollowHeader(xs, h)
    requires r.Attempt? && r.campaignId == h.campaignId
    requires 0 <= IndexOf(h.calls, r.callId) && LastPosition(xs, h) < IndexOf(h.calls, r.callId)
    ensures AttemptsFollowHeader(xs + [r], h)
  {
    var ys := xs + [r];
    forall i, j | 0 <= i < j < |ys|
      ensures IndexOf(h.calls, ys[i].callId) < IndexOf(h.calls, ys[j].callId)
    {
      if j == |xs| && i < |xs| - 1 {
        assert IndexOf(h.calls, xs[i].callId) < IndexOf(h.calls, xs[|xs| - 1].callId);
      }
    }
  }

  lemma AttemptedSnoc(attempts: set<Key>, a: AuthorizationId, xs: seq<Record>, r: Record)
    requires r.Attempt? && forall i :: 0 <= i < |xs| ==> xs[i].Attempt?
    requires AttemptedIds(attempts, a) == (set i | 0 <= i < |xs| :: xs[i].callId)
    ensures AttemptedIds(attempts + {Key(a, r.callId)}, a) ==
            (set i | 0 <= i < |xs + [r]| :: (xs + [r])[i].callId)
  {
    var ys := xs + [r];
    var right := set i | 0 <= i < |ys| :: ys[i].callId;
    forall id | id in AttemptedIds(attempts + {Key(a, r.callId)}, a) ensures id in right {
      if id == r.callId {
        assert ys[|xs|].callId == id;
      } else {
        assert id in AttemptedIds(attempts, a);
        var i :| 0 <= i < |xs| && xs[i].callId == id;
        assert ys[i].callId == id;
      }
    }
    forall id | id in right ensures id in AttemptedIds(attempts + {Key(a, r.callId)}, a) {
      var i :| 0 <= i < |ys| && ys[i].callId == id;
      if i == |xs| {
        assert Key(a, id) in attempts + {Key(a, r.callId)};
      } else {
        assert xs[i].callId == id;
        assert id in AttemptedIds(attempts, a);
      }
    }
  }

  lemma {:induction false} NoAttempts(rs: seq<Record>, a: AuthorizationId, p: PlanId)
    requires Accepts(rs) && a !in Run(rs).value.headers
    ensures PlanAttempts(rs, a, p) == []
    ensures AttemptedIds(Run(rs).value.attempts, a) == {}
  {
    if rs != [] {
      NoAttempts(Init(rs), a, p);
      var v := Run(rs).value;
      var v0 := Run(Init(rs)).value;
      assert Last(rs).authId != a;
      assert AttemptedIds(v.attempts, a) == AttemptedIds(v0.attempts, a);
    }
  }

  ghost predicate CampaignTrackedBy(v: Counters, rs: seq<Record>, c: CampaignId) {
    var hs := Headers(rs, c);
    && Get(v.campaignRecords, c, []) == CampaignRecords(rs, c)
    && Get(v.reservedCalls, c, 0) == |CampaignAttempts(rs, c)|
    && (c in v.baseCalls <==> hs != [])
    && (c in v.authorizedCalls <==> hs != [])
    && (hs == [] ==> CampaignRecords(rs, c) == [] && CampaignAttempts(rs, c) == [])
    && (hs != [] ==> v.baseCalls[c] == hs[0].baseCalls && v.authorizedCalls[c] == Last(hs).authorizedCalls)
    && (forall i :: 0 <= i < |hs| ==> hs[i].campaignId == c && c == CampaignDigest(hs[i].scope))
  }

  lemma {:induction false} CampaignTracked(rs: seq<Record>, c: CampaignId)
    requires Accepts(rs)
    ensures CampaignTrackedBy(Run(rs).value, rs, c)
  {
    if rs != [] {
      CampaignTracked(Init(rs), c);
      var r := Last(rs);
      if !r.Authorization? {
        HeaderCampaign(Init(rs), r.authId);
      }
      NextRecordTracked(Run(Init(rs)).value, Init(rs), r, c);
      InitLast(rs);
    }
  }

  lemma NextRecordTracked(v: Counters, rs: seq<Record>, r: Record, c: CampaignId)
    requires CampaignTrackedBy(v, rs, c) && RecordOk(v, r)
    requires !r.Authorization? ==> r.campaignId in v.baseCalls
    ensures CampaignTrackedBy(Advance(v, r), rs + [r], c)
  {
    if r.Authorization? && r.campaignId == c {
      AuthorizationBasics(v, r);
      NextHeaderTracked(v, Advance(v, r), rs, r);
    } else {
      NextChildTracked(v, Advance(v, r), rs, r, c);
    }
  }

  lemma AuthorizationBasics(v: Counters, r: Header)
    requires AuthorizationOk(v, r)
    ensures r.campaignId == CampaignDigest(r.scope)
    ensures r.baseCalls == Get(v.baseCalls, r.campaignId, r.maxCalls)
  {
  }

  lemma NextChildTracked(v: Counters, w: Counters, rs: seq<Record>, r: Record, c: CampaignId)
    requires CampaignTrackedBy(v, rs, c)
    requires !(r.Authorization? && r.campaignId == c)
    requires c in v.baseCalls || r.campaignId != c
    requires c in w.baseCalls <==> c in v.baseCalls
    requires c in w.authorizedCalls <==> c in v.authorizedCalls
    requires c in v.baseCalls ==> w.baseCalls[c] == v.baseCalls[c]
    requires c in v.authorizedCalls ==> w.authorizedCalls[c] == v.authorizedCalls[c]
    requires Get(w.campaignRecords, c, []) ==
             Get(v.campaignRecords, c, []) + (if r.campaignId == c then [r] else [])
    requires Get(w.reservedCalls, c, 0) ==
             Get(v.reservedCalls, c, 0) + (if r.Attempt? && r.campaignId == c then 1 else 0)
    ensures CampaignTrackedBy(w, rs + [r], c)
  {
    FiltersSnoc(rs, r, c);
  }

  lemma FiltersSnoc(rs: seq<Record>, r: Record, c: CampaignId)
    ensures CampaignRecords(rs + [r], c) ==
            if r.campaignId == c then CampaignRecords(rs, c) + [r] else CampaignRecords(rs, c)
    ensures Headers(rs + [r], c) ==
            if r.Authorization? && r.campaignId == c then Headers(rs, c) + [r] else Headers(rs, c)
    ensures CampaignAttempts(rs + [r], c) ==
            if r.Attempt? && r.campaignId == c then CampaignAttempts(rs, c) + [r] else CampaignAttempts(rs, c)
  {
    SnocParts(rs, r);
  }

  lemma NextHeaderTracked(v: Counters, w: Counters, rs: seq<Record>, r: Header)
    requires CampaignTrackedBy(v, rs, r.campaignId)
    requires r.campaignId == CampaignDigest(r.scope)
    requires r.campaignId in v.baseCalls ==> r.baseCalls == v.baseCalls[r.campaignId]
    requires w.baseCalls == v.baseCalls[r.campaignId := r.baseCalls]
    requires w.authorizedCalls == v.authorizedCalls[r.campaignId := r.authorizedCalls]
    requires Get(w.reservedCalls, r.campaignId, 0) == Get(v.reservedCalls, r.campaignId, 0)
    requires Get(w.campaignRecords, r.campaignId, []) == Get(v.campaignRecords, r.campaignId, []) + [r]
    ensures CampaignTrackedBy(w, rs + [r], r.campaignId)
  {
    var c := r.campaignId;
    var hs := Headers(rs, c);
    FiltersSnoc(rs, r, c);
    assert Headers(rs + [r], c) == hs + [r];
    assert forall i :: 0 <= i < |hs| ==> (hs + [r])[i] == hs[i];
  }

  lemma {:induction false} HeaderCampaign(rs: seq<Record>, a: AuthorizationId)
    requires Accepts(rs) && a in Run(rs).value.headers
    ensures Run(rs).value.headers[a].campaignId in Run(rs).value.baseCalls
  {
    if Last(rs).authId != a || !Last(rs).Authorization? {
      HeaderCampaign(Init(rs), a);
    }
  }

  /** The cumulative budget of every campaign, in every accepted journal. */
  lemma {:induction false} CampaignBudget(rs: seq<Record>, c: CampaignId)
    requires Accepts(rs) && Headers(rs, c) != []
    ensures var b := Headers(rs, c)[0].baseCalls; var n := Last(Headers(rs, c)).authorizedCalls;
            && 1 <= b <= MAX_AUTHORIZED_CALLS
            && b <= n <= HardMax(b)
            && |CampaignAttempts(rs, c)| <= n
  {
    CampaignTracked(rs, c);
    CampaignTracked(Init(rs), c);
    if Headers(Init(rs), c) != [] {
      CampaignBudget(Init(rs), c);
    }
  }
}
