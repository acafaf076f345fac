/** The three journal writers, the campaign state they recompute from the records, and the theorem
    that they and the validator describe the same journals.

    The writers never look at the validator's dictionaries: each one filters the records. */
module LedgerWriters {
  import opened Common
  import opened LedgerRecords
  import opened LedgerValidator

  // ---- campaign state ----

  datatype CampaignState = CampaignState(
    scope: Scope,
    ledgerDigest: LedgerDigest, recordCount: nat,
    globalDigest: LedgerDigest, globalCount: nat,
    baseCalls: Option<int>, authorizedCalls: int, reservedCalls: int,
    failedAfterAdmission: seq<CallId>)
  {
    function CampaignId(): CampaignId {
      CampaignDigest(scope)
    }

    function Hard(): int {
      match baseCalls
      case None => ABSOLUTE_MAX_CAMPAIGN_CALLS
      case Some(b) => HardMax(b)
    }

    function RequiredDelta(required: nat): int {
      Max(0, reservedCalls + required - authorizedCalls)
    }

    predicate BudgetBlocked(required: nat) {
      match baseCalls
      case None => MAX_AUTHORIZED_CALLS < required
      case Some(b) =>
        || MAX_RECOVERY_CALLS - (authorizedCalls - b) < RequiredDelta(required)
        || Hard() < authorizedCalls + RequiredDelta(required)
    }

    /** The constructor's own check; a state that fails it is refused. */
    predicate WithinBudget() {
      && recordCount <= globalCount
      && match baseCalls
         case None => recordCount == 0 && authorizedCalls == 0 && reservedCalls == 0
         case Some(b) =>
           && 1 <= b <= MAX_AUTHORIZED_CALLS
           && 1 <= recordCount
           && b <= authorizedCalls <= Hard()
           && 0 <= reservedCalls <= authorizedCalls
    }
  }

  function CampaignStateOf(rs: seq<Record>, scope: Scope): Option<CampaignState> {
    var c := CampaignDigest(scope);
    var headers := Headers(rs, c);
    if headers == [] then
      Some(CampaignState(scope, LedgerDigestOf([]), 0, LedgerDigestOf(rs), |rs|, None, 0, 0, []))
    else if exists i :: 0 <= i < |headers| && headers[i].scope != scope then
      None
    else
      var s := CampaignState(scope, LedgerDigestOf(CampaignRecords(rs, c)), |CampaignRecords(rs, c)|,
                             LedgerDigestOf(rs), |rs|,
                             Some(headers[0].baseCalls), Last(headers).authorizedCalls,
                             |CampaignAttempts(rs, c)|, AdmittedFailures(rs, c));
      if s.WithinBudget() then Some(s) else None
  }

  // ---- plans ----

  datatype Plan = Plan(planId: PlanId, scope: Scope, calls: seq<Call>, campaign: CampaignState)

  /** The sessions of the window the database does not cover, in window order. */
  function MissingDates(sessions: seq<Date>, covered: set<Date>): seq<Date> {
    if sessions == [] then []
    else (if sessions[0] in covered then [] else [sessions[0]]) + MissingDates(sessions[1..], covered)
  }

  function PriceCalls(dates: seq<Date>): seq<Call> {
    seq(|dates|, i requires 0 <= i < |dates| => PriceCall(dates[i]))
  }

  function ActionPages(scope: Scope, needSplit: bool, needDividend: bool): seq<Call>
    requires ValidScope(scope)
  {
    (if needSplit then [MakeCall(SplitPage, SplitsEndpoint, WindowStart(scope), WindowEnd(scope))] else []) +
    (if needDividend then [MakeCall(DividendPage, DividendsEndpoint, WindowStart(scope), WindowEnd(scope))] else [])
  }

  function PlannedCalls(scope: Scope, covered: set<Date>, needSplit: bool, needDividend: bool): seq<Call>
    requires ValidScope(scope)
  {
    ActionPages(scope, needSplit, needDividend) + PriceCalls(MissingDates(scope.sessions, covered))
  }

  function BuildPlan(planId: PlanId, scope: Scope, covered: set<Date>, needSplit: bool, needDividend: bool,
                     campaign: CampaignState): Option<Plan> {
    if !ValidScope(scope) || campaign.CampaignId() != CampaignDigest(scope) then None
    else Some(Plan(planId, scope, PlannedCalls(scope, covered, needSplit, needDividend), campaign))
  }

  // ---- writers: the record appended, or a refusal ----

  function BeginAuthorization(rs: seq<Record>, a: AuthorizationId, plan: Plan, maxCalls: int, delta: int)
    : Option<Record>
  {
    if maxCalls != |plan.calls| || !(1 <= maxCalls <= MAX_AUTHORIZED_CALLS) || !ValidScope(plan.scope) then None
    else if !Accepts(rs) || exists i :: 0 <= i < |rs| && rs[i].authId == a then None
    else match CampaignStateOf(rs, plan.scope)
      case None => None
      case Some(current) =>
        if current != plan.campaign || delta != current.RequiredDelta(maxCalls) || current.BudgetBlocked(maxCalls)
        then None
        else
          var base := match current.baseCalls case None => maxCalls case Some(b) => b;
          var authorized := current.authorizedCalls + delta;
          if authorized < current.reservedCalls + maxCalls || HardMax(base) < authorized then None
          else Some(Authorization(a, plan.planId, current.CampaignId(), plan.scope, current.ledgerDigest,
                                  base, delta, authorized, current.reservedCalls,
                                  WindowStart(plan.scope), WindowEnd(plan.scope),
                                  CallsDigestOf(plan.calls), plan.calls, AllocationOf(plan.calls), maxCalls))
  }

  function ReserveCall(rs: seq<Record>, a: AuthorizationId, p: PlanId, call: Call): Option<Record> {
    var headers := PlanHeaders(rs, a, p);
    if !Accepts(rs) || |headers| != 1 then None
    else
      var header := headers[0];
      var position := IndexOf(header.calls, call.callId);
      var attempts := PlanAttempts(rs, a, p);
      if position < 0 || header.calls[position] != call then None
      else if exists i :: 0 <= i < |attempts| && attempts[i].callId == call.callId then None
      else if !(EarlierActions(header.calls, position) <= set i | 0 <= i < |attempts| :: attempts[i].callId) then None
      else if exists i :: 0 <= i < |attempts| && position <= IndexOf(header.calls, attempts[i].callId) then None
      else if header.maxCalls <= |attempts| then None
      else match CampaignStateOf(rs, header.scope)
        case None => None
        case Some(campaign) =>
          if campaign.authorizedCalls <= campaign.reservedCalls then None
          else Some(Attempt(a, p, header.campaignId, |attempts| + 1, campaign.reservedCalls + 1,
                            call.callId, call.kind, call.endpoint, call.start, call.end))
  }

  function MatchingAttempts(rs: seq<Record>, a: AuthorizationId, p: PlanId, id: CallId): seq<Record> {
    if rs == [] then []
    else MatchingAttempts(Init(rs), a, p, id) +
         (if Last(rs).Attempt? && Last(rs).authId == a && Last(rs).planId == p && Last(rs).callId == id
          then [Last(rs)] else [])
  }

  function MatchingOutcomes(rs: seq<Record>, a: AuthorizationId, p: PlanId, id: CallId): seq<Record> {
    if rs == [] then []
    else MatchingOutcomes(Init(rs), a, p, id) +
         (if Last(rs).Outcome? && Last(rs).authId == a && Last(rs).planId == p && Last(rs).callId == id
          then [Last(rs)] else [])
  }

  function FinishCall(rs: seq<Record>, a: AuthorizationId, p: PlanId, call: Call,
                      status: Status, evidence: Option<string>, failure: Option<string>): Option<Record> {
    var headers := PlanHeaders(rs, a, p);
    if !OutcomeDetailOk(status, evidence, failure) || !Accepts(rs) || |headers| != 1 then None
    else if |MatchingAttempts(rs, a, p, call.callId)| != 1 || MatchingOutcomes(rs, a, p, call.callId) != [] then None
    else Some(Outcome(a, p, headers[0].campaignId, call.callId, call.kind, status, evidence, failure))
  }

  // ---- the recomputed campaign state and the validator's counters ----

  /** On every accepted journal the recomputation succeeds, agrees with the validator's running
      counters, and lies inside the cumulative budget. */
  lemma CampaignStateAgrees(rs: seq<Record>, scope: Scope)
    requires Accepts(rs)
    ensures CampaignStateOf(rs, scope).Some?
    ensures var s := CampaignStateOf(rs, scope).value; var v := Run(rs).value; var c := CampaignDigest(scope);
            && s.WithinBudget()
            && s.scope == scope
            && s.ledgerDigest == LedgerDigestOf(Get(v.campaignRecords, c, []))
            && s.globalDigest == LedgerDigestOf(rs) && s.globalCount == |rs|
            && s.baseCalls == (if c in v.baseCalls then Some(v.baseCalls[c]) else None)
            && s.authorizedCalls == Get(v.authorizedCalls, c, 0)
            && s.reservedCalls == Get(v.reservedCalls, c, 0)
  {
    var c := CampaignDigest(scope);
    CampaignTracked(rs, c);
    if Headers(rs, c) != [] {
      CampaignBudget(rs, c);
      CampaignCounts(rs, c);
      RecomputedState(rs, scope);
    }
  }

  lemma RecomputedState(rs: seq<Record>, scope: Scope)
    requires var hs := Headers(rs, CampaignDigest(scope)); var n := |CampaignAttempts(rs, CampaignDigest(scope))|;
             && hs != [] && 1 <= |CampaignRecords(rs, CampaignDigest(scope))| <= |rs|
             && 1 <= hs[0].baseCalls <= MAX_AUTHORIZED_CALLS
             && hs[0].baseCalls <= Last(hs).authorizedCalls <= HardMax(hs[0].baseCalls) && n <= Last(hs).authorizedCalls
             && forall i :: 0 <= i < |hs| ==> hs[i].scope == scope
    ensures var c := CampaignDigest(scope);
            CampaignStateOf(rs, scope)
            == Some(CampaignState(scope, LedgerDigestOf(CampaignRecords(rs, c)), |CampaignRecords(rs, c)|,
                                  LedgerDigestOf(rs), |rs|, Some(Headers(rs, c)[0].baseCalls),
                                  Last(Headers(rs, c)).authorizedCalls, |CampaignAttempts(rs, c)|,
                                  AdmittedFailures(rs, c)))
  {
  }

  lemma {:induction false} CampaignCounts(rs: seq<Record>, c: CampaignId)
    ensures |Headers(rs, c)| <= |CampaignRecords(rs, c)| <= |rs|
  {
    if rs != [] {
      CampaignCounts(Init(rs), c);
    }
  }

  /** A record of one campaign changes nothing in any other campaign's state but the global position. */
  lemma OtherCampaignsUntouched(rs: seq<Record>, r: Record, scope: Scope)
    requires Accepts(rs) && Accepts(rs + [r]) && r.campaignId != CampaignDigest(scope)
    ensures CampaignStateOf(rs, scope).Some?
    ensures CampaignStateOf(rs + [r], scope) ==
            Some(CampaignStateOf(rs, scope).value.(globalDigest := LedgerDigestOf(rs + [r]), globalCount := |rs| + 1))
  {
    CampaignStateAgrees(rs, scope);
    CampaignStateAgrees(rs + [r], scope);
    FiltersSnoc(rs, r, CampaignDigest(scope));
    SnocParts(rs, r);
    CampaignTracked(rs, CampaignDigest(scope));
    assert AdmittedFailures(rs + [r], CampaignDigest(scope)) == AdmittedFailures(rs, CampaignDigest(scope));
  }

  // ---- plans build valid, ordered, in-window calls ----

  lemma {:induction false} MissingDatesOrdered(sessions: seq<Date>, covered: set<Date>)
    requires StrictlyIncreasing(sessions)
    ensures StrictlyIncreasing(MissingDates(sessions, covered))
    ensures forall d :: d in MissingDates(sessions, covered) <==> d in sessions && d !in covered
  {
    if sessions != [] {
      var rest := sessions[1..];
      assert sessions == [sessions[0]] + rest;
      MissingDatesOrdered(rest, covered);
      forall d ensures d in sessions <==> d == sessions[0] || d in rest {
      }
      assert forall d :: d in rest ==> sessions[0] < d;
      var tail := MissingDates(rest, covered);
      assert forall i :: 0 <= i < |tail| ==> tail[i] in tail;
    }
  }

  /** What the validator asks of a header's calls, plus the exact window the plans give action pages. */
  predicate CallsOk(calls: seq<Call>, scope: Scope)
    requires scope.sessions != []
  {
    && (forall i :: 0 <= i < |calls| ==> ValidCall(calls[i]))
    && CallsOrdered(calls)
    && CallsInsideWindow(calls, scope)
    && ActionPagesSpanWindow(calls, scope)
  }

  lemma PlannedCallsOk(scope: Scope, covered: set<Date>, needSplit: bool, needDividend: bool)
    requires ValidScope(scope)
    ensures CallsOk(PlannedCalls(scope, covered, needSplit, needDividend), scope)
  {
    var dates := MissingDates(scope.sessions, covered);
    MissingDatesOrdered(scope.sessions, covered);
    forall i | 0 <= i < |dates| ensures dates[i] in scope.sessions {
      assert dates[i] in dates;
    }
    PriceCallsOk(dates, scope);
    ActionPagesOk(scope, needSplit, needDividend);
    JoinedCallsOk(ActionPages(scope, needSplit, needDividend), PriceCalls(dates), scope);
  }

  lemma ActionPagesOk(scope: Scope, needSplit: bool, needDividend: bool)
    requires ValidScope(scope)
    ensures CallsOk(ActionPages(scope, needSplit, needDividend), scope)
    ensures forall c :: c in ActionPages(scope, needSplit, needDividend) ==> IsAction(c.kind)
  {
    assert WindowStart(scope) <= WindowEnd(scope);
  }

  lemma PriceCallsOk(dates: seq<Date>, scope: Scope)
    requires ValidScope(scope) && StrictlyIncreasing(dates)
    requires forall i :: 0 <= i < |dates| ==> dates[i] in scope.sessions
    ensures CallsOk(PriceCalls(dates), scope)
  {
    forall i | 0 <= i < |dates| ensures WindowStart(scope) <= dates[i] <= WindowEnd(scope) {
      var k :| 0 <= k < |scope.sessions| && scope.sessions[k] == dates[i];
    }
  }

  lemma JoinedCallsOk(actions: seq<Call>, prices: seq<Call>, scope: Scope)
    requires scope.sessions != [] && CallsOk(actions, scope) && CallsOk(prices, scope)
    requires forall i :: 0 <= i < |actions| ==> IsAction(actions[i].kind)
    requires forall i :: 0 <= i < |prices| ==> prices[i].kind.OpenClose?
    ensures CallsOk(actions + prices, scope)
  {
    var calls := actions + prices;
    assert forall i :: 0 <= i < |calls| ==> calls[i] == if i < |actions| then actions[i] else prices[i - |actions|];
    forall i, j | 0 <= i < j < |calls|
      ensures Rank(calls[i].kind) <= Rank(calls[j].kind)
      ensures calls[i].kind == calls[j].kind ==> calls[i].kind.OpenClose? && calls[i].start < calls[j].start
    {
      if j < |actions| {
        assert Rank(actions[i].kind) <= Rank(actions[j].kind);
      } else if |actions| <= i {
        assert prices[i - |actions|].start < prices[j - |actions|].start;
      }
    }
  }

  // ---- what the writers can produce ----

  /** A header's split and dividend pages cover the campaign window exactly. */
  predicate ActionPagesSpanWindow(calls: seq<Call>, scope: Scope)
    requires scope.sessions != []
  {
    forall i :: 0 <= i < |calls| && IsAction(calls[i].kind) ==>
      calls[i].start == WindowStart(scope) && calls[i].end == WindowEnd(scope)
  }

  predicate SpansWindow(r: Record) {
    r.Authorization? ==> r.scope.sessions != [] && ActionPagesSpanWindow(r.calls, r.scope)
  }

  datatype WriterOp =
    | Begin(a: AuthorizationId, planId: PlanId, scope: Scope, covered: set<Date>, needSplit: bool, needDividend: bool,
            campaign: CampaignState, maxCalls: int, delta: int)
    | Reserve(a: AuthorizationId, planId: PlanId, call: Call)
    | Finish(a: AuthorizationId, planId: PlanId, call: Call, status: Status,
             evidence: Option<string>, failure: Option<string>)

  function Apply(rs: seq<Record>, op: WriterOp): Option<Record> {
    match op
    case Begin(a, planId, scope, covered, needSplit, needDividend, campaign, maxCalls, delta) =>
      (match BuildPlan(planId, scope, covered, needSplit, needDividend, campaign)
       case None => None
       case Some(plan) => BeginAuthorization(rs, a, plan, maxCalls, delta))
    case Reserve(a, planId, call) =>
      if ValidCall(call) then ReserveCall(rs, a, planId, call) else None
    case Finish(a, planId, call, status, evidence, failure) =>
      if ValidCall(call) then FinishCall(rs, a, planId, call, status, evidence, failure) else None
  }

  /** The header fields that depend on nothing but its scope and calls. */
  predicate HeaderFields(r: Header) {
    && ValidScope(r.scope)
    && r.campaignId == CampaignDigest(r.scope)
    && r.windowStart == WindowStart(r.scope) && r.windowEnd == WindowEnd(r.scope)
    && r.callsDigest == CallsDigestOf(r.calls)
    && r.allocation == AllocationOf(r.calls)
    && r.maxCalls == |r.calls| && 1 <= r.maxCalls <= MAX_AUTHORIZED_CALLS
  }

  /** The header fields that continue the campaign's budget. */
  predicate AuthorizationBudget(v: Counters, r: Header) {
    var c := r.campaignId;
    && r.baseCalls == Get(v.baseCalls, c, r.maxCalls)
    && r.budgetDelta == Max(0, Get(v.reservedCalls, c, 0) + r.maxCalls - Get(v.authorizedCalls, c, 0))
    && r.authorizedCalls == Get(v.authorizedCalls, c, 0) + r.budgetDelta <= HardMax(r.baseCalls)
    && r.reservedBefore == Get(v.reservedCalls, c, 0)
    && r.ledgerBefore == LedgerDigestOf(Get(v.campaignRecords, c, []))
  }

  // ---- every append is accepted ----

  lemma BeginSound(rs: seq<Record>, op: WriterOp)
    requires op.Begin? && Apply(rs, op).Some?
    ensures Accepts(rs + [Apply(rs, op).value]) && SpansWindow(Apply(rs, op).value)
  {
    PlannedCallsOk(op.scope, op.covered, op.needSplit, op.needDividend);
    var plan := BuildPlan(op.planId, op.scope, op.covered, op.needSplit, op.needDividend, op.campaign).value;
    BeginAccepted(rs, op.a, plan, op.maxCalls, op.delta);
  }

  lemma BeginAccepted(rs: seq<Record>, a: AuthorizationId, plan: Plan, maxCalls: int, delta: int)
    requires BeginAuthorization(rs, a, plan, maxCalls, delta).Some?
    requires plan.scope.sessions != [] && CallsOk(plan.calls, plan.scope)
    ensures var r := BeginAuthorization(rs, a, plan, maxCalls, delta).value;
            Accepts(rs + [r]) && SpansWindow(r)
  {
    var r := BeginAuthorization(rs, a, plan, maxCalls, delta).value;
    BeginGives(rs, a, plan, maxCalls, delta);
    CampaignStateAgrees(rs, plan.scope);
    AuthorizationUsed(rs, a);
    AuthorizationAccepted(Run(rs).value, r);
    AcceptsSnoc(rs, r);
  }

  lemma BeginGives(rs: seq<Record>, a: AuthorizationId, plan: Plan, maxCalls: int, delta: int)
    requires BeginAuthorization(rs, a, plan, maxCalls, delta).Some?
    ensures Accepts(rs) && CampaignStateOf(rs, plan.scope).Some?
    ensures forall i :: 0 <= i < |rs| ==> rs[i].authId != a
    ensures var r := BeginAuthorization(rs, a, plan, maxCalls, delta).value;
            var current := CampaignStateOf(rs, plan.scope).value;
            && r.Authorization? && r.authId == a && r.calls == plan.calls && r.scope == plan.scope
            && HeaderFields(r)
            && r.ledgerBefore == current.ledgerDigest
            && r.baseCalls == (match current.baseCalls case None => maxCalls case Some(b) => b)
            && r.budgetDelta == current.RequiredDelta(maxCalls)
            && r.authorizedCalls == current.authorizedCalls + r.budgetDelta <= HardMax(r.baseCalls)
            && r.reservedBefore == current.reservedCalls
  {
  }

  lemma AuthorizationAccepted(v: Counters, r: Header)
    requires r.authId !in v.headers
    requires HeaderFields(r) && CallsOk(r.calls, r.scope)
    requires AuthorizationBudget(v, r) && 1 <= r.baseCalls <= MAX_AUTHORIZED_CALLS
    ensures AuthorizationOk(v, r)
  {
  }

  lemma ReserveSound(rs: seq<Record>, a: AuthorizationId, p: PlanId, call: Call)
    requires ReserveCall(rs, a, p, call).Some?
    ensures Accepts(rs + [ReserveCall(rs, a, p, call).value])
  {
    var r := ReserveCall(rs, a, p, call).value;
    HeadersTracked(rs, a, p);
    var h := PlanHeaders(rs, a, p)[0];
    AttemptsTracked(rs, a);
    CampaignStateAgrees(rs, h.scope);
    var xs := PlanAttempts(rs, a, p);
    KeyAttempted(Run(rs).value.attempts, a, call.callId);
    AcceptsSnoc(rs, r);
  }

  lemma KeyAttempted(attempts: set<Key>, a: AuthorizationId, id: CallId)
    ensures Key(a, id) in attempts <==> id in AttemptedIds(attempts, a)
  {
  }

  lemma FinishSound(rs: seq<Record>, op: WriterOp)
    requires op.Finish? && Apply(rs, op).Some?
    ensures Accepts(rs + [Apply(rs, op).value])
  {
    var r := Apply(rs, op).value;
    HeadersTracked(rs, op.a, op.planId);
    var h := PlanHeaders(rs, op.a, op.planId)[0];
    MatchingCounts(rs, op.a, op.call.callId);
    AttemptedCallKind(rs, Key(op.a, op.call.callId));
    AcceptsSnoc(rs, r);
  }

  /** In an accepted journal a reservation is recorded at most once, and so is its outcome. */
  lemma {:induction false} MatchingCounts(rs: seq<Record>, a: AuthorizationId, id: CallId)
    requires Accepts(rs) && a in Run(rs).value.headers
    ensures var v := Run(rs).value; var p := v.headers[a].planId;
            && |MatchingAttempts(rs, a, p, id)| == (if Key(a, id) in v.attempts then 1 else 0)
            && |MatchingOutcomes(rs, a, p, id)| == (if Key(a, id) in v.outcomes then 1 else 0)
  {
    var v0 := Run(Init(rs)).value;
    if a in v0.headers {
      MatchingCounts(Init(rs), a, id);
    } else {
      NoMatches(Init(rs), a, Last(rs).planId, id);
    }
  }

  lemma {:induction false} NoMatches(rs: seq<Record>, a: AuthorizationId, p: PlanId, id: CallId)
    requires Accepts(rs) && a !in Run(rs).value.headers
    ensures MatchingAttempts(rs, a, p, id) == [] && MatchingOutcomes(rs, a, p, id) == []
    ensures Key(a, id) !in Run(rs).value.attempts && Key(a, id) !in Run(rs).value.outcomes
  {
    if rs != [] {
      NoMatches(Init(rs), a, p, id);
    }
  }

  /** A reserved call is one of its header's calls. */
  lemma {:induction false} AttemptedCallKind(rs: seq<Record>, k: Key)
    requires Accepts(rs) && k in Run(rs).value.attempts
    ensures k.authId in Run(rs).value.headers
    ensures var h := Run(rs).value.headers[k.authId]; var i := IndexOf(h.calls, k.callId);
            0 <= i && ValidCall(h.calls[i])
  {
    var v0 := Run(Init(rs)).value;
    if k in v0.attempts {
      AttemptedCallKind(Init(rs), k);
    }
    HeadersTracked(rs, k.authId, Run(rs).value.headers[k.authId].planId);
  }

  // ---- every accepted record is some writer's ----

  /** The database coverage that makes a plan miss exactly the given sessions. */
  function CoverageFor(calls: seq<Call>, scope: Scope): set<Date> {
    (set d | d in scope.sessions) - (set i | 0 <= i < |calls| && calls[i].kind.OpenClose? :: calls[i].start)
  }

  lemma {:induction false} EqualIncreasing(xs: seq<Date>, ys: seq<Date>)
    requires StrictlyIncreasing(xs) && StrictlyIncreasing(ys)
    requires forall d :: d in xs <==> d in ys
    ensures xs == ys
  {
    assert |xs| > 0 ==> xs[0] in xs;
    assert |ys| > 0 ==> ys[0] in ys;
    if xs != [] {
      var k :| 0 <= k < |ys| && ys[k] == xs[0];
      var j :| 0 <= j < |xs| && xs[j] == ys[0];
      assert xs == [xs[0]] + xs[1..] && ys == [ys[0]] + ys[1..];
      TailLarger(xs);
      TailLarger(ys);
      forall d ensures d in xs[1..] <==> d in ys[1..] {
        assert d in xs[1..] <==> d in xs && d != xs[0];
        assert d in ys[1..] <==> d in ys && d != ys[0];
      }
      EqualIncreasing(xs[1..], ys[1..]);
    }
  }

  lemma TailLarger(xs: seq<Date>)
    requires StrictlyIncreasing(xs) && xs != []
    ensures xs[0] !in xs[1..]
  {
  }

  /** Number of action pages at the head of an ordered call list. */
  function ActionCount(calls: seq<Call>): (n: nat)
    ensures n <= |calls|
    ensures forall i :: 0 <= i < n ==> IsAction(calls[i].kind)
    ensures n < |calls| ==> !IsAction(calls[n].kind)
  {
    if calls == [] || !IsAction(calls[0].kind) then 0
    else var m := ActionCount(calls[1..]);
         assert forall i :: 1 <= i <= m ==> calls[i] == calls[1..][i - 1];
         m + 1
  }

  /** Every ordered, valid, in-window call list whose action pages span the window is a plan's. */
  lemma CallsArePlanned(calls: seq<Call>, scope: Scope)
    requires ValidScope(scope) && CallsOk(calls, scope)
    ensures exists s, d :: PlannedCalls(scope, CoverageFor(calls, scope), s, d) == calls
  {
    var n := ActionCount(calls);
    PricesArePlanned(calls, scope, n);
    var s, d := ActionsArePlanned(calls, scope, n);
    JoinedPlan(calls, scope, CoverageFor(calls, scope), n, s, d);
  }

  lemma JoinedPlan(calls: seq<Call>, scope: Scope, covered: set<Date>, n: nat, s: bool, d: bool)
    requires ValidScope(scope) && n <= |calls|
    requires ActionPages(scope, s, d) == calls[..n] && PriceCalls(MissingDates(scope.sessions, covered)) == calls[n..]
    ensures PlannedCalls(scope, covered, s, d) == calls
  {
    assert calls[..n] + calls[n..] == calls;
  }

  lemma ActionsArePlanned(calls: seq<Call>, scope: Scope, n: nat) returns (s: bool, d: bool)
    requires ValidScope(scope) && CallsOk(calls, scope) && n == ActionCount(calls)
    ensures ActionPages(scope, s, d) == calls[..n]
  {
    ActionHead(calls, n);
    if n == 0 {
      s, d := false, false;
    } else if n == 2 {
      s, d := true, true;
    } else {
      s := calls[0].kind.SplitPage?;
      d := !s;
    }
  }

  lemma PricesArePlanned(calls: seq<Call>, scope: Scope, n: nat)
    requires ValidScope(scope) && CallsOk(calls, scope) && n == ActionCount(calls)
    ensures calls[n..] == PriceCalls(MissingDates(scope.sessions, CoverageFor(calls, scope)))
  {
    PriceTail(calls, scope, n);
    TailCovers(calls, scope, n);
    var dates := CallDates(calls[n..]);
    MissingDatesOrdered(scope.sessions, CoverageFor(calls, scope));
    EqualIncreasing(dates, MissingDates(scope.sessions, CoverageFor(calls, scope)));
  }

  function CallDates(calls: seq<Call>): seq<Date> {
    seq(|calls|, i requires 0 <= i < |calls| => calls[i].start)
  }

  lemma PriceTail(calls: seq<Call>, scope: Scope, n: nat)
    requires ValidScope(scope) && CallsOk(calls, scope) && n == ActionCount(calls)
    ensures forall i :: n <= i < |calls| ==> calls[i] == PriceCall(calls[i].start) && calls[i].start in scope.sessions
    ensures StrictlyIncreasing(CallDates(calls[n..]))
  {
    forall i | n <= i < |calls|
      ensures calls[i] == PriceCall(calls[i].start) && calls[i].start in scope.sessions
    {
      LaterCallIsPrice(calls, n, i);
    }
    IncreasingTail(calls, n);
  }

  lemma LaterCallIsPrice(calls: seq<Call>, n: nat, i: nat)
    requires n <= i < |calls| && CallsOrdered(calls) && calls[n].kind.OpenClose?
    ensures calls[i].kind.OpenClose?
  {
    if n < i {
      assert Rank(calls[n].kind) <= Rank(calls[i].kind);
    }
  }

  lemma IncreasingTail(calls: seq<Call>, n: nat)
    requires n <= |calls| && CallsOrdered(calls)
    requires forall i :: n <= i < |calls| ==> calls[i].kind.OpenClose?
    ensures StrictlyIncreasing(CallDates(calls[n..]))
  {
    var dates := CallDates(calls[n..]);
    forall i, j | 0 <= i < j < |dates| ensures dates[i] < dates[j] {
      assert calls[n + i].kind == calls[n + j].kind;
    }
  }

  lemma TailCovers(calls: seq<Call>, scope: Scope, n: nat)
    requires n <= |calls|
    requires forall i :: 0 <= i < n ==> IsAction(calls[i].kind)
    requires forall i :: n <= i < |calls| ==> calls[i] == PriceCall(calls[i].start) && calls[i].start in scope.sessions
    ensures forall d :: d in CallDates(calls[n..]) <==> d in scope.sessions && d !in CoverageFor(calls, scope)
  {
    var dates := CallDates(calls[n..]);
    var priced := set i | 0 <= i < |calls| && calls[i].kind.OpenClose? :: calls[i].start;
    forall d ensures d in dates <==> d in priced {
      if d in dates {
        var i :| 0 <= i < |dates| && dates[i] == d;
        assert calls[n + i].kind.OpenClose?;
      }
      if d in priced {
        var i :| 0 <= i < |calls| && calls[i].kind.OpenClose? && calls[i].start == d;
        assert dates[i - n] == d;
      }
    }
    assert CoverageFor(calls, scope) == (set d | d in scope.sessions) - priced;
    assert forall d :: d in priced ==> d in scope.sessions;
  }

  lemma ActionHead(calls: seq<Call>, n: nat)
    requires n <= |calls| && CallsOrdered(calls)
    requires forall i :: 0 <= i < n ==> IsAction(calls[i].kind)
    ensures n <= 2
    ensures n == 2 ==> calls[0].kind.SplitPage? && calls[1].kind.DividendPage?
  {
    if n > 0 {
      ActionRank(calls, n, n - 1);
    }
  }

  lemma {:induction false} ActionRank(calls: seq<Call>, n: nat, i: nat)
    requires i < n <= |calls| && CallsOrdered(calls)
    requires forall i :: 0 <= i < n ==> IsAction(calls[i].kind)
    ensures i <= Rank(calls[i].kind) <= 1
    ensures i == 1 ==> calls[0].kind.SplitPage?
  {
    if i > 0 {
      ActionRank(calls, n, i - 1);
      assert calls[i - 1].kind != calls[i].kind;
    }
  }

  lemma BeginComplete(rs: seq<Record>, r: Header)
    requires Accepts(rs) && Accepts(rs + [r]) && SpansWindow(r)
    ensures exists op :: Apply(rs, op) == Some(r)
  {
    AcceptsSnoc(rs, r);
    AuthorizationFields(Run(rs).value, r);
    CampaignStateAgrees(rs, r.scope);
    AuthorizationUsed(rs, r.authId);
    CallsArePlanned(r.calls, r.scope);
    var covered := CoverageFor(r.calls, r.scope);
    var s, d :| PlannedCalls(r.scope, covered, s, d) == r.calls;
    var current := CampaignStateOf(rs, r.scope).value;
    BeginAppends(rs, r, current);
    var op := Begin(r.authId, r.planId, r.scope, covered, s, d, current, r.maxCalls, r.budgetDelta);
    assert Apply(rs, op) == Some(r);
  }

  lemma AuthorizationFields(v: Counters, r: Header)
    requires AuthorizationOk(v, r)
    ensures HeaderFields(r) && AuthorizationBudget(v, r)
  {
  }

  lemma BeginAppends(rs: seq<Record>, r: Header, current: CampaignState)
    requires Accepts(rs) && forall i :: 0 <= i < |rs| ==> rs[i].authId != r.authId
    requires CampaignStateOf(rs, r.scope) == Some(current) && current.WithinBudget()
    requires HeaderFields(r)
    requires current.scope == r.scope && current.ledgerDigest == r.ledgerBefore
    requires r.baseCalls == (match current.baseCalls case None => r.maxCalls case Some(b) => b)
    requires r.budgetDelta == current.RequiredDelta(r.maxCalls)
    requires r.authorizedCalls == current.authorizedCalls + r.budgetDelta <= HardMax(r.baseCalls)
    requires r.reservedBefore == current.reservedCalls
    ensures var plan := Plan(r.planId, r.scope, r.calls, current);
            BeginAuthorization(rs, r.authId, plan, r.maxCalls, r.budgetDelta) == Some(r)
  {
  }

  lemma ReserveComplete(rs: seq<Record>, r: Record)
    requires r.Attempt? && Accepts(rs) && Accepts(rs + [r])
    ensures exists op :: Apply(rs, op) == Some(r)
  {
    AcceptsSnoc(rs, r);
    var h := Run(rs).value.headers[r.authId];
    HeadersTracked(rs, r.authId, r.planId);
    AttemptsTracked(rs, r.authId);
    var p := IndexOf(h.calls, r.callId);
    EarlierPositions(PlanAttempts(rs, r.authId, r.planId), h, p);
    CampaignStateAgrees(rs, h.scope);
    ReserveAppends(rs, r, h, p);
    var op := Reserve(r.authId, r.planId, h.calls[p]);
    assert Apply(rs, op) == Some(r);
  }

  lemma EarlierPositions(xs: seq<Record>, h: Header, p: nat)
    requires AttemptsFollowHeader(xs, h) && LastPosition(xs, h) < p < |h.calls| && HeaderWellFormed(h)
    ensures |xs| < |h.calls|
    ensures forall i :: 0 <= i < |xs| ==> IndexOf(h.calls, xs[i].callId) < p && xs[i].callId != h.calls[p].callId
  {
    FewAttempts(xs, h);
    forall i | 0 <= i < |xs| ensures IndexOf(h.calls, xs[i].callId) < p && xs[i].callId != h.calls[p].callId {
      LastIsLargest(xs, h, i);
      IndexOfUnique(h.calls, p);
    }
  }

  lemma ReserveAppends(rs: seq<Record>, r: Record, h: Header, p: nat)
    requires r.Attempt? && Accepts(rs) && AttemptOk(Run(rs).value, r)
    requires h == Run(rs).value.headers[r.authId] && p == IndexOf(h.calls, r.callId)
    requires PlanHeaders(rs, r.authId, r.planId) == [h] && HeaderWellFormed(h)
    requires var xs := PlanAttempts(rs, r.authId, r.planId);
             && r.attemptNumber == |xs| + 1
             && EarlierActions(h.calls, p) <= (set i | 0 <= i < |xs| :: xs[i].callId)
             && |xs| < |h.calls|
             && forall i :: 0 <= i < |xs| ==> IndexOf(h.calls, xs[i].callId) < p && xs[i].callId != r.callId
    requires CampaignStateOf(rs, h.scope).Some?
    requires r.campaignAttemptNumber == CampaignStateOf(rs, h.scope).value.reservedCalls + 1
    requires r.campaignAttemptNumber <= CampaignStateOf(rs, h.scope).value.authorizedCalls
    ensures ReserveCall(rs, r.authId, r.planId, h.calls[p]) == Some(r)
  {
  }

  lemma LastIsLargest(xs: seq<Record>, h: Header, i: nat)
    requires AttemptsFollowHeader(xs, h) && i < |xs|
    ensures IndexOf(h.calls, xs[i].callId) <= LastPosition(xs, h)
  {
  }

  /** Strictly increasing positions never exhaust the list: the per-authorization budget is implied. */
  lemma {:induction false} FewAttempts(xs: seq<Record>, h: Header)
    requires AttemptsFollowHeader(xs, h)
    ensures |xs| <= LastPosition(xs, h) + 1
  {
    if |xs| > 1 {
      assert IndexOf(h.calls, Last(Init(xs)).callId) < IndexOf(h.calls, Last(xs).callId);
      FewAttempts(Init(xs), h);
    }
  }

  lemma FinishComplete(rs: seq<Record>, r: Record)
    requires r.Outcome? && Accepts(rs) && Accepts(rs + [r])
    ensures exists op :: Apply(rs, op) == Some(r)
  {
    AcceptsSnoc(rs, r);
    var h := Run(rs).value.headers[r.authId];
    HeadersTracked(rs, r.authId, r.planId);
    MatchingCounts(rs, r.authId, r.callId);
    var call := h.calls[IndexOf(h.calls, r.callId)];
    var op := Finish(r.authId, r.planId, call, r.status, r.evidence, r.failure);
    assert Apply(rs, op) == Some(r);
  }

  /** A journal some sequence of writer calls produces, starting from the empty file. */
  ghost predicate Produced(rs: seq<Record>) {
    rs == [] || (Produced(Init(rs)) && exists op :: Apply(Init(rs), op) == Some(Last(rs)))
  }

  /** Writers and validator agree: the journals the writers can produce are exactly the accepted ones
      whose headers' action pages span their campaign window. */
  lemma {:induction false} ProducedIffAccepted(rs: seq<Record>)
    ensures Produced(rs) <==> Accepts(rs) && forall i :: 0 <= i < |rs| ==> SpansWindow(rs[i])
  {
    if rs != [] {
      var xs, r := Init(rs), Last(rs);
      InitLast(rs);
      ProducedIffAccepted(xs);
      assert forall i :: 0 <= i < |xs| ==> xs[i] == rs[i];
      assert rs[|rs| - 1] == r;
      if Produced(rs) {
        var op :| Apply(xs, op) == Some(r);
        WriterSound(xs, op);
      }
      if Accepts(rs) && SpansWindow(r) {
        AcceptedPrefix(rs, |xs|);
        WriterComplete(xs, r);
      }
    }
  }

  /** Whatever a writer appends, the validator accepts. */
  lemma WriterSound(rs: seq<Record>, op: WriterOp)
    requires Apply(rs, op).Some?
    ensures Accepts(rs) && Accepts(rs + [Apply(rs, op).value]) && SpansWindow(Apply(rs, op).value)
  {
    match op {
      case Begin(_, _, _, _, _, _, _, _, _) => BeginSound(rs, op);
      case Reserve(a, p, call) => ReserveSound(rs, a, p, call);
      case Finish(_, _, _, _, _, _) => FinishSound(rs, op);
    }
  }

  /** Whatever the validator accepts next, some writer call appends. */
  lemma WriterComplete(rs: seq<Record>, r: Record)
    requires Accepts(rs) && Accepts(rs + [r]) && SpansWindow(r)
    ensures exists op :: Apply(rs, op) == Some(r)
  {
    match r {
      case Authorization(_, _, _, _, _, _, _, _, _, _, _, _, _, _, _) => BeginComplete(rs, r);
      case Attempt(_, _, _, _, _, _, _, _, _, _) => ReserveComplete(rs, r);
      case Outcome(_, _, _, _, _, _, _, _) => FinishComplete(rs, r);
    }
  }

  /** The side condition is needed: under any identities the validator accepts a header whose split page
      covers one day of a two-day window, and no writer produces it. */
  lemma NarrowActionPageAccepted(a: AuthorizationId, p: PlanId)
    ensures exists r: Record :: r.authId == a && r.planId == p && Accepts([r]) && !Produced([r])
  {
    var scope := Scope([1, 2]);
    var call := MakeCall(SplitPage, SplitsEndpoint, 1, 1);
    var r := Authorization(a, p, CampaignDigest(scope), scope, LedgerDigestOf([]), 1, 1, 1, 0, 1, 2,
                           CallsDigestOf([call]), [call], Allocation(1, 0, 0), 1);
    CountOne(call, SplitPage);
    CountOne(call, DividendPage);
    CountOne(call, OpenClose);
    assert AuthorizationOk(EMPTY, r);
    AcceptsSnoc([], r);
    assert [] + [r] == [r];
    assert !SpansWindow(r) by {
      assert IsAction(r.calls[0].kind);
    }
    assert !SpansWindow([r][0]);
    ProducedIffAccepted([r]);
  }

  lemma CountOne(call: Call, kind: CallKind)
    ensures CountKind([call], kind) == if call.kind == kind then 1 else 0
  {
    assert [call][1..] == [];
  }

  /** The append-only journal file. A refusal leaves it untouched; an append keeps it acceptable. */
  class AcquisitionLedger {
    var journal: seq<Record>

    constructor ()
      ensures journal == []
    {
      journal := [];
    }

    method Begin(a: AuthorizationId, plan: Plan, maxCalls: int, delta: int) returns (ok: bool)
      requires plan.scope.sessions != [] && CallsOk(plan.calls, plan.scope)
      modifies this
      ensures ok == BeginAuthorization(old(journal), a, plan, maxCalls, delta).Some?
      ensures ok ==> journal == old(journal) + [BeginAuthorization(old(journal), a, plan, maxCalls, delta).value]
      ensures ok ==> Accepts(journal)
      ensures !ok ==> journal == old(journal)
    {
      var record := BeginAuthorization(journal, a, plan, maxCalls, delta);
      ok := record.Some?;
      if ok {
        BeginAccepted(journal, a, plan, maxCalls, delta);
        journal := journal + [record.value];
      }
    }

    method Reserve(a: AuthorizationId, p: PlanId, call: Call) returns (number: Option<int>)
      modifies this
      ensures number.Some? <==> ReserveCall(old(journal), a, p, call).Some?
      ensures number.Some? ==>
                && journal == old(journal) + [ReserveCall(old(journal), a, p, call).value]
                && number.value == Last(journal).attemptNumber
                && Accepts(journal)
      ensures number.None? ==> journal == old(journal)
    {
      var record := ReserveCall(journal, a, p, call);
      if record.None? {
        return None;
      }
      ReserveSound(journal, a, p, call);
      journal := journal + [record.value];
      number := Some(record.value.attemptNumber);
    }

    method Finish(a: AuthorizationId, p: PlanId, call: Call, status: Status,
                  evidence: Option<string>, failure: Option<string>) returns (ok: bool)
      requires ValidCall(call)
      modifies this
      ensures ok == FinishCall(old(journal), a, p, call, status, evidence, failure).Some?
      ensures ok ==> journal == old(journal) + [FinishCall(old(journal), a, p, call, status, evidence, failure).value]
      ensures ok ==> Accepts(journal)
      ensures !ok ==> journal == old(journal)
    {
      var record := FinishCall(journal, a, p, call, status, evidence, failure);
      ok := record.Some?;
      if ok {
        FinishSound(journal, WriterOp.Finish(a, p, call, status, evidence, failure));
        journal := journal + [record.value];
      }
    }
  }
}
