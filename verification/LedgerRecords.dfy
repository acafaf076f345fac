/** The records of the acquisition journal, the typed calls they carry and the campaign scope.

    A SHA-256 content address is modelled symbolically: the digest of a document is the
    document wrapped in a constructor, so equal digests mean equal documents, and every text
    that is not the digest of such a document is a `Foreign...` value. */
module LedgerRecords {
  import opened Common

  const MAX_AUTHORIZED_CALLS := 259
  const MAX_RECOVERY_CALLS := 5
  const ABSOLUTE_MAX_CAMPAIGN_CALLS := 264

  /** Session dates, ordered as calendar days. */
  type Date = int
  type AuthorizationId = string
  type PlanId = string

  datatype CallKind = SplitPage | DividendPage | OpenClose

  datatype Endpoint =
    | SplitsEndpoint
    | DividendsEndpoint
    | OpenCloseEndpoint(session: Date)
    | UnknownEndpoint(text: string)

  datatype CallId =
    | CallDigest(kind: CallKind, endpoint: Endpoint, start: Date, end: Date)
    | ForeignCallId(text: string)

  datatype Call = Call(callId: CallId, kind: CallKind, endpoint: Endpoint, start: Date, end: Date)

  datatype Allocation = Allocation(splitPages: nat, dividendPages: nat, openCloses: nat)

  datatype Scope = Scope(sessions: seq<Date>)

  datatype CampaignId = CampaignDigest(scope: Scope) | ForeignCampaign(text: string)

  datatype CallsDigest = CallsDigestOf(calls: seq<Call>) | ForeignCalls(text: string)

  datatype LedgerDigest = LedgerDigestOf(records: seq<Record>) | ForeignLedger(text: string)

  datatype Status =
    | Checkpointed
    | FailedBeforeAdmission
    | FailedAfterAdmission
    | UnknownStatus(text: string)

  datatype Record =
    | Authorization(
        authId: AuthorizationId, planId: PlanId, campaignId: CampaignId,
        scope: Scope, ledgerBefore: LedgerDigest,
        baseCalls: int, budgetDelta: int, authorizedCalls: int, reservedBefore: int,
        windowStart: Date, windowEnd: Date,
        callsDigest: CallsDigest, calls: seq<Call>, allocation: Allocation, maxCalls: int)
    | Attempt(
        authId: AuthorizationId, planId: PlanId, campaignId: CampaignId,
        attemptNumber: int, campaignAttemptNumber: int,
        callId: CallId, callKind: CallKind, endpoint: Endpoint, start: Date, end: Date)
    | Outcome(
        authId: AuthorizationId, planId: PlanId, campaignId: CampaignId,
        callId: CallId, callKind: CallKind,
        status: Status, evidence: Option<string>, failure: Option<string>)

  /** An authorization record: the header of everything reserved under it. */
  type Header = r: Record | r.Authorization?
    witness Authorization("", "", ForeignCampaign(""), Scope([]), ForeignLedger(""), 0, 0, 0, 0, 0, 0,
                          ForeignCalls(""), [], Allocation(0, 0, 0), 0)

  /** One reservation: the call a given authorization reserved. */
  datatype Key = Key(authId: AuthorizationId, callId: CallId)

  function HardMax(baseCalls: int): int {
    Min(baseCalls + MAX_RECOVERY_CALLS, ABSOLUTE_MAX_CAMPAIGN_CALLS)
  }

  function MakeCall(kind: CallKind, endpoint: Endpoint, start: Date, end: Date): Call {
    Call(CallDigest(kind, endpoint, start, end), kind, endpoint, start, end)
  }

  function PriceCall(session: Date): Call {
    MakeCall(OpenClose, OpenCloseEndpoint(session), session, session)
  }

  /** The checks of one typed call's constructor. */
  predicate ValidCall(c: Call) {
    && c.start <= c.end
    && c.callId == CallDigest(c.kind, c.endpoint, c.start, c.end)
    && (c.kind.SplitPage? ==> c.endpoint.SplitsEndpoint?)
    && (c.kind.DividendPage? ==> c.endpoint.DividendsEndpoint?)
    && (c.kind.OpenClose? ==> c.start == c.end && c.endpoint == OpenCloseEndpoint(c.start))
  }

  predicate IsAction(kind: CallKind) {
    !kind.OpenClose?
  }

  function Rank(kind: CallKind): nat {
    match kind
    case SplitPage => 0
    case DividendPage => 1
    case OpenClose => 2
  }

  /** Action pages first, at most one of each, then strictly increasing price sessions. */
  predicate CallsOrdered(calls: seq<Call>) {
    forall i, j :: 0 <= i < j < |calls| ==>
      && Rank(calls[i].kind) <= Rank(calls[j].kind)
      && (calls[i].kind == calls[j].kind ==>
            calls[i].kind.OpenClose? && calls[i].start < calls[j].start)
  }

  predicate StrictlyIncreasing(dates: seq<Date>) {
    forall i, j :: 0 <= i < j < |dates| ==> dates[i] < dates[j]
  }

  predicate ValidScope(scope: Scope) {
    scope.sessions != [] && StrictlyIncreasing(scope.sessions)
  }

  function WindowStart(scope: Scope): Date
    requires scope.sessions != []
  {
    scope.sessions[0]
  }

  function WindowEnd(scope: Scope): Date
    requires scope.sessions != []
  {
    scope.sessions[|scope.sessions| - 1]
  }

  function CountKind(calls: seq<Call>, kind: CallKind): nat {
    if calls == [] then 0
    else (if calls[0].kind == kind then 1 else 0) + CountKind(calls[1..], kind)
  }

  function AllocationOf(calls: seq<Call>): Allocation {
    Allocation(CountKind(calls, SplitPage), CountKind(calls, DividendPage), CountKind(calls, OpenClose))
  }

  /** Position of a call identity in a header's call list, or -1. */
  function IndexOf(calls: seq<Call>, id: CallId): (i: int)
    ensures -1 <= i < |calls|
    ensures 0 <= i ==> calls[i].callId == id
    ensures i == -1 ==> forall k :: 0 <= k < |calls| ==> calls[k].callId != id
  {
    if calls == [] then -1
    else if calls[0].callId == id then 0
    else var i := IndexOf(calls[1..], id);
         assert forall k :: 1 <= k < |calls| ==> calls[k] == calls[1..][k - 1];
         if i < 0 then -1 else i + 1
  }

  /** Ordered valid calls have distinct identities, so a call's position is unambiguous. */
  lemma IndexOfUnique(calls: seq<Call>, k: nat)
    requires k < |calls| && CallsOrdered(calls)
    requires forall i :: 0 <= i < |calls| ==> ValidCall(calls[i])
    ensures IndexOf(calls, calls[k].callId) == k
  {
    var i := IndexOf(calls, calls[k].callId);
    assert calls[i].callId == calls[k].callId;
  }

  /** Identities of the action pages before position `p`. */
  function EarlierActions(calls: seq<Call>, p: nat): set<CallId>
    requires p <= |calls|
  {
    set i | 0 <= i < p && IsAction(calls[i].kind) :: calls[i].callId
  }

  // ---- filters over a journal, by its last record ----

  function CampaignRecords(rs: seq<Record>, c: CampaignId): seq<Record> {
    if rs == [] then []
    else CampaignRecords(Init(rs), c) + (if Last(rs).campaignId == c then [Last(rs)] else [])
  }

  function Headers(rs: seq<Record>, c: CampaignId): seq<Header> {
    if rs == [] then []
    else Headers(Init(rs), c) +
         (if Last(rs).Authorization? && Last(rs).campaignId == c then [Last(rs)] else [])
  }

  function CampaignAttempts(rs: seq<Record>, c: CampaignId): seq<Record> {
    if rs == [] then []
    else CampaignAttempts(Init(rs), c) +
         (if Last(rs).Attempt? && Last(rs).campaignId == c then [Last(rs)] else [])
  }

  function AdmittedFailures(rs: seq<Record>, c: CampaignId): seq<CallId> {
    if rs == [] then []
    else AdmittedFailures(Init(rs), c) +
         (if Last(rs).Outcome? && Last(rs).campaignId == c && Last(rs).status.FailedAfterAdmission?
          then [Last(rs).callId] else [])
  }

  /** The headers one authorization and plan identity select. */
  function PlanHeaders(rs: seq<Record>, a: AuthorizationId, p: PlanId): seq<Header> {
    if rs == [] then []
    else PlanHeaders(Init(rs), a, p) +
         (if Last(rs).Authorization? && Last(rs).authId == a && Last(rs).planId == p then [Last(rs)] else [])
  }

  /** The attempts recorded under one authorization and plan identity. */
  function PlanAttempts(rs: seq<Record>, a: AuthorizationId, p: PlanId): (xs: seq<Record>)
    ensures forall i :: 0 <= i < |xs| ==> xs[i].Attempt? && xs[i].authId == a && xs[i].planId == p
  {
    if rs == [] then []
    else PlanAttempts(Init(rs), a, p) +
         (if Last(rs).Attempt? && Last(rs).authId == a && Last(rs).planId == p then [Last(rs)] else [])
  }

  function AttemptKeys(rs: seq<Record>): set<Key> {
    set i | 0 <= i < |rs| && rs[i].Attempt? :: Key(rs[i].authId, rs[i].callId)
  }

  function OutcomeKeys(rs: seq<Record>): set<Key> {
    set i | 0 <= i < |rs| && rs[i].Outcome? :: Key(rs[i].authId, rs[i].callId)
  }

  lemma KeysSnoc(rs: seq<Record>, r: Record)
    ensures AttemptKeys(rs + [r]) ==
            AttemptKeys(rs) + (if r.Attempt? then {Key(r.authId, r.callId)} else {})
    ensures OutcomeKeys(rs + [r]) ==
            OutcomeKeys(rs) + (if r.Outcome? then {Key(r.authId, r.callId)} else {})
  {
    var s := rs + [r];
    assert forall i :: 0 <= i < |rs| ==> s[i] == rs[i];
    forall k | k in AttemptKeys(rs) ensures k in AttemptKeys(s) {
      var i :| 0 <= i < |rs| && rs[i].Attempt? && k == Key(rs[i].authId, rs[i].callId);
      assert s[i] == rs[i];
    }
    forall k | k in OutcomeKeys(rs) ensures k in OutcomeKeys(s) {
      var i :| 0 <= i < |rs| && rs[i].Outcome? && k == Key(rs[i].authId, rs[i].callId);
      assert s[i] == rs[i];
    }
    assert s[|rs|] == r;
  }
}
