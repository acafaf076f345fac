/** The execution protocol as a step system: journal file, anchor table, one execution at a time, and
    the HTTP traffic it causes.

    A crash may end an execution at any step. Between executions the file may be replaced by
    anything at all: truncated, rolled back, edited. Every run is a sequence of events. */
module AcquisitionProtocol {
  import opened Common
  import opened LedgerRecords
  import opened LedgerValidator
  import opened LedgerWriters
  import opened CampaignAnchors

  datatype Stage =
    | Planned
    | HeaderWritten
    | Between(next: nat)
    | Written(next: nat)
    | Armed(next: nat, acquired: bool, permits: nat)
    | Closing(next: nat, failed: bool)

  datatype Execution = Execution(a: AuthorizationId, plan: Plan, maxCalls: int, delta: int, stage: Stage)

  /** `admitted` lists the reservations the guard admitted, `sent` the HTTP requests that left. */
  datatype System = System(
    file: seq<Record>, anchors: seq<Anchor>, run: Option<Execution>, admitted: seq<Key>, sent: seq<Key>)

  datatype Event =
    | Replace(file: seq<Record>)
    | Start(a: AuthorizationId, planId: PlanId, scope: Scope, covered: set<Date>, needSplit: bool, needDividend: bool,
            legacyUnresolved: set<Date>, maxCalls: int, delta: int)
    | WriteHeader
    | PublishAnchor
    | SkipCovered
    | ReserveNext
    | Acquire(endpoint: Endpoint)
    | Send
    | Return(evidence: string)
    | Raise(failure: string)
    | Crash

  const INITIAL := System([], [], None, [], [])

  /** Calls reserved without a recorded outcome. */
  function UnresolvedIds(rs: seq<Record>): set<CallId> {
    set k | k in AttemptKeys(rs) - OutcomeKeys(rs) :: k.callId
  }

  /** The high-water check made before every append. */
  predicate HighWaterMatches(file: seq<Record>, anchors: seq<Anchor>) {
    if file == [] then anchors == []
    else anchors != [] && Last(anchors).number == |file| && Last(anchors).ledger == LedgerDigestOf(file)
  }

  /** The anchor an execution requests for its own campaign. */
  function AnchorRequest(file: seq<Record>, scope: Scope): Option<Anchor> {
    match CampaignStateOf(file, scope)
    case None => None
    case Some(s) =>
      if s.baseCalls.None? then None
      else Some(Anchor(s.globalCount, s.globalDigest, s.CampaignId(), s.recordCount, s.ledgerDigest,
                       s.baseCalls.value, s.authorizedCalls, s.reservedCalls))
  }

  predicate Ambiguous(file: seq<Record>, plan: Plan, legacy: set<Date>) {
    exists i :: 0 <= i < |plan.calls| &&
      (|| plan.calls[i].callId in UnresolvedIds(file)
       || (plan.calls[i].kind.OpenClose? && plan.calls[i].start in legacy))
  }

  function Halt(s: System): System {
    s.(run := None)
  }

  function Continue(s: System, stage: Stage): System
    requires s.run.Some?
  {
    s.(run := Some(s.run.value.(stage := stage)))
  }

  function StartRun(s: System, e: Event): System
    requires e.Start?
  {
    if s.run.Some? || !Accepts(s.file) || !HighWaterMatches(s.file, s.anchors) || !ValidScope(e.scope) then s
    else match CampaignStateOf(s.file, e.scope)
      case None => s
      case Some(campaign) =>
        match BuildPlan(e.planId, e.scope, e.covered, e.needSplit, e.needDividend, campaign)
        case None => s
        case Some(plan) =>
          if || WindowEnd(e.scope) !in e.covered
             || Ambiguous(s.file, plan, e.legacyUnresolved)
             || campaign.BudgetBlocked(|plan.calls|)
             || plan.calls == []
          then s
          else s.(run := Some(Execution(e.a, plan, e.maxCalls, e.delta, Planned)))
  }

  /** Every append of an execution: refused unless the file still matches the anchor table. */
  function AppendOr(s: System, record: Option<Record>, stage: Stage): System
    requires s.run.Some?
  {
    if !HighWaterMatches(s.file, s.anchors) || record.None? then Halt(s)
    else Continue(s, stage).(file := s.file + [record.value])
  }

  function PublishStep(s: System): System
    requires s.run.Some?
  {
    var x := s.run.value;
    match AnchorRequest(s.file, x.plan.scope)
    case None => Halt(s)
    case Some(q) =>
      match Publish(s.anchors, q)
      case None => Halt(s)
      case Some(anchors) =>
        var t := s.(anchors := anchors);
        match x.stage
        case HeaderWritten => Continue(t, Between(0))
        case Written(i) => Continue(t, Armed(i, false, 0))
        case Closing(i, failed) => if failed then Halt(t) else Continue(t, Between(i + 1))
        case _ => s
  }

  function CloseStep(s: System, i: nat, status: Status, evidence: Option<string>, failure: Option<string>): System
    requires s.run.Some? && i < |s.run.value.plan.calls|
  {
    var x := s.run.value;
    AppendOr(s, FinishCall(s.file, x.a, x.plan.planId, x.plan.calls[i], status, evidence, failure),
             Closing(i, !status.Checkpointed?))
  }

  /** Between two calls: skip one whose evidence already exists, or reserve it. */
  function BetweenStep(s: System, e: Event): System
    requires s.run.Some? && s.run.value.stage.Between?
  {
    var x := s.run.value;
    var calls := x.plan.calls;
    var i := x.stage.next;
    if e.SkipCovered? then
      if i < |calls| && calls[i].kind.OpenClose? then Continue(s, Between(i + 1)) else Halt(s)
    else if e.ReserveNext? then
      if i < |calls| then AppendOr(s, ReserveCall(s.file, x.a, x.plan.planId, calls[i]), Written(i)) else Halt(s)
    else s
  }

  /** While armed: the provider asks the guard, sends what it admits, and returns or raises. */
  function ArmedStep(s: System, e: Event): System
    requires s.run.Some? && s.run.value.stage.Armed?
  {
    var x := s.run.value;
    var Armed(i, acquired, permits) := x.stage;
    if |x.plan.calls| <= i then Halt(s)
    else
      var call := x.plan.calls[i];
      match e
      case Acquire(endpoint) =>
        if acquired || endpoint != call.endpoint then s
        else Continue(s, Armed(i, true, permits + 1)).(admitted := s.admitted + [Key(x.a, call.callId)])
      case Send =>
        if permits == 0 then s
        else Continue(s, Armed(i, acquired, permits - 1)).(sent := s.sent + [Key(x.a, call.callId)])
      case Return(evidence) =>
        if acquired then CloseStep(s, i, Checkpointed, Some(evidence), None)
        else CloseStep(s, i, FailedBeforeAdmission, None, Some("AcquisitionRefused"))
      case Raise(failure) =>
        CloseStep(s, i, if acquired then FailedAfterAdmission else FailedBeforeAdmission, None, Some(failure))
      case _ => s
  }

  /** Before the loop and after each append: write the header, or publish the file's anchor. */
  function WriteStep(s: System, e: Event): System
    requires s.run.Some?
  {
    var x := s.run.value;
    if x.stage.Planned? then
      if e.WriteHeader?
      then AppendOr(s, BeginAuthorization(s.file, x.a, x.plan, x.maxCalls, x.delta), HeaderWritten)
      else s
    else if (x.stage.HeaderWritten? || x.stage.Written? || x.stage.Closing?) && e.PublishAnchor? then PublishStep(s)
    else s
  }

  function Next(s: System, e: Event): System {
    if e.Replace? then
      if s.run.None? then s.(file := e.file) else s
    else if e.Start? then StartRun(s, e)
    else if s.run.None? then s
    else if e.Crash? then Halt(s)
    else if s.run.value.stage.Between? then BetweenStep(s, e)
    else if s.run.value.stage.Armed? then ArmedStep(s, e)
    else WriteStep(s, e)
  }

  function Exec(events: seq<Event>): System {
    if events == [] then INITIAL else Next(Exec(Init(events)), Last(events))
  }

  // ---- the published log ----

  /** The journal the anchor table commits to. */
  function Log(s: System): seq<Record> {
    if s.anchors != [] && Last(s.anchors).ledger.LedgerDigestOf? then Last(s.anchors).ledger.records else []
  }

  ghost predicate NoDuplicates<T>(xs: seq<T>) {
    forall i, j :: 0 <= i < j < |xs| ==> xs[i] != xs[j]
  }

  /** No call is reserved while an earlier reservation of it lacks an outcome. */
  ghost predicate NeverOverlaps(rs: seq<Record>) {
    rs != [] ==>
      && NeverOverlaps(Init(rs))
      && (Last(rs).Attempt? ==> Last(rs).callId !in UnresolvedIds(Init(rs)))
  }

  predicate OutcomeHonest(r: Record, admitted: seq<Key>) {
    r.Outcome? ==> (Key(r.authId, r.callId) in admitted <==> !r.status.FailedBeforeAdmission?)
  }

  ghost predicate TrafficOk(log: seq<Record>, admitted: seq<Key>, sent: seq<Key>) {
    && NoDuplicates(admitted) && NoDuplicates(sent)
    && (forall k :: k in admitted ==> k in AttemptKeys(log))
    && (forall k :: k in sent ==> k in admitted)
    && (forall i :: 0 <= i < |log| ==> OutcomeHonest(log[i], admitted))
  }

  predicate NoneUnresolved(calls: seq<Call>, from: nat, rs: seq<Record>) {
    forall j :: from <= j < |calls| ==> calls[j].callId !in UnresolvedIds(rs)
  }

  /** The file holds the published log and one more record, appended by this execution. */
  ghost predicate OneAhead(x: Execution, file: seq<Record>, log: seq<Record>) {
    && file != []
    && file == log + [Last(file)]
    && Accepts(file)
    && Last(file).authId == x.a
    && Last(file).campaignId == CampaignDigest(x.plan.scope)
  }

  /** This execution's own header is published. */
  ghost predicate HeaderPublished(x: Execution, log: seq<Record>)
    requires Accepts(log)
  {
    && x.a in Run(log).value.headers
    && Run(log).value.headers[x.a].campaignId == CampaignDigest(x.plan.scope)
  }

  ghost predicate ArmedOk(k: Key, acquired: bool, permits: nat, log: seq<Record>, admitted: seq<Key>, sent: seq<Key>) {
    && k in AttemptKeys(log) && k !in OutcomeKeys(log)
    && (k in admitted <==> acquired)
    && permits <= 1 && (permits == 1 ==> acquired && k !in sent)
  }

  ghost predicate StageOk(x: Execution, file: seq<Record>, log: seq<Record>, admitted: seq<Key>, sent: seq<Key>)
    requires Accepts(log)
  {
    var calls := x.plan.calls;
    && (x.stage.Planned? || x.stage.HeaderWritten? || HeaderPublished(x, log))
    && match x.stage
       case Planned => file == log && NoneUnresolved(calls, 0, log)
       case HeaderWritten =>
         OneAhead(x, file, log) && Last(file).Authorization? && NoneUnresolved(calls, 0, log)
       case Between(i) => i <= |calls| && file == log && NoneUnresolved(calls, i, log)
       case Written(i) =>
         && i < |calls| && OneAhead(x, file, log)
         && Last(file).Attempt? && Last(file).callId == calls[i].callId
         && NoneUnresolved(calls, i, log)
       case Armed(i, acquired, permits) =>
         && i < |calls| && file == log
         && ArmedOk(Key(x.a, calls[i].callId), acquired, permits, log, admitted, sent)
         && NoneUnresolved(calls, i + 1, log)
       case Closing(i, failed) =>
         && i < |calls| && OneAhead(x, file, log)
         && Last(file).Outcome? && OutcomeHonest(Last(file), admitted)
         && NoneUnresolved(calls, i + 1, log)
  }

  predicate PlanOk(plan: Plan) {
    plan.scope.sessions != [] && CallsOk(plan.calls, plan.scope)
  }

  ghost predicate Inv(s: System) {
    && Accepts(Log(s))
    && s.anchors == Chain(Log(s))
    && NeverOverlaps(Log(s))
    && TrafficOk(Log(s), s.admitted, s.sent)
    && (s.run.Some? ==>
          PlanOk(s.run.value.plan) && StageOk(s.run.value, s.file, Log(s), s.admitted, s.sent))
  }

  // ---- every step keeps the invariant ----

  lemma UnresolvedSnoc(rs: seq<Record>, r: Record)
    ensures UnresolvedIds(rs + [r]) <= UnresolvedIds(rs) + (if r.Attempt? then {r.callId} else {})
  {
    KeysSnoc(rs, r);
    forall id | id in UnresolvedIds(rs + [r])
      ensures id in UnresolvedIds(rs) + (if r.Attempt? then {r.callId} else {})
    {
      var k :| k in AttemptKeys(rs + [r]) - OutcomeKeys(rs + [r]) && k.callId == id;
      if k in AttemptKeys(rs) {
        assert k in AttemptKeys(rs) - OutcomeKeys(rs);
      }
    }
  }

  lemma HeaderStays(rs: seq<Record>, r: Record, a: AuthorizationId)
    requires Accepts(rs) && Accepts(rs + [r]) && a in Run(rs).value.headers
    ensures a in Run(rs + [r]).value.headers
    ensures Run(rs + [r]).value.headers[a] == Run(rs).value.headers[a]
  {
    AcceptsSnoc(rs, r);
  }

  /** An accepted attempt is of a call its authorization had neither reserved nor closed. */
  lemma FreshKey(rs: seq<Record>, r: Record)
    requires Accepts(rs) && Accepts(rs + [r]) && r.Attempt?
    ensures Key(r.authId, r.callId) !in AttemptKeys(rs)
    ensures Key(r.authId, r.callId) in AttemptKeys(rs + [r])
    ensures Key(r.authId, r.callId) !in OutcomeKeys(rs + [r])
  {
    AcceptsSnoc(rs, r);
    KeysTracked(rs);
    KeysSnoc(rs, r);
  }

  lemma DistinctCalls(calls: seq<Call>, scope: Scope, i: nat, j: nat)
    requires scope.sessions != [] && CallsOk(calls, scope) && i < j < |calls|
    ensures calls[i].callId != calls[j].callId
  {
    IndexOfUnique(calls, i);
    IndexOfUnique(calls, j);
  }

  /** The anchor an execution requests is the anchor of the file, and the table takes it. */
  lemma PublishSucceeds(x: Execution, file: seq<Record>, log: seq<Record>)
    requires Accepts(log) && OneAhead(x, file, log)
    ensures AnchorRequest(file, x.plan.scope) == Some(AnchorOf(file))
    ensures Publish(Chain(log), AnchorOf(file)) == Some(Chain(file))
    ensures Chain(file) != [] && Last(Chain(file)).ledger == LedgerDigestOf(file)
  {
    LastHasCampaign(file);
    PublishExtends(log, Last(file));
    HeadIdentifies(file, file);
  }

  lemma LogGrows(log: seq<Record>, r: Record, admitted: seq<Key>, sent: seq<Key>)
    requires NeverOverlaps(log) && TrafficOk(log, admitted, sent)
    requires OutcomeHonest(r, admitted) && (r.Attempt? ==> r.callId !in UnresolvedIds(log))
    ensures NeverOverlaps(log + [r]) && TrafficOk(log + [r], admitted, sent)
  {
    SnocParts(log, r);
    KeysSnoc(log, r);
  }

  /** Publishing turns the one record ahead into the end of the log. */
  lemma PublishKeeps(s: System)
    requires Inv(s) && s.run.Some?
    requires var g := s.run.value.stage; g.HeaderWritten? || g.Written? || g.Closing?
    ensures Inv(PublishStep(s))
  {
    var x := s.run.value;
    var log := Log(s);
    PublishSucceeds(x, s.file, log);
    PublishResult(s, AnchorOf(s.file), Chain(s.file));
    LogGrows(log, Last(s.file), s.admitted, s.sent);
    PublishedStage(x, s.file, log, s.admitted, s.sent);
    assert Log(PublishStep(s)) == s.file;
  }

  /** Where publishing leads once the table has taken the anchor. */
  lemma PublishResult(s: System, q: Anchor, anchors: seq<Anchor>)
    requires s.run.Some? && AnchorRequest(s.file, s.run.value.plan.scope) == Some(q)
    requires Publish(s.anchors, q) == Some(anchors)
    requires var g := s.run.value.stage; g.HeaderWritten? || g.Written? || g.Closing?
    ensures var g := s.run.value.stage; var t := s.(anchors := anchors);
            PublishStep(s) == if g.Closing? && g.failed then Halt(t) else Continue(t, PublishedOf(g))
  {
  }

  function PublishedOf(stage: Stage): Stage {
    match stage
    case HeaderWritten => Between(0)
    case Written(i) => Armed(i, false, 0)
    case Closing(i, _) => Between(i + 1)
    case _ => stage
  }

  lemma PublishedStage(x: Execution, file: seq<Record>, log: seq<Record>, admitted: seq<Key>, sent: seq<Key>)
    requires Accepts(log) && PlanOk(x.plan) && StageOk(x, file, log, admitted, sent)
    requires x.stage.HeaderWritten? || x.stage.Written? || x.stage.Closing?
    requires forall k :: k in admitted ==> k in AttemptKeys(log)
    ensures StageOk(x.(stage := PublishedOf(x.stage)), file, file, admitted, sent)
  {
    var r := Last(file);
    UnresolvedSnoc(log, r);
    match x.stage {
      case HeaderWritten =>
        AcceptsSnoc(log, r);
      case Written(i) =>
        HeaderStays(log, r, x.a);
        FreshKey(log, r);
        LaterCallsFree(x.plan, i, log, file);
      case Closing(i, failed) =>
        HeaderStays(log, r, x.a);
    }
  }

  lemma LaterCallsFree(plan: Plan, i: nat, log: seq<Record>, file: seq<Record>)
    requires PlanOk(plan) && i < |plan.calls| && NoneUnresolved(plan.calls, i, log)
    requires UnresolvedIds(file) <= UnresolvedIds(log) + {plan.calls[i].callId}
    ensures NoneUnresolved(plan.calls, i + 1, file)
  {
    forall j | i < j < |plan.calls| ensures plan.calls[j].callId !in UnresolvedIds(file) {
      DistinctCalls(plan.calls, plan.scope, i, j);
    }
  }

  lemma StartKeeps(s: System, e: Event)
    requires Inv(s) && e.Start?
    ensures Inv(StartRun(s, e))
  {
    var t := StartRun(s, e);
    if t != s {
      HeadIdentifies(Log(s), s.file);
      PlannedCallsOk(e.scope, e.covered, e.needSplit, e.needDividend);
      var calls := t.run.value.plan.calls;
      assert NoneUnresolved(calls, 0, s.file);
    }
  }

  lemma HeaderStage(x: Execution, file: seq<Record>, admitted: seq<Key>, sent: seq<Key>)
    requires Accepts(file) && PlanOk(x.plan) && StageOk(x, file, file, admitted, sent) && x.stage.Planned?
    ensures var record := BeginAuthorization(file, x.a, x.plan, x.maxCalls, x.delta);
            record.Some? ==> StageOk(x.(stage := HeaderWritten), file + [record.value], file, admitted, sent)
  {
    var record := BeginAuthorization(file, x.a, x.plan, x.maxCalls, x.delta);
    if record.Some? {
      BeginGives(file, x.a, x.plan, x.maxCalls, x.delta);
      BeginAccepted(file, x.a, x.plan, x.maxCalls, x.delta);
    }
  }

  lemma ReserveStage(x: Execution, file: seq<Record>, admitted: seq<Key>, sent: seq<Key>)
    requires Accepts(file) && PlanOk(x.plan) && StageOk(x, file, file, admitted, sent)
    requires x.stage.Between? && x.stage.next < |x.plan.calls|
    ensures var i := x.stage.next;
            var record := ReserveCall(file, x.a, x.plan.planId, x.plan.calls[i]);
            record.Some? ==> StageOk(x.(stage := Written(i)), file + [record.value], file, admitted, sent)
  {
    var call := x.plan.calls[x.stage.next];
    if ReserveCall(file, x.a, x.plan.planId, call).Some? {
      ReserveSound(file, x.a, x.plan.planId, call);
      HeadersTracked(file, x.a, x.plan.planId);
    }
  }

  lemma CloseStage(x: Execution, file: seq<Record>, admitted: seq<Key>, sent: seq<Key>,
                   status: Status, evidence: Option<string>, failure: Option<string>)
    requires Accepts(file) && PlanOk(x.plan) && StageOk(x, file, file, admitted, sent) && x.stage.Armed?
    requires x.stage.acquired <==> !status.FailedBeforeAdmission?
    ensures var i := x.stage.next;
            var record := FinishCall(file, x.a, x.plan.planId, x.plan.calls[i], status, evidence, failure);
            record.Some? ==>
              StageOk(x.(stage := Closing(i, !status.Checkpointed?)), file + [record.value], file, admitted, sent)
  {
    var call := x.plan.calls[x.stage.next];
    if FinishCall(file, x.a, x.plan.planId, call, status, evidence, failure).Some? {
      FinishSound(file, WriterOp.Finish(x.a, x.plan.planId, call, status, evidence, failure));
      HeadersTracked(file, x.a, x.plan.planId);
    }
  }

  lemma AppendKeeps(s: System, record: Option<Record>, stage: Stage)
    requires Inv(s) && s.run.Some?
    requires record.Some? && s.file == Log(s) ==>
               StageOk(s.run.value.(stage := stage), s.file + [record.value], Log(s), s.admitted, s.sent)
    ensures Inv(AppendOr(s, record, stage))
  {
    HeadIdentifies(Log(s), s.file);
    assert Log(AppendOr(s, record, stage)) == Log(s);
  }

  lemma CloseKeeps(s: System, status: Status, evidence: Option<string>, failure: Option<string>)
    requires Inv(s) && s.run.Some? && s.run.value.stage.Armed?
    requires s.run.value.stage.acquired <==> !status.FailedBeforeAdmission?
    ensures Inv(CloseStep(s, s.run.value.stage.next, status, evidence, failure))
  {
    var x := s.run.value;
    var i := x.stage.next;
    CloseStage(x, s.file, s.admitted, s.sent, status, evidence, failure);
    AppendKeeps(s, FinishCall(s.file, x.a, x.plan.planId, x.plan.calls[i], status, evidence, failure),
                Closing(i, !status.Checkpointed?));
  }

  /** Admission: the guard lets one request through per armed reservation. */
  lemma AdmitTraffic(log: seq<Record>, k: Key, admitted: seq<Key>, sent: seq<Key>)
    requires TrafficOk(log, admitted, sent)
    requires k in AttemptKeys(log) && k !in OutcomeKeys(log) && k !in admitted
    ensures TrafficOk(log, admitted + [k], sent)
  {
    forall i | 0 <= i < |log| ensures OutcomeHonest(log[i], admitted + [k]) {
      assert OutcomeHonest(log[i], admitted);
    }
  }

  lemma AcquireKeeps(s: System, endpoint: Endpoint)
    requires Inv(s) && s.run.Some? && s.run.value.stage.Armed?
    ensures Inv(ArmedStep(s, Acquire(endpoint)))
  {
    var x := s.run.value;
    var k := Key(x.a, x.plan.calls[x.stage.next].callId);
    assert Log(ArmedStep(s, Acquire(endpoint))) == Log(s);
    if !x.stage.acquired {
      AdmitTraffic(Log(s), k, s.admitted, s.sent);
      assert k !in s.sent;
    }
  }

  lemma SendTraffic(log: seq<Record>, k: Key, admitted: seq<Key>, sent: seq<Key>)
    requires TrafficOk(log, admitted, sent) && k in admitted && k !in sent
    ensures TrafficOk(log, admitted, sent + [k])
  {
  }

  lemma SendKeeps(s: System)
    requires Inv(s) && s.run.Some? && s.run.value.stage.Armed?
    ensures Inv(ArmedStep(s, Send))
  {
    var x := s.run.value;
    var k := Key(x.a, x.plan.calls[x.stage.next].callId);
    assert Log(ArmedStep(s, Send)) == Log(s);
    if x.stage.permits > 0 {
      SendTraffic(Log(s), k, s.admitted, s.sent);
    }
  }

  lemma HaltKeeps(s: System)
    requires Inv(s)
    ensures Inv(Halt(s))
  {
    assert Log(Halt(s)) == Log(s);
  }

  /** How an armed call ends: with evidence, or with the refusal that nothing was admitted. */
  lemma ReturnIsClose(s: System, evidence: string)
    requires s.run.Some? && s.run.value.stage.Armed? && s.run.value.stage.next < |s.run.value.plan.calls|
    ensures ArmedStep(s, Return(evidence))
         == if s.run.value.stage.acquired then CloseStep(s, s.run.value.stage.next, Checkpointed, Some(evidence), None)
            else CloseStep(s, s.run.value.stage.next, FailedBeforeAdmission, None, Some("AcquisitionRefused"))
  {
  }

  lemma RaiseIsClose(s: System, failure: string)
    requires s.run.Some? && s.run.value.stage.Armed? && s.run.value.stage.next < |s.run.value.plan.calls|
    ensures ArmedStep(s, Raise(failure))
         == CloseStep(s, s.run.value.stage.next,
                      if s.run.value.stage.acquired then FailedAfterAdmission else FailedBeforeAdmission,
                      None, Some(failure))
  {
  }

  lemma ReturnKeeps(s: System, evidence: string)
    requires Inv(s) && s.run.Some? && s.run.value.stage.Armed?
    ensures Inv(ArmedStep(s, Return(evidence)))
  {
    ReturnIsClose(s, evidence);
    if s.run.value.stage.acquired {
      CloseKeeps(s, Checkpointed, Some(evidence), None);
    } else {
      CloseKeeps(s, FailedBeforeAdmission, None, Some("AcquisitionRefused"));
    }
  }

  lemma RaiseKeeps(s: System, failure: string)
    requires Inv(s) && s.run.Some? && s.run.value.stage.Armed?
    ensures Inv(ArmedStep(s, Raise(failure)))
  {
    RaiseIsClose(s, failure);
    if s.run.value.stage.acquired {
      CloseKeeps(s, FailedAfterAdmission, None, Some(failure));
    } else {
      CloseKeeps(s, FailedBeforeAdmission, None, Some(failure));
    }
  }

  lemma ArmedKeeps(s: System, e: Event)
    requires Inv(s) && s.run.Some? && s.run.value.stage.Armed?
    ensures Inv(ArmedStep(s, e))
  {
    match e {
      case Acquire(endpoint) => AcquireKeeps(s, endpoint);
      case Send => SendKeeps(s);
      case Return(evidence) => ReturnKeeps(s, evidence);
      case Raise(failure) => RaiseKeeps(s, failure);
      case _ =>
    }
  }

  lemma BetweenKeeps(s: System, e: Event)
    requires Inv(s) && s.run.Some? && s.run.value.stage.Between?
    ensures Inv(BetweenStep(s, e))
  {
    var x := s.run.value;
    var i := x.stage.next;
    HaltKeeps(s);
    assert Log(BetweenStep(s, SkipCovered)) == Log(s);
    if e.ReserveNext? && i < |x.plan.calls| {
      ReserveStage(x, s.file, s.admitted, s.sent);
      AppendKeeps(s, ReserveCall(s.file, x.a, x.plan.planId, x.plan.calls[i]), Written(i));
    }
  }

  lemma WriteKeeps(s: System, e: Event)
    requires Inv(s) && s.run.Some?
    ensures Inv(WriteStep(s, e))
  {
    var x := s.run.value;
    if x.stage.Planned? {
      HeaderStage(x, s.file, s.admitted, s.sent);
      AppendKeeps(s, BeginAuthorization(s.file, x.a, x.plan, x.maxCalls, x.delta), HeaderWritten);
    } else if x.stage.HeaderWritten? || x.stage.Written? || x.stage.Closing? {
      PublishKeeps(s);
    }
  }

  lemma ReplaceKeeps(s: System, e: Event)
    requires Inv(s) && e.Replace?
    ensures Inv(Next(s, e))
  {
    assert Log(Next(s, e)) == Log(s);
  }

  lemma StepKeeps(s: System, e: Event)
    requires Inv(s)
    ensures Inv(Next(s, e))
  {
    if e.Replace? {
      ReplaceKeeps(s, e);
    } else if e.Start? {
      StartKeeps(s, e);
    } else if s.run.Some? {
      if e.Crash? {
        HaltKeeps(s);
      } else if s.run.value.stage.Between? {
        BetweenKeeps(s, e);
      } else if s.run.value.stage.Armed? {
        ArmedKeeps(s, e);
      } else {
        WriteKeeps(s, e);
      }
    }
  }

  /** The invariant holds after every sequence of events. */
  lemma {:induction false} ExecKeeps(events: seq<Event>)
    ensures Inv(Exec(events))
  {
    if events != [] {
      ExecKeeps(Init(events));
      StepKeeps(Exec(Init(events)), Last(events));
    }
  }

  // ---- what holds after every sequence of events ----

  function CampaignKeys(log: seq<Record>, c: CampaignId): set<Key> {
    set i | 0 <= i < |log| && log[i].Attempt? && log[i].campaignId == c :: Key(log[i].authId, log[i].callId)
  }

  /** The requests sent for one campaign, in order. */
  function SentFor(sent: seq<Key>, keys: set<Key>): seq<Key> {
    if sent == [] then []
    else SentFor(Init(sent), keys) + (if Last(sent) in keys then [Last(sent)] else [])
  }

  lemma CampaignKeysSnoc(xs: seq<Record>, r: Record, c: CampaignId)
    ensures CampaignKeys(xs + [r], c)
         == CampaignKeys(xs, c) + (if r.Attempt? && r.campaignId == c then {Key(r.authId, r.callId)} else {})
  {
    var log := xs + [r];
    assert forall i :: 0 <= i < |xs| ==> xs[i] == log[i];
    assert log[|xs|] == r;
  }

  lemma {:induction false} CampaignKeyCount(log: seq<Record>, c: CampaignId)
    ensures |CampaignKeys(log, c)| <= |CampaignAttempts(log, c)|
  {
    if log != [] {
      var xs, r := Init(log), Last(log);
      CampaignKeyCount(xs, c);
      InitLast(log);
      CampaignKeysSnoc(xs, r, c);
      FiltersSnoc(xs, r, c);
    }
  }

  lemma {:induction false} SentCount(sent: seq<Key>, keys: set<Key>)
    requires NoDuplicates(sent)
    ensures |SentFor(sent, keys)| <= |keys|
  {
    if sent != [] {
      var k := Last(sent);
      SentCount(Init(sent), keys - {k});
      SentWithout(Init(sent), keys, k);
    }
  }

  lemma {:induction false} SentWithout(sent: seq<Key>, keys: set<Key>, k: Key)
    requires k !in sent
    ensures SentFor(sent, keys) == SentFor(sent, keys - {k})
  {
    if sent != [] {
      SentWithout(Init(sent), keys, k);
      assert Last(sent) in sent;
    }
  }

  /** Requests, published reservations and the published authorization of one campaign. */
  ghost predicate BudgetHolds(s: System, c: CampaignId) {
    var log := Log(s);
    && Accepts(log)
    && |SentFor(s.sent, CampaignKeys(log, c))| <= |CampaignAttempts(log, c)|
    && (Headers(log, c) == [] ==> CampaignAttempts(log, c) == [])
    && (Headers(log, c) != [] ==>
          |CampaignAttempts(log, c)| <= Last(Headers(log, c)).authorizedCalls
                                     <= Min(Headers(log, c)[0].baseCalls + 5, 264))
  }

  lemma LogBudget(s: System, c: CampaignId)
    requires Accepts(Log(s)) && NoDuplicates(s.sent)
    ensures BudgetHolds(s, c)
  {
    var log := Log(s);
    SentCount(s.sent, CampaignKeys(log, c));
    CampaignKeyCount(log, c);
    CampaignTracked(log, c);
    if Headers(log, c) != [] {
      CampaignBudget(log, c);
    }
  }

  lemma InvBudget(s: System, c: CampaignId)
    requires Inv(s)
    ensures BudgetHolds(s, c)
  {
    LogBudget(s, c);
  }

  /** However executions crash and whatever happens to the file between them: the HTTP requests sent
      for a campaign never exceed its published reservations, these never exceed the published
      authorization, and that never exceeds the base plus five recovery calls, nor 264. */
  lemma SendsWithinBudget(events: seq<Event>, c: CampaignId)
    ensures BudgetHolds(Exec(events), c)
  {
    ExecKeeps(events);
    InvBudget(Exec(events), c);
  }

  /** Every request sent belongs to a published reservation, and no reservation is sent twice. */
  lemma SendsAreReserved(events: seq<Event>)
    ensures var s := Exec(events);
            && (forall k :: k in s.sent ==> k in AttemptKeys(Log(s)))
            && (forall i, j :: 0 <= i < j < |s.sent| ==> s.sent[i] != s.sent[j])
  {
    ExecKeeps(events);
  }

  /** The high-water check passes exactly when the file is the published log. */
  lemma HighWaterIdentifies(events: seq<Event>)
    ensures var s := Exec(events); HighWaterMatches(s.file, s.anchors) <==> s.file == Log(s)
  {
    ExecKeeps(events);
    HeadIdentifies(Log(Exec(events)), Exec(events).file);
  }

  /** "failed_before_admission" is published for a reservation exactly when the guard admitted nothing
      for it, and then nothing was sent. */
  lemma PublishedOutcomesHonest(events: seq<Event>, i: nat)
    requires i < |Log(Exec(events))| && Log(Exec(events))[i].Outcome?
    ensures var s := Exec(events); var r := Log(s)[i]; var k := Key(r.authId, r.callId);
            && (r.status.FailedBeforeAdmission? <==> k !in s.admitted)
            && (r.status.FailedBeforeAdmission? ==> k !in s.sent)
  {
    ExecKeeps(events);
    assert OutcomeHonest(Log(Exec(events))[i], Exec(events).admitted);
  }

  lemma {:induction false} OverlapAt(rs: seq<Record>, j: nat)
    requires NeverOverlaps(rs) && j < |rs| && rs[j].Attempt?
    ensures rs[j].callId !in UnresolvedIds(rs[..j])
    decreases |rs|
  {
    if j < |rs| - 1 {
      OverlapAt(Init(rs), j);
      assert Init(rs)[..j] == rs[..j];
    }
  }

  lemma RecordAt(rs: seq<Record>, k: nat)
    requires Accepts(rs) && k < |rs|
    ensures Accepts(rs[..k]) && RecordOk(Run(rs[..k]).value, rs[k])
  {
    AcceptedPrefix(rs, k);
    AcceptedPrefix(rs, k + 1);
    assert rs[..k + 1] == rs[..k] + [rs[k]];
    AcceptsSnoc(rs[..k], rs[k]);
  }

  /** An outcome follows the attempt it closes. */
  lemma OutcomeAfterAttempt(rs: seq<Record>, i: nat, k: nat)
    requires Accepts(rs) && i < |rs| && k < |rs| && rs[i].Attempt? && rs[k].Outcome?
    requires Key(rs[i].authId, rs[i].callId) == Key(rs[k].authId, rs[k].callId)
    ensures i < k
  {
    var key := Key(rs[i].authId, rs[i].callId);
    RecordAt(rs, i);
    KeysTracked(rs[..i]);
    forall n | 0 <= n < i ensures !(rs[n].Attempt? && Key(rs[n].authId, rs[n].callId) == key) {
      assert rs[..i][n] == rs[n];
    }
    RecordAt(rs, k);
    KeysTracked(rs[..k]);
    var n :| 0 <= n < k && rs[..k][n].Attempt? && key == Key(rs[..k][n].authId, rs[..k][n].callId);
    assert rs[..k][n] == rs[n];
  }

  /** Between two published reservations of one call, the first one's outcome is published. */
  lemma ReservationsDoNotOverlap(events: seq<Event>, i: nat, j: nat)
    requires var log := Log(Exec(events));
             i < j < |log| && log[i].Attempt? && log[j].Attempt? && log[i].callId == log[j].callId
    ensures var log := Log(Exec(events));
            exists k :: i < k < j && log[k].Outcome? && log[k].authId == log[i].authId && log[k].callId == log[i].callId
  {
    ExecKeeps(events);
    var log := Log(Exec(events));
    var key := Key(log[i].authId, log[i].callId);
    OverlapAt(log, j);
    assert log[..j][i] == log[i];
    assert key in AttemptKeys(log[..j]);
    assert key in OutcomeKeys(log[..j]);
    var k :| 0 <= k < j && log[..j][k].Outcome? && key == Key(log[..j][k].authId, log[..j][k].callId);
    assert log[..j][k] == log[k];
    OutcomeAfterAttempt(log, i, k);
  }

  /** Nothing an authorization has reserved lies behind its last position. */
  lemma {:induction false} PositionReached(rs: seq<Record>, i: nat)
    requires Accepts(rs) && i < |rs| && rs[i].Attempt?
    ensures var v := Run(rs).value; var a := rs[i].authId;
            && a in v.headers && a in v.lastPositions
            && IndexOf(v.headers[a].calls, rs[i].callId) <= v.lastPositions[a]
  {
    InitLast(rs);
    AcceptsSnoc(Init(rs), Last(rs));
    if i < |rs| - 1 {
      PositionReached(Init(rs), i);
      HeaderStays(Init(rs), Last(rs), rs[i].authId);
    }
  }

  /** A header once recorded is never replaced. */
  lemma {:induction false} HeaderKept(rs: seq<Record>, k: nat, a: AuthorizationId)
    requires Accepts(rs) && k <= |rs| && Accepts(rs[..k]) && a in Run(rs[..k]).value.headers
    ensures a in Run(rs).value.headers && Run(rs).value.headers[a] == Run(rs[..k]).value.headers[a]
  {
    if k == |rs| {
      assert rs[..k] == rs;
    } else {
      InitLast(rs);
      AcceptsSnoc(Init(rs), Last(rs));
      assert Init(rs)[..k] == rs[..k];
      HeaderKept(Init(rs), k, a);
      HeaderStays(Init(rs), Last(rs), a);
    }
  }

  /** One authorization's published reservations follow the order of the calls in its plan. */
  lemma ReservationsInPlanOrder(events: seq<Event>, i: nat, j: nat)
    requires var log := Log(Exec(events));
             i < j < |log| && log[i].Attempt? && log[j].Attempt? && log[i].authId == log[j].authId
    ensures var log := Log(Exec(events)); var a := log[i].authId;
            && Accepts(log) && a in Run(log).value.headers
            && var calls := Run(log).value.headers[a].calls;
               0 <= IndexOf(calls, log[i].callId) < IndexOf(calls, log[j].callId)
  {
    ExecKeeps(events);
    var log := Log(Exec(events));
    RecordAt(log, i);
    RecordAt(log, j);
    assert log[..j][i] == log[i];
    PositionReached(log[..j], i);
    HeaderKept(log, j, log[i].authId);
    HeaderKept(log, i, log[i].authId);
  }

  /** A published reservation comes after every action page its authorization planned before it. */
  lemma ActionPagesFirst(events: seq<Event>, k: nat)
    requires k < |Log(Exec(events))| && Log(Exec(events))[k].Attempt?
    ensures Accepts(Log(Exec(events))[..k])
    ensures var log := Log(Exec(events)); var r := log[k]; var v := Run(log[..k]).value;
            && r.authId in v.headers
            && var calls := v.headers[r.authId].calls; var p := IndexOf(calls, r.callId);
               && 0 <= p && calls[p].kind == r.callKind
               && forall q :: 0 <= q < p && IsAction(calls[q].kind) ==>
                    exists i :: 0 <= i < k && log[i].Attempt? && log[i].authId == r.authId
                                && log[i].callId == calls[q].callId
  {
    ExecKeeps(events);
    var log := Log(Exec(events));
    RecordAt(log, k);
    KeysTracked(log[..k]);
    var r := log[k];
    var v := Run(log[..k]).value;
    var calls := v.headers[r.authId].calls;
    var p := IndexOf(calls, r.callId);
    forall q | 0 <= q < p && IsAction(calls[q].kind)
      ensures exists i :: 0 <= i < k && log[i].Attempt? && log[i].authId == r.authId && log[i].callId == calls[q].callId
    {
      assert calls[q].callId in EarlierActions(calls, p);
      assert Key(r.authId, calls[q].callId) in AttemptKeys(log[..k]);
      var i :| 0 <= i < k && log[..k][i].Attempt? &&
               Key(r.authId, calls[q].callId) == Key(log[..k][i].authId, log[..k][i].callId);
      assert log[..k][i] == log[i];
    }
  }

  /** A journal stranded ahead of, behind or beside the published log stops everything: until the file
      is replaced, no event starts an execution, appends, publishes or sends. */
  lemma {:induction false} StrandedFileStops(events: seq<Event>, more: seq<Event>)
    requires Exec(events).run.None? && Exec(events).file != Log(Exec(events))
    requires forall i :: 0 <= i < |more| ==> !more[i].Replace?
    ensures Exec(events + more) == Exec(events)
    decreases |more|
  {
    if more == [] {
      assert events + more == events;
    } else {
      var all := events + more;
      assert Init(all) == events + Init(more) && Last(all) == Last(more);
      StrandedFileStops(events, Init(more));
      HighWaterIdentifies(events);
    }
  }
}
