/** What an undisturbed execution achieves: the safety checks leave the work possible. */
module AcquisitionProgress {
  import opened Common
  import opened LedgerRecords
  import opened LedgerValidator
  import opened LedgerWriters
  import opened CampaignAnchors
  import opened AcquisitionProtocol

  /** The file is the published log, and this execution's header is in it. */
  ghost predicate Ready(a: AuthorizationId, plan: Plan, file: seq<Record>, anchors: seq<Anchor>) {
    && Accepts(file) && anchors == Chain(file)
    && a in Run(file).value.headers && Run(file).value.headers[a].campaignId == CampaignDigest(plan.scope)
  }

  lemma ReadyMatches(x: Execution, file: seq<Record>, anchors: seq<Anchor>)
    requires Ready(x.a, x.plan, file, anchors)
    ensures HighWaterMatches(file, anchors)
  {
    HeadIdentifies(file, file);
  }

  /** One more accepted record of this execution: it can be published, and then the file is ready again. */
  lemma AheadThenReady(x: Execution, file: seq<Record>, r: Record)
    requires Accepts(file) && HeaderPublished(x, file) && Accepts(file + [r])
    requires r.authId == x.a && r.campaignId == CampaignDigest(x.plan.scope)
    ensures OneAhead(x, file + [r], file)
    ensures Ready(x.a, x.plan, file + [r], Chain(file + [r]))
  {
    SnocParts(file, r);
    HeaderStays(file, r, x.a);
  }

  lemma ReservedRecord(x: Execution, rs: seq<Record>, call: Call)
    requires Accepts(rs) && HeaderPublished(x, rs) && ReserveCall(rs, x.a, x.plan.planId, call).Some?
    ensures var r := ReserveCall(rs, x.a, x.plan.planId, call).value;
            && r.Attempt? && r.authId == x.a && r.callId == call.callId && r.campaignId == CampaignDigest(x.plan.scope)
            && Accepts(rs + [r])
  {
    ReserveSound(rs, x.a, x.plan.planId, call);
    HeadersTracked(rs, x.a, x.plan.planId);
  }

  /** A reserved call can be closed. */
  lemma ReservedCanFinish(x: Execution, rs: seq<Record>, call: Call, evidence: string)
    requires Accepts(rs) && HeaderPublished(x, rs) && ReserveCall(rs, x.a, x.plan.planId, call).Some?
    ensures var after := rs + [ReserveCall(rs, x.a, x.plan.planId, call).value];
            && Accepts(after) && HeaderPublished(x, after)
            && FinishCall(after, x.a, x.plan.planId, call, Checkpointed, Some(evidence), None).Some?
  {
    var r := ReserveCall(rs, x.a, x.plan.planId, call).value;
    ReservedRecord(x, rs, call);
    AttemptCanFinish(x, rs, r, call, evidence);
  }

  lemma AttemptCanFinish(x: Execution, rs: seq<Record>, r: Record, call: Call, evidence: string)
    requires Accepts(rs) && HeaderPublished(x, rs) && Accepts(rs + [r])
    requires |PlanHeaders(rs, x.a, x.plan.planId)| == 1 && r.Attempt? && r.authId == x.a && r.callId == call.callId
    ensures HeaderPublished(x, rs + [r])
    ensures FinishCall(rs + [r], x.a, x.plan.planId, call, Checkpointed, Some(evidence), None).Some?
  {
    hide Run, AttemptKeys, OutcomeKeys, MatchingAttempts, MatchingOutcomes, PlanHeaders;
    var after := rs + [r];
    HeadersTracked(rs, x.a, x.plan.planId);
    HeaderStays(rs, r, x.a);
    HeadersTracked(after, x.a, x.plan.planId);
    FreshKey(rs, r);
    KeysTracked(after);
    MatchingCounts(after, x.a, call.callId);
  }

  lemma FinishedRecord(x: Execution, rs: seq<Record>, call: Call,
                       status: Status, evidence: Option<string>, failure: Option<string>)
    requires Accepts(rs) && HeaderPublished(x, rs) && ValidCall(call)
    requires FinishCall(rs, x.a, x.plan.planId, call, status, evidence, failure).Some?
    ensures var r := FinishCall(rs, x.a, x.plan.planId, call, status, evidence, failure).value;
            r.authId == x.a && r.campaignId == CampaignDigest(x.plan.scope) && Accepts(rs + [r])
  {
    FinishSound(rs, WriterOp.Finish(x.a, x.plan.planId, call, status, evidence, failure));
    HeadersTracked(rs, x.a, x.plan.planId);
  }

  /** An execution at `stage` over `file`, with the given traffic. */
  predicate At(t: System, x: Execution, stage: Stage, file: seq<Record>, admitted: seq<Key>, sent: seq<Key>) {
    t.run == Some(x.(stage := stage)) && t.file == file && t.admitted == admitted && t.sent == sent
  }

  lemma PublishesAs(m: System, q: Anchor, anchors: seq<Anchor>, stage: Stage)
    requires m.run.Some? && AnchorRequest(m.file, m.run.value.plan.scope) == Some(q)
    requires Publish(m.anchors, q) == Some(anchors)
    requires match m.run.value.stage
             case HeaderWritten => stage == Between(0)
             case Written(i) => stage == Armed(i, false, 0)
             case Closing(i, failed) => !failed && stage == Between(i + 1)
             case _ => false
    ensures PublishStep(m) == m.(anchors := anchors, run := Some(m.run.value.(stage := stage)))
  {
  }

  /** Publishing the record just appended moves the execution on. */
  lemma PublishMoves(m: System, log: seq<Record>, stage: Stage)
    requires m.run.Some? && Accepts(log) && m.anchors == Chain(log) && OneAhead(m.run.value, m.file, log)
    requires match m.run.value.stage
             case HeaderWritten => stage == Between(0)
             case Written(i) => stage == Armed(i, false, 0)
             case Closing(i, failed) => !failed && stage == Between(i + 1)
             case _ => false
    ensures At(PublishStep(m), m.run.value, stage, m.file, m.admitted, m.sent)
    ensures PublishStep(m).anchors == Chain(m.file)
  {
    PublishSucceeds(m.run.value, m.file, log);
    PublishesAs(m, AnchorOf(m.file), Chain(m.file), stage);
  }

  /** Events one after another from a given state. */
  function After(s: System, events: seq<Event>): System {
    if events == [] then s else Next(After(s, Init(events)), Last(events))
  }

  lemma AfterOne(s: System, events: seq<Event>, e: Event, t: System)
    requires Next(After(s, events), e) == t
    ensures After(s, events + [e]) == t
  {
    SnocParts(events, e);
  }

  lemma AfterTwo(s: System, first: Event, m: System, second: Event, t: System)
    requires Next(s, first) == m && Next(m, second) == t
    ensures After(s, [first] + [second]) == t
  {
    hide Next;
    assert After(s, []) == s;
    AfterOne(s, [], first, m);
    assert [] + [first] == [first];
    AfterOne(s, [first], second, t);
  }

  predicate Publishing(stage: Stage) {
    stage.HeaderWritten? || stage.Written? || stage.Closing?
  }

  predicate Internal(e: Event) {
    !e.Replace? && !e.Start? && !e.Crash?
  }

  lemma Dispatch(s: System, e: Event)
    requires s.run.Some? && Internal(e)
    ensures s.run.value.stage.Between? ==> Next(s, e) == BetweenStep(s, e)
    ensures s.run.value.stage.Armed? ==> Next(s, e) == ArmedStep(s, e)
    ensures s.run.value.stage.Planned? ==> Next(s, e) == WriteStep(s, e)
    ensures e.PublishAnchor? && Publishing(s.run.value.stage) ==> Next(s, e) == PublishStep(s)
  {
  }

  lemma ReserveAppends(s: System, i: nat, r: Record)
    requires s.run.Some? && s.run.value.stage == Between(i) && HighWaterMatches(s.file, s.anchors)
    requires var x := s.run.value;
             i < |x.plan.calls| && ReserveCall(s.file, x.a, x.plan.planId, x.plan.calls[i]) == Some(r)
    ensures BetweenStep(s, ReserveNext) == Continue(s, Written(i)).(file := s.file + [r])
  {
  }

  lemma ReturnAppends(s: System, i: nat, evidence: string, r: Record)
    requires s.run.Some? && s.run.value.stage == Armed(i, true, 0) && HighWaterMatches(s.file, s.anchors)
    requires var x := s.run.value;
             i < |x.plan.calls| &&
             FinishCall(s.file, x.a, x.plan.planId, x.plan.calls[i], Checkpointed, Some(evidence), None) == Some(r)
    ensures ArmedStep(s, Return(evidence)) == Continue(s, Closing(i, false)).(file := s.file + [r])
  {
  }

  /** Whenever the reservation writer accepts the next call, the execution reserves and publishes it. */
  lemma CallOpens(s: System, i: nat, r: Record) returns (t: System)
    requires s.run.Some? && s.run.value.stage == Between(i) && Ready(s.run.value.a, s.run.value.plan, s.file, s.anchors)
    requires var x := s.run.value;
             i < |x.plan.calls| && ReserveCall(s.file, x.a, x.plan.planId, x.plan.calls[i]) == Some(r)
    ensures t == After(s, [ReserveNext] + [PublishAnchor])
    ensures At(t, s.run.value, Armed(i, false, 0), s.file + [r], s.admitted, s.sent)
    ensures Ready(s.run.value.a, s.run.value.plan, t.file, t.anchors)
  {
    hide Next, After, BetweenStep, PublishStep, ReserveCall, Accepts, HighWaterMatches;
    var x := s.run.value;
    ReadyMatches(x, s.file, s.anchors);
    ReserveAppends(s, i, r);
    Dispatch(s, ReserveNext);
    var m := Continue(s, Written(i)).(file := s.file + [r]);
    ReservedRecord(x, s.file, x.plan.calls[i]);
    AheadThenReady(x, s.file, r);
    PublishMoves(m, s.file, Armed(i, false, 0));
    t := PublishStep(m);
    Dispatch(m, PublishAnchor);
    AfterTwo(s, ReserveNext, m, PublishAnchor, t);
  }

  lemma AcquireAdmits(s: System, i: nat)
    requires s.run.Some? && s.run.value.stage == Armed(i, false, 0) && i < |s.run.value.plan.calls|
    ensures var x := s.run.value; var k := Key(x.a, x.plan.calls[i].callId);
            ArmedStep(s, Acquire(x.plan.calls[i].endpoint))
            == Continue(s, Armed(i, true, 1)).(admitted := s.admitted + [k])
  {
  }

  lemma SendSends(s: System, i: nat)
    requires s.run.Some? && s.run.value.stage == Armed(i, true, 1) && i < |s.run.value.plan.calls|
    ensures var x := s.run.value;
            ArmedStep(s, Send) == Continue(s, Armed(i, true, 0)).(sent := s.sent + [Key(x.a, x.plan.calls[i].callId)])
  {
  }

  /** The armed call is admitted once and sent once. */
  lemma CallIsSent(s: System, i: nat) returns (t: System)
    requires s.run.Some? && s.run.value.stage == Armed(i, false, 0) && i < |s.run.value.plan.calls|
    ensures t == After(s, [Acquire(s.run.value.plan.calls[i].endpoint)] + [Send])
    ensures var x := s.run.value; var k := Key(x.a, x.plan.calls[i].callId);
            At(t, x, Armed(i, true, 0), s.file, s.admitted + [k], s.sent + [k]) && t.anchors == s.anchors
  {
    hide Next, After, ArmedStep;
    var e := Acquire(s.run.value.plan.calls[i].endpoint);
    Dispatch(s, e);
    AcquireAdmits(s, i);
    var m := ArmedStep(s, e);
    Dispatch(m, Send);
    SendSends(m, i);
    t := ArmedStep(m, Send);
    AfterTwo(s, e, m, Send, t);
  }

  /** An admitted call whose evidence came back is checkpointed and published, and the next one may begin. */
  lemma CallCloses(s: System, i: nat, evidence: string, r: Record) returns (t: System)
    requires s.run.Some? && s.run.value.stage == Armed(i, true, 0)
    requires Ready(s.run.value.a, s.run.value.plan, s.file, s.anchors)
    requires var x := s.run.value;
             i < |x.plan.calls| && ValidCall(x.plan.calls[i]) &&
             FinishCall(s.file, x.a, x.plan.planId, x.plan.calls[i], Checkpointed, Some(evidence), None) == Some(r)
    ensures t == After(s, [Return(evidence)] + [PublishAnchor])
    ensures At(t, s.run.value, Between(i + 1), s.file + [r], s.admitted, s.sent)
    ensures Ready(s.run.value.a, s.run.value.plan, t.file, t.anchors)
  {
    hide Next, After, ArmedStep, FinishCall, HighWaterMatches;
    var x := s.run.value;
    ReadyMatches(x, s.file, s.anchors);
    ReturnAppends(s, i, evidence, r);
    Dispatch(s, Return(evidence));
    FinishedRecord(x, s.file, x.plan.calls[i], Checkpointed, Some(evidence), None);
    var m := Continue(s, Closing(i, false)).(file := s.file + [r]);
    t := Published(s, m, x, i, r);
    AfterTwo(s, Return(evidence), m, PublishAnchor, t);
  }

  lemma Published(s: System, m: System, x: Execution, i: nat, r: Record) returns (t: System)
    requires s.run == Some(x) && Ready(x.a, x.plan, s.file, s.anchors)
    requires m == Continue(s, Closing(i, false)).(file := s.file + [r])
    requires Accepts(s.file + [r]) && r.authId == x.a && r.campaignId == CampaignDigest(x.plan.scope)
    ensures t == Next(m, PublishAnchor)
    ensures At(t, x, Between(i + 1), s.file + [r], s.admitted, s.sent)
    ensures Ready(x.a, x.plan, t.file, t.anchors)
  {
    AheadThenReady(x, s.file, r);
    PublishMoves(m, s.file, Between(i + 1));
    Dispatch(m, PublishAnchor);
    t := PublishStep(m);
  }

  lemma {:induction false} AfterJoin(s: System, first: seq<Event>, second: seq<Event>)
    ensures After(s, first + second) == After(After(s, first), second)
  {
    if second == [] {
      assert first + second == first;
    } else {
      AfterJoin(s, first, Init(second));
      assert Init(first + second) == first + Init(second);
    }
  }

  lemma ThreePhases(s: System, e1: seq<Event>, e2: seq<Event>, e3: seq<Event>)
    ensures After(s, e1 + e2 + e3) == After(After(After(s, e1), e2), e3)
  {
    AfterJoin(s, e1, e2);
    AfterJoin(s, e1 + e2, e3);
  }

  // ---- the budget suffices for the rest of the plan ----

  /** Before call `i` of a plan: its header is in the journal, nothing from `i` on has been attempted, the
      action pages before `i` have, and the campaign still has room for the calls that are left. */
  ghost predicate OnCourse(a: AuthorizationId, plan: Plan, v: Counters, i: nat) {
    && a in v.headers
    && var h := v.headers[a]; var calls := plan.calls;
       && h.planId == plan.planId && h.calls == calls && h.scope == plan.scope && HeaderWellFormed(h)
       && a in v.lastPositions && v.lastPositions[a] < i <= |calls|
       && a in v.attemptCounts && v.attemptCounts[a] <= i
       && EarlierActions(calls, i) <= AttemptedIds(v.attempts, a)
       && Get(v.reservedCalls, h.campaignId, 0) + |calls| - i <= Get(v.authorizedCalls, h.campaignId, 0)
  }

  /** On course, the next reservation is accepted. */
  lemma ReserveGranted(x: Execution, rs: seq<Record>, i: nat)
    requires Accepts(rs) && OnCourse(x.a, x.plan, Run(rs).value, i) && i < |x.plan.calls|
    ensures ReserveCall(rs, x.a, x.plan.planId, x.plan.calls[i]).Some?
  {
    var v, call := Run(rs).value, x.plan.calls[i];
    var h := v.headers[x.a];
    var attempts := PlanAttempts(rs, x.a, x.plan.planId);
    HeadersTracked(rs, x.a, x.plan.planId);
    IndexOfUnique(h.calls, i);
    AttemptsTracked(rs, x.a);
    AttemptsBefore(attempts, h, i);
    CampaignStateAgrees(rs, h.scope);
    GrantedWhen(rs, x.a, x.plan.planId, call, h, i);
  }

  lemma AttemptsBefore(attempts: seq<Record>, h: Header, i: nat)
    requires AttemptsFollowHeader(attempts, h) && LastPosition(attempts, h) < i
    ensures forall k :: 0 <= k < |attempts| ==> IndexOf(h.calls, attempts[k].callId) < i
  {
    forall k | 0 <= k < |attempts| ensures IndexOf(h.calls, attempts[k].callId) < i {
      assert k < |attempts| - 1 ==>
          IndexOf(h.calls, attempts[k].callId) < IndexOf(h.calls, attempts[|attempts| - 1].callId);
    }
  }

  lemma GrantedWhen(rs: seq<Record>, a: AuthorizationId, p: PlanId, call: Call, h: Header, i: nat)
    requires Accepts(rs) && PlanHeaders(rs, a, p) == [h] && i < |h.calls| && h.calls[i] == call
    requires IndexOf(h.calls, call.callId) == i
    requires var attempts := PlanAttempts(rs, a, p);
             && (forall k :: 0 <= k < |attempts| ==> IndexOf(h.calls, attempts[k].callId) < i)
             && EarlierActions(h.calls, i) <= (set k | 0 <= k < |attempts| :: attempts[k].callId)
             && |attempts| < h.maxCalls
    requires CampaignStateOf(rs, h.scope).Some?
    requires CampaignStateOf(rs, h.scope).value.reservedCalls < CampaignStateOf(rs, h.scope).value.authorizedCalls
    ensures ReserveCall(rs, a, p, call).Some?
  {
  }

  /** A reservation, a skip, an outcome and the header each keep the execution on course. */
  lemma AttemptAdvances(x: Execution, v: Counters, r: Record, i: nat)
    requires OnCourse(x.a, x.plan, v, i) && i < |x.plan.calls| && r.Attempt? && AttemptOk(v, r)
    requires r.authId == x.a && r.callId == x.plan.calls[i].callId
    ensures OnCourse(x.a, x.plan, Advance(v, r), i + 1)
  {
    var w := Advance(v, r);
    IndexOfUnique(x.plan.calls, i);
    assert Key(x.a, r.callId) in w.attempts;
    forall id | id in EarlierActions(x.plan.calls, i + 1) ensures id in AttemptedIds(w.attempts, x.a) {
      if id != r.callId {
        var k :| 0 <= k < i + 1 && IsAction(x.plan.calls[k].kind) && x.plan.calls[k].callId == id;
        assert id in EarlierActions(x.plan.calls, i);
        assert Key(x.a, id) in v.attempts;
      }
    }
  }

  lemma SkipAdvances(x: Execution, v: Counters, i: nat)
    requires OnCourse(x.a, x.plan, v, i) && i < |x.plan.calls| && x.plan.calls[i].kind.OpenClose?
    ensures OnCourse(x.a, x.plan, v, i + 1)
  {
    assert EarlierActions(x.plan.calls, i + 1) == EarlierActions(x.plan.calls, i);
  }

  lemma OutcomeAdvances(x: Execution, v: Counters, r: Record, i: nat)
    requires OnCourse(x.a, x.plan, v, i) && r.Outcome? && OutcomeOk(v, r)
    ensures OnCourse(x.a, x.plan, Advance(v, r), i)
  {
  }

  lemma HeaderAdvances(x: Execution, v: Counters, r: Header)
    requires AuthorizationOk(v, r) && r.authId == x.a
    requires r.planId == x.plan.planId && r.calls == x.plan.calls && r.scope == x.plan.scope
    ensures OnCourse(x.a, x.plan, Advance(v, r), 0)
  {
    assert EarlierActions(x.plan.calls, 0) == {};
  }

  /** The records of one completed call leave the execution on course for the next. */
  lemma CallAdvances(x: Execution, rs: seq<Record>, r: Record, q: Record, i: nat)
    requires Accepts(rs) && OnCourse(x.a, x.plan, Run(rs).value, i) && i < |x.plan.calls|
    requires Accepts(rs + [r]) && r.Attempt? && r.authId == x.a && r.callId == x.plan.calls[i].callId
    requires Accepts(rs + [r] + [q]) && q.Outcome?
    ensures OnCourse(x.a, x.plan, Run(rs + [r] + [q]).value, i + 1)
  {
    AcceptsSnoc(rs, r);
    AttemptAdvances(x, Run(rs).value, r, i);
    AcceptsSnoc(rs + [r], q);
    OutcomeAdvances(x, Run(rs + [r]).value, q, i + 1);
  }

  /** Call `i` of an execution on course: six events reserve it, publish, send it exactly once, checkpoint it
      and publish again, and leave the execution on course for call `i + 1`. */
  lemma CallCompletes(s: System, i: nat, evidence: string) returns (events: seq<Event>, t: System)
    requires s.run.Some? && s.run.value.stage == Between(i) && Ready(s.run.value.a, s.run.value.plan, s.file, s.anchors)
    requires OnCourse(s.run.value.a, s.run.value.plan, Run(s.file).value, i) && i < |s.run.value.plan.calls|
    ensures |events| == 6 && Undisturbed(events) && t == After(s, events)
    ensures var x := s.run.value; var k := Key(x.a, x.plan.calls[i].callId);
            && t.run == Some(x.(stage := Between(i + 1))) && t.sent == s.sent + [k] && |t.file| == |s.file| + 2
            && Ready(x.a, x.plan, t.file, t.anchors) && OnCourse(x.a, x.plan, Run(t.file).value, i + 1)
  {
    var x := s.run.value;
    var call := x.plan.calls[i];
    ReserveGranted(x, s.file, i);
    var r := ReserveCall(s.file, x.a, x.plan.planId, call).value;
    ReservedRecord(x, s.file, call);
    ReservedCanFinish(x, s.file, call, evidence);
    var q := FinishCall(s.file + [r], x.a, x.plan.planId, call, Checkpointed, Some(evidence), None).value;
    FinishedRecord(x, s.file + [r], call, Checkpointed, Some(evidence), None);
    events, t := CallPhases(s, i, evidence, r, q);
    CallAdvances(x, s.file, r, q, i);
  }

  lemma CallPhases(s: System, i: nat, evidence: string, r: Record, q: Record) returns (events: seq<Event>, t: System)
    requires s.run.Some? && s.run.value.stage == Between(i) && Ready(s.run.value.a, s.run.value.plan, s.file, s.anchors)
    requires i < |s.run.value.plan.calls| && ValidCall(s.run.value.plan.calls[i])
    requires var x := s.run.value; var call := x.plan.calls[i];
             && ReserveCall(s.file, x.a, x.plan.planId, call) == Some(r)
             && FinishCall(s.file + [r], x.a, x.plan.planId, call, Checkpointed, Some(evidence), None) == Some(q)
    ensures |events| == 6 && Undisturbed(events) && t == After(s, events)
    ensures var x := s.run.value; var k := Key(x.a, x.plan.calls[i].callId);
            && At(t, x, Between(i + 1), s.file + [r] + [q], s.admitted + [k], s.sent + [k])
            && Ready(x.a, x.plan, t.file, t.anchors)
  {
    hide Next, After, Ready, Accepts, Run, ReserveCall, FinishCall;
    var call := s.run.value.plan.calls[i];
    var u := CallOpens(s, i, r);
    var v := CallIsSent(u, i);
    t := CallCloses(v, i, evidence, q);
    var e1, e2, e3 := [ReserveNext] + [PublishAnchor], [Acquire(call.endpoint)] + [Send],
                      [Return(evidence)] + [PublishAnchor];
    ThreePhases(s, e1, e2, e3);
    events := e1 + e2 + e3;
  }

  // ---- a whole execution ----

  /** With the maximum and the budget delta the plan shows, and a fresh identity, authorization succeeds. */
  lemma BeginGranted(rs: seq<Record>, a: AuthorizationId, plan: Plan)
    requires Accepts(rs) && ValidScope(plan.scope) && 1 <= |plan.calls| <= MAX_AUTHORIZED_CALLS
    requires forall i :: 0 <= i < |rs| ==> rs[i].authId != a
    requires CampaignStateOf(rs, plan.scope) == Some(plan.campaign) && !plan.campaign.BudgetBlocked(|plan.calls|)
    ensures var r := BeginAuthorization(rs, a, plan, |plan.calls|, plan.campaign.RequiredDelta(|plan.calls|));
            r.Some? && r.value.planId == plan.planId
  {
    CampaignStateAgrees(rs, plan.scope);
  }

  /** The header record starts the execution's course. */
  lemma HeaderOnCourse(x: Execution, rs: seq<Record>, r: Record)
    requires PlanOk(x.plan) && BeginAuthorization(rs, x.a, x.plan, x.maxCalls, x.delta) == Some(r)
    ensures Accepts(rs) && Accepts(rs + [r]) && r.Authorization? && r.authId == x.a
    ensures r.campaignId == CampaignDigest(x.plan.scope) && OnCourse(x.a, x.plan, Run(rs + [r]).value, 0)
  {
    BeginAccepted(rs, x.a, x.plan, x.maxCalls, x.delta);
    BeginGives(rs, x.a, x.plan, x.maxCalls, x.delta);
    BeginPlan(rs, x.a, x.plan, x.maxCalls, x.delta);
    AcceptsSnoc(rs, r);
    HeaderAdvances(x, Run(rs).value, r);
  }

  lemma BeginPlan(rs: seq<Record>, a: AuthorizationId, plan: Plan, maxCalls: int, delta: int)
    requires BeginAuthorization(rs, a, plan, maxCalls, delta).Some?
    ensures BeginAuthorization(rs, a, plan, maxCalls, delta).value.planId == plan.planId
  {
  }

  lemma HeaderAppends(s: System, r: Record)
    requires s.run.Some? && s.run.value.stage == Planned && HighWaterMatches(s.file, s.anchors)
    requires var x := s.run.value; BeginAuthorization(s.file, x.a, x.plan, x.maxCalls, x.delta) == Some(r)
    ensures WriteStep(s, WriteHeader) == Continue(s, HeaderWritten).(file := s.file + [r])
  {
  }

  /** The header record just appended: published, it opens the loop over the calls. */
  lemma HeaderReady(x: Execution, file: seq<Record>, r: Record)
    requires Accepts(file) && Accepts(file + [r]) && OnCourse(x.a, x.plan, Run(file + [r]).value, 0)
    requires r.authId == x.a && r.campaignId == CampaignDigest(x.plan.scope)
    ensures OneAhead(x, file + [r], file) && Ready(x.a, x.plan, file + [r], Chain(file + [r]))
  {
    SnocParts(file, r);
  }

  /** A planned execution over the published journal writes its header and publishes it. */
  lemma HeaderOpens(s: System, r: Record) returns (t: System)
    requires s.run.Some? && s.run.value.stage == Planned && PlanOk(s.run.value.plan)
    requires Accepts(s.file) && s.anchors == Chain(s.file)
    requires var x := s.run.value; BeginAuthorization(s.file, x.a, x.plan, x.maxCalls, x.delta) == Some(r)
    ensures t == After(s, [WriteHeader] + [PublishAnchor])
    ensures At(t, s.run.value, Between(0), s.file + [r], s.admitted, s.sent)
    ensures Ready(s.run.value.a, s.run.value.plan, t.file, t.anchors)
    ensures OnCourse(s.run.value.a, s.run.value.plan, Run(t.file).value, 0)
  {
    hide Next, After, WriteStep, PublishStep, BeginAuthorization, OnCourse;
    var x := s.run.value;
    HeadIdentifies(s.file, s.file);
    HeaderAppends(s, r);
    Dispatch(s, WriteHeader);
    var m := Continue(s, HeaderWritten).(file := s.file + [r]);
    HeaderOnCourse(x, s.file, r);
    HeaderReady(x, s.file, r);
    PublishMoves(m, s.file, Between(0));
    t := PublishStep(m);
    Dispatch(m, PublishAnchor);
    AfterTwo(s, WriteHeader, m, PublishAnchor, t);
  }

  /** The keys of the calls from `i` on that are not skipped. */
  function KeysFrom(a: AuthorizationId, plan: Plan, skips: seq<bool>, i: nat): seq<Key>
    requires |skips| == |plan.calls| && i <= |skips|
    decreases |skips| - i
  {
    if i == |skips| then []
    else (if skips[i] then [] else [Key(a, plan.calls[i].callId)]) + KeysFrom(a, plan, skips, i + 1)
  }

  /** Price calls whose evidence has appeared meanwhile may be skipped. */
  predicate SkipsOk(plan: Plan, skips: seq<bool>) {
    |skips| == |plan.calls| && forall i :: 0 <= i < |skips| && skips[i] ==> plan.calls[i].kind.OpenClose?
  }

  lemma SkipMoves(s: System, i: nat) returns (t: System)
    requires s.run.Some? && s.run.value.stage == Between(i) && i < |s.run.value.plan.calls|
    requires s.run.value.plan.calls[i].kind.OpenClose?
    ensures t == After(s, [SkipCovered])
    ensures At(t, s.run.value, Between(i + 1), s.file, s.admitted, s.sent) && t.anchors == s.anchors
  {
    Dispatch(s, SkipCovered);
    t := BetweenStep(s, SkipCovered);
    AfterOne(s, [], SkipCovered, t);
    assert [] + [SkipCovered] == [SkipCovered];
  }

  /** Undisturbed: no crash, no other execution, no replaced file in between. */
  ghost predicate Reaches(s: System, t: System) {
    exists events :: Undisturbed(events) && After(s, events) == t
  }

  predicate Undisturbed(events: seq<Event>) {
    forall i :: 0 <= i < |events| ==> Internal(events[i])
  }

  lemma ReachesBy(s: System, events: seq<Event>)
    requires Undisturbed(events)
    ensures Reaches(s, After(s, events))
  {
  }

  lemma ReachesJoin(s: System, u: System, t: System)
    requires Reaches(s, u) && Reaches(u, t)
    ensures Reaches(s, t)
  {
    var first :| Undisturbed(first) && After(s, first) == u;
    var second :| Undisturbed(second) && After(u, second) == t;
    AfterJoin(s, first, second);
    ReachesBy(s, first + second);
  }

  lemma ReachesSelf(s: System)
    ensures Reaches(s, s)
  {
    ReachesBy(s, []);
  }

  /** Execution `x` before its call `i`, ready and on course. */
  ghost predicate Going(s: System, x: Execution, i: nat) {
    && s.run == Some(x.(stage := Between(i)))
    && Ready(x.a, x.plan, s.file, s.anchors)
    && OnCourse(x.a, x.plan, Run(s.file).value, i)
  }

  /** From any call on, whichever covered prices are skipped, an undisturbed execution finishes its plan and
      sends exactly the other calls, in plan order, once each. */
  lemma {:induction false} CallsComplete(s: System, x: Execution, i: nat, skips: seq<bool>, evidence: string)
    returns (t: System)
    requires Going(s, x, i) && SkipsOk(x.plan, skips)
    ensures Reaches(s, t) && Going(t, x, |x.plan.calls|)
    ensures i <= |skips| && t.sent == s.sent + KeysFrom(x.a, x.plan, skips, i)
    decreases |skips| - i
  {
    hide Going, Reaches;
    CourseInside(s, x, i);
    if i == |skips| {
      ReachesSelf(s);
      t := s;
      assert s.sent + [] == s.sent;
    } else {
      var u := OneCall(s, x, i, skips[i], evidence);
      t := CallsComplete(u, x, i + 1, skips, evidence);
      ReachesJoin(s, u, t);
      KeysStep(x.a, x.plan, skips, i, s.sent, u.sent);
    }
  }

  lemma CourseInside(s: System, x: Execution, i: nat)
    requires Going(s, x, i)
    ensures i <= |x.plan.calls|
  {
  }

  lemma KeysStep(a: AuthorizationId, plan: Plan, skips: seq<bool>, i: nat, before: seq<Key>, after: seq<Key>)
    requires |skips| == |plan.calls| && i < |skips|
    requires after == before + (if skips[i] then [] else [Key(a, plan.calls[i].callId)])
    ensures after + KeysFrom(a, plan, skips, i + 1) == before + KeysFrom(a, plan, skips, i)
  {
    Regroup(before, if skips[i] then [] else [Key(a, plan.calls[i].callId)], KeysFrom(a, plan, skips, i + 1));
  }

  lemma Regroup<T>(xs: seq<T>, ys: seq<T>, zs: seq<T>)
    ensures (xs + ys) + zs == xs + (ys + zs)
  {
  }

  /** One call, skipped or completed. */
  lemma OneCall(s: System, x: Execution, i: nat, skip: bool, evidence: string) returns (t: System)
    requires Going(s, x, i) && i < |x.plan.calls| && (skip ==> x.plan.calls[i].kind.OpenClose?)
    ensures Reaches(s, t) && Going(t, x, i + 1)
    ensures t.sent == s.sent + (if skip then [] else [Key(x.a, x.plan.calls[i].callId)])
  {
    var events: seq<Event>;
    if skip {
      events := [SkipCovered];
      t := SkipMoves(s, i);
      SkipAdvances(x, Run(s.file).value, i);
    } else {
      events, t := CallCompletes(s, i, evidence);
    }
    ReachesBy(s, events);
  }

  /** What planning leaves: a valid plan over the campaign state of the unchanged journal. */
  lemma StartGives(s: System, e: Event)
    requires e.Start? && s.run.None? && StartRun(s, e).run.Some?
    ensures var x := StartRun(s, e).run.value; var plan := x.plan;
            && StartRun(s, e) == s.(run := Some(x)) && x == Execution(e.a, plan, e.maxCalls, e.delta, Planned)
            && PlanOk(plan) && ValidScope(plan.scope) && plan.calls != []
            && CampaignStateOf(s.file, plan.scope) == Some(plan.campaign)
            && !plan.campaign.BudgetBlocked(|plan.calls|)
            && HighWaterMatches(s.file, s.anchors)
  {
    PlannedCallsOk(e.scope, e.covered, e.needSplit, e.needDividend);
  }

  lemma StartIsNext(s: System, e: Event)
    requires e.Start?
    ensures Next(s, e) == StartRun(s, e)
  {
  }

  /** In every reachable state where nothing runs: if planning starts an execution under a fresh identity,
      with the maximum and the delta its plan shows, then, left undisturbed, it authorizes, works through
      its whole plan, and sends exactly the planned calls, in order, save the covered prices it skips. */
  lemma ExecutionCompletes(s: System, e: Event, skips: seq<bool>, evidence: string) returns (t: System)
    requires Inv(s) && s.run.None? && e.Start? && StartRun(s, e).run.Some?
    requires forall i :: 0 <= i < |s.file| ==> s.file[i].authId != e.a
    requires var plan := StartRun(s, e).run.value.plan;
             && e.maxCalls == |plan.calls| <= MAX_AUTHORIZED_CALLS
             && e.delta == plan.campaign.RequiredDelta(|plan.calls|) && SkipsOk(plan, skips)
    ensures Reaches(Next(s, e), t)
    ensures var plan := StartRun(s, e).run.value.plan;
            && t.run == Some(Execution(e.a, plan, e.maxCalls, e.delta, Between(|plan.calls|)))
            && t.sent == s.sent + KeysFrom(e.a, plan, skips, 0)
            && Accepts(t.file) && t.anchors == Chain(t.file)
  {
    hide Next, StartRun, After, Reaches, Accepts, Run, BeginAuthorization;
    var u := StartRun(s, e);
    var plan := u.run.value.plan;
    StartGives(s, e);
    StartIsNext(s, e);
    HeadIdentifies(Log(s), s.file);
    BeginGranted(s.file, e.a, plan);
    var r := BeginAuthorization(s.file, e.a, plan, e.maxCalls, e.delta).value;
    var v := HeaderOpens(u, r);
    ReachesBy(u, [WriteHeader] + [PublishAnchor]);
    t := CallsComplete(v, u.run.value, 0, skips, evidence);
    ReachesJoin(u, v, t);
  }
}
