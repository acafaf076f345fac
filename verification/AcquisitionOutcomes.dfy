/** How reserved calls end: which outcomes can be written, that every armed call can be closed whatever
    happened to its request, and what an execution has behind it at every step. */
module AcquisitionOutcomes {
  import opened Common
  import opened LedgerRecords
  import opened LedgerValidator
  import opened LedgerWriters
  import opened CampaignAnchors
  import opened AcquisitionProtocol
  import opened AcquisitionProgress

  // ---- which outcomes are written and accepted ----

  /** A reservation of an authorized plan's call that has no outcome yet. */
  ghost predicate Open(rs: seq<Record>, a: AuthorizationId, p: PlanId, id: CallId)
    requires Accepts(rs)
  {
    && a in Run(rs).value.headers && Run(rs).value.headers[a].planId == p
    && (exists i :: 0 <= i < |rs| && rs[i].Attempt? && rs[i].authId == a && rs[i].callId == id)
    && (forall i :: 0 <= i < |rs| && rs[i].Outcome? ==> rs[i].authId != a || rs[i].callId != id)
  }

  lemma OpenKeys(rs: seq<Record>, a: AuthorizationId, p: PlanId, id: CallId)
    requires Accepts(rs)
    ensures Open(rs, a, p, id) <==>
              && a in Run(rs).value.headers && Run(rs).value.headers[a].planId == p
              && Key(a, id) in AttemptKeys(rs) && Key(a, id) !in OutcomeKeys(rs)
  {
    hide Run;
  }

  /** An outcome can be written exactly for an open reservation, and exactly as a checkpoint with evidence and no
      failure, or as one of the two failures with its type and no evidence; the record says just that. */
  lemma FinishIff(rs: seq<Record>, a: AuthorizationId, p: PlanId, call: Call,
                  status: Status, evidence: Option<string>, failure: Option<string>)
    requires Accepts(rs)
    ensures var written := FinishCall(rs, a, p, call, status, evidence, failure);
            && (written.Some? <==>
                  && Open(rs, a, p, call.callId)
                  && (|| (status == Checkpointed && evidence.Some? && failure.None?)
                      || (status == FailedBeforeAdmission && evidence.None? && failure.Some?)
                      || (status == FailedAfterAdmission && evidence.None? && failure.Some?)))
            && (written.Some? ==>
                  written.value == Outcome(a, p, Run(rs).value.headers[a].campaignId, call.callId, call.kind,
                                           status, evidence, failure))
  {
    hide Run, AttemptKeys, OutcomeKeys, MatchingAttempts, MatchingOutcomes, PlanHeaders, Open;
    OpenKeys(rs, a, p, call.callId);
    HeadersTracked(rs, a, p);
    KeysTracked(rs);
    if a in Run(rs).value.headers && Run(rs).value.headers[a].planId == p {
      MatchingCounts(rs, a, call.callId);
    }
  }

  /** And the validator accepts exactly those outcomes, of one of the header's own calls. */
  lemma OutcomeAcceptedIff(rs: seq<Record>, r: Record)
    requires Accepts(rs) && r.Outcome?
    ensures Accepts(rs + [r]) <==>
              && Open(rs, r.authId, r.planId, r.callId)
              && var h := Run(rs).value.headers[r.authId];
                 && r.campaignId == h.campaignId
                 && (exists i :: 0 <= i < |h.calls| && h.calls[i].callId == r.callId && h.calls[i].kind == r.callKind)
                 && (|| (r.status == Checkpointed && r.evidence.Some? && r.failure.None?)
                     || (r.status == FailedBeforeAdmission && r.evidence.None? && r.failure.Some?)
                     || (r.status == FailedAfterAdmission && r.evidence.None? && r.failure.Some?))
  {
    hide Run, AttemptKeys, OutcomeKeys, Open, PlanHeaders;
    AcceptsSnoc(rs, r);
    OpenKeys(rs, r.authId, r.planId, r.callId);
    KeysTracked(rs);
    HeadersTracked(rs, r.authId, r.planId);
    if r.authId in Run(rs).value.headers {
      var calls := Run(rs).value.headers[r.authId].calls;
      if i :| 0 <= i < |calls| && calls[i].callId == r.callId && calls[i].kind == r.callKind {
        IndexOfUnique(calls, i);
      }
    }
  }

  // ---- what a header says ----

  lemma {:induction false} KindCounts(calls: seq<Call>)
    ensures CountKind(calls, SplitPage) + CountKind(calls, DividendPage) + CountKind(calls, OpenClose) == |calls|
  {
    if calls != [] {
      KindCounts(calls[1..]);
    }
  }

  lemma {:induction false} KindCount(calls: seq<Call>, kind: CallKind)
    requires forall i, j :: 0 <= i < j < |calls| ==> !(calls[i].kind == kind && calls[j].kind == kind)
    ensures CountKind(calls, kind) == if exists i :: 0 <= i < |calls| && calls[i].kind == kind then 1 else 0
  {
    if calls != [] {
      KindCount(calls[1..], kind);
      assert forall i :: 0 <= i < |calls| - 1 ==> calls[1..][i] == calls[i + 1];
      if i :| 0 <= i < |calls| && calls[i].kind == kind {
        assert i == 0 || calls[1..][i - 1].kind == kind;
      }
    }
  }

  /** A call as its kind requires it. */
  ghost predicate ProperCall(c: Call) {
    && c.start <= c.end && c.callId == CallDigest(c.kind, c.endpoint, c.start, c.end)
    && (|| (c.kind == SplitPage && c.endpoint == SplitsEndpoint)
        || (c.kind == DividendPage && c.endpoint == DividendsEndpoint)
        || (c.kind == OpenClose && c.endpoint == OpenCloseEndpoint(c.start) && c.end == c.start))
  }

  /** Every header of an accepted journal, as written: its calls are proper, split page first, then dividend page,
      then sessions in order; its counts are those of its calls, its window that of its scope; and its campaign
      total covers what was reserved before and its own calls, within five of the base and within 264. */
  lemma HeaderMeans(rs: seq<Record>, k: nat)
    requires Accepts(rs) && k < |rs| && rs[k].Authorization?
    ensures var h: Header := rs[k]; var n := |h.calls|;
            && (forall i :: 0 <= i < n ==> ProperCall(h.calls[i]))
            && (forall i, j :: 0 <= i < j < n ==>
                  || (h.calls[i].kind == SplitPage && h.calls[j].kind != SplitPage)
                  || (h.calls[i].kind == DividendPage && h.calls[j].kind == OpenClose)
                  || (h.calls[i].kind == OpenClose && h.calls[j].kind == OpenClose
                      && h.calls[i].start < h.calls[j].start))
            && h.maxCalls == n <= 259 && 1 <= n
            && h.allocation.splitPages == (if exists i :: 0 <= i < n && h.calls[i].kind == SplitPage then 1 else 0)
            && h.allocation.dividendPages
               == (if exists i :: 0 <= i < n && h.calls[i].kind == DividendPage then 1 else 0)
            && h.allocation.splitPages + h.allocation.dividendPages + h.allocation.openCloses == n
            && h.scope.sessions != [] && h.campaignId == CampaignDigest(h.scope)
            && h.windowStart == h.scope.sessions[0] && h.windowEnd == h.scope.sessions[|h.scope.sessions| - 1]
            && (forall i :: 0 <= i < n ==> h.windowStart <= h.calls[i].start && h.calls[i].end <= h.windowEnd)
            && (forall i :: 0 <= i < n && h.calls[i].kind == OpenClose ==> h.calls[i].start in h.scope.sessions)
            && 0 <= h.budgetDelta && h.reservedBefore + n <= h.authorizedCalls
            && h.authorizedCalls <= h.baseCalls + 5 && h.authorizedCalls <= 264
  {
    hide Run;
    RecordAt(rs, k);
    var h: Header := rs[k];
    KindCounts(h.calls);
    KindCount(h.calls, SplitPage);
    KindCount(h.calls, DividendPage);
  }

  // ---- which failures a campaign lists ----

  ghost predicate FailureIn(rs: seq<Record>, c: CampaignId, i: nat, id: CallId) {
    i < |rs| && rs[i].Outcome? && rs[i].campaignId == c && rs[i].status == FailedAfterAdmission && rs[i].callId == id
  }

  lemma {:induction false} FailuresAre(rs: seq<Record>, c: CampaignId, id: CallId)
    ensures id in AdmittedFailures(rs, c) <==> exists i: nat :: FailureIn(rs, c, i, id)
  {
    if rs != [] {
      FailuresAre(Init(rs), c, id);
      InitLast(rs);
      if i: nat :| FailureIn(rs, c, i, id) {
        assert i == |rs| - 1 || FailureIn(Init(rs), c, i, id);
      }
      if i: nat :| FailureIn(Init(rs), c, i, id) {
        assert FailureIn(rs, c, i, id);
      }
      if AdmittedFailures(rs, c) != AdmittedFailures(Init(rs), c) && id == Last(rs).callId {
        assert FailureIn(rs, c, |rs| - 1, id);
      }
    }
  }

  lemma {:induction false} CampaignRecordsHave(rs: seq<Record>, c: CampaignId, i: nat)
    requires i < |rs| && rs[i].campaignId == c
    ensures rs[i] in CampaignRecords(rs, c)
  {
    InitLast(rs);
    if i < |rs| - 1 {
      CampaignRecordsHave(Init(rs), c, i);
    }
  }

  /** The campaign state lists exactly the calls that failed after the guard had admitted them. */
  lemma FailuresListed(rs: seq<Record>, scope: Scope, id: CallId)
    requires Accepts(rs)
    ensures CampaignStateOf(rs, scope).Some?
    ensures id in CampaignStateOf(rs, scope).value.failedAfterAdmission <==>
              exists i :: 0 <= i < |rs| && rs[i].Outcome? && rs[i].campaignId == CampaignDigest(scope)
                          && rs[i].status == FailedAfterAdmission && rs[i].callId == id
  {
    hide Run, Accepts;
    var c := CampaignDigest(scope);
    CampaignStateAgrees(rs, scope);
    FailuresAre(rs, c, id);
    if i: nat :| FailureIn(rs, c, i, id) {
      CampaignRecordsHave(rs, c, i);
      CampaignTracked(rs, c);
    }
    if i :| 0 <= i < |rs| && rs[i].Outcome? && rs[i].campaignId == c
            && rs[i].status == FailedAfterAdmission && rs[i].callId == id {
      assert FailureIn(rs, c, i, id);
    }
  }

  // ---- what an execution has behind it ----

  ghost predicate HeaderOf(x: Execution, h: Header) {
    h.planId == x.plan.planId && h.calls == x.plan.calls && h.scope == x.plan.scope
  }

  /** The published header is the plan's. */
  ghost predicate HeaderIs(x: Execution, log: seq<Record>)
    requires Accepts(log)
  {
    x.a in Run(log).value.headers && HeaderOf(x, Run(log).value.headers[x.a])
  }

  ghost predicate CheckpointFor(r: Record, k: Key) {
    r.Outcome? && r.status == Checkpointed && r.authId == k.authId && r.callId == k.callId
  }

  ghost predicate HasCheckpoint(log: seq<Record>, k: Key) {
    exists n :: 0 <= n < |log| && CheckpointFor(log[n], k)
  }

  /** Every action page before position `i` has its checkpoint published. */
  ghost predicate PagesDone(x: Execution, i: nat, log: seq<Record>) {
    && i <= |x.plan.calls|
    && forall j :: 0 <= j < i && !x.plan.calls[j].kind.OpenClose? ==>
         HasCheckpoint(log, Key(x.a, x.plan.calls[j].callId))
  }

  /** The outcome about to be published closes the execution's own call. */
  ghost predicate ClosesCall(x: Execution, i: nat, failed: bool, r: Record) {
    && i < |x.plan.calls| && r.Outcome? && r.authId == x.a && r.callId == x.plan.calls[i].callId
    && (failed || r.status == Checkpointed)
  }

  ghost predicate TraceOk(x: Execution, file: seq<Record>, log: seq<Record>)
    requires Accepts(log)
  {
    match x.stage
    case Planned => true
    case HeaderWritten => file != [] && Last(file).Authorization? && HeaderOf(x, Last(file))
    case Between(i) => HeaderIs(x, log) && PagesDone(x, i, log)
    case Written(i) => HeaderIs(x, log) && PagesDone(x, i, log)
    case Armed(i, _, _) => HeaderIs(x, log) && PagesDone(x, i, log)
    case Closing(i, failed) =>
      HeaderIs(x, log) && PagesDone(x, i, log) && file != [] && ClosesCall(x, i, failed, Last(file))
  }

  ghost predicate Traced(s: System)
    requires Accepts(Log(s))
  {
    s.run.Some? ==> TraceOk(s.run.value, s.file, Log(s))
  }

  lemma PagesStay(x: Execution, i: nat, log: seq<Record>, r: Record)
    requires PagesDone(x, i, log)
    ensures PagesDone(x, i, log + [r])
  {
    forall j | 0 <= j < i && !x.plan.calls[j].kind.OpenClose?
      ensures HasCheckpoint(log + [r], Key(x.a, x.plan.calls[j].callId))
    {
      var n :| 0 <= n < |log| && CheckpointFor(log[n], Key(x.a, x.plan.calls[j].callId));
      assert (log + [r])[n] == log[n];
    }
  }

  lemma HeaderIsStays(x: Execution, log: seq<Record>, r: Record)
    requires Accepts(log) && HeaderIs(x, log) && Accepts(log + [r])
    ensures HeaderIs(x, log + [r])
  {
    hide Run, Accepts;
    HeaderStays(log, r, x.a);
  }

  /** Publishing the one record ahead: the header, a reservation, or the outcome of the current call. */
  lemma PublishedTrace(x: Execution, log: seq<Record>, r: Record)
    requires Accepts(log) && Accepts(log + [r]) && r.authId == x.a && TraceOk(x, log + [r], log)
    requires x.stage.HeaderWritten? || x.stage.Written? || (x.stage.Closing? && !x.stage.failed)
    ensures TraceOk(x.(stage := PublishedOf(x.stage)), log + [r], log + [r])
  {
    hide Run, Accepts, HasCheckpoint;
    SnocParts(log, r);
    match x.stage {
      case HeaderWritten => HeaderPublishedNow(x, log, r);
      case Written(i) =>
        HeaderIsStays(x, log, r);
        PagesStay(x, i, log, r);
      case Closing(i, failed) =>
        HeaderIsStays(x, log, r);
        PagesStay(x, i, log, r);
        CheckpointNow(log, r, Key(x.a, x.plan.calls[i].callId));
    }
  }

  lemma HeaderPublishedNow(x: Execution, log: seq<Record>, r: Record)
    requires Accepts(log) && Accepts(log + [r]) && r.Authorization? && r.authId == x.a && HeaderOf(x, r)
    ensures HeaderIs(x, log + [r]) && PagesDone(x, 0, log + [r])
  {
    AcceptsSnoc(log, r);
  }

  lemma CheckpointNow(log: seq<Record>, r: Record, k: Key)
    requires CheckpointFor(r, k)
    ensures HasCheckpoint(log + [r], k)
  {
    assert (log + [r])[|log|] == r;
  }

  // ---- every step keeps the trace ----

  lemma SameLog(s: System, t: System)
    requires t.anchors == s.anchors
    ensures Log(t) == Log(s)
  {
  }

  lemma StartTraced(s: System, e: Event)
    requires Accepts(Log(s)) && Traced(s) && e.Start?
    ensures StartRun(s, e).anchors == s.anchors && Traced(StartRun(s, e))
  {
    SameLog(s, StartRun(s, e));
  }

  /** What is behind an execution does not depend on its stage. */
  lemma ParamsKept(x: Execution, stage: Stage, i: nat, log: seq<Record>)
    requires Accepts(log)
    ensures HeaderIs(x.(stage := stage), log) <==> HeaderIs(x, log)
    ensures PagesDone(x.(stage := stage), i, log) <==> PagesDone(x, i, log)
  {
  }

  lemma PricePassed(x: Execution, i: nat, log: seq<Record>)
    requires PagesDone(x, i, log) && i < |x.plan.calls| && x.plan.calls[i].kind.OpenClose?
    ensures PagesDone(x, i + 1, log)
  {
  }

  lemma BetweenTraced(s: System, e: Event)
    requires Accepts(Log(s)) && Traced(s) && s.run.Some? && s.run.value.stage.Between?
    ensures BetweenStep(s, e).anchors == s.anchors && Traced(BetweenStep(s, e))
  {
    hide HeaderIs, PagesDone, Accepts, ReserveCall, HighWaterMatches;
    var x, log, t := s.run.value, Log(s), BetweenStep(s, e);
    var i := x.stage.next;
    SameLog(s, t);
    if t.run.Some? {
      ParamsKept(x, t.run.value.stage, i, log);
      ParamsKept(x, t.run.value.stage, i + 1, log);
      if e.SkipCovered? {
        PricePassed(x, i, log);
      }
    }
  }

  lemma CloseTraced(s: System, i: nat, status: Status, evidence: Option<string>, failure: Option<string>)
    requires Accepts(Log(s)) && s.run.Some? && i < |s.run.value.plan.calls|
    requires HeaderIs(s.run.value, Log(s)) && PagesDone(s.run.value, i, Log(s))
    ensures var t := CloseStep(s, i, status, evidence, failure); t.anchors == s.anchors && Traced(t)
  {
    hide HeaderIs, PagesDone, Accepts;
    var t := CloseStep(s, i, status, evidence, failure);
    var x := s.run.value;
    var record := FinishCall(s.file, x.a, x.plan.planId, x.plan.calls[i], status, evidence, failure);
    if t.run.Some? {
      SnocParts(s.file, record.value);
      ParamsKept(x, Closing(i, !status.Checkpointed?), i, Log(s));
    }
    SameLog(s, t);
  }

  lemma ArmedTraced(s: System, e: Event)
    requires Accepts(Log(s)) && Traced(s) && s.run.Some? && s.run.value.stage.Armed?
    requires s.run.value.stage.next < |s.run.value.plan.calls|
    ensures ArmedStep(s, e).anchors == s.anchors && Traced(ArmedStep(s, e))
  {
    hide CloseStep, HeaderIs, PagesDone, Accepts;
    var x := s.run.value;
    var i := x.stage.next;
    match e {
      case Return(evidence) =>
        ReturnIsClose(s, evidence);
        if x.stage.acquired {
          CloseTraced(s, i, Checkpointed, Some(evidence), None);
        } else {
          CloseTraced(s, i, FailedBeforeAdmission, None, Some("AcquisitionRefused"));
        }
      case Raise(failure) =>
        RaiseIsClose(s, failure);
        CloseTraced(s, i, if x.stage.acquired then FailedAfterAdmission else FailedBeforeAdmission,
                    None, Some(failure));
      case _ =>
        SameLog(s, ArmedStep(s, e));
        forall stage ensures HeaderIs(x.(stage := stage), Log(s)) <==> HeaderIs(x, Log(s))
          ensures PagesDone(x.(stage := stage), i, Log(s)) <==> PagesDone(x, i, Log(s))
        {
          ParamsKept(x, stage, i, Log(s));
        }
    }
  }

  lemma HeaderTraced(s: System, e: Event)
    requires Accepts(Log(s)) && Traced(s) && s.run.Some? && s.run.value.stage.Planned?
    ensures WriteStep(s, e).anchors == s.anchors && Traced(WriteStep(s, e))
  {
    var x := s.run.value;
    SameLog(s, WriteStep(s, e));
    if e.WriteHeader? && BeginAuthorization(s.file, x.a, x.plan, x.maxCalls, x.delta).Some? {
      BeginGives(s.file, x.a, x.plan, x.maxCalls, x.delta);
      BeginPlan(s.file, x.a, x.plan, x.maxCalls, x.delta);
      SnocParts(s.file, BeginAuthorization(s.file, x.a, x.plan, x.maxCalls, x.delta).value);
    }
  }

  lemma PublishTraced(s: System)
    requires Inv(s) && Traced(s) && s.run.Some?
    requires var g := s.run.value.stage; g.HeaderWritten? || g.Written? || g.Closing?
    ensures Accepts(Log(PublishStep(s))) && Traced(PublishStep(s))
  {
    hide Run, Chain, AnchorOf, Publish, AnchorRequest, HeaderOf, HeaderIs, PagesDone, ClosesCall;
    hide NeverOverlaps, TrafficOk, NoneUnresolved, ArmedOk, OutcomeHonest, Accepts;
    var x, log := s.run.value, Log(s);
    PublishSucceeds(x, s.file, log);
    PublishResult(s, AnchorOf(s.file), Chain(s.file));
    assert Log(PublishStep(s)) == s.file;
    if PublishStep(s).run.Some? {
      PublishedTrace(x, log, Last(s.file));
    }
  }

  lemma StepTraced(s: System, e: Event)
    requires Inv(s) && Traced(s)
    ensures Accepts(Log(Next(s, e))) && Traced(Next(s, e))
  {
    hide TraceOk, BetweenStep, ArmedStep, WriteStep, StartRun, PublishStep, Accepts, NeverOverlaps, TrafficOk, Chain;
    if e.Replace? || (s.run.None? && !e.Start?) {
      SameLog(s, Next(s, e));
    } else if e.Start? {
      StartTraced(s, e);
    } else if e.Crash? {
      SameLog(s, Halt(s));
    } else if s.run.value.stage.Between? {
      BetweenTraced(s, e);
      SameLog(s, BetweenStep(s, e));
    } else if s.run.value.stage.Armed? {
      ArmedTraced(s, e);
      SameLog(s, ArmedStep(s, e));
    } else {
      WriteTraced(s, e);
    }
  }

  lemma WriteTraced(s: System, e: Event)
    requires Inv(s) && Traced(s) && s.run.Some? && !s.run.value.stage.Between? && !s.run.value.stage.Armed?
    ensures Accepts(Log(WriteStep(s, e))) && Traced(WriteStep(s, e))
  {
    hide TraceOk, PublishStep, Accepts, NeverOverlaps, TrafficOk, Chain, StageOk;
    if s.run.value.stage.Planned? {
      HeaderTraced(s, e);
      SameLog(s, WriteStep(s, e));
    } else if e.PublishAnchor? {
      PublishTraced(s);
    }
  }

  /** In every reachable state the running execution's trace is in the published log. */
  lemma {:induction false} ExecTraced(events: seq<Event>)
    ensures Inv(Exec(events)) && Traced(Exec(events))
  {
    hide Inv, TraceOk, Accepts;
    ExecKeeps(events);
    if events != [] {
      ExecTraced(Init(events));
      StepTraced(Exec(Init(events)), Last(events));
    }
  }

  /** An execution that has come as far as call `i` has published the checkpoint of every action page its plan
      lists before: only prices can be skipped, and nothing that failed is passed over. */
  lemma ActionPagesCheckpointed(events: seq<Event>, i: nat, j: nat)
    requires Exec(events).run.Some? && Exec(events).run.value.stage == Between(i) && j < i
    ensures var x := Exec(events).run.value;
            && i <= |x.plan.calls|
            && (x.plan.calls[j].kind == OpenClose
                || exists n :: 0 <= n < |Log(Exec(events))| && var r := Log(Exec(events))[n];
                     r.Outcome? && r.status == Checkpointed && r.authId == x.a && r.callId == x.plan.calls[j].callId)
  {
    hide Inv, Exec, Accepts;
    ExecTraced(events);
    var x, log := Exec(events).run.value, Log(Exec(events));
    if x.plan.calls[j].kind != OpenClose {
      assert HasCheckpoint(log, Key(x.a, x.plan.calls[j].callId));
      var n :| 0 <= n < |log| && CheckpointFor(log[n], Key(x.a, x.plan.calls[j].callId));
    }
  }

  // ---- closing an armed call ----

  /** The outcome that ends an armed call: evidence of an admitted request checkpoints it, and whatever else
      happens fails it, before admission if the guard admitted nothing and after admission otherwise. */
  function EndOf(x: Execution, i: nat, acquired: bool, e: Event): Record
    requires i < |x.plan.calls| && (e.Return? || e.Raise?)
  {
    var call := x.plan.calls[i];
    var c := CampaignDigest(x.plan.scope);
    if e.Return? && acquired then
      Outcome(x.a, x.plan.planId, c, call.callId, call.kind, Checkpointed, Some(e.evidence), None)
    else if e.Return? then
      Outcome(x.a, x.plan.planId, c, call.callId, call.kind, FailedBeforeAdmission, None, Some("AcquisitionRefused"))
    else if acquired then
      Outcome(x.a, x.plan.planId, c, call.callId, call.kind, FailedAfterAdmission, None, Some(e.failure))
    else
      Outcome(x.a, x.plan.planId, c, call.callId, call.kind, FailedBeforeAdmission, None, Some(e.failure))
  }

  lemma ArmedIsOpen(x: Execution, log: seq<Record>, i: nat)
    requires Accepts(log) && HeaderPublished(x, log) && HeaderIs(x, log) && i < |x.plan.calls|
    requires Key(x.a, x.plan.calls[i].callId) in AttemptKeys(log)
    requires Key(x.a, x.plan.calls[i].callId) !in OutcomeKeys(log)
    ensures Open(log, x.a, x.plan.planId, x.plan.calls[i].callId)
    ensures Run(log).value.headers[x.a].campaignId == CampaignDigest(x.plan.scope)
  {
    hide Run, AttemptKeys, OutcomeKeys;
    OpenKeys(log, x.a, x.plan.planId, x.plan.calls[i].callId);
  }

  /** The writer takes the ending. */
  lemma EndIsWritten(x: Execution, log: seq<Record>, i: nat, acquired: bool, e: Event)
    requires Accepts(log) && i < |x.plan.calls| && (e.Return? || e.Raise?)
    requires Open(log, x.a, x.plan.planId, x.plan.calls[i].callId)
    requires Run(log).value.headers[x.a].campaignId == CampaignDigest(x.plan.scope)
    ensures var r := EndOf(x, i, acquired, e);
            FinishCall(log, x.a, x.plan.planId, x.plan.calls[i], r.status, r.evidence, r.failure) == Some(r)
  {
    hide Run, Open, FinishCall;
    var r := EndOf(x, i, acquired, e);
    FinishIff(log, x.a, x.plan.planId, x.plan.calls[i], r.status, r.evidence, r.failure);
  }

  lemma CloseAppends(s: System, i: nat, r: Record)
    requires s.run.Some? && i < |s.run.value.plan.calls| && r.Outcome? && HighWaterMatches(s.file, s.anchors)
    requires var x := s.run.value;
             FinishCall(s.file, x.a, x.plan.planId, x.plan.calls[i], r.status, r.evidence, r.failure) == Some(r)
    ensures CloseStep(s, i, r.status, r.evidence, r.failure)
         == Continue(s, Closing(i, r.status != Checkpointed)).(file := s.file + [r])
  {
  }

  lemma EndIsClose(s: System, i: nat, acquired: bool, permits: nat, e: Event)
    requires s.run.Some? && s.run.value.stage == Armed(i, acquired, permits) && i < |s.run.value.plan.calls|
    requires e.Return? || e.Raise?
    ensures var r := EndOf(s.run.value, i, acquired, e);
            ArmedStep(s, e) == CloseStep(s, i, r.status, r.evidence, r.failure)
  {
    hide CloseStep;
    if e.Return? {
      ReturnIsClose(s, e.evidence);
    } else {
      RaiseIsClose(s, e.failure);
    }
  }

  lemma EarlierResolved(log: seq<Record>, i: nat, j: nat)
    requires NeverOverlaps(log) && i < j < |log| && log[i].Attempt? && log[j].Attempt?
    requires log[i].callId == log[j].callId
    ensures Key(log[i].authId, log[i].callId) in OutcomeKeys(log)
  {
    OverlapAt(log, j);
    var before, k := log[..j], Key(log[i].authId, log[i].callId);
    assert before[i] == log[i];
    assert k in AttemptKeys(before);
    assert k in OutcomeKeys(before);
    var n :| 0 <= n < |before| && before[n].Outcome? && Key(before[n].authId, before[n].callId) == k;
    assert log[n] == before[n];
  }

  /** Of two reservations of a call at most one is open. */
  lemma OneOpen(log: seq<Record>, k: Key, m: Key)
    requires NeverOverlaps(log) && k in AttemptKeys(log) && m in AttemptKeys(log) && k.callId == m.callId
    ensures k == m || k in OutcomeKeys(log) || m in OutcomeKeys(log)
  {
    var i :| 0 <= i < |log| && log[i].Attempt? && Key(log[i].authId, log[i].callId) == k;
    var j :| 0 <= j < |log| && log[j].Attempt? && Key(log[j].authId, log[j].callId) == m;
    if i < j {
      EarlierResolved(log, i, j);
    } else if j < i {
      EarlierResolved(log, j, i);
    }
  }

  /** So the outcome of an open reservation resolves its call. */
  lemma OutcomeResolves(log: seq<Record>, r: Record)
    requires NeverOverlaps(log) && r.Outcome?
    requires Key(r.authId, r.callId) in AttemptKeys(log) && Key(r.authId, r.callId) !in OutcomeKeys(log)
    ensures r.callId !in UnresolvedIds(log + [r])
  {
    hide NeverOverlaps, AttemptKeys, OutcomeKeys;
    KeysSnoc(log, r);
    forall k | k in AttemptKeys(log + [r]) && k.callId == r.callId ensures k in OutcomeKeys(log + [r]) {
      OneOpen(log, k, Key(r.authId, r.callId));
    }
  }

  /** The ending, appended, is published. */
  lemma ClosePublishes(s: System, i: nat, r: Record)
    requires s.run.Some? && s.file == Log(s) && Accepts(s.file) && s.anchors == Chain(s.file)
    requires Accepts(s.file + [r]) && r.Outcome?
    requires r.authId == s.run.value.a && r.campaignId == CampaignDigest(s.run.value.plan.scope)
    ensures var t := Continue(s, Closing(i, r.status != Checkpointed)).(file := s.file + [r]); var u := PublishStep(t);
            && Log(u) == s.file + [r] && u.file == t.file && u.sent == s.sent && u.admitted == s.admitted
            && u.run == if r.status == Checkpointed then Some(s.run.value.(stage := Between(i + 1))) else None
  {
    hide Accepts, Chain, Publish, AnchorOf, AnchorRequest, PublishStep;
    var t := Continue(s, Closing(i, r.status != Checkpointed)).(file := s.file + [r]);
    SnocParts(s.file, r);
    PublishSucceeds(t.run.value, t.file, s.file);
    PublishResult(t, AnchorOf(t.file), Chain(t.file));
  }

  /** From every reachable armed state, whether the request succeeded or failed, the ending is appended, the
      table takes its anchor, and then the call has no unresolved reservation: an admitted and answered call
      is followed by the next, and any other ends the execution. */
  lemma ArmedCloses(events: seq<Event>, i: nat, acquired: bool, permits: nat, e: Event)
    requires Exec(events).run.Some? && Exec(events).run.value.stage == Armed(i, acquired, permits)
    requires e.Return? || e.Raise?
    ensures i < |Exec(events).run.value.plan.calls|
    ensures var s := Exec(events); var x := s.run.value; var r := EndOf(x, i, acquired, e);
            var t := Exec(events + [e]); var u := Exec(events + [e] + [PublishAnchor]);
            && t.file == s.file + [r] && t.sent == s.sent && t.admitted == s.admitted
            && Log(u) == Log(s) + [r] && u.file == Log(u) && u.sent == s.sent
            && x.plan.calls[i].callId !in UnresolvedIds(Log(u))
            && u.run == if e.Return? && acquired then Some(x.(stage := Between(i + 1))) else None
  {
    hide Exec, Chain, Publish, AnchorOf, ArmedStep, CloseStep, FinishCall, UnresolvedIds, TrafficOk, NeverOverlaps;
    ExecTraced(events);
    var s := Exec(events);
    var x := s.run.value;
    var r := EndOf(x, i, acquired, e);
    HeadIdentifies(Log(s), s.file);
    ArmedIsOpen(x, Log(s), i);
    EndIsWritten(x, Log(s), i, acquired, e);
    EndIsClose(s, i, acquired, permits, e);
    CloseAppends(s, i, r);
    ExecOne(events, e);
    ExecOne(events + [e], PublishAnchor);
    var call := x.plan.calls[i];
    FinishedRecord(x, s.file, call, r.status, r.evidence, r.failure);
    Dispatch(s, e);
    Dispatch(ArmedStep(s, e), PublishAnchor);
    ClosePublishes(s, i, r);
    OutcomeResolves(Log(s), r);
  }

  /** Before anything has been admitted for the armed call, nothing can be sent and a request for another
      endpoint changes nothing; one for its own is admitted and sent, and after that neither happens again. */
  lemma AdmittedOnce(events: seq<Event>, i: nat, permits: nat, endpoint: Endpoint)
    requires Exec(events).run.Some? && Exec(events).run.value.stage == Armed(i, false, permits)
    ensures i < |Exec(events).run.value.plan.calls|
    ensures var s := Exec(events); var x := s.run.value; var k := Key(x.a, x.plan.calls[i].callId);
            var t := Exec(events + [Acquire(endpoint)]); var u := Exec(events + [Acquire(endpoint)] + [Send]);
            && k !in s.admitted && k !in s.sent && Exec(events + [Send]) == s
            && (endpoint != x.plan.calls[i].endpoint ==> t == s)
            && (endpoint == x.plan.calls[i].endpoint ==>
                  && t.admitted == s.admitted + [k] && t.sent == s.sent && t.file == s.file && t.anchors == s.anchors
                  && u.admitted == t.admitted && u.sent == s.sent + [k] && u.file == s.file && u.anchors == s.anchors
                  && forall other :: Next(u, Acquire(other)) == u && Next(u, Send) == u)
  {
    hide Exec, Chain, Accepts, NeverOverlaps, CloseStep;
    ExecTraced(events);
    ExecOne(events, Send);
    ExecOne(events, Acquire(endpoint));
    ExecOne(events + [Acquire(endpoint)], Send);
    var s := Exec(events);
    Dispatch(s, Send);
    Dispatch(s, Acquire(endpoint));
  }

  lemma ExecOne(events: seq<Event>, e: Event)
    ensures Exec(events + [e]) == Next(Exec(events), e)
  {
    SnocParts(events, e);
  }
}
