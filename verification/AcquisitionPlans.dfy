/** What a plan contains, exactly when planning starts an execution, and what the execution then sends. */
module AcquisitionPlans {
  import opened Common
  import opened LedgerRecords
  import opened LedgerValidator
  import opened LedgerWriters
  import opened CampaignAnchors
  import opened AcquisitionProtocol
  import opened AcquisitionProgress

  // ---- the calls of a plan ----

  /** The call for one page of splits over the whole window. */
  function SplitCall(scope: Scope): Call
    requires scope.sessions != []
  {
    var first, last := scope.sessions[0], scope.sessions[|scope.sessions| - 1];
    Call(CallDigest(SplitPage, SplitsEndpoint, first, last), SplitPage, SplitsEndpoint, first, last)
  }

  function DividendCall(scope: Scope): Call
    requires scope.sessions != []
  {
    var first, last := scope.sessions[0], scope.sessions[|scope.sessions| - 1];
    Call(CallDigest(DividendPage, DividendsEndpoint, first, last), DividendPage, DividendsEndpoint, first, last)
  }

  /** The call for the prices of one session. */
  function SessionCall(d: Date): Call {
    Call(CallDigest(OpenClose, OpenCloseEndpoint(d), d, d), OpenClose, OpenCloseEndpoint(d), d, d)
  }

  lemma {:induction false} MissingIff(sessions: seq<Date>, covered: set<Date>, d: Date)
    ensures d in MissingDates(sessions, covered) <==> d in sessions && d !in covered
  {
    if sessions != [] {
      MissingIff(sessions[1..], covered, d);
    }
  }

  lemma PriceCallsIff(dates: seq<Date>, c: Call)
    ensures c in PriceCalls(dates) <==> exists d :: d in dates && c == SessionCall(d)
  {
    if c in PriceCalls(dates) {
      var i :| 0 <= i < |dates| && PriceCalls(dates)[i] == c;
      assert dates[i] in dates && c == SessionCall(dates[i]);
    }
    if d :| d in dates && c == SessionCall(d) {
      var i :| 0 <= i < |dates| && dates[i] == d;
      assert PriceCalls(dates)[i] == c;
    }
  }

  /** A plan lists the split page exactly when splits are needed, the dividend page exactly when dividends are,
      the prices of exactly the sessions that are not covered, and nothing else. */
  lemma PlannedIff(scope: Scope, covered: set<Date>, needSplit: bool, needDividend: bool, c: Call)
    requires ValidScope(scope)
    ensures c in PlannedCalls(scope, covered, needSplit, needDividend) <==>
              || (needSplit && c == SplitCall(scope))
              || (needDividend && c == DividendCall(scope))
              || exists d :: d in scope.sessions && d !in covered && c == SessionCall(d)
  {
    var dates := MissingDates(scope.sessions, covered);
    PriceCallsIff(dates, c);
    forall d ensures d in dates <==> d in scope.sessions && d !in covered {
      MissingIff(scope.sessions, covered, d);
    }
  }

  // ---- when planning starts an execution ----

  /** Every reservation of the call has its outcome. */
  ghost predicate Resolved(rs: seq<Record>, id: CallId) {
    forall i :: 0 <= i < |rs| && rs[i].Attempt? && rs[i].callId == id ==>
      exists k :: 0 <= k < |rs| && rs[k].Outcome? && rs[k].authId == rs[i].authId && rs[k].callId == id
  }

  lemma ResolvedIff(rs: seq<Record>, id: CallId)
    ensures Resolved(rs, id) <==> id !in UnresolvedIds(rs)
  {
    if Resolved(rs, id) {
      forall k | k in AttemptKeys(rs) && k.callId == id ensures k in OutcomeKeys(rs) {
        var i :| 0 <= i < |rs| && rs[i].Attempt? && Key(rs[i].authId, rs[i].callId) == k;
        var n :| 0 <= n < |rs| && rs[n].Outcome? && rs[n].authId == rs[i].authId && rs[n].callId == id;
      }
    } else {
      var i :| 0 <= i < |rs| && rs[i].Attempt? && rs[i].callId == id
               && !exists k :: 0 <= k < |rs| && rs[k].Outcome? && rs[k].authId == rs[i].authId && rs[k].callId == id;
      assert Key(rs[i].authId, id) in AttemptKeys(rs) - OutcomeKeys(rs);
    }
  }

  /** The plan fits the budget: a first authorization of up to 259 calls, and later ones that raise the total
      by at most five calls over the first, and to at most 264. */
  ghost predicate FitsBudget(rs: seq<Record>, scope: Scope, planned: nat) {
    var headers := Headers(rs, CampaignDigest(scope));
    if headers == [] then planned <= 259
    else
      var base, authorized := headers[0].baseCalls, headers[|headers| - 1].authorizedCalls;
      var reserved := |CampaignAttempts(rs, CampaignDigest(scope))|;
      var total := if authorized < reserved + planned then reserved + planned else authorized;
      total <= base + 5 && total <= 264
  }

  lemma FitsIff(rs: seq<Record>, scope: Scope, planned: nat)
    requires Accepts(rs) && CampaignStateOf(rs, scope).Some?
    ensures FitsBudget(rs, scope, planned) <==> !CampaignStateOf(rs, scope).value.BudgetBlocked(planned)
  {
  }

  /** Some call is needed. */
  ghost predicate SomethingMissing(scope: Scope, covered: set<Date>, needSplit: bool, needDividend: bool) {
    needSplit || needDividend || exists d :: d in scope.sessions && d !in covered
  }

  lemma NothingPlanned(scope: Scope, covered: set<Date>, needSplit: bool, needDividend: bool)
    requires ValidScope(scope)
    ensures PlannedCalls(scope, covered, needSplit, needDividend) != [] <==>
              SomethingMissing(scope, covered, needSplit, needDividend)
  {
    var calls := PlannedCalls(scope, covered, needSplit, needDividend);
    if calls != [] {
      PlannedIff(scope, covered, needSplit, needDividend, calls[0]);
      assert calls[0] in calls;
    }
    if needSplit {
      PlannedIff(scope, covered, needSplit, needDividend, SplitCall(scope));
    } else if needDividend {
      PlannedIff(scope, covered, needSplit, needDividend, DividendCall(scope));
    } else if d :| d in scope.sessions && d !in covered {
      PlannedIff(scope, covered, needSplit, needDividend, SessionCall(d));
    }
  }

  /** No needed call waits for an outcome, and no needed price is unresolved in the one-session ledger. */
  ghost predicate NothingAmbiguous(rs: seq<Record>, scope: Scope, covered: set<Date>, needSplit: bool,
                                   needDividend: bool, legacy: set<Date>)
    requires scope.sessions != []
  {
    && (needSplit ==> Resolved(rs, SplitCall(scope).callId))
    && (needDividend ==> Resolved(rs, DividendCall(scope).callId))
    && (forall d :: d in scope.sessions && d !in covered ==> Resolved(rs, SessionCall(d).callId) && d !in legacy)
  }

  lemma AmbiguousIff(rs: seq<Record>, plan: Plan, covered: set<Date>, needSplit: bool, needDividend: bool,
                     legacy: set<Date>)
    requires ValidScope(plan.scope) && plan.calls == PlannedCalls(plan.scope, covered, needSplit, needDividend)
    ensures !Ambiguous(rs, plan, legacy) <==>
              NothingAmbiguous(rs, plan.scope, covered, needSplit, needDividend, legacy)
  {
    hide UnresolvedIds, Resolved, PlannedCalls;
    forall id ensures Resolved(rs, id) <==> id !in UnresolvedIds(rs) {
      ResolvedIff(rs, id);
    }
    forall c ensures c in plan.calls <==>
                       || (needSplit && c == SplitCall(plan.scope))
                       || (needDividend && c == DividendCall(plan.scope))
                       || exists d :: d in plan.scope.sessions && d !in covered && c == SessionCall(d)
    {
      PlannedIff(plan.scope, covered, needSplit, needDividend, c);
    }
    if Ambiguous(rs, plan, legacy) {
      var i :| 0 <= i < |plan.calls| &&
               (plan.calls[i].callId in UnresolvedIds(rs)
                || (plan.calls[i].kind.OpenClose? && plan.calls[i].start in legacy));
      assert plan.calls[i] in plan.calls;
    } else {
      forall c | c in plan.calls
        ensures c.callId !in UnresolvedIds(rs) && (c.kind.OpenClose? ==> c.start !in legacy)
      {
        var i :| 0 <= i < |plan.calls| && plan.calls[i] == c;
      }
      forall d | d in plan.scope.sessions && d !in covered
        ensures Resolved(rs, SessionCall(d).callId) && d !in legacy
      {
        assert SessionCall(d) in plan.calls;
      }
    }
  }

  /** Exactly when planning starts an execution, in every reachable state where none runs: the journal is the
      published one, the window's last session is covered, something is missing, none of it waits for an
      outcome, and it fits the budget. The plan then lists what is missing, and nothing else has changed. */
  lemma StartsIff(s: System, e: Event)
    requires Inv(s) && s.run.None? && e.Start?
    ensures StartRun(s, e).run.Some? <==>
              && s.file == Log(s) && ValidScope(e.scope)
              && e.scope.sessions[|e.scope.sessions| - 1] in e.covered
              && SomethingMissing(e.scope, e.covered, e.needSplit, e.needDividend)
              && NothingAmbiguous(s.file, e.scope, e.covered, e.needSplit, e.needDividend, e.legacyUnresolved)
              && FitsBudget(s.file, e.scope, |PlannedCalls(e.scope, e.covered, e.needSplit, e.needDividend)|)
    ensures StartRun(s, e).run.Some? ==>
              var x := StartRun(s, e).run.value;
              && StartRun(s, e) == s.(run := Some(x))
              && x.a == e.a && x.maxCalls == e.maxCalls && x.delta == e.delta && x.stage == Planned
              && x.plan.planId == e.planId && x.plan.scope == e.scope
              && x.plan.calls == PlannedCalls(e.scope, e.covered, e.needSplit, e.needDividend)
              && CampaignStateOf(s.file, e.scope) == Some(x.plan.campaign)
  {
    hide Run, Chain, NeverOverlaps, TrafficOk, PlannedCalls, Ambiguous, NothingAmbiguous, FitsBudget, SomethingMissing;
    hide HighWaterMatches, CampaignStateOf;
    HighWaterIsLog(s);
    if s.file == Log(s) && ValidScope(e.scope) {
      CampaignStateAgrees(s.file, e.scope);
      var campaign := CampaignStateOf(s.file, e.scope).value;
      var calls := PlannedCalls(e.scope, e.covered, e.needSplit, e.needDividend);
      var plan := Plan(e.planId, e.scope, calls, campaign);
      FitsIff(s.file, e.scope, |calls|);
      NothingPlanned(e.scope, e.covered, e.needSplit, e.needDividend);
      AmbiguousIff(s.file, plan, e.covered, e.needSplit, e.needDividend, e.legacyUnresolved);
    }
  }

  lemma HighWaterIsLog(s: System)
    requires Inv(s)
    ensures HighWaterMatches(s.file, s.anchors) <==> s.file == Log(s)
  {
    HeadIdentifies(Log(s), s.file);
  }

  // ---- what an execution sends ----

  lemma {:induction false} KeysFromIff(a: AuthorizationId, plan: Plan, skips: seq<bool>, i: nat, k: Key)
    requires |skips| == |plan.calls| && i <= |skips|
    ensures k in KeysFrom(a, plan, skips, i) <==>
              exists j :: i <= j < |skips| && !skips[j] && k == Key(a, plan.calls[j].callId)
    decreases |skips| - i
  {
    if i < |skips| {
      KeysFromIff(a, plan, skips, i + 1, k);
    }
  }

  /** The prices of these sessions have appeared meanwhile. */
  function SeenSkips(calls: seq<Call>, seen: set<Date>): (skips: seq<bool>)
    ensures |skips| == |calls|
  {
    seq(|calls|, i requires 0 <= i < |calls| => calls[i].kind.OpenClose? && calls[i].start in seen)
  }

  /** The keys sent for a plan whose `seen` prices are skipped. */
  ghost predicate IsSentFor(e: Event, seen: set<Date>, k: Key)
    requires e.Start? && e.scope.sessions != []
  {
    || (e.needSplit && k == Key(e.a, SplitCall(e.scope).callId))
    || (e.needDividend && k == Key(e.a, DividendCall(e.scope).callId))
    || exists d :: d in e.scope.sessions && d !in e.covered && d !in seen && k == Key(e.a, SessionCall(d).callId)
  }

  lemma KeysAreNeeded(e: Event, plan: Plan, seen: set<Date>, k: Key)
    requires e.Start? && ValidScope(e.scope)
    requires plan.calls == PlannedCalls(e.scope, e.covered, e.needSplit, e.needDividend)
    ensures k in KeysFrom(e.a, plan, SeenSkips(plan.calls, seen), 0) <==> IsSentFor(e, seen, k)
  {
    hide PlannedCalls;
    var skips := SeenSkips(plan.calls, seen);
    KeysFromIff(e.a, plan, skips, 0, k);
    if j :| 0 <= j < |skips| && !skips[j] && k == Key(e.a, plan.calls[j].callId) {
      PlannedIff(e.scope, e.covered, e.needSplit, e.needDividend, plan.calls[j]);
      assert plan.calls[j] in plan.calls;
    }
    if IsSentFor(e, seen, k) {
      var c := NeededCall(e, seen, k);
      PlannedIff(e.scope, e.covered, e.needSplit, e.needDividend, c);
      var j :| 0 <= j < |plan.calls| && plan.calls[j] == c;
      assert !skips[j];
    }
  }

  lemma NeededCall(e: Event, seen: set<Date>, k: Key) returns (c: Call)
    requires e.Start? && e.scope.sessions != [] && IsSentFor(e, seen, k)
    ensures k == Key(e.a, c.callId) && (c.kind.OpenClose? ==> c.start !in seen)
    ensures || (e.needSplit && c == SplitCall(e.scope))
            || (e.needDividend && c == DividendCall(e.scope))
            || exists d :: d in e.scope.sessions && d !in e.covered && c == SessionCall(d)
  {
    if e.needSplit && k == Key(e.a, SplitCall(e.scope).callId) {
      c := SplitCall(e.scope);
    } else if e.needDividend && k == Key(e.a, DividendCall(e.scope).callId) {
      c := DividendCall(e.scope);
    } else {
      var d :| d in e.scope.sessions && d !in e.covered && d !in seen && k == Key(e.a, SessionCall(d).callId);
      c := SessionCall(d);
    }
  }

  /** From any reachable idle state, an execution that planning starts under a fresh identity, with the maximum
      and the delta its plan shows, can run undisturbed to the end of its plan; it has then sent the split page
      exactly if splits were needed, the dividend page exactly if dividends were, and the prices of exactly the
      sessions that were not covered, save those that appeared meanwhile, and nothing else. */
  lemma ExecutionSends(s: System, e: Event, seen: set<Date>, evidence: string) returns (t: System)
    requires Inv(s) && s.run.None? && e.Start? && StartRun(s, e).run.Some?
    requires forall i :: 0 <= i < |s.file| ==> s.file[i].authId != e.a
    requires var plan := StartRun(s, e).run.value.plan;
             && e.maxCalls == |plan.calls| <= MAX_AUTHORIZED_CALLS
             && e.delta == plan.campaign.RequiredDelta(|plan.calls|)
    ensures Reaches(Next(s, e), t)
    ensures e.scope.sessions != [] && |s.sent| <= |t.sent| && t.sent[..|s.sent|] == s.sent
    ensures forall k :: k in t.sent[|s.sent|..] <==> IsSentFor(e, seen, k)
    ensures t.run.Some? && t.run.value.stage == Between(|StartRun(s, e).run.value.plan.calls|)
  {
    hide StartRun, Next, Reaches, Inv, IsSentFor, KeysFrom, PlannedCalls;
    hide FitsBudget, NothingAmbiguous, SomethingMissing;
    StartsIff(s, e);
    var plan := StartRun(s, e).run.value.plan;
    var skips := SeenSkips(plan.calls, seen);
    t := ExecutionCompletes(s, e, skips, evidence);
    forall k ensures k in KeysFrom(e.a, plan, skips, 0) <==> IsSentFor(e, seen, k) {
      KeysAreNeeded(e, plan, seen, k);
    }
    assert t.sent[|s.sent|..] == KeysFrom(e.a, plan, skips, 0);
  }
}
