/** The dispatcher's scope guard: glob matching, the correction loop, and what a passed dispatch may
    have changed. */
module ScopeGuard {
  import opened Common
  import opened Texts
  import opened Sorting
  import opened TaskPackets

  // ---- globs ----

  datatype Item = Star(slashes: bool) | One | Exactly(c: char)

  function Slashes(s: string): (r: string)
    ensures |r| == |s|
  {
    seq(|s|, i requires 0 <= i < |s| => if s[i] == '\\' then '/' else s[i])
  }

  /** A double star before a single one. */
  function Items(s: string): seq<Item> {
    if s == "" then []
    else if |s| >= 2 && s[0] == '*' && s[1] == '*' then [Star(true)] + Items(s[2..])
    else if s[0] == '*' then [Star(false)] + Items(s[1..])
    else if s[0] == '?' then [One] + Items(s[1..])
    else [Exactly(s[0])] + Items(s[1..])
  }

  predicate Allowed(c: char, slashes: bool) {
    c != '\n' && (slashes || c != '/')
  }

  predicate Match(items: seq<Item>, path: string)
    decreases |items|, |path|
  {
    if items == [] then path == ""
    else match items[0]
      case Exactly(c) => path != "" && path[0] == c && Match(items[1..], path[1..])
      case One => path != "" && Allowed(path[0], false) && Match(items[1..], path[1..])
      case Star(slashes) =>
        Match(items[1..], path) || (path != "" && Allowed(path[0], slashes) && Match(items, path[1..]))
  }

  predicate MatchesGlob(path: string, glob: string) {
    Match(Items(Slashes(glob)), Slashes(path))
  }

  predicate MatchesAny(path: string, globs: seq<string>) {
    exists i :: 0 <= i < |globs| && MatchesGlob(path, globs[i])
  }

  predicate AllAllowed(s: string, slashes: bool) {
    forall i :: 0 <= i < |s| ==> Allowed(s[i], slashes)
  }

  ghost predicate SplitsAt(slashes: bool, rest: seq<Item>, path: string, k: int) {
    0 <= k <= |path| && AllAllowed(path[..k], slashes) && Match(rest, path[k..])
  }

  lemma StarStep(slashes: bool, rest: seq<Item>, path: string)
    ensures Match([Star(slashes)] + rest, path) <==>
              Match(rest, path) || (path != "" && Allowed(path[0], slashes) && Match([Star(slashes)] + rest, path[1..]))
  {
    var items := [Star(slashes)] + rest;
    assert items[1..] == rest && items[0] == Star(slashes);
  }

  lemma SplitLater(slashes: bool, rest: seq<Item>, path: string, k: nat)
    requires path != "" && 1 <= k <= |path|
    ensures SplitsAt(slashes, rest, path, k) <==> Allowed(path[0], slashes) && SplitsAt(slashes, rest, path[1..], k - 1)
  {
    assert path[1..][k - 1..] == path[k..];
    assert path[..k] == [path[0]] + path[1..][..k - 1];
  }

  /** A star takes any stretch of allowed characters and leaves the rest to the rest. */
  lemma {:induction false} StarSplits(slashes: bool, rest: seq<Item>, path: string)
    ensures Match([Star(slashes)] + rest, path) <==> exists k :: SplitsAt(slashes, rest, path, k)
    decreases |path|
  {
    StarStep(slashes, rest, path);
    assert path[0..] == path && path[..0] == "";
    assert SplitsAt(slashes, rest, path, 0) <==> Match(rest, path);
    if path != "" {
      StarSplits(slashes, rest, path[1..]);
      if k :| SplitsAt(slashes, rest, path, k) && k != 0 {
        SplitLater(slashes, rest, path, k);
      }
      if k :| SplitsAt(slashes, rest, path[1..], k) {
        SplitLater(slashes, rest, path, k + 1);
      }
    }
  }

  predicate Plain(glob: string) {
    forall i :: 0 <= i < |glob| ==> glob[i] != '*' && glob[i] != '?'
  }

  /** A glob without wildcards, followed by more, takes exactly itself off the front. */
  lemma {:induction false} PlainPrefix(s: string, more: string, path: string)
    requires Plain(s)
    ensures Match(Items(s + more), path) <==> s <= path && Match(Items(more), path[|s|..])
  {
    if s == "" {
      assert s + more == more && path[0..] == path;
    } else {
      assert (s + more)[1..] == s[1..] + more && (s + more)[0] == s[0];
      var items := Items(s + more);
      assert items == [Exactly(s[0])] + Items(s[1..] + more);
      assert items[1..] == Items(s[1..] + more);
      if path != "" {
        PlainPrefix(s[1..], more, path[1..]);
        assert s == [s[0]] + s[1..] && path == [path[0]] + path[1..];
        if s <= path {
          assert path[1..][|s| - 1..] == path[|s|..];
          assert s[1..] <= path[1..];
        }
      }
    }
  }

  /** So it matches nothing but itself. */
  lemma PlainMatches(path: string, glob: string)
    requires Plain(glob)
    ensures MatchesGlob(path, glob) <==> Slashes(path) == Slashes(glob)
  {
    var s := Slashes(glob);
    assert s + "" == s;
    PlainPrefix(s, "", Slashes(path));
    if s <= Slashes(path) {
      var rest := Slashes(path)[|s|..];
      assert Slashes(path) == s + rest;
      assert Match(Items(""), rest) <==> rest == "";
    }
  }

  lemma DirectoryMatches(path: string, dir: string)
    requires Plain(dir) && NoNewline(Slashes(path))
    ensures MatchesGlob(path, dir + "/**") <==> Slashes(dir) + "/" <= Slashes(path)
  {
    var s := Slashes(dir) + "/";
    var p := Slashes(path);
    assert Slashes(dir + "/**") == s + "**";
    PlainPrefix(s, "**", p);
    if s <= p {
      StarTakesAll(p[|s|..]);
      assert forall c :: c in p[|s|..] ==> c in p;
    }
  }

  lemma StarTakesAll(path: string)
    requires NoNewline(path)
    ensures Match(Items("**"), path)
  {
    assert "**"[2..] == "";
    assert Items("**") == [Star(true)] + Items("");
    StarSplits(true, Items(""), path);
    assert path[|path|..] == "" && path[..|path|] == path && Match(Items(""), "");
    forall i | 0 <= i < |path| ensures Allowed(path[i], true) {
      assert path[i] in path;
    }
    assert SplitsAt(true, Items(""), path, |path|);
  }

  // ---- the guard ----

  function Violations(changed: seq<string>, globs: seq<string>): (r: seq<string>)
    ensures r == [] <==> forall i :: 0 <= i < |changed| ==> MatchesAny(changed[i], globs)
  {
    if changed == [] then []
    else
      Violations(Init(changed), globs) + (if MatchesAny(Last(changed), globs) then [] else [Last(changed)])
  }

  function OutOfScope(changed: seq<string>, globs: seq<string>): (r: seq<string>)
    ensures r == [] <==> forall i :: 0 <= i < |changed| ==> MatchesAny(changed[i], globs)
  {
    SortPermutes(Violations(changed, globs), TextLess);
    assert |multiset(Sort(Violations(changed, globs), TextLess))| == |multiset(Violations(changed, globs))|;
    Sort(Violations(changed, globs), TextLess)
  }

  // ---- the correction loop ----

  /** What one round meets: the executor's report, the working tree, the verification and the control. */
  datatype Round = Round(
    execOk: bool, execStatus: string, execPacketValid: bool, changed: seq<string>,
    verifyOk: bool, publishable: bool, controlOk: bool, decision: string, readiness: string)

  datatype Status = Passed | Blocked | Failed

  datatype Result = Result(status: Status, changed: seq<string>, violations: seq<string>, rounds: nat)

  /** One round either ends the dispatch or sends a correction back. */
  function Decide(x: Round, n: nat, last: bool, globs: seq<string>): Option<Result> {
    var violations := OutOfScope(x.changed, globs);
    if !x.execOk then Some(Result(Failed, [], [], n))
    else if x.execStatus != "executed" && !(x.execStatus == "" && x.execPacketValid)
    then Some(Result(Blocked, [], [], n))
    else if violations != [] then Some(Result(Failed, x.changed, violations, n))
    else if !x.verifyOk then if last then Some(Result(Failed, x.changed, [], n)) else None
    else if !x.publishable then Some(Result(Failed, x.changed, [], n))
    else if !x.controlOk then Some(Result(Failed, x.changed, [], n))
    else if x.decision == "pass" && x.readiness != "not_ready" then Some(Result(Passed, x.changed, [], n))
    else if x.decision == "block" then Some(Result(Blocked, x.changed, [], n))
    else if x.decision in {"needs_changes", "pass"} && !last then None
    else Some(Result(Failed, x.changed, [], n))
  }

  // ---- what the rounds decide ----

  predicate Executed(x: Round) {
    x.execOk && (x.execStatus == "executed" || (x.execStatus == "" && x.execPacketValid))
  }

  /** The executor finished and every change is in scope. */
  predicate Clean(x: Round, globs: seq<string>) {
    Executed(x) && forall i :: 0 <= i < |x.changed| ==> MatchesAny(x.changed[i], globs)
  }

  /** Verification is green and publishable and the control has answered. */
  predicate Reviewed(x: Round, globs: seq<string>) {
    Clean(x, globs) && x.verifyOk && x.publishable && x.controlOk
  }

  predicate Passes(x: Round, globs: seq<string>) {
    Reviewed(x, globs) && x.decision == "pass" && x.readiness != "not_ready"
  }

  /** The executor ended in another state, or the control stops the task. */
  predicate Blocks(x: Round, globs: seq<string>) {
    (x.execOk && !Executed(x)) || (Reviewed(x, globs) && x.decision == "block")
  }

  /** A correction can help: the verification is red, the control wants changes, or what it passed is not ready. */
  predicate Corrects(x: Round, globs: seq<string>) {
    || (Clean(x, globs) && !x.verifyOk)
    || (Reviewed(x, globs) && x.decision == "needs_changes")
    || (Reviewed(x, globs) && x.decision == "pass" && x.readiness == "not_ready")
  }

  /** A round is followed by a correction exactly when one can help and is still allowed; otherwise it ends the
      dispatch, passed, blocked, or failed for every other reason, and reports its changes once it has looked
      at them and the changes outside the scope if there are any. */
  lemma DecideMeans(x: Round, n: nat, last: bool, globs: seq<string>)
    ensures var d := Decide(x, n, last, globs);
            && (d.None? <==> Corrects(x, globs) && !last)
            && (d.Some? ==>
                  && (d.value.status.Passed? <==> Passes(x, globs))
                  && (d.value.status.Blocked? <==> Blocks(x, globs))
                  && d.value.changed == (if Executed(x) then x.changed else [])
                  && (d.value.violations == [] <==> !Executed(x) || Clean(x, globs))
                  && (forall f :: f in d.value.violations ==> f in x.changed && !MatchesAny(f, globs))
                  && (Executed(x) ==>
                        forall f :: f in x.changed && !MatchesAny(f, globs) ==> f in d.value.violations)
                  && d.value.rounds == n)
  {
    OutsideAre(x.changed, globs);
  }

  lemma {:induction false} ViolationsAre(changed: seq<string>, globs: seq<string>, f: string)
    ensures f in Violations(changed, globs) <==> f in changed && !MatchesAny(f, globs)
  {
    if changed != [] {
      ViolationsAre(Init(changed), globs, f);
      InitLast(changed);
    }
  }

  /** The reported violations are exactly the changes that match no allowed glob, in order. */
  lemma OutsideAre(changed: seq<string>, globs: seq<string>)
    ensures forall f :: f in OutOfScope(changed, globs) <==> f in changed && !MatchesAny(f, globs)
    ensures InTextOrder(OutOfScope(changed, globs))
  {
    TextsSorted(Violations(changed, globs));
    forall f ensures f in OutOfScope(changed, globs) <==> f in changed && !MatchesAny(f, globs) {
      ViolationsAre(changed, globs, f);
      SortPermutes(Violations(changed, globs), TextLess);
      assert f in OutOfScope(changed, globs) <==> f in multiset(OutOfScope(changed, globs));
      assert f in Violations(changed, globs) <==> f in multiset(Violations(changed, globs));
    }
  }

  /** Corrections allowed, one round more than that. */
  method ExecuteWithControl(rounds: seq<Round>, globs: seq<string>) returns (r: Result)
    ensures rounds == [] ==> r == Result(Failed, [], [], 0)
    ensures rounds != [] ==> r.rounds < |rounds|
    ensures rounds != [] ==> Decide(rounds[r.rounds], r.rounds, r.rounds == |rounds| - 1, globs) == Some(r)
    ensures rounds != [] ==> forall k :: 0 <= k < r.rounds ==> Corrects(rounds[k], globs)
    ensures rounds != [] ==> r.rounds == |rounds| - 1 || !Corrects(rounds[r.rounds], globs)
    ensures rounds != [] ==> (r.status.Passed? <==> Passes(rounds[r.rounds], globs))
    ensures rounds != [] ==> (r.status.Blocked? <==> Blocks(rounds[r.rounds], globs))
    ensures r.status.Passed? ==>
              && (forall i :: 0 <= i < |r.changed| ==> MatchesAny(r.changed[i], globs))
              && rounds != [] && r.changed == rounds[r.rounds].changed
              && rounds[r.rounds].verifyOk && rounds[r.rounds].publishable
  {
    for n := 0 to |rounds|
      invariant forall k :: 0 <= k < n ==> Corrects(rounds[k], globs)
      invariant n == |rounds| ==> rounds == []
    {
      var decided := Decide(rounds[n], n, n == |rounds| - 1, globs);
      DecideMeans(rounds[n], n, n == |rounds| - 1, globs);
      if decided.Some? {
        return decided.value;
      }
    }
    return Result(Failed, [], [], 0);
  }

  function AllowedGlobs(packet: string, handoffs: string): seq<string> {
    var fields := ParseFields(packet);
    ParseScopeGlobs(if RELATED in fields then fields[RELATED] else "") + [handoffs + "/**"]
  }

  /** A packet rendered from planner JSON allows exactly the planned files and the handoffs directory. */
  lemma AllowedIff(plan: Plan, scaffold: string, now: string, handoffs: string, path: string)
    requires NoNewline(now) && RenderTaskPacket(plan, scaffold, now).Some?
    ensures MatchesAny(path, AllowedGlobs(RenderTaskPacket(plan, scaffold, now).value, handoffs)) <==>
              || (exists i :: 0 <= i < |plan.relatedFiles| && MatchesGlob(path, Strip(plan.relatedFiles[i])))
              || MatchesGlob(path, handoffs + "/**")
  {
    hide MatchesGlob, Strip, RenderTaskPacket, ParseFields;
    ScopeRoundTrip(plan, scaffold, now);
    var files := Stripped(plan.relatedFiles);
    var globs := AllowedGlobs(RenderTaskPacket(plan, scaffold, now).value, handoffs);
    assert globs == files + [handoffs + "/**"];
    assert forall i :: 0 <= i < |files| ==> globs[i] == Strip(plan.relatedFiles[i]);
    assert globs[|files|] == handoffs + "/**";
  }

  /** A dispatch whose packet came from planner JSON passes only on changes inside the planned files
      or the handoffs directory. */
  lemma PassedWithinPlan(plan: Plan, scaffold: string, now: string, handoffs: string,
                         x: Round, n: nat, last: bool, path: string)
    requires NoNewline(now) && RenderTaskPacket(plan, scaffold, now).Some?
    requires var globs := AllowedGlobs(RenderTaskPacket(plan, scaffold, now).value, handoffs);
             Decide(x, n, last, globs).Some? && Decide(x, n, last, globs).value.status.Passed?
    requires path in x.changed
    ensures || (exists i :: 0 <= i < |plan.relatedFiles| && MatchesGlob(path, Strip(plan.relatedFiles[i])))
            || MatchesGlob(path, handoffs + "/**")
  {
    hide Decide, MatchesAny;
    var globs := AllowedGlobs(RenderTaskPacket(plan, scaffold, now).value, handoffs);
    DecideMeans(x, n, last, globs);
    var k :| 0 <= k < |x.changed| && x.changed[k] == path;
    assert MatchesAny(x.changed[k], globs);
    AllowedIff(plan, scaffold, now, handoffs, path);
  }

  /** With wildcard-free planned files: each changed path is one of them, or lies under handoffs. */
  lemma PassedLiterally(plan: Plan, scaffold: string, now: string, handoffs: string,
                        x: Round, n: nat, last: bool, path: string)
    requires NoNewline(now) && RenderTaskPacket(plan, scaffold, now).Some?
    requires var globs := AllowedGlobs(RenderTaskPacket(plan, scaffold, now).value, handoffs);
             Decide(x, n, last, globs).Some? && Decide(x, n, last, globs).value.status.Passed?
    requires path in x.changed && NoNewline(Slashes(path)) && Plain(handoffs)
    requires forall i :: 0 <= i < |plan.relatedFiles| ==> Plain(Strip(plan.relatedFiles[i]))
    ensures || (exists i :: 0 <= i < |plan.relatedFiles| && Slashes(path) == Slashes(Strip(plan.relatedFiles[i])))
            || Slashes(handoffs) + "/" <= Slashes(path)
  {
    PassedWithinPlan(plan, scaffold, now, handoffs, x, n, last, path);
    DirectoryMatches(path, handoffs);
    if i :| 0 <= i < |plan.relatedFiles| && MatchesGlob(path, Strip(plan.relatedFiles[i])) {
      PlainMatches(path, Strip(plan.relatedFiles[i]));
    }
  }
}
