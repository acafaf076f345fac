/** Fixed-window cost guards for vendor calls: one that waits for capacity, one that refuses.

    A guard's lock makes each decision one atomic section. Callers therefore interleave as an
    arbitrary sequence of sections under a clock that never runs backwards. */
module PacingGuard {
  import opened Common

  /** Constructor arguments; the constructors refuse anything else. */
  datatype Limits = Limits(maxCalls: nat, window: real, budget: Option<nat>) {
    predicate Valid() {
      0 < maxCalls && 0.0 < window
    }
  }

  /** One vendor's counters. */
  datatype Lane = Lane(start: Option<real>, count: nat, spent: nat)

  datatype Decision = Admitted | OverBudget | RateLimited | CheckRefused | Wait(seconds: real)

  const IDLE := Lane(None, 0, 0)

  predicate Affordable(l: Limits, lane: Lane, cost: nat) {
    l.budget.Some? ==> lane.spent + cost <= l.budget.value
  }

  function Roll(l: Limits, lane: Lane, now: real): Lane {
    if lane.start.None? || l.window <= now - lane.start.value then Lane(Some(now), 0, lane.spent) else lane
  }

  function Charge(lane: Lane, cost: nat): Lane {
    lane.(count := lane.count + cost, spent := lane.spent + cost)
  }

  /** One pass of the waiting guard's loop: budget first, then the window, then the admission check. */
  function PaceSection(l: Limits, lane: Lane, cost: nat, now: real, checkOk: bool): (Lane, Decision) {
    if !Affordable(l, lane, cost) then (lane, OverBudget)
    else
      var rolled := Roll(l, lane, now);
      if rolled.count + cost <= l.maxCalls then
        if checkOk then (Charge(rolled, cost), Admitted) else (rolled, CheckRefused)
      else
        var wait := rolled.start.value + l.window - now;
        (rolled, Wait(if wait < 0.0 then 0.0 else wait))
  }

  /** The refusing guard: the window first, then the budget. */
  function RefuseSection(l: Limits, lane: Lane, cost: nat, now: real): (Lane, Decision) {
    var rolled := Roll(l, lane, now);
    if l.maxCalls < rolled.count + cost then (rolled, RateLimited)
    else if !Affordable(l, rolled, cost) then (rolled, OverBudget)
    else (Charge(rolled, cost), Admitted)
  }

  // ---- histories ----

  datatype Admission = Admission(at: real, cost: nat)

  /** What one fixed window admitted. */
  datatype Window = Window(start: real, admissions: seq<Admission>)

  datatype Request = Request(cost: nat, now: real, checkOk: bool, waits: bool)

  datatype Track = Track(lane: Lane, windows: seq<Window>)

  function Section(l: Limits, lane: Lane, r: Request): (Lane, Decision) {
    if r.waits then PaceSection(l, lane, r.cost, r.now, r.checkOk) else RefuseSection(l, lane, r.cost, r.now)
  }

  /** The windows opened so far, brought up to date with one section. */
  function Record(t: Track, r: Request, after: Lane, d: Decision): Track {
    var ws := if after.start == t.lane.start then t.windows else t.windows + [Window(r.now, [])];
    if d.Admitted? && ws != [] then
      var w := Last(ws);
      Track(after, Init(ws) + [w.(admissions := w.admissions + [Admission(r.now, r.cost)])])
    else Track(after, ws)
  }

  function Replay(l: Limits, rs: seq<Request>): Track {
    if rs == [] then Track(IDLE, [])
    else
      var t := Replay(l, Init(rs));
      var (lane, d) := Section(l, t.lane, Last(rs));
      Record(t, Last(rs), lane, d)
  }

  function Cost(xs: seq<Admission>): nat {
    if xs == [] then 0 else Cost(Init(xs)) + Last(xs).cost
  }

  function TotalCost(ws: seq<Window>): nat {
    if ws == [] then 0 else TotalCost(Init(ws)) + Cost(Last(ws).admissions)
  }

  /** Admitted cost with a timestamp in the closed interval `[lo, hi]`. */
  function CostWithin(xs: seq<Admission>, lo: real, hi: real): (c: nat)
    ensures c <= Cost(xs)
  {
    if xs == [] then 0
    else CostWithin(Init(xs), lo, hi) + (if lo <= Last(xs).at <= hi then Last(xs).cost else 0)
  }

  function TotalWithin(ws: seq<Window>, lo: real, hi: real): nat {
    if ws == [] then 0 else CostWithin(ws[0].admissions, lo, hi) + TotalWithin(ws[1..], lo, hi)
  }

  predicate WindowOk(l: Limits, w: Window) {
    && Cost(w.admissions) <= l.maxCalls
    && forall i :: 0 <= i < |w.admissions| ==> w.start <= w.admissions[i].at < w.start + l.window
  }

  /** Windows are full one after another: each opens at least one window length after the last. */
  predicate Spaced(l: Limits, ws: seq<Window>) {
    forall i :: 0 < i < |ws| ==> ws[i - 1].start + l.window <= ws[i].start
  }

  predicate Tracks(l: Limits, t: Track, now: real) {
    && (t.windows == [] <==> t.lane.start.None?)
    && (t.windows != [] ==>
          && t.lane.start.value == Last(t.windows).start <= now
          && t.lane.count == Cost(Last(t.windows).admissions))
    && (forall i :: 0 <= i < |t.windows| ==> WindowOk(l, t.windows[i]))
    && Spaced(l, t.windows)
    && t.lane.spent == TotalCost(t.windows)
    && (l.budget.Some? ==> t.lane.spent <= l.budget.value)
  }

  predicate Monotone(rs: seq<Request>) {
    forall i, j :: 0 <= i < j < |rs| ==> rs[i].now <= rs[j].now
  }

  /** Opening a new window, or staying in the current one. */
  lemma RollTracks(l: Limits, t: Track, now: real, before: real)
    requires l.Valid() && Tracks(l, t, before) && before <= now
    ensures var rolled := Roll(l, t.lane, now);
            var ws := if rolled.start == t.lane.start then t.windows else t.windows + [Window(now, [])];
            && Tracks(l, Track(rolled, ws), now)
            && ws != [] && now < Last(ws).start + l.window
  {
    if t.lane.start.None? || l.window <= now - t.lane.start.value {
      var w := Window(now, []);
      SnocParts(t.windows, w);
      assert WindowOk(l, w);
      assert Spaced(l, t.windows + [w]);
    }
  }

  /** A section admits into the rolled window, or at most rolls it. */
  lemma SectionForms(l: Limits, lane: Lane, r: Request)
    ensures var (after, d) := Section(l, lane, r); var rolled := Roll(l, lane, r.now);
            if d.Admitted? then
              after == Charge(rolled, r.cost) && rolled.count + r.cost <= l.maxCalls && Affordable(l, rolled, r.cost)
            else after == rolled || after == lane
  {
  }

  lemma SectionTracks(l: Limits, t: Track, r: Request, before: real)
    requires l.Valid() && Tracks(l, t, before) && before <= r.now
    ensures var (lane, d) := Section(l, t.lane, r); Tracks(l, Record(t, r, lane, d), r.now)
  {
    var (lane, d) := Section(l, t.lane, r);
    var rolled := Roll(l, t.lane, r.now);
    SectionForms(l, t.lane, r);
    RollTracks(l, t, r.now, before);
    if d.Admitted? {
      var ws := if rolled.start == t.lane.start then t.windows else t.windows + [Window(r.now, [])];
      AdmitTracks(l, Track(rolled, ws), r.now, r.cost);
    } else if lane == t.lane {
      assert Record(t, r, lane, d) == t;
    }
  }

  lemma AdmitTracks(l: Limits, t: Track, now: real, cost: nat)
    requires l.Valid() && Tracks(l, t, now) && t.windows != [] && now < Last(t.windows).start + l.window
    requires t.lane.count + cost <= l.maxCalls && Affordable(l, t.lane, cost)
    ensures var w := Last(t.windows);
            Tracks(l, Track(Charge(t.lane, cost),
                            Init(t.windows) + [w.(admissions := w.admissions + [Admission(now, cost)])]), now)
  {
    var w := Last(t.windows);
    var xs := w.admissions + [Admission(now, cost)];
    SnocParts(w.admissions, Admission(now, cost));
    var ws := Init(t.windows) + [w.(admissions := xs)];
    SnocParts(Init(t.windows), w.(admissions := xs));
    assert WindowOk(l, w.(admissions := xs));
    assert forall i :: 0 <= i < |ws| ==> ws[i].start == t.windows[i].start;
  }

  lemma {:induction false} ReplayTracks(l: Limits, rs: seq<Request>, now: real)
    requires l.Valid() && Monotone(rs) && (rs != [] ==> Last(rs).now <= now)
    ensures Tracks(l, Replay(l, rs), now)
  {
    if rs != [] {
      var before := if |rs| == 1 then Last(rs).now else Last(Init(rs)).now;
      ReplayTracks(l, Init(rs), before);
      SectionTracks(l, Replay(l, Init(rs)), Last(rs), before);
    }
  }

  // ---- bounds over time intervals ----

  lemma {:induction false} NothingLater(xs: seq<Admission>, from: real, lo: real, hi: real)
    requires hi < from && forall i :: 0 <= i < |xs| ==> from <= xs[i].at
    ensures CostWithin(xs, lo, hi) == 0
  {
    if xs != [] {
      NothingLater(Init(xs), from, lo, hi);
    }
  }

  /** Windows that open less than `m` window lengths before `hi` contribute at most `m` windows' worth. */
  lemma {:induction false} FewWindows(l: Limits, ws: seq<Window>, lo: real, hi: real, m: nat)
    requires l.Valid() && Spaced(l, ws) && forall i :: 0 <= i < |ws| ==> WindowOk(l, ws[i])
    requires ws != [] ==> hi - ws[0].start < m as real * l.window
    ensures TotalWithin(ws, lo, hi) <= m * l.maxCalls
  {
    if ws != [] {
      var rest := ws[1..];
      assert rest != [] ==> rest[0] == ws[1];
      assert WindowOk(l, ws[0]);
      if m == 0 {
        NothingLater(ws[0].admissions, ws[0].start, lo, hi);
        FewWindows(l, rest, lo, hi, 0);
      } else {
        assert (m - 1) as real * l.window == m as real * l.window - l.window;
        FewWindows(l, rest, lo, hi, m - 1);
        assert m * l.maxCalls == (m - 1) * l.maxCalls + l.maxCalls;
      }
    }
  }

  lemma {:induction false} SomeAdmission(xs: seq<Admission>, lo: real, hi: real)
    requires forall i :: 0 <= i < |xs| ==> xs[i].at < lo
    ensures CostWithin(xs, lo, hi) == 0
  {
    if xs != [] {
      SomeAdmission(Init(xs), lo, hi);
    }
  }

  /** Over any closed interval of `m` window lengths the windows contribute at most `m + 1` windows' worth. */
  lemma {:induction false} IntervalBound(l: Limits, ws: seq<Window>, lo: real, hi: real, m: nat)
    requires l.Valid() && Spaced(l, ws) && forall i :: 0 <= i < |ws| ==> WindowOk(l, ws[i])
    requires hi - lo <= m as real * l.window
    ensures TotalWithin(ws, lo, hi) <= (m + 1) * l.maxCalls
  {
    if ws != [] {
      var rest := ws[1..];
      assert rest != [] ==> rest[0] == ws[1];
      assert WindowOk(l, ws[0]);
      var xs := ws[0].admissions;
      if forall i :: 0 <= i < |xs| ==> xs[i].at < lo {
        SomeAdmission(xs, lo, hi);
        IntervalBound(l, rest, lo, hi, m);
      } else {
        FewWindows(l, rest, lo, hi, m);
        assert (m + 1) * l.maxCalls == m * l.maxCalls + l.maxCalls;
      }
    }
  }

  lemma TracksBounds(l: Limits, t: Track, now: real, lo: real, hi: real, m: nat)
    requires l.Valid() && Tracks(l, t, now) && hi - lo <= m as real * l.window
    ensures forall i :: 0 <= i < |t.windows| ==> Cost(t.windows[i].admissions) <= l.maxCalls
    ensures TotalWithin(t.windows, lo, hi) <= (m + 1) * l.maxCalls
  {
    assert forall i :: 0 <= i < |t.windows| ==> WindowOk(l, t.windows[i]);
    IntervalBound(l, t.windows, lo, hi, m);
  }

  /** Whatever the interleaving: spent is exactly what was admitted and stays inside the budget, no
      window admits more than `max_calls`, and a closed time interval of `m` window lengths no more than
      `m + 1` times that. */
  lemma GuardBounds(l: Limits, rs: seq<Request>, lo: real, hi: real, m: nat)
    requires l.Valid() && Monotone(rs) && hi - lo <= m as real * l.window
    ensures var t := Replay(l, rs);
            && t.lane.spent == TotalCost(t.windows)
            && (l.budget.Some? ==> t.lane.spent <= l.budget.value)
            && (forall i :: 0 <= i < |t.windows| ==> Cost(t.windows[i].admissions) <= l.maxCalls)
            && TotalWithin(t.windows, lo, hi) <= (m + 1) * l.maxCalls
  {
    var now := if rs == [] then 0.0 else Last(rs).now;
    ReplayTracks(l, rs, now);
    TracksBounds(l, Replay(l, rs), now, lo, hi, m);
  }

  /** For `m == 1` the bound is reached, however short the interval: a refused check opens the window, its
      calls arrive just before its end, and the next window's calls follow at once. */
  lemma TwiceIsReached(l: Limits, before: real) returns (rs: seq<Request>)
    requires l.Valid() && l.budget.None? && 0.0 < before <= l.window
    ensures Monotone(rs)
    ensures TotalWithin(Replay(l, rs).windows, l.window - before, l.window) == 2 * l.maxCalls
  {
    var a := Request(1, 0.0, false, true);
    var b := Request(l.maxCalls, l.window - before, true, true);
    var c := Request(l.maxCalls, l.window, true, true);
    var v, w := Window(0.0, [Admission(b.now, b.cost)]), Window(c.now, [Admission(c.now, c.cost)]);
    FirstFills(l, a, b);
    SecondFills(l, [] + [a] + [b], c, v);
    TwoWindows(v, w, b.now, c.now);
    rs := [] + [a] + [b] + [c];
  }

  lemma FirstFills(l: Limits, a: Request, b: Request)
    requires l.Valid() && l.budget.None? && 0.0 <= b.now < l.window
    requires a == Request(1, 0.0, false, true) && b == Request(l.maxCalls, b.now, true, true)
    ensures Replay(l, [] + [a] + [b])
         == Track(Lane(Some(0.0), b.cost, b.cost), [Window(0.0, [Admission(b.now, b.cost)])])
  {
    var lane, open, full := Lane(Some(0.0), 0, 0), Window(0.0, []), Window(0.0, [Admission(b.now, b.cost)]);
    var first := Track(lane, [open]);
    RecordOpens(Track(IDLE, []), a, lane, CheckRefused);
    ReplayOne(l, [], a, Track(IDLE, []), first, CheckRefused);
    RecordAdmits(first, b, Charge(lane, b.cost), [], open, full, [full]);
    ReplayOne(l, [] + [a], b, first, Track(Charge(lane, b.cost), [full]), Admitted);
  }

  lemma SecondFills(l: Limits, rs: seq<Request>, c: Request, v: Window)
    requires l.Valid() && l.budget.None? && c == Request(l.maxCalls, l.window, true, true)
    requires Replay(l, rs) == Track(Lane(Some(0.0), l.maxCalls, l.maxCalls), [v])
    ensures Replay(l, rs + [c]).windows == [v, Window(c.now, [Admission(c.now, c.cost)])]
  {
    var t := Replay(l, rs);
    var lane := Charge(Roll(l, t.lane, c.now), c.cost);
    var full := Window(c.now, [Admission(c.now, c.cost)]);
    RecordAdmits(t, c, lane, [v], Window(c.now, []), full, [v, full]);
    ReplayOne(l, rs, c, t, Record(t, c, lane, Admitted), Admitted);
  }

  lemma TwoWindows(v: Window, w: Window, lo: real, hi: real)
    requires lo <= hi && |v.admissions| == 1 == |w.admissions|
    requires v.admissions[0].at == lo && w.admissions[0].at == hi
    ensures TotalWithin([v, w], lo, hi) == v.admissions[0].cost + w.admissions[0].cost
  {
    assert [v, w][1..] == [w] && [w][1..] == [];
    assert Init(v.admissions) == [] && Init(w.admissions) == [];
    assert TotalWithin([w], lo, hi) == CostWithin(w.admissions, lo, hi) + TotalWithin([], lo, hi);
  }

  lemma RecordOpens(t: Track, r: Request, after: Lane, d: Decision)
    requires after.start != t.lane.start && !d.Admitted?
    ensures Record(t, r, after, d) == Track(after, t.windows + [Window(r.now, [])])
  {
  }

  lemma RecordAdmits(t: Track, r: Request, after: Lane, ws: seq<Window>, w: Window, full: Window, result: seq<Window>)
    requires ws + [w] == if after.start == t.lane.start then t.windows else t.windows + [Window(r.now, [])]
    requires full.start == w.start && full.admissions == w.admissions + [Admission(r.now, r.cost)]
    requires result == ws + [full]
    ensures Record(t, r, after, Admitted) == Track(after, result)
  {
    SnocParts(ws, w);
  }

  lemma ReplayOne(l: Limits, rs: seq<Request>, r: Request, before: Track, after: Track, d: Decision)
    requires Replay(l, rs) == before && Section(l, before.lane, r) == (after.lane, d)
    requires Record(before, r, after.lane, d) == after
    ensures Replay(l, rs + [r]) == after
  {
    SnocParts(rs, r);
  }

  /** What the current window has admitted by `now`; nothing once it is over. */
  function UsedAt(l: Limits, t: Track, now: real): nat {
    if t.windows != [] && now < Last(t.windows).start + l.window then Cost(Last(t.windows).admissions) else 0
  }

  /** A guard admits exactly what fits: the current window's admissions and the total budget decide, and
      for the waiting guard its admission check. The refusing guard looks at the window first, the waiting one
      at the budget. */
  lemma AdmitsWhatFits(l: Limits, rs: seq<Request>, r: Request)
    requires l.Valid() && Monotone(rs + [r])
    ensures var t := Replay(l, rs); var d := Section(l, t.lane, r).1;
            var paid := l.budget.Some? ==> TotalCost(t.windows) + r.cost <= l.budget.value;
            var fits := UsedAt(l, t, r.now) + r.cost <= l.maxCalls;
            && (d.Admitted? <==> paid && fits && (r.waits ==> r.checkOk))
            && (d.OverBudget? <==> !paid && (r.waits || fits))
            && (d.RateLimited? <==> !fits && !r.waits)
            && (d.Wait? <==> paid && !fits && r.waits)
  {
    var all := rs + [r];
    assert all[|rs|] == r;
    assert forall i :: 0 <= i < |rs| ==> all[i] == rs[i];
    ReplayTracks(l, rs, r.now);
    FitsOn(l, Replay(l, rs), r);
  }

  lemma FitsOn(l: Limits, t: Track, r: Request)
    requires l.Valid() && Tracks(l, t, r.now)
    ensures var d := Section(l, t.lane, r).1;
            var paid := l.budget.Some? ==> TotalCost(t.windows) + r.cost <= l.budget.value;
            var fits := UsedAt(l, t, r.now) + r.cost <= l.maxCalls;
            && (d.Admitted? <==> paid && fits && (r.waits ==> r.checkOk))
            && (d.OverBudget? <==> !paid && (r.waits || fits))
            && (d.RateLimited? <==> !fits && !r.waits)
            && (d.Wait? <==> paid && !fits && r.waits)
  {
  }

  /** A lone affordable caller that was told to wait, and slept at least that long, is admitted next. */
  lemma OneSleepSuffices(l: Limits, lane: Lane, cost: nat, now: real, checkOk: bool, wake: real)
    requires l.Valid() && cost <= l.maxCalls
    requires PaceSection(l, lane, cost, now, checkOk).1.Wait?
    requires lane.start.Some? ==> lane.start.value <= now
    requires now + PaceSection(l, lane, cost, now, checkOk).1.seconds <= wake
    ensures PaceSection(l, PaceSection(l, lane, cost, now, checkOk).0, cost, wake, true).1.Admitted?
    ensures PaceSection(l, lane, cost, now, checkOk).1.seconds <= l.window
  {
  }

  // ---- the guards themselves ----

  class Clock {
    var now: real

    constructor (start: real)
      ensures now == start
    {
      now := start;
    }

    /** Sleeping takes at least as long as asked. */
    method Sleep(seconds: real, extra: real)
      requires 0.0 <= extra
      modifies this
      ensures now == old(now) + seconds + extra
    {
      now := now + seconds + extra;
    }
  }

  class AsyncPacingCostRateGuard {
    const limits: Limits
    var windowStart: map<string, real>
    var windowCount: map<string, nat>
    var spent: map<string, nat>

    constructor (limits: Limits)
      requires limits.Valid()
      ensures this.limits == limits && forall v :: LaneOf(v) == IDLE
    {
      this.limits := limits;
      windowStart, windowCount, spent := map[], map[], map[];
    }

    function LaneOf(vendor: string): Lane
      reads this
    {
      Lane(if vendor in windowStart then Some(windowStart[vendor]) else None,
           if vendor in windowCount then windowCount[vendor] else 0,
           if vendor in spent then spent[vendor] else 0)
    }

    /** The locked section of one loop pass. */
    method Section(vendor: string, cost: nat, now: real, checkOk: bool) returns (d: Decision)
      requires limits.Valid() && 1 <= cost <= limits.maxCalls
      modifies this
      ensures (LaneOf(vendor), d) == PaceSection(limits, old(LaneOf(vendor)), cost, now, checkOk)
      ensures forall v :: v != vendor ==> LaneOf(v) == old(LaneOf(v))
    {
      var used := if vendor in spent then spent[vendor] else 0;
      if limits.budget.Some? && limits.budget.value < used + cost {
        return OverBudget;
      }
      if vendor !in windowStart || limits.window <= now - windowStart[vendor] {
        windowStart := windowStart[vendor := now];
        windowCount := windowCount[vendor := 0];
      }
      var start := windowStart[vendor];
      var count := if vendor in windowCount then windowCount[vendor] else 0;
      if count + cost <= limits.maxCalls {
        if !checkOk {
          return CheckRefused;
        }
        windowCount := windowCount[vendor := count + cost];
        spent := spent[vendor := used + cost];
        return Admitted;
      }
      var wait := start + limits.window - now;
      return Wait(if wait < 0.0 then 0.0 else wait);
    }

    /** The whole loop, when no other caller comes between: at most one sleep, then a final decision. */
    method AcquireAlone(vendor: string, cost: nat, clock: Clock, extra: real, checkOk: bool)
      returns (d: Decision, sleeps: nat)
      requires limits.Valid() && 1 <= cost <= limits.maxCalls && 0.0 <= extra
      requires LaneOf(vendor).start.Some? ==> LaneOf(vendor).start.value <= clock.now
      modifies this, clock
      ensures sleeps <= 1 && !d.Wait? && !d.RateLimited?
      ensures d.OverBudget? <==> !Affordable(limits, old(LaneOf(vendor)), cost)
      ensures Affordable(limits, old(LaneOf(vendor)), cost) && checkOk ==> d.Admitted?
      ensures LaneOf(vendor).spent == old(LaneOf(vendor)).spent + (if d.Admitted? then cost else 0)
      ensures sleeps == 1 ==> clock.now <= old(clock.now) + limits.window + extra
    {
      sleeps := 0;
      d := Section(vendor, cost, clock.now, checkOk);
      while d.Wait?
        invariant sleeps <= 1 && (d.Wait? ==> sleeps == 0) && !d.RateLimited?
        invariant d.Wait? ==> (LaneOf(vendor), d) == PaceSection(limits, old(LaneOf(vendor)), cost, clock.now, checkOk)
        invariant d.Wait? ==> clock.now == old(clock.now)
        invariant d.OverBudget? <==> !Affordable(limits, old(LaneOf(vendor)), cost)
        invariant !d.Wait? && checkOk && Affordable(limits, old(LaneOf(vendor)), cost) ==> d.Admitted?
        invariant LaneOf(vendor).spent == old(LaneOf(vendor)).spent + (if d.Admitted? then cost else 0)
        invariant sleeps == 1 ==> clock.now <= old(clock.now) + limits.window + extra
        decreases if d.Wait? then 1 else 0
      {
        OneSleepSuffices(limits, old(LaneOf(vendor)), cost, clock.now, checkOk, clock.now + d.seconds + extra);
        clock.Sleep(d.seconds, extra);
        sleeps := sleeps + 1;
        d := Section(vendor, cost, clock.now, checkOk);
      }
    }
  }

  class InMemoryCostRateGuard {
    const limits: Limits
    var windowStart: map<string, real>
    var windowCount: map<string, nat>
    var spent: map<string, nat>

    constructor (limits: Limits)
      requires limits.Valid()
      ensures this.limits == limits && forall v :: LaneOf(v) == IDLE
    {
      this.limits := limits;
      windowStart, windowCount, spent := map[], map[], map[];
    }

    function LaneOf(vendor: string): Lane
      reads this
    {
      Lane(if vendor in windowStart then Some(windowStart[vendor]) else None,
           if vendor in windowCount then windowCount[vendor] else 0,
           if vendor in spent then spent[vendor] else 0)
    }

    method Acquire(vendor: string, cost: nat, now: real) returns (d: Decision)
      requires limits.Valid() && 1 <= cost
      modifies this
      ensures (LaneOf(vendor), d) == RefuseSection(limits, old(LaneOf(vendor)), cost, now)
      ensures forall v :: v != vendor ==> LaneOf(v) == old(LaneOf(v))
    {
      if vendor !in windowStart || limits.window <= now - windowStart[vendor] {
        windowStart := windowStart[vendor := now];
        windowCount := windowCount[vendor := 0];
      }
      var count := if vendor in windowCount then windowCount[vendor] else 0;
      var used := if vendor in spent then spent[vendor] else 0;
      if limits.maxCalls < count + cost {
        return RateLimited;
      }
      if limits.budget.Some? && limits.budget.value < used + cost {
        return OverBudget;
      }
      windowCount := windowCount[vendor := count + cost];
      spent := spent[vendor := used + cost];
      return Admitted;
    }
  }
}
