/** The guard between one armed acquisition call and the vendor: one admission per armed call, all of
    them paced and budgeted in a single global lane. */
module PlanBoundGuard {
  import opened Common
  import opened LedgerRecords
  import opened PacingGuard

  const GLOBAL_BUDGET_KEY := "polygon_authorized_acquisition"
  const VENDORS: set<string> := {"polygon", "polygon_open_close"}

  datatype Admit = Passed | Mismatch | Paced(decision: Decision)

  /** An attempt is one for the armed call, which has not been admitted yet. */
  predicate Fits(armed: Option<Call>, acquired: bool, vendor: string, cost: nat, endpoint: Option<Endpoint>) {
    && armed.Some? && !acquired
    && vendor in VENDORS && cost == 1 && endpoint == Some(armed.value.endpoint)
  }

  class PlanBoundGlobalGuard {
    var armed: Option<Call>
    var acquired: bool
    const pacer: AsyncPacingCostRateGuard
    ghost var spentAtArm: nat

    constructor (totalBudget: nat)
      ensures Valid() && fresh(pacer) && pacer.limits == Limits(5, 60.0, Some(totalBudget))
      ensures armed.None? && Spent() == 0
    {
      armed, acquired := None, false;
      pacer := new AsyncPacingCostRateGuard(Limits(5, 60.0, Some(totalBudget)));
      spentAtArm := 0;
    }

    function Spent(): nat
      reads this, pacer
    {
      pacer.LaneOf(GLOBAL_BUDGET_KEY).spent
    }

    /** While a call is armed, exactly its own admission has been charged since it was armed. */
    predicate Settled(spentBefore: nat)
      reads this, pacer
    {
      && (armed.None? ==> !acquired)
      && (armed.Some? ==> Spent() == spentBefore + (if acquired then 1 else 0))
    }

    ghost predicate Valid()
      reads this, pacer
    {
      && pacer.limits.Valid()
      && Settled(spentAtArm)
      && (pacer.limits.budget.Some? ==> Spent() <= pacer.limits.budget.value)
    }

    method Arm(call: Call) returns (ok: bool)
      requires Valid()
      modifies this
      ensures Valid() && ok == old(armed).None?
      ensures ok ==> armed == Some(call) && !acquired && spentAtArm == Spent()
      ensures !ok ==> armed == old(armed) && acquired == old(acquired) && spentAtArm == old(spentAtArm)
    {
      if armed.Some? {
        return false;
      }
      armed, acquired := Some(call), false;
      spentAtArm := Spent();
      return true;
    }

    /** Completion tells whether the armed call was charged, which is exactly what the lane shows. */
    method Finish(call: Call) returns (r: Option<bool>)
      requires Valid()
      modifies this
      ensures Valid() && spentAtArm == old(spentAtArm)
      ensures r.Some? <==> old(armed) == Some(call)
      ensures r.Some? ==> armed.None? && Spent() == spentAtArm + (if r.value then 1 else 0)
      ensures r.None? ==> armed == old(armed) && acquired == old(acquired)
    {
      if armed != Some(call) {
        return None;
      }
      r := Some(acquired);
      armed, acquired := None, false;
    }

    /** One admission attempt, alone on the lane. It charges one call exactly when it passes, and it passes
        at most once while a call stays armed. */
    method Acquire(vendor: string, cost: nat, endpoint: Option<Endpoint>, clock: Clock, extra: real, checkOk: bool)
      returns (r: Admit)
      requires Valid() && 0.0 <= extra
      requires var lane := pacer.LaneOf(GLOBAL_BUDGET_KEY); lane.start.Some? ==> lane.start.value <= clock.now
      modifies this, pacer, clock
      ensures Valid() && armed == old(armed) && spentAtArm == old(spentAtArm)
      ensures r.Passed? ==> acquired
      ensures !r.Passed? ==> acquired == old(acquired)
      ensures Spent() == old(Spent()) + (if r.Passed? then 1 else 0)
      ensures r.Mismatch? <==> !Fits(old(armed), old(acquired), vendor, cost, endpoint)
      ensures !r.Mismatch? && checkOk && Affordable(pacer.limits, old(pacer.LaneOf(GLOBAL_BUDGET_KEY)), 1) ==> r.Passed?
    {
      if armed.None? || acquired || vendor !in VENDORS || cost != 1 || endpoint != Some(armed.value.endpoint) {
        return Mismatch;
      }
      var d, _ := pacer.AcquireAlone(GLOBAL_BUDGET_KEY, 1, clock, extra, checkOk);
      if !d.Admitted? {
        return Paced(d);
      }
      acquired := true;
      return Passed;
    }
  }

  // ---- attempts that overlap ----

  /** The guard with attempts in flight. An attempt is checked when it enters, waits in the pacer, and sets
      the flag when the pacer has charged it: `charges` counts since the guard was last armed, `strays`
      what was charged while nothing was armed. */
  datatype Flight = Flight(armed: Option<Call>, acquired: bool, waiting: nat, charges: nat, strays: nat)

  const GROUNDED := Flight(None, false, 0, 0, 0)

  datatype Act =
    | Arms(call: Call)
    | Finishes(call: Call)
    | Enters(vendor: string, cost: nat, endpoint: Option<Endpoint>)
    | Charged
    | Refused

  predicate Passes(s: Flight, e: Act) {
    e.Enters? && Fits(s.armed, s.acquired, e.vendor, e.cost, e.endpoint)
  }

  function After(s: Flight, e: Act): Flight {
    match e
    case Arms(call) => if s.armed.Some? then s else s.(armed := Some(call), acquired := false, charges := 0)
    case Finishes(call) => if s.armed != Some(call) then s else s.(armed := None, acquired := false)
    case Enters(_, _, _) => if Passes(s, e) then s.(waiting := s.waiting + 1) else s
    case Refused => if s.waiting == 0 then s else s.(waiting := s.waiting - 1)
    case Charged =>
      if s.waiting == 0 then s
      else if s.armed.Some? then s.(waiting := s.waiting - 1, acquired := true, charges := s.charges + 1)
      else s.(waiting := s.waiting - 1, acquired := true, strays := s.strays + 1)
  }

  function Fly(acts: seq<Act>): Flight {
    if acts == [] then GROUNDED else After(Fly(Init(acts)), Last(acts))
  }

  /** What completion reports is true: the armed call was charged once if admitted and not at all if not,
      and nothing was charged outside. */
  predicate Honest(s: Flight) {
    s.strays == 0 && (s.armed.Some? ==> s.charges == if s.acquired then 1 else 0)
  }

  /** While an attempt waits, no other one enters and the armed call is not completed. */
  predicate Alone(s: Flight, e: Act) {
    s.waiting > 0 ==> !Passes(s, e) && !(e.Finishes? && s.armed == Some(e.call))
  }

  predicate NoOverlap(acts: seq<Act>) {
    acts == [] || (NoOverlap(Init(acts)) && Alone(Fly(Init(acts)), Last(acts)))
  }

  /** The pacer charges up to `n` waiting attempts. */
  function Charging(n: nat): seq<Act> {
    if n == 0 then [] else Charging(n - 1) + [Charged]
  }

  predicate Settling(s: Flight) {
    Honest(s) && s.waiting <= 1 && (s.waiting == 1 ==> s.armed.Some? && !s.acquired)
  }

  lemma {:induction false} StaysSettling(acts: seq<Act>)
    requires NoOverlap(acts)
    ensures Settling(Fly(acts))
  {
    if acts != [] {
      StaysSettling(Init(acts));
    }
  }

  lemma FlyOn(acts: seq<Act>, n: nat)
    ensures Fly(acts + Charging(n + 1)) == After(Fly(acts + Charging(n)), Charged)
    ensures acts + Charging(0) == acts
  {
    SnocParts(acts + Charging(n), Charged);
    assert acts + Charging(n + 1) == acts + Charging(n) + [Charged];
  }

  lemma {:induction false} ChargingSettles(acts: seq<Act>, n: nat)
    requires Settling(Fly(acts))
    ensures Settling(Fly(acts + Charging(n)))
  {
    FlyOn(acts, 0);
    if n > 0 {
      ChargingSettles(acts, n - 1);
      FlyOn(acts, n - 1);
    }
  }

  lemma {:induction false} PrefixAlone(acts: seq<Act>, k: nat)
    requires NoOverlap(acts) && k <= |acts|
    ensures NoOverlap(acts[..k])
    decreases |acts|
  {
    if k == |acts| {
      assert acts[..k] == acts;
    } else {
      PrefixAlone(Init(acts), k);
      assert Init(acts)[..k] == acts[..k];
    }
  }

  /** The first overlap, and the charges that show it. */
  lemma {:induction false} OverlapShows(acts: seq<Act>) returns (k: nat, n: nat)
    requires !NoOverlap(acts)
    ensures k <= |acts| && !Honest(Fly(acts[..k] + Charging(n)))
  {
    if !NoOverlap(Init(acts)) {
      k, n := OverlapShows(Init(acts));
      assert acts[..k] == Init(acts)[..k];
    } else {
      StaysSettling(Init(acts));
      k, n := |acts|, if Last(acts).Enters? then 2 else 1;
      assert acts[..k] == acts;
      FlyOn(acts, 0);
      FlyOn(acts, 1);
    }
  }

  /** One charge per armed call, truthfully reported, whatever attempts the pacer grants and whenever: that
      holds exactly when no attempt enters and no call completes while another attempt is waiting. */
  lemma OneChargeIff(acts: seq<Act>)
    ensures NoOverlap(acts) <==> forall k: nat, n: nat :: k <= |acts| ==> Honest(Fly(acts[..k] + Charging(n)))
  {
    if NoOverlap(acts) {
      forall k: nat, n: nat | k <= |acts| ensures Honest(Fly(acts[..k] + Charging(n))) {
        PrefixAlone(acts, k);
        StaysSettling(acts[..k]);
        ChargingSettles(acts[..k], n);
      }
    } else {
      var k, n := OverlapShows(acts);
    }
  }
}
