/** What factor sets promise: order independence, a decode that rebuilds exactly what was built, and
    factors that are products over the later actions. */
module FactorArtifact {
  import opened Common
  import opened Sorting
  import opened Decimal34
  import opened FactorKernel
  import opened AdjustmentFactors

  // ---- the sort orders ----

  lemma DayOrder()
    ensures StrictOrder(BY_DAY)
  {
  }

  lemma EventOrder(d: int, a: string, e: int, b: string, f: int, c: string)
    ensures !(d < d || (d == d && TextLess(a, a)))
    ensures (d < e || (d == e && TextLess(a, b))) && (e < f || (e == f && TextLess(b, c))) ==>
              d < f || (d == f && TextLess(a, c))
  {
    TextLessIrreflexive(a);
    if TextLess(a, b) && TextLess(b, c) {
      TextLessTransitive(a, b, c);
    }
  }

  lemma ActionOrders()
    ensures StrictOrder(SPLIT_ORDER) && StrictOrder(DIVIDEND_ORDER)
  {
    forall x: SplitInput, y: SplitInput, z: SplitInput
      ensures !SPLIT_ORDER(x, x) && (SPLIT_ORDER(x, y) && SPLIT_ORDER(y, z) ==> SPLIT_ORDER(x, z))
    {
      EventOrder(x.day, x.eventId, y.day, y.eventId, z.day, z.eventId);
    }
    forall x: DividendInput, y: DividendInput, z: DividendInput
      ensures !DIVIDEND_ORDER(x, x) && (DIVIDEND_ORDER(x, y) && DIVIDEND_ORDER(y, z) ==> DIVIDEND_ORDER(x, z))
    {
      EventOrder(x.day, x.eventId, y.day, y.eventId, z.day, z.eventId);
    }
  }

  lemma SeriesSeparated(calendar: seq<TradingDay>, rows: seq<RawInput>, cutoff: int)
    requires SeriesOk(calendar, rows, cutoff)
    ensures Separated(multiset(rows), BY_DAY)
  {
    DistinctPairs(Days(rows));
    assert forall i :: 0 <= i < |rows| ==> Days(rows)[i] == rows[i].day;
    SeparatedByKey(rows, (r: RawInput) => r.day, BY_DAY);
  }

  lemma ActionsSeparated(splits: seq<SplitInput>, dividends: seq<DividendInput>)
    requires ActionsOk(splits, dividends)
    ensures Separated(multiset(splits), SPLIT_ORDER) && Separated(multiset(dividends), DIVIDEND_ORDER)
  {
    var days := SplitDays(splits) + DividendDays(dividends);
    DistinctPairs(days);
    assert forall i :: 0 <= i < |splits| ==> days[i] == splits[i].day;
    assert forall i :: 0 <= i < |dividends| ==> days[|splits| + i] == dividends[i].day;
    SeparatedByKey(splits, (x: SplitInput) => x.day, SPLIT_ORDER);
    SeparatedByKey(dividends, (x: DividendInput) => x.day, DIVIDEND_ORDER);
  }

  // ---- order independence ----

  lemma RawsAgree(calendar: seq<TradingDay>, b: Binary64, xs: seq<RawClose<real>>, ys: seq<RawClose<real>>, cutoff: int)
    requires multiset(xs) == multiset(ys)
    ensures ValidRaws(calendar, b, xs, cutoff) == ValidRaws(calendar, b, ys, cutoff)
  {
    assert |xs| == |multiset(xs)| == |multiset(ys)| == |ys|;
    var f := RawNormaliser(b, cutoff);
    CollectPermutes(xs, ys, f);
    DayOrder();
    if Collect(xs, f).Some? {
      var us, vs := Collect(xs, f).value, Collect(ys, f).value;
      var s, t := Sort(us, BY_DAY), Sort(vs, BY_DAY);
      if SeriesOk(calendar, s, cutoff) {
        SeriesSeparated(calendar, s, cutoff);
        SortAgrees(us, vs, BY_DAY);
      } else if SeriesOk(calendar, t, cutoff) {
        SeriesSeparated(calendar, t, cutoff);
        SortAgrees(us, vs, BY_DAY);
      }
    }
  }

  /** Either both arrangements pass the checks with the same sorted actions, or neither passes. */
  lemma ActionsAgree(us: seq<SplitInput>, vs: seq<SplitInput>, ds: seq<DividendInput>, es: seq<DividendInput>)
    requires multiset(us) == multiset(vs) && multiset(ds) == multiset(es)
    requires ActionsOk(Sort(us, SPLIT_ORDER), Sort(ds, DIVIDEND_ORDER))
    ensures Sort(us, SPLIT_ORDER) == Sort(vs, SPLIT_ORDER) && Sort(ds, DIVIDEND_ORDER) == Sort(es, DIVIDEND_ORDER)
  {
    ActionOrders();
    ActionsSeparated(Sort(us, SPLIT_ORDER), Sort(ds, DIVIDEND_ORDER));
    SortAgrees(us, vs, SPLIT_ORDER);
    SortAgrees(ds, es, DIVIDEND_ORDER);
  }

  lemma ActionsAgreeBothWays(raws: seq<RawInput>, xs: seq<SplitVersion<real>>, ys: seq<SplitVersion<real>>,
                             ds: seq<DividendVersion<real>>, es: seq<DividendVersion<real>>)
    requires multiset(xs) == multiset(ys) && multiset(ds) == multiset(es)
    ensures ValidActions(raws, xs, ds) == ValidActions(raws, ys, es)
  {
    var f, g := SplitNormaliser(DaySet(raws)), DividendNormaliser(DaySet(raws));
    CollectPermutes(xs, ys, f);
    CollectPermutes(ds, es, g);
    if Collect(xs, f).Some? && Collect(ds, g).Some? {
      var us, vs := Collect(xs, f).value, Collect(ys, f).value;
      var ms, ns := Collect(ds, g).value, Collect(es, g).value;
      if ActionsOk(Sort(us, SPLIT_ORDER), Sort(ms, DIVIDEND_ORDER)) {
        ActionsAgree(us, vs, ms, ns);
      } else if ActionsOk(Sort(vs, SPLIT_ORDER), Sort(ns, DIVIDEND_ORDER)) {
        ActionsAgree(vs, us, ns, ms);
      }
    }
  }

  /** Building forgets the order of raw closes, splits and dividends: same verdict, same rows, same
      payload, same ID. */
  lemma OrderIndependent(calendar: seq<TradingDay>, b: Binary64, x: Inputs, y: Inputs)
    requires y == x.(raws := y.raws, splits := y.splits, dividends := y.dividends)
    requires multiset(x.raws) == multiset(y.raws)
    requires multiset(x.splits) == multiset(y.splits) && multiset(x.dividends) == multiset(y.dividends)
    ensures FactorSetOf(calendar, b, x) == FactorSetOf(calendar, b, y)
  {
    RawsAgree(calendar, b, x.raws, y.raws, x.cutoff);
    var raws := ValidRaws(calendar, b, x.raws, x.cutoff);
    if raws.Some? {
      ActionsAgreeBothWays(raws.value, x.splits, y.splits, x.dividends, y.dividends);
    }
  }

  // ---- decoding ----

  /** The inputs a stored payload names. */
  function PayloadInputs(p: Payload): Inputs {
    Inputs(p.symbol, p.cutoff, p.raws, p.splitCollection, p.splits, p.dividendCollection, p.dividends)
  }

  /** Rebuild from the payload, and accept only what comes back identical. */
  function Decode(calendar: seq<TradingDay>, b: Binary64, p: Payload, expected: FactorSetId): Option<FactorSet> {
    match FactorSetOf(calendar, b, PayloadInputs(p))
    case None => None
    case Some(set_) => if set_.id == expected && set_.payload == p then Some(set_) else None
  }

  /** A normalised row is its own normal form. */
  lemma RawFixed(b: Binary64, cutoff: int, r: RawClose<real>)
    requires Lawful(b) && NormalRaw(b, cutoff, r).Some?
    ensures NormalRaw(b, cutoff, NormalRaw(b, cutoff, r).value) == NormalRaw(b, cutoff, r)
  {
    var f := b.nearest(Round(r.close)).value;
    assert CanonicalClose(b, r.close) == Some(b.shortest(f));
    assert CanonicalClose(b, b.shortest(f)) == Some(b.shortest(f));
  }

  lemma SplitFixed(days: set<int>, s: SplitVersion<real>)
    requires NormalSplit(days, s).Some?
    ensures NormalSplit(days, NormalSplit(days, s).value) == NormalSplit(days, s)
  {
    RoundIdempotent(s.from);
    RoundIdempotent(s.to);
  }

  lemma DividendFixed(days: set<int>, d: DividendVersion<real>)
    requires NormalDividend(days, d).Some?
    ensures NormalDividend(days, NormalDividend(days, d).value) == NormalDividend(days, d)
  {
    RoundIdempotent(d.cash);
  }

  lemma RawsFixed(calendar: seq<TradingDay>, b: Binary64, values: seq<RawClose<real>>, cutoff: int)
    requires Lawful(b) && ValidRaws(calendar, b, values, cutoff).Some?
    ensures var raws := ValidRaws(calendar, b, values, cutoff).value;
            ValidRaws(calendar, b, raws, cutoff) == Some(raws)
  {
    var f := RawNormaliser(b, cutoff);
    var rows := Collect(values, f).value;
    var raws := Sort(rows, BY_DAY);
    DayOrder();
    SeriesSeparated(calendar, raws, cutoff);
    SortedAgain(rows, BY_DAY);
    CollectAt(values, f);
    forall i | 0 <= i < |raws| ensures f(raws[i]) == Some(raws[i]) {
      var r := SortedCollected(values, f, BY_DAY, i);
      RawFixed(b, cutoff, r);
    }
    var inputs: seq<RawClose<real>> := raws;
    CollectFixed(inputs, f, raws);
  }

  lemma ActionsFixed(raws: seq<RawInput>, splits: seq<SplitVersion<real>>, dividends: seq<DividendVersion<real>>)
    requires ValidActions(raws, splits, dividends).Some?
    ensures var (s, d) := ValidActions(raws, splits, dividends).value; ValidActions(raws, s, d) == Some((s, d))
  {
    var f, g := SplitNormaliser(DaySet(raws)), DividendNormaliser(DaySet(raws));
    var us, vs := Collect(splits, f).value, Collect(dividends, g).value;
    var s, d := Sort(us, SPLIT_ORDER), Sort(vs, DIVIDEND_ORDER);
    ActionOrders();
    ActionsSeparated(s, d);
    SortedAgain(us, SPLIT_ORDER);
    SortedAgain(vs, DIVIDEND_ORDER);
    forall i | 0 <= i < |s| ensures f(s[i]) == Some(s[i]) {
      var x := SortedCollected(splits, f, SPLIT_ORDER, i);
      SplitFixed(DaySet(raws), x);
    }
    forall i | 0 <= i < |d| ensures g(d[i]) == Some(d[i]) {
      var x := SortedCollected(dividends, g, DIVIDEND_ORDER, i);
      DividendFixed(DaySet(raws), x);
    }
    var ss: seq<SplitVersion<real>>, ds: seq<DividendVersion<real>> := s, d;
    CollectFixed(ss, f, s);
    CollectFixed(ds, g, d);
  }

  /** Rebuilding from the payload of a built set gives back the identical set. */
  lemma BuiltFixed(calendar: seq<TradingDay>, b: Binary64, x: Inputs)
    requires Lawful(b) && FactorSetOf(calendar, b, x).Some?
    ensures var s := FactorSetOf(calendar, b, x).value; FactorSetOf(calendar, b, PayloadInputs(s.payload)) == Some(s)
  {
    RawsFixed(calendar, b, x.raws, x.cutoff);
    ActionsFixed(ValidRaws(calendar, b, x.raws, x.cutoff).value, x.splits, x.dividends);
  }

  /** The decoder accepts exactly the payloads that building produces, under their own digest. */
  lemma DecodeAcceptsBuilt(calendar: seq<TradingDay>, b: Binary64, p: Payload, id: FactorSetId)
    requires Lawful(b)
    ensures Decode(calendar, b, p, id).Some? <==>
              && id == PayloadDigest(p)
              && exists x :: FactorSetOf(calendar, b, x).Some? && FactorSetOf(calendar, b, x).value.payload == p
  {
    if Decode(calendar, b, p, id).Some? {
      assert FactorSetOf(calendar, b, PayloadInputs(p)).value.payload == p;
    }
    forall x | FactorSetOf(calendar, b, x).Some? && FactorSetOf(calendar, b, x).value.payload == p
      ensures FactorSetOf(calendar, b, PayloadInputs(p)) == FactorSetOf(calendar, b, x)
    {
      BuiltFixed(calendar, b, x);
    }
  }

  /** Any change to a built payload that is still accepted under the old ID changes nothing. */
  lemma DecodedIsBuilt(calendar: seq<TradingDay>, b: Binary64, x: Inputs, p: Payload)
    requires Lawful(b) && FactorSetOf(calendar, b, x).Some?
    requires Decode(calendar, b, p, FactorSetOf(calendar, b, x).value.id).Some?
    ensures Decode(calendar, b, p, FactorSetOf(calendar, b, x).value.id) == FactorSetOf(calendar, b, x)
  {
    BuiltFixed(calendar, b, x);
  }

  // ---- factors as products over the later actions ----

  /** What one action contributes to every earlier session. */
  datatype Step = Step(day: int, ratio: Positive)

  /** The product of the steps after `day`, in whatever order they are listed. */
  function LaterProduct(steps: seq<Step>, day: int): Positive {
    if steps == [] then 1.0
    else if day < Last(steps).day then Times(LaterProduct(Init(steps), day), Last(steps).ratio)
    else LaterProduct(Init(steps), day)
  }

  function StepOn(steps: seq<Step>, day: int): Positive {
    if steps == [] then 1.0
    else if Last(steps).day == day then Last(steps).ratio
    else StepOn(Init(steps), day)
  }

  ghost predicate DistinctSteps(steps: seq<Step>) {
    forall i, j :: 0 <= i < j < |steps| ==> steps[i].day != steps[j].day
  }

  lemma {:induction false} NoStepOn(steps: seq<Step>, day: int)
    requires forall i :: 0 <= i < |steps| ==> steps[i].day != day
    ensures StepOn(steps, day) == 1.0
  {
    if steps != [] {
      NoStepOn(Init(steps), day);
    }
  }

  lemma {:induction false} StepOnAt(steps: seq<Step>, k: nat)
    requires DistinctSteps(steps) && k < |steps|
    ensures StepOn(steps, steps[k].day) == steps[k].ratio
  {
    if k < |steps| - 1 {
      StepOnAt(Init(steps), k);
    }
  }

  lemma {:induction false} NothingLater(steps: seq<Step>, day: int)
    requires forall i :: 0 <= i < |steps| ==> steps[i].day <= day
    ensures LaterProduct(steps, day) == 1.0
  {
    if steps != [] {
      NothingLater(Init(steps), day);
    }
  }

  /** One session further back, the step of the session just passed joins the product. */
  lemma {:induction false} ProductGrows(steps: seq<Step>, lo: int, hi: int)
    requires DistinctSteps(steps) && lo < hi
    requires forall i :: 0 <= i < |steps| && lo < steps[i].day ==> hi <= steps[i].day
    ensures LaterProduct(steps, lo) == Times(LaterProduct(steps, hi), StepOn(steps, hi))
  {
    if steps != [] {
      var rest, s := Init(steps), Last(steps);
      assert forall i :: 0 <= i < |rest| ==> rest[i] == steps[i];
      ProductGrows(rest, lo, hi);
      if s.day == hi {
        NoStepOn(rest, hi);
      } else if hi < s.day {
        Regrouped(LaterProduct(rest, hi), StepOn(rest, hi), s.ratio);
      }
    }
  }

  function CloseOn(raws: seq<RawInput>, day: int): Positive {
    if raws == [] then 1.0 else if Last(raws).day == day then Last(raws).close else CloseOn(Init(raws), day)
  }

  /** Every split multiplies earlier prices by from over to, every dividend by the post-action close
      over that close plus the cash. */
  function PriceSteps(raws: seq<RawInput>, splits: seq<SplitInput>, dividends: seq<DividendInput>): (r: seq<Step>)
    ensures |r| == |splits| + |dividends|
  {
    seq(|splits|, i requires 0 <= i < |splits| => Step(splits[i].day, splits[i].from / splits[i].to))
    + seq(|dividends|, i requires 0 <= i < |dividends| =>
        var close := CloseOn(raws, dividends[i].day); Step(dividends[i].day, close / (close + dividends[i].cash)))
  }

  function VolumeSteps(splits: seq<SplitInput>): (r: seq<Step>)
    ensures |r| == |splits|
  {
    seq(|splits|, i requires 0 <= i < |splits| => Step(splits[i].day, splits[i].to / splits[i].from))
  }

  lemma {:induction false} CloseOnAt(raws: seq<RawInput>, k: nat)
    requires k < |raws| && forall i, j :: 0 <= i < j < |raws| ==> raws[i].day < raws[j].day
    ensures CloseOn(raws, raws[k].day) == raws[k].close
  {
    if k < |raws| - 1 {
      CloseOnAt(Init(raws), k);
    }
  }

  lemma {:induction false} SplitLookup(splits: seq<SplitInput>, day: int)
    requires forall i, j :: 0 <= i < j < |splits| ==> splits[i].day != splits[j].day
    ensures day in SplitByDate(splits) <==> exists i :: 0 <= i < |splits| && splits[i].day == day
    ensures forall i :: 0 <= i < |splits| && splits[i].day == day ==> SplitByDate(splits)[day] == splits[i]
  {
    if splits != [] {
      SplitLookup(Init(splits), day);
      assert splits[|splits| - 1] == Last(splits);
      assert forall i :: 0 <= i < |splits| - 1 ==> Init(splits)[i] == splits[i];
    }
  }

  lemma {:induction false} DividendLookup(dividends: seq<DividendInput>, day: int)
    requires forall i, j :: 0 <= i < j < |dividends| ==> dividends[i].day != dividends[j].day
    ensures day in DividendByDate(dividends) <==> exists i :: 0 <= i < |dividends| && dividends[i].day == day
    ensures forall i :: 0 <= i < |dividends| && dividends[i].day == day ==>
              DividendByDate(dividends)[day] == dividends[i]
  {
    if dividends != [] {
      DividendLookup(Init(dividends), day);
      assert dividends[|dividends| - 1] == Last(dividends);
      assert forall i :: 0 <= i < |dividends| - 1 ==> Init(dividends)[i] == dividends[i];
    }
  }

  /** A validated window: sorted sessions, and at most one action on each, none elsewhere. */
  ghost predicate WindowOk(raws: seq<RawInput>, splits: seq<SplitInput>, dividends: seq<DividendInput>) {
    && (forall i, j :: 0 <= i < j < |raws| ==> raws[i].day < raws[j].day)
    && (forall i :: 0 <= i < |splits| ==> splits[i].day in DaySet(raws))
    && (forall i :: 0 <= i < |dividends| ==> dividends[i].day in DaySet(raws))
    && (forall i, j :: 0 <= i < j < |splits| ==> splits[i].day != splits[j].day)
    && (forall i, j :: 0 <= i < j < |dividends| ==> dividends[i].day != dividends[j].day)
    && (forall i, j :: 0 <= i < |splits| && 0 <= j < |dividends| ==> splits[i].day != dividends[j].day)
  }

  lemma StepsDistinct(raws: seq<RawInput>, splits: seq<SplitInput>, dividends: seq<DividendInput>)
    requires WindowOk(raws, splits, dividends)
    ensures DistinctSteps(PriceSteps(raws, splits, dividends)) && DistinctSteps(VolumeSteps(splits))
  {
    var ps := PriceSteps(raws, splits, dividends);
    assert forall i :: 0 <= i < |splits| ==> ps[i].day == splits[i].day;
    assert forall i :: |splits| <= i < |ps| ==> ps[i].day == dividends[i - |splits|].day;
  }

  lemma SplitRatio(raws: seq<RawInput>, splits: seq<SplitInput>, dividends: seq<DividendInput>, i: nat, k: nat)
    requires WindowOk(raws, splits, dividends) && i < |raws| && k < |splits| && splits[k].day == raws[i].day
    ensures PriceRatio(Window(raws, splits, dividends)[i]) == StepOn(PriceSteps(raws, splits, dividends), raws[i].day)
    ensures VolumeRatio(Window(raws, splits, dividends)[i]) == StepOn(VolumeSteps(splits), raws[i].day)
  {
    StepsDistinct(raws, splits, dividends);
    SplitLookup(splits, raws[i].day);
    StepOnAt(PriceSteps(raws, splits, dividends), k);
    StepOnAt(VolumeSteps(splits), k);
  }

  lemma DividendRatio(raws: seq<RawInput>, splits: seq<SplitInput>, dividends: seq<DividendInput>, i: nat, k: nat)
    requires WindowOk(raws, splits, dividends) && i < |raws| && k < |dividends| && dividends[k].day == raws[i].day
    ensures PriceRatio(Window(raws, splits, dividends)[i]) == StepOn(PriceSteps(raws, splits, dividends), raws[i].day)
    ensures VolumeRatio(Window(raws, splits, dividends)[i]) == StepOn(VolumeSteps(splits), raws[i].day)
  {
    StepsDistinct(raws, splits, dividends);
    SplitLookup(splits, raws[i].day);
    DividendLookup(dividends, raws[i].day);
    StepOnAt(PriceSteps(raws, splits, dividends), |splits| + k);
    NoStepOn(VolumeSteps(splits), raws[i].day);
    CloseOnAt(raws, i);
  }

  lemma QuietRatio(raws: seq<RawInput>, splits: seq<SplitInput>, dividends: seq<DividendInput>, i: nat)
    requires WindowOk(raws, splits, dividends) && i < |raws|
    requires forall k :: 0 <= k < |splits| ==> splits[k].day != raws[i].day
    requires forall k :: 0 <= k < |dividends| ==> dividends[k].day != raws[i].day
    ensures PriceRatio(Window(raws, splits, dividends)[i]) == StepOn(PriceSteps(raws, splits, dividends), raws[i].day)
    ensures VolumeRatio(Window(raws, splits, dividends)[i]) == StepOn(VolumeSteps(splits), raws[i].day)
  {
    SplitLookup(splits, raws[i].day);
    DividendLookup(dividends, raws[i].day);
    NoStepOn(PriceSteps(raws, splits, dividends), raws[i].day);
    NoStepOn(VolumeSteps(splits), raws[i].day);
  }

  /** The loop's step on a session is that session's entry in the list of steps. */
  lemma RatioIsStep(raws: seq<RawInput>, splits: seq<SplitInput>, dividends: seq<DividendInput>, i: nat)
    requires WindowOk(raws, splits, dividends) && i < |raws|
    ensures PriceRatio(Window(raws, splits, dividends)[i]) == StepOn(PriceSteps(raws, splits, dividends), raws[i].day)
    ensures VolumeRatio(Window(raws, splits, dividends)[i]) == StepOn(VolumeSteps(splits), raws[i].day)
  {
    if k :| 0 <= k < |splits| && splits[k].day == raws[i].day {
      SplitRatio(raws, splits, dividends, i, k);
    } else if k :| 0 <= k < |dividends| && dividends[k].day == raws[i].day {
      DividendRatio(raws, splits, dividends, i, k);
    } else {
      QuietRatio(raws, splits, dividends, i);
    }
  }

  lemma StepDays(raws: seq<RawInput>, steps: seq<Step>, i: nat)
    requires forall i, j :: 0 <= i < j < |raws| ==> raws[i].day < raws[j].day
    requires forall k :: 0 <= k < |steps| ==> steps[k].day in DaySet(raws)
    requires i < |raws|
    ensures i == |raws| - 1 ==> forall k :: 0 <= k < |steps| ==> steps[k].day <= raws[i].day
    ensures i < |raws| - 1 ==>
              forall k :: 0 <= k < |steps| && raws[i].day < steps[k].day ==> raws[i + 1].day <= steps[k].day
  {
    forall k | 0 <= k < |steps|
      ensures i == |raws| - 1 ==> steps[k].day <= raws[i].day
      ensures i < |raws| - 1 && raws[i].day < steps[k].day ==> raws[i + 1].day <= steps[k].day
    {
      var j :| 0 <= j < |raws| && raws[j].day == steps[k].day;
    }
  }

  /** In exact arithmetic a row's factors are the products of the steps of all actions on strictly
      later sessions. */
  lemma {:induction false} FactorsAreProducts(
    raws: seq<RawInput>, splits: seq<SplitInput>, dividends: seq<DividendInput>, i: nat)
    requires WindowOk(raws, splits, dividends) && i < |raws|
    ensures ExactPrice(Window(raws, splits, dividends), i)
         == LaterProduct(PriceSteps(raws, splits, dividends), raws[i].day)
    ensures ExactVolume(Window(raws, splits, dividends), i) == LaterProduct(VolumeSteps(splits), raws[i].day)
    decreases |raws| - i
  {
    var ps, vs := PriceSteps(raws, splits, dividends), VolumeSteps(splits);
    assert forall k :: 0 <= k < |splits| ==> ps[k].day == splits[k].day && vs[k].day == splits[k].day;
    assert forall k :: |splits| <= k < |ps| ==> ps[k].day == dividends[k - |splits|].day;
    StepDays(raws, ps, i);
    StepDays(raws, vs, i);
    if i == |raws| - 1 {
      NothingLater(ps, raws[i].day);
      NothingLater(vs, raws[i].day);
    } else {
      FactorsAreProducts(raws, splits, dividends, i + 1);
      RatioIsStep(raws, splits, dividends, i + 1);
      StepsDistinct(raws, splits, dividends);
      ProductGrows(ps, raws[i].day, raws[i + 1].day);
      ProductGrows(vs, raws[i].day, raws[i + 1].day);
    }
  }

  lemma BuiltWindowOk(calendar: seq<TradingDay>, b: Binary64, x: Inputs)
    requires FactorSetOf(calendar, b, x).Some?
    ensures var p := FactorSetOf(calendar, b, x).value.payload;
            WindowOk(p.raws, p.splits, p.dividends) && 0 < |p.raws| <= MAX_RAW_INPUTS
  {
    var raws := ValidRaws(calendar, b, x.raws, x.cutoff).value;
    RawsSorted(calendar, b, x.raws, x.cutoff);
    ActionsPlaced(raws, x.splits, x.dividends);
  }

  lemma RawsSorted(calendar: seq<TradingDay>, b: Binary64, values: seq<RawClose<real>>, cutoff: int)
    requires ValidRaws(calendar, b, values, cutoff).Some?
    ensures var raws := ValidRaws(calendar, b, values, cutoff).value;
            (forall i, j :: 0 <= i < j < |raws| ==> raws[i].day < raws[j].day) && 0 < |raws| <= MAX_RAW_INPUTS
  {
    var rows := Collect(values, RawNormaliser(b, cutoff)).value;
    CollectAt(values, RawNormaliser(b, cutoff));
    DayOrder();
    SeriesSeparated(calendar, Sort(rows, BY_DAY), cutoff);
    SortedAgain(rows, BY_DAY);
    SortPermutes(rows, BY_DAY);
    SortStrict(rows, BY_DAY);
    var raws := Sort(rows, BY_DAY);
    assert forall i, j :: 0 <= i < j < |raws| ==> BY_DAY(raws[i], raws[j]);
  }

  lemma ActionsPlaced(raws: seq<RawInput>, splits: seq<SplitVersion<real>>, dividends: seq<DividendVersion<real>>)
    requires ValidActions(raws, splits, dividends).Some?
    requires forall i, j :: 0 <= i < j < |raws| ==> raws[i].day < raws[j].day
    ensures var (s, d) := ValidActions(raws, splits, dividends).value; WindowOk(raws, s, d)
  {
    var (s, d) := ValidActions(raws, splits, dividends).value;
    forall i | 0 <= i < |s| ensures s[i].day in DaySet(raws) {
      var x := SortedCollected(splits, SplitNormaliser(DaySet(raws)), SPLIT_ORDER, i);
    }
    forall i | 0 <= i < |d| ensures d[i].day in DaySet(raws) {
      var x := SortedCollected(dividends, DividendNormaliser(DaySet(raws)), DIVIDEND_ORDER, i);
    }
    DayPairs(s, d);
  }

  lemma DayPairs(s: seq<SplitInput>, d: seq<DividendInput>)
    requires ActionsOk(s, d)
    ensures forall i, j :: 0 <= i < j < |s| ==> s[i].day != s[j].day
    ensures forall i, j :: 0 <= i < j < |d| ==> d[i].day != d[j].day
    ensures forall i, j :: 0 <= i < |s| && 0 <= j < |d| ==> s[i].day != d[j].day
  {
    var days := SplitDays(s) + DividendDays(d);
    DistinctPairs(days);
    assert forall i :: 0 <= i < |s| ==> days[i] == s[i].day;
    assert forall i :: 0 <= i < |d| ==> d[i].day == days[|s| + i];
  }

  /** Every published row of every built set: its decimal factors are within one part in 10^29 of the
      exact products over the later actions, its floats are what `nearest` gives for them, and the anchor is one. */
  lemma PublishedFactors(calendar: seq<TradingDay>, b: Binary64, x: Inputs, i: nat)
    requires FactorSetOf(calendar, b, x).Some? && i < |FactorSetOf(calendar, b, x).value.payload.raws|
    ensures var p := FactorSetOf(calendar, b, x).value.payload;
            && |p.factors| == |p.raws|
            && var row := p.factors[i];
               var price := LaterProduct(PriceSteps(p.raws, p.splits, p.dividends), p.raws[i].day);
               var volume := LaterProduct(VolumeSteps(p.splits), p.raws[i].day);
               && row.ordinal == i
               && price * (1.0 - 0.00000000000000000000000000001) < row.price
               && row.price < price * (1.0 + 0.00000000000000000000000000001)
               && volume * (1.0 - 0.00000000000000000000000000001) < row.volume
               && row.volume < volume * (1.0 + 0.00000000000000000000000000001)
               && b.nearest(row.price) == Some(row.priceFloat) && b.nearest(row.volume) == Some(row.volumeFloat)
               && (i == |p.raws| - 1 ==> row.price == 1.0 && row.volume == 1.0)
  {
    var p := FactorSetOf(calendar, b, x).value.payload;
    BuiltWindowOk(calendar, b, x);
    FactorsAreProducts(p.raws, p.splits, p.dividends, i);
    FactorsAccurate(Window(p.raws, p.splits, p.dividends), i);
    BuiltRow(calendar, b, x, i);
  }

  lemma BuiltRow(calendar: seq<TradingDay>, b: Binary64, x: Inputs, i: nat)
    requires FactorSetOf(calendar, b, x).Some? && i < |FactorSetOf(calendar, b, x).value.payload.raws|
    ensures var p := FactorSetOf(calendar, b, x).value.payload; var w := Window(p.raws, p.splits, p.dividends);
            |p.factors| == |p.raws| && RowAt(DECIMAL34, b, w, i) == Some(p.factors[i])
  {
  }
}
