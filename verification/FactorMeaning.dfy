/** Factor sets in terms of their inputs alone: which closes and actions a built set carries, what its
    factors mean, and exactly when a set is built. */
module FactorMeaning {
  import opened Common
  import opened Sorting
  import opened Decimal34
  import opened FactorKernel
  import opened AdjustmentFactors
  import opened FactorArtifact

  // ---- what is carried ----

  /** The same version of the same session, and a close that reads back to the supplied close's float. */
  ghost predicate RawKept(b: Binary64, r: RawClose<real>, q: RawInput) {
    && q.day == r.day && q.observedAt == r.observedAt && q.recordedAt == r.recordedAt && q.availableAt == r.availableAt
    && q.timespan == r.timespan && q.multiplier == r.multiplier && q.source == r.source && q.basis == r.basis
    && 0.0 < r.close && b.nearest(Round(r.close)).Some?
    && var f := b.nearest(Round(r.close)).value; b.nearest(q.close) == Some(f) && q.close == b.shortest(f)
  }

  /** The same split, its two sides rounded to 34 digits. */
  ghost predicate SplitKept(s: SplitVersion<real>, t: SplitInput) {
    && t.eventId == s.eventId && t.versionId == s.versionId && t.day == s.day && t.kind == s.kind
    && 0.0 < s.from && t.from == Round(s.from) && 0.0 < s.to && t.to == Round(s.to)
  }

  ghost predicate DividendKept(d: DividendVersion<real>, t: DividendInput) {
    && t.eventId == d.eventId && t.versionId == d.versionId && t.day == d.day
    && t.currency == d.currency && t.kind == d.kind && 0.0 < d.cash && t.cash == Round(d.cash)
  }

  ghost function RawPairs(b: Binary64): (RawClose<real>, RawInput) -> bool {
    (r: RawClose<real>, q: RawInput) => RawKept(b, r, q)
  }

  ghost const SPLIT_PAIRS: (SplitVersion<real>, SplitInput) -> bool :=
    (s: SplitVersion<real>, t: SplitInput) => SplitKept(s, t)

  ghost const DIVIDEND_PAIRS: (DividendVersion<real>, DividendInput) -> bool :=
    (d: DividendVersion<real>, t: DividendInput) => DividendKept(d, t)

  /** Closes, splits and dividends of the inputs, each once, in the order of their sessions. */
  ghost predicate Carries(b: Binary64, x: Inputs, raws: seq<RawInput>, splits: seq<SplitInput>,
                          dividends: seq<DividendInput>) {
    && OneToOne(x.raws, raws, RawPairs(b))
    && OneToOne(x.splits, splits, SPLIT_PAIRS)
    && OneToOne(x.dividends, dividends, DIVIDEND_PAIRS)
    && (forall i, j :: 0 <= i < j < |raws| ==> raws[i].day < raws[j].day)
    && (forall i, j :: 0 <= i < j < |splits| ==> splits[i].day < splits[j].day)
    && (forall i, j :: 0 <= i < j < |dividends| ==> dividends[i].day < dividends[j].day)
  }

  lemma RawIsKept(b: Binary64, cutoff: int, r: RawClose<real>)
    requires Lawful(b) && NormalRaw(b, cutoff, r).Some?
    ensures RawKept(b, r, NormalRaw(b, cutoff, r).value)
  {
    var f := b.nearest(Round(r.close)).value;
    assert CanonicalClose(b, r.close) == Some(b.shortest(f));
  }

  lemma RawsKept(calendar: seq<TradingDay>, b: Binary64, values: seq<RawClose<real>>, cutoff: int)
    requires Lawful(b) && ValidRaws(calendar, b, values, cutoff).Some?
    ensures OneToOne(values, ValidRaws(calendar, b, values, cutoff).value, RawPairs(b))
  {
    var f := RawNormaliser(b, cutoff);
    CollectAt(values, f);
    forall i | 0 <= i < |values| && f(values[i]).Some? ensures RawPairs(b)(values[i], f(values[i]).value) {
      RawIsKept(b, cutoff, values[i]);
    }
    SortedPairs(values, f, BY_DAY, RawPairs(b));
  }

  lemma SplitsKept(raws: seq<RawInput>, values: seq<SplitVersion<real>>)
    requires ValidSplits(raws, values).Some?
    ensures OneToOne(values, ValidSplits(raws, values).value, SPLIT_PAIRS)
  {
    SortedPairs(values, SplitNormaliser(DaySet(raws)), SPLIT_ORDER, SPLIT_PAIRS);
  }

  lemma DividendsKept(raws: seq<RawInput>, values: seq<DividendVersion<real>>)
    requires ValidDividends(raws, values).Some?
    ensures OneToOne(values, ValidDividends(raws, values).value, DIVIDEND_PAIRS)
  {
    SortedPairs(values, DividendNormaliser(DaySet(raws)), DIVIDEND_ORDER, DIVIDEND_PAIRS);
  }

  /** Validated actions are in strictly increasing session order. */
  lemma ActionsSorted(raws: seq<RawInput>, splits: seq<SplitVersion<real>>, dividends: seq<DividendVersion<real>>)
    requires ValidActions(raws, splits, dividends).Some?
    ensures var (s, d) := ValidActions(raws, splits, dividends).value;
            && (forall i, j :: 0 <= i < j < |s| ==> s[i].day < s[j].day)
            && (forall i, j :: 0 <= i < j < |d| ==> d[i].day < d[j].day)
  {
    var us := Collect(splits, SplitNormaliser(DaySet(raws))).value;
    var vs := Collect(dividends, DividendNormaliser(DaySet(raws))).value;
    var s, d := Sort(us, SPLIT_ORDER), Sort(vs, DIVIDEND_ORDER);
    ActionOrders();
    ActionsSeparated(s, d);
    SortPermutes(us, SPLIT_ORDER);
    SortPermutes(vs, DIVIDEND_ORDER);
    SortStrict(us, SPLIT_ORDER);
    SortStrict(vs, DIVIDEND_ORDER);
    DayPairs(s, d);
    forall i, j | 0 <= i < j < |s| ensures s[i].day < s[j].day {
      assert SPLIT_ORDER(s[i], s[j]);
    }
    forall i, j | 0 <= i < j < |d| ensures d[i].day < d[j].day {
      assert DIVIDEND_ORDER(d[i], d[j]);
    }
  }

  /** A built set carries exactly its inputs: every close, split and dividend once, with its own stamps and
      identities, prices and ratios rounded, in session order, under the digest of all of that. */
  lemma BuiltCarries(calendar: seq<TradingDay>, b: Binary64, x: Inputs)
    requires Lawful(b) && FactorSetOf(calendar, b, x).Some?
    ensures var s := FactorSetOf(calendar, b, x).value; var p := s.payload;
            && Carries(b, x, p.raws, p.splits, p.dividends)
            && p.symbol == x.symbol && p.cutoff == x.cutoff
            && p.splitCollection == x.splitCollection && p.dividendCollection == x.dividendCollection
            && p.raws != [] && p.anchorDay == p.raws[|p.raws| - 1].day && s.id == PayloadDigest(p)
  {
    var raws := ValidRaws(calendar, b, x.raws, x.cutoff).value;
    RawsKept(calendar, b, x.raws, x.cutoff);
    RawsSorted(calendar, b, x.raws, x.cutoff);
    SplitsKept(raws, x.splits);
    DividendsKept(raws, x.dividends);
    ActionsSorted(raws, x.splits, x.dividends);
  }

  // ---- the factors over the inputs' own actions ----

  /** The close kept for a session: the shortest decimal of its float. */
  function KeptClose(b: Binary64, raws: seq<RawClose<real>>, day: int): Positive {
    if raws == [] then 1.0
    else
      var r := Last(raws);
      if r.day == day && 0.0 < r.close && b.nearest(Round(r.close)).Some?
      then b.shortest(b.nearest(Round(r.close)).value)
      else KeptClose(b, Init(raws), day)
  }

  function Over(x: Positive, y: Positive): Positive {
    x / y
  }

  function Share(close: Positive, cash: Positive): Positive {
    close / (close + cash)
  }

  /** A split scales earlier prices by from over to, and earlier volumes by to over from. */
  function SplitStep(s: SplitVersion<real>): Step {
    Step(s.day, if 0.0 < s.from && 0.0 < s.to then Over(Round(s.from), Round(s.to)) else 1.0)
  }

  function SplitVolumeStep(s: SplitVersion<real>): Step {
    Step(s.day, if 0.0 < s.from && 0.0 < s.to then Over(Round(s.to), Round(s.from)) else 1.0)
  }

  /** A dividend scales earlier prices by the session's close over that close plus the cash. */
  function DividendStep(b: Binary64, raws: seq<RawClose<real>>, d: DividendVersion<real>): Step {
    var close := KeptClose(b, raws, d.day);
    Step(d.day, if 0.0 < d.cash then Share(close, Round(d.cash)) else 1.0)
  }

  function InputPriceSteps(b: Binary64, x: Inputs): seq<Step> {
    Mapped(x.splits, SplitStep) + Mapped(x.dividends, DividendSteps(b, x.raws))
  }

  function InputVolumeSteps(x: Inputs): seq<Step> {
    Mapped(x.splits, SplitVolumeStep)
  }

  lemma {:induction false} ProductAround(front: seq<Step>, s: Step, back: seq<Step>, day: int)
    ensures LaterProduct(front + ([s] + back), day)
         == if day < s.day then Times(LaterProduct(front + back, day), s.ratio) else LaterProduct(front + back, day)
  {
    if back == [] {
      assert front + back == front && Init(front + ([s] + back)) == front;
    } else {
      ProductAround(front, s, Init(back), day);
      assert Init(front + ([s] + back)) == front + ([s] + Init(back)) && Last(front + ([s] + back)) == Last(back);
      assert Init(front + back) == front + Init(back) && Last(front + back) == Last(back);
      Regrouped(LaterProduct(front + Init(back), day), s.ratio, Last(back).ratio);
    }
  }

  /** The product does not depend on the order in which the steps are listed. */
  lemma {:induction false} ProductForgetsOrder(us: seq<Step>, vs: seq<Step>, day: int)
    requires multiset(us) == multiset(vs)
    ensures LaterProduct(us, day) == LaterProduct(vs, day)
  {
    assert |us| == |multiset(us)| == |multiset(vs)| == |vs|;
    if us != [] {
      InitMultiset(us);
      var front, back := TakeOut(vs, Last(us));
      ProductForgetsOrder(Init(us), front + back, day);
      ProductAround(front, Last(us), back, day);
    }
  }

  lemma {:induction false} KeptCloseAt(b: Binary64, raws: seq<RawClose<real>>, i: nat)
    requires forall i, j :: 0 <= i < j < |raws| ==> raws[i].day != raws[j].day
    requires i < |raws| && 0.0 < raws[i].close && b.nearest(Round(raws[i].close)).Some?
    ensures KeptClose(b, raws, raws[i].day) == b.shortest(b.nearest(Round(raws[i].close)).value)
  {
    if i < |raws| - 1 {
      KeptCloseAt(b, Init(raws), i);
    }
  }

  lemma SuppliedDaysDistinct(b: Binary64, values: seq<RawClose<real>>, raws: seq<RawInput>)
    requires OneToOne(values, raws, RawPairs(b)) && forall i, j :: 0 <= i < j < |raws| ==> raws[i].day < raws[j].day
    ensures forall i, j :: 0 <= i < j < |values| ==> values[i].day != values[j].day
  {
    var p: seq<nat> :| Permutation(p, |values|)
                       && forall i :: 0 <= i < |values| ==> RawPairs(b)(values[i], raws[p[i]]);
    forall i, j | 0 <= i < j < |values| ensures values[i].day != values[j].day {
      assert p[i] != p[j];
      assert RawPairs(b)(values[i], raws[p[i]]) && RawPairs(b)(values[j], raws[p[j]]);
    }
  }

  /** A session's close is the same, looked up among the inputs or among the kept closes. */
  lemma CloseAgrees(b: Binary64, values: seq<RawClose<real>>, raws: seq<RawInput>, j: nat)
    requires OneToOne(values, raws, RawPairs(b)) && forall i, j :: 0 <= i < j < |raws| ==> raws[i].day < raws[j].day
    requires j < |raws|
    ensures KeptClose(b, values, raws[j].day) == CloseOn(raws, raws[j].day)
  {
    SuppliedDaysDistinct(b, values, raws);
    var i := PartnerOf(values, raws, RawPairs(b), j);
    KeptCloseAt(b, values, i);
    CloseOnAt(raws, j);
  }

  function KeptSplitStep(t: SplitInput): Step {
    Step(t.day, Over(t.from, t.to))
  }

  function KeptSplitVolumeStep(t: SplitInput): Step {
    Step(t.day, Over(t.to, t.from))
  }

  function KeptDividendStep(b: Binary64, raws: seq<RawClose<real>>): DividendInput -> Step {
    (t: DividendInput) => Step(t.day, Share(KeptClose(b, raws, t.day), t.cash))
  }

  lemma SplitStepsAgree(xs: seq<SplitVersion<real>>, splits: seq<SplitInput>)
    requires OneToOne(xs, splits, SPLIT_PAIRS)
    ensures multiset(Mapped(xs, SplitStep)) == multiset(Mapped(splits, KeptSplitStep))
    ensures multiset(Mapped(xs, SplitVolumeStep)) == multiset(Mapped(splits, KeptSplitVolumeStep))
  {
    forall s, t | SPLIT_PAIRS(s, t)
      ensures SplitStep(s) == KeptSplitStep(t) && SplitVolumeStep(s) == KeptSplitVolumeStep(t)
    {
      assert SplitKept(s, t);
    }
    PairedImages(xs, splits, SPLIT_PAIRS, SplitStep, KeptSplitStep);
    PairedImages(xs, splits, SPLIT_PAIRS, SplitVolumeStep, KeptSplitVolumeStep);
  }

  function DividendSteps(b: Binary64, raws: seq<RawClose<real>>): DividendVersion<real> -> Step {
    (d: DividendVersion<real>) => DividendStep(b, raws, d)
  }

  lemma DividendStepsAgree(b: Binary64, raws: seq<RawClose<real>>, ds: seq<DividendVersion<real>>,
                           dividends: seq<DividendInput>)
    requires OneToOne(ds, dividends, DIVIDEND_PAIRS)
    ensures multiset(Mapped(ds, DividendSteps(b, raws))) == multiset(Mapped(dividends, KeptDividendStep(b, raws)))
  {
    forall d, t | DIVIDEND_PAIRS(d, t) ensures DividendSteps(b, raws)(d) == KeptDividendStep(b, raws)(t) {
      assert DividendKept(d, t);
    }
    PairedImages(ds, dividends, DIVIDEND_PAIRS, DividendSteps(b, raws), KeptDividendStep(b, raws));
  }

  lemma StepsAgree(b: Binary64, x: Inputs, raws: seq<RawInput>, splits: seq<SplitInput>, dividends: seq<DividendInput>)
    requires Carries(b, x, raws, splits, dividends) && WindowOk(raws, splits, dividends)
    ensures multiset(InputPriceSteps(b, x)) == multiset(PriceSteps(raws, splits, dividends))
    ensures multiset(InputVolumeSteps(x)) == multiset(VolumeSteps(splits))
  {
    SplitStepsAgree(x.splits, splits);
    DividendStepsAgree(b, x.raws, x.dividends, dividends);
    forall i | 0 <= i < |dividends|
      ensures KeptClose(b, x.raws, dividends[i].day) == CloseOn(raws, dividends[i].day)
    {
      var j :| 0 <= j < |raws| && raws[j].day == dividends[i].day;
      CloseAgrees(b, x.raws, raws, j);
    }
    KeptSteps(b, x.raws, raws, splits, dividends);
  }

  lemma KeptSteps(b: Binary64, values: seq<RawClose<real>>, raws: seq<RawInput>, splits: seq<SplitInput>,
                  dividends: seq<DividendInput>)
    requires forall i :: 0 <= i < |dividends| ==>
               KeptClose(b, values, dividends[i].day) == CloseOn(raws, dividends[i].day)
    ensures PriceSteps(raws, splits, dividends)
         == Mapped(splits, KeptSplitStep) + Mapped(dividends, KeptDividendStep(b, values))
    ensures VolumeSteps(splits) == Mapped(splits, KeptSplitVolumeStep)
  {
    var ps, vs := PriceSteps(raws, splits, dividends), VolumeSteps(splits);
    var ms, ds := Mapped(splits, KeptSplitStep), Mapped(dividends, KeptDividendStep(b, values));
    forall i | 0 <= i < |splits| ensures ps[i] == ms[i] && vs[i] == Mapped(splits, KeptSplitVolumeStep)[i] {
      assert ms[i] == KeptSplitStep(splits[i]) && vs[i] == KeptSplitVolumeStep(splits[i]);
    }
    forall i | 0 <= i < |dividends| ensures ps[|splits| + i] == ds[i] {
      assert ds[i] == KeptDividendStep(b, values)(dividends[i]);
    }
    assert ps == ms + ds;
  }

  /** Every session supplied to a built set is published: its decimal factors are within one part in 10^29
      of the exact products of the supplied actions on later sessions, its floats are what `nearest` gives
      for them, and on the last session both factors are one. */
  lemma PublishedOverInputs(calendar: seq<TradingDay>, b: Binary64, x: Inputs, i: nat) returns (j: nat)
    requires Lawful(b) && FactorSetOf(calendar, b, x).Some? && i < |x.raws|
    ensures var p := FactorSetOf(calendar, b, x).value.payload;
            && j < |p.raws| == |p.factors| && RawKept(b, x.raws[i], p.raws[j])
            && var row := p.factors[j]; var day := x.raws[i].day;
               var price := LaterProduct(InputPriceSteps(b, x), day);
               var volume := LaterProduct(InputVolumeSteps(x), day);
               && row.ordinal == j
               && price * (1.0 - 0.00000000000000000000000000001) < row.price
               && row.price < price * (1.0 + 0.00000000000000000000000000001)
               && volume * (1.0 - 0.00000000000000000000000000001) < row.volume
               && row.volume < volume * (1.0 + 0.00000000000000000000000000001)
               && b.nearest(row.price) == Some(row.priceFloat) && b.nearest(row.volume) == Some(row.volumeFloat)
               && (j == |p.raws| - 1 ==> row.price == 1.0 && row.volume == 1.0)
  {
    hide FactorSetOf, Carries, OneToOne, WindowOk, PriceSteps, VolumeSteps, InputPriceSteps, InputVolumeSteps, Lawful;
    hide LaterProduct;
    var p := FactorSetOf(calendar, b, x).value.payload;
    BuiltCarries(calendar, b, x);
    j := KeptAt(b, x, p.raws, p.splits, p.dividends, i);
    BuiltWindowOk(calendar, b, x);
    StepsAgree(b, x, p.raws, p.splits, p.dividends);
    ProductForgetsOrder(InputPriceSteps(b, x), PriceSteps(p.raws, p.splits, p.dividends), x.raws[i].day);
    ProductForgetsOrder(InputVolumeSteps(x), VolumeSteps(p.splits), x.raws[i].day);
    PublishedFactors(calendar, b, x, j);
  }

  lemma KeptAt(b: Binary64, x: Inputs, raws: seq<RawInput>, splits: seq<SplitInput>, dividends: seq<DividendInput>,
               i: nat) returns (j: nat)
    requires Carries(b, x, raws, splits, dividends) && i < |x.raws|
    ensures j < |raws| && RawKept(b, x.raws[i], raws[j]) && raws[j].day == x.raws[i].day
  {
    j := PartnerFor(x.raws, raws, RawPairs(b), i);
  }

  // ---- when a set is built ----

  /** One supplied close: a daily raw bar of the source, received by the cutoff, with a positive float. */
  ghost predicate SuppliedRawOk(b: Binary64, cutoff: int, r: RawClose<real>) {
    && r.timespan == "day" && r.multiplier == 1 && r.source == "polygon_open_close" && r.basis == "raw"
    && r.observedAt / DAY_MICROSECONDS == r.day
    && r.observedAt <= r.recordedAt <= r.availableAt <= cutoff
    && 0.0 < r.close && b.nearest(Round(r.close)).Some?
  }

  /** Up to 5000 closes, each at its session's close, one for every session of the calendar between any two. */
  ghost predicate SuppliedRawsOk(calendar: seq<TradingDay>, b: Binary64, raws: seq<RawClose<real>>, cutoff: int) {
    && 1 <= |raws| <= 5000
    && (forall i :: 0 <= i < |raws| ==> SuppliedRawOk(b, cutoff, raws[i]))
    && (forall i, j :: 0 <= i < j < |raws| ==> raws[i].day != raws[j].day)
    && (forall i :: 0 <= i < |raws| ==> TradingDay(raws[i].day, raws[i].observedAt) in calendar)
    && (forall k, i, j :: 0 <= k < |calendar| && 0 <= i < |raws| && 0 <= j < |raws| ==>
          raws[i].day <= calendar[k].day <= raws[j].day ==> OnSession(raws, calendar[k].day))
  }

  ghost predicate OnSession(raws: seq<RawClose<real>>, day: int) {
    exists i :: 0 <= i < |raws| && raws[i].day == day
  }

  ghost predicate OldestFirst(calendar: seq<TradingDay>) {
    forall i, j :: 0 <= i < j < |calendar| ==> calendar[i].day < calendar[j].day
  }

  const BEFORE: (int, int) -> bool := (x: int, y: int) => x < y

  lemma {:induction false} SessionsAre(calendar: seq<TradingDay>, first: int, last: int)
    requires OldestFirst(calendar)
    ensures Strict(SessionsBetween(calendar, first, last), BEFORE)
    ensures forall d :: d in SessionsBetween(calendar, first, last) <==>
                          first <= d <= last && exists k :: 0 <= k < |calendar| && calendar[k].day == d
  {
    if calendar != [] {
      var rest, t := Init(calendar), Last(calendar);
      SessionsAre(rest, first, last);
      assert forall k :: 0 <= k < |rest| ==> rest[k] == calendar[k] && calendar[k].day < t.day;
      var xs := SessionsBetween(rest, first, last);
      forall i | 0 <= i < |xs| ensures xs[i] < t.day {
        assert xs[i] in xs;
      }
    }
  }

  /** The facts about one session that survive normalising and sorting. */
  ghost predicate SessionKept(calendar: seq<TradingDay>, cutoff: int, q: RawInput) {
    && TradingDay(q.day, q.observedAt) in calendar
    && q.observedAt / DAY_MICROSECONDS == q.day && q.observedAt <= cutoff
  }

  ghost predicate Gapless(calendar: seq<TradingDay>, days: seq<int>) {
    forall k, i, j :: 0 <= k < |calendar| && 0 <= i < |days| && 0 <= j < |days| ==>
      days[i] <= calendar[k].day <= days[j] ==> calendar[k].day in days
  }

  ghost predicate Increasing(rows: seq<RawInput>) {
    forall i, j :: 0 <= i < j < |rows| ==> rows[i].day < rows[j].day
  }

  lemma DaysAreSessions(calendar: seq<TradingDay>, rows: seq<RawInput>, cutoff: int, d: int)
    requires OldestFirst(calendar) && rows != [] && Increasing(rows) && d in Days(rows)
    requires forall i :: 0 <= i < |rows| ==> SessionKept(calendar, cutoff, rows[i])
    ensures d in SessionsBetween(calendar, rows[0].day, Last(rows).day)
  {
    SessionsAre(calendar, rows[0].day, Last(rows).day);
    var j :| 0 <= j < |rows| && Days(rows)[j] == d;
    assert SessionKept(calendar, cutoff, rows[j]);
    var k :| 0 <= k < |calendar| && calendar[k] == TradingDay(d, rows[j].observedAt);
    assert rows[0].day <= calendar[k].day <= Last(rows).day;
  }

  lemma SessionsAreDays(calendar: seq<TradingDay>, rows: seq<RawInput>, d: int)
    requires OldestFirst(calendar) && rows != [] && Gapless(calendar, Days(rows))
    requires d in SessionsBetween(calendar, rows[0].day, Last(rows).day)
    ensures d in Days(rows)
  {
    SessionsAre(calendar, rows[0].day, Last(rows).day);
    var k :| 0 <= k < |calendar| && calendar[k].day == d;
    assert Days(rows)[0] <= calendar[k].day <= Days(rows)[|rows| - 1];
  }

  /** The sorted sessions are the calendar's sessions of their span. */
  lemma NoGaps(calendar: seq<TradingDay>, rows: seq<RawInput>, cutoff: int)
    requires OldestFirst(calendar) && rows != [] && Increasing(rows) && Gapless(calendar, Days(rows))
    requires forall i :: 0 <= i < |rows| ==> SessionKept(calendar, cutoff, rows[i])
    ensures Days(rows) == SessionsBetween(calendar, rows[0].day, Last(rows).day)
  {
    hide SessionKept, Gapless, OldestFirst, SessionsBetween;
    var days, sessions := Days(rows), SessionsBetween(calendar, rows[0].day, Last(rows).day);
    SessionsAre(calendar, rows[0].day, Last(rows).day);
    forall d ensures d in days <==> d in sessions {
      if d in days {
        DaysAreSessions(calendar, rows, cutoff, d);
      }
      if d in sessions {
        SessionsAreDays(calendar, rows, d);
      }
    }
    assert Strict(days, BEFORE) by {
      assert forall i :: 0 <= i < |rows| ==> days[i] == rows[i].day;
    }
    StrictSameMembers(days, sessions, BEFORE);
  }

  lemma KeptSeriesOk(calendar: seq<TradingDay>, rows: seq<RawInput>, cutoff: int)
    requires OldestFirst(calendar) && rows != [] && Increasing(rows) && Gapless(calendar, Days(rows))
    requires forall i :: 0 <= i < |rows| ==> SessionKept(calendar, cutoff, rows[i])
    ensures SeriesOk(calendar, rows, cutoff)
  {
    hide Gapless, OldestFirst, SessionsBetween;
    NoGaps(calendar, rows, cutoff);
    DistinctPairs(Days(rows));
    forall i | 0 < i < |rows| ensures rows[i - 1].observedAt < rows[i].observedAt {
      assert SessionKept(calendar, cutoff, rows[i - 1]) && SessionKept(calendar, cutoff, rows[i]);
    }
    assert SessionKept(calendar, cutoff, rows[|rows| - 1]);
  }

  lemma SortedDays(rows: seq<RawInput>)
    requires forall i, j :: 0 <= i < j < |rows| ==> rows[i].day != rows[j].day
    ensures var sorted := Sort(rows, BY_DAY);
            multiset(sorted) == multiset(rows) && |sorted| == |rows| && Increasing(sorted)
  {
    DayOrder();
    SeparatedByKey(rows, (r: RawInput) => r.day, BY_DAY);
    SortPermutes(rows, BY_DAY);
    SortStrict(rows, BY_DAY);
    var sorted := Sort(rows, BY_DAY);
    assert |sorted| == |multiset(sorted)| == |multiset(rows)| == |rows|;
    assert forall i, j :: 0 <= i < j < |sorted| ==> BY_DAY(sorted[i], sorted[j]);
  }

  lemma GaplessKept(calendar: seq<TradingDay>, b: Binary64, raws: seq<RawClose<real>>, cutoff: int, days: seq<int>)
    requires SuppliedRawsOk(calendar, b, raws, cutoff)
    requires forall d :: d in days <==> OnSession(raws, d)
    ensures Gapless(calendar, days)
  {
    forall k, i, j | 0 <= k < |calendar| && 0 <= i < |days| && 0 <= j < |days| && days[i] <= calendar[k].day <= days[j]
      ensures calendar[k].day in days
    {
      assert days[i] in days && days[j] in days;
      var low :| 0 <= low < |raws| && raws[low].day == days[i];
      var high :| 0 <= high < |raws| && raws[high].day == days[j];
      assert OnSession(raws, calendar[k].day);
    }
  }

  lemma SuppliedNormal(calendar: seq<TradingDay>, b: Binary64, raws: seq<RawClose<real>>, cutoff: int)
    requires SuppliedRawsOk(calendar, b, raws, cutoff)
    ensures var c := Collect(raws, RawNormaliser(b, cutoff));
            && c.Some? && |c.value| == |raws|
            && forall i :: 0 <= i < |raws| ==>
                 c.value[i].day == raws[i].day && SessionKept(calendar, cutoff, c.value[i])
  {
    var f := RawNormaliser(b, cutoff);
    CollectAt(raws, f);
    forall i | 0 <= i < |raws| ensures f(raws[i]).Some? {
      assert SuppliedRawOk(b, cutoff, raws[i]);
    }
    var rows := Collect(raws, f).value;
    forall i | 0 <= i < |raws| ensures rows[i].day == raws[i].day && SessionKept(calendar, cutoff, rows[i]) {
      assert f(raws[i]) == Some(rows[i]) && SuppliedRawOk(b, cutoff, raws[i]);
    }
  }

  lemma DaysOnSessions(raws: seq<RawClose<real>>, rows: seq<RawInput>, sorted: seq<RawInput>)
    requires |rows| == |raws| && forall i :: 0 <= i < |raws| ==> rows[i].day == raws[i].day
    requires multiset(sorted) == multiset(rows)
    ensures forall d :: d in Days(sorted) <==> OnSession(raws, d)
  {
    forall d | d in Days(sorted) ensures OnSession(raws, d) {
      var j :| 0 <= j < |sorted| && Days(sorted)[j] == d;
      assert sorted[j] in multiset(sorted);
      assert sorted[j] in rows;
      var i :| 0 <= i < |rows| && rows[i] == sorted[j];
      assert raws[i].day == d;
    }
    forall d | OnSession(raws, d) ensures d in Days(sorted) {
      var i :| 0 <= i < |raws| && raws[i].day == d;
      assert rows[i] in multiset(rows);
      assert rows[i] in sorted;
      var j :| 0 <= j < |sorted| && sorted[j] == rows[i];
      assert Days(sorted)[j] == d;
    }
  }

  lemma AllKept(calendar: seq<TradingDay>, cutoff: int, rows: seq<RawInput>, sorted: seq<RawInput>)
    requires multiset(sorted) == multiset(rows)
    requires forall i :: 0 <= i < |rows| ==> SessionKept(calendar, cutoff, rows[i])
    ensures forall j :: 0 <= j < |sorted| ==> SessionKept(calendar, cutoff, sorted[j])
  {
    hide SessionKept;
    forall j | 0 <= j < |sorted| ensures SessionKept(calendar, cutoff, sorted[j]) {
      assert sorted[j] in multiset(sorted);
      assert sorted[j] in rows;
    }
  }

  lemma SuppliedAreValid(calendar: seq<TradingDay>, b: Binary64, raws: seq<RawClose<real>>, cutoff: int)
    requires OldestFirst(calendar) && SuppliedRawsOk(calendar, b, raws, cutoff)
    ensures ValidRaws(calendar, b, raws, cutoff).Some?
  {
    hide SessionKept, Gapless, Increasing, SeriesOk, OldestFirst, OnSession, Collect, Sort;
    SuppliedNormal(calendar, b, raws, cutoff);
    var rows := Collect(raws, RawNormaliser(b, cutoff)).value;
    var sorted := Sort(rows, BY_DAY);
    SortedDays(rows);
    AllKept(calendar, cutoff, rows, sorted);
    DaysOnSessions(raws, rows, sorted);
    GaplessKept(calendar, b, raws, cutoff, Days(sorted));
    KeptSeriesOk(calendar, sorted, cutoff);
  }

  lemma EachSupplied(calendar: seq<TradingDay>, b: Binary64, raws: seq<RawClose<real>>, cutoff: int, i: nat)
    requires Lawful(b) && ValidRaws(calendar, b, raws, cutoff).Some? && i < |raws|
    ensures SuppliedRawOk(b, cutoff, raws[i]) && TradingDay(raws[i].day, raws[i].observedAt) in calendar
  {
    hide Lawful;
    var rows := ValidRaws(calendar, b, raws, cutoff).value;
    CollectAt(raws, RawNormaliser(b, cutoff));
    assert RawNormaliser(b, cutoff)(raws[i]).Some?;
    RawsKept(calendar, b, raws, cutoff);
    var j := PartnerFor(raws, rows, RawPairs(b), i);
    assert RawKept(b, raws[i], rows[j]);
  }

  lemma ValidAreSupplied(calendar: seq<TradingDay>, b: Binary64, raws: seq<RawClose<real>>, cutoff: int)
    requires Lawful(b) && OldestFirst(calendar) && ValidRaws(calendar, b, raws, cutoff).Some?
    ensures SuppliedRawsOk(calendar, b, raws, cutoff)
  {
    var rows := ValidRaws(calendar, b, raws, cutoff).value;
    assert 1 <= |raws| <= 5000 && SeriesOk(calendar, rows, cutoff);
    hide Lawful, OldestFirst, ValidRaws, OneToOne, SuppliedRawOk, OnSession, SeriesOk;
    RawsKept(calendar, b, raws, cutoff);
    RawsSorted(calendar, b, raws, cutoff);
    SuppliedDaysDistinct(b, raws, rows);
    forall i | 0 <= i < |raws|
      ensures SuppliedRawOk(b, cutoff, raws[i]) && TradingDay(raws[i].day, raws[i].observedAt) in calendar
    {
      EachSupplied(calendar, b, raws, cutoff, i);
    }
    forall k, i, j | 0 <= k < |calendar| && 0 <= i < |raws| && 0 <= j < |raws|
                     && raws[i].day <= calendar[k].day <= raws[j].day
      ensures OnSession(raws, calendar[k].day)
    {
      SessionFilled(calendar, b, raws, rows, cutoff, k, i, j);
    }
  }

  lemma SessionFilled(calendar: seq<TradingDay>, b: Binary64, raws: seq<RawClose<real>>, rows: seq<RawInput>,
                      cutoff: int, k: nat, i: nat, j: nat)
    requires OldestFirst(calendar) && SeriesOk(calendar, rows, cutoff) && Increasing(rows)
    requires OneToOne(raws, rows, RawPairs(b))
    requires k < |calendar| && i < |raws| && j < |raws| && raws[i].day <= calendar[k].day <= raws[j].day
    ensures OnSession(raws, calendar[k].day)
  {
    var low := PartnerFor(raws, rows, RawPairs(b), i);
    var high := PartnerFor(raws, rows, RawPairs(b), j);
    SessionsAre(calendar, rows[0].day, Last(rows).day);
    assert rows[0].day <= rows[low].day && rows[high].day <= Last(rows).day;
    assert calendar[k].day in Days(rows);
    var m :| 0 <= m < |rows| && Days(rows)[m] == calendar[k].day;
    var n := PartnerOf(raws, rows, RawPairs(b), m);
    assert raws[n].day == calendar[k].day;
  }

  /** An action that can be applied: a supported kind and positive amounts, on a supplied session. */
  ghost predicate SuppliedSplitOk(raws: seq<RawClose<real>>, s: SplitVersion<real>) {
    && (s.kind == "forward_split" || s.kind == "reverse_split") && 0.0 < s.from && 0.0 < s.to
    && OnSession(raws, s.day)
  }

  ghost predicate SuppliedDividendOk(raws: seq<RawClose<real>>, d: DividendVersion<real>) {
    d.currency == Some("USD") && d.kind == "recurring" && 0.0 < d.cash && OnSession(raws, d.day)
  }

  /** No two actions share an event, a version or a session. */
  ghost predicate Apart(splits: seq<SplitVersion<real>>, dividends: seq<DividendVersion<real>>) {
    && (forall i, j :: 0 <= i < j < |splits| ==>
          && splits[i].eventId != splits[j].eventId && splits[i].versionId != splits[j].versionId
          && splits[i].day != splits[j].day)
    && (forall i, j :: 0 <= i < j < |dividends| ==>
          && dividends[i].eventId != dividends[j].eventId && dividends[i].versionId != dividends[j].versionId
          && dividends[i].day != dividends[j].day)
    && (forall i, j :: 0 <= i < |splits| && 0 <= j < |dividends| ==>
          && splits[i].eventId != dividends[j].eventId && splits[i].versionId != dividends[j].versionId
          && splits[i].day != dividends[j].day)
  }

  ghost predicate SuppliedActionsOk(raws: seq<RawClose<real>>, splits: seq<SplitVersion<real>>,
                                    dividends: seq<DividendVersion<real>>) {
    && (forall i :: 0 <= i < |splits| ==> SuppliedSplitOk(raws, splits[i]))
    && (forall i :: 0 <= i < |dividends| ==> SuppliedDividendOk(raws, dividends[i]))
    && Apart(splits, dividends)
  }

  lemma DistinctSame<T>(xs: seq<T>, ys: seq<T>)
    requires multiset(xs) == multiset(ys)
    ensures Distinct(xs) <==> Distinct(ys)
  {
    assert |xs| == |multiset(xs)| == |multiset(ys)| == |ys|;
    forall x ensures x in xs <==> x in ys {
      assert x in multiset(xs) <==> x in multiset(ys);
    }
    assert (set x | x in xs) == (set x | x in ys);
  }

  ghost predicate AllApart<T>(xs: seq<T>, ys: seq<T>) {
    && (forall i, j :: 0 <= i < j < |xs| ==> xs[i] != xs[j])
    && (forall i, j :: 0 <= i < j < |ys| ==> ys[i] != ys[j])
    && (forall i, j :: 0 <= i < |xs| && 0 <= j < |ys| ==> xs[i] != ys[j])
  }

  lemma DistinctJoin<T>(xs: seq<T>, ys: seq<T>)
    ensures Distinct(xs + ys) <==> AllApart(xs, ys)
  {
    var all := xs + ys;
    DistinctPairs(all);
    assert forall i :: 0 <= i < |xs| ==> all[i] == xs[i];
    assert forall j :: 0 <= j < |ys| ==> all[|xs| + j] == ys[j];
    if forall i, j :: 0 <= i < j < |all| ==> all[i] != all[j] {
      forall i, j | 0 <= i < j < |ys| ensures ys[i] != ys[j] {
        assert all[|xs| + i] != all[|xs| + j];
      }
      forall i, j | 0 <= i < |xs| && 0 <= j < |ys| ensures xs[i] != ys[j] {
        assert all[i] != all[|xs| + j];
      }
    }
  }

  function SplitEvents<N>(xs: seq<SplitVersion<N>>): (r: seq<string>)
    ensures |r| == |xs|
  {
    seq(|xs|, i requires 0 <= i < |xs| => xs[i].eventId)
  }

  function SplitVersionIds<N>(xs: seq<SplitVersion<N>>): (r: seq<string>)
    ensures |r| == |xs|
  {
    seq(|xs|, i requires 0 <= i < |xs| => xs[i].versionId)
  }

  function DividendEvents<N>(xs: seq<DividendVersion<N>>): (r: seq<string>)
    ensures |r| == |xs|
  {
    seq(|xs|, i requires 0 <= i < |xs| => xs[i].eventId)
  }

  function DividendVersionIds<N>(xs: seq<DividendVersion<N>>): (r: seq<string>)
    ensures |r| == |xs|
  {
    seq(|xs|, i requires 0 <= i < |xs| => xs[i].versionId)
  }

  lemma IdsSplit<N, M>(splits: seq<SplitVersion<N>>, dividends: seq<DividendVersion<M>>)
    ensures EventIds(splits, dividends) == SplitEvents(splits) + DividendEvents(dividends)
    ensures VersionIds(splits, dividends) == SplitVersionIds(splits) + DividendVersionIds(dividends)
  {
  }

  lemma ApartByKey(splits: seq<SplitVersion<real>>, dividends: seq<DividendVersion<real>>)
    requires AllApart(SplitEvents(splits), DividendEvents(dividends))
    requires AllApart(SplitVersionIds(splits), DividendVersionIds(dividends))
    requires AllApart(SplitDays(splits), DividendDays(dividends))
    ensures Apart(splits, dividends)
  {
    forall i, j | 0 <= i < j < |splits|
      ensures splits[i].eventId != splits[j].eventId && splits[i].versionId != splits[j].versionId
      ensures splits[i].day != splits[j].day
    {
      assert SplitEvents(splits)[i] != SplitEvents(splits)[j];
      assert SplitVersionIds(splits)[i] != SplitVersionIds(splits)[j];
      assert SplitDays(splits)[i] != SplitDays(splits)[j];
    }
    forall i, j | 0 <= i < j < |dividends|
      ensures dividends[i].eventId != dividends[j].eventId && dividends[i].versionId != dividends[j].versionId
      ensures dividends[i].day != dividends[j].day
    {
      assert DividendEvents(dividends)[i] != DividendEvents(dividends)[j];
      assert DividendVersionIds(dividends)[i] != DividendVersionIds(dividends)[j];
      assert DividendDays(dividends)[i] != DividendDays(dividends)[j];
    }
    forall i, j | 0 <= i < |splits| && 0 <= j < |dividends|
      ensures splits[i].eventId != dividends[j].eventId && splits[i].versionId != dividends[j].versionId
      ensures splits[i].day != dividends[j].day
    {
      assert SplitEvents(splits)[i] != DividendEvents(dividends)[j];
      assert SplitVersionIds(splits)[i] != DividendVersionIds(dividends)[j];
      assert SplitDays(splits)[i] != DividendDays(dividends)[j];
    }
  }

  lemma ApartIsDistinct(splits: seq<SplitVersion<real>>, dividends: seq<DividendVersion<real>>)
    ensures Apart(splits, dividends) <==>
              && Distinct(EventIds(splits, dividends)) && Distinct(VersionIds(splits, dividends))
              && Distinct(SplitDays(splits) + DividendDays(dividends))
  {
    IdsSplit(splits, dividends);
    DistinctJoin(SplitEvents(splits), DividendEvents(dividends));
    DistinctJoin(SplitVersionIds(splits), DividendVersionIds(dividends));
    DistinctJoin(SplitDays(splits), DividendDays(dividends));
    if Apart(splits, dividends) {
      assert AllApart(SplitEvents(splits), DividendEvents(dividends));
      assert AllApart(SplitVersionIds(splits), DividendVersionIds(dividends));
      assert AllApart(SplitDays(splits), DividendDays(dividends));
    } else if AllApart(SplitEvents(splits), DividendEvents(dividends))
              && AllApart(SplitVersionIds(splits), DividendVersionIds(dividends))
              && AllApart(SplitDays(splits), DividendDays(dividends)) {
      ApartByKey(splits, dividends);
    }
  }

  lemma SplitIdsAgree(xs: seq<SplitVersion<real>>, splits: seq<SplitInput>)
    requires OneToOne(xs, splits, SPLIT_PAIRS)
    ensures multiset(SplitEvents(xs)) == multiset(SplitEvents(splits))
    ensures multiset(SplitVersionIds(xs)) == multiset(SplitVersionIds(splits))
    ensures multiset(SplitDays(xs)) == multiset(SplitDays(splits))
  {
    var p: seq<nat> :| Permutation(p, |xs|) && forall i :: 0 <= i < |xs| ==> SPLIT_PAIRS(xs[i], splits[p[i]]);
    assert forall i :: 0 <= i < |xs| ==> SplitKept(xs[i], splits[p[i]]);
    PermutedMultiset(SplitEvents(xs), SplitEvents(splits), p);
    PermutedMultiset(SplitVersionIds(xs), SplitVersionIds(splits), p);
    PermutedMultiset(SplitDays(xs), SplitDays(splits), p);
  }

  lemma DividendIdsAgree(ds: seq<DividendVersion<real>>, dividends: seq<DividendInput>)
    requires OneToOne(ds, dividends, DIVIDEND_PAIRS)
    ensures multiset(DividendEvents(ds)) == multiset(DividendEvents(dividends))
    ensures multiset(DividendVersionIds(ds)) == multiset(DividendVersionIds(dividends))
    ensures multiset(DividendDays(ds)) == multiset(DividendDays(dividends))
  {
    var p: seq<nat> :| Permutation(p, |ds|)
                       && forall i :: 0 <= i < |ds| ==> DIVIDEND_PAIRS(ds[i], dividends[p[i]]);
    assert forall i :: 0 <= i < |ds| ==> DividendKept(ds[i], dividends[p[i]]);
    PermutedMultiset(DividendEvents(ds), DividendEvents(dividends), p);
    PermutedMultiset(DividendVersionIds(ds), DividendVersionIds(dividends), p);
    PermutedMultiset(DividendDays(ds), DividendDays(dividends), p);
  }

  /** Kept actions have the identities and sessions of the supplied ones. */
  lemma IdsAgree(xs: seq<SplitVersion<real>>, splits: seq<SplitInput>, ds: seq<DividendVersion<real>>,
                 dividends: seq<DividendInput>)
    requires OneToOne(xs, splits, SPLIT_PAIRS) && OneToOne(ds, dividends, DIVIDEND_PAIRS)
    ensures multiset(EventIds(splits, dividends)) == multiset(EventIds(xs, ds))
    ensures multiset(VersionIds(splits, dividends)) == multiset(VersionIds(xs, ds))
    ensures multiset(SplitDays(splits) + DividendDays(dividends)) == multiset(SplitDays(xs) + DividendDays(ds))
  {
    SplitIdsAgree(xs, splits);
    DividendIdsAgree(ds, dividends);
    IdsSplit(xs, ds);
    IdsSplit(splits, dividends);
  }

  lemma ActionsOkAgree(xs: seq<SplitVersion<real>>, splits: seq<SplitInput>, ds: seq<DividendVersion<real>>,
                       dividends: seq<DividendInput>)
    requires OneToOne(xs, splits, SPLIT_PAIRS) && OneToOne(ds, dividends, DIVIDEND_PAIRS)
    ensures ActionsOk(splits, dividends) <==> Apart(xs, ds)
  {
    IdsAgree(xs, splits, ds, dividends);
    DistinctSame(EventIds(splits, dividends), EventIds(xs, ds));
    DistinctSame(VersionIds(splits, dividends), VersionIds(xs, ds));
    DistinctSame(SplitDays(splits) + DividendDays(dividends), SplitDays(xs) + DividendDays(ds));
    ApartIsDistinct(xs, ds);
  }

  lemma TextOrdered()
    ensures StrictOrder(TextLess)
  {
    forall a, b, c ensures !TextLess(a, a) && (TextLess(a, b) && TextLess(b, c) ==> TextLess(a, c)) {
      TextLessIrreflexive(a);
      if TextLess(a, b) && TextLess(b, c) {
        TextLessTransitive(a, b, c);
      }
    }
  }

  lemma {:induction false} TextsSeparated(xs: seq<string>)
    requires forall i, j :: 0 <= i < j < |xs| ==> xs[i] != xs[j]
    ensures Separated(multiset(xs), TextLess)
  {
    if xs != [] {
      var rest, x := Init(xs), Last(xs);
      TextsSeparated(rest);
      InitLast(xs);
      SnocMultiset(rest, x);
      forall y | y in rest ensures y != x && (TextLess(x, y) || TextLess(y, x)) {
        TextLessTotal(x, y);
      }
      assert forall y :: multiset(xs)[y] == multiset(rest)[y] + multiset{x}[y];
    }
  }

  /** A built set lists the version IDs of exactly its supplied actions, in text order. */
  lemma VersionsListed(calendar: seq<TradingDay>, b: Binary64, x: Inputs)
    requires Lawful(b) && FactorSetOf(calendar, b, x).Some?
    ensures var ids := FactorSetOf(calendar, b, x).value.actionVersionIds;
            && multiset(ids) == multiset(SplitVersionIds(x.splits) + DividendVersionIds(x.dividends))
            && forall i, j :: 0 <= i < j < |ids| ==> TextLess(ids[i], ids[j])
  {
    hide Lawful, OneToOne, Distinct;
    var raws := ValidRaws(calendar, b, x.raws, x.cutoff).value;
    var splits, dividends := ValidSplits(raws, x.splits).value, ValidDividends(raws, x.dividends).value;
    SplitsKept(raws, x.splits);
    DividendsKept(raws, x.dividends);
    IdsAgree(x.splits, splits, x.dividends, dividends);
    IdsSplit(x.splits, x.dividends);
    DistinctPairs(VersionIds(splits, dividends));
    TextsSeparated(VersionIds(splits, dividends));
    TextOrdered();
    SortPermutes(VersionIds(splits, dividends), TextLess);
    SortStrict(VersionIds(splits, dividends), TextLess);
  }

  lemma SplitsAccepted(values: seq<RawClose<real>>, raws: seq<RawInput>, xs: seq<SplitVersion<real>>)
    requires forall d :: d in DaySet(raws) <==> OnSession(values, d)
    ensures ValidSplits(raws, xs).Some? <==> forall i :: 0 <= i < |xs| ==> SuppliedSplitOk(values, xs[i])
  {
    var f := SplitNormaliser(DaySet(raws));
    CollectAt(xs, f);
    forall i | 0 <= i < |xs| ensures f(xs[i]).Some? <==> SuppliedSplitOk(values, xs[i]) {
    }
  }

  lemma DividendsAccepted(values: seq<RawClose<real>>, raws: seq<RawInput>, ds: seq<DividendVersion<real>>)
    requires forall d :: d in DaySet(raws) <==> OnSession(values, d)
    ensures ValidDividends(raws, ds).Some? <==> forall i :: 0 <= i < |ds| ==> SuppliedDividendOk(values, ds[i])
  {
    var f := DividendNormaliser(DaySet(raws));
    CollectAt(ds, f);
    forall i | 0 <= i < |ds| ensures f(ds[i]).Some? <==> SuppliedDividendOk(values, ds[i]) {
    }
  }

  lemma KeptSessions(b: Binary64, values: seq<RawClose<real>>, raws: seq<RawInput>)
    requires OneToOne(values, raws, RawPairs(b))
    ensures forall d :: d in DaySet(raws) <==> OnSession(values, d)
  {
    forall d ensures d in DaySet(raws) <==> OnSession(values, d) {
      if d in DaySet(raws) {
        var j :| 0 <= j < |raws| && raws[j].day == d;
        var i := PartnerOf(values, raws, RawPairs(b), j);
        assert values[i].day == d;
      }
      if OnSession(values, d) {
        var i :| 0 <= i < |values| && values[i].day == d;
        var j := PartnerFor(values, raws, RawPairs(b), i);
        assert raws[j].day == d;
      }
    }
  }

  lemma ActionsAccepted(b: Binary64, values: seq<RawClose<real>>, raws: seq<RawInput>, xs: seq<SplitVersion<real>>,
                        ds: seq<DividendVersion<real>>)
    requires OneToOne(values, raws, RawPairs(b))
    ensures ValidActions(raws, xs, ds).Some? <==> SuppliedActionsOk(values, xs, ds)
  {
    hide ValidSplits, ValidDividends, SuppliedSplitOk, SuppliedDividendOk, Apart, ActionsOk, OneToOne;
    KeptSessions(b, values, raws);
    SplitsAccepted(values, raws, xs);
    DividendsAccepted(values, raws, ds);
    if ValidSplits(raws, xs).Some? && ValidDividends(raws, ds).Some? {
      SplitsKept(raws, xs);
      DividendsKept(raws, ds);
      ActionsOkAgree(xs, ValidSplits(raws, xs).value, ds, ValidDividends(raws, ds).value);
    }
  }

  /** Every rounded factor of the window has a positive finite float. */
  ghost predicate FactorsFit(b: Binary64, w: seq<Session>) {
    forall i :: 0 <= i < |w| ==>
      b.nearest(PriceFactor(DECIMAL34, w, i)).Some? && b.nearest(VolumeFactor(DECIMAL34, w, i)).Some?
  }

  const BY_SPLIT_DAY: (SplitInput, SplitInput) -> bool := (x: SplitInput, y: SplitInput) => x.day < y.day
  const BY_DIVIDEND_DAY: (DividendInput, DividendInput) -> bool :=
    (x: DividendInput, y: DividendInput) => x.day < y.day

  /** The closes and actions that are kept are determined by the inputs. */
  lemma CarriesOnce(b: Binary64, x: Inputs, raws: seq<RawInput>, splits: seq<SplitInput>, dividends: seq<DividendInput>,
                    raws': seq<RawInput>, splits': seq<SplitInput>, dividends': seq<DividendInput>)
    requires Carries(b, x, raws, splits, dividends) && Carries(b, x, raws', splits', dividends')
    ensures raws == raws' && splits == splits' && dividends == dividends'
  {
    hide OneToOne;
    PairedOnce(x.raws, raws, raws', RawPairs(b), BY_DAY);
    PairedOnce(x.splits, splits, splits', SPLIT_PAIRS, BY_SPLIT_DAY);
    PairedOnce(x.dividends, dividends, dividends', DIVIDEND_PAIRS, BY_DIVIDEND_DAY);
  }

  lemma FitsPublished(b: Binary64, w: seq<Session>)
    ensures Published(DECIMAL34, b, w).Some? <==> FactorsFit(b, w)
  {
    if FactorsFit(b, w) {
      assert forall i :: 0 <= i < |w| ==> RowAt(DECIMAL34, b, w, i).Some?;
    } else {
      var i :| 0 <= i < |w|
               && !(b.nearest(PriceFactor(DECIMAL34, w, i)).Some? && b.nearest(VolumeFactor(DECIMAL34, w, i)).Some?);
      assert RowAt(DECIMAL34, b, w, i).None?;
    }
  }

  /** Validated inputs are carried, whether or not their factors then fit. */
  lemma ValidCarries(calendar: seq<TradingDay>, b: Binary64, x: Inputs)
    requires Lawful(b) && ValidRaws(calendar, b, x.raws, x.cutoff).Some?
    requires ValidActions(ValidRaws(calendar, b, x.raws, x.cutoff).value, x.splits, x.dividends).Some?
    ensures var raws := ValidRaws(calendar, b, x.raws, x.cutoff).value;
            var (splits, dividends) := ValidActions(raws, x.splits, x.dividends).value;
            Carries(b, x, raws, splits, dividends)
  {
    hide Lawful, OneToOne, ValidRaws;
    var raws := ValidRaws(calendar, b, x.raws, x.cutoff).value;
    RawsKept(calendar, b, x.raws, x.cutoff);
    RawsSorted(calendar, b, x.raws, x.cutoff);
    SplitsKept(raws, x.splits);
    DividendsKept(raws, x.dividends);
    ActionsSorted(raws, x.splits, x.dividends);
  }

  /** Exactly when a set is built: distinct collections, closes for every session of their span, each
      at its session's close and received by the cutoff, actions of the supported kinds on those sessions
      with nothing in common, and rounded factors that have floats. */
  lemma BuiltIff(calendar: seq<TradingDay>, b: Binary64, x: Inputs)
    requires Lawful(b) && OldestFirst(calendar)
    ensures FactorSetOf(calendar, b, x).Some? <==>
              && x.splitCollection != x.dividendCollection
              && SuppliedRawsOk(calendar, b, x.raws, x.cutoff)
              && SuppliedActionsOk(x.raws, x.splits, x.dividends)
              && exists raws, splits, dividends ::
                   Carries(b, x, raws, splits, dividends) && FactorsFit(b, Window(raws, splits, dividends))
  {
    hide Lawful, OldestFirst, OneToOne, ValidRaws, ValidActions, SuppliedRawsOk, SuppliedActionsOk, Carries, FactorsFit;
    hide Published, Window;
    var raws := ValidRaws(calendar, b, x.raws, x.cutoff);
    if raws.Some? {
      ValidAreSupplied(calendar, b, x.raws, x.cutoff);
      RawsKept(calendar, b, x.raws, x.cutoff);
      ActionsAccepted(b, x.raws, raws.value, x.splits, x.dividends);
      var actions := ValidActions(raws.value, x.splits, x.dividends);
      if actions.Some? {
        var (splits, dividends) := actions.value;
        ValidCarries(calendar, b, x);
        FitsPublished(b, Window(raws.value, splits, dividends));
        forall raws', splits', dividends' | Carries(b, x, raws', splits', dividends')
          ensures raws' == raws.value && splits' == splits && dividends' == dividends
        {
          CarriesOnce(b, x, raws', splits', dividends', raws.value, splits, dividends);
        }
      }
    } else if SuppliedRawsOk(calendar, b, x.raws, x.cutoff) {
      SuppliedAreValid(calendar, b, x.raws, x.cutoff);
    }
  }
}
