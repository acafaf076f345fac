/** Content-addressed split and dividend factor sets: validation, the backward loop, the artifact.

    Dates are day numbers and timestamps microseconds, both in UTC. A canonical JSON payload is
    modelled as the record it encodes, and its SHA-256 as that record wrapped in a constructor. */
module AdjustmentFactors {
  import opened Common
  import opened Sorting
  import opened Decimal34
  import opened FactorKernel

  const MAX_RAW_INPUTS := 5000
  const DAY_MICROSECONDS := 86_400_000_000

  /** IEEE 754 binary64: the nearest positive finite float, when there is one, and the decimal that
      its shortest round-trip text denotes. */
  datatype Binary64 = Binary64(nearest: Positive -> Option<Positive>, shortest: Positive -> Positive)

  /** Shortest texts have at most 17 digits and read back to their float. */
  ghost predicate Lawful(b: Binary64) {
    forall x: Positive {:trigger b.nearest(x)} :: b.nearest(x).Some? ==>
      var f := b.nearest(x).value; Round(b.shortest(f)) == b.shortest(f) && b.nearest(b.shortest(f)) == Some(f)
  }

  /** One session of the exchange calendar; the calendar lists them oldest first. */
  datatype TradingDay = TradingDay(day: int, closeAt: int)

  datatype RawClose<+N> = RawClose(
    day: int, observedAt: int, timespan: string, multiplier: int, source: string, basis: string,
    recordedAt: int, availableAt: int, close: N)

  datatype SplitVersion<+N> = SplitVersion(eventId: string, versionId: string, day: int, from: N, to: N, kind: string)

  datatype DividendVersion<+N> = DividendVersion(
    eventId: string, versionId: string, day: int, cash: N, currency: Option<string>, kind: string)

  /** Normalised rows: positive decimals of at most 34 digits. */
  type RawInput = RawClose<Positive>
  type SplitInput = SplitVersion<Positive>
  type DividendInput = DividendVersion<Positive>

  datatype Inputs = Inputs(
    symbol: string, cutoff: int, raws: seq<RawClose<real>>,
    splitCollection: string, splits: seq<SplitVersion<real>>,
    dividendCollection: string, dividends: seq<DividendVersion<real>>)

  datatype FactorRow = FactorRow(
    ordinal: nat, price: Positive, volume: Positive, priceFloat: Positive, volumeFloat: Positive)

  datatype Payload = Payload(
    symbol: string, cutoff: int, anchorDay: int, raws: seq<RawInput>,
    splitCollection: string, splits: seq<SplitInput>,
    dividendCollection: string, dividends: seq<DividendInput>,
    factors: seq<FactorRow>)

  datatype FactorSetId = PayloadDigest(payload: Payload) | ForeignId(text: string)

  datatype FactorSet = FactorSet(id: FactorSetId, payload: Payload, actionVersionIds: seq<string>)

  // ---- raw closes ----

  function CanonicalClose(b: Binary64, close: real): Option<Positive> {
    if close <= 0.0 then None
    else match b.nearest(Round(close))
      case None => None
      case Some(f) => Some(Round(b.shortest(f)))
  }

  function NormalRaw(b: Binary64, cutoff: int, r: RawClose<real>): Option<RawInput> {
    var close := CanonicalClose(b, r.close);
    if && r.timespan == "day" && r.multiplier == 1 && r.source == "polygon_open_close" && r.basis == "raw"
       && r.observedAt / DAY_MICROSECONDS == r.day
       && r.observedAt <= r.recordedAt <= r.availableAt <= cutoff
       && close.Some?
    then Some(RawClose(
      r.day, r.observedAt, "day", 1, "polygon_open_close", "raw", r.recordedAt, r.availableAt, close.value))
    else None
  }

  function RawNormaliser(b: Binary64, cutoff: int): RawClose<real> -> Option<RawInput> {
    r => NormalRaw(b, cutoff, r)
  }

  const BY_DAY: (RawInput, RawInput) -> bool := (x: RawInput, y: RawInput) => x.day < y.day

  function Days(raws: seq<RawInput>): (days: seq<int>)
    ensures |days| == |raws|
  {
    seq(|raws|, i requires 0 <= i < |raws| => raws[i].day)
  }

  function SessionsBetween(calendar: seq<TradingDay>, first: int, last: int): seq<int> {
    if calendar == [] then []
    else SessionsBetween(Init(calendar), first, last)
         + (if first <= Last(calendar).day <= last then [Last(calendar).day] else [])
  }

  /** The checks on the sorted series: contiguous sessions, each observed at its exact close. */
  predicate SeriesOk(calendar: seq<TradingDay>, rows: seq<RawInput>, cutoff: int) {
    && rows != []
    && Distinct(Days(rows))
    && Days(rows) == SessionsBetween(calendar, rows[0].day, Last(rows).day)
    && (forall i :: 0 < i < |rows| ==> rows[i - 1].observedAt < rows[i].observedAt)
    && (forall i :: 0 <= i < |rows| ==> TradingDay(rows[i].day, rows[i].observedAt) in calendar)
    && Last(rows).observedAt <= cutoff
  }

  function ValidRaws(calendar: seq<TradingDay>, b: Binary64, values: seq<RawClose<real>>, cutoff: int)
    : Option<seq<RawInput>>
  {
    if values == [] || MAX_RAW_INPUTS < |values| then None
    else match Collect(values, RawNormaliser(b, cutoff))
      case None => None
      case Some(rows) =>
        var sorted := Sort(rows, BY_DAY);
        if SeriesOk(calendar, sorted, cutoff) then Some(sorted) else None
  }

  method ValidateRawCloses(calendar: seq<TradingDay>, b: Binary64, values: seq<RawClose<real>>, cutoff: int)
    returns (r: Option<seq<RawInput>>)
    ensures r == ValidRaws(calendar, b, values, cutoff)
  {
    if values == [] || MAX_RAW_INPUTS < |values| {
      return None;
    }
    var rows: seq<RawInput> := [];
    for i := 0 to |values|
      invariant Collect(values[..i], RawNormaliser(b, cutoff)) == Some(rows)
    {
      var normal := NormalRaw(b, cutoff, values[i]);
      CollectStops(values, i, RawNormaliser(b, cutoff));
      if normal.None? {
        return None;
      }
      rows := rows + [normal.value];
    }
    assert values[..|values|] == values;
    var sorted := Sort(rows, BY_DAY);
    return if SeriesOk(calendar, sorted, cutoff) then Some(sorted) else None;
  }

  // ---- actions ----

  function NormalSplit(days: set<int>, s: SplitVersion<real>): Option<SplitInput> {
    if s.day in days && s.kind in {"forward_split", "reverse_split"} && 0.0 < s.from && 0.0 < s.to
    then Some(SplitVersion(s.eventId, s.versionId, s.day, Round(s.from), Round(s.to), s.kind))
    else None
  }

  function NormalDividend(days: set<int>, d: DividendVersion<real>): Option<DividendInput> {
    if d.day in days && d.currency == Some("USD") && d.kind == "recurring" && 0.0 < d.cash
    then Some(DividendVersion(d.eventId, d.versionId, d.day, Round(d.cash), Some("USD"), "recurring"))
    else None
  }

  function SplitNormaliser(days: set<int>): SplitVersion<real> -> Option<SplitInput> {
    s => NormalSplit(days, s)
  }

  function DividendNormaliser(days: set<int>): DividendVersion<real> -> Option<DividendInput> {
    d => NormalDividend(days, d)
  }

  const SPLIT_ORDER: (SplitInput, SplitInput) -> bool :=
    (x: SplitInput, y: SplitInput) => x.day < y.day || (x.day == y.day && TextLess(x.eventId, y.eventId))

  const DIVIDEND_ORDER: (DividendInput, DividendInput) -> bool :=
    (x: DividendInput, y: DividendInput) => x.day < y.day || (x.day == y.day && TextLess(x.eventId, y.eventId))

  function DaySet(raws: seq<RawInput>): set<int> {
    set i | 0 <= i < |raws| :: raws[i].day
  }

  function ValidSplits(raws: seq<RawInput>, values: seq<SplitVersion<real>>): Option<seq<SplitInput>> {
    match Collect(values, SplitNormaliser(DaySet(raws)))
    case None => None
    case Some(xs) => Some(Sort(xs, SPLIT_ORDER))
  }

  function ValidDividends(raws: seq<RawInput>, values: seq<DividendVersion<real>>)
    : Option<seq<DividendInput>>
  {
    match Collect(values, DividendNormaliser(DaySet(raws)))
    case None => None
    case Some(xs) => Some(Sort(xs, DIVIDEND_ORDER))
  }

  method ValidateSplits(raws: seq<RawInput>, values: seq<SplitVersion<real>>)
    returns (r: Option<seq<SplitInput>>)
    ensures r == ValidSplits(raws, values)
  {
    var days := DaySet(raws);
    var rows: seq<SplitInput> := [];
    for i := 0 to |values|
      invariant Collect(values[..i], SplitNormaliser(days)) == Some(rows)
    {
      var normal := NormalSplit(days, values[i]);
      CollectStops(values, i, SplitNormaliser(days));
      if normal.None? {
        return None;
      }
      rows := rows + [normal.value];
    }
    assert values[..|values|] == values;
    return Some(Sort(rows, SPLIT_ORDER));
  }

  method ValidateDividends(raws: seq<RawInput>, values: seq<DividendVersion<real>>)
    returns (r: Option<seq<DividendInput>>)
    ensures r == ValidDividends(raws, values)
  {
    var days := DaySet(raws);
    var rows: seq<DividendInput> := [];
    for i := 0 to |values|
      invariant Collect(values[..i], DividendNormaliser(days)) == Some(rows)
    {
      var normal := NormalDividend(days, values[i]);
      CollectStops(values, i, DividendNormaliser(days));
      if normal.None? {
        return None;
      }
      rows := rows + [normal.value];
    }
    assert values[..|values|] == values;
    return Some(Sort(rows, DIVIDEND_ORDER));
  }

  function SplitDays<N>(xs: seq<SplitVersion<N>>): (r: seq<int>)
    ensures |r| == |xs|
  {
    seq(|xs|, i requires 0 <= i < |xs| => xs[i].day)
  }

  function DividendDays<N>(xs: seq<DividendVersion<N>>): (r: seq<int>)
    ensures |r| == |xs|
  {
    seq(|xs|, i requires 0 <= i < |xs| => xs[i].day)
  }

  function EventIds<N, M>(splits: seq<SplitVersion<N>>, dividends: seq<DividendVersion<M>>): seq<string> {
    seq(|splits|, i requires 0 <= i < |splits| => splits[i].eventId)
    + seq(|dividends|, i requires 0 <= i < |dividends| => dividends[i].eventId)
  }

  function VersionIds<N, M>(splits: seq<SplitVersion<N>>, dividends: seq<DividendVersion<M>>): seq<string> {
    seq(|splits|, i requires 0 <= i < |splits| => splits[i].versionId)
    + seq(|dividends|, i requires 0 <= i < |dividends| => dividends[i].versionId)
  }

  /** Unique event IDs, unique version IDs, at most one action on a session. */
  predicate ActionsOk(splits: seq<SplitInput>, dividends: seq<DividendInput>) {
    && Distinct(EventIds(splits, dividends))
    && Distinct(VersionIds(splits, dividends))
    && Distinct(SplitDays(splits) + DividendDays(dividends))
  }

  /** Both action lists, validated together. */
  function ValidActions(raws: seq<RawInput>, splits: seq<SplitVersion<real>>, dividends: seq<DividendVersion<real>>)
    : Option<(seq<SplitInput>, seq<DividendInput>)>
  {
    var s, d := ValidSplits(raws, splits), ValidDividends(raws, dividends);
    if s.None? || d.None? || !ActionsOk(s.value, d.value) then None else Some((s.value, d.value))
  }

  // ---- factors ----

  function SplitByDate(splits: seq<SplitInput>): map<int, SplitInput> {
    if splits == [] then map[] else SplitByDate(Init(splits))[Last(splits).day := Last(splits)]
  }

  function DividendByDate(dividends: seq<DividendInput>): map<int, DividendInput> {
    if dividends == [] then map[] else DividendByDate(Init(dividends))[Last(dividends).day := Last(dividends)]
  }

  function ActionOn(
    splits: map<int, SplitInput>, dividends: map<int, DividendInput>, day: int): Action
  {
    if day in splits then SplitShares(splits[day].from, splits[day].to)
    else if day in dividends then CashDividend(dividends[day].cash)
    else Quiet
  }

  /** The window the backward loop runs over. */
  function Window(
    raws: seq<RawInput>, splits: seq<SplitInput>, dividends: seq<DividendInput>)
    : (w: seq<Session>)
    ensures |w| == |raws|
  {
    var s, d := SplitByDate(splits), DividendByDate(dividends);
    seq(|raws|, i requires 0 <= i < |raws| => Session(raws[i].close, ActionOn(s, d, raws[i].day)))
  }

  /** One published row; refused when a factor has no positive finite float. */
  function RowAt(a: Rounding, b: Binary64, w: seq<Session>, i: nat): Option<FactorRow>
    requires i < |w|
  {
    PublishRow(b, i, PriceFactor(a, w, i), VolumeFactor(a, w, i))
  }

  function PublishRow(b: Binary64, i: nat, price: Positive, volume: Positive): Option<FactorRow> {
    var p, v := b.nearest(price), b.nearest(volume);
    if p.Some? && v.Some? then Some(FactorRow(i, price, volume, p.value, v.value)) else None
  }

  function Published(a: Rounding, b: Binary64, w: seq<Session>): Option<seq<FactorRow>> {
    if forall i :: 0 <= i < |w| ==> RowAt(a, b, w, i).Some?
    then Some(seq(|w|, i requires 0 <= i < |w| => RowAt(a, b, w, i).value))
    else None
  }

  /** The backward loop, newest session first. */
  method AccumulateFactors(
    a: Rounding, b: Binary64, raws: seq<RawInput>, splits: seq<SplitInput>,
    dividends: seq<DividendInput>)
    returns (r: Option<seq<FactorRow>>)
    ensures r == Published(a, b, Window(raws, splits, dividends))
  {
    var splitByDate, dividendByDate := SplitByDate(splits), DividendByDate(dividends);
    ghost var w := Window(raws, splits, dividends);
    var priceFactor: Positive, volumeFactor: Positive := 1.0, 1.0;
    var descending: seq<FactorRow> := [];
    var next := |raws|;
    while 0 < next
      invariant 0 <= next <= |raws| && |descending| == |raws| - next
      invariant forall k :: 0 <= k < |descending| ==> RowAt(a, b, w, |raws| - 1 - k) == Some(descending[k])
      invariant 0 < next ==>
                  priceFactor == PriceFactor(a, w, next - 1) && volumeFactor == VolumeFactor(a, w, next - 1)
    {
      next := next - 1;
      var row := PublishRow(b, next, priceFactor, volumeFactor);
      if row.None? {
        assert RowAt(a, b, w, next).None?;
        return None;
      }
      descending := descending + [row.value];
      var close, day := raws[next].close, raws[next].day;
      if day in splitByDate {
        var s := splitByDate[day];
        priceFactor := MulDiv(a, priceFactor, s.from, s.to);
        volumeFactor := MulDiv(a, volumeFactor, s.to, s.from);
      } else if day in dividendByDate {
        var denominator := Add(a, close, dividendByDate[day].cash);
        priceFactor := MulDiv(a, priceFactor, close, denominator);
      }
    }
    var factors := seq(|raws|, i requires 0 <= i < |raws| => descending[|raws| - 1 - i]);
    forall i | 0 <= i < |w| ensures RowAt(a, b, w, i) == Some(factors[i]) {
      var k := |raws| - 1 - i;
      assert RowAt(a, b, w, |raws| - 1 - k) == Some(descending[k]);
    }
    assert Published(a, b, w).value == factors;
    return Some(factors);
  }

  // ---- the artifact ----

  function VersionIdList(splits: seq<SplitInput>, dividends: seq<DividendInput>): seq<string> {
    Sort(VersionIds(splits, dividends), TextLess)
  }

  function Assemble(x: Inputs, raws: seq<RawInput>, splits: seq<SplitInput>,
                    dividends: seq<DividendInput>, factors: seq<FactorRow>): FactorSet
    requires raws != []
  {
    var payload := Payload(x.symbol, x.cutoff, Last(raws).day, raws, x.splitCollection, splits,
                           x.dividendCollection, dividends, factors);
    FactorSet(PayloadDigest(payload), payload, VersionIdList(splits, dividends))
  }

  function FactorSetOf(calendar: seq<TradingDay>, b: Binary64, x: Inputs): Option<FactorSet> {
    if x.splitCollection == x.dividendCollection then None
    else match ValidRaws(calendar, b, x.raws, x.cutoff)
      case None => None
      case Some(raws) =>
        match ValidActions(raws, x.splits, x.dividends)
        case None => None
        case Some((splits, dividends)) =>
          match Published(DECIMAL34, b, Window(raws, splits, dividends))
          case None => None
          case Some(factors) => Some(Assemble(x, raws, splits, dividends, factors))
  }

  method BuildAdjustmentFactorSet(calendar: seq<TradingDay>, b: Binary64, x: Inputs) returns (r: Option<FactorSet>)
    ensures r == FactorSetOf(calendar, b, x)
  {
    if x.splitCollection == x.dividendCollection {
      return None;
    }
    var raws := ValidateRawCloses(calendar, b, x.raws, x.cutoff);
    if raws.None? {
      return None;
    }
    var splits := ValidateSplits(raws.value, x.splits);
    if splits.None? {
      return None;
    }
    var dividends := ValidateDividends(raws.value, x.dividends);
    if dividends.None? || !ActionsOk(splits.value, dividends.value) {
      return None;
    }
    var factors := AccumulateFactors(DECIMAL34, b, raws.value, splits.value, dividends.value);
    if factors.None? {
      return None;
    }
    return Some(Assemble(x, raws.value, splits.value, dividends.value, factors.value));
  }
}
