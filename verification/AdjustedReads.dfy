/** Reading adjusted prices: the published floats applied to the exact raw window, row by row, and how far
    an adjusted close can be from the exact one. */
module AdjustedReads {
  import opened Common
  import opened Sorting
  import opened Decimal34
  import opened FactorKernel
  import opened AdjustmentFactors
  import opened FactorArtifact

  /** Binary64 multiplication of a nonnegative value by a positive factor; `None` when the product
      overflows or a positive value underflows to zero. */
  datatype Floats = Floats(times: (real, Positive) -> Option<real>)

  /** Rounding is monotone and keeps signs. */
  ghost predicate MonotoneFloats(m: Floats) {
    && (forall x: real, f: Positive :: 0.0 <= x && m.times(x, f).Some? ==> 0.0 <= m.times(x, f).value)
    && (forall x: real, y: real, f: Positive ::
          0.0 <= x <= y && m.times(x, f).Some? && m.times(y, f).Some? ==> m.times(x, f).value <= m.times(y, f).value)
  }

  datatype RawBar = RawBar(
    symbol: string, timestamp: int, timespan: string, multiplier: int, source: string, basis: string,
    recordedAt: int, availableAt: int,
    open: real, high: real, low: real, close: real, volume: real, vwap: Option<real>, tradeCount: Option<int>)

  datatype AdjustedBar = AdjustedBar(
    ordinal: nat, timestamp: int, rawRecordedAt: int, rawAvailableAt: int, availableAt: int,
    open: real, high: real, low: real, close: real, volume: real, vwap: Option<real>, tradeCount: Option<int>)

  datatype Receipt<I> = Receipt(subject: I, recordedAt: int, availableAt: int)

  predicate OhlcOk(open: real, high: real, low: real, close: real) {
    low <= high && open <= high && close <= high && low <= open && low <= close
  }

  /** A raw bar is the exact version the factor set was computed from. */
  predicate RawBarOk(b: Binary64, set_: FactorSet, i: nat, r: RawBar)
    requires i < |set_.payload.raws|
  {
    var e := set_.payload.raws[i];
    && r.symbol == set_.payload.symbol
    && r.timestamp == e.observedAt && r.timestamp / DAY_MICROSECONDS == e.day
    && r.timespan == e.timespan == "day" && r.multiplier == e.multiplier == 1
    && r.source == e.source == "polygon_open_close" && r.basis == e.basis == "raw"
    && r.recordedAt == e.recordedAt && r.availableAt == e.availableAt
    && r.timestamp <= r.recordedAt <= r.availableAt <= set_.payload.cutoff
    && 0.0 <= r.open && 0.0 <= r.high && 0.0 <= r.low && 0.0 <= r.close && 0.0 <= r.volume
    && (r.vwap.Some? ==> 0.0 <= r.vwap.value) && (r.tradeCount.Some? ==> 0 <= r.tradeCount.value)
    && OhlcOk(r.open, r.high, r.low, r.close)
    && b.nearest(e.close) == Some(r.close)
  }

  predicate Representable(m: Floats, r: RawBar, f: FactorRow) {
    && m.times(r.open, f.priceFloat).Some? && m.times(r.high, f.priceFloat).Some?
    && m.times(r.low, f.priceFloat).Some? && m.times(r.close, f.priceFloat).Some?
    && m.times(r.volume, f.volumeFloat).Some?
    && (r.vwap.Some? ==> m.times(r.vwap.value, f.priceFloat).Some?)
  }

  function AdjustRow(m: Floats, i: nat, r: RawBar, f: FactorRow, availableAt: int): Option<AdjustedBar> {
    if !Representable(m, r, f) then None
    else
      var open, high := m.times(r.open, f.priceFloat).value, m.times(r.high, f.priceFloat).value;
      var low, close := m.times(r.low, f.priceFloat).value, m.times(r.close, f.priceFloat).value;
      if !OhlcOk(open, high, low, close) then None
      else Some(AdjustedBar(
        i, r.timestamp, r.recordedAt, r.availableAt, availableAt, open, high, low, close,
        m.times(r.volume, f.volumeFloat).value,
        if r.vwap.None? then None else m.times(r.vwap.value, f.priceFloat), r.tradeCount))
  }

  /** Every price is the raw price times the price float, the volume times the volume float. */
  predicate IsAdjusted(m: Floats, r: RawBar, f: FactorRow, a: AdjustedBar) {
    && m.times(r.open, f.priceFloat) == Some(a.open) && m.times(r.high, f.priceFloat) == Some(a.high)
    && m.times(r.low, f.priceFloat) == Some(a.low) && m.times(r.close, f.priceFloat) == Some(a.close)
    && m.times(r.volume, f.volumeFloat) == Some(a.volume)
    && (if r.vwap.None? then a.vwap.None? else a.vwap.Some? && m.times(r.vwap.value, f.priceFloat) == a.vwap)
    && a.tradeCount == r.tradeCount && OhlcOk(a.open, a.high, a.low, a.close)
  }

  /** Adjusting never makes a consistent bar inconsistent: it fails only where a product cannot be
      represented. */
  lemma ConsistencyKept(m: Floats, i: nat, r: RawBar, f: FactorRow, availableAt: int)
    requires MonotoneFloats(m) && OhlcOk(r.open, r.high, r.low, r.close) && 0.0 <= r.low
    ensures AdjustRow(m, i, r, f, availableAt).Some? <==> Representable(m, r, f)
  {
  }

  function LatestInput(bars: seq<RawBar>, split: int, dividend: int): int {
    if bars == [] then Max(split, dividend) else Max(LatestInput(Init(bars), split, dividend), Last(bars).availableAt)
  }

  predicate ReceiptsOk(
    set_: FactorSet, bars: seq<RawBar>, split: Receipt<string>, dividend: Receipt<string>, factor: Receipt<FactorSetId>)
  {
    && split.subject == set_.payload.splitCollection
    && split.recordedAt <= split.availableAt <= set_.payload.cutoff
    && dividend.subject == set_.payload.dividendCollection
    && dividend.recordedAt <= dividend.availableAt <= set_.payload.cutoff
    && factor.subject == set_.id
    && LatestInput(bars, split.availableAt, dividend.availableAt) <= factor.recordedAt <= factor.availableAt
  }

  predicate Chronological(bars: seq<AdjustedBar>) {
    forall i :: 0 < i < |bars| ==> bars[i - 1].timestamp < bars[i].timestamp
  }

  predicate WindowMatches(b: Binary64, set_: FactorSet, bars: seq<RawBar>) {
    && bars != [] && |bars| == |set_.payload.raws| == |set_.payload.factors|
    && forall i :: 0 <= i < |bars| ==> RawBarOk(b, set_, i, bars[i])
  }

  /** All rows adjusted, or none. */
  function AdjustAll(m: Floats, bars: seq<RawBar>, factors: seq<FactorRow>, availableAt: int): Option<seq<AdjustedBar>>
    requires |bars| == |factors|
  {
    if forall i :: 0 <= i < |bars| ==> AdjustRow(m, i, bars[i], factors[i], availableAt).Some?
    then Some(seq(|bars|, i requires 0 <= i < |bars| => AdjustRow(m, i, bars[i], factors[i], availableAt).value))
    else None
  }

  function AdjustedWindow(
    b: Binary64, m: Floats, set_: FactorSet, bars: seq<RawBar>,
    split: Receipt<string>, dividend: Receipt<string>, factor: Receipt<FactorSetId>): Option<seq<AdjustedBar>>
  {
    if !WindowMatches(b, set_, bars) || !ReceiptsOk(set_, bars, split, dividend, factor) then None
    else match AdjustAll(m, bars, set_.payload.factors, factor.availableAt)
      case None => None
      case Some(rows) => if Chronological(rows) then Some(rows) else None
  }

  method AdjustOhlcvWindow(
    b: Binary64, m: Floats, set_: FactorSet, bars: seq<RawBar>,
    split: Receipt<string>, dividend: Receipt<string>, factor: Receipt<FactorSetId>)
    returns (r: Option<seq<AdjustedBar>>)
    ensures r == AdjustedWindow(b, m, set_, bars, split, dividend, factor)
  {
    hide RawBarOk, AdjustRow, ReceiptsOk;
    if bars == [] || |bars| != |set_.payload.raws| || |bars| != |set_.payload.factors| {
      return None;
    }
    var latest := Max(split.availableAt, dividend.availableAt);
    for i := 0 to |bars|
      invariant forall k :: 0 <= k < i ==> RawBarOk(b, set_, k, bars[k])
      invariant latest == LatestInput(bars[..i], split.availableAt, dividend.availableAt)
    {
      if !RawBarOk(b, set_, i, bars[i]) {
        return None;
      }
      assert Init(bars[..i + 1]) == bars[..i];
      latest := Max(latest, bars[i].availableAt);
    }
    assert bars[..|bars|] == bars;
    if !ReceiptsOk(set_, bars, split, dividend, factor) {
      return None;
    }
    var rows: seq<AdjustedBar> := [];
    for i := 0 to |bars|
      invariant |rows| == i
      invariant forall k :: 0 <= k < i ==>
                  AdjustRow(m, k, bars[k], set_.payload.factors[k], factor.availableAt) == Some(rows[k])
    {
      var row := AdjustRow(m, i, bars[i], set_.payload.factors[i], factor.availableAt);
      if row.None? {
        return None;
      }
      rows := rows + [row.value];
    }
    assert rows == AdjustAll(m, bars, set_.payload.factors, factor.availableAt).value;
    return if Chronological(rows) then Some(rows) else None;
  }

  /** For a set the builder produced and its own bars and receipts, the only thing that can refuse a
      read is a product without a float; and the rows come back in strictly increasing time. */
  lemma BuiltWindowReads(
    calendar: seq<TradingDay>, b: Binary64, m: Floats, x: Inputs, bars: seq<RawBar>,
    split: Receipt<string>, dividend: Receipt<string>, factor: Receipt<FactorSetId>)
    requires MonotoneFloats(m) && FactorSetOf(calendar, b, x).Some?
    requires var s := FactorSetOf(calendar, b, x).value;
             WindowMatches(b, s, bars) && ReceiptsOk(s, bars, split, dividend, factor)
    ensures var s := FactorSetOf(calendar, b, x).value; var r := AdjustedWindow(b, m, s, bars, split, dividend, factor);
            && (r.Some? <==> forall i :: 0 <= i < |bars| ==> Representable(m, bars[i], s.payload.factors[i]))
            && (r.Some? ==> |r.value| == |bars| && Chronological(r.value)
                            && forall i :: 0 <= i < |bars| ==>
                                 && r.value[i].ordinal == i && r.value[i].timestamp == bars[i].timestamp
                                 && IsAdjusted(m, bars[i], s.payload.factors[i], r.value[i])
                                 && r.value[i].rawAvailableAt <= factor.recordedAt <= r.value[i].availableAt)
  {
    hide FactorSetOf;
    var s := FactorSetOf(calendar, b, x).value;
    forall i | 0 <= i < |bars|
      ensures AdjustRow(m, i, bars[i], s.payload.factors[i], factor.availableAt).Some?
              <==> Representable(m, bars[i], s.payload.factors[i])
      ensures bars[i].availableAt <= factor.recordedAt
    {
      assert RawBarOk(b, s, i, bars[i]);
      ConsistencyKept(m, i, bars[i], s.payload.factors[i], factor.availableAt);
      LatestAt(bars, split.availableAt, dividend.availableAt, i);
    }
    BarsChronological(calendar, b, x, bars);
    AdjustedRows(m, bars, s.payload.factors, factor.availableAt);
  }

  lemma BarsChronological(calendar: seq<TradingDay>, b: Binary64, x: Inputs, bars: seq<RawBar>)
    requires FactorSetOf(calendar, b, x).Some? && WindowMatches(b, FactorSetOf(calendar, b, x).value, bars)
    ensures forall i :: 0 < i < |bars| ==> bars[i - 1].timestamp < bars[i].timestamp
  {
    var s := FactorSetOf(calendar, b, x).value;
    assert SeriesOk(calendar, s.payload.raws, x.cutoff);
    forall i | 0 <= i < |bars| ensures bars[i].timestamp == s.payload.raws[i].observedAt {
      assert RawBarOk(b, s, i, bars[i]);
    }
  }

  lemma AdjustedRows(m: Floats, bars: seq<RawBar>, factors: seq<FactorRow>, availableAt: int)
    requires |bars| == |factors| && forall i :: 0 < i < |bars| ==> bars[i - 1].timestamp < bars[i].timestamp
    ensures var r := AdjustAll(m, bars, factors, availableAt);
            r.Some? ==>
              && |r.value| == |bars| && Chronological(r.value)
              && forall i :: 0 <= i < |bars| ==>
                   && r.value[i].ordinal == i && r.value[i].timestamp == bars[i].timestamp
                   && IsAdjusted(m, bars[i], factors[i], r.value[i])
                   && r.value[i].rawAvailableAt == bars[i].availableAt && r.value[i].availableAt == availableAt
  {
  }

  lemma {:induction false} LatestAt(bars: seq<RawBar>, split: int, dividend: int, i: nat)
    requires i < |bars|
    ensures bars[i].availableAt <= LatestInput(bars, split, dividend)
  {
    if i < |bars| - 1 {
      LatestAt(Init(bars), split, dividend, i);
    }
  }

  // ---- exactly when a window is read ----

  /** The bar is the version the factor set was computed from: its session, its stamps and receipt, received by
      the cutoff, with consistent nonnegative values and the close the set names. */
  ghost predicate BarBound(b: Binary64, s: FactorSet, i: nat, r: RawBar)
    requires i < |s.payload.raws|
  {
    var e := s.payload.raws[i];
    && r.symbol == s.payload.symbol && r.timestamp == e.observedAt && r.timestamp / DAY_MICROSECONDS == e.day
    && r.recordedAt == e.recordedAt && r.availableAt == e.availableAt
    && r.timestamp <= r.recordedAt && r.recordedAt <= r.availableAt && r.availableAt <= s.payload.cutoff
    && r.timespan == "day" && e.timespan == "day" && r.multiplier == 1 && e.multiplier == 1
    && r.source == "polygon_open_close" && e.source == "polygon_open_close" && r.basis == "raw" && e.basis == "raw"
    && b.nearest(e.close).Some? && b.nearest(e.close).value == r.close
    && 0.0 <= r.low && r.low <= r.open <= r.high && r.low <= r.close <= r.high && 0.0 <= r.volume
    && (r.vwap.Some? ==> 0.0 <= r.vwap.value) && (r.tradeCount.Some? ==> 0 <= r.tradeCount.value)
  }

  lemma BoundIff(b: Binary64, s: FactorSet, i: nat, r: RawBar)
    requires i < |s.payload.raws|
    ensures RawBarOk(b, s, i, r) <==> BarBound(b, s, i, r)
  {
  }

  /** The receipts are those of the set's own collections and of the set, which was recorded after every input
      was available. */
  ghost predicate ReceiptsFit(s: FactorSet, bars: seq<RawBar>, split: Receipt<string>, dividend: Receipt<string>,
                              factor: Receipt<FactorSetId>) {
    && split.subject == s.payload.splitCollection && dividend.subject == s.payload.dividendCollection
    && split.recordedAt <= split.availableAt <= s.payload.cutoff
    && dividend.recordedAt <= dividend.availableAt <= s.payload.cutoff
    && factor.subject == s.id && factor.recordedAt <= factor.availableAt
    && split.availableAt <= factor.recordedAt && dividend.availableAt <= factor.recordedAt
    && forall i :: 0 <= i < |bars| ==> bars[i].availableAt <= factor.recordedAt
  }

  lemma {:induction false} LatestIff(bars: seq<RawBar>, split: int, dividend: int, bound: int)
    ensures LatestInput(bars, split, dividend) <= bound <==>
              split <= bound && dividend <= bound && forall i :: 0 <= i < |bars| ==> bars[i].availableAt <= bound
  {
    if bars != [] {
      LatestIff(Init(bars), split, dividend, bound);
      assert forall i :: 0 <= i < |bars| - 1 ==> Init(bars)[i] == bars[i];
    }
  }

  /** The row of an adjusted window: the bar's stamps, the set's availability, and the products. */
  ghost predicate RowOf(m: Floats, i: nat, r: RawBar, f: FactorRow, factor: Receipt<FactorSetId>, a: AdjustedBar) {
    && a.ordinal == i && a.timestamp == r.timestamp && a.rawRecordedAt == r.recordedAt
    && a.rawAvailableAt == r.availableAt && a.availableAt == factor.availableAt
    && IsAdjusted(m, r, f, a)
  }

  /** Exactly when a window is read, for any set: every bar is bound to its raw input, the receipts fit, every
      product has a float, and the bars are in order of time. The rows then are those of the bars. */
  lemma WindowReadsIff(b: Binary64, m: Floats, s: FactorSet, bars: seq<RawBar>,
                       split: Receipt<string>, dividend: Receipt<string>, factor: Receipt<FactorSetId>)
    requires MonotoneFloats(m)
    ensures var r := AdjustedWindow(b, m, s, bars, split, dividend, factor); var p := s.payload;
            && (r.Some? <==>
                  && bars != [] && |bars| == |p.raws| == |p.factors|
                  && (forall i :: 0 <= i < |bars| ==> BarBound(b, s, i, bars[i]))
                  && ReceiptsFit(s, bars, split, dividend, factor)
                  && (forall i :: 0 <= i < |bars| ==> Representable(m, bars[i], p.factors[i]))
                  && (forall i :: 0 < i < |bars| ==> bars[i - 1].timestamp < bars[i].timestamp))
            && (r.Some? ==>
                  && |r.value| == |bars| == |p.factors|
                  && forall i :: 0 <= i < |bars| ==> RowOf(m, i, bars[i], p.factors[i], factor, r.value[i]))
  {
    hide RawBarOk, BarBound, Representable, LatestInput;
    LatestIff(bars, split.availableAt, dividend.availableAt, factor.recordedAt);
    if bars != [] && |bars| == |s.payload.raws| == |s.payload.factors| {
      forall i | 0 <= i < |bars| ensures RawBarOk(b, s, i, bars[i]) <==> BarBound(b, s, i, bars[i]) {
        BoundIff(b, s, i, bars[i]);
      }
      if WindowMatches(b, s, bars) {
        AllAdjusted(b, m, s, bars, factor);
      }
    }
  }

  lemma AllAdjusted(b: Binary64, m: Floats, s: FactorSet, bars: seq<RawBar>, factor: Receipt<FactorSetId>)
    requires MonotoneFloats(m) && WindowMatches(b, s, bars)
    ensures var r := AdjustAll(m, bars, s.payload.factors, factor.availableAt);
            && (r.Some? <==> forall i :: 0 <= i < |bars| ==> Representable(m, bars[i], s.payload.factors[i]))
            && (r.Some? ==>
                  && |r.value| == |bars|
                  && (forall i :: 0 <= i < |bars| ==> RowOf(m, i, bars[i], s.payload.factors[i], factor, r.value[i]))
                  && (Chronological(r.value) <==>
                        forall i :: 0 < i < |bars| ==> bars[i - 1].timestamp < bars[i].timestamp))
  {
    forall i | 0 <= i < |bars|
      ensures AdjustRow(m, i, bars[i], s.payload.factors[i], factor.availableAt).Some?
              <==> Representable(m, bars[i], s.payload.factors[i])
      ensures AdjustRow(m, i, bars[i], s.payload.factors[i], factor.availableAt).Some? ==>
                RowOf(m, i, bars[i], s.payload.factors[i], factor,
                      AdjustRow(m, i, bars[i], s.payload.factors[i], factor.availableAt).value)
    {
      OneAdjusted(b, m, s, bars, factor, i);
    }
    var r := AdjustAll(m, bars, s.payload.factors, factor.availableAt);
    hide AdjustRow, Representable, IsAdjusted;
    if r.Some? {
      assert forall i :: 0 <= i < |bars| ==> r.value[i].timestamp == bars[i].timestamp;
    }
  }

  lemma OneAdjusted(b: Binary64, m: Floats, s: FactorSet, bars: seq<RawBar>, factor: Receipt<FactorSetId>, i: nat)
    requires MonotoneFloats(m) && WindowMatches(b, s, bars) && i < |bars|
    ensures var row := AdjustRow(m, i, bars[i], s.payload.factors[i], factor.availableAt);
            && (row.Some? <==> Representable(m, bars[i], s.payload.factors[i]))
            && (row.Some? ==> RowOf(m, i, bars[i], s.payload.factors[i], factor, row.value))
  {
    assert RawBarOk(b, s, i, bars[i]);
    ConsistencyKept(m, i, bars[i], s.payload.factors[i], factor.availableAt);
  }

  // ---- how accurate an adjusted close is ----

  /** A conversion and a multiplication between the factors `low` and `high`: where neither leaves the
      normal binary64 range, one minus and one plus two to the minus fifty-three. */
  predicate ConvertsWithin(b: Binary64, x: Positive, low: Positive, high: Positive) {
    b.nearest(x).Some? ==> low * x <= b.nearest(x).value <= high * x
  }

  predicate MultipliesWithin(m: Floats, x: Positive, f: Positive, low: Positive, high: Positive) {
    m.times(x, f).Some? ==> low * Times(x, f) <= m.times(x, f).value <= high * Times(x, f)
  }

  /** Three float roundings on top of one part in 10^29. */
  function Least(low: Positive): Positive {
    Times(low, Times(low, Times(low, 1.0 - 0.00000000000000000000000000001)))
  }

  function Most(high: Positive): Positive {
    Times(high, Times(high, Times(high, 1.0 + 0.00000000000000000000000000001)))
  }

  function ExactFactor(p: Payload, i: nat): Positive
    requires i < |p.raws|
  {
    LaterProduct(PriceSteps(p.raws, p.splits, p.dividends), p.raws[i].day)
  }

  /** A published price: its decimal is close to the exact factor, its float the nearest to the decimal. */
  predicate PriceAccurate(b: Binary64, p: Payload, i: nat)
    requires i < |p.raws|
  {
    && |p.factors| == |p.raws|
    && b.nearest(p.factors[i].price) == Some(p.factors[i].priceFloat)
    && ExactFactor(p, i) * (1.0 - 0.00000000000000000000000000001) <= p.factors[i].price
    && p.factors[i].price <= ExactFactor(p, i) * (1.0 + 0.00000000000000000000000000001)
  }

  lemma BuiltPriceAccurate(calendar: seq<TradingDay>, b: Binary64, x: Inputs, i: nat)
    requires FactorSetOf(calendar, b, x).Some? && i < |FactorSetOf(calendar, b, x).value.payload.raws|
    ensures PriceAccurate(b, FactorSetOf(calendar, b, x).value.payload, i)
  {
    PublishedFactors(calendar, b, x, i);
  }

  /** The adjusted close a client reads is within three float roundings and the decimal error of the raw
      close times the exact product over the later actions. Every built set is accurate in this sense. */
  lemma AdjustedCloseAccurate(b: Binary64, m: Floats, low: Positive, high: Positive, p: Payload, i: nat,
                              closeFloat: Positive, adjusted: real)
    requires i < |p.raws| && PriceAccurate(b, p, i)
    requires ConvertsWithin(b, p.raws[i].close, low, high) && ConvertsWithin(b, p.factors[i].price, low, high)
    requires MultipliesWithin(m, closeFloat, p.factors[i].priceFloat, low, high)
    requires b.nearest(p.raws[i].close) == Some(closeFloat)
    requires m.times(closeFloat, p.factors[i].priceFloat) == Some(adjusted)
    ensures var exact := Times(p.raws[i].close, ExactFactor(p, i)); Least(low) * exact <= adjusted <= Most(high) * exact
  {
    RoundedClose(b, m, low, high, p.raws[i].close, closeFloat, ExactFactor(p, i), p.factors[i].price,
                 p.factors[i].priceFloat, adjusted);
  }

  lemma RoundedClose(b: Binary64, m: Floats, low: Positive, high: Positive, close: Positive, closeFloat: Positive,
                     product: Positive, price: Positive, priceFloat: Positive, adjusted: real)
    requires ConvertsWithin(b, close, low, high) && ConvertsWithin(b, price, low, high)
    requires MultipliesWithin(m, closeFloat, priceFloat, low, high)
    requires b.nearest(close) == Some(closeFloat) && b.nearest(price) == Some(priceFloat)
    requires m.times(closeFloat, priceFloat) == Some(adjusted)
    requires product * (1.0 - 0.00000000000000000000000000001) <= price
    requires price <= product * (1.0 + 0.00000000000000000000000000001)
    ensures Least(low) * Times(close, product) <= adjusted <= Most(high) * Times(close, product)
  {
    LowerSide(low, 1.0 - 0.00000000000000000000000000001, Least(low),
              close, closeFloat, product, price, priceFloat, adjusted);
    UpperSide(high, 1.0 + 0.00000000000000000000000000001, Most(high),
              close, closeFloat, product, price, priceFloat, adjusted);
  }

  lemma LowerSide(a: Positive, alpha: Positive, least: real, close: Positive, closeFloat: Positive, product: Positive,
                  price: Positive, priceFloat: Positive, adjusted: real)
    requires a * close <= closeFloat && a * price <= priceFloat && product * alpha <= price
    requires a * Times(closeFloat, priceFloat) <= adjusted && least == Times(a, Times(a, Times(a, alpha)))
    ensures least * Times(close, product) <= adjusted
  {
    var low := Times(a, alpha);
    RoundedTwice(a, alpha, product, price, priceFloat);
    ProductLow(a, low, close, closeFloat, product, priceFloat);
    Totals(a, Times(a, low), least, Times(close, product), Times(closeFloat, priceFloat));
  }

  lemma UpperSide(b: Positive, beta: Positive, most: real, close: Positive, closeFloat: Positive, product: Positive,
                  price: Positive, priceFloat: Positive, adjusted: real)
    requires closeFloat <= b * close && priceFloat <= b * price && price <= product * beta
    requires adjusted <= b * Times(closeFloat, priceFloat) && most == Times(b, Times(b, Times(b, beta)))
    ensures adjusted <= most * Times(close, product)
  {
    var high := Times(b, beta);
    RoundedTwiceUp(b, beta, product, price, priceFloat);
    ProductHigh(b, high, close, closeFloat, product, priceFloat);
    TotalsUp(b, Times(b, high), most, Times(close, product), Times(closeFloat, priceFloat));
  }

  lemma RoundedTwice(a: Positive, alpha: Positive, e: Positive, p: Positive, f: Positive)
    requires e * alpha <= p && a * p <= f
    ensures (a * alpha) * e <= f
  {
    Scale(e * alpha, p, a);
    assert (e * alpha) * a == (a * alpha) * e;
  }

  lemma RoundedTwiceUp(b: Positive, beta: Positive, e: Positive, p: Positive, f: Positive)
    requires p <= e * beta && f <= b * p
    ensures f <= (b * beta) * e
  {
    Scale(p, e * beta, b);
    assert (e * beta) * b == (b * beta) * e;
  }

  lemma ProductLow(a: Positive, low: Positive, c: Positive, cf: Positive, e: Positive, pf: Positive)
    requires a * c <= cf && low * e <= pf
    ensures (a * low) * Times(c, e) <= Times(cf, pf)
  {
    Scale(a * c, cf, low * e);
    Scale(low * e, pf, cf);
    assert (a * c) * (low * e) == (a * low) * (c * e);
  }

  lemma ProductHigh(b: Positive, high: Positive, c: Positive, cf: Positive, e: Positive, pf: Positive)
    requires cf <= b * c && pf <= high * e
    ensures Times(cf, pf) <= (b * high) * Times(c, e)
  {
    Scale(cf, b * c, pf);
    Scale(pf, high * e, b * c);
    assert (b * c) * (high * e) == (b * high) * (c * e);
  }

  lemma Totals(a: Positive, low: Positive, least: real, t: Positive, u: Positive)
    requires low * t <= u && least <= a * low
    ensures least * t <= a * u
  {
    Scale(low * t, u, a);
    Scale(least, a * low, t);
    assert (low * t) * a == (a * low) * t;
  }

  lemma TotalsUp(b: Positive, high: Positive, most: real, t: Positive, u: Positive)
    requires u <= high * t && b * high <= most
    ensures b * u <= most * t
  {
    Scale(u, high * t, b);
    Scale(b * high, most, t);
    assert (high * t) * b == (b * high) * t;
  }

  lemma OneDown(low: Positive, w: Positive, s: Positive)
    requires low + w == 1.0 && s <= 1.0
    ensures s - w <= Times(low, s) <= 1.0
  {
    Scale(s, 1.0, w);
    assert Times(low, s) + s * w == s;
  }

  lemma OneUp(high: Positive, w: Positive, s: Positive)
    requires high == 1.0 + w && s <= 1.1
    ensures Times(high, s) <= s + 1.1 * w
  {
    Scale(s, 1.1, w);
    assert Times(high, s) == s + s * w;
  }

  /** Together they come to less than four float roundings. */
  lemma FourRoundings(w: Positive, low: Positive, high: Positive)
    requires 0.00000000000000000001 <= w <= 0.001 && low + w == 1.0 && high == 1.0 + w
    ensures 1.0 - 4.0 * w <= Least(low) && Most(high) <= 1.0 + 4.0 * w
  {
    var d: Positive, u: Positive := 1.0 - 0.00000000000000000000000000001, 1.0 + 0.00000000000000000000000000001;
    OneDown(low, w, d);
    OneDown(low, w, Times(low, d));
    OneDown(low, w, Times(low, Times(low, d)));
    OneUp(high, w, u);
    OneUp(high, w, Times(high, u));
    OneUp(high, w, Times(high, Times(high, u)));
  }

  /** A row that was read is its own bar times its own published float. */
  lemma RowRead(b: Binary64, m: Floats, s: FactorSet, bars: seq<RawBar>,
                split: Receipt<string>, dividend: Receipt<string>, factor: Receipt<FactorSetId>, i: nat)
    requires AdjustedWindow(b, m, s, bars, split, dividend, factor).Some? && i < |bars|
    ensures var r := AdjustedWindow(b, m, s, bars, split, dividend, factor).value; var p := s.payload;
            && |r| == |bars| == |p.raws| == |p.factors|
            && b.nearest(p.raws[i].close).Some? && b.nearest(p.raws[i].close).value == bars[i].close
            && m.times(bars[i].close, p.factors[i].priceFloat) == Some(r[i].close)
  {
    assert RawBarOk(b, s, i, bars[i]);
  }

  lemma Within(least: Positive, near: Positive, most: Positive, far: Positive, exact: Positive, adjusted: real)
    requires near <= least && most <= far && least * exact <= adjusted <= most * exact
    ensures near * exact <= adjusted <= far * exact
  {
    Scale(near, least, exact);
    Scale(most, far, exact);
  }

  /** Every close a client reads from a built set is within four float roundings of the stored raw close
      times the exact product over the later actions, where the row's conversions and its product each
      err by one rounding `w` at most. */
  lemma ReadCloseAccurate(
    calendar: seq<TradingDay>, b: Binary64, m: Floats, x: Inputs, bars: seq<RawBar>,
    split: Receipt<string>, dividend: Receipt<string>, factor: Receipt<FactorSetId>,
    i: nat, w: Positive, low: Positive, high: Positive, near: Positive, far: Positive)
    requires FactorSetOf(calendar, b, x).Some? && i < |bars|
    requires var s := FactorSetOf(calendar, b, x).value; var p := s.payload;
             && AdjustedWindow(b, m, s, bars, split, dividend, factor).Some? && i < |p.raws| == |p.factors|
             && ConvertsWithin(b, p.raws[i].close, low, high) && ConvertsWithin(b, p.factors[i].price, low, high)
             && (bars[i].close > 0.0 ==> MultipliesWithin(m, bars[i].close, p.factors[i].priceFloat, low, high))
    requires 0.00000000000000000001 <= w <= 0.001 && low + w == 1.0 && high == 1.0 + w
    requires near + 4.0 * w == 1.0 && far == 1.0 + 4.0 * w
    ensures var s := FactorSetOf(calendar, b, x).value; var p := s.payload;
            var r := AdjustedWindow(b, m, s, bars, split, dividend, factor).value;
            && |r| == |bars|
            && var exact := Times(p.raws[i].close, ExactFactor(p, i));
               near * exact <= r[i].close <= far * exact
  {
    hide FactorSetOf, AdjustedWindow, PriceAccurate, ConvertsWithin, MultipliesWithin, Least, Most, ExactFactor, Times;
    var s := FactorSetOf(calendar, b, x).value;
    var r := AdjustedWindow(b, m, s, bars, split, dividend, factor).value;
    RowRead(b, m, s, bars, split, dividend, factor, i);
    BuiltPriceAccurate(calendar, b, x, i);
    AdjustedCloseAccurate(b, m, low, high, s.payload, i, bars[i].close, r[i].close);
    FourRoundings(w, low, high);
    Within(Least(low), near, Most(high), far, Times(s.payload.raws[i].close, ExactFactor(s.payload, i)), r[i].close);
  }
}
