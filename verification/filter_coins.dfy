/** The coin filter that the app runs on a button press: pick the USDT
    perpetual markets, then keep each symbol whose hourly candles pass a
    chain of gates (correlation with BTC, distance from the 100-period EMA,
    candle colour against EMA side, volume, 3-day range), in market order.
    Exchange requests and the EMA and Pearson routines are given as
    functions; everything else is computed here. */
module FilterCoins {
  import opened Wrappers
  import opened Strings
  import opened Floats
  import opened Selection

  /** One hourly OHLCV row. */
  datatype Candle = Candle(timestamp: int, open: real, high: real, low: real, close: real, volume: int)

  /** A candle frame, oldest row first; row positions are also its labels. */
  type Series = seq<Candle>

  /** The two market attributes the filter reads; a missing key is None. */
  datatype Market = Market(swap: Option<bool>, quote: Option<string>)

  /** The `fundingRate` entry of a funding-rate reply. */
  datatype FundingField = Absent | Null | Rate(value: real)

  /** The exchange, as the answers it gives; None stands for a request
      that raised. */
  datatype Exchange = Exchange(
    markets: Option<seq<(string, Market)>>,
    ohlcv: string -> Option<Series>,
    fundingInfo: string -> Option<FundingField>)

  /** The EMA column for a close column and a period, and the Pearson
      coefficient of two equally long columns. */
  datatype Numerics = Numerics(
    ema: (seq<real>, int) -> seq<Option<real>>,
    corr: (seq<real>, seq<real>) -> Float)

  datatype HighLow = HighLow(high: real, low: real, highPerc: Float, lowPerc: Float)

  /** One emitted coin (rounding of the numbers is not modelled). */
  datatype Entry = Entry(
    symbol: string, candle: string, pema: string,
    high3d: Float, low3d: Float, volume: int, funding: real, corrBtc: Float)

  /** The reply object: `message` and `data` are present or absent keys. */
  datatype Envelope = Envelope(status: string, message: Option<string>, data: Option<seq<Entry>>)

  const BtcSymbol := "BTC/USDT:USDT"
  const BtcPair := "BTC/USDT"
  const SettleSuffix := ":USDT"
  const EmaPeriod := 100
  const MinThreshold: real := 0.5
  const MaxThreshold: real := 2.0
  const CorrelationCeiling: real := 0.59
  const MinVolume := 50000
  const MoveThreshold: real := 3.0
  const ThreeDayRows := 72
  const NoCoinsMessage := "No coins met the filter conditions"

  function Min(a: int, b: int): int { if a <= b then a else b }
  function Max(a: int, b: int): int { if a >= b then a else b }
  function AbsReal(x: real): real { if x < 0.0 then -x else x }

  // ---------------------------------------------------------------- markets

  /** `market.get('swap')` is truthy and `market.get('quote') == 'USDT'`. */
  predicate IsPerpetualUsdt(m: Market) {
    m.swap == Some(true) && m.quote == Some("USDT")
  }

  function PerpetualUsdtSymbol(entry: (string, Market)): Option<string> {
    if IsPerpetualUsdt(entry.1) then Some(entry.0) else None
  }

  /** The symbols of the USDT perpetual markets, in market order; [] when
      loading the markets raised. */
  function GetPerpetualUsdtPairs(markets: Option<seq<(string, Market)>>): (r: seq<string>)
    ensures markets.None? ==> r == []
    ensures markets.Some? ==> |r| <= |markets.value|
  {
    match markets
    case None => []
    case Some(ms) => FilterMap(ms, PerpetualUsdtSymbol)
  }

  /** Exactly the swap/USDT markets are kept, each once, in market order. */
  lemma PerpetualUsdtPairsExact(ms: seq<(string, Market)>) returns (idx: seq<nat>)
    ensures var r := GetPerpetualUsdtPairs(Some(ms));
      && |idx| == |r| && Increasing(idx, |ms|)
      && (forall k :: 0 <= k < |r| ==> r[k] == ms[idx[k]].0 && IsPerpetualUsdt(ms[idx[k]].1))
      && (forall i :: 0 <= i < |ms| && IsPerpetualUsdt(ms[i].1) ==> i in idx)
  {
    idx := FilterMapPositions(ms, PerpetualUsdtSymbol);
  }

  // ---------------------------------------------------------------- candles

  /** `fetch_ohlcv`: a reply that raised, is empty or has fewer than two
      rows gives None. */
  function FetchOhlcv(reply: Option<Series>): (r: Option<Series>)
    ensures r.Some? ==> reply == r && |r.value| >= 2
    ensures r.None? <==> reply.None? || |reply.value| < 2
  {
    match reply
    case None => None
    case Some(rows) => if |rows| == 0 then None else if |rows| >= 2 then Some(rows) else None
  }

  /** Colour of the second-to-last candle, the last closed one. */
  function GetCandleColor(df: Option<Series>): (r: string)
    ensures r == "gray" <==> df.None? || |df.value| < 2
    ensures df.Some? && |df.value| >= 2 ==>
      var prev := df.value[|df.value| - 2];
      && (r == "green" <==> prev.close > prev.open)
      && (r == "red" <==> prev.close <= prev.open)
  {
    if df.None? || |df.value| < 2 then "gray"
    else
      var prev := df.value[|df.value| - 2];
      if prev.close > prev.open then "green" else "red"
  }

  function Closes(df: Series): (r: seq<real>)
    ensures |r| == |df| && forall i :: 0 <= i < |df| ==> r[i] == df[i].close
  {
    seq(|df|, i requires 0 <= i < |df| => df[i].close)
  }

  /** The EMA at a row; a row the column does not cover reads as missing,
      as a column assigned from a None EMA result does. */
  function EmaAt(column: seq<Option<real>>, i: int): Option<real> {
    if 0 <= i < |column| then column[i] else None
  }

  /** The EMA on the second-to-last row of a frame. */
  function PrevEma(df: Series, period: int, ema: (seq<real>, int) -> seq<Option<real>>): Option<real> {
    EmaAt(ema(Closes(df), period), |df| - 2)
  }

  /** |c - e| / |e| * 100, the distance of a close from the EMA in percent. */
  function Deviation(c: real, e: real): real
    requires e != 0.0
  {
    AbsReal(c - e) / AbsReal(e) * 100.0
  }

  lemma AbsQuotient(x: real, y: real)
    requires y != 0.0
    ensures AbsReal(x / y) == AbsReal(x) / AbsReal(y)
  {
    if y < 0.0 {
      assert x / y == (-x) / (-y);
    }
  }

  /** The EMA band test: (near, below). Near holds exactly when the
      previous close lies between the thresholds, in percent of the EMA;
      below is known whenever the EMA is, and is close < EMA. */
  function CheckPriceNearEma(df: Option<Series>, emaPeriod: int, minThreshold: real, maxThreshold: real,
                             ema: (seq<real>, int) -> seq<Option<real>>): (r: (bool, Option<bool>))
    requires emaPeriod >= 2
    ensures r.1.Some? <==> df.Some? && |df.value| >= emaPeriod && PrevEma(df.value, emaPeriod, ema).Some?
    ensures r.1.Some? ==> (r.1.value <==> df.value[|df.value| - 2].close < PrevEma(df.value, emaPeriod, ema).value)
    ensures r.0 <==> (r.1.Some? &&
      var c := df.value[|df.value| - 2].close;
      var e := PrevEma(df.value, emaPeriod, ema).value;
      e != 0.0 && minThreshold <= Deviation(c, e) <= maxThreshold)
  {
    if df.None? || |df.value| < emaPeriod then (false, None)
    else
      var c := df.value[|df.value| - 2].close;
      match PrevEma(df.value, emaPeriod, ema)
      case None => (false, None)
      case Some(e) =>
        var percentageDiff := Scale(Abs(Div(c - e, e)), 100.0);
        assert e != 0.0 ==> percentageDiff == Finite(Deviation(c, e)) by {
          if e != 0.0 { AbsQuotient(c - e, e); }
        }
        (AtLeast(percentageDiff, minThreshold) && AtMost(percentageDiff, maxThreshold), Some(c < e))
  }

  /** With the upper threshold under 100%, a zero close is never near a
      non-zero EMA. */
  lemma NearEmaCloseNonZero(df: Option<Series>, emaPeriod: int, minThreshold: real, maxThreshold: real,
                            ema: (seq<real>, int) -> seq<Option<real>>)
    requires emaPeriod >= 2 && maxThreshold < 100.0
    requires CheckPriceNearEma(df, emaPeriod, minThreshold, maxThreshold, ema).0
    ensures df.value[|df.value| - 2].close != 0.0
  {
    var c := df.value[|df.value| - 2].close;
    var e := PrevEma(df.value, emaPeriod, ema).value;
    DeviationFromZero(e);
  }

  lemma DeviationFromZero(e: real)
    requires e != 0.0
    ensures Deviation(0.0, e) == 100.0
  {
    var a := AbsReal(e);
    assert AbsReal(0.0 - e) == a && a > 0.0;
    assert a / a == 1.0;
  }

  // ---------------------------------------------------------------- 3-day range

  function WindowStart(n: int): int { Max(0, n - 73) }

  /** `df.iloc[-73:-1]`: up to 72 rows ending just before the last one. */
  function ThreeDayWindow(df: Series): (w: Series)
    requires |df| >= ThreeDayRows
    ensures |w| == (if |df| == ThreeDayRows then 71 else 72)
    ensures w[|w| - 1] == df[|df| - 2]
    ensures forall k :: 0 <= k < |w| ==> w[k] == df[WindowStart(|df|) + k]
  {
    df[WindowStart(|df|)..|df| - 1]
  }

  function MaxHigh(w: Series): (m: real)
    requires |w| > 0
    ensures forall i :: 0 <= i < |w| ==> w[i].high <= m
    ensures exists i :: 0 <= i < |w| && w[i].high == m
  {
    if |w| == 1 then w[0].high
    else
      var rest := MaxHigh(w[1..]);
      assert forall i :: 1 <= i < |w| ==> w[i] == w[1..][i - 1];
      if w[0].high >= rest then w[0].high else rest
  }

  function MinLow(w: Series): (m: real)
    requires |w| > 0
    ensures forall i :: 0 <= i < |w| ==> m <= w[i].low
    ensures exists i :: 0 <= i < |w| && w[i].low == m
  {
    if |w| == 1 then w[0].low
    else
      var rest := MinLow(w[1..]);
      assert forall i :: 1 <= i < |w| ==> w[i] == w[1..][i - 1];
      if w[0].low <= rest then w[0].low else rest
  }

  /** (x / base) * 100 in floating point. */
  function Percent(x: real, base: real): (r: Float)
    ensures base != 0.0 ==> r == Finite(x / base * 100.0)
    ensures base == 0.0 ==> !r.Finite?
  {
    Scale(Div(x, base), 100.0)
  }

  /** The highest high and the lowest low over rows WindowStart(n) .. n-2. */
  function WindowExtremes(d: Series): (r: (real, real))
    requires |d| >= ThreeDayRows
    ensures forall i :: WindowStart(|d|) <= i < |d| - 1 ==> d[i].high <= r.0 && r.1 <= d[i].low
    ensures exists i :: WindowStart(|d|) <= i < |d| - 1 && d[i].high == r.0
    ensures exists i :: WindowStart(|d|) <= i < |d| - 1 && d[i].low == r.1
  {
    var w := ThreeDayWindow(d);
    var high := MaxHigh(w);
    var low := MinLow(w);
    assert forall k :: 0 <= k < |w| ==> d[WindowStart(|d|) + k] == w[k];
    assert forall i :: WindowStart(|d|) <= i < |d| - 1 ==> d[i] == w[i - WindowStart(|d|)];
    (high, low)
  }

  /** The highest high and lowest low of the window, and how far they lie
      above and below the previous close, in percent of it. */
  function Calculate3DayHighLow(df: Option<Series>): (r: Option<HighLow>)
    ensures r.None? <==> df.None? || |df.value| < ThreeDayRows
    ensures r.Some? ==>
      var d := df.value;
      var n := |d|;
      var c := d[n - 2].close;
      && (r.value.high, r.value.low) == WindowExtremes(d)
      && (c != 0.0 ==> (r.value.highPerc == Finite((r.value.high - c) / c * 100.0)
                     && r.value.lowPerc == Finite((c - r.value.low) / c * 100.0)))
      && (c == 0.0 ==> !r.value.highPerc.Finite? && !r.value.lowPerc.Finite?)
  {
    if df.None? || |df.value| < ThreeDayRows then None
    else
      var d := df.value;
      var (high, low) := WindowExtremes(d);
      var prevPrice := d[|d| - 2].close;
      Some(HighLow(high, low, Percent(high - prevPrice, prevPrice), Percent(prevPrice - low, prevPrice)))
  }

  // ---------------------------------------------------------------- correlation

  /** Row p.0 of a frame of n1 rows and row p.1 of a frame of n2 rows are
      the same number of hours before their newest candle. */
  predicate SameAge(n1: int, n2: int, p: (nat, nat)) {
    n1 - 1 - p.0 == n2 - 1 - p.1
  }

  /** The rows compared when the last min(n1, n2) closes of each frame are
      paired position by position: oldest with oldest, newest with newest. */
  function AlignedRows(n1: nat, n2: nat): (p: seq<(nat, nat)>)
    ensures |p| == Min(n1, n2)
    ensures forall k :: 0 <= k < |p| ==> p[k].0 < n1 && p[k].1 < n2 && SameAge(n1, n2, p[k])
    ensures forall k, l :: 0 <= k < l < |p| ==> p[k].0 < p[l].0 && p[k].1 < p[l].1
    ensures |p| > 0 ==> p[|p| - 1] == (n1 - 1, n2 - 1)
  {
    var m := Min(n1, n2);
    seq(m, k requires 0 <= k < m => ((n1 - m + k) as nat, (n2 - m + k) as nat))
  }

  /** The rows compared by `Series.corr` on the two tails as written: it
      pairs values by row label, and each tail keeps the labels of its own
      frame, so only labels present in both tails are paired. */
  function LabelAlignedRows(n1: nat, n2: nat): (p: seq<(nat, nat)>)
    ensures |p| == if 2 * Min(n1, n2) > Max(n1, n2) then 2 * Min(n1, n2) - Max(n1, n2) else 0
    ensures forall k :: 0 <= k < |p| ==> p[k] == (Max(n1, n2) - Min(n1, n2) + k, Max(n1, n2) - Min(n1, n2) + k)
    ensures forall k :: 0 <= k < |p| ==> p[k].0 == p[k].1 && p[k].0 < n1 && p[k].1 < n2
  {
    var m := Min(n1, n2);
    var lo := Max(n1, n2) - m;
    seq(if m > lo then m - lo else 0, k requires 0 <= k < (if m > lo then m - lo else 0) => ((lo + k) as nat, (lo + k) as nat))
  }

  function CoinCloses(df: Series, p: seq<(nat, nat)>): seq<real>
    requires forall k :: 0 <= k < |p| ==> p[k].0 < |df|
  {
    seq(|p|, k requires 0 <= k < |p| => df[p[k].0].close)
  }

  function BtcCloses(df: Series, p: seq<(nat, nat)>): seq<real>
    requires forall k :: 0 <= k < |p| ==> p[k].1 < |df|
  {
    seq(|p|, k requires 0 <= k < |p| => df[p[k].1].close)
  }

  /** `calculate_correlation` as written: the coefficient over the rows
      whose labels both tails share; no shared label gives NaN. */
  function CalculateCorrelationAsWritten(coin: Option<Series>, btc: Option<Series>,
                                         corr: (seq<real>, seq<real>) -> Float): (r: Option<Float>)
    ensures r.Some? <==> coin.Some? && btc.Some? && Min(|coin.value|, |btc.value|) >= 2
    ensures r.Some? ==>
      var p := LabelAlignedRows(|coin.value|, |btc.value|);
      && (p == [] ==> r.value == NaN)
      && (p != [] ==> r.value == corr(CoinCloses(coin.value, p), BtcCloses(btc.value, p)))
  {
    if coin.None? || btc.None? then None
    else if Min(|coin.value|, |btc.value|) < 2 then None
    else
      var p := LabelAlignedRows(|coin.value|, |btc.value|);
      if p == [] then Some(NaN)
      else Some(corr(CoinCloses(coin.value, p), BtcCloses(btc.value, p)))
  }

  /** As written, the compared rows are the same hours only when both
      frames have the same length. */
  lemma {:induction false} LabelAlignmentMisaligns(n1: nat, n2: nat)
    requires LabelAlignedRows(n1, n2) != []
    ensures (forall k :: 0 <= k < |LabelAlignedRows(n1, n2)| ==> SameAge(n1, n2, LabelAlignedRows(n1, n2)[k])) <==> n1 == n2
  {
    var p := LabelAlignedRows(n1, n2);
    if n1 != n2 {
      assert p[0].0 == p[0].1;
      assert !SameAge(n1, n2, p[0]);
    }
  }

  /** A coin with 100 hourly candles against 150 BTC candles: as written,
      only 50 rows are compared, and the coin's last closed hours are set
      against BTC closes 50 hours older; paired by time, all 100 rows are
      compared. */
  lemma ShortCoinFrameExample()
    ensures |LabelAlignedRows(100, 150)| == 50
    ensures LabelAlignedRows(100, 150)[49] == (99, 99) && !SameAge(100, 150, (99, 99))
    ensures |AlignedRows(100, 150)| == 100 && AlignedRows(100, 150)[99] == (99, 149)
  {
  }

  /** On frames of one length the two pairings compare the same rows, so the
      corrected routine gives what the code as written gives. */
  lemma {:induction false} CorrelationAgreesOnEqualLength(coin: Series, btc: Series, corr: (seq<real>, seq<real>) -> Float)
    requires |coin| == |btc|
    ensures CalculateCorrelation(Some(coin), Some(btc), corr) == CalculateCorrelationAsWritten(Some(coin), Some(btc), corr)
  {
    var n := |coin|;
    if n >= 2 {
      var p := LabelAlignedRows(n, n);
      var q := AlignedRows(n, n);
      assert |p| == |q| == n;
      forall k | 0 <= k < n
        ensures p[k] == q[k]
      {
        assert SameAge(n, n, q[k]);
      }
      assert p == q;
    }
  }

  /** The correlation with BTC over the last min(len) closes of each frame,
      paired by time; None when a frame is missing or either has fewer than
      two rows. */
  function CalculateCorrelation(coin: Option<Series>, btc: Option<Series>,
                                corr: (seq<real>, seq<real>) -> Float): (r: Option<Float>)
    ensures r.Some? <==> coin.Some? && btc.Some? && Min(|coin.value|, |btc.value|) >= 2
    ensures r.Some? ==>
      var p := AlignedRows(|coin.value|, |btc.value|);
      var xs := CoinCloses(coin.value, p);
      var ys := BtcCloses(btc.value, p);
      && r.value == corr(xs, ys)
      && |xs| == |ys| == Min(|coin.value|, |btc.value|)
      && xs[|xs| - 1] == coin.value[|coin.value| - 1].close
      && ys[|ys| - 1] == btc.value[|btc.value| - 1].close
  {
    if coin.None? || btc.None? then None
    else if Min(|coin.value|, |btc.value|) < 2 then None
    else
      var p := AlignedRows(|coin.value|, |btc.value|);
      Some(corr(CoinCloses(coin.value, p), BtcCloses(btc.value, p)))
  }

  /** Which rows the correlation gate pairs: by row label, as
      filter_coins.py:130 does through `calculate_correlation` as written,
      or by time, newest with newest, as intended. */
  datatype Pairing = ByLabel | ByTime

  function Correlate(pairing: Pairing, coin: Option<Series>, btc: Option<Series>,
                     corr: (seq<real>, seq<real>) -> Float): Option<Float> {
    match pairing
    case ByLabel => CalculateCorrelationAsWritten(coin, btc, corr)
    case ByTime => CalculateCorrelation(coin, btc, corr)
  }

  // ---------------------------------------------------------------- funding

  /** `fetch_funding_rate`: a missing `fundingRate` reads as 0.0; a
      request that raised, or a null rate that float() rejects, gives None. */
  function FetchFundingRate(info: Option<FundingField>): (r: Option<real>)
    ensures r.None? <==> info.None? || info.value.Null?
    ensures info == Some(Absent) ==> r == Some(0.0)
    ensures info.Some? && info.value.Rate? ==> r == Some(info.value.value)
  {
    match info
    case None => None
    case Some(Absent) => Some(0.0)
    case Some(Null) => None
    case Some(Rate(v)) => Some(v)
  }

  // ---------------------------------------------------------------- the filter

  /** One pass of the filter loop for one symbol: None where the loop
      `continue`s, the appended entry otherwise. */
  function EvaluateSymbol(symbol: string, btc: Series, ex: Exchange, num: Numerics, pairing: Pairing): Option<Entry> {
    if Contains(symbol, BtcPair) then None
    else match FetchOhlcv(ex.ohlcv(symbol))
      case None => None
      case Some(df) =>
        var correlation := Correlate(pairing, Some(df), Some(btc), num.corr);
        if correlation.None? || Above(correlation.value, CorrelationCeiling) then None
        else
          var near := CheckPriceNearEma(Some(df), EmaPeriod, MinThreshold, MaxThreshold, num.ema);
          if !near.0 then None
          else
            var candle := GetCandleColor(Some(df));
            var volume := df[|df| - 2].volume;
            var below := near.1 == Some(true);
            if (below && candle != "red") || (!below && candle != "green") then None
            else if volume < MinVolume then None
            else match Calculate3DayHighLow(Some(df))
              case None => None
              case Some(hl) =>
                if AtMost(hl.highPerc, MoveThreshold) && AtMost(hl.lowPerc, MoveThreshold) then None
                else
                  var funding := FetchFundingRate(ex.fundingInfo(symbol)).GetOr(0.0);
                  Some(Entry(RemoveAll(symbol, SettleSuffix), candle, if below then "Below" else "Above",
                             hl.highPerc, hl.lowPerc, volume, funding, correlation.value))
  }

  function Step(btc: Series, ex: Exchange, num: Numerics, pairing: Pairing): string -> Option<Entry> {
    symbol => EvaluateSymbol(symbol, btc, ex, num, pairing)
  }

  /** `filter_coins` with the given correlation pairing: [] without
      markets or without a BTC frame, otherwise the entries of the symbols
      that pass, in order. */
  function Filtered(ex: Exchange, num: Numerics, pairing: Pairing): (r: seq<Entry>)
    ensures |r| <= |GetPerpetualUsdtPairs(ex.markets)|
    ensures GetPerpetualUsdtPairs(ex.markets) == [] ==> r == []
    ensures FetchOhlcv(ex.ohlcv(BtcSymbol)).None? ==> r == []
  {
    var symbols := GetPerpetualUsdtPairs(ex.markets);
    if symbols == [] then []
    else match FetchOhlcv(ex.ohlcv(BtcSymbol))
      case None => []
      case Some(btc) => FilterMap(symbols, Step(btc, ex, num, pairing))
  }

  /** The gates of the loop, stated one by one, and the entry they build. */
  ghost predicate Admitted(symbol: string, btc: Series, ex: Exchange, num: Numerics, pairing: Pairing, e: Entry) {
    && !Contains(symbol, BtcPair)
    && e.symbol == RemoveAll(symbol, SettleSuffix)
    && FetchOhlcv(ex.ohlcv(symbol)).Some?
    && var df := FetchOhlcv(ex.ohlcv(symbol)).value;
       && Correlate(pairing, Some(df), Some(btc), num.corr) == Some(e.corrBtc)
       && !Above(e.corrBtc, CorrelationCeiling)
       && CheckPriceNearEma(Some(df), EmaPeriod, MinThreshold, MaxThreshold, num.ema).0
       && CheckPriceNearEma(Some(df), EmaPeriod, MinThreshold, MaxThreshold, num.ema).1 == Some(e.pema == "Below")
       && (e.pema == "Below" || e.pema == "Above")
       && e.candle == GetCandleColor(Some(df))
       && (e.candle == "red" <==> e.pema == "Below")
       && (e.candle == "green" <==> e.pema == "Above")
       && e.volume == df[|df| - 2].volume && e.volume >= MinVolume
       && Calculate3DayHighLow(Some(df)).Some?
       && e.high3d == Calculate3DayHighLow(Some(df)).value.highPerc
       && e.low3d == Calculate3DayHighLow(Some(df)).value.lowPerc
       && e.high3d.Finite? && e.low3d.Finite?
       && (e.high3d.v > MoveThreshold || e.low3d.v > MoveThreshold)
       && e.funding == FetchFundingRate(ex.fundingInfo(symbol)).GetOr(0.0)
  }

  /** A symbol yields an entry exactly when every gate holds for it; its
      percentages are then finite, because a close that is zero never
      passes the EMA test. */
  lemma EvaluateSymbolAdmits(symbol: string, btc: Series, ex: Exchange, num: Numerics, pairing: Pairing, e: Entry)
    ensures EvaluateSymbol(symbol, btc, ex, num, pairing) == Some(e) <==> Admitted(symbol, btc, ex, num, pairing, e)
  {
    if EvaluateSymbol(symbol, btc, ex, num, pairing) == Some(e) {
      var df := FetchOhlcv(ex.ohlcv(symbol)).value;
      NearEmaCloseNonZero(Some(df), EmaPeriod, MinThreshold, MaxThreshold, num.ema);
    }
  }

  /** The selection over a list of symbols holds exactly the entries of
      those that pass every gate, in order, one per symbol. */
  lemma StepSelection(symbols: seq<string>, btc: Series, ex: Exchange, num: Numerics, pairing: Pairing)
    returns (idx: seq<nat>)
    ensures var r := FilterMap(symbols, Step(btc, ex, num, pairing));
      && |idx| == |r| && Increasing(idx, |symbols|)
      && (forall k :: 0 <= k < |r| ==>
            && EvaluateSymbol(symbols[idx[k]], btc, ex, num, pairing) == Some(r[k])
            && Admitted(symbols[idx[k]], btc, ex, num, pairing, r[k]))
      && (forall i, e :: 0 <= i < |symbols| && Admitted(symbols[i], btc, ex, num, pairing, e) ==>
            exists k :: 0 <= k < |r| && idx[k] == i && r[k] == e)
  {
    var step := Step(btc, ex, num, pairing);
    var r := FilterMap(symbols, step);
    idx := FilterMapPositions(symbols, step);
    forall k | 0 <= k < |r|
      ensures EvaluateSymbol(symbols[idx[k]], btc, ex, num, pairing) == Some(r[k])
      ensures Admitted(symbols[idx[k]], btc, ex, num, pairing, r[k])
    {
      assert step(symbols[idx[k]]) == Some(r[k]);
      EvaluateSymbolAdmits(symbols[idx[k]], btc, ex, num, pairing, r[k]);
    }
    forall i, e | 0 <= i < |symbols| && Admitted(symbols[i], btc, ex, num, pairing, e)
      ensures exists k :: 0 <= k < |r| && idx[k] == i && r[k] == e
    {
      EvaluateSymbolAdmits(symbols[i], btc, ex, num, pairing, e);
      assert step(symbols[i]) == Some(e);
      assert i in idx;
      var k :| 0 <= k < |idx| && idx[k] == i;
      assert step(symbols[idx[k]]) == Some(r[k]);
    }
  }

  /** With a BTC frame, the output is exactly the entries of the symbols
      that pass every gate, in market order, one per symbol: the returned
      positions witness it. */
  lemma FilteredFollowsInput(ex: Exchange, num: Numerics, pairing: Pairing) returns (idx: seq<nat>)
    ensures var symbols := GetPerpetualUsdtPairs(ex.markets);
      var r := Filtered(ex, num, pairing);
      && |idx| == |r| && Increasing(idx, |symbols|)
      && (r != [] ==> FetchOhlcv(ex.ohlcv(BtcSymbol)).Some?)
      && (FetchOhlcv(ex.ohlcv(BtcSymbol)).Some? ==>
            var btc := FetchOhlcv(ex.ohlcv(BtcSymbol)).value;
            && (forall k :: 0 <= k < |r| ==>
                  && EvaluateSymbol(symbols[idx[k]], btc, ex, num, pairing) == Some(r[k])
                  && Admitted(symbols[idx[k]], btc, ex, num, pairing, r[k]))
            && (forall i, e :: 0 <= i < |symbols| && Admitted(symbols[i], btc, ex, num, pairing, e) ==>
                  exists k :: 0 <= k < |r| && idx[k] == i && r[k] == e))
  {
    var symbols := GetPerpetualUsdtPairs(ex.markets);
    if FetchOhlcv(ex.ohlcv(BtcSymbol)).None? || symbols == [] {
      idx := [];
    } else {
      var btc := FetchOhlcv(ex.ohlcv(BtcSymbol)).value;
      assert Filtered(ex, num, pairing) == FilterMap(symbols, Step(btc, ex, num, pairing));
      idx := StepSelection(symbols, btc, ex, num, pairing);
    }
  }

  /** The body of the loop in `filter_coins` for one symbol: each gate
      returns None where the loop `continue`s, and a symbol that passes
      them all yields its entry. */
  method CheckSymbol(symbol: string, btc: Series, ex: Exchange, num: Numerics, pairing: Pairing)
    returns (entry: Option<Entry>)
    ensures entry == EvaluateSymbol(symbol, btc, ex, num, pairing)
  {
    if Contains(symbol, BtcPair) {
      return None;
    }
    var df := FetchOhlcv(ex.ohlcv(symbol));
    if df.None? {
      return None;
    }
    var correlation := Correlate(pairing, df, Some(btc), num.corr);
    if correlation.None? || Above(correlation.value, CorrelationCeiling) {
      return None;
    }
    var near := CheckPriceNearEma(df, EmaPeriod, MinThreshold, MaxThreshold, num.ema);
    if !near.0 {
      return None;
    }
    var candleColor := GetCandleColor(df);
    var volume := df.value[|df.value| - 2].volume;
    var priceBelowEma := near.1 == Some(true);
    if (priceBelowEma && candleColor != "red") || (!priceBelowEma && candleColor != "green") {
      return None;
    }
    if volume < MinVolume {
      return None;
    }
    var highLow := Calculate3DayHighLow(df);
    if highLow.None? {
      return None;
    }
    var hl := highLow.value;
    if AtMost(hl.highPerc, MoveThreshold) && AtMost(hl.lowPerc, MoveThreshold) {
      return None;
    }
    var fundingRate := FetchFundingRate(ex.fundingInfo(symbol));
    if fundingRate.None? {
      fundingRate := Some(0.0);
    }
    entry := Some(Entry(RemoveAll(symbol, SettleSuffix), candleColor,
      if priceBelowEma then "Below" else "Above", hl.highPerc, hl.lowPerc, volume,
      fundingRate.value, correlation.value));
  }

  /** `filter_coins`: the loop over the market symbols, skipping each
      symbol that fails a gate and appending the entry of each that
      passes; `ByLabel` is the code as written. */
  method FilterCoins(ex: Exchange, num: Numerics, pairing: Pairing) returns (filteredSymbols: seq<Entry>)
    ensures filteredSymbols == Filtered(ex, num, pairing)
  {
    var symbols := GetPerpetualUsdtPairs(ex.markets);
    if symbols == [] {
      return [];
    }
    var btcDf := FetchOhlcv(ex.ohlcv(BtcSymbol));
    if btcDf.None? {
      return [];
    }
    var btc := btcDf.value;
    ghost var step := Step(btc, ex, num, pairing);
    filteredSymbols := [];
    for i := 0 to |symbols|
      invariant filteredSymbols == FilterMap(symbols[..i], step)
    {
      var symbol := symbols[i];
      assert symbols[..i + 1][..i] == symbols[..i];
      var entry := CheckSymbol(symbol, btc, ex, num, pairing);
      assert step(symbol) == entry;
      if entry.None? {
        continue;
      }
      filteredSymbols := filteredSymbols + [entry.value];
    }
    assert symbols[..|symbols|] == symbols;
    assert Filtered(ex, num, pairing) == FilterMap(symbols, step);
  }

  // ---------------------------------------------------------------- reply

  /** `on_button_click`: the reply for the filter's outcome, which is its
      list or the text of the exception it raised. */
  function OnButtonClick(outcome: Result<seq<Entry>, string>): (r: Envelope)
    ensures r.status == "success" <==> outcome.Success?
    ensures r.status == "error" <==> outcome.Failure?
    ensures r.data.Some? <==> outcome.Success?
    ensures outcome.Success? ==> r.data.value == outcome.value
    ensures r.message.None? <==> outcome.Success? && outcome.value != []
    ensures outcome.Success? && outcome.value == [] ==> r.message == Some(NoCoinsMessage)
    ensures outcome.Failure? ==> r.message == Some(outcome.error)
  {
    match outcome
    case Failure(e) => Envelope("error", Some(e), None)
    case Success(coins) =>
      if coins == [] then Envelope("success", Some(NoCoinsMessage), Some([]))
      else Envelope("success", None, Some(coins))
  }
}
