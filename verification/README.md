# Crypto filter app: the coin filter and the table logic

This project models the two pieces of logic in the crypto filter app.

**The coin filter** (`filter_coins.py`). It runs on the Python side when the user presses the run button:
- It lists the exchange's USDT perpetual markets.
- It fetches hourly candles for each market.
- It keeps, in market order, each symbol that passes every gate:
  - its correlation with BTC is not above 0.59 (a NaN coefficient passes);
  - its previous close lies 0.5%–2% from the 100-period EMA;
  - its candle colour matches its side of the EMA;
  - its volume is at least 50000;
  - its 3-day range moved more than 3% up or down.
- It wraps the list in a status/message/data reply.

**The table side** (`MainActivity.kt`):
- the run button's state machine, with its saved store;
- decoding a reply into rows;
- the header-click sort cycle and the stable column sort;
- the TradingView chart symbol of a row;
- the green/red summary line.

The modules are:
- `Wrappers`: Option and Result.
- `Strings`: substring search, removal, ASCII case.
- `Floats`: exact reals extended with ±∞ and NaN. numpy division by zero yields these instead of raising.
- `Selection`: order-preserving selection, and the lemma that returns the selected positions.
- `FilterCoins`: the Python module.
- `Table`: the pure Kotlin functions and `parseJsonResult`.
- `Screen`: the screen state as a class, one method per event.

Exchange replies enter as functions inside the `Exchange` value. `None` stands for a request that raised. The EMA column and the Pearson coefficient enter as functions inside `Numerics`. Clock readings enter as the `now` string of a click.

The filter takes a `Pairing` that chooses how its correlation gate pairs the two frames. `ByLabel` pairs rows by label, as filter_coins.py:130 does as written. `ByTime` pairs them newest with newest, as intended (see "Findings"). Every property of the filter below holds for both.

Two behaviours of the code are worth stating up front:
- The candle colour reads the second-to-last candle and is green only when close > open, so equal open and close is red.
- An empty result carries both `message` and `data: []`.

## Model

| member | source | states |
|---|---|---|
| FilterCoins.GetPerpetualUsdtPairs | app/src/main/python/filter_coins.py:15-24 | a failed market load gives []; otherwise at most one symbol per market |
| FilterCoins.PerpetualUsdtPairsExact | app/src/main/python/filter_coins.py:19-22 | the result is exactly the markets with truthy `swap` and quote USDT, each once, in market order (positions witnessed) |
| FilterCoins.FetchOhlcv | app/src/main/python/filter_coins.py:28-37 | a frame is returned only when the request succeeded with at least two rows; otherwise None |
| FilterCoins.GetCandleColor | app/src/main/python/filter_coins.py:39-45 | "gray" exactly for a missing frame or one under two rows; otherwise green iff the second-to-last close > its open, red iff close <= open |
| FilterCoins.CheckPriceNearEma | app/src/main/python/filter_coins.py:47-68 | below is known exactly when the frame is long enough and the previous EMA exists, and then is close < EMA; near holds iff, in addition, EMA != 0 and min <= abs(c - e)/abs(e)*100 <= max (exact reals, against the floating-point body) |
| FilterCoins.NearEmaCloseNonZero | app/src/main/python/filter_coins.py:58-66 | with a maximum threshold below 100%, a close that passes the EMA test is non-zero |
| FilterCoins.ThreeDayWindow | app/src/main/python/filter_coins.py:75 | `iloc[-73:-1]` holds 71 rows when n = 72 and 72 rows otherwise; it starts at max(0, n-73) and ends at row n-2, never the last candle |
| FilterCoins.MaxHigh | app/src/main/python/filter_coins.py:76 | an upper bound of the window's highs that one of them attains |
| FilterCoins.MinLow | app/src/main/python/filter_coins.py:77 | a lower bound of the window's lows that one of them attains |
| FilterCoins.WindowExtremes | app/src/main/python/filter_coins.py:75-77 | the max high and min low over rows max(0,n-73)..n-2 of the frame |
| FilterCoins.Percent | app/src/main/python/filter_coins.py:80-81 | x/base*100 exactly for a non-zero base; a zero base gives a non-finite value |
| FilterCoins.Calculate3DayHighLow | app/src/main/python/filter_coins.py:70-83 | None iff the frame is missing or under 72 rows; otherwise the window extremes and (high-c)/c*100, (c-low)/c*100 with c the second-to-last close, non-finite when c = 0 |
| FilterCoins.FetchFundingRate | app/src/main/python/filter_coins.py:85-91 | a missing `fundingRate` reads as 0.0; a present rate is returned as it is; a failed request or a null rate gives None |
| FilterCoins.LabelAlignedRows | app/src/main/python/filter_coins.py:102-105 | as written, the compared rows are exactly the labels both tails share: 2·min − max of them (or none), the pairs (max − min + k, max − min + k) |
| FilterCoins.CalculateCorrelationAsWritten | app/src/main/python/filter_coins.py:93-105 | None iff a frame is missing or the shorter has under two rows; NaN when the two tails share no label; otherwise the coefficient of the closes at the shared labels |
| FilterCoins.LabelAlignmentMisaligns | app/src/main/python/filter_coins.py:102-105 | as written, every compared pair is from the same hour iff the two frames have the same length |
| FilterCoins.ShortCoinFrameExample | app/src/main/python/filter_coins.py:98-105 | 100 coin rows against 150 BTC rows: 50 pairs as written, the last one hours apart; 100 time-aligned pairs intended |
| FilterCoins.CorrelationAgreesOnEqualLength | app/src/main/python/filter_coins.py:93-105 | on frames of one length the time-aligned and the label-aligned correlations are equal |
| FilterCoins.AlignedRows | app/src/main/python/filter_coins.py:98-103 | min(n1, n2) pairs, each from the same hour before the newest candle, in chronological order, ending with both newest rows |
| FilterCoins.CalculateCorrelation | app/src/main/python/filter_coins.py:93-105 | None iff a frame is missing or the shorter has under two rows; otherwise the coefficient of two equally long, time-aligned close columns ending at both newest closes |
| FilterCoins.Filtered | app/src/main/python/filter_coins.py:107-117 | [] when there are no markets or no BTC frame; never more entries than market symbols; for either pairing |
| FilterCoins.EvaluateSymbolAdmits | app/src/main/python/filter_coins.py:119-173 | for either pairing, a symbol yields an entry iff every gate holds (see Admitted): no "BTC/USDT" in it; ":USDT" removed; correlation not above 0.59; EMA band held; pema Below iff the close is below the EMA; candle red iff pema Below and green iff Above; volume >= 50000; finite 3-day percentages, one above 3; funding or 0.0 |
| FilterCoins.FilteredFollowsInput | app/src/main/python/filter_coins.py:107-178 | for either pairing, the output follows market order, one entry at most per symbol; each entry is its symbol's evaluation and passes every gate, and every symbol that passes every gate is emitted |
| FilterCoins.CheckSymbol | app/src/main/python/filter_coins.py:120-173 | for either pairing, the loop body's gates, each skipping the symbol where the code `continue`s, yield exactly the symbol's evaluation, which `EvaluateSymbolAdmits` ties to every gate |
| FilterCoins.FilterCoins | app/src/main/python/filter_coins.py:107-178 | for either pairing, the loop over the symbols, skipping those whose gates fail, returns exactly `Filtered`; `ByLabel` is the code as written |
| FilterCoins.OnButtonClick | app/src/main/python/filter_coins.py:180-188 | "success" iff the filter returned; data present iff success; message absent iff success with rows; an empty result carries the fixed message and data []; an exception gives "error" with its text |
| Strings.RemoveAll | app/src/main/python/filter_coins.py:165 | `replace(pat, "")` never lengthens the text |
| Strings.RemoveAllTrailing | app/src/main/python/filter_coins.py:165 | "X" + ":USDT" becomes "X" when X has no ':' |
| Strings.RemoveAllAbsent | app/src/main/python/filter_coins.py:165 | a symbol without ':' is emitted unchanged |
| Floats.Div | app/src/main/python/filter_coins.py:64 | exact quotient for a non-zero divisor; otherwise a signed infinity, or NaN for 0/0 |
| Table.NextSort | app/src/main/java/com/example/cryptofilterapp/MainActivity.kt:270-281 | another column (or none) starts ascending; the sorted column goes ascending to descending to unsorted; a NONE state restarts ascending |
| Table.ThreeClicks | app/src/main/java/com/example/cryptofilterapp/MainActivity.kt:270-281 | three clicks on one column unsort it, unless it was already ascending or descending, when they come back to it |
| Table.SortedCoinData | app/src/main/java/com/example/cryptofilterapp/MainActivity.kt:111-119 | no sort or NONE shows coinData unchanged; ascending and descending call applySort; always the same rows |
| Table.ColumnKeyUnparsable | app/src/main/java/com/example/cryptofilterapp/MainActivity.kt:332-334 | each of the four number columns sorts by its parsed cell, and by 0 when the cell does not parse |
| Table.StrLessTotal | app/src/main/java/com/example/cryptofilterapp/MainActivity.kt:330-331 | two different texts are ordered one way or the other |
| Table.StrLessTransitive | app/src/main/java/com/example/cryptofilterapp/MainActivity.kt:330-331 | text order is transitive |
| Table.SortByCorrect | app/src/main/java/com/example/cryptofilterapp/MainActivity.kt:330-335 | `sortedBy` orders non-decreasingly by the key, permutes the rows and keeps equal keys in input order |
| Table.ApplySort | app/src/main/java/com/example/cryptofilterapp/MainActivity.kt:328-338 | a permutation of the input; ascending is sorted by the column key and stable; an unknown column gives the input, reversed for descending |
| Table.ApplySortDescending | app/src/main/java/com/example/cryptofilterapp/MainActivity.kt:337 | descending is exactly the ascending result reversed, ordered non-increasingly |
| Table.TradingViewSymbol | app/src/main/java/com/example/cryptofilterapp/MainActivity.kt:299-307 | starts with "BITGET:", ends with ".P", holds no '/'; BTC/USDT in any case gives BITGET:BTCUSDT.P; otherwise the middle is the symbol without slashes |
| Table.TradingViewOfPair | app/src/main/java/com/example/cryptofilterapp/MainActivity.kt:306 | "X/USDT" opens "BITGET:XUSDT.P" |
| Table.GreenCountIsGreenRows | app/src/main/java/com/example/cryptofilterapp/MainActivity.kt:212 | the green count is the number of rows whose candle lower-cases to "green" |
| Table.Summary | app/src/main/java/com/example/cryptofilterapp/MainActivity.kt:211-213 | total is the row count, green is the number of rows whose candle lower-cases to "green", and red is the rest |
| Table.GreenCountPermutation | app/src/main/java/com/example/cryptofilterapp/MainActivity.kt:212 | the green count depends only on which rows there are, not their order |
| Table.SummaryOfDisplayed | app/src/main/java/com/example/cryptofilterapp/MainActivity.kt:210-213 | the summary of the sorted table equals that of coinData |
| Table.RowsOf | app/src/main/java/com/example/cryptofilterapp/MainActivity.kt:340-359 | no `data` array gives []; otherwise one row per element, in order, symbol and candle copied |
| Table.ParseJsonResult | app/src/main/java/com/example/cryptofilterapp/MainActivity.kt:340-359 | the index loop builds exactly `RowsOf` |
| Table.ReplyRows | app/src/main/java/com/example/cryptofilterapp/MainActivity.kt:342-358 | decoding the filter's success reply gives one row per coin, in the filter's order |
| Screen.FilterCoinScreen.constructor | app/src/main/java/com/example/cryptofilterapp/MainActivity.kt:90-109 | starts idle with no error and no sort; restores saved rows, and "Last run: t" when a time was saved too |
| Screen.FilterCoinScreen.Displayed | app/src/main/java/com/example/cryptofilterapp/MainActivity.kt:111-119 | the displayed rows are a permutation of coinData |
| Screen.FilterCoinScreen.Click | app/src/main/java/com/example/cryptofilterapp/MainActivity.kt:127-135 | ignored while loading; otherwise sets loading, clears the error, shows "Running at t" |
| Screen.FilterCoinScreen.ReceiveReply | app/src/main/java/com/example/cryptofilterapp/MainActivity.kt:150-173 | success with message only sets the error; success without one replaces rows, saves reply and time, shows "Last run: t"; error sets the message and resets the button |
| Screen.FilterCoinScreen.ReceiveException | app/src/main/java/com/example/cryptofilterapp/MainActivity.kt:174-178 | shows "Error: " + the exception text and resets the button |
| Screen.FilterCoinScreen.Complete | app/src/main/java/com/example/cryptofilterapp/MainActivity.kt:179-183 | isLoading is false after every run, nothing else changes |
| Screen.FilterCoinScreen.ClickHeader | app/src/main/java/com/example/cryptofilterapp/MainActivity.kt:270-281 | the sort becomes NextSort of the old one |
| Screen.FilterCoinScreen.Run | app/src/main/java/com/example/cryptofilterapp/MainActivity.kt:127-183 | a press while loading changes nothing; otherwise the run ends not loading, with, per outcome, the exact error text, button text, rows and saved store: a rows reply saves them, a message shows it, an error or exception shows its text and resets the button, another status leaves "Running at t" |

## Left out

- Exchange access through ccxt is not modelled: loading markets, fetching candles (timeframe "1h", limit 150) and fetching funding rates. Their answers are given as functions.
- The EMA computation of pandas_ta and the Pearson coefficient of pandas are given as functions. So is the `EMA` column written into the frame.
- Floating-point rounding is not modelled: `round(.., 2)`, `round(.., 6)`, Kotlin's 32-bit `toFloatOrNull` and `Double.toString`. Prices are exact reals, and the row text comes from a given formatter.
- NaN or infinite prices in a fetched frame are not modelled, nor do pandas `max`/`min` skip NaN.
- JSON text is not modelled. The reply, its decoding and the saved store use the reply's value, not its text.
- The UI is not modelled: Compose layout, colours and icons, Toasts, the Intent/Uri launch of TradingView, `SimpleDateFormat` (the time is a parameter) and Python start-up.
- Coroutine threading and cancellation in `onDestroy` are not modelled. A run is a sequence of events on one object.
- Case mapping is ASCII only. This covers `lowercase()` in the summary and `equals(ignoreCase = true)` in the TradingView mapping.
- CheckPriceNearEma: requires an EMA period of at least 2. With a smaller period and a frame under two rows the source raises an IndexError. Its only caller passes 100.
- GetPerpetualUsdtPairs: models `swap` as a boolean or missing, so other truthy values are not covered.
- Table.ParseJsonResult: does not model the 32-bit `getInt` of a very large volume, nor a reply element that lacks a key.
- Screen.FilterCoinScreen.ReceiveReply: a reply whose status is "error" and has no message shows "Error: No value for message". That text is the exception message of Android's JSON library.
- The per-symbol `except Exception: continue` is not modelled, because no modelled step of the loop raises.
- app/build.gradle.kts is not part of this model.

## Findings

| source | as written | input that shows it | evidently intended | confidence | as-written member | corrected member |
|---|---|---|---|---|---|---|
| app/src/main/python/filter_coins.py:102-105 | `Series.corr` pairs the two tails by row label. Each tail keeps its own frame's labels, so frames of different length compare closes from different hours, over fewer rows, or over no rows (NaN, which passes the `> 0.59` gate) | a coin frame of 100 rows against a BTC frame of 150 rows: labels 50..99 are paired, and the coin's newest closed hours meet BTC closes 50 hours older | pair the last min(len) closes of each frame by position, newest with newest | not executed; high (pandas aligns on the index before correlating) | FilterCoins.CalculateCorrelationAsWritten | FilterCoins.CalculateCorrelation |
