/** The table side of the app: the rows decoded from a filter reply, the
    header-click sort cycle, the stable column sort, the TradingView symbol
    of a row and the green/red summary line. */
module Table {
  import opened Wrappers
  import opened Strings
  import opened Floats
  import FilterCoins

  /** One table row; every cell is text, as decoded from the reply. */
  datatype CoinData = CoinData(symbol: string, candle: string, high3d: string, low3d: string,
                               volume: string, corrBtc: string)

  datatype SortState = Ascending | Descending | NotSorted

  datatype ColumnSort = ColumnSort(column: string, state: SortState)

  /** `toFloatOrNull` and `toIntOrNull`: the value of a text, or None. */
  datatype Parsers = Parsers(toFloat: string -> Option<real>, toInt: string -> Option<int>)

  /** `getDouble(..).toString()` and `getInt(..).toString()`. */
  datatype Formatter = Formatter(double: Float -> string, integer: int -> string)

  // ---------------------------------------------------------------- sort cycle

  /** The header-click handler: another column starts ascending; the sorted
      column goes ascending, then descending, then unsorted. */
  function NextSort(current: Option<ColumnSort>, column: string): (r: Option<ColumnSort>)
    ensures current.None? || current.value.column != column ==> r == Some(ColumnSort(column, Ascending))
    ensures current == Some(ColumnSort(column, Ascending)) ==> r == Some(ColumnSort(column, Descending))
    ensures current == Some(ColumnSort(column, Descending)) ==> r.None?
    ensures current == Some(ColumnSort(column, NotSorted)) ==> r == Some(ColumnSort(column, Ascending))
    ensures r.Some? ==> r.value.column == column && r.value.state != NotSorted
  {
    if current.Some? && current.value.column == column then
      match current.value.state
      case Ascending => Some(ColumnSort(column, Descending))
      case Descending => None
      case NotSorted => Some(ColumnSort(column, Ascending))
    else Some(ColumnSort(column, Ascending))
  }

  /** Three clicks on one column bring every sort back to unsorted, except
      when that column was mid-cycle, where they bring it back to itself. */
  lemma ThreeClicks(current: Option<ColumnSort>, column: string)
    ensures var after := NextSort(NextSort(NextSort(current, column), column), column);
      if current.Some? && current.value.column == column && current.value.state != NotSorted
      then after == current
      else after.None?
  {
  }

  // ---------------------------------------------------------------- keys

  /** A sort key: text compared as `String.compareTo`, or a number. */
  datatype SortKey = Text(s: string) | Number(v: real)

  /** Lexicographic order by character code; a proper prefix comes first. */
  predicate StrLess(a: string, b: string)
    decreases |a|
  {
    if a == [] then b != []
    else if b == [] then false
    else if a[0] != b[0] then a[0] < b[0]
    else StrLess(a[1..], b[1..])
  }

  lemma {:induction false} StrLessIrreflexive(a: string)
    ensures !StrLess(a, a)
    decreases |a|
  {
    if a != [] { StrLessIrreflexive(a[1..]); }
  }

  lemma {:induction false} StrLessTransitive(a: string, b: string, c: string)
    requires StrLess(a, b) && StrLess(b, c)
    ensures StrLess(a, c)
    decreases |a|
  {
    if a != [] && a[0] == b[0] && b[0] == c[0] {
      StrLessTransitive(a[1..], b[1..], c[1..]);
    }
  }

  lemma {:induction false} StrLessTotal(a: string, b: string)
    requires a != b
    ensures StrLess(a, b) || StrLess(b, a)
    decreases |a|
  {
    if a != [] && b != [] && a[0] == b[0] {
      assert a == [a[0]] + a[1..] && b == [b[0]] + b[1..];
      StrLessTotal(a[1..], b[1..]);
    }
  }

  predicate KeyLess(a: SortKey, b: SortKey) {
    match (a, b)
    case (Text(x), Text(y)) => StrLess(x, y)
    case (Number(x), Number(y)) => x < y
    case (Text(_), Number(_)) => true
    case (Number(_), Text(_)) => false
  }

  lemma KeyLessIrreflexive(a: SortKey)
    ensures !KeyLess(a, a)
  {
    if a.Text? { StrLessIrreflexive(a.s); }
  }

  lemma KeyLessTransitive(a: SortKey, b: SortKey, c: SortKey)
    requires KeyLess(a, b) && KeyLess(b, c)
    ensures KeyLess(a, c)
  {
    if a.Text? && b.Text? && c.Text? { StrLessTransitive(a.s, b.s, c.s); }
  }

  lemma KeyLessTotal(a: SortKey, b: SortKey)
    requires a != b
    ensures KeyLess(a, b) || KeyLess(b, a)
  {
    if a.Text? && b.Text? { StrLessTotal(a.s, b.s); }
  }

  /** a <= b <= c gives a <= c, where x <= y means !KeyLess(y, x). */
  lemma KeyAtMostTransitive(a: SortKey, b: SortKey, c: SortKey)
    requires !KeyLess(b, a) && !KeyLess(c, b)
    ensures !KeyLess(c, a)
  {
    if KeyLess(c, a) {
      if a == b {
      } else {
        KeyLessTotal(a, b);
        KeyLessTransitive(c, a, b);
      }
    }
  }

  /** The key of a column header, or None for a header `applySort` does not
      know; a number that does not parse sorts as 0. */
  function ColumnKey(column: string, p: Parsers): Option<CoinData -> SortKey> {
    if column == "Symbol" then Some((row: CoinData) => Text(row.symbol))
    else if column == "Candle" then Some((row: CoinData) => Text(row.candle))
    else if column == "3D High%" then Some((row: CoinData) => Number(p.toFloat(row.high3d).GetOr(0.0)))
    else if column == "3D Low%" then Some((row: CoinData) => Number(p.toFloat(row.low3d).GetOr(0.0)))
    else if column == "Volume" then Some((row: CoinData) => Number(p.toInt(row.volume).GetOr(0) as real))
    else if column == "BTC Corr" then Some((row: CoinData) => Number(p.toFloat(row.corrBtc).GetOr(0.0)))
    else None
  }

  /** Each number column sorts by its parsed cell, and by 0 when the cell
      does not parse. */
  lemma ColumnKeyUnparsable(p: Parsers, row: CoinData)
    ensures p.toFloat(row.high3d).None? ==> ColumnKey("3D High%", p).value(row) == Number(0.0)
    ensures p.toFloat(row.low3d).None? ==> ColumnKey("3D Low%", p).value(row) == Number(0.0)
    ensures p.toInt(row.volume).None? ==> ColumnKey("Volume", p).value(row) == Number(0.0)
    ensures p.toFloat(row.corrBtc).None? ==> ColumnKey("BTC Corr", p).value(row) == Number(0.0)
    ensures p.toFloat(row.high3d).Some? ==> ColumnKey("3D High%", p).value(row) == Number(p.toFloat(row.high3d).value)
    ensures p.toFloat(row.low3d).Some? ==> ColumnKey("3D Low%", p).value(row) == Number(p.toFloat(row.low3d).value)
    ensures p.toInt(row.volume).Some? ==> ColumnKey("Volume", p).value(row) == Number(p.toInt(row.volume).value as real)
    ensures p.toFloat(row.corrBtc).Some? ==> ColumnKey("BTC Corr", p).value(row) == Number(p.toFloat(row.corrBtc).value)
  {
  }

  // ---------------------------------------------------------------- stable sort

  ghost predicate SortedBy<T>(s: seq<T>, key: T -> SortKey) {
    forall i, j :: 0 <= i < j < |s| ==> !KeyLess(key(s[j]), key(s[i]))
  }

  ghost predicate SortedDescendingBy<T>(s: seq<T>, key: T -> SortKey) {
    forall i, j :: 0 <= i < j < |s| ==> !KeyLess(key(s[i]), key(s[j]))
  }

  /** The elements whose key is k, in order. */
  function WithKey<T>(s: seq<T>, key: T -> SortKey, k: SortKey): seq<T> {
    if s == [] then []
    else WithKey(s[..|s| - 1], key, k) + (if key(s[|s| - 1]) == k then [s[|s| - 1]] else [])
  }

  /** Stability: elements with equal keys keep their relative order. */
  ghost predicate KeepsTies<T>(r: seq<T>, s: seq<T>, key: T -> SortKey) {
    forall k :: WithKey(r, key, k) == WithKey(s, key, k)
  }

  /** Places x after every element whose key is not greater than its own. */
  function Insert<T>(s: seq<T>, x: T, key: T -> SortKey): seq<T> {
    if s == [] then [x]
    else if KeyLess(key(x), key(s[|s| - 1])) then Insert(s[..|s| - 1], x, key) + [s[|s| - 1]]
    else s + [x]
  }

  /** `sortedBy`: a stable insertion sort, left to right. */
  function SortBy<T>(s: seq<T>, key: T -> SortKey): seq<T> {
    if s == [] then [] else Insert(SortBy(s[..|s| - 1], key), s[|s| - 1], key)
  }

  lemma {:induction false} InsertPermutes<T>(s: seq<T>, x: T, key: T -> SortKey)
    ensures multiset(Insert(s, x, key)) == multiset(s) + multiset{x}
  {
    if s != [] && KeyLess(key(x), key(s[|s| - 1])) {
      InsertPermutes(s[..|s| - 1], x, key);
      assert s == s[..|s| - 1] + [s[|s| - 1]];
    }
  }

  lemma {:induction false} InsertSorted<T>(s: seq<T>, x: T, key: T -> SortKey)
    requires SortedBy(s, key)
    ensures SortedBy(Insert(s, x, key), key)
  {
    if s == [] {
    } else {
      var n := |s| - 1;
      var last := s[n];
      if KeyLess(key(x), key(last)) {
        var init := s[..n];
        InsertSorted(init, x, key);
        InsertPermutes(init, x, key);
        var ins := Insert(init, x, key);
        forall i | 0 <= i < |ins|
          ensures !KeyLess(key(last), key(ins[i]))
        {
          assert ins[i] in multiset(ins);
          if ins[i] == x {
            if KeyLess(key(last), key(x)) {
              KeyLessTransitive(key(x), key(last), key(x));
              KeyLessIrreflexive(key(x));
            }
          } else {
            assert ins[i] in multiset(init);
            var j :| 0 <= j < n && init[j] == ins[i];
            assert s[j] == init[j];
          }
        }
        var r := ins + [last];
        assert Insert(s, x, key) == r;
        forall i, j | 0 <= i < j < |r|
          ensures !KeyLess(key(r[j]), key(r[i]))
        {
          if j == |ins| {
            assert r[i] == ins[i];
          } else {
            assert r[i] == ins[i] && r[j] == ins[j];
          }
        }
      } else {
        var r := s + [x];
        forall i, j | 0 <= i < j < |r|
          ensures !KeyLess(key(r[j]), key(r[i]))
        {
          if j == n + 1 {
            if i < n {
              KeyAtMostTransitive(key(s[i]), key(last), key(x));
            }
          }
        }
      }
    }
  }

  lemma {:induction false} WithKeyAppendOne<T>(s: seq<T>, x: T, key: T -> SortKey, k: SortKey)
    ensures WithKey(s + [x], key, k) == WithKey(s, key, k) + (if key(x) == k then [x] else [])
  {
    assert (s + [x])[..|s|] == s;
  }

  lemma {:induction false} InsertKeepsTies<T>(s: seq<T>, x: T, key: T -> SortKey, k: SortKey)
    requires SortedBy(s, key)
    ensures WithKey(Insert(s, x, key), key, k) == WithKey(s, key, k) + (if key(x) == k then [x] else [])
  {
    if s == [] {
      WithKeyAppendOne([], x, key, k);
      assert [] + [x] == [x];
    } else {
      var n := |s| - 1;
      var init := s[..n];
      var last := s[n];
      assert s == init + [last];
      if KeyLess(key(x), key(last)) {
        assert SortedBy(init, key);
        InsertKeepsTies(init, x, key, k);
        WithKeyAppendOne(Insert(init, x, key), last, key, k);
        WithKeyAppendOne(init, last, key, k);
        if key(x) == k && key(last) == k {
          KeyLessIrreflexive(k);
        }
      } else {
        WithKeyAppendOne(s, x, key, k);
      }
    }
  }

  /** `sortedBy` sorts by the key, permutes its input and keeps ties in
      input order. */
  lemma {:induction false} SortByCorrect<T>(s: seq<T>, key: T -> SortKey)
    ensures SortedBy(SortBy(s, key), key)
    ensures multiset(SortBy(s, key)) == multiset(s)
    ensures KeepsTies(SortBy(s, key), s, key)
  {
    if s != [] {
      var n := |s| - 1;
      var init := s[..n];
      SortByCorrect(init, key);
      var sorted := SortBy(init, key);
      InsertSorted(sorted, s[n], key);
      InsertPermutes(sorted, s[n], key);
      assert s == init + [s[n]];
      forall k
        ensures WithKey(SortBy(s, key), key, k) == WithKey(s, key, k)
      {
        InsertKeepsTies(sorted, s[n], key, k);
        WithKeyAppendOne(init, s[n], key, k);
      }
    }
  }

  function Reverse<T>(s: seq<T>): (r: seq<T>)
    ensures |r| == |s|
    ensures forall i :: 0 <= i < |s| ==> r[i] == s[|s| - 1 - i]
  {
    if s == [] then [] else [s[|s| - 1]] + Reverse(s[..|s| - 1])
  }

  lemma {:induction false} ReversePermutes<T>(s: seq<T>)
    ensures multiset(Reverse(s)) == multiset(s)
  {
    if s != [] {
      ReversePermutes(s[..|s| - 1]);
      assert s == s[..|s| - 1] + [s[|s| - 1]];
    }
  }

  /** `applySort`: sort by the column's key, then reverse for descending; an
      unknown column is left in place (and reversed for descending). */
  function ApplySort(data: seq<CoinData>, column: string, ascending: bool, p: Parsers): (r: seq<CoinData>)
    ensures multiset(r) == multiset(data)
    ensures ColumnKey(column, p).None? ==> r == if ascending then data else Reverse(data)
    ensures ColumnKey(column, p).Some? && ascending ==>
      SortedBy(r, ColumnKey(column, p).value) && KeepsTies(r, data, ColumnKey(column, p).value)
  {
    var sorted := if ColumnKey(column, p).None? then data else SortBy(data, ColumnKey(column, p).value);
    assert multiset(sorted) == multiset(data) && multiset(Reverse(sorted)) == multiset(sorted) &&
      (ColumnKey(column, p).Some? ==>
         SortedBy(sorted, ColumnKey(column, p).value) && KeepsTies(sorted, data, ColumnKey(column, p).value)) by {
      ReversePermutes(sorted);
      if ColumnKey(column, p).Some? { SortByCorrect(data, ColumnKey(column, p).value); }
    }
    if ascending then sorted else Reverse(sorted)
  }

  /** Descending is the ascending result read backwards, so it is ordered
      non-increasingly and ties come out in reverse input order. */
  lemma ApplySortDescending(data: seq<CoinData>, column: string, p: Parsers)
    ensures ApplySort(data, column, false, p) == Reverse(ApplySort(data, column, true, p))
    ensures ColumnKey(column, p).Some? ==> SortedDescendingBy(ApplySort(data, column, false, p), ColumnKey(column, p).value)
  {
    var up := ApplySort(data, column, true, p);
    var down := ApplySort(data, column, false, p);
    if ColumnKey(column, p).Some? {
      var key := ColumnKey(column, p).value;
      forall i, j | 0 <= i < j < |down|
        ensures !KeyLess(key(down[i]), key(down[j]))
      {
        assert down[i] == up[|up| - 1 - i] && down[j] == up[|up| - 1 - j];
      }
    }
  }

  /** `sortedCoinData`: the rows as displayed under the current sort. */
  function SortedCoinData(coinData: seq<CoinData>, currentSort: Option<ColumnSort>, p: Parsers): (r: seq<CoinData>)
    ensures currentSort.None? || currentSort.value.state == NotSorted ==> r == coinData
    ensures currentSort.Some? && currentSort.value.state == Ascending ==>
      r == ApplySort(coinData, currentSort.value.column, true, p)
    ensures currentSort.Some? && currentSort.value.state == Descending ==>
      r == ApplySort(coinData, currentSort.value.column, false, p)
    ensures multiset(r) == multiset(coinData)
  {
    match currentSort
    case None => coinData
    case Some(sort) =>
      match sort.state
      case Ascending => ApplySort(coinData, sort.column, true, p)
      case Descending => ApplySort(coinData, sort.column, false, p)
      case NotSorted => coinData
  }

  // ---------------------------------------------------------------- TradingView

  const TradingViewPrefix := "BITGET:"
  const PerpetualSuffix := ".P"

  /** The chart symbol opened for a row: BTC/USDT in any case maps to the
      fixed BTC perpetual; any other symbol loses its slashes. */
  function TradingViewSymbol(symbol: string): (r: string)
    ensures IsPrefix(TradingViewPrefix, r)
    ensures |r| >= |TradingViewPrefix| + |PerpetualSuffix| && r[|r| - 2..] == PerpetualSuffix
    ensures '/' !in r
    ensures EqualsIgnoreCase(symbol, "BTC/USDT") ==> r == "BITGET:BTCUSDT.P"
    ensures !EqualsIgnoreCase(symbol, "BTC/USDT") ==>
      r[|TradingViewPrefix|..|r| - 2] == RemoveChar(symbol, '/')
  {
    if EqualsIgnoreCase(symbol, "BTC/USDT") then "BITGET:BTCUSDT.P"
    else
      var r := TradingViewPrefix + RemoveChar(symbol, '/') + PerpetualSuffix;
      assert r[|TradingViewPrefix|..|r| - 2] == RemoveChar(symbol, '/');
      r
  }

  /** A filter symbol "X/USDT" whose base X has no slash opens "BITGET:XUSDT.P". */
  lemma TradingViewOfPair(base: string)
    requires '/' !in base && !EqualsIgnoreCase(base + "/USDT", "BTC/USDT")
    ensures TradingViewSymbol(base + "/USDT") == TradingViewPrefix + base + "USDT" + PerpetualSuffix
  {
    RemoveCharAppend(base, "/USDT", '/');
    RemoveCharKeepsOthers(base, '/');
    assert RemoveChar("/USDT", '/') == "USDT" by {
      assert "/USDT"[1..] == "USDT";
      RemoveCharKeepsOthers("USDT", '/');
    }
  }

  lemma {:induction false} RemoveCharAppend(a: string, b: string, c: char)
    ensures RemoveChar(a + b, c) == RemoveChar(a, c) + RemoveChar(b, c)
  {
    if a != [] {
      assert (a + b)[1..] == a[1..] + b;
      RemoveCharAppend(a[1..], b, c);
    } else {
      assert a + b == b;
    }
  }

  // ---------------------------------------------------------------- summary

  predicate IsGreen(row: CoinData) {
    Lowercase(row.candle) == "green"
  }

  function GreenCount(rows: seq<CoinData>): (n: nat)
    ensures n <= |rows|
  {
    if rows == [] then 0
    else GreenCount(rows[..|rows| - 1]) + (if IsGreen(rows[|rows| - 1]) then 1 else 0)
  }

  /** The positions of the elements that satisfy p. */
  ghost function Where<T>(s: seq<T>, p: T -> bool): set<nat> {
    set i: nat | i < |s| && p(s[i])
  }

  /** Appending one element adds its position exactly when it satisfies p. */
  lemma WhereSnoc<T>(s: seq<T>, p: T -> bool)
    requires |s| > 0
    ensures |Where(s, p)| == |Where(s[..|s| - 1], p)| + (if p(s[|s| - 1]) then 1 else 0)
  {
    var n := |s| - 1;
    var init := s[..n];
    var last: set<nat> := if p(s[n]) then {n} else {};
    forall i: nat
      ensures i in Where(s, p) <==> i in Where(init, p) + last
    {
      if i < n {
        assert init[i] == s[i];
      }
    }
    assert Where(s, p) == Where(init, p) + last;
    assert n !in Where(init, p);
  }

  /** The positions of the rows whose candle reads "green" in any case. */
  ghost function GreenRows(rows: seq<CoinData>): set<nat> {
    Where(rows, IsGreen)
  }

  /** The count is the number of green rows. */
  lemma {:induction false} GreenCountIsGreenRows(rows: seq<CoinData>)
    ensures GreenCount(rows) == |GreenRows(rows)|
    decreases |rows|
  {
    if rows != [] {
      GreenCountIsGreenRows(rows[..|rows| - 1]);
      WhereSnoc(rows, IsGreen);
    }
  }

  /** The summary line: (total, red, green). */
  function Summary(rows: seq<CoinData>): (r: (nat, nat, nat))
    ensures r.0 == |rows| && r.1 + r.2 == r.0
    ensures r.2 == |GreenRows(rows)|
  {
    var green := GreenCount(rows);
    assert green == |GreenRows(rows)| by { GreenCountIsGreenRows(rows); }
    (|rows|, |rows| - green, green)
  }

  lemma {:induction false} GreenCountAppend(a: seq<CoinData>, b: seq<CoinData>)
    ensures GreenCount(a + b) == GreenCount(a) + GreenCount(b)
    decreases |b|
  {
    if b == [] {
      assert a + b == a;
    } else {
      var n := |b| - 1;
      assert (a + b)[..|a + b| - 1] == a + b[..n];
      GreenCountAppend(a, b[..n]);
    }
  }

  /** The counts depend only on which rows there are, so they agree with
      the table under every sort. */
  lemma {:induction false} GreenCountPermutation(a: seq<CoinData>, b: seq<CoinData>)
    requires multiset(a) == multiset(b)
    ensures GreenCount(a) == GreenCount(b)
    decreases |a|
  {
    if a == [] {
      assert |multiset(b)| == 0;
    } else {
      var n := |a| - 1;
      var x := a[n];
      assert a == a[..n] + [x];
      assert x in multiset(b);
      var i :| 0 <= i < |b| && b[i] == x;
      var rest := b[..i] + b[i + 1..];
      assert b == b[..i] + [x] + b[i + 1..];
      assert multiset(rest) == multiset(b) - multiset{x};
      assert multiset(a[..n]) == multiset(a) - multiset{x};
      GreenCountPermutation(a[..n], rest);
      GreenCountAppend(b[..i] + [x], b[i + 1..]);
      GreenCountAppend(b[..i], [x]);
      GreenCountAppend(b[..i], b[i + 1..]);
      GreenCountAppend(a[..n], [x]);
      assert GreenCount([x]) == (if IsGreen(x) then 1 else 0) by {
        assert [x][..0] == [];
      }
    }
  }

  lemma SummaryOfDisplayed(coinData: seq<CoinData>, currentSort: Option<ColumnSort>, p: Parsers)
    ensures Summary(SortedCoinData(coinData, currentSort, p)) == Summary(coinData)
  {
    var shown := SortedCoinData(coinData, currentSort, p);
    GreenCountPermutation(shown, coinData);
    assert |shown| == |multiset(shown)| == |multiset(coinData)| == |coinData|;
  }

  // ---------------------------------------------------------------- decoding

  function CoinRow(e: FilterCoins.Entry, fmt: Formatter): CoinData {
    CoinData(e.symbol, e.candle, fmt.double(e.high3d), fmt.double(e.low3d),
             fmt.integer(e.volume), fmt.double(e.corrBtc))
  }

  /** The rows of a reply: none without a `data` array, otherwise one per
      element, in array order, symbol and candle copied as they are. */
  function RowsOf(doc: FilterCoins.Envelope, fmt: Formatter): (r: seq<CoinData>)
    ensures doc.data.None? ==> r == []
    ensures doc.data.Some? ==> |r| == |doc.data.value|
    ensures doc.data.Some? ==> forall i :: 0 <= i < |r| ==>
      r[i].symbol == doc.data.value[i].symbol && r[i].candle == doc.data.value[i].candle
  {
    match doc.data
    case None => []
    case Some(items) => seq(|items|, i requires 0 <= i < |items| => CoinRow(items[i], fmt))
  }

  /** `parseJsonResult`: the index loop that fills the row list. */
  method ParseJsonResult(doc: FilterCoins.Envelope, fmt: Formatter) returns (coins: seq<CoinData>)
    ensures coins == RowsOf(doc, fmt)
  {
    if doc.data.None? {
      return [];
    }
    var dataArray := doc.data.value;
    coins := [];
    for i := 0 to |dataArray|
      invariant |coins| == i
      invariant forall j :: 0 <= j < i ==> coins[j] == CoinRow(dataArray[j], fmt)
    {
      var item := dataArray[i];
      coins := coins + [CoinData(item.symbol, item.candle, fmt.double(item.high3d), fmt.double(item.low3d),
                                 fmt.integer(item.volume), fmt.double(item.corrBtc))];
    }
  }

  /** A reply built from a non-empty filter result decodes to one row per
      coin, in the filter's order; an empty result decodes to no rows. */
  lemma ReplyRows(coins: seq<FilterCoins.Entry>, fmt: Formatter)
    ensures var rows := RowsOf(FilterCoins.OnButtonClick(Success(coins)), fmt);
      && |rows| == |coins|
      && forall i :: 0 <= i < |coins| ==> rows[i] == CoinRow(coins[i], fmt)
  {
  }
}
