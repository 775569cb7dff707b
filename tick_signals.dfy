/** The rise/fall and over/under signal page (public/signals/signals.js):
    a per-symbol buffer of the latest quotes, fed by history and tick
    messages, and the per-symbol table row computed from it.

    A quote is held as the decimal text it prints as (`tick.toString()`);
    its numeric value is read back from that text with `NumericValue`. */
module TickSignals {
  import opened JsSemantics

  /** The most ticks a buffer keeps after a tick message (and the history
      length the page subscribes with). */
  const Capacity: nat := 255

  /** The symbols `ticksStorage` starts with, in declaration order. */
  const InitialSymbols: seq<string> :=
    ["R_10", "R_25", "R_50", "R_75", "R_100", "1HZ10V", "1HZ25V", "1HZ50V", "1HZ75V", "1HZ100V"]

  // ---------------------------------------------------------------------
  // The tick buffer
  // ---------------------------------------------------------------------

  /** A buffer after `push(quote)` followed, when it then holds more than
      `Capacity` quotes, by one `shift()`: the quote is last, the oldest entry
      goes only on overflow, and a bounded buffer stays bounded. */
  function Pushed<T>(buffer: seq<T>, quote: T): (r: seq<T>)
    ensures |r| == if |buffer| + 1 > Capacity then |buffer| else |buffer| + 1
    ensures |r| <= |buffer| + 1 && r == (buffer + [quote])[|buffer| + 1 - |r|..]
    ensures |buffer| <= Capacity ==> |r| <= Capacity
  {
    var pushed := buffer + [quote];
    if |pushed| > Capacity then pushed[1..] else pushed
  }

  /** The buffer after a run of tick messages for its symbol. */
  function PushedAll<T>(buffer: seq<T>, quotes: seq<T>): seq<T>
    decreases |quotes|
  {
    if quotes == [] then buffer else PushedAll(Pushed(buffer, quotes[0]), quotes[1..])
  }

  /** The buffer after one more tick, followed by the ticks still to
      come, is everything seen so far with at most the oldest entry gone. */
  lemma PushedThenRest<T>(buffer: seq<T>, q: T, rest: seq<T>)
    requires |buffer| <= Capacity
    ensures |buffer| < Capacity ==> Pushed(buffer, q) + rest == buffer + [q] + rest
    ensures |buffer| == Capacity ==> Pushed(buffer, q) + rest == (buffer + [q] + rest)[1..]
  {
    if |buffer| == Capacity {
      assert (buffer + [q])[1..] + rest == (buffer + [q] + rest)[1..];
    }
  }

  /** A bounded buffer fed any run of ticks holds exactly the newest
      `Capacity` quotes of everything it has seen, in arrival order. */
  lemma {:induction false} PushedAllKeepsNewest<T>(buffer: seq<T>, quotes: seq<T>)
    requires |buffer| <= Capacity
    ensures PushedAll(buffer, quotes) == (buffer + quotes)[Max(0, |buffer| + |quotes| - Capacity)..]
    decreases |quotes|
  {
    var all := buffer + quotes;
    if quotes == [] {
      assert all == buffer;
    } else {
      var q, rest := quotes[0], quotes[1..];
      assert buffer + [q] + rest == all by {
        assert quotes == [q] + rest;
      }
      PushedThenRest(buffer, q, rest);
      PushedAllKeepsNewest(Pushed(buffer, q), rest);
      if |buffer| == Capacity {
        assert all[1..][|rest|..] == all[|quotes|..];
      }
    }
  }

  /** Feeding `Capacity + 1` ticks to an empty buffer evicts the first. */
  lemma OldestEvicted<T>(quotes: seq<T>)
    requires |quotes| == Capacity + 1
    ensures PushedAll([], quotes) == quotes[1..]
  {
    PushedAllKeepsNewest([], quotes);
    assert [] + quotes == quotes;
  }

  /** A parsed WebSocket message, as far as `onmessage` distinguishes it. */
  datatype Message =
    | HistoryMessage(symbol: string, prices: seq<string>)
    | TickMessage(symbol: string, quote: string)
    | OtherMessage

  /** `ticksStorage`: the symbol-to-buffer map that the message handler
      updates in place. */
  class TicksStorage {
    var buffers: map<string, seq<string>>

    /** Every buffer holds at most `Capacity` quotes. */
    predicate Bounded()
      reads this
    {
      forall s :: s in buffers ==> |buffers[s]| <= Capacity
    }

    /** The ten subscribed symbols, each with an empty buffer. */
    constructor ()
      ensures forall s :: s in buffers <==> s in InitialSymbols
      ensures forall s :: s in buffers ==> buffers[s] == []
      ensures Bounded()
    {
      buffers := map s | s in InitialSymbols :: [];
    }

    /** A history message replaces the symbol's buffer wholesale with the
        received prices, in order, adding the symbol if it was not there. */
    method OnHistory(symbol: string, prices: seq<string>)
      modifies this
      ensures buffers == old(buffers)[symbol := prices]
      ensures old(Bounded()) && |prices| <= Capacity ==> Bounded()
    {
      buffers := buffers[symbol := prices];
    }

    /** A tick message appends its quote to the symbol's buffer and drops
        the oldest quote when the buffer then exceeds `Capacity`. For a
        symbol without a buffer the handler throws (`undefined.push`) and
        nothing changes; `handled` tells the two apart. Other symbols'
        buffers never change. */
    method OnTick(symbol: string, quote: string) returns (handled: bool)
      modifies this
      ensures handled == (symbol in old(buffers))
      ensures handled ==> buffers == old(buffers)[symbol := Pushed(old(buffers)[symbol], quote)]
      ensures !handled ==> buffers == old(buffers)
      ensures old(Bounded()) ==> Bounded()
    {
      if symbol !in buffers {
        return false;
      }
      buffers := buffers[symbol := buffers[symbol] + [quote]];
      if |buffers[symbol]| > Capacity {
        buffers := buffers[symbol := buffers[symbol][1..]];
      }
      handled := true;
    }

    /** `ws.onmessage`: dispatch on the kind of message; any other message
        is ignored. `handled` is false only when a tick for an unknown
        symbol throws. */
    method OnMessage(msg: Message) returns (handled: bool)
      modifies this
      ensures msg.HistoryMessage? ==> handled && buffers == old(buffers)[msg.symbol := msg.prices]
      ensures msg.TickMessage? ==> handled == (msg.symbol in old(buffers))
      ensures msg.TickMessage? && handled ==>
        buffers == old(buffers)[msg.symbol := Pushed(old(buffers)[msg.symbol], msg.quote)]
      ensures msg.TickMessage? && !handled ==> buffers == old(buffers)
      ensures msg.OtherMessage? ==> handled && buffers == old(buffers)
    {
      match msg
      case HistoryMessage(symbol, prices) =>
        OnHistory(symbol, prices);
        handled := true;
      case TickMessage(symbol, quote) =>
        handled := OnTick(symbol, quote);
      case OtherMessage =>
        handled := true;
    }

    /** `calculateTrendPercentage(symbol, ticksCount)`: the trend of the
        symbol's last `ticksCount` quotes. */
    method CalculateTrendPercentage(symbol: string, ticksCount: int) returns (t: Trend)
      requires symbol in buffers
      ensures t == TrendOf(SliceLast(buffers[symbol], ticksCount))
    {
      var ticks := SliceLast(buffers[symbol], ticksCount);
      if |ticks| < 2 {
        return Trend(0.0, 0.0);
      }
      var riseCount, fallCount := 0, 0;
      var i := 1;
      while i < |ticks|
        invariant 1 <= i <= |ticks|
        invariant riseCount == Rises(ticks[..i]) && fallCount == Falls(ticks[..i])
      {
        assert ticks[..i + 1][..i] == ticks[..i];
        if IsRise(ticks[i - 1], ticks[i]) {
          riseCount := riseCount + 1;
        } else if IsFall(ticks[i - 1], ticks[i]) {
          fallCount := fallCount + 1;
        }
        i := i + 1;
      }
      assert ticks[..|ticks|] == ticks;
      var total := riseCount + fallCount;
      t := Trend(if total > 0 then Percent(riseCount, total) else 0.0,
                 if total > 0 then Percent(fallCount, total) else 0.0);
    }

    /** `updateTables`: one row per symbol, visited in `order` (the key
        order of `ticksStorage`), skipping symbols with fewer than
        `Capacity` quotes. */
    method UpdateTables(order: seq<string>) returns (rows: seq<Row>)
      requires forall i :: 0 <= i < |order| ==> order[i] in buffers
      ensures rows == RowsOf(order, buffers)
    {
      rows := [];
      var i := 0;
      while i < |order|
        invariant 0 <= i <= |order|
        invariant rows == RowsOf(order[..i], buffers)
      {
        assert order[..i + 1][..i] == order[..i];
        var symbol := order[i];
        var ticks := buffers[symbol];
        if |ticks| >= Capacity {
          var long := CalculateTrendPercentage(symbol, 255);
          var short := CalculateTrendPercentage(symbol, 55);
          var counts := CountLastDigits(ticks);
          rows := rows + [Row(DisplayName(symbol) + " index", IsBuy(long, short), IsSell(long, short),
                              OverTwo(counts, |ticks|), UnderSeven(counts, |ticks|))];
        }
        i := i + 1;
      }
      assert order[..|order|] == order;
    }
  }

  // ---------------------------------------------------------------------
  // Rise/fall trend
  // ---------------------------------------------------------------------

  /** `next > prev` on the parsed quotes; a comparison with NaN is false. */
  predicate IsRise(prev: string, next: string)
  {
    NumericValue(prev).Some? && NumericValue(next).Some? && NumericValue(next).value > NumericValue(prev).value
  }

  /** `next < prev` on the parsed quotes; a comparison with NaN is false. */
  predicate IsFall(prev: string, next: string)
  {
    NumericValue(prev).Some? && NumericValue(next).Some? && NumericValue(next).value < NumericValue(prev).value
  }

  /** The number of consecutive pairs that rise. */
  function Rises(ticks: seq<string>): nat
  {
    if |ticks| < 2 then 0
    else Rises(ticks[..|ticks| - 1]) + (if IsRise(ticks[|ticks| - 2], ticks[|ticks| - 1]) then 1 else 0)
  }

  /** The number of consecutive pairs that fall. */
  function Falls(ticks: seq<string>): nat
  {
    if |ticks| < 2 then 0
    else Falls(ticks[..|ticks| - 1]) + (if IsFall(ticks[|ticks| - 2], ticks[|ticks| - 1]) then 1 else 0)
  }

  datatype Trend = Trend(risePercentage: real, fallPercentage: real)

  /** The result of `calculateTrendPercentage` on an already sliced window:
      each direction's share of the directional pairs, or 0 and 0 when
      there are fewer than two quotes or no directional pair. */
  function TrendOf(ticks: seq<string>): Trend
  {
    if |ticks| < 2 then Trend(0.0, 0.0)
    else
      var total := Rises(ticks) + Falls(ticks);
      Trend(if total > 0 then Percent(Rises(ticks), total) else 0.0,
            if total > 0 then Percent(Falls(ticks), total) else 0.0)
  }

  /** A pair counts as a rise, a fall or neither, so the directional pairs
      are at most the `|ticks| - 1` consecutive pairs. */
  lemma {:induction false} DirectionalPairsBound(ticks: seq<string>)
    ensures Rises(ticks) + Falls(ticks) <= Max(0, |ticks| - 1)
  {
    if |ticks| >= 2 {
      DirectionalPairsBound(ticks[..|ticks| - 1]);
    }
  }

  /** With at least one directional pair the two percentages are
      complementary; otherwise both are 0. Each lies in [0, 100]. */
  lemma TrendComplementary(ticks: seq<string>)
    ensures var t := TrendOf(ticks);
      0.0 <= t.risePercentage <= 100.0 && 0.0 <= t.fallPercentage <= 100.0 &&
      (if |ticks| >= 2 && Rises(ticks) + Falls(ticks) > 0
       then t.risePercentage + t.fallPercentage == 100.0
       else t.risePercentage == 0.0 && t.fallPercentage == 0.0)
  {
    if |ticks| >= 2 && Rises(ticks) + Falls(ticks) > 0 {
      var r, f := Rises(ticks), Falls(ticks);
      PercentsComplement(r, f);
      PercentBounds(r, r + f);
      PercentBounds(f, r + f);
    }
  }

  /** Quotes that strictly increase throughout trend 100% rise. */
  lemma {:induction false} RisingTrend(ticks: seq<string>)
    requires |ticks| >= 2
    requires forall i :: 1 <= i < |ticks| ==> IsRise(ticks[i - 1], ticks[i])
    ensures TrendOf(ticks) == Trend(100.0, 0.0)
  {
    AllRise(ticks);
    PercentOfWhole(|ticks| - 1);
  }

  lemma {:induction false} AllRise(ticks: seq<string>)
    requires forall i :: 1 <= i < |ticks| ==> IsRise(ticks[i - 1], ticks[i])
    ensures Rises(ticks) == Max(0, |ticks| - 1) && Falls(ticks) == 0
  {
    if |ticks| >= 2 {
      var init := ticks[..|ticks| - 1];
      assert forall i :: 0 <= i < |init| ==> init[i] == ticks[i];
      AllRise(init);
    }
  }

  /** Quotes that strictly decrease throughout trend 100% fall. */
  lemma {:induction false} FallingTrend(ticks: seq<string>)
    requires |ticks| >= 2
    requires forall i :: 1 <= i < |ticks| ==> IsFall(ticks[i - 1], ticks[i])
    ensures TrendOf(ticks) == Trend(0.0, 100.0)
  {
    AllFall(ticks);
    PercentOfWhole(|ticks| - 1);
  }

  lemma {:induction false} AllFall(ticks: seq<string>)
    requires forall i :: 1 <= i < |ticks| ==> IsFall(ticks[i - 1], ticks[i])
    ensures Falls(ticks) == Max(0, |ticks| - 1) && Rises(ticks) == 0
  {
    if |ticks| >= 2 {
      var init := ticks[..|ticks| - 1];
      assert forall i :: 0 <= i < |init| ==> init[i] == ticks[i];
      AllFall(init);
    }
  }

  /** Quotes that never change value (or never parse) have no trend. */
  lemma {:induction false} FlatTrend(ticks: seq<string>)
    requires forall i :: 1 <= i < |ticks| ==> NumericValue(ticks[i]) == NumericValue(ticks[i - 1])
    ensures TrendOf(ticks) == Trend(0.0, 0.0)
  {
    NoDirection(ticks);
  }

  lemma {:induction false} NoDirection(ticks: seq<string>)
    requires forall i :: 1 <= i < |ticks| ==> NumericValue(ticks[i]) == NumericValue(ticks[i - 1])
    ensures Rises(ticks) == 0 && Falls(ticks) == 0
  {
    if |ticks| >= 2 {
      var init := ticks[..|ticks| - 1];
      assert forall i :: 0 <= i < |init| ==> init[i] == ticks[i];
      NoDirection(init);
    }
  }

  // ---------------------------------------------------------------------
  // Last-digit histogram and the table row
  // ---------------------------------------------------------------------

  /** `digitCounts` after the `forEach` over the buffer: a quote whose
      last character is a digit d adds one to entry d; for any other quote
      `digitCounts[NaN]++` touches no entry. */
  function HistogramOf(ticks: seq<string>): (h: seq<nat>)
    ensures |h| == 10
  {
    if ticks == [] then seq(10, _ => 0)
    else
      var h := HistogramOf(ticks[..|ticks| - 1]);
      match LastDigit(ticks[|ticks| - 1])
      case Some(d) => h[d := h[d] + 1]
      case None => h
  }

  /** The digit-count loop of `updateTables`. */
  method CountLastDigits(ticks: seq<string>) returns (counts: seq<nat>)
    ensures counts == HistogramOf(ticks)
  {
    var a := new nat[10](_ => 0);
    var i := 0;
    while i < |ticks|
      invariant 0 <= i <= |ticks|
      invariant a[..] == HistogramOf(ticks[..i])
    {
      assert ticks[..i + 1][..i] == ticks[..i];
      match LastDigit(ticks[i]) {
        case Some(d) => a[d] := a[d] + 1;
        case None =>
      }
      i := i + 1;
    }
    assert ticks[..|ticks|] == ticks;
    counts := a[..];
  }

  /** Entry d of the histogram is the number of quotes whose last digit is
      d, and the entries sum to the number of quotes ending in a digit. */
  lemma {:induction false} HistogramCounts(ticks: seq<string>)
    ensures forall d :: 0 <= d < 10 ==> HistogramOf(ticks)[d] == multiset(LastDigits(ticks))[Some(d)]
    ensures Sum(HistogramOf(ticks)) + multiset(LastDigits(ticks))[None] == |ticks|
  {
    if ticks != [] {
      var init := ticks[..|ticks| - 1];
      HistogramCounts(init);
      assert LastDigits(ticks) == LastDigits(init) + [LastDigit(ticks[|ticks| - 1])];
      assert multiset(LastDigits(ticks)) == multiset(LastDigits(init)) + multiset{LastDigit(ticks[|ticks| - 1])};
      var m, m0 := multiset(LastDigits(ticks)), multiset(LastDigits(init));
      match LastDigit(ticks[|ticks| - 1])
      case Some(d) =>
        assert HistogramOf(ticks) == HistogramOf(init)[d := HistogramOf(init)[d] + 1];
        SumIncrement(HistogramOf(init), d);
        assert m[None] == m0[None];
      case None =>
        assert HistogramOf(ticks) == HistogramOf(init);
        assert m[None] == m0[None] + 1;
    } else {
      SumZeros(HistogramOf(ticks));
    }
  }

  /** When every quote ends in a digit, the ten counts sum to the buffer
      length. */
  lemma HistogramSumsToLength(ticks: seq<string>)
    requires forall i :: 0 <= i < |ticks| ==> LastDigit(ticks[i]).Some?
    ensures Sum(HistogramOf(ticks)) == |ticks|
  {
    HistogramCounts(ticks);
    assert None !in multiset(LastDigits(ticks));
  }

  /** The "Over 2" cell: digits 7, 8 and 9 each have a share below 10%. */
  function OverTwo(counts: seq<nat>, total: nat): (over: bool)
    requires |counts| == 10 && total > 0
    ensures over <==> 10 * counts[7] < total && 10 * counts[8] < total && 10 * counts[9] < total
  {
    PercentBelowTen(counts[7], total);
    PercentBelowTen(counts[8], total);
    PercentBelowTen(counts[9], total);
    Percent(counts[7], total) < 10.0 && Percent(counts[8], total) < 10.0 && Percent(counts[9], total) < 10.0
  }

  /** The "Under 7" cell: digits 0, 1 and 2 each have a share below 10%. */
  function UnderSeven(counts: seq<nat>, total: nat): (under: bool)
    requires |counts| == 10 && total > 0
    ensures under <==> 10 * counts[0] < total && 10 * counts[1] < total && 10 * counts[2] < total
  {
    PercentBelowTen(counts[0], total);
    PercentBelowTen(counts[1], total);
    PercentBelowTen(counts[2], total);
    Percent(counts[0], total) < 10.0 && Percent(counts[1], total) < 10.0 && Percent(counts[2], total) < 10.0
  }

  /** The buy flag: rise above 57% over 255 ticks and above 55% over 55. */
  predicate IsBuy(long: Trend, short: Trend)
  {
    long.risePercentage > 57.0 && short.risePercentage > 55.0
  }

  /** The sell flag: fall above 57% over 255 ticks and above 55% over 55. */
  predicate IsSell(long: Trend, short: Trend)
  {
    long.fallPercentage > 57.0 && short.fallPercentage > 55.0
  }

  /** Buy and sell are never both raised for one window: both would need
      more than 57% rise and more than 57% fall over the same 255 ticks. */
  lemma {:induction false} NeverBuyAndSell(ticks: seq<string>)
    ensures !(IsBuy(TrendOf(SliceLast(ticks, 255)), TrendOf(SliceLast(ticks, 55))) &&
              IsSell(TrendOf(SliceLast(ticks, 255)), TrendOf(SliceLast(ticks, 55))))
  {
    TrendComplementary(SliceLast(ticks, 255));
  }

  /** `displayName`: `1HZ<n>V` reads "Volatility <n> (1s) Index", anything
      else has its first "R_" removed and reads "Volatility <n> Index". */
  function DisplayName(symbol: string): string
  {
    if StartsWith(symbol, "1HZ")
    then "Volatility " + ReplaceFirst(ReplaceFirst(symbol, "1HZ", ""), "V", "") + " (1s) Index"
    else "Volatility " + ReplaceFirst(symbol, "R_", "") + " Index"
  }

  lemma DisplayNameOneSecond(n: string)
    requires 'V' !in n
    ensures DisplayName("1HZ" + n + "V") == "Volatility " + n + " (1s) Index"
  {
    var symbol := "1HZ" + n + "V";
    assert StartsWith(symbol, "1HZ") by {
      assert symbol[..3] == "1HZ";
    }
    assert symbol == "1HZ" + (n + "V");
    ReplaceFirstAtFront("1HZ", n + "V", "");
    assert ReplaceFirst(symbol, "1HZ", "") == n + "V";
    ReplaceFirstAfter(n, "V", "", "");
    assert n + "V" + "" == n + "V";
    assert n + "" == n;
    assert ReplaceFirst(n + "V", "V", "") == n;
  }

  lemma DisplayNameStandard(n: string)
    ensures DisplayName("R_" + n) == "Volatility " + n + " Index"
  {
    var symbol := "R_" + n;
    assert !StartsWith(symbol, "1HZ") by {
      assert |symbol| >= 3 ==> symbol[..3][0] == 'R';
    }
    ReplaceFirstAtFront("R_", n, "");
    assert "" + n == n;
  }

  /** One rendered row of the two tables for a symbol. */
  datatype Row = Row(caption: string, isBuy: bool, isSell: bool, over: bool, under: bool)

  /** The per-symbol body of `updateTables`: no row for a buffer of fewer
      than 255 quotes; otherwise the trend flags over the last 255 and 55
      quotes, labelled with the display name, and the over/under flags over
      the whole buffer. */
  function SymbolRow(symbol: string, ticks: seq<string>): (r: Option<Row>)
    ensures r.Some? <==> |ticks| >= Capacity
    ensures r.Some? ==> r.value.caption == DisplayName(symbol) + " index"
    ensures r.Some? ==> (r.value.isBuy <==>
      TrendOf(SliceLast(ticks, 255)).risePercentage > 57.0 &&
      TrendOf(SliceLast(ticks, 55)).risePercentage > 55.0)
    ensures r.Some? ==> (r.value.isSell <==>
      TrendOf(SliceLast(ticks, 255)).fallPercentage > 57.0 &&
      TrendOf(SliceLast(ticks, 55)).fallPercentage > 55.0)
    ensures r.Some? ==> !(r.value.isBuy && r.value.isSell)
    ensures r.Some? ==> (r.value.over <==>
      10 * HistogramOf(ticks)[7] < |ticks| && 10 * HistogramOf(ticks)[8] < |ticks| &&
      10 * HistogramOf(ticks)[9] < |ticks|)
    ensures r.Some? ==> (r.value.under <==>
      10 * HistogramOf(ticks)[0] < |ticks| && 10 * HistogramOf(ticks)[1] < |ticks| &&
      10 * HistogramOf(ticks)[2] < |ticks|)
  {
    if |ticks| < Capacity then None
    else
      var long := TrendOf(SliceLast(ticks, 255));
      var short := TrendOf(SliceLast(ticks, 55));
      var counts := HistogramOf(ticks);
      NeverBuyAndSell(ticks);
      Some(Row(DisplayName(symbol) + " index", IsBuy(long, short), IsSell(long, short),
               OverTwo(counts, |ticks|), UnderSeven(counts, |ticks|)))
  }

  /** The rows of `updateTables` for the symbols in `order`. */
  function RowsOf(order: seq<string>, buffers: map<string, seq<string>>): seq<Row>
    requires forall i :: 0 <= i < |order| ==> order[i] in buffers
  {
    if order == [] then []
    else
      var symbol := order[|order| - 1];
      RowsOf(order[..|order| - 1], buffers) +
        (match SymbolRow(symbol, buffers[symbol]) case Some(row) => [row] case None => [])
  }

  /** There is exactly one row for each visited symbol whose buffer is
      full, and no row is both a buy and a sell. */
  lemma {:induction false} RowsOfFullBuffers(order: seq<string>, buffers: map<string, seq<string>>)
    requires forall i :: 0 <= i < |order| ==> order[i] in buffers
    ensures |RowsOf(order, buffers)| == |Filter(order, s => s in buffers && |buffers[s]| >= Capacity)|
    ensures forall i :: 0 <= i < |RowsOf(order, buffers)| ==>
      !(RowsOf(order, buffers)[i].isBuy && RowsOf(order, buffers)[i].isSell)
  {
    if order != [] {
      var init, symbol := order[..|order| - 1], order[|order| - 1];
      var p := s => s in buffers && |buffers[s]| >= Capacity;
      RowsOfFullBuffers(init, buffers);
      FilterSnoc(init, symbol, p);
      assert init + [symbol] == order;
      var row := SymbolRow(symbol, buffers[symbol]);
      var tail := match row case Some(r) => [r] case None => [];
      assert RowsOf(order, buffers) == RowsOf(init, buffers) + tail;
      assert |tail| == if p(symbol) then 1 else 0;
      assert forall i :: 0 <= i < |tail| ==> !(tail[i].isBuy && tail[i].isSell);
    }
  }
}
