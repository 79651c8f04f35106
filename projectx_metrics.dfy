/**
 * The broker-side trade summary: realized P&L per fill, taken from the
 * broker's own pnl when it reports one and otherwise matched first-in
 * first-out against the open lots of the same symbol; fees, net P&L, win
 * rate over closing fills, average win and loss, and the maximum drawdown
 * of the running net equity.
 */
module ProjectxMetrics {
  import opened Wrappers
  import opened Text
  import opened Sequences
  import opened Sorting
  import opened MetricKernel
  import opened BackendKernel

  /** A fill or closed trade; timestamps are integer microseconds. */
  datatype TradeMetricSample = TradeMetricSample(
    timestamp: int,
    pnl: Option<real>,
    fees: Option<real>,
    symbol: Option<string>,
    side: Option<string>,
    size: Option<real>,
    price: Option<real>)

  /** An open position slice: `sign` is +1 for long, -1 for short. */
  datatype Lot = Lot(sign: int, qty: real, price: real)

  /** Lots smaller than this are dust: dropped instead of kept open. */
  const DUST: real := 0.000000000001

  /** The queue key for fills without a symbol. */
  const DEFAULT_SYMBOL: string := "__DEFAULT__"

  /** `(trade.side or "").upper()` */
  function SideCode(trade: TradeMetricSample): string
  {
    Upper(trade.side.GetOr(""))
  }

  /** `trade.symbol or "__DEFAULT__"`: `None` and the empty string fall back alike. */
  function SymbolKey(trade: TradeMetricSample): (key: string)
    ensures key != ""
  {
    if trade.symbol.None? || trade.symbol.value == "" then DEFAULT_SYMBOL else trade.symbol.value
  }

  /** A fill the matcher acts on: a BUY or SELL with a non-zero size and a price. */
  predicate FifoApplies(trade: TradeMetricSample)
  {
    && (SideCode(trade) == "BUY" || SideCode(trade) == "SELL")
    && Abs(SafeFloat(trade.size)) > 0.0
    && trade.price.Some?
  }

  function SideSign(trade: TradeMetricSample): (sign: int)
    ensures sign == 1 || sign == -1
  {
    if SideCode(trade) == "BUY" then 1 else -1
  }

  /** The state of the matching loop: quantity still to match, P&L so far, the queue. */
  datatype Matching = Matching(remaining: real, realized: real, lots: seq<Lot>)

  /** P&L of `matched` units closed against `lot` by a fill on side `sideSign` at `price`. */
  function MatchGain(lot: Lot, sideSign: int, price: real, matched: real): real
  {
    if sideSign == 1 then (lot.price - price) * matched else (price - lot.price) * matched
  }

  /**
   * The matching loop: while quantity remains and the front lot is on the
   * other side, close `min(remaining, lot.qty)` of it, booking the gain; a lot
   * reduced to dust leaves the queue.
   */
  function MatchLots(lots: seq<Lot>, sideSign: int, remaining: real, price: real, realized: real): (m: Matching)
    decreases |lots|, if remaining > 0.0 then 1 else 0
  {
    if remaining > 0.0 && |lots| > 0 && lots[0].sign == -sideSign then
      var lot := lots[0];
      var matched := Min(remaining, lot.qty);
      var reduced := lot.(qty := lot.qty - matched);
      var rest := if reduced.qty <= DUST then lots[1..] else [reduced] + lots[1..];
      MatchLots(rest, sideSign, remaining - matched, price, realized + MatchGain(lot, sideSign, price, matched))
    else Matching(remaining, realized, lots)
  }

  /** The queue after a fill: the matched queue, plus the unmatched remainder as a new lot unless it is dust. */
  function QueueAfterFill(m: Matching, sideSign: int, price: real): seq<Lot>
  {
    if m.remaining > DUST then m.lots + [Lot(sideSign, m.remaining, price)] else m.lots
  }

  /**
   * `_compute_fifo_realized` as a function of the open lots: a fill the
   * matcher ignores realizes nothing and changes nothing; any other fill
   * creates its symbol's queue if there is none and replaces it by the queue
   * after matching.
   */
  function FifoRealized(trade: TradeMetricSample, book: map<string, seq<Lot>>): (r: (real, map<string, seq<Lot>>))
    ensures !FifoApplies(trade) ==> r == (0.0, book)
  {
    if !FifoApplies(trade) then (0.0, book)
    else
      var key := SymbolKey(trade);
      var sideSign := SideSign(trade);
      var price := trade.price.value;
      var m := MatchLots(if key in book then book[key] else [], sideSign, Abs(SafeFloat(trade.size)), price, 0.0);
      (m.realized, book[key := QueueAfterFill(m, sideSign, price)])
  }

  /** A fill touches only its own symbol's queue, which it creates when missing. */
  lemma FifoTouchesOnlyItsSymbol(trade: TradeMetricSample, book: map<string, seq<Lot>>)
    ensures var after := FifoRealized(trade, book).1;
            after.Keys == book.Keys + (if FifoApplies(trade) then {SymbolKey(trade)} else {})
            && forall key :: key in book && (FifoApplies(trade) ==> key != SymbolKey(trade)) ==> after[key] == book[key]
  {
  }

  /** The open lots per symbol, which every fill without a broker pnl updates in place. */
  class OpenLots {
    var lots: map<string, seq<Lot>>

    constructor ()
      ensures lots == map[]
    {
      lots := map[];
    }

    /** Matches one fill against its symbol's queue and returns the realized P&L. */
    method ComputeFifoRealized(trade: TradeMetricSample) returns (realized: real)
      modifies this
      ensures realized == FifoRealized(trade, old(lots)).0
      ensures lots == FifoRealized(trade, old(lots)).1
    {
      var side := Upper(trade.side.GetOr(""));
      var size := Abs(SafeFloat(trade.size));
      if !(side == "BUY" || side == "SELL") || size <= 0.0 || trade.price.None? {
        return 0.0;
      }
      var price := trade.price.value;
      var symbol := SymbolKey(trade);
      if symbol !in lots {
        lots := lots[symbol := []];
      }
      var queue := lots[symbol];
      ghost var book0 := lots;
      ghost var start := queue;
      var remaining := size;
      realized := 0.0;
      var sideSign := if side == "BUY" then 1 else -1;
      while remaining > 0.0 && |queue| > 0 && queue[0].sign == -sideSign
        invariant lots == book0[symbol := queue]
        invariant MatchLots(queue, sideSign, remaining, price, realized) == MatchLots(start, sideSign, size, price, 0.0)
        decreases |queue|, if remaining > 0.0 then 1 else 0
      {
        var lot := queue[0];
        var matched := Min(remaining, lot.qty);
        realized := realized + MatchGain(lot, sideSign, price, matched);
        lot := lot.(qty := lot.qty - matched);
        queue := [lot] + queue[1..];
        remaining := remaining - matched;
        if lot.qty <= DUST {
          queue := queue[1..];
        }
        lots := lots[symbol := queue];
      }
      assert MatchLots(start, sideSign, size, price, 0.0) == Matching(remaining, realized, queue);
      if remaining > DUST {
        queue := queue + [Lot(sideSign, remaining, price)];
        lots := lots[symbol := queue];
      }
    }
  }

  /** A quantity with the sign of a side: positive for a long (+1), negative for a short. */
  function Signed(sign: int, qty: real): real
  {
    if sign == 1 then qty else -qty
  }

  /** The net open position of a queue: long lots count positive, short lots negative. */
  function Position(lots: seq<Lot>): real
  {
    if lots == [] then 0.0 else Signed(lots[0].sign, lots[0].qty) + Position(lots[1..])
  }

  /** Every lot is on side `sign` and larger than dust. */
  predicate QueueOnSide(lots: seq<Lot>, sign: int)
  {
    forall k :: 0 <= k < |lots| ==> lots[k].sign == sign && lots[k].qty > DUST
  }

  /** The matcher's invariant: a queue holds lots of one side only, none of them dust. */
  predicate WellFormedQueue(lots: seq<Lot>)
  {
    QueueOnSide(lots, 1) || QueueOnSide(lots, -1)
  }

  predicate WellFormedBook(book: map<string, seq<Lot>>)
  {
    forall key :: key in book ==> WellFormedQueue(book[key])
  }

  /**
   * Matching keeps the queue well formed; it stops with quantity left only
   * when it has run out of lots on the other side.
   */
  lemma {:induction false} MatchLotsShape(lots: seq<Lot>, sideSign: int, remaining: real, price: real, realized: real)
    requires sideSign == 1 || sideSign == -1
    requires WellFormedQueue(lots)
    requires remaining >= 0.0
    ensures var m := MatchLots(lots, sideSign, remaining, price, realized);
            && WellFormedQueue(m.lots)
            && 0.0 <= m.remaining <= remaining
            && (m.remaining > 0.0 ==> QueueOnSide(m.lots, sideSign))
    decreases |lots|, if remaining > 0.0 then 1 else 0
  {
    if remaining > 0.0 && |lots| > 0 && lots[0].sign == -sideSign {
      var lot := lots[0];
      var matched := Min(remaining, lot.qty);
      var reduced := lot.(qty := lot.qty - matched);
      var rest := if reduced.qty <= DUST then lots[1..] else [reduced] + lots[1..];
      assert QueueOnSide(lots, -sideSign);
      assert QueueOnSide(rest, -sideSign);
      MatchLotsShape(rest, sideSign, remaining - matched, price, realized + MatchGain(lot, sideSign, price, matched));
    } else if remaining > 0.0 && |lots| > 0 {
      assert QueueOnSide(lots, sideSign) by {
        assert lots[0].sign == sideSign;
      }
    }
  }

  /** A fill leaves its symbol's queue well formed, and with it every queue of the book. */
  lemma FifoKeepsBookWellFormed(trade: TradeMetricSample, book: map<string, seq<Lot>>)
    requires WellFormedBook(book)
    ensures WellFormedBook(FifoRealized(trade, book).1)
  {
    if FifoApplies(trade) {
      var key := SymbolKey(trade);
      var sideSign := SideSign(trade);
      var price := trade.price.value;
      var queue := if key in book then book[key] else [];
      assert WellFormedQueue(queue) by {
        if key !in book {
          assert QueueOnSide(queue, 1);
        }
      }
      var size := Abs(SafeFloat(trade.size));
      MatchLotsShape(queue, sideSign, size, price, 0.0);
      var m := MatchLots(queue, sideSign, size, price, 0.0);
      var after := QueueAfterFill(m, sideSign, price);
      assert WellFormedQueue(after) by {
        if m.remaining > DUST {
          assert QueueOnSide(after, sideSign);
        }
      }
    }
  }

  lemma PositionCons(lot: Lot, rest: seq<Lot>)
    ensures Position([lot] + rest) == Signed(lot.sign, lot.qty) + Position(rest)
  {
    assert ([lot] + rest)[1..] == rest;
  }

  lemma {:induction false} PositionConcat(a: seq<Lot>, b: seq<Lot>)
    ensures Position(a + b) == Position(a) + Position(b)
  {
    if a != [] {
      assert (a + b)[0] == a[0];
      assert (a + b)[1..] == a[1..] + b;
      PositionConcat(a[1..], b);
    } else {
      assert a + b == b;
    }
  }

  /** One matching step keeps position plus unmatched quantity, except for the dust of a dropped lot. */
  lemma MatchStepPosition(lot: Lot, tail: seq<Lot>, sideSign: int, remaining: real)
    requires sideSign == 1 || sideSign == -1
    requires lot.sign == -sideSign && lot.qty > DUST && remaining > 0.0
    ensures var matched := Min(remaining, lot.qty);
            var left := lot.qty - matched;
            var before := Position([lot] + tail) + Signed(sideSign, remaining);
            if left <= DUST then
              && before == Position(tail) + Signed(sideSign, remaining - matched) + Signed(lot.sign, left)
              && (left > 0.0 ==> matched == remaining)
            else
              && before == Position([lot.(qty := left)] + tail) + Signed(sideSign, remaining - matched)
              && matched == remaining
  {
    PositionCons(lot, tail);
    PositionCons(lot.(qty := lot.qty - Min(remaining, lot.qty)), tail);
  }

  /**
   * Matching moves the net position toward the fill: the open position plus
   * the fill's still unmatched signed quantity is kept, exactly while
   * quantity remains and up to one dust lot dropped otherwise.
   */
  lemma {:induction false} MatchLotsPosition(lots: seq<Lot>, sideSign: int, remaining: real, price: real, realized: real)
    requires sideSign == 1 || sideSign == -1
    requires WellFormedQueue(lots)
    requires remaining >= 0.0
    ensures var m := MatchLots(lots, sideSign, remaining, price, realized);
            var before := Position(lots) + Signed(sideSign, remaining);
            var after := Position(m.lots) + Signed(sideSign, m.remaining);
            (m.remaining > 0.0 ==> after == before) && Abs(after - before) <= DUST
    decreases |lots|, if remaining > 0.0 then 1 else 0
  {
    if remaining > 0.0 && |lots| > 0 && lots[0].sign == -sideSign {
      var lot := lots[0];
      var matched := Min(remaining, lot.qty);
      var reduced := lot.(qty := lot.qty - matched);
      var rest := if reduced.qty <= DUST then lots[1..] else [reduced] + lots[1..];
      var gain := realized + MatchGain(lot, sideSign, price, matched);
      assert QueueOnSide(lots, -sideSign);
      assert QueueOnSide(rest, -sideSign);
      assert lots == [lot] + lots[1..];
      MatchStepPosition(lot, lots[1..], sideSign, remaining);
      MatchLotsPosition(rest, sideSign, remaining - matched, price, gain);
      if reduced.qty <= DUST && reduced.qty > 0.0 {
        assert MatchLots(rest, sideSign, remaining - matched, price, gain) == Matching(0.0, gain, rest);
      }
    }
  }

  /**
   * A fill changes its symbol's net open position by its signed size, up to
   * one dust quantity: the remainder left unopened or the sliver of a lot
   * dropped from the queue.
   */
  lemma FifoMovesPosition(trade: TradeMetricSample, book: map<string, seq<Lot>>)
    requires WellFormedBook(book)
    requires FifoApplies(trade)
    ensures var key := SymbolKey(trade);
            var before := if key in book then book[key] else [];
            var after := FifoRealized(trade, book).1[key];
            Abs(Position(after) - (Position(before) + Signed(SideSign(trade), Abs(SafeFloat(trade.size))))) <= DUST
  {
    var key := SymbolKey(trade);
    var queue := if key in book then book[key] else [];
    assert WellFormedQueue(queue) by {
      if key !in book {
        assert QueueOnSide(queue, 1);
      }
    }
    QueueAfterFillPosition(queue, SideSign(trade), Abs(SafeFloat(trade.size)), trade.price.value);
  }

  /** The queue-level step of FifoMovesPosition: matching, then the remainder lot. */
  lemma QueueAfterFillPosition(queue: seq<Lot>, sideSign: int, size: real, price: real)
    requires WellFormedQueue(queue)
    requires sideSign == 1 || sideSign == -1
    requires size >= 0.0
    ensures var m := MatchLots(queue, sideSign, size, price, 0.0);
            Abs(Position(QueueAfterFill(m, sideSign, price)) - (Position(queue) + Signed(sideSign, size))) <= DUST
  {
    MatchLotsShape(queue, sideSign, size, price, 0.0);
    MatchLotsPosition(queue, sideSign, size, price, 0.0);
    var m := MatchLots(queue, sideSign, size, price, 0.0);
    if m.remaining > DUST {
      PositionConcat(m.lots, [Lot(sideSign, m.remaining, price)]);
      PositionCons(Lot(sideSign, m.remaining, price), []);
    }
  }

  /** A fill with nothing to close against realizes nothing and opens one lot of its full size. */
  lemma OpeningFillRealizesNothing(trade: TradeMetricSample, book: map<string, seq<Lot>>)
    requires FifoApplies(trade)
    requires var key := SymbolKey(trade);
             key !in book || book[key] == [] || book[key][0].sign == SideSign(trade)
    requires Abs(SafeFloat(trade.size)) > DUST
    ensures var key := SymbolKey(trade);
            var before := if key in book then book[key] else [];
            && FifoRealized(trade, book).0 == 0.0
            && FifoRealized(trade, book).1
               == book[key := before + [Lot(SideSign(trade), Abs(SafeFloat(trade.size)), trade.price.value)]]
  {
  }

  /** What the realized-value loop has built so far: one value per trade, the closing values, the open lots. */
  datatype RealizedRun = RealizedRun(values: seq<real>, closed: seq<real>, book: map<string, seq<Lot>>)

  /**
   * One trade of the loop: a broker-reported pnl is taken as is and counts
   * as closing, without touching the lots; otherwise the fill is matched, and
   * its realized value counts as closing only when it is more than dust.
   */
  function RealizedStep(run: RealizedRun, trade: TradeMetricSample): (r: RealizedRun)
    ensures |r.values| == |run.values| + 1 && r.values[..|run.values|] == run.values
    ensures trade.pnl.Some? ==> r.values[|run.values|] == trade.pnl.value && r.closed == run.closed + [trade.pnl.value]
    ensures trade.pnl.Some? ==> r.book == run.book
  {
    if trade.pnl.Some? then
      RealizedRun(run.values + [trade.pnl.value], run.closed + [trade.pnl.value], run.book)
    else
      var fifo := FifoRealized(trade, run.book);
      RealizedRun(run.values + [fifo.0], if Abs(fifo.0) > DUST then run.closed + [fifo.0] else run.closed, fifo.1)
  }

  /** `_compute_realized_values` from an empty book. */
  function RealizedRunOf(trades: seq<TradeMetricSample>): (r: RealizedRun)
    ensures |r.values| == |trades|
    ensures |r.closed| <= |trades|
  {
    if trades == [] then RealizedRun([], [], map[])
    else RealizedStep(RealizedRunOf(trades[..|trades| - 1]), trades[|trades| - 1])
  }

  /** Every row with a broker pnl contributes exactly that pnl, at its own position. */
  lemma {:induction false} BrokerPnlKept(trades: seq<TradeMetricSample>)
    ensures forall k :: 0 <= k < |trades| && trades[k].pnl.Some? ==>
              RealizedRunOf(trades).values[k] == trades[k].pnl.value
  {
    if trades != [] {
      var init := trades[..|trades| - 1];
      BrokerPnlKept(init);
      var r := RealizedRunOf(trades);
      assert r.values[..|init|] == RealizedRunOf(init).values;
      forall k | 0 <= k < |trades| && trades[k].pnl.Some?
        ensures r.values[k] == trades[k].pnl.value
      {
        if k < |init| {
          assert trades[k] == init[k];
          assert r.values[k] == r.values[..|init|][k];
        }
      }
    }
  }

  /** The open lots stay well formed through the whole loop. */
  lemma {:induction false} RealizedRunBookWellFormed(trades: seq<TradeMetricSample>)
    ensures WellFormedBook(RealizedRunOf(trades).book)
  {
    if trades != [] {
      var init := trades[..|trades| - 1];
      RealizedRunBookWellFormed(init);
      var last := trades[|trades| - 1];
      if last.pnl.None? {
        FifoKeepsBookWellFormed(last, RealizedRunOf(init).book);
      }
    }
  }

  /** The loop of `_compute_realized_values`, with the open lots held in a fresh `OpenLots`. */
  method ComputeRealizedValues(trades: seq<TradeMetricSample>) returns (realizedValues: seq<real>, closedPnls: seq<real>)
    ensures realizedValues == RealizedRunOf(trades).values
    ensures closedPnls == RealizedRunOf(trades).closed
  {
    var openLots := new OpenLots();
    realizedValues, closedPnls := [], [];
    for i := 0 to |trades|
      invariant RealizedRunOf(trades[..i]) == RealizedRun(realizedValues, closedPnls, openLots.lots)
    {
      var trade := trades[i];
      assert trades[..i + 1][..i] == trades[..i];
      if trade.pnl.Some? {
        var realized := trade.pnl.value;
        realizedValues := realizedValues + [realized];
        closedPnls := closedPnls + [realized];
      } else {
        var realized := openLots.ComputeFifoRealized(trade);
        realizedValues := realizedValues + [realized];
        if Abs(realized) > DUST {
          closedPnls := closedPnls + [realized];
        }
      }
    }
    assert trades[..|trades|] == trades;
  }

  /** `_max_drawdown`: running equity, running peak and the deepest dip below it. */
  method MaxDrawdown(netValues: seq<real>) returns (drawdown: real)
    ensures drawdown == Drawdown(netValues)
  {
    var equity, peak := 0.0, 0.0;
    drawdown := 0.0;
    for i := 0 to |netValues|
      invariant equity == Sum(netValues[..i])
      invariant peak == RunningPeak(netValues[..i])
      invariant drawdown == Drawdown(netValues[..i])
    {
      assert netValues[..i + 1][..i] == netValues[..i];
      equity := equity + netValues[i];
      peak := Max(peak, equity);
      drawdown := Min(drawdown, equity - peak);
    }
    assert netValues[..|netValues|] == netValues;
  }

  function FeeOf(trade: TradeMetricSample): real
  {
    SafeFloat(trade.fees)
  }

  /** Each trade's realized value less its fee, pairwise. */
  function NetValues(realized: seq<real>, fees: seq<real>): (r: seq<real>)
    requires |realized| == |fees|
    ensures |r| == |realized|
    ensures forall k :: 0 <= k < |r| ==> r[k] == realized[k] - fees[k]
  {
    if realized == [] then []
    else NetValues(realized[..|realized| - 1], fees[..|fees| - 1]) + [realized[|realized| - 1] - fees[|fees| - 1]]
  }

  /** The net total is the gross total less the total of fees. */
  lemma {:induction false} NetValuesSum(realized: seq<real>, fees: seq<real>)
    requires |realized| == |fees|
    ensures Sum(NetValues(realized, fees)) == Sum(realized) - Sum(fees)
  {
    if realized != [] {
      var net := NetValues(realized, fees);
      NetValuesSum(realized[..|realized| - 1], fees[..|fees| - 1]);
      assert net[..|net| - 1] == NetValues(realized[..|realized| - 1], fees[..|fees| - 1]);
    }
  }

  /** The sort key of `compute_trade_summary`. */
  predicate TimestampLe(a: TradeMetricSample, b: TradeMetricSample)
  {
    a.timestamp <= b.timestamp
  }

  lemma TimestampLeIsTotalPreorder()
    ensures IsTotalPreorder(TimestampLe)
  {
  }

  /** The result dictionary of `compute_trade_summary`, before rounding. */
  datatype TradeSummary = TradeSummary(
    realizedPnl: real, grossPnl: real, fees: real, netPnl: real,
    winRate: real, avgWin: real, avgLoss: real, maxDrawdown: real, tradeCount: nat)

  const EMPTY_SUMMARY := TradeSummary(0.0, 0.0, 0.0, 0.0, 0.0, 0.0, 0.0, 0.0, 0)

  /** The share of closing values that gained, in percent, and 0 when nothing closed. */
  function ClosedWinRate(closed: seq<real>): (r: real)
    ensures 0.0 <= r <= 100.0
    ensures closed == [] ==> r == 0.0
    ensures closed != [] ==> r * |closed| as real == |Filter(closed, IsGain)| as real * 100.0
  {
    if closed == [] then 0.0
    else
      PercentOfWhole(|Filter(closed, IsGain)|, |closed|);
      Percent(|Filter(closed, IsGain)|, |closed|)
  }

  /** The summary of trades already in timestamp order. */
  function SummaryOfOrdered(trades: seq<TradeMetricSample>): (r: TradeSummary)
    ensures r.tradeCount == |trades|
    ensures trades == [] ==> r == EMPTY_SUMMARY
    ensures trades != [] ==>
      var run := RealizedRunOf(trades);
      && r.grossPnl == r.realizedPnl == Sum(run.values)
      && r.fees == Sum(Map(trades, FeeOf))
      && r.netPnl == r.grossPnl - r.fees
      && r.winRate == ClosedWinRate(run.closed)
      && r.avgWin == Mean(Filter(run.closed, IsGain))
      && r.avgLoss == Mean(Filter(run.closed, IsLoss))
      && r.maxDrawdown == Drawdown(NetValues(run.values, Map(trades, FeeOf)))
  {
    if trades == [] then EMPTY_SUMMARY
    else
      var run := RealizedRunOf(trades);
      var fees := Map(trades, FeeOf);
      var net := NetValues(run.values, fees);
      NetValuesSum(run.values, fees);
      TradeSummary(Sum(run.values), Sum(run.values), Sum(fees), Sum(net),
        ClosedWinRate(run.closed), Mean(Filter(run.closed, IsGain)), Mean(Filter(run.closed, IsLoss)),
        Drawdown(net), |trades|)
  }

  /** `compute_trade_summary`: the trades are taken in timestamp order, earliest first. */
  function TradeSummaryOf(samples: seq<TradeMetricSample>): (r: TradeSummary)
  {
    SummaryOfOrdered(SortBy(samples, TimestampLe))
  }

  /** What every summary satisfies: counts every trade, nets fees off, keeps rates and signs in range. */
  lemma TradeSummaryBounds(samples: seq<TradeMetricSample>)
    ensures var r := TradeSummaryOf(samples);
            && r.tradeCount == |samples|
            && (samples == [] ==> r == EMPTY_SUMMARY)
            && r.netPnl == r.grossPnl - r.fees
            && 0.0 <= r.winRate <= 100.0
            && r.avgWin >= 0.0 && r.avgLoss <= 0.0
            && r.maxDrawdown <= 0.0
  {
    var trades := SortBy(samples, TimestampLe);
    if trades != [] {
      AveragesHaveTheirSign(RealizedRunOf(trades).closed);
    }
  }

  /** The order the summary works in: ascending timestamps. */
  lemma SummaryOrder(samples: seq<TradeMetricSample>)
    ensures SortedBy(SortBy(samples, TimestampLe), TimestampLe)
    ensures multiset(SortBy(samples, TimestampLe)) == multiset(samples)
  {
    TimestampLeIsTotalPreorder();
    SortBySorted(samples, TimestampLe);
  }

  /** Samples already in timestamp order are summarised as given. */
  lemma OrderedSamplesSummary(samples: seq<TradeMetricSample>)
    requires SortedBy(samples, TimestampLe)
    ensures TradeSummaryOf(samples) == SummaryOfOrdered(samples)
  {
    SortBySortedIsIdentity(samples, TimestampLe);
  }

  /** `compute_trade_summary` as the source runs it: the realized-value loop, then the drawdown loop. */
  method ComputeTradeSummary(samples: seq<TradeMetricSample>) returns (summary: TradeSummary)
    ensures summary == TradeSummaryOf(samples)
  {
    var trades := SortBy(samples, TimestampLe);
    if trades == [] {
      return EMPTY_SUMMARY;
    }
    var realizedValues, closedPnls := ComputeRealizedValues(trades);
    var feeValues := Map(trades, FeeOf);
    var netValues := NetValues(realizedValues, feeValues);
    var wins := Filter(closedPnls, IsGain);
    var losses := Filter(closedPnls, IsLoss);
    var grossPnl := Sum(realizedValues);
    var drawdown := MaxDrawdown(netValues);
    NetValuesSum(realizedValues, feeValues);
    summary := TradeSummary(grossPnl, grossPnl, Sum(feeValues), Sum(netValues),
      ClosedWinRate(closedPnls), Mean(wins), Mean(losses), drawdown, |trades|);
  }
}

module ProjectxMetricsExample {
  import opened Wrappers
  import opened MetricKernel
  import opened BackendKernel
  import opened ProjectxMetrics

  /** A rise to 50, two falls totalling 55, a partial recovery. */
  lemma DrawdownExample()
    ensures Drawdown([50.0, -30.0, -25.0, 10.0]) == -55.0
  {
    var s1, s2, s3, s4 := [50.0], [50.0, -30.0], [50.0, -30.0, -25.0], [50.0, -30.0, -25.0, 10.0];
    assert s4[..3] == s3 && s3[..2] == s2 && s2[..1] == s1 && s1[..0] == [];
    assert Sum(s1) == 50.0 && RunningPeak(s1) == 50.0 && Drawdown(s1) == 0.0;
    assert Sum(s2) == 20.0 && RunningPeak(s2) == 50.0 && Drawdown(s2) == -30.0;
    assert Sum(s3) == -5.0 && RunningPeak(s3) == 50.0 && Drawdown(s3) == -55.0;
    assert Sum(s4) == 5.0 && RunningPeak(s4) == 50.0;
  }

  /** A first close against an only lot realizes the price difference and leaves the rest of the lot open. */
  lemma FifoCloseExample(long: Lot, sell: TradeMetricSample)
    requires long == Lot(1, 2.0, 100.0)
    requires sell.pnl.None? && sell.symbol == Some("ES") && sell.size == Some(1.0) && sell.price == Some(110.0)
    requires SideCode(sell) == "SELL"
    ensures FifoRealized(sell, map["ES" := [long]]).0 == 10.0
    ensures FifoRealized(sell, map["ES" := [long]]).1 == map["ES" := [Lot(1, 1.0, 100.0)]]
  {
    assert FifoApplies(sell) && SideSign(sell) == -1 && SymbolKey(sell) == "ES";
    var rest := [Lot(1, 1.0, 100.0)] + [long][1..];
    assert rest == [Lot(1, 1.0, 100.0)];
    assert MatchLots([long], -1, 1.0, 110.0, 0.0) == MatchLots(rest, -1, 0.0, 110.0, 10.0);
    assert MatchLots(rest, -1, 0.0, 110.0, 10.0) == Matching(0.0, 10.0, rest);
    assert map["ES" := [long]]["ES" := rest] == map["ES" := rest];
  }

  /** A sell larger than the open long closes it out and opens a short with the rest. */
  lemma FifoFlipExample(long: Lot, sell: TradeMetricSample)
    requires long == Lot(1, 1.0, 100.0)
    requires sell.pnl.None? && sell.symbol == Some("ES") && sell.size == Some(3.0) && sell.price == Some(90.0)
    requires SideCode(sell) == "SELL"
    ensures FifoRealized(sell, map["ES" := [long]]).0 == -10.0
    ensures FifoRealized(sell, map["ES" := [long]]).1 == map["ES" := [Lot(-1, 2.0, 90.0)]]
  {
    assert FifoApplies(sell) && SideSign(sell) == -1 && SymbolKey(sell) == "ES";
    assert [long][1..] == [];
    assert MatchLots([long], -1, 3.0, 90.0, 0.0) == MatchLots([], -1, 2.0, 90.0, -10.0);
    assert MatchLots([], -1, 2.0, 90.0, -10.0) == Matching(2.0, -10.0, []);
    assert [] + [Lot(-1, 2.0, 90.0)] == [Lot(-1, 2.0, 90.0)];
    assert map["ES" := [long]]["ES" := [Lot(-1, 2.0, 90.0)]] == map["ES" := [Lot(-1, 2.0, 90.0)]];
  }
}
