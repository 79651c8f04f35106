/**
 * Persisting fetched executions: the dedupe-insert loop that stores each
 * (account, order id, timestamp) key at most once, the choice of the sync
 * window, and the symbol fallback of a serialised stored row. Database
 * reads are parameters and writes are returned as a list of new rows.
 * Timestamps are integer microseconds since the epoch, UTC.
 */
module ProjectxTrades {
  import opened Wrappers
  import opened Text
  import opened Sorting
  import opened ProjectxClient

  /** The identity of a stored execution: account, order id text and timestamp. */
  datatype DedupeKey = DedupeKey(accountId: int, orderId: string, timestamp: int)

  /** The columns of a stored trade event. */
  datatype TradeEventRow = TradeEventRow(
    accountId: int,
    contractId: string,
    symbol: string,
    side: string,
    size: real,
    price: real,
    timestamp: int,
    fees: real,
    pnl: Option<real>,
    orderId: string,
    sourceTradeId: Option<string>,
    rawPayload: map<string, PyValue>)

  function KeyOf(event: NormalizedTrade): DedupeKey {
    DedupeKey(event.accountId, event.orderId, event.timestamp)
  }

  function RowKey(row: TradeEventRow): DedupeKey {
    DedupeKey(row.accountId, row.orderId, row.timestamp)
  }

  /** The row `db.add` receives for an event; its key is the event's key. */
  function RowOf(event: NormalizedTrade): (row: TradeEventRow)
    ensures RowKey(row) == KeyOf(event)
  {
    TradeEventRow(event.accountId, event.contractId, event.symbol, SideText(event.side), event.size,
                  event.price, event.timestamp, event.fees, event.pnl, event.orderId,
                  event.sourceTradeId, event.rawPayload)
  }

  /** The processing order: by timestamp, then by order id text. */
  function EventOrderLe(a: NormalizedTrade, b: NormalizedTrade): bool {
    a.timestamp < b.timestamp || (a.timestamp == b.timestamp && StrLe(a.orderId, b.orderId))
  }

  lemma EventOrderLeIsTotalPreorder()
    ensures IsTotalPreorder(EventOrderLe)
  {
    forall a: NormalizedTrade, b: NormalizedTrade ensures EventOrderLe(a, b) || EventOrderLe(b, a) {
      StrLeTotal(a.orderId, b.orderId);
    }
    forall a: NormalizedTrade, b: NormalizedTrade, c: NormalizedTrade | EventOrderLe(a, b) && EventOrderLe(b, c)
      ensures EventOrderLe(a, c)
    {
      if a.timestamp == b.timestamp == c.timestamp {
        StrLeTransitive(a.orderId, b.orderId, c.orderId);
      }
    }
  }

  ghost predicate InBatchRange(key: DedupeKey, events: seq<NormalizedTrade>) {
    (exists e :: e in events && e.accountId == key.accountId)
    && (exists e :: e in events && e.timestamp <= key.timestamp)
    && (exists e :: e in events && key.timestamp <= e.timestamp)
  }

  /**
   * The keys the existing-row query returns: stored keys of the batch's
   * accounts whose timestamps lie between the batch's earliest and latest.
   */
  ghost function ExistingKeys(stored: set<DedupeKey>, events: seq<NormalizedTrade>): set<DedupeKey> {
    set key | key in stored && InBatchRange(key, events)
  }

  /** The range filter of the query hides no stored key an event of the batch could collide with. */
  lemma ExistingKeysCoverBatch(stored: set<DedupeKey>, events: seq<NormalizedTrade>, event: NormalizedTrade)
    requires event in events
    ensures KeyOf(event) in ExistingKeys(stored, events) <==> KeyOf(event) in stored
  {
  }

  datatype StoreRun = StoreRun(keys: set<DedupeKey>, rows: seq<TradeEventRow>, insertedCount: nat)

  /** The dedupe loop over events already in processing order, from the existing keys. */
  function StoreLoop(ordered: seq<NormalizedTrade>, existing: set<DedupeKey>): (r: StoreRun)
    ensures existing <= r.keys
    ensures r.insertedCount == |r.rows| <= |ordered|
    ensures forall k :: 0 <= k < |r.rows| ==> RowKey(r.rows[k]) !in existing
    decreases |ordered|
  {
    if ordered == [] then StoreRun(existing, [], 0)
    else
      var before := StoreLoop(ordered[..|ordered| - 1], existing);
      var event := ordered[|ordered| - 1];
      if KeyOf(event) in before.keys then before
      else StoreRun(before.keys + {KeyOf(event)}, before.rows + [RowOf(event)], before.insertedCount + 1)
  }

  function EventKeys(events: seq<NormalizedTrade>): set<DedupeKey> {
    set e | e in events :: KeyOf(e)
  }

  /**
   * The loop's state after each event: the key set is the existing keys
   * and every key seen so far, each new key gave exactly one row, rows have
   * distinct keys none of which existed, and the count is the number of
   * new distinct keys.
   */
  lemma StoreLoopFacts(ordered: seq<NormalizedTrade>, existing: set<DedupeKey>)
    ensures var r := StoreLoop(ordered, existing);
            && r.keys == existing + EventKeys(ordered)
            && r.insertedCount == |r.rows| <= |ordered|
            && r.insertedCount == |EventKeys(ordered) - existing|
            && (forall k :: 0 <= k < |r.rows| ==> RowKey(r.rows[k]) in EventKeys(ordered) - existing)
            && (forall i, j :: 0 <= i < j < |r.rows| ==> RowKey(r.rows[i]) != RowKey(r.rows[j]))
  {
    StoreLoopKeySet(ordered, existing);
    StoreLoopCounts(ordered, existing);
    StoreLoopRows(ordered, existing);
  }

  lemma {:induction false} StoreLoopKeySet(ordered: seq<NormalizedTrade>, existing: set<DedupeKey>)
    ensures StoreLoop(ordered, existing).keys == existing + EventKeys(ordered)
    decreases |ordered|
  {
    if ordered != [] {
      var prefix := ordered[..|ordered| - 1];
      StoreLoopKeySet(prefix, existing);
      assert ordered == prefix + [ordered[|ordered| - 1]];
      assert EventKeys(ordered) == EventKeys(prefix) + {KeyOf(ordered[|ordered| - 1])};
    }
  }

  lemma {:induction false} StoreLoopCounts(ordered: seq<NormalizedTrade>, existing: set<DedupeKey>)
    ensures var r := StoreLoop(ordered, existing);
            && r.insertedCount == |r.rows| <= |ordered|
            && existing <= r.keys
            && r.insertedCount == |r.keys - existing|
    decreases |ordered|
  {
    if ordered != [] {
      var prefix := ordered[..|ordered| - 1];
      var event := ordered[|ordered| - 1];
      StoreLoopCounts(prefix, existing);
      var before := StoreLoop(prefix, existing);
      if KeyOf(event) !in before.keys {
        var grown := before.keys + {KeyOf(event)};
        assert grown - existing == (before.keys - existing) + {KeyOf(event)};
      }
    }
  }

  lemma {:induction false} StoreLoopRows(ordered: seq<NormalizedTrade>, existing: set<DedupeKey>)
    ensures var r := StoreLoop(ordered, existing);
            && existing <= r.keys
            && (forall k :: 0 <= k < |r.rows| ==> RowKey(r.rows[k]) in r.keys - existing)
            && (forall i, j :: 0 <= i < j < |r.rows| ==> RowKey(r.rows[i]) != RowKey(r.rows[j]))
    decreases |ordered|
  {
    if ordered != [] {
      var prefix := ordered[..|ordered| - 1];
      var event := ordered[|ordered| - 1];
      StoreLoopRows(prefix, existing);
      var before := StoreLoop(prefix, existing);
      var r := StoreLoop(ordered, existing);
      if KeyOf(event) !in before.keys {
        assert r.rows == before.rows + [RowOf(event)];
        forall k | 0 <= k < |r.rows| ensures RowKey(r.rows[k]) in r.keys - existing {
          if k < |before.rows| {
            assert r.rows[k] == before.rows[k];
          }
        }
        forall i, j | 0 <= i < j < |r.rows| ensures RowKey(r.rows[i]) != RowKey(r.rows[j]) {
          assert r.rows[i] == before.rows[i];
          if j < |before.rows| {
            assert r.rows[j] == before.rows[j];
          }
        }
      }
    }
  }

  datatype StoreResult = StoreResult(rows: seq<TradeEventRow>, insertedCount: nat, committed: bool)

  /** What `store_trade_events` writes and returns, given the stored keys. */
  ghost function StoreTradeEventsOf(events: seq<NormalizedTrade>, stored: set<DedupeKey>): StoreResult {
    if events == [] then StoreResult([], 0, false)
    else
      var run := StoreLoop(SortBy(events, EventOrderLe), ExistingKeys(stored, events));
      StoreResult(run.rows, run.insertedCount, run.insertedCount > 0)
  }

  /**
   * `store_trade_events`: events are sorted by (timestamp, order id); an
   * event whose key is already stored, or was inserted earlier in the
   * batch, is skipped; otherwise its row is added. It commits only when
   * something was inserted. `existing` is the result of the existing-row
   * query.
   */
  method StoreTradeEvents(events: seq<NormalizedTrade>, ghost stored: set<DedupeKey>, existing: set<DedupeKey>)
    returns (result: StoreResult)
    requires existing == ExistingKeys(stored, events)
    ensures result == StoreTradeEventsOf(events, stored)
  {
    if events == [] {
      return StoreResult([], 0, false);
    }
    var ordered := SortBy(events, EventOrderLe);
    var existingKeys := existing;
    var rows: seq<TradeEventRow> := [];
    var insertedCount: nat := 0;
    for i := 0 to |ordered|
      invariant StoreRun(existingKeys, rows, insertedCount) == StoreLoop(ordered[..i], existing)
    {
      assert ordered[..i + 1][..i] == ordered[..i];
      var event := ordered[i];
      var dedupeKey := KeyOf(event);
      if dedupeKey in existingKeys {
        continue;
      }
      rows := rows + [RowOf(event)];
      existingKeys := existingKeys + {dedupeKey};
      insertedCount := insertedCount + 1;
    }
    assert ordered[..|ordered|] == ordered;
    result := StoreResult(rows, insertedCount, insertedCount > 0);
  }

  /**
   * What storing a batch promises: an empty batch inserts nothing; the
   * count is the number of rows, at most the number of events, and exactly
   * the number of distinct event keys that were not stored yet; each new
   * row is for one such key, no key twice; and the batch commits iff it
   * inserted something.
   */
  lemma StoreTradeEventsFacts(events: seq<NormalizedTrade>, stored: set<DedupeKey>)
    ensures events == [] ==> StoreTradeEventsOf(events, stored) == StoreResult([], 0, false)
    ensures var r := StoreTradeEventsOf(events, stored);
            && r.insertedCount == |r.rows| <= |events|
            && r.insertedCount == |EventKeys(events) - stored|
            && (forall k :: 0 <= k < |r.rows| ==> RowKey(r.rows[k]) in EventKeys(events) - stored)
            && (forall i, j :: 0 <= i < j < |r.rows| ==> RowKey(r.rows[i]) != RowKey(r.rows[j]))
            && (r.committed <==> r.insertedCount > 0)
  {
    if events != [] {
      var ordered := SortBy(events, EventOrderLe);
      var existing := ExistingKeys(stored, events);
      StoreLoopFacts(ordered, existing);
      assert EventKeys(ordered) == EventKeys(events) by {
        PermutationMembers(ordered, events);
        forall key | key in EventKeys(ordered) ensures key in EventKeys(events) {
          var e :| e in ordered && KeyOf(e) == key;
        }
        forall key | key in EventKeys(events) ensures key in EventKeys(ordered) {
          var e :| e in events && KeyOf(e) == key;
        }
      }
      assert EventKeys(events) - existing == EventKeys(events) - stored by {
        forall key | key in EventKeys(events) ensures key in existing <==> key in stored {
          var e :| e in events && KeyOf(e) == key;
          ExistingKeysCoverBatch(stored, events, e);
        }
      }
    }
  }

  // The sync window of `refresh_account_trades`.

  const MICROSECONDS_PER_MINUTE := 60_000_000
  const MICROSECONDS_PER_DAY := 86_400_000_000

  /** How far before the latest stored execution a refresh starts again. */
  const RESYNC_OVERLAP := 5 * MICROSECONDS_PER_MINUTE

  datatype SyncWindow = SyncWindow(start: int, end: int)

  /**
   * The fetch window: the end is the given end or now; the start is the
   * given start, else five minutes before the latest stored execution, else
   * `lookbackDays` before now. A start after the end is an error.
   */
  function SyncWindowOf(now: int, start: Option<int>, end: Option<int>, latest: Option<int>, lookbackDays: int)
    : (r: Result<SyncWindow, string>)
    ensures r.Success? ==> r.value.start <= r.value.end
    ensures r.Success? ==> r.value.end == end.GetOr(now)
    ensures r.Success? && start.Some? ==> r.value.start == start.value
    ensures r.Success? && start.None? && latest.Some? ==> r.value.start == latest.value - RESYNC_OVERLAP
    ensures r.Success? && start.None? && latest.None? ==>
              r.value.start == now - lookbackDays * MICROSECONDS_PER_DAY
    ensures r.Failure? ==> r.error == "start must be before end"
  {
    var endUtc := end.GetOr(now);
    var startUtc :=
      if start.Some? then start.value
      else if latest.Some? then latest.value - RESYNC_OVERLAP
      else now - lookbackDays * MICROSECONDS_PER_DAY;
    if startUtc > endUtc then Failure("start must be before end") else Success(SyncWindow(startUtc, endUtc))
  }

  /** The window is rejected exactly when its start would come after its end. */
  lemma SyncWindowFailsIffInverted(now: int, start: Option<int>, end: Option<int>, latest: Option<int>, lookbackDays: int)
    ensures SyncWindowOf(now, start, end, latest, lookbackDays).Failure? <==>
              (if start.Some? then start.value
               else if latest.Some? then latest.value - RESYNC_OVERLAP
               else now - lookbackDays * MICROSECONDS_PER_DAY) > end.GetOr(now)
  {
  }

  /** Without explicit bounds, a non-negative lookback always gives a window. */
  lemma DefaultWindowSucceeds(now: int, latest: Option<int>, lookbackDays: int)
    requires lookbackDays >= 0
    requires latest.Some? ==> latest.value - RESYNC_OVERLAP <= now
    ensures SyncWindowOf(now, None, None, latest, lookbackDays).Success?
  {
  }

  // Serialising a stored row.

  /** `row.symbol or row.contract_id`: a missing or empty symbol shows the contract id. */
  function SerializedSymbol(symbol: Option<string>, contractId: string): (r: string)
    ensures symbol.Some? && symbol.value != "" ==> r == symbol.value
    ensures symbol.None? || symbol.value == "" ==> r == contractId
    ensures r == "" ==> contractId == ""
  {
    if symbol.Some? && symbol.value != "" then symbol.value else contractId
  }
}
