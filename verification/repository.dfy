/**
 * The notifier's store: four tables (channels, stocks, the stocks each
 * channel follows, and each channel's notification schedules) with the
 * primary-key, uniqueness and foreign-key constraints of the schema, and the
 * repository operations over them.
 *
 * Tables are sequences in insertion order, which stands for both the engine's
 * row order and `ORDER BY created_at`. Each table change is a function on
 * table values, and the `Repository` methods apply it to their fields.
 */
module Store {
  import opened Common

  datatype ChannelRow = ChannelRow(channelId: string, guildId: string)

  /** `Stock`; `None` is a NULL name. */
  datatype StockRow = StockRow(id: nat, ticker: string, name: Option<string>)

  datatype ChannelStockRow = ChannelStockRow(channelId: string, stockId: nat, addedBy: string)

  /** `Schedule`. */
  datatype ScheduleRow = ScheduleRow(id: nat, channelId: string, cronExpression: string)

  /** A row of `getAllScheduledChannels`. */
  datatype ScheduledChannel = ScheduledChannel(channelId: string, cronExpression: string)

  /** A stock as `getGuildOverview` lists it. */
  datatype StockSummary = StockSummary(ticker: string, name: Option<string>)

  /** `ChannelInfo`. */
  datatype ChannelInfo = ChannelInfo(channelId: string, guildId: string, stocks: seq<StockSummary>, schedules: seq<string>)

  /** A constraint failure the repository lets escape. */
  datatype StoreError = ForeignKeyViolation

  predicate NoDup<T(==)>(s: seq<T>) {
    forall i, j :: 0 <= i < j < |s| ==> s[i] != s[j]
  }

  lemma NoDupSnoc<T>(s: seq<T>, x: T)
    requires NoDup(s) && x !in s
    ensures NoDup(s + [x])
  {
  }

  /** A JavaScript-truthy name: present and not empty. */
  predicate Truthy(name: Option<string>) {
    name.Some? && name.value != ""
  }

  // ---------------------------------------------------------------------
  // Column projections
  // ---------------------------------------------------------------------

  function ChannelIds(rows: seq<ChannelRow>): (ids: seq<string>)
    ensures |ids| == |rows| && forall i :: 0 <= i < |rows| ==> ids[i] == rows[i].channelId
  {
    seq(|rows|, i requires 0 <= i < |rows| => rows[i].channelId)
  }

  function StockIds(rows: seq<StockRow>): (ids: seq<nat>)
    ensures |ids| == |rows| && forall i :: 0 <= i < |rows| ==> ids[i] == rows[i].id
  {
    seq(|rows|, i requires 0 <= i < |rows| => rows[i].id)
  }

  function Tickers(rows: seq<StockRow>): (ts: seq<string>)
    ensures |ts| == |rows| && forall i :: 0 <= i < |rows| ==> ts[i] == rows[i].ticker
  {
    seq(|rows|, i requires 0 <= i < |rows| => rows[i].ticker)
  }

  /** The primary key of `channel_stocks`. */
  function Pairs(rows: seq<ChannelStockRow>): (ps: seq<(string, nat)>)
    ensures |ps| == |rows| && forall i :: 0 <= i < |rows| ==> ps[i] == (rows[i].channelId, rows[i].stockId)
  {
    seq(|rows|, i requires 0 <= i < |rows| => (rows[i].channelId, rows[i].stockId))
  }

  function ScheduleIds(rows: seq<ScheduleRow>): (ids: seq<nat>)
    ensures |ids| == |rows| && forall i :: 0 <= i < |rows| ==> ids[i] == rows[i].id
  {
    seq(|rows|, i requires 0 <= i < |rows| => rows[i].id)
  }

  /** The `stocks` table's constraints: unique tickers, unique ids, and every id below the next one handed out. */
  predicate StocksValid(stocks: seq<StockRow>, nextId: nat) {
    && NoDup(Tickers(stocks))
    && NoDup(StockIds(stocks))
    && forall i :: 0 <= i < |stocks| ==> stocks[i].id < nextId
  }

  // ---------------------------------------------------------------------
  // channels
  // ---------------------------------------------------------------------

  /** The guild recorded for a channel. */
  function GuildOf(channels: seq<ChannelRow>, channelId: string): (g: Option<string>)
    ensures g.None? <==> channelId !in ChannelIds(channels)
    ensures g.Some? ==> ChannelRow(channelId, g.value) in channels
  {
    if channels == [] then None
    else if channels[0].channelId == channelId then Some(channels[0].guildId)
    else
      assert ChannelIds(channels) == [channels[0].channelId] + ChannelIds(channels[1..]);
      GuildOf(channels[1..], channelId)
  }

  /** `INSERT OR IGNORE INTO channels`: add the channel unless a row with its id exists. */
  function EnsuredChannels(channels: seq<ChannelRow>, channelId: string, guildId: string): (r: seq<ChannelRow>)
    ensures channelId in ChannelIds(r)
    ensures forall c :: c in ChannelIds(channels) ==> c in ChannelIds(r)
  {
    if channelId in ChannelIds(channels) then channels
    else
      assert ChannelIds(channels + [ChannelRow(channelId, guildId)]) == ChannelIds(channels) + [channelId];
      channels + [ChannelRow(channelId, guildId)]
  }

  lemma GuildOfSnoc(channels: seq<ChannelRow>, row: ChannelRow, c: string)
    requires row.channelId !in ChannelIds(channels)
    ensures GuildOf(channels + [row], c) == if c == row.channelId then Some(row.guildId) else GuildOf(channels, c)
    decreases |channels|
  {
    if channels != [] {
      assert (channels + [row])[1..] == channels[1..] + [row];
      assert ChannelIds(channels) == [channels[0].channelId] + ChannelIds(channels[1..]);
      if channels[0].channelId != c {
        GuildOfSnoc(channels[1..], row, c);
      }
    }
  }

  /**
   * Ensuring a channel keeps the channel ids unique, never changes the guild
   * recorded for an existing channel (its own included), records the given
   * guild for a new one, and is idempotent.
   */
  lemma EnsureChannelFacts(channels: seq<ChannelRow>, channelId: string, guildId: string, c: string)
    requires NoDup(ChannelIds(channels))
    ensures var r := EnsuredChannels(channels, channelId, guildId);
            && NoDup(ChannelIds(r))
            && GuildOf(r, c) == (if c == channelId && GuildOf(channels, c).None? then Some(guildId) else GuildOf(channels, c))
            && EnsuredChannels(r, channelId, guildId) == r
  {
    if channelId !in ChannelIds(channels) {
      var row := ChannelRow(channelId, guildId);
      assert ChannelIds(channels + [row]) == ChannelIds(channels) + [channelId];
      NoDupSnoc(ChannelIds(channels), channelId);
      GuildOfSnoc(channels, row, c);
    }
  }

  // ---------------------------------------------------------------------
  // stocks
  // ---------------------------------------------------------------------

  /** The position of the row with the given ticker. */
  function FindByTicker(stocks: seq<StockRow>, ticker: string): (i: Option<nat>)
    ensures i.Some? ==> i.value < |stocks| && stocks[i.value].ticker == ticker
    ensures i.None? <==> ticker !in Tickers(stocks)
  {
    if stocks == [] then None
    else if stocks[0].ticker == ticker then Some(0)
    else
      TickersCons(stocks);
      match FindByTicker(stocks[1..], ticker)
      case None =>
        assert ticker !in [stocks[0].ticker];
        None
      case Some(i) =>
        assert stocks[i + 1] == stocks[1..][i];
        Some(i + 1)
  }

  lemma TickersCons(stocks: seq<StockRow>)
    requires stocks != []
    ensures Tickers(stocks) == [stocks[0].ticker] + Tickers(stocks[1..])
  {
  }

  /** `findStockByTicker`. */
  function StockByTicker(stocks: seq<StockRow>, ticker: string): (s: Option<StockRow>)
    ensures s.Some? ==> s.value in stocks && s.value.ticker == ticker
    ensures s.None? <==> ticker !in Tickers(stocks)
  {
    match FindByTicker(stocks, ticker)
    case None => None
    case Some(i) => Some(stocks[i])
  }

  /** With unique tickers, the row found for a ticker is the only one carrying it. */
  lemma StockByTickerUnique(stocks: seq<StockRow>, i: int)
    requires NoDup(Tickers(stocks)) && 0 <= i < |stocks|
    ensures StockByTicker(stocks, stocks[i].ticker) == Some(stocks[i])
  {
    var k := FindByTicker(stocks, stocks[i].ticker).value;
    assert Tickers(stocks)[k] == Tickers(stocks)[i];
  }

  /** The stocks table, the next id and the returned id after `upsertStock`. */
  datatype Upserted = Upserted(stocks: seq<StockRow>, nextId: nat, id: nat)

  /**
   * `upsertStock`: an existing ticker keeps its row and id, and its name is
   * filled in only when the new name is truthy and the stored one is not; a
   * new ticker gets a row with the next id.
   */
  function Upsert(stocks: seq<StockRow>, nextId: nat, ticker: string, name: Option<string>): (u: Upserted)
    ensures u.nextId >= nextId && |u.stocks| >= |stocks|
  {
    match FindByTicker(stocks, ticker)
    case Some(i) =>
      var existing := stocks[i];
      if Truthy(name) && !Truthy(existing.name) then
        Upserted(stocks[i := existing.(name := name)], nextId, existing.id)
      else
        Upserted(stocks, nextId, existing.id)
    case None =>
      Upserted(stocks + [StockRow(nextId, ticker, name)], nextId + 1, nextId)
  }

  /** Upserting keeps the table's constraints and every existing id, so references to stocks stay valid. */
  lemma UpsertKeepsValid(stocks: seq<StockRow>, nextId: nat, ticker: string, name: Option<string>)
    requires StocksValid(stocks, nextId)
    ensures var u := Upsert(stocks, nextId, ticker, name);
            StocksValid(u.stocks, u.nextId) && forall id :: id in StockIds(stocks) ==> id in StockIds(u.stocks)
  {
    var u := Upsert(stocks, nextId, ticker, name);
    match FindByTicker(stocks, ticker)
    case Some(i) =>
      assert Tickers(u.stocks) == Tickers(stocks);
      assert StockIds(u.stocks) == StockIds(stocks);
    case None =>
      var row := StockRow(nextId, ticker, name);
      assert Tickers(stocks + [row]) == Tickers(stocks) + [ticker];
      assert StockIds(stocks + [row]) == StockIds(stocks) + [nextId];
      NoDupSnoc(Tickers(stocks), ticker);
      NoDupSnoc(StockIds(stocks), nextId);
  }

  /**
   * After an upsert, looking the ticker up finds the returned id, and its name
   * is the new one exactly when the ticker is new, or the new name is truthy
   * and the old one was not.
   */
  lemma UpsertFinds(stocks: seq<StockRow>, nextId: nat, ticker: string, name: Option<string>)
    requires StocksValid(stocks, nextId)
    ensures var u := Upsert(stocks, nextId, ticker, name);
            var before := StockByTicker(stocks, ticker);
            && StockByTicker(u.stocks, ticker).Some?
            && StockByTicker(u.stocks, ticker).value.id == u.id
            && (before.Some? ==> u.id == before.value.id && u.nextId == nextId)
            && (before.None? ==> u.id == nextId && u.nextId == nextId + 1)
            && StockByTicker(u.stocks, ticker).value.name ==
                 (if before.None? || (Truthy(name) && !Truthy(before.value.name)) then name else before.value.name)
  {
    var u := Upsert(stocks, nextId, ticker, name);
    UpsertKeepsValid(stocks, nextId, ticker, name);
    match FindByTicker(stocks, ticker)
    case Some(i) =>
      StockByTickerUnique(u.stocks, i);
    case None =>
      StockByTickerUnique(u.stocks, |stocks|);
  }

  /** An upsert leaves every other ticker's row as it was. */
  lemma UpsertLeavesOthers(stocks: seq<StockRow>, nextId: nat, ticker: string, name: Option<string>, other: string)
    requires StocksValid(stocks, nextId) && other != ticker
    ensures StockByTicker(Upsert(stocks, nextId, ticker, name).stocks, other) == StockByTicker(stocks, other)
  {
    var u := Upsert(stocks, nextId, ticker, name);
    UpsertKeepsValid(stocks, nextId, ticker, name);
    match FindByTicker(stocks, other)
    case None =>
      if FindByTicker(stocks, ticker).Some? {
        assert Tickers(u.stocks) == Tickers(stocks);
      } else {
        assert Tickers(u.stocks) == Tickers(stocks) + [ticker];
      }
    case Some(k) =>
      StockByTickerUnique(stocks, k);
      assert u.stocks[k] == stocks[k];
      StockByTickerUnique(u.stocks, k);
  }

  /** Upserting the same ticker and name again changes nothing and returns the same id. */
  lemma UpsertIdempotent(stocks: seq<StockRow>, nextId: nat, ticker: string, name: Option<string>)
    requires StocksValid(stocks, nextId)
    ensures var u := Upsert(stocks, nextId, ticker, name);
            Upsert(u.stocks, u.nextId, ticker, name) == u
  {
    var u := Upsert(stocks, nextId, ticker, name);
    UpsertKeepsValid(stocks, nextId, ticker, name);
    UpsertFinds(stocks, nextId, ticker, name);
    var k := FindByTicker(u.stocks, ticker).value;
    StockByTickerUnique(u.stocks, k);
    assert !(Truthy(name) && !Truthy(u.stocks[k].name));
  }

  // ---------------------------------------------------------------------
  // channel_stocks
  // ---------------------------------------------------------------------

  /** The `channel_stocks` table and the result of `addChannelStock`'s insert. */
  datatype Added = Added(rows: seq<ChannelStockRow>, outcome: Result<bool, StoreError>)

  /**
   * The insert of `addChannelStock`: a duplicate `(channel, stock)` key is
   * reported as `false`, a stock id with no stock row violates the foreign
   * key, and otherwise the row is appended.
   */
  function AddPair(rows: seq<ChannelStockRow>, stockIds: seq<nat>, channelId: string, stockId: nat, addedBy: string): (a: Added)
    ensures a.outcome == Ok(true) <==> a.rows != rows
    ensures (channelId, stockId) in Pairs(a.rows) <==> a.outcome.Ok?
    ensures (channelId, stockId) in Pairs(rows) ==> a == Added(rows, Ok(false))
    ensures (channelId, stockId) !in Pairs(rows) && stockId !in stockIds ==> a == Added(rows, Err(ForeignKeyViolation))
    ensures (channelId, stockId) !in Pairs(rows) && stockId in stockIds ==>
      a == Added(rows + [ChannelStockRow(channelId, stockId, addedBy)], Ok(true))
  {
    if (channelId, stockId) in Pairs(rows) then Added(rows, Ok(false))
    else if stockId !in stockIds then Added(rows, Err(ForeignKeyViolation))
    else
      var row := ChannelStockRow(channelId, stockId, addedBy);
      assert Pairs(rows + [row]) == Pairs(rows) + [(channelId, stockId)];
      assert |rows + [row]| != |rows|;
      Added(rows + [row], Ok(true))
  }

  /** Adding keeps the key unique. */
  lemma AddPairKeepsKey(rows: seq<ChannelStockRow>, stockIds: seq<nat>, channelId: string, stockId: nat, addedBy: string)
    requires NoDup(Pairs(rows))
    ensures NoDup(Pairs(AddPair(rows, stockIds, channelId, stockId, addedBy).rows))
  {
    if (channelId, stockId) !in Pairs(rows) && stockId in stockIds {
      var row := ChannelStockRow(channelId, stockId, addedBy);
      assert Pairs(rows + [row]) == Pairs(rows) + [(channelId, stockId)];
      NoDupSnoc(Pairs(rows), (channelId, stockId));
    }
  }

  /** `DELETE FROM channel_stocks WHERE channel_id = ? AND stock_id = ?`. */
  function RemovePair(rows: seq<ChannelStockRow>, channelId: string, stockId: nat): (r: seq<ChannelStockRow>)
    ensures |r| <= |rows|
  {
    if rows == [] then []
    else
      var rest := RemovePair(rows[1..], channelId, stockId);
      if (rows[0].channelId, rows[0].stockId) == (channelId, stockId) then rest else [rows[0]] + rest
  }

  lemma PairsCons(x: ChannelStockRow, rows: seq<ChannelStockRow>)
    ensures Pairs([x] + rows) == [(x.channelId, x.stockId)] + Pairs(rows)
  {
  }

  /** A key occurs in the table exactly when some row carries it. */
  lemma KeyInPairs(rows: seq<ChannelStockRow>, key: (string, nat))
    ensures key in Pairs(rows) <==> exists x :: x in rows && (x.channelId, x.stockId) == key
  {
    if key in Pairs(rows) {
      var k :| 0 <= k < |rows| && Pairs(rows)[k] == key;
      assert rows[k] in rows;
    }
    if exists x :: x in rows && (x.channelId, x.stockId) == key {
      var x :| x in rows && (x.channelId, x.stockId) == key;
      var k :| 0 <= k < |rows| && rows[k] == x;
      assert Pairs(rows)[k] == key;
    }
  }

  /** The delete keeps exactly the rows with another key. */
  lemma {:induction false} RemovePairMembers(rows: seq<ChannelStockRow>, channelId: string, stockId: nat)
    ensures forall x :: x in RemovePair(rows, channelId, stockId) <==> x in rows && (x.channelId, x.stockId) != (channelId, stockId)
    decreases |rows|
  {
    if rows != [] {
      RemovePairMembers(rows[1..], channelId, stockId);
      assert forall x :: x in rows <==> x == rows[0] || x in rows[1..];
    }
  }

  /** The delete changes the table exactly when a row with that key was there. */
  lemma {:induction false} RemovePairChanges(rows: seq<ChannelStockRow>, channelId: string, stockId: nat)
    ensures |RemovePair(rows, channelId, stockId)| < |rows| <==> (channelId, stockId) in Pairs(rows)
    decreases |rows|
  {
    if rows != [] {
      var head := (rows[0].channelId, rows[0].stockId);
      RemovePairChanges(rows[1..], channelId, stockId);
      PairsCons(rows[0], rows[1..]);
      assert [rows[0]] + rows[1..] == rows;
    }
  }

  /** After the delete no row carries the key. */
  lemma RemovedKeyAbsent(rows: seq<ChannelStockRow>, channelId: string, stockId: nat)
    ensures (channelId, stockId) !in Pairs(RemovePair(rows, channelId, stockId))
  {
    RemovePairMembers(rows, channelId, stockId);
    KeyInPairs(RemovePair(rows, channelId, stockId), (channelId, stockId));
  }

  /** Removing a pair just added gives the table back. */
  lemma AddThenRemove(rows: seq<ChannelStockRow>, stockIds: seq<nat>, channelId: string, stockId: nat, addedBy: string)
    requires (channelId, stockId) !in Pairs(rows)
    ensures RemovePair(AddPair(rows, stockIds, channelId, stockId, addedBy).rows, channelId, stockId) == rows
  {
    RemoveAbsentPair(rows, channelId, stockId);
    if stockId in stockIds {
      RemoveLastPair(rows, ChannelStockRow(channelId, stockId, addedBy));
    }
  }

  lemma {:induction false} RemoveAbsentPair(rows: seq<ChannelStockRow>, channelId: string, stockId: nat)
    requires (channelId, stockId) !in Pairs(rows)
    ensures RemovePair(rows, channelId, stockId) == rows
    decreases |rows|
  {
    if rows != [] {
      PairsCons(rows[0], rows[1..]);
      assert [rows[0]] + rows[1..] == rows;
      RemoveAbsentPair(rows[1..], channelId, stockId);
    }
  }

  lemma {:induction false} RemoveLastPair(rows: seq<ChannelStockRow>, row: ChannelStockRow)
    requires (row.channelId, row.stockId) !in Pairs(rows)
    ensures RemovePair(rows + [row], row.channelId, row.stockId) == rows
    decreases |rows|
  {
    if rows == [] {
      assert [row][1..] == [];
    } else {
      PairsCons(rows[0], rows[1..]);
      assert [rows[0]] + rows[1..] == rows;
      assert (rows + [row])[1..] == rows[1..] + [row];
      RemoveLastPair(rows[1..], row);
    }
  }

  lemma NoDupCons<T>(x: T, s: seq<T>)
    requires NoDup(s) && x !in s
    ensures NoDup([x] + s)
  {
    var t := [x] + s;
    forall i, j | 0 <= i < j < |t|
      ensures t[i] != t[j]
    {
      assert t[j] == s[j - 1];
      if i > 0 {
        assert t[i] == s[i - 1];
      }
    }
  }

  lemma NoDupTail<T>(s: seq<T>)
    requires NoDup(s) && s != []
    ensures NoDup(s[1..]) && s[0] !in s[1..]
  {
    forall i, j | 0 <= i < j < |s| - 1
      ensures s[1..][i] != s[1..][j]
    {
      assert s[i + 1] != s[j + 1];
    }
    forall k | 0 <= k < |s| - 1
      ensures s[1..][k] != s[0]
    {
      assert s[k + 1] != s[0];
    }
  }

  /** Removing keeps the key unique. */
  lemma {:induction false} RemovePairKeepsKey(rows: seq<ChannelStockRow>, channelId: string, stockId: nat)
    requires NoDup(Pairs(rows))
    ensures NoDup(Pairs(RemovePair(rows, channelId, stockId)))
    decreases |rows|
  {
    if rows != [] {
      var head := (rows[0].channelId, rows[0].stockId);
      PairsCons(rows[0], rows[1..]);
      assert [rows[0]] + rows[1..] == rows;
      NoDupTail(Pairs(rows));
      RemovePairKeepsKey(rows[1..], channelId, stockId);
      var rest := RemovePair(rows[1..], channelId, stockId);
      if head != (channelId, stockId) {
        PairsCons(rows[0], rest);
        RemovePairMembers(rows[1..], channelId, stockId);
        KeyInPairs(rest, head);
        KeyInPairs(rows[1..], head);
        NoDupCons(head, Pairs(rest));
      }
    }
  }

  /** The row of the stock with the given id. */
  function StockById(stocks: seq<StockRow>, id: nat): (s: Option<StockRow>)
    ensures s.Some? ==> s.value in stocks && s.value.id == id
    ensures s.None? <==> id !in StockIds(stocks)
  {
    if stocks == [] then None
    else if stocks[0].id == id then Some(stocks[0])
    else
      assert StockIds(stocks) == [stocks[0].id] + StockIds(stocks[1..]);
      StockById(stocks[1..], id)
  }

  /** A stored stock is found by its id, and with unique ids it is the row found. */
  lemma StockByIdOf(stocks: seq<StockRow>, i: int)
    requires 0 <= i < |stocks|
    ensures StockById(stocks, stocks[i].id).Some?
    ensures NoDup(StockIds(stocks)) ==> StockById(stocks, stocks[i].id) == Some(stocks[i])
  {
    var ids := StockIds(stocks);
    var id := stocks[i].id;
    assert ids[i] == id;
    var found := StockById(stocks, id);
    if NoDup(ids) {
      var j :| 0 <= j < |stocks| && stocks[j] == found.value;
      assert ids[j] == id;
      assert j == i;
    }
  }

  /** Every stored stock is found by its id, and with unique ids it is the row found. */
  lemma StockByIdFinds(stocks: seq<StockRow>, id: nat)
    ensures forall s :: s in stocks && s.id == id ==> StockById(stocks, id).Some?
    ensures NoDup(StockIds(stocks)) ==> forall s :: s in stocks && s.id == id ==> StockById(stocks, id) == Some(s)
  {
    forall s | s in stocks && s.id == id
      ensures StockById(stocks, id).Some?
      ensures NoDup(StockIds(stocks)) ==> StockById(stocks, id) == Some(s)
    {
      var i :| 0 <= i < |stocks| && stocks[i] == s;
      StockByIdOf(stocks, i);
    }
  }

  /**
   * `getChannelStocks`: the channel's stocks, in the order they were added.
   * Only stored stocks linked to the channel are returned, and with unique
   * stock ids every one of them is.
   */
  function ChannelStocks(rows: seq<ChannelStockRow>, stocks: seq<StockRow>, channelId: string): (r: seq<StockRow>)
    ensures |r| <= |rows|
    ensures forall s :: s in r ==> s in stocks && ChannelStockRow(channelId, s.id, "") in AnyAddedBy(rows)
    ensures NoDup(StockIds(stocks)) ==>
      forall s :: s in stocks && ChannelStockRow(channelId, s.id, "") in AnyAddedBy(rows) ==> s in r
  {
    if rows == [] then []
    else
      var rest := ChannelStocks(rows[1..], stocks, channelId);
      var head := rows[0];
      assert AnyAddedBy(rows) == [head.(addedBy := "")] + AnyAddedBy(rows[1..]);
      StockByIdFinds(stocks, head.stockId);
      if head.channelId == channelId && StockById(stocks, head.stockId).Some? then
        [StockById(stocks, head.stockId).value] + rest
      else rest
  }

  /** The stocks of two runs of link rows are those of the first run, then those of the second: link order is kept. */
  lemma {:induction false} ChannelStocksAppend(a: seq<ChannelStockRow>, b: seq<ChannelStockRow>, stocks: seq<StockRow>, channelId: string)
    ensures ChannelStocks(a + b, stocks, channelId) == ChannelStocks(a, stocks, channelId) + ChannelStocks(b, stocks, channelId)
    decreases |a|
  {
    if a == [] {
      assert a + b == b;
    } else {
      assert (a + b)[1..] == a[1..] + b;
      ChannelStocksAppend(a[1..], b, stocks, channelId);
    }
  }

  /** The rows with the `added_by` column blanked out, to speak of which `(channel, stock)` keys occur. */
  function AnyAddedBy(rows: seq<ChannelStockRow>): (r: seq<ChannelStockRow>)
    ensures |r| == |rows| && forall i :: 0 <= i < |rows| ==> r[i] == rows[i].(addedBy := "")
  {
    seq(|rows|, i requires 0 <= i < |rows| => rows[i].(addedBy := ""))
  }

  /** The tickers of every channel's stocks, with repeats, in row order. */
  function LinkedTickers(rows: seq<ChannelStockRow>, stocks: seq<StockRow>): (ts: seq<string>)
    ensures forall t :: t in ts ==> t in Tickers(stocks)
  {
    if rows == [] then []
    else
      var rest := LinkedTickers(rows[1..], stocks);
      match StockById(stocks, rows[0].stockId)
      case None => rest
      case Some(s) =>
        assert exists i :: 0 <= i < |stocks| && stocks[i] == s;
        [s.ticker] + rest
  }

  /** `SELECT DISTINCT`: the first occurrence of each value, in order. */
  function Distinct<T(==,!new)>(s: seq<T>): (r: seq<T>)
    ensures NoDup(r)
    ensures forall x :: x in r <==> x in s
  {
    if s == [] then []
    else
      var d := Distinct(s[..|s| - 1]);
      assert forall x :: x in s <==> x in s[..|s| - 1] || x == s[|s| - 1];
      if s[|s| - 1] in d then d else d + [s[|s| - 1]]
  }

  /** `getAllUniqueTickers`: every ticker some channel follows, once each. */
  function UniqueTickers(rows: seq<ChannelStockRow>, stocks: seq<StockRow>): (ts: seq<string>)
    ensures NoDup(ts)
    ensures forall t :: t in ts <==> t in LinkedTickers(rows, stocks)
  {
    Distinct(LinkedTickers(rows, stocks))
  }

  /** A followed stock's ticker is among the unique tickers, once. */
  lemma {:induction false} FollowedTickerIsListed(rows: seq<ChannelStockRow>, stocks: seq<StockRow>, i: int)
    requires 0 <= i < |rows| && StockById(stocks, rows[i].stockId).Some?
    ensures StockById(stocks, rows[i].stockId).value.ticker in UniqueTickers(rows, stocks)
    decreases |rows|
  {
    if i > 0 {
      FollowedTickerIsListed(rows[1..], stocks, i - 1);
    }
  }

  // ---------------------------------------------------------------------
  // schedules
  // ---------------------------------------------------------------------

  /** `getSchedules`: the channel's schedules, in row order. */
  function SchedulesOf(rows: seq<ScheduleRow>, channelId: string): (r: seq<ScheduleRow>)
    ensures |r| <= |rows|
  {
    if rows == [] then []
    else
      var rest := SchedulesOf(rows[1..], channelId);
      if rows[0].channelId == channelId then [rows[0]] + rest else rest
  }

  /** A channel's schedules are exactly the rows that name it. */
  lemma {:induction false} SchedulesOfMembers(rows: seq<ScheduleRow>, channelId: string)
    ensures forall x :: x in SchedulesOf(rows, channelId) <==> x in rows && x.channelId == channelId
    decreases |rows|
  {
    if rows != [] {
      SchedulesOfMembers(rows[1..], channelId);
      assert forall x :: x in rows <==> x == rows[0] || x in rows[1..];
    }
  }

  /** `DELETE FROM schedules WHERE channel_id = ?`. */
  function WithoutChannel(rows: seq<ScheduleRow>, channelId: string): (r: seq<ScheduleRow>)
    ensures |r| <= |rows|
  {
    if rows == [] then []
    else
      var rest := WithoutChannel(rows[1..], channelId);
      if rows[0].channelId != channelId then [rows[0]] + rest else rest
  }

  /** The delete keeps exactly the other channels' rows. */
  lemma {:induction false} WithoutChannelMembers(rows: seq<ScheduleRow>, channelId: string)
    ensures forall x :: x in WithoutChannel(rows, channelId) <==> x in rows && x.channelId != channelId
    decreases |rows|
  {
    if rows != [] {
      WithoutChannelMembers(rows[1..], channelId);
      assert forall x :: x in rows <==> x == rows[0] || x in rows[1..];
    }
  }

  /** The rows the insert loop adds, with consecutive ids from `firstId`. */
  function NewSchedules(firstId: nat, channelId: string, crons: seq<string>): (r: seq<ScheduleRow>)
    ensures |r| == |crons|
    ensures forall i :: 0 <= i < |crons| ==> r[i] == ScheduleRow(firstId + i, channelId, crons[i])
  {
    seq(|crons|, i requires 0 <= i < |crons| => ScheduleRow(firstId + i, channelId, crons[i]))
  }

  function Crons(rows: seq<ScheduleRow>): (cs: seq<string>)
    ensures |cs| == |rows| && forall i :: 0 <= i < |rows| ==> cs[i] == rows[i].cronExpression
  {
    seq(|rows|, i requires 0 <= i < |rows| => rows[i].cronExpression)
  }

  /** The schedules table and the next id after `setSchedules`. */
  datatype Replaced = Replaced(rows: seq<ScheduleRow>, nextId: nat)

  /** `setSchedules`' transaction: delete the channel's schedules, then insert one per cron, in order. */
  function ReplaceSchedules(rows: seq<ScheduleRow>, nextId: nat, channelId: string, crons: seq<string>): (r: Replaced)
    ensures r.nextId == nextId + |crons|
  {
    Replaced(WithoutChannel(rows, channelId) + NewSchedules(nextId, channelId, crons), nextId + |crons|)
  }

  lemma {:induction false} SchedulesOfAppend(a: seq<ScheduleRow>, b: seq<ScheduleRow>, c: string)
    ensures SchedulesOf(a + b, c) == SchedulesOf(a, c) + SchedulesOf(b, c)
    decreases |a|
  {
    if a == [] {
      assert a + b == b;
    } else {
      assert (a + b)[0] == a[0];
      assert (a + b)[1..] == a[1..] + b;
      SchedulesOfAppend(a[1..], b, c);
      if a[0].channelId == c {
        assert [a[0]] + (SchedulesOf(a[1..], c) + SchedulesOf(b, c)) == ([a[0]] + SchedulesOf(a[1..], c)) + SchedulesOf(b, c);
      }
    }
  }

  lemma {:induction false} SchedulesOfWithout(rows: seq<ScheduleRow>, channelId: string, c: string)
    ensures SchedulesOf(WithoutChannel(rows, channelId), c) == if c == channelId then [] else SchedulesOf(rows, c)
    decreases |rows|
  {
    if rows != [] {
      SchedulesOfWithout(rows[1..], channelId, c);
      var rest := WithoutChannel(rows[1..], channelId);
      if rows[0].channelId != channelId {
        assert ([rows[0]] + rest)[0] == rows[0] && ([rows[0]] + rest)[1..] == rest;
      }
    }
  }

  lemma {:induction false} SchedulesOfNew(firstId: nat, channelId: string, crons: seq<string>, c: string)
    ensures SchedulesOf(NewSchedules(firstId, channelId, crons), c) == if c == channelId then NewSchedules(firstId, channelId, crons) else []
    decreases |crons|
  {
    var r := NewSchedules(firstId, channelId, crons);
    if crons != [] {
      SchedulesOfNew(firstId + 1, channelId, crons[1..], c);
      assert r[1..] == NewSchedules(firstId + 1, channelId, crons[1..]);
      assert [r[0]] + r[1..] == r;
    }
  }

  /** After `setSchedules(c, crons)`, channel `c`'s schedules are exactly `crons`, in order, with fresh ids. */
  lemma ReplaceSchedulesOwn(rows: seq<ScheduleRow>, nextId: nat, channelId: string, crons: seq<string>)
    ensures SchedulesOf(ReplaceSchedules(rows, nextId, channelId, crons).rows, channelId) == NewSchedules(nextId, channelId, crons)
    ensures Crons(SchedulesOf(ReplaceSchedules(rows, nextId, channelId, crons).rows, channelId)) == crons
  {
    var inserted := NewSchedules(nextId, channelId, crons);
    SchedulesOfAppend(WithoutChannel(rows, channelId), inserted, channelId);
    SchedulesOfWithout(rows, channelId, channelId);
    SchedulesOfNew(nextId, channelId, crons, channelId);
    assert [] + inserted == inserted;
  }

  /** `setSchedules(c, crons)` leaves every other channel's schedules as they were. */
  lemma ReplaceSchedulesOthers(rows: seq<ScheduleRow>, nextId: nat, channelId: string, crons: seq<string>, other: string)
    requires other != channelId
    ensures SchedulesOf(ReplaceSchedules(rows, nextId, channelId, crons).rows, other) == SchedulesOf(rows, other)
  {
    var inserted := NewSchedules(nextId, channelId, crons);
    SchedulesOfAppend(WithoutChannel(rows, channelId), inserted, other);
    SchedulesOfWithout(rows, channelId, other);
    SchedulesOfNew(nextId, channelId, crons, other);
    assert SchedulesOf(rows, other) + [] == SchedulesOf(rows, other);
  }

  /** The schedules table's constraints: unique ids, each below the next one handed out. */
  predicate SchedulesValid(rows: seq<ScheduleRow>, nextId: nat) {
    && NoDup(ScheduleIds(rows))
    && forall i :: 0 <= i < |rows| ==> rows[i].id < nextId
  }

  lemma NoDupAppend<T>(a: seq<T>, b: seq<T>)
    requires NoDup(a) && NoDup(b)
    requires forall i, j :: 0 <= i < |a| && 0 <= j < |b| ==> a[i] != b[j]
    ensures NoDup(a + b)
  {
    var t := a + b;
    forall i, j | 0 <= i < j < |t|
      ensures t[i] != t[j]
    {
      if j < |a| {
        assert t[i] == a[i] && t[j] == a[j];
      } else if i >= |a| {
        assert t[i] == b[i - |a|] && t[j] == b[j - |a|];
      } else {
        assert t[i] == a[i] && t[j] == b[j - |a|];
      }
    }
  }

  /** The rows kept by the delete keep their ids unique and below the next id. */
  lemma {:induction false} WithoutKeepsValid(rows: seq<ScheduleRow>, nextId: nat, channelId: string)
    requires SchedulesValid(rows, nextId)
    ensures SchedulesValid(WithoutChannel(rows, channelId), nextId)
    decreases |rows|
  {
    if rows != [] {
      var rest := WithoutChannel(rows[1..], channelId);
      assert ScheduleIds(rows) == [rows[0].id] + ScheduleIds(rows[1..]);
      NoDupTail(ScheduleIds(rows));
      WithoutKeepsValid(rows[1..], nextId, channelId);
      if rows[0].channelId != channelId {
        assert ScheduleIds([rows[0]] + rest) == [rows[0].id] + ScheduleIds(rest);
        WithoutChannelMembers(rows[1..], channelId);
        forall k | 0 <= k < |rest|
          ensures ScheduleIds(rest)[k] != rows[0].id
        {
          assert rest[k] in rows[1..];
          var m :| 0 <= m < |rows[1..]| && rows[1..][m] == rest[k];
          assert ScheduleIds(rows[1..])[m] == rest[k].id;
        }
        NoDupCons(rows[0].id, ScheduleIds(rest));
      }
    }
  }

  /** Replacing keeps the ids unique and never reuses one. */
  lemma ReplaceKeepsValid(rows: seq<ScheduleRow>, nextId: nat, channelId: string, crons: seq<string>)
    requires SchedulesValid(rows, nextId)
    ensures var r := ReplaceSchedules(rows, nextId, channelId, crons); SchedulesValid(r.rows, r.nextId)
  {
    var kept := WithoutChannel(rows, channelId);
    var inserted := NewSchedules(nextId, channelId, crons);
    WithoutKeepsValid(rows, nextId, channelId);
    assert ScheduleIds(kept + inserted) == ScheduleIds(kept) + ScheduleIds(inserted);
    NoDupAppend(ScheduleIds(kept), ScheduleIds(inserted));
  }

  // ---------------------------------------------------------------------
  // Guild overview
  // ---------------------------------------------------------------------

  /** `getGuildOverview`: each channel of the guild, in table order, with its stocks and schedules. */
  function GuildOverview(channels: seq<ChannelRow>, stocks: seq<StockRow>, links: seq<ChannelStockRow>,
                         schedules: seq<ScheduleRow>, guildId: string): (r: seq<ChannelInfo>)
    ensures |r| <= |channels|
    ensures forall info :: info in r ==> info.guildId == guildId && ChannelRow(info.channelId, guildId) in channels
    ensures forall ch :: ch in channels && ch.guildId == guildId ==> ch.channelId in InfoChannelIds(r)
    ensures NoDup(ChannelIds(channels)) ==> NoDup(InfoChannelIds(r))
  {
    if channels == [] then []
    else
      var rest := GuildOverview(channels[1..], stocks, links, schedules, guildId);
      var ch := channels[0];
      if ch.guildId == guildId then
        var info := Entry(ch, stocks, links, schedules);
        OverviewIdsCons(channels, guildId, info, rest);
        [info] + rest
      else
        OverviewIdsSkip(channels, guildId, rest);
        rest
  }

  /** A channel's entry in the overview: its ids, its joined stocks and its schedule expressions. */
  function Entry(ch: ChannelRow, stocks: seq<StockRow>, links: seq<ChannelStockRow>, schedules: seq<ScheduleRow>): (info: ChannelInfo)
    ensures info.channelId == ch.channelId && info.guildId == ch.guildId
  {
    ChannelInfo(
      ch.channelId,
      ch.guildId,
      Summaries(ChannelStocks(links, stocks, ch.channelId)),
      Crons(SchedulesOf(schedules, ch.channelId)))
  }

  /** The channel ids of the listed entries. */
  function InfoChannelIds(infos: seq<ChannelInfo>): (ids: seq<string>)
    ensures |ids| == |infos| && forall i :: 0 <= i < |infos| ==> ids[i] == infos[i].channelId
  {
    seq(|infos|, i requires 0 <= i < |infos| => infos[i].channelId)
  }

  /** Distinct channel ids stay distinct without the first channel. */
  lemma NoDupTailIds(channels: seq<ChannelRow>)
    requires channels != []
    ensures NoDup(ChannelIds(channels)) ==> NoDup(ChannelIds(channels[1..])) && channels[0].channelId !in ChannelIds(channels[1..])
  {
    if NoDup(ChannelIds(channels)) {
      assert ChannelIds(channels[1..]) == ChannelIds(channels)[1..];
      NoDupTail(ChannelIds(channels));
    }
  }

  /** Skipping a channel of another guild keeps every channel of the guild listed, each once. */
  lemma OverviewIdsSkip(channels: seq<ChannelRow>, guildId: string, rest: seq<ChannelInfo>)
    requires channels != [] && channels[0].guildId != guildId
    requires forall ch :: ch in channels[1..] && ch.guildId == guildId ==> ch.channelId in InfoChannelIds(rest)
    requires NoDup(ChannelIds(channels[1..])) ==> NoDup(InfoChannelIds(rest))
    requires forall x :: x in rest ==> x.guildId == guildId && ChannelRow(x.channelId, guildId) in channels[1..]
    ensures forall x :: x in rest ==> x.guildId == guildId && ChannelRow(x.channelId, guildId) in channels
    ensures forall ch :: ch in channels && ch.guildId == guildId ==> ch.channelId in InfoChannelIds(rest)
    ensures NoDup(ChannelIds(channels)) ==> NoDup(InfoChannelIds(rest))
  {
    NoDupTailIds(channels);
    assert forall ch :: ch in channels[1..] ==> ch in channels;
    forall ch | ch in channels && ch.guildId == guildId ensures ch in channels[1..] {
      var i :| 0 <= i < |channels| && channels[i] == ch;
      assert i != 0;
      assert channels[1..][i - 1] == ch;
    }
  }

  /**
   * Listing the first channel in front of the others lists every channel of
   * the guild, and the first channel's entry is not repeated after it.
   */
  lemma OverviewIdsCons(channels: seq<ChannelRow>, guildId: string, info: ChannelInfo, rest: seq<ChannelInfo>)
    requires channels != [] && info.channelId == channels[0].channelId
    requires info.guildId == guildId && channels[0].guildId == guildId
    requires forall x :: x in rest ==> x.guildId == guildId && ChannelRow(x.channelId, guildId) in channels[1..]
    requires forall ch :: ch in channels[1..] && ch.guildId == guildId ==> ch.channelId in InfoChannelIds(rest)
    requires NoDup(ChannelIds(channels[1..])) ==> NoDup(InfoChannelIds(rest))
    ensures forall x :: x in [info] + rest ==> x.guildId == guildId && ChannelRow(x.channelId, guildId) in channels
    ensures forall ch :: ch in channels && ch.guildId == guildId ==> ch.channelId in InfoChannelIds([info] + rest)
    ensures NoDup(ChannelIds(channels)) ==> NoDup(InfoChannelIds([info] + rest))
  {
    assert InfoChannelIds([info] + rest) == [info.channelId] + InfoChannelIds(rest);
    assert channels[0] == ChannelRow(info.channelId, guildId);
    assert forall ch :: ch in channels[1..] ==> ch in channels;
    forall ch | ch in channels && ch.guildId == guildId ensures ch.channelId in InfoChannelIds([info] + rest) {
      var i :| 0 <= i < |channels| && channels[i] == ch;
      if i != 0 {
        assert channels[1..][i - 1] == ch;
      }
    }
    if NoDup(ChannelIds(channels)) {
      NoDupTailIds(channels);
      forall x | x in InfoChannelIds(rest) ensures x != info.channelId {
        var i :| 0 <= i < |rest| && InfoChannelIds(rest)[i] == x;
        assert rest[i] in rest;
        var j :| 0 <= j < |channels[1..]| && channels[1..][j] == ChannelRow(x, guildId);
        assert ChannelIds(channels[1..])[j] == x;
      }
      assert InfoChannelIds([info] + rest) == [info.channelId] + InfoChannelIds(rest);
      NoDupCons(info.channelId, InfoChannelIds(rest));
    }
  }

  function Summaries(rows: seq<StockRow>): (r: seq<StockSummary>)
    ensures |r| == |rows| && forall i :: 0 <= i < |rows| ==> r[i] == StockSummary(rows[i].ticker, rows[i].name)
  {
    seq(|rows|, i requires 0 <= i < |rows| => StockSummary(rows[i].ticker, rows[i].name))
  }

  /** Each listed channel carries its own stocks and schedules. */
  lemma {:induction false} OverviewEntries(channels: seq<ChannelRow>, stocks: seq<StockRow>, links: seq<ChannelStockRow>,
                                           schedules: seq<ScheduleRow>, guildId: string, info: ChannelInfo)
    requires info in GuildOverview(channels, stocks, links, schedules, guildId)
    ensures info.stocks == Summaries(ChannelStocks(links, stocks, info.channelId))
    ensures info.schedules == Crons(SchedulesOf(schedules, info.channelId))
    decreases |channels|
  {
    var rest := GuildOverview(channels[1..], stocks, links, schedules, guildId);
    if info in rest {
      OverviewEntries(channels[1..], stocks, links, schedules, guildId, info);
    }
  }

  // ---------------------------------------------------------------------
  // The repository
  // ---------------------------------------------------------------------

  /** `Repository`: the four tables and the AUTOINCREMENT counters of the two tables that have them. */
  class Repository {
    var channels: seq<ChannelRow>
    var stocks: seq<StockRow>
    var channelStocks: seq<ChannelStockRow>
    var schedules: seq<ScheduleRow>
    var nextStockId: nat
    var nextScheduleId: nat

    /** The schema's keys, uniqueness and foreign keys. */
    ghost predicate Valid()
      reads this
    {
      && NoDup(ChannelIds(channels))
      && StocksValid(stocks, nextStockId)
      && NoDup(Pairs(channelStocks))
      && (forall r :: r in channelStocks ==> r.channelId in ChannelIds(channels) && r.stockId in StockIds(stocks))
      && SchedulesValid(schedules, nextScheduleId)
      && (forall r :: r in schedules ==> r.channelId in ChannelIds(channels))
    }

    /** A freshly migrated, empty store. */
    constructor ()
      ensures Valid()
      ensures channels == [] && stocks == [] && channelStocks == [] && schedules == []
    {
      channels := [];
      stocks := [];
      channelStocks := [];
      schedules := [];
      nextStockId := 1;
      nextScheduleId := 1;
    }

    /** `ensureChannel`. */
    method EnsureChannel(channelId: string, guildId: string)
      requires Valid()
      modifies this
      ensures Valid()
      ensures channels == EnsuredChannels(old(channels), channelId, guildId)
      ensures stocks == old(stocks) && channelStocks == old(channelStocks) && schedules == old(schedules)
      ensures nextStockId == old(nextStockId) && nextScheduleId == old(nextScheduleId)
    {
      EnsureChannelFacts(channels, channelId, guildId, channelId);
      if channelId !in ChannelIds(channels) {
        channels := channels + [ChannelRow(channelId, guildId)];
      }
    }

    /** `findStockByTicker`. */
    function FindStockByTicker(ticker: string): (s: Option<StockRow>)
      reads this
      ensures s.Some? ==> s.value in stocks && s.value.ticker == ticker
      ensures s.None? <==> ticker !in Tickers(stocks)
    {
      StockByTicker(stocks, ticker)
    }

    /** `upsertStock`. */
    method UpsertStock(ticker: string, name: Option<string>) returns (id: nat)
      requires Valid()
      modifies this
      ensures Valid()
      ensures Upserted(stocks, nextStockId, id) == Upsert(old(stocks), old(nextStockId), ticker, name)
      ensures channels == old(channels) && channelStocks == old(channelStocks) && schedules == old(schedules)
      ensures nextScheduleId == old(nextScheduleId)
    {
      UpsertKeepsValid(stocks, nextStockId, ticker, name);
      var existing := FindByTicker(stocks, ticker);
      if existing.Some? {
        var row := stocks[existing.value];
        if Truthy(name) && !Truthy(row.name) {
          stocks := stocks[existing.value := row.(name := name)];
        }
        id := row.id;
      } else {
        id := nextStockId;
        stocks := stocks + [StockRow(id, ticker, name)];
        nextStockId := nextStockId + 1;
      }
    }

    /** `addChannelStock`: the channel is ensured first, whatever the insert then does. */
    method AddChannelStock(channelId: string, guildId: string, stockId: nat, addedBy: string)
      returns (r: Result<bool, StoreError>)
      requires Valid()
      modifies this
      ensures Valid()
      ensures channels == EnsuredChannels(old(channels), channelId, guildId)
      ensures Added(channelStocks, r) == AddPair(old(channelStocks), StockIds(stocks), channelId, stockId, addedBy)
      ensures stocks == old(stocks) && schedules == old(schedules)
      ensures nextStockId == old(nextStockId) && nextScheduleId == old(nextScheduleId)
    {
      EnsureChannel(channelId, guildId);
      AddPairKeepsKey(channelStocks, StockIds(stocks), channelId, stockId, addedBy);
      var added := AddPair(channelStocks, StockIds(stocks), channelId, stockId, addedBy);
      channelStocks := added.rows;
      r := added.outcome;
    }

    /** `removeChannelStock`: `false` for an unknown ticker, else whether a row was deleted. */
    method RemoveChannelStock(channelId: string, ticker: string) returns (removed: bool)
      requires Valid()
      modifies this
      ensures Valid()
      ensures StockByTicker(stocks, ticker).None? ==> !removed && channelStocks == old(channelStocks)
      ensures StockByTicker(stocks, ticker).Some? ==>
        && channelStocks == RemovePair(old(channelStocks), channelId, StockByTicker(stocks, ticker).value.id)
        && (removed <==> |channelStocks| < |old(channelStocks)|)
      ensures channels == old(channels) && stocks == old(stocks) && schedules == old(schedules)
      ensures nextStockId == old(nextStockId) && nextScheduleId == old(nextScheduleId)
    {
      var stock := StockByTicker(stocks, ticker);
      if stock.None? {
        return false;
      }
      RemovePairKeepsKey(channelStocks, channelId, stock.value.id);
      RemovePairMembers(channelStocks, channelId, stock.value.id);
      var before := |channelStocks|;
      channelStocks := RemovePair(channelStocks, channelId, stock.value.id);
      removed := |channelStocks| < before;
    }

    /** `getChannelStocks`. */
    function GetChannelStocks(channelId: string): (r: seq<StockRow>)
      reads this
      ensures forall s :: s in r ==> s in stocks && ChannelStockRow(channelId, s.id, "") in AnyAddedBy(channelStocks)
      ensures NoDup(StockIds(stocks)) ==>
        forall s :: s in stocks && ChannelStockRow(channelId, s.id, "") in AnyAddedBy(channelStocks) ==> s in r
    {
      ChannelStocks(channelStocks, stocks, channelId)
    }

    /** `setSchedules`: ensure the channel, then replace its schedules one insert at a time. */
    method SetSchedules(channelId: string, guildId: string, crons: seq<string>)
      requires Valid()
      modifies this
      ensures Valid()
      ensures channels == EnsuredChannels(old(channels), channelId, guildId)
      ensures Replaced(schedules, nextScheduleId) == ReplaceSchedules(old(schedules), old(nextScheduleId), channelId, crons)
      ensures stocks == old(stocks) && channelStocks == old(channelStocks) && nextStockId == old(nextStockId)
    {
      EnsureChannel(channelId, guildId);
      ReplaceKeepsValid(schedules, nextScheduleId, channelId, crons);
      ghost var firstId := nextScheduleId;
      ghost var kept := WithoutChannel(schedules, channelId);
      WithoutChannelMembers(schedules, channelId);
      schedules := WithoutChannel(schedules, channelId);
      for i := 0 to |crons|
        invariant schedules == kept + NewSchedules(firstId, channelId, crons[..i])
        invariant nextScheduleId == firstId + i
        invariant channels == EnsuredChannels(old(channels), channelId, guildId)
        invariant stocks == old(stocks) && channelStocks == old(channelStocks) && nextStockId == old(nextStockId)
      {
        assert NewSchedules(firstId, channelId, crons[..i + 1])
            == NewSchedules(firstId, channelId, crons[..i]) + [ScheduleRow(nextScheduleId, channelId, crons[i])];
        schedules := schedules + [ScheduleRow(nextScheduleId, channelId, crons[i])];
        nextScheduleId := nextScheduleId + 1;
      }
      assert crons[..|crons|] == crons;
      forall r | r in schedules
        ensures r.channelId in ChannelIds(channels)
      {
        if r !in kept {
          var k :| 0 <= k < |schedules| && schedules[k] == r;
        }
      }
    }

    /** `getSchedules`. */
    function GetSchedules(channelId: string): (r: seq<ScheduleRow>)
      reads this
      ensures forall x :: x in r <==> x in schedules && x.channelId == channelId
    {
      SchedulesOfMembers(schedules, channelId);
      SchedulesOf(schedules, channelId)
    }

    /** `getAllScheduledChannels`: every schedule row as a channel and cron pair. */
    function GetAllScheduledChannels(): (r: seq<ScheduledChannel>)
      reads this
      ensures |r| == |schedules|
      ensures forall i :: 0 <= i < |r| ==> r[i] == ScheduledChannel(schedules[i].channelId, schedules[i].cronExpression)
    {
      seq(|schedules|, i reads this requires 0 <= i < |schedules| => ScheduledChannel(schedules[i].channelId, schedules[i].cronExpression))
    }

    /** `getAllUniqueTickers`. */
    function GetAllUniqueTickers(): (ts: seq<string>)
      reads this
      ensures NoDup(ts)
      ensures forall t :: t in ts ==> t in Tickers(stocks)
    {
      UniqueTickers(channelStocks, stocks)
    }

    /** `getGuildOverview`. */
    function GetGuildOverview(guildId: string): (r: seq<ChannelInfo>)
      reads this
      ensures forall info :: info in r ==> info.guildId == guildId && ChannelRow(info.channelId, guildId) in channels
      ensures forall ch :: ch in channels && ch.guildId == guildId ==> ch.channelId in InfoChannelIds(r)
      ensures NoDup(ChannelIds(channels)) ==> NoDup(InfoChannelIds(r))
    {
      GuildOverview(channels, stocks, channelStocks, schedules, guildId)
    }
  }
}
