/**
 * The scheduler: one timer task per distinct channel and cron expression in
 * the store, and the notification a task sends when it fires.
 *
 * When a cron expression fires is not modelled: a task records its
 * expression, its time zone and the channel it notifies, and whether it has
 * been stopped. The chat service is a parameter: what fetching the channel
 * gave, and the list of messages sent.
 */
module Scheduling {
  import opened Common
  import opened Store
  import opened Stock
  import opened StockUi

  const TimeZone: string := "Asia/Tokyo"
  const QuoteFailureMessage: string := "⚠️ 株価の取得に失敗しました。"

  /** A scheduled timer task. */
  class Task {
    const cronExpression: string
    const timezone: string
    const channelId: string
    var stopped: bool

    /** `cron.schedule(expression, () => sendNotification(channelId), { timezone })`: a running task. */
    constructor (cronExpression: string, timezone: string, channelId: string)
      ensures this.cronExpression == cronExpression && this.timezone == timezone && this.channelId == channelId
      ensures !stopped
    {
      this.cronExpression := cronExpression;
      this.timezone := timezone;
      this.channelId := channelId;
      stopped := false;
    }

    /** `task.stop()`. */
    method Stop()
      modifies this
      ensures stopped
    {
      stopped := true;
    }
  }

  // ---------------------------------------------------------------------
  // Task keys
  // ---------------------------------------------------------------------

  /** `${channelId}:${cronExpression}`. */
  function TaskKey(row: ScheduledChannel): string {
    row.channelId + ":" + row.cronExpression
  }

  /**
   * Two schedule rows share a key exactly when they are the same row, as long
   * as channel ids contain no colon (chat channel ids are decimal numbers).
   */
  lemma TaskKeyInjective(a: ScheduledChannel, b: ScheduledChannel)
    requires ':' !in a.channelId && ':' !in b.channelId
    ensures TaskKey(a) == TaskKey(b) <==> a == b
  {
    if TaskKey(a) == TaskKey(b) {
      var ka, kb := TaskKey(a), TaskKey(b);
      FirstColon(a.channelId, a.cronExpression);
      FirstColon(b.channelId, b.cronExpression);
      assert |a.channelId| == |b.channelId|;
      assert a.channelId == ka[..|a.channelId|];
      assert a.cronExpression == ka[|a.channelId| + 1..];
    }
  }

  lemma FirstColon(channelId: string, cronExpression: string)
    requires ':' !in channelId
    ensures var key := channelId + ":" + cronExpression;
            && IndexOf(key, ':') == Some(|channelId|)
            && key[..|channelId|] == channelId
            && key[|channelId| + 1..] == cronExpression
  {
    var key := channelId + ":" + cronExpression;
    assert key[..|channelId|] == channelId;
    assert key[|channelId|] == ':';
    assert key[|channelId| + 1..] == cronExpression;
  }

  /**
   * The rows `registerAll` keeps: for each key, the first row in the store
   * with that key; later rows with the same key are skipped.
   */
  function Registry(rows: seq<ScheduledChannel>): (m: map<string, ScheduledChannel>)
    ensures |m| <= |rows|
  {
    if rows == [] then map[]
    else
      var prefix := rows[..|rows| - 1];
      var m := Registry(prefix);
      var row := rows[|rows| - 1];
      if TaskKey(row) in m then m
      else m[TaskKey(row) := row]
  }

  /** The keys of the given rows. */
  function RowKeys(rows: seq<ScheduledChannel>): set<string> {
    set r | r in rows :: TaskKey(r)
  }

  lemma RowKeysSnoc(rows: seq<ScheduledChannel>, row: ScheduledChannel)
    ensures RowKeys(rows + [row]) == RowKeys(rows) + {TaskKey(row)}
  {
    assert forall r :: r in rows + [row] <==> r in rows || r == row;
  }

  /** One more row registers its key, unless an earlier row already has it. */
  lemma RegistrySnoc(rows: seq<ScheduledChannel>, row: ScheduledChannel)
    ensures Registry(rows + [row]) ==
      if TaskKey(row) in Registry(rows) then Registry(rows) else Registry(rows)[TaskKey(row) := row]
  {
    assert (rows + [row])[..|rows|] == rows;
  }

  /** `RegistrySnoc` on a prefix of the rows. */
  lemma RegistryStep(rows: seq<ScheduledChannel>, i: int)
    requires 0 <= i < |rows|
    ensures var key := TaskKey(rows[i]);
            Registry(rows[..i + 1]) ==
              if key in Registry(rows[..i]) then Registry(rows[..i]) else Registry(rows[..i])[key := rows[i]]
  {
    assert rows[..i + 1] == rows[..i] + [rows[i]];
    RegistrySnoc(rows[..i], rows[i]);
  }

  /** The registered keys are exactly the keys of the rows. */
  lemma {:induction false} RegistryKeys(rows: seq<ScheduledChannel>)
    ensures Registry(rows).Keys == RowKeys(rows)
    decreases |rows|
  {
    if rows != [] {
      var prefix := rows[..|rows| - 1];
      var row := rows[|rows| - 1];
      assert rows == prefix + [row];
      RegistryKeys(prefix);
      RegistrySnoc(prefix, row);
      RowKeysSnoc(prefix, row);
    }
  }

  /** Each registered row is one of the rows, filed under its own key. */
  lemma {:induction false} RegistryEntries(rows: seq<ScheduledChannel>, k: string)
    requires k in Registry(rows)
    ensures TaskKey(Registry(rows)[k]) == k && Registry(rows)[k] in rows
    decreases |rows|
  {
    var prefix := rows[..|rows| - 1];
    var row := rows[|rows| - 1];
    assert rows == prefix + [row];
    RegistrySnoc(prefix, row);
    if k in Registry(prefix) {
      RegistryEntries(prefix, k);
    }
  }

  /** The row registered for a key is the first row with that key. */
  lemma {:induction false} RegistryFirstWins(rows: seq<ScheduledChannel>, i: int)
    requires 0 <= i < |rows|
    requires TaskKey(rows[i]) !in RowKeys(rows[..i])
    ensures TaskKey(rows[i]) in Registry(rows) && Registry(rows)[TaskKey(rows[i])] == rows[i]
    decreases |rows|
  {
    var prefix := rows[..|rows| - 1];
    var row := rows[|rows| - 1];
    assert rows == prefix + [row];
    RegistrySnoc(prefix, row);
    if i < |rows| - 1 {
      assert prefix[i] == rows[i];
      assert prefix[..i] == rows[..i];
      RegistryFirstWins(prefix, i);
    } else {
      assert prefix == rows[..i];
      RegistryKeys(prefix);
    }
  }

  // ---------------------------------------------------------------------
  // The notification
  // ---------------------------------------------------------------------

  /** What fetching the channel gave. */
  datatype ChannelKind = Missing | NotText | TextChannel

  /** The three outcomes of `sendNotification`. */
  datatype Decision =
    | Skip
    | Warn
    | Compose(tickers: seq<string>, quotes: map<string, Quote>)

  /**
   * `sendNotification`'s decision: nothing for a missing or non-text channel
   * or a channel without stocks; the warning when no quote came back;
   * otherwise the composed message over the channel's tickers in store order.
   */
  function Decide(channel: ChannelKind, stocks: seq<StockRow>, quote: string -> QuoteCall): (d: Decision)
    ensures d.Compose? ==> d.tickers == Tickers(stocks) && d.quotes == QuoteMap(d.tickers, quote)
  {
    if !channel.TextChannel? || |stocks| == 0 then Skip
    else
      var tickers := Tickers(stocks);
      var quotes := QuoteMap(tickers, quote);
      if |quotes| == 0 then Warn else Compose(tickers, quotes)
  }

  /** Nothing is sent exactly when the channel is not a text channel or follows no stock. */
  lemma SkipIff(channel: ChannelKind, stocks: seq<StockRow>, quote: string -> QuoteCall)
    ensures Decide(channel, stocks, quote).Skip? <==> !channel.TextChannel? || stocks == []
  {
  }

  /** The warning is sent exactly when the channel has stocks and every one of their quotes failed. */
  lemma WarnIff(channel: ChannelKind, stocks: seq<StockRow>, quote: string -> QuoteCall)
    ensures Decide(channel, stocks, quote).Warn? <==>
      channel.TextChannel? && stocks != [] && forall i :: 0 <= i < |stocks| ==> GetQuote(stocks[i].ticker, quote).None?
  {
    QuoteMapEmptyIffAllFailed(Tickers(stocks), quote);
  }

  /** A message sent to the channel. */
  datatype Outgoing = Plain(text: string) | Composed(message: Message)

  /** How a fired task ends: the notification went through, or its failure was logged. */
  datatype CallbackOutcome = Done | Logged(channelId: string, error: string)

  /** The timer callback: a failed notification is caught and logged; nothing escapes. */
  function Callback(channelId: string, run: Result<seq<Outgoing>, string>): (r: CallbackOutcome)
    ensures r.Done? <==> run.Ok?
    ensures r.Logged? ==> r.channelId == channelId && r.error == run.error
  {
    match run
    case Ok(_) => Done
    case Err(e) => Logged(channelId, e)
  }

  // ---------------------------------------------------------------------
  // The scheduler
  // ---------------------------------------------------------------------

  /**
   * The map's tasks run exactly the registered rows: one running task per key, on
   * the row's channel and expression, in the Tokyo time zone.
   */
  ghost predicate Runs(tasks: map<string, Task>, registry: map<string, ScheduledChannel>)
    reads tasks.Values
  {
    && tasks.Keys == registry.Keys
    && forall k :: k in tasks ==>
         && !tasks[k].stopped
         && tasks[k].timezone == TimeZone
         && tasks[k].channelId == registry[k].channelId
         && tasks[k].cronExpression == registry[k].cronExpression
  }

  /** A stopped task is never one the map runs: after `registerAll` no old task is left in the map. */
  lemma OldTasksGone(tasks: map<string, Task>, registry: map<string, ScheduledChannel>, previous: set<Task>)
    requires Runs(tasks, registry)
    requires forall t :: t in previous ==> t.stopped
    ensures forall k :: k in tasks ==> tasks[k] !in previous
  {
  }

  /** Adding a running task for a new key keeps the map's tasks running the registered rows. */
  lemma RunsExtend(tasks: map<string, Task>, registry: map<string, ScheduledChannel>, key: string, task: Task, row: ScheduledChannel)
    requires Runs(tasks, registry) && key !in tasks
    requires !task.stopped && task.timezone == TimeZone
    requires task.channelId == row.channelId && task.cronExpression == row.cronExpression
    ensures Runs(tasks[key := task], registry[key := row])
  {
  }

  /** `Scheduler`: a map of tasks, over a store it only reads. */
  class Scheduler {
    var tasks: map<string, Task>
    const repo: Repository

    constructor (repo: Repository)
      ensures this.repo == repo && tasks == map[]
    {
      this.repo := repo;
      tasks := map[];
    }

    /** `clearAll`: stop every task, then empty the map. */
    method ClearAll()
      modifies this, tasks.Values
      ensures tasks == map[]
      ensures forall t :: t in old(tasks.Values) ==> t.stopped
    {
      var pending := tasks.Values;
      while pending != {}
        invariant pending <= old(tasks.Values)
        invariant tasks == old(tasks)
        invariant forall t :: t in old(tasks.Values) - pending ==> t.stopped
        decreases pending
      {
        var t :| t in pending;
        t.Stop();
        pending := pending - {t};
      }
      tasks := map[];
    }

    /**
     * `registerAll`: stop and drop every task, then schedule one task per
     * distinct key over the store's schedule rows, the first row of a key
     * winning.
     */
    method RegisterAll()
      modifies this, tasks.Values
      ensures forall t :: t in old(tasks.Values) ==> t.stopped
      ensures Runs(tasks, Registry(repo.GetAllScheduledChannels()))
    {
      ClearAll();
      var rows := repo.GetAllScheduledChannels();
      ScheduleRows(rows);
    }

    /** The loop of `registerAll`: schedule each row whose key is not yet taken. */
    method ScheduleRows(rows: seq<ScheduledChannel>)
      requires tasks == map[]
      modifies this
      ensures Runs(tasks, Registry(rows))
    {
      ghost var registry: map<string, ScheduledChannel> := map[];
      for i := 0 to |rows|
        invariant registry == Registry(rows[..i])
        invariant Runs(tasks, registry)
      {
        var row := rows[i];
        var key := TaskKey(row);
        RegistryStep(rows, i);
        if key !in tasks {
          var task := new Task(row.cronExpression, TimeZone, row.channelId);
          RunsExtend(tasks, registry, key, task, row);
          tasks := tasks[key := task];
          registry := registry[key := row];
        }
      }
      assert rows[..|rows|] == rows;
    }

    /**
     * `sendNotification` for a channel. `channel` is what fetching it gave,
     * `quote` and `historical` the market data, `render` the chart renderer,
     * `fmt` the number formatting and `now` the formatted current time; the
     * result is the list of messages sent to the channel.
     */
    method SendNotification(
      channelId: string, channel: ChannelKind, quote: string -> QuoteCall,
      historical: (string, int) -> HistoryCall, render: map<string, seq<HistoryPoint>> -> Option<Png>,
      fmt: Formatter, now: string)
      returns (sent: seq<Outgoing>)
      ensures var d := Decide(channel, repo.GetChannelStocks(channelId), quote);
              && (d.Skip? ==> sent == [])
              && (d.Warn? ==> sent == [Plain(QuoteFailureMessage)])
              && (d.Compose? ==>
                    && |sent| == 1 && sent[0].Composed? && |sent[0].message.embeds| == 1
                    && sent[0].message.embeds[0].title == EmbedTitle(None, now)
                    && sent[0].message.embeds[0].fields == Fields(d.quotes, d.tickers, fmt))
    {
      if !channel.TextChannel? {
        return [];
      }
      var stocks := repo.GetChannelStocks(channelId);
      if |stocks| == 0 {
        return [];
      }
      var tickers := Tickers(stocks);
      var quotes := GetQuotes(tickers, quote);
      if |quotes| == 0 {
        return [Plain(QuoteFailureMessage)];
      }
      var message, _ := CreateStockNotification(quotes, tickers, None, now, fmt, historical, render);
      sent := [Composed(message)];
    }
  }
}
