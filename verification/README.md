# kabu-nodify-bot, modelled in Dafny

kabu-nodify-bot is a chat bot that posts Tokyo Stock Exchange quotes to chat
channels on cron schedules. This project models the logic under its chat,
database, market-data and chart plumbing, and proves properties of that model:

- `common.dfy` (`Common`): the JavaScript string operations the core relies on
  (`trim`, `split`, `join`, `includes`, `padStart`, number-to-string), with
  their own lemmas.
- `schedule_parser.dfy` (`ScheduleParser`): `parseScheduleInput` (day token
  and `H:MM` time to a five-field cron expression and a Japanese
  description), `cronToDescription`, and the all-or-nothing parse of several
  times used by the schedule command.
- `retry.dfy` (`Retry`): `retryWithBackoff` as a loop over attempts, with the
  call count, the sleep log and the rethrown error, and the `isNetworkError`
  classifier.
- `stock_colors.dfy` (`StockColors`): the seven-entry palette and its
  wrap-around index lookups.
- `stock.dfy` (`Stock`): ticker normalisation, quote normalisation, the
  partial-failure quote map, ticker validation and history shaping.
- `stock_ui.dfy` (`StockUi`): the embed builder, the field list, the chart
  attachment and the chart/no-chart decision.
- `repository.dfy` (`Store`): the four tables as sequences in a
  `Repository` class, with the uniqueness and key constraints of the schema.
- `scheduler.dfy` (`Scheduling`): the `Scheduler` class with its task map,
  `registerAll`, `clearAll`, the decision of `sendNotification` and the
  timer callback.

Each method that changes state or loops is proved equal to a specification
function, and the promised behaviour is proved about that function.
Numbers are unbounded integers or exact reals. Strings are sequences of
Unicode code points, which is how the day parser's `for…of` loop walks them.
`padStart` counts UTF-16 code units, and `Common.PadStart2` counts them the
same way.

`getHistory` keeps every row the market-data library returns, including rows
whose close is missing; it does not drop them (src/services/stock.ts:97-100).
`Stock.HistoryKeepsRows` states this.

## Model

| member | source | states |
|---|---|---|
| Common.Trim | src/services/schedule-parser.ts:44 | `trim()`: the input is a whitespace-only head, then the result, then a whitespace-only tail, and the result neither starts nor ends with whitespace |
| Common.TrimIdempotent | src/services/stock.ts:24 | trimming a trimmed string changes nothing |
| Common.Contains | src/utils/retry.ts:77-78 | `includes` holds exactly when the substring occurs at some position |
| Common.Split | src/services/schedule-parser.ts:87 | `split(sep)` gives at least one part, no part contains the separator, and joining the parts with the separator gives the input back |
| Common.SplitJoin | src/services/schedule-parser.ts:72 | splitting a join on a separator that no part contains gives the parts back |
| Common.NatToString | src/services/schedule-parser.ts:76 | decimal rendering of a number: all digits, no leading zero, reads back as the number, one digit below 10 and two below 100 |
| Common.PadStart2 | src/services/schedule-parser.ts:91 | `padStart(2, "0")`: the input preceded only by zeros, with a UTF-16 length of the input's or 2, whichever is larger |
| Common.DigitsUtf16Length | src/services/schedule-parser.ts:77 | a string of decimal digits is as many UTF-16 code units long as it has characters |
| Common.PadDigits | src/services/schedule-parser.ts:77 | on digits, one character gets one zero in front and two or more are left alone |
| Common.AstralCharNotPadded | src/services/schedule-parser.ts:91 | one character outside the Basic Multilingual Plane is already two code units long and is not padded |
| ScheduleParser.TimeErrorsQuoteInput | src/services/schedule-parser.ts:31-37 | both time error messages contain the time input literally |
| ScheduleParser.MatchTime | src/services/schedule-parser.ts:30 | a match of `^(\d{1,2}):(\d{2})$` splits the input into a 1-2 digit hour, a colon and a 2-digit minute |
| ScheduleParser.MatchTimeComplete | src/services/schedule-parser.ts:30 | every string of that shape is matched, with its own groups |
| ScheduleParser.FirstUnknownIndex | src/services/schedule-parser.ts:59-67 | finds the first character that is not in the day table, or none when every character is |
| ScheduleParser.ResolveDays | src/services/schedule-parser.ts:44-74 | the day loop with its early return computes exactly `ParseDays`: named sets first, then per character |
| ScheduleParser.ParseScheduleInput | src/services/schedule-parser.ts:25-83 | the parser returns exactly `Parse(day, time)`: time errors first, then day errors, else cron and description |
| ScheduleParser.ParseTimeRendering | src/services/schedule-parser.ts:34-77 | an accepted time has hour at most 23 and minute at most 59, renders as the zero-padded groups, and a 5-character input renders as itself |
| ScheduleParser.ParseTimeOfLiteral | src/services/schedule-parser.ts:34-38 | a well-shaped time is accepted exactly when hour <= 23 and minute <= 59; otherwise the error is the range error |
| ScheduleParser.MalformedTimeRejected | src/services/schedule-parser.ts:30-33 | a time that does not match gives the format error whatever the day input |
| ScheduleParser.TimeErrorsComeFirst | src/services/schedule-parser.ts:29-38 | a time error is reported before any day error |
| ScheduleParser.ExampleHourOutOfRange | src/services/schedule-parser.ts:34-37 | `"25:00"` matches the pattern but gives the range error |
| ScheduleParser.ParseDaysErrors | src/services/schedule-parser.ts:57-71 | the empty token, and only it, gives "no day specified"; an unknown-day error happens exactly for tokens with a non-day character and names the first such character |
| ScheduleParser.CustomDays | src/services/schedule-parser.ts:57-73 | a custom token's day field splits into one day number per character, in input order and duplicates kept, and its label is the per-day `曜` labels |
| ScheduleParser.DayNumbersSplit | src/services/schedule-parser.ts:72 | the comma-joined day numbers split back into the day numbers |
| ScheduleParser.FiveFields | src/services/schedule-parser.ts:76-88 | a cron built from space-free parts splits into exactly those five fields |
| ScheduleParser.CronFields | src/services/schedule-parser.ts:76 | the expression is `minute hour * * days` with unpadded numbers |
| ScheduleParser.CustomDayField | src/services/schedule-parser.ts:72-104 | a custom day field has no space and is never `*` or `1-5` |
| ScheduleParser.ReverseDays | src/services/schedule-parser.ts:107-109 | each field is looked up in the reverse table: a day number becomes its kanji, a name inherited from `Object.prototype` becomes that member as `join` prints it, and anything else is kept |
| ScheduleParser.OrdinaryFieldKept | src/services/schedule-parser.ts:93-109 | a field that is neither a day number nor an inherited name is kept verbatim |
| ScheduleParser.ExampleProtoDay | src/services/schedule-parser.ts:93-109 | the field `__proto__` finds the prototype object and prints as `[object Object]` |
| ScheduleParser.ReverseDayNumbers | src/services/schedule-parser.ts:93-110 | reversing the day numbers of a custom token gives the token back |
| ScheduleParser.CronToDescription | src/services/schedule-parser.ts:86-88 | an expression without exactly five space-separated fields is returned unchanged |
| ScheduleParser.DescribeCron | src/services/schedule-parser.ts:90-112 | the description of a five-field expression is the day text, a space and the zero-padded `HH:MM` |
| ScheduleParser.DescribeCustomDays | src/services/schedule-parser.ts:105-112 | a custom day field describes as the original token, except `0,6`, which describes as `土日` |
| ScheduleParser.DescribeParsedDays | src/services/schedule-parser.ts:44-112 | every parsed day field is space-free; named sets describe as their label, custom tokens as the token |
| ScheduleParser.DescriptionRoundTrip | src/services/schedule-parser.ts:76-112 | for every successful parse the cron has the five expected fields, the description is label plus `HH:MM`, and `cronToDescription(cron)` equals the description for the named day sets |
| ScheduleParser.RepadDigits | src/services/schedule-parser.ts:77-91 | re-rendering a parsed 1-2 digit group and padding it gives the same text as padding the group |
| ScheduleParser.AllOrNothingSuccess | src/commands/set-schedule.ts:36-43 | when every time parses, the results are one per time, in order |
| ScheduleParser.AllOrNothingFirstError | src/commands/set-schedule.ts:36-43 | a failure is the error of the first time that fails, all earlier ones having parsed |
| ScheduleParser.AllOrNothingAppend | src/commands/set-schedule.ts:36-43 | parsing a concatenation is parsing the first part, then the second |
| ScheduleParser.ParseAll | src/commands/set-schedule.ts:36-43 | the loop over several times computes exactly the all-or-nothing result |
| Retry.Resolve | src/utils/retry.ts:17-31 | each omitted option takes its default: 3 retries, 1000 ms, multiplier 2 |
| Retry.DefaultRetriesEverything | src/utils/retry.ts:21 | without `shouldRetry`, every error is retried |
| Retry.Schedule | src/utils/retry.ts:51 | the k-th sleep is `initialDelay * backoffMultiplier^k` |
| Retry.RetryWithBackoff | src/utils/retry.ts:27-57 | the loop's result, call count and sleep log are exactly `Run(op, options)` |
| Retry.RunFromFacts | src/utils/retry.ts:34-54 | from any attempt reached by retried failures: the sleeps follow the schedule, every slept-after attempt failed with a retryable error, a returned value is the last call's, a rethrown error is the last call's |
| Retry.RunCharacterization | src/utils/retry.ts:27-57 | at most `maxRetries + 1` calls; no call exactly when `maxRetries < 0`; sleeps follow the schedule and come only after retryable failures; a returned value is the successful last call's; a rethrown error is the last call's, which was not retryable or was the final attempt |
| Retry.FirstSuccessReturnsAtOnce | src/utils/retry.ts:36 | a first-call success returns at once: one call, no sleep |
| Retry.UnretryableErrorRethrown | src/utils/retry.ts:41-43 | an error `shouldRetry` rejects is rethrown after that one call, with no sleep |
| Retry.NoRetriesMeansOneCall | src/utils/retry.test.ts:59-64 | with `maxRetries` 0 there is exactly one call and no sleep, and its error is rethrown |
| Retry.NegativeMaxRetriesNeverCalls | src/utils/retry.ts:34-56 | with a negative `maxRetries` the operation is never called and `undefined` is thrown |
| Retry.PersistentFailure | src/utils/retry.ts:46-48 | when every attempt fails retryably, there are `maxRetries + 1` calls, the full sleep schedule, and the last error is rethrown |
| Retry.BackoffExample | src/utils/retry.test.ts:36-54 | two failures then success with a 100 ms initial delay: three calls and sleeps of 100 and 200 |
| Retry.DelaysNeverShrink | src/utils/retry.ts:51 | with a multiplier of at least 1 the delays are non-negative and never decrease |
| Retry.NetworkErrorClassification | src/utils/retry.ts:66-80 | a non-`Error` is never a network error; an `Error` is one exactly when its code is one of the four, its name is `AbortError`, or its message contains `fetch failed` or `timeout` |
| Retry.TimeoutMessageIsNetworkError | src/utils/retry.ts:78 | any message containing `timeout` makes an `Error` a network error |
| Retry.TimedOutCodeExample | src/utils/retry.ts:72 | an `ETIMEDOUT` error is a network error |
| Retry.OrdinaryErrorIsNotNetworkError | src/utils/retry.ts:71-79 | an error with another code and name, whose message contains neither `fetch failed` nor `timeout`, is not a network error |
| StockColors.JsRem | src/utils/stock-colors.ts:21 | JavaScript `%`: the remainder is in `[0, n)` for non-negative and in `(-n, 0]` for negative dividends |
| StockColors.SafeIndex | src/utils/stock-colors.ts:20-22 | the slot is in `[0, 7)` for every integer index and is the mathematical remainder |
| StockColors.GetColorForIndex | src/utils/stock-colors.ts:19-24 | the colour is the palette entry at the index modulo 7 |
| StockColors.GetEmojiForIndex | src/utils/stock-colors.ts:31-36 | the emoji is the palette entry at the index modulo 7 |
| StockColors.StockColors | src/utils/stock-colors.ts:39 | seven colours, the i-th being the colour of index i |
| StockColors.PaletteColorsAreHex | src/utils/stock-colors.ts:4-12 | every palette colour is a `#` and six hex digits |
| StockColors.InRangeIndexIsIdentity | src/utils/stock-colors.ts:19-36 | indices 0 to 6 pick palette entries 0 to 6 |
| StockColors.LookupsArePeriodic | src/utils/stock-colors.ts:19-36 | both lookups repeat every 7 indices, in both directions |
| StockColors.MinusOneIsLast | src/utils/stock-colors.ts:20-23 | index -1 gives the last entry |
| StockColors.ColorAndEmojiShareSlot | src/utils/stock-colors.ts:19-36 | the colour and the emoji of an index come from the same entry |
| StockColors.PaletteEntriesDistinct | src/utils/stock-colors.ts:4-12 | no two entries share a colour or an emoji |
| StockColors.SameEmojiIffSameSlot | src/utils/stock-colors.ts:31-36 | two indices share an emoji exactly when they are equal modulo 7 |
| Stock.ToUpper | src/services/stock.ts:24 | upper-casing maps each character and keeps the length |
| Stock.UpperKeepsTrimmed | src/services/stock.ts:24 | upper-casing a trimmed string keeps it trimmed |
| Stock.ToTokyoTicker | src/services/stock.ts:23-26 | the result is trimmed, upper-cased and ends with `.T`, and it is the display code of the trimmed, upper-cased input followed by `.T` |
| Stock.DisplayTicker | src/services/stock.ts:28-30 | one trailing `.T` is removed; a ticker without it is unchanged |
| Stock.TokyoTickerIdempotent | src/services/stock.ts:23-26 | normalising twice is normalising once |
| Stock.TokyoTickerSplits | src/services/stock.ts:23-30 | a normalised ticker is its display code plus `.T` |
| Stock.CodeGetsSuffix | src/services/stock.ts:25 | a trimmed upper-case code without `.T` gets exactly `.T` appended |
| Stock.CodeRoundTrip | src/services/stock.ts:23-30 | `displayTicker(toTokyoTicker(c)) == c` for a trimmed upper-case `c` not ending in `.T` |
| Stock.NumericCodeRoundTrip | src/services/stock.test.ts:13-15 | a numeric code becomes code + `.T` and displays back as itself |
| Stock.ExampleNumericCode | src/services/stock.test.ts:13-15 | `"2802"` becomes `"2802.T"` |
| Stock.GetQuote | src/services/stock.ts:32-56 | a quote exists exactly when the call returned a response with a truthy price; it carries the ticker, a nonzero price and `price == previousClose + change` |
| Stock.QuoteAbsentCases | src/services/stock.ts:35-55 | no quote exactly when the call threw, returned nothing, or the price is missing or 0 |
| Stock.QuoteDerivation | src/services/stock.ts:37-41 | the price is the market price; the previous close falls back to the price; the percentage is `change / previousClose * 100`, or 0 when the previous close is 0 |
| Stock.NoPreviousCloseMeansNoChange | src/services/stock.ts:38-41 | without a previous close, change and percentage are 0 |
| Stock.PercentFollowsChange | src/services/stock.ts:39-41 | with a positive previous close the percentage has the sign of the change |
| Stock.QuoteLabels | src/services/stock.ts:45-50 | the name falls back short name, long name, ticker; the currency defaults to `JPY` |
| Stock.QuoteMap | src/services/stock.ts:58-66 | every key of the quote map is a requested ticker whose quote carries that ticker |
| Stock.QuoteMapEntries | src/services/stock.ts:58-66 | a ticker is a key exactly when it was requested and its quote exists, and it maps to that quote |
| Stock.QuoteMapEmptyIffAllFailed | src/services/stock.ts:58-66 | the map is empty exactly when every requested quote failed |
| Stock.QuoteMapOrderFree | src/services/stock.ts:60-64 | the map depends only on the set of requested tickers, not their order |
| Stock.QuoteMapSnoc | src/services/stock.ts:61-62 | one more ticker adds its quote when it exists and changes nothing otherwise |
| Stock.GetQuotes | src/services/stock.ts:58-66 | the loop that fills the map computes exactly `QuoteMap` |
| Stock.ValidateTicker | src/services/stock.ts:68-80 | valid exactly when the response has a truthy price; no name when invalid |
| Stock.ValidIffQuoted | src/services/stock.ts:68-80 | validation succeeds exactly when `getQuote` would; the quote's name is the validated name, else the ticker |
| Stock.GetHistory | src/services/stock.ts:82-105 | a thrown call gives `[]`; otherwise one point per row |
| Stock.HistoryKeepsRows | src/services/stock.ts:97-100 | the i-th point is the i-th row's date and close, a missing close included |
| Stock.HistoryEmptyIff | src/services/stock.ts:97-104 | the history is empty exactly when the call threw or returned no rows |
| StockUi.Embed.AddField | src/services/stock-ui.ts:29-46 | the field is appended and nothing else changes |
| StockUi.Embed.SetImage | src/services/stock-ui.ts:62 | the image is set and nothing else changes |
| StockUi.EmbedTitle | src/services/stock-ui.ts:23 | a given title is used as is; otherwise the title is exactly `📈 株価通知 - ` followed by the time |
| StockUi.ArrowAgreesWithSign | src/services/stock-ui.ts:37-38 | the arrow is up and the sign `+` exactly when the change is at least 0, zero counting as up |
| StockUi.FieldFor | src/services/stock-ui.ts:27-46 | a field is inline exactly when its ticker has no quote |
| StockUi.Fields | src/services/stock-ui.ts:26-47 | one field per requested ticker |
| StockUi.FieldContents | src/services/stock-ui.ts:27-46 | a missing quote gives the display code, `取得失敗` and inline; a present one gives `name (code)`, not inline, a value starting with `¥` and the price and containing the arrow |
| StockUi.FieldsIgnoreOtherQuotes | src/services/stock-ui.ts:26-27 | quotes for tickers not requested do not affect the fields |
| StockUi.FailedFieldsAreFailedQuotes | src/services/stock-ui.ts:27-35 | over the quote map, field i is a failure field exactly when ticker i's quote failed |
| StockUi.CreateStockQuoteEmbed | src/services/stock-ui.ts:8-50 | a new embed with the title, the colour `0x89b4fa`, exactly the field list and no image |
| StockUi.CreateStockMessageWithChart | src/services/stock-ui.ts:55-64 | one embed, one `chart.png` file holding the chart, and the image set to `attachment://chart.png`; title, colour and fields unchanged |
| StockUi.HistoryMap | src/services/stock-ui.ts:78-84 | every key is a requested ticker with a non-empty history |
| StockUi.HistoryMapEntries | src/services/stock-ui.ts:78-84 | a ticker is kept exactly when its 30-day history call returned rows, with that history |
| StockUi.HistoryMapSnoc | src/services/stock-ui.ts:81-82 | one more ticker adds its history when it is non-empty and changes nothing otherwise |
| StockUi.CollectHistories | src/services/stock-ui.ts:78-84 | the loop computes exactly `HistoryMap` |
| StockUi.CreateStockNotification | src/services/stock-ui.ts:69-96 | one new embed with the title, colour and fields; the chart is attempted exactly when some history is non-empty; files are present exactly when it was attempted and rendering succeeded, and then the file and image are set; otherwise there is no image |
| StockUi.NoChartWithoutHistory | src/services/stock-ui.ts:86-91 | no chart is attempted exactly when every ticker's history threw or was empty |
| Store.GuildOf | src/db/schema.ts:4-7 | a channel's guild exists exactly when the channel has a row, and comes from that row |
| Store.EnsuredChannels | src/db/repository.ts:34-38 | afterwards the channel has a row and no channel row is lost |
| Store.EnsureChannelFacts | src/db/repository.ts:34-38 | `INSERT OR IGNORE`: ids stay unique, only a missing channel gains the guild, an existing guild never changes, and a second call changes nothing |
| Store.FindByTicker | src/db/repository.ts:42-46 | the index found holds the ticker; none exactly when no row has it |
| Store.StockByTicker | src/db/repository.ts:42-46 | the row found is a stored row with the ticker; none exactly when no row has it |
| Store.StockByTickerUnique | src/db/schema.ts:10 | with unique tickers, looking up a row's ticker finds that row |
| Store.Upsert | src/db/repository.ts:48-60 | the table and the id counter never shrink |
| Store.UpsertKeepsValid | src/db/repository.ts:56-59 | ids and tickers stay unique, ids stay below the counter, and no id is lost |
| Store.UpsertFinds | src/db/repository.ts:48-59 | the ticker then has a row with the returned id; an existing row keeps its id, a new one takes the counter; the name is replaced only when the new one is truthy and the old one is not |
| Store.UpsertLeavesOthers | src/db/repository.ts:48-59 | other tickers' rows are unchanged |
| Store.UpsertIdempotent | src/db/repository.ts:48-59 | upserting the same ticker and name twice is upserting once |
| Store.AddPair | src/db/repository.ts:64-75 | a pair already present gives false with the table unchanged; an unknown stock id gives the foreign-key error with the table unchanged; otherwise exactly the new row is appended and the result is true |
| Store.AddPairKeepsKey | src/db/schema.ts:18 | adding keeps the `(channel, stock)` key unique |
| Store.RemovePair | src/db/repository.ts:80-82 | removing never grows the table |
| Store.RemovePairMembers | src/db/repository.ts:80-82 | exactly the rows of other pairs remain |
| Store.RemovePairChanges | src/db/repository.ts:83 | the table shrinks exactly when the pair was present |
| Store.RemovedKeyAbsent | src/db/repository.ts:80-82 | afterwards the pair is absent |
| Store.AddThenRemove | src/db/repository.ts:64-84 | adding a new pair and removing it restores the table |
| Store.RemoveAbsentPair | src/db/repository.ts:80-83 | removing an absent pair changes nothing |
| Store.RemovePairKeepsKey | src/db/schema.ts:18 | removing keeps the key unique |
| Store.StockById | src/db/repository.ts:91 | the join's lookup: the row with the id, none exactly when there is none |
| Store.ChannelStocks | src/db/repository.ts:86-96 | a stock is returned only if it is stored and linked to the channel, and with unique stock ids every such stock is returned |
| Store.StockByIdFinds | src/db/repository.ts:91 | every stored stock is found by its id, and with unique ids it is the row found |
| Store.ChannelStocksAppend | src/db/repository.ts:86-96 | the stocks of two runs of link rows are the first run's followed by the second's, so link order is kept |
| Store.LinkedTickers | src/db/repository.ts:140 | every joined ticker is a stored ticker |
| Store.Distinct | src/db/repository.ts:140 | `DISTINCT`: no duplicates and the same members |
| Store.UniqueTickers | src/db/repository.ts:137-144 | no duplicates, and exactly the tickers of linked stocks |
| Store.FollowedTickerIsListed | src/db/repository.ts:137-144 | every followed stock's ticker is listed |
| Store.SchedulesOfMembers | src/db/repository.ts:113-120 | exactly the channel's schedule rows |
| Store.WithoutChannelMembers | src/db/repository.ts:103 | the delete keeps exactly the other channels' rows |
| Store.NewSchedules | src/db/repository.ts:104-109 | one new row per expression, in order, with consecutive ids |
| Store.ReplaceSchedules | src/db/repository.ts:100-111 | the id counter advances by the number of expressions |
| Store.SchedulesOfAppend | src/db/repository.ts:113-120 | filtering by channel distributes over concatenation |
| Store.ReplaceSchedulesOwn | src/db/repository.ts:100-111 | afterwards the channel's schedules are exactly the new rows, whose expressions are the given ones in order |
| Store.ReplaceSchedulesOthers | src/db/repository.ts:100-111 | other channels' schedules are unchanged |
| Store.WithoutKeepsValid | src/db/schema.ts:21 | the delete keeps schedule ids unique and below the counter |
| Store.ReplaceKeepsValid | src/db/schema.ts:21 | the replacement keeps schedule ids unique and below the counter |
| Store.GuildOverview | src/db/repository.ts:148-175 | only the guild's channels are listed, every channel of the guild is listed, and with distinct channel ids no channel is listed twice |
| Store.Summaries | src/db/repository.ts:156-171 | ticker and name of each joined stock, in order |
| Store.OverviewEntries | src/db/repository.ts:153-174 | each entry holds the channel's joined stocks and its schedule expressions |
| Store.Repository.constructor | src/db/schema.ts:4-24 | empty tables in a consistent state |
| Store.Repository.EnsureChannel | src/db/repository.ts:34-38 | the channel table becomes `EnsuredChannels`; nothing else changes |
| Store.Repository.FindStockByTicker | src/db/repository.ts:42-46 | the row found holds the ticker; none exactly when no row has it |
| Store.Repository.UpsertStock | src/db/repository.ts:48-60 | the stock table, counter and returned id are exactly `Upsert`; other tables unchanged |
| Store.Repository.AddChannelStock | src/db/repository.ts:64-75 | the channel is ensured, and the link table and outcome are exactly `AddPair`, an unknown stock id giving the foreign-key error |
| Store.Repository.RemoveChannelStock | src/db/repository.ts:77-84 | false and no change for an unknown ticker; otherwise the pair is removed and the result is whether a row went |
| Store.Repository.GetChannelStocks | src/db/repository.ts:86-96 | only stored stocks linked to the channel, and with unique stock ids all of them |
| Store.Repository.SetSchedules | src/db/repository.ts:100-111 | the channel is ensured, and the schedules and counter are exactly `ReplaceSchedules` |
| Store.Repository.GetSchedules | src/db/repository.ts:113-120 | exactly the channel's schedule rows |
| Store.Repository.GetAllScheduledChannels | src/db/repository.ts:124-134 | channel and expression of every schedule row, in table order |
| Store.Repository.GetAllUniqueTickers | src/db/repository.ts:137-144 | no duplicates, only stored tickers |
| Store.Repository.GetGuildOverview | src/db/repository.ts:148-175 | exactly the guild's channels, each once when channel ids are distinct |
| Scheduling.Task.constructor | src/services/scheduler.ts:26-34 | a running task on the given expression, time zone and channel |
| Scheduling.Task.Stop | src/services/scheduler.ts:46 | afterwards it is stopped |
| Scheduling.TaskKeyInjective | src/services/scheduler.ts:23 | with colon-free channel ids, two rows share a key exactly when they are equal |
| Scheduling.RegistrySnoc | src/services/scheduler.ts:22-36 | one more row registers its key unless the key is taken |
| Scheduling.RegistryKeys | src/services/scheduler.ts:20-36 | the registered keys are exactly `channelId:cron` over the rows |
| Scheduling.RegistryEntries | src/services/scheduler.ts:23-36 | each registered row is one of the rows, under its own key |
| Scheduling.RegistryFirstWins | src/services/scheduler.ts:24 | the row kept for a key is the first row with it; later ones are skipped |
| Scheduling.Decide | src/services/scheduler.ts:59-71 | a composed message uses the channel's tickers in store order and their quote map |
| Scheduling.SkipIff | src/services/scheduler.ts:53-60 | nothing is sent exactly when the channel is missing, not a text channel, or has no stocks |
| Scheduling.WarnIff | src/services/scheduler.ts:63-68 | the warning is sent exactly when the channel has stocks and every quote failed |
| Scheduling.Callback | src/services/scheduler.ts:28-31 | the timer callback ends normally exactly when the notification did; a failure is logged with the channel and error |
| Scheduling.OldTasksGone | src/services/scheduler.ts:18-36 | once the old tasks are stopped and the map runs the registry, no old task is in the map |
| Scheduling.RunsExtend | src/services/scheduler.ts:26-36 | adding a running task for a new key keeps the map's tasks matching the registry |
| Scheduling.Scheduler.ClearAll | src/services/scheduler.ts:44-49 | the map is empty and every task it held is stopped |
| Scheduling.Scheduler.ScheduleRows | src/services/scheduler.ts:22-38 | from an empty map, one running task per registered key, on the kept row's channel and expression, in `Asia/Tokyo` |
| Scheduling.Scheduler.RegisterAll | src/services/scheduler.ts:17-41 | every previous task is stopped and the map runs exactly the registry of the store's rows, so two calls on the same rows give the same keys and size |
| Scheduling.Scheduler.SendNotification | src/services/scheduler.ts:52-73 | nothing for skip; exactly the warning when all quotes failed; otherwise exactly one composed message, with the default title and the field list over the tickers in store order |

## Left out

- I/O is not modelled: the chat service, the SQLite engine, the market-data library and the clock. Each is a parameter instead:
  - a channel kind for the channel fetch;
  - functions for quote and history calls;
  - a formatter for `toLocaleString`/`toFixed`;
  - the formatted time as a string;
  - a renderer that may fail for `generateChart`.
- The chart renderer (src/services/chart.ts) is not part of this model. Its own palette is separate from `StockColors`.
- ScheduleParser.ReverseDays: the text printed for an inherited function follows Node.js, which shows a built-in function as `function name() { [native code] }`. Other engines may print it differently.
- StockUi.Embed.AddField: the discord.js builder's validation is not modelled. It rejects more than 25 fields and empty field names. In the source, a channel following more than 25 stocks gets no message, because the builder throws, the callback catches it and only logs it. The model always composes the message.
- `toUpperCase` is modelled on ASCII letters only; full Unicode case mapping is not modelled.
- Numbers are exact reals and unbounded integers. JavaScript's doubles, rounding, NaN and infinities are not modelled; a NaN market price, which JavaScript treats as falsy, cannot be expressed.
- Retry.Resolve: `maxRetries` is a real, so fractional values behave as in the source. An option passed explicitly as `undefined`, which the object spread lets override a default, is modelled as omitted.
- `Promise.all` fan-outs in `getQuotes` and `createStockNotification` are modelled as sequential loops. Results do not depend on order except for the insertion order of the history map, which only affects the chart's line colours.
- `sleep` is modelled as appending to a log of delays; real timing is not modelled.
- When a cron expression fires, and node-cron's rejection of an invalid expression, are not modelled. A task is a record of its expression, time zone, channel and stopped flag.
- The log lines (`console.log`, `console.error`) are not modelled. The timer callback records that it logged.
- Stock.GetHistory: the date window (`days` before now) is passed to the history call as the day count. `Date` arithmetic is not modelled.
- Store.ChannelStocks: `ORDER BY created_at` is modelled as insertion order, which also decides ties between rows with the same timestamp.
- Store.Repository.AddChannelStock: only the primary-key and foreign-key outcomes of the insert are modelled. Other SQLite failures are not modelled.
- The chat commands (src/commands/) are not part of this model, except the all-or-nothing parse of several times.
- `cronToDescription` in the scheduler's log line is not modelled, because it only feeds the log.
