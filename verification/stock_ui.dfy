/**
 * The notification message: an embed with one field per requested ticker,
 * and a chart attachment when some price history is available and the chart
 * renders.
 *
 * Number and date formatting (`toLocaleString`, `toFixed`) and the chart
 * renderer are parameters: the model only fixes where their output goes.
 */
module StockUi {
  import opened Common
  import opened Stock

  /** One embed field. */
  datatype Field = Field(name: string, value: string, inline: bool)

  /** The number formatters the embed text uses: the price, the change with no decimals and the percentage with two. */
  datatype Formatter = Formatter(price: real -> string, fixed0: real -> string, fixed2: real -> string)

  /** The encoded chart image. */
  type Png = seq<bv8>

  /** A file attached to a message. */
  datatype Attachment = Attachment(data: Png, name: string)

  /** An embed under construction: the fields `addFields` and `setImage` change in place. */
  class Embed {
    var title: string
    var color: int
    var fields: seq<Field>
    var image: Option<string>

    /** `new EmbedBuilder().setTitle(title).setColor(color)`. */
    constructor (title: string, color: int)
      ensures this.title == title && this.color == color
      ensures fields == [] && image == None
    {
      this.title := title;
      this.color := color;
      fields := [];
      image := None;
    }

    /** `addFields(field)`: the field goes at the end. */
    method AddField(field: Field)
      modifies this
      ensures fields == old(fields) + [field]
      ensures title == old(title) && color == old(color) && image == old(image)
    {
      fields := fields + [field];
    }

    /** `setImage(url)`. */
    method SetImage(url: string)
      modifies this
      ensures image == Some(url)
      ensures title == old(title) && color == old(color) && fields == old(fields)
    {
      image := Some(url);
    }
  }

  /** A message: its embeds and, when there are any, its files (`None` is a message without a `files` key). */
  datatype Message = Message(embeds: seq<Embed>, files: Option<seq<Attachment>>)

  const EmbedColor: int := 0x89b4fa
  const FailureText: string := "取得失敗"
  const ChartFileName: string := "chart.png"
  const ChartUrl: string := "attachment://chart.png"
  const ChartDays: int := 30

  // ---------------------------------------------------------------------
  // The quote embed
  // ---------------------------------------------------------------------

  /** The title: the caller's, or the default headline with the current time. */
  function EmbedTitle(title: Option<string>, now: string): (t: string)
    ensures title.Some? ==> t == title.value
    ensures title.None? ==> t == "📈 株価通知 - " + now
  {
    OrElse(title, "📈 株価通知 - " + now)
  }

  /** Up (zero included) or down. */
  function Arrow(change: real): string {
    if change >= 0.0 then "🔺" else "🔻"
  }

  /** An explicit plus sign on a rise or no change; a fall carries its own minus. */
  function Sign(change: real): string {
    if change >= 0.0 then "+" else ""
  }

  /** The arrow points up exactly when the sign is a plus, and both exactly when the change is not negative. */
  lemma ArrowAgreesWithSign(change: real)
    ensures Arrow(change) == "🔺" <==> change >= 0.0
    ensures Sign(change) == "+" <==> change >= 0.0
    ensures Arrow(change) == "🔻" <==> Sign(change) == ""
  {
  }

  /** The change line: the signed change, then the signed percentage. */
  function ChangeText(q: Quote, fmt: Formatter): string {
    var sign := Sign(q.change);
    sign + fmt.fixed0(q.change) + " (" + sign + fmt.fixed2(q.changePercent) + "%)"
  }

  /** A present quote's value: yen price, an ideographic space, the arrow and the change. */
  function QuoteValue(q: Quote, fmt: Formatter): string {
    "¥" + fmt.price(q.price) + "\U{3000}" + Arrow(q.change) + " " + ChangeText(q, fmt)
  }

  /** The field for one ticker. */
  function FieldFor(quotes: map<string, Quote>, ticker: string, fmt: Formatter): (f: Field)
    ensures f.inline <==> ticker !in quotes
  {
    if ticker !in quotes then
      Field(DisplayTicker(ticker), FailureText, true)
    else
      var q := quotes[ticker];
      Field(q.name + " (" + DisplayTicker(ticker) + ")", QuoteValue(q, fmt), false)
  }

  /** The field list `createStockQuoteEmbed` builds: one field per ticker, in order. */
  function Fields(quotes: map<string, Quote>, tickers: seq<string>, fmt: Formatter): (fs: seq<Field>)
    ensures |fs| == |tickers|
  {
    seq(|tickers|, i requires 0 <= i < |tickers| => FieldFor(quotes, tickers[i], fmt))
  }

  /**
   * What the field for the i-th ticker says: a missing quote shows the
   * display code and the failure text inline; a present one shows its name
   * with the display code in brackets, on its own line, with the price and
   * the arrow of its change.
   */
  lemma FieldContents(quotes: map<string, Quote>, tickers: seq<string>, fmt: Formatter, i: int)
    requires 0 <= i < |tickers|
    ensures var f := Fields(quotes, tickers, fmt)[i];
            var t := tickers[i];
            && (t !in quotes ==> f == Field(DisplayTicker(t), "取得失敗", true))
            && (t in quotes ==> && f.name == quotes[t].name + " (" + DisplayTicker(t) + ")"
                                && !f.inline
                                && StartsWith(f.value, "¥" + fmt.price(quotes[t].price))
                                && Contains(f.value, Arrow(quotes[t].change)))
  {
    var t := tickers[i];
    if t in quotes {
      var q := quotes[t];
      var head := "¥" + fmt.price(q.price);
      var v := QuoteValue(q, fmt);
      assert v == head + ("\U{3000}" + Arrow(q.change) + " " + ChangeText(q, fmt));
      assert v[..|head|] == head;
      assert v == (head + "\U{3000}") + Arrow(q.change) + (" " + ChangeText(q, fmt));
      ContainsMiddle(head + "\U{3000}", Arrow(q.change), " " + ChangeText(q, fmt));
    }
  }

  /** Quotes for tickers that were not asked for make no difference to the fields. */
  lemma FieldsIgnoreOtherQuotes(quotes: map<string, Quote>, other: map<string, Quote>, tickers: seq<string>, fmt: Formatter)
    requires forall t :: t in tickers ==> (t in quotes <==> t in other)
    requires forall t :: t in tickers && t in quotes ==> quotes[t] == other[t]
    ensures Fields(quotes, tickers, fmt) == Fields(other, tickers, fmt)
  {
    forall i | 0 <= i < |tickers|
      ensures FieldFor(quotes, tickers[i], fmt) == FieldFor(other, tickers[i], fmt)
    {
      assert tickers[i] in tickers;
    }
  }

  /** Over the map `getQuotes` produced, a ticker's field is a failure field exactly when its quote failed. */
  lemma FailedFieldsAreFailedQuotes(tickers: seq<string>, quote: string -> QuoteCall, fmt: Formatter, i: int)
    requires 0 <= i < |tickers|
    ensures Fields(QuoteMap(tickers, quote), tickers, fmt)[i].inline <==> GetQuote(tickers[i], quote).None?
  {
    QuoteMapEntries(tickers, quote, tickers[i]);
  }

  /** `createStockQuoteEmbed`. */
  method CreateStockQuoteEmbed(quotes: map<string, Quote>, tickers: seq<string>, title: Option<string>, now: string, fmt: Formatter)
    returns (embed: Embed)
    ensures fresh(embed)
    ensures embed.title == EmbedTitle(title, now) && embed.color == EmbedColor
    ensures embed.fields == Fields(quotes, tickers, fmt)
    ensures embed.image == None
  {
    embed := new Embed(EmbedTitle(title, now), EmbedColor);
    for i := 0 to |tickers|
      invariant embed.title == EmbedTitle(title, now) && embed.color == EmbedColor
      invariant embed.fields == Fields(quotes, tickers[..i], fmt)
      invariant embed.image == None
    {
      var ticker := tickers[i];
      var field: Field;
      if ticker !in quotes {
        field := Field(DisplayTicker(ticker), FailureText, true);
      } else {
        var q := quotes[ticker];
        field := Field(q.name + " (" + DisplayTicker(ticker) + ")", QuoteValue(q, fmt), false);
      }
      embed.AddField(field);
      assert Fields(quotes, tickers[..i + 1], fmt) == Fields(quotes, tickers[..i], fmt) + [field];
    }
    assert tickers[..|tickers|] == tickers;
  }

  // ---------------------------------------------------------------------
  // Chart attachment
  // ---------------------------------------------------------------------

  /** `createStockMessageWithChart`: attach the chart as `chart.png` and point the embed's image at it. */
  method CreateStockMessageWithChart(embed: Embed, chart: Png) returns (msg: Message)
    modifies embed
    ensures embed.image == Some("attachment://chart.png")
    ensures embed.title == old(embed.title) && embed.color == old(embed.color) && embed.fields == old(embed.fields)
    ensures msg == Message([embed], Some([Attachment(chart, "chart.png")]))
  {
    embed.SetImage(ChartUrl);
    msg := Message([embed], Some([Attachment(chart, ChartFileName)]));
  }

  /** The histories the chart is drawn from: every requested ticker whose 30-day history is not empty. */
  function HistoryMap(tickers: seq<string>, historical: (string, int) -> HistoryCall): (m: map<string, seq<HistoryPoint>>)
    ensures forall t :: t in m ==> t in tickers && m[t] != []
  {
    map t | t in tickers && GetHistory(t, ChartDays, historical) != [] :: GetHistory(t, ChartDays, historical)
  }

  /** A ticker's history is charted exactly when its 30-day request returned at least one row. */
  lemma HistoryMapEntries(tickers: seq<string>, historical: (string, int) -> HistoryCall, t: string)
    ensures t in HistoryMap(tickers, historical) <==>
      t in tickers && historical(t, 30).HistoryReturned? && historical(t, 30).rows != []
    ensures t in HistoryMap(tickers, historical) ==>
      HistoryMap(tickers, historical)[t] == GetHistory(t, 30, historical)
  {
    HistoryEmptyIff(t, 30, historical);
  }

  /** One more ticker adds its history, if it has one, and nothing else. */
  lemma HistoryMapSnoc(tickers: seq<string>, t: string, historical: (string, int) -> HistoryCall)
    ensures var h := GetHistory(t, ChartDays, historical);
            && (h != [] ==> HistoryMap(tickers + [t], historical) == HistoryMap(tickers, historical)[t := h])
            && (h == [] ==> HistoryMap(tickers + [t], historical) == HistoryMap(tickers, historical))
  {
    var m, m' := HistoryMap(tickers, historical), HistoryMap(tickers + [t], historical);
    forall u
      ensures u in m' <==> u in m || (u == t && GetHistory(t, ChartDays, historical) != [])
    {
      assert u in tickers + [t] <==> u in tickers || u == t;
    }
  }

  /** The `historyMap` loop: ask for each ticker's 30-day history and keep the non-empty ones. */
  method CollectHistories(tickers: seq<string>, historical: (string, int) -> HistoryCall)
    returns (histories: map<string, seq<HistoryPoint>>)
    ensures histories == HistoryMap(tickers, historical)
  {
    histories := map[];
    for i := 0 to |tickers|
      invariant histories == HistoryMap(tickers[..i], historical)
    {
      var ticker := tickers[i];
      var history := GetHistory(ticker, ChartDays, historical);
      HistoryMapSnoc(tickers[..i], ticker, historical);
      assert tickers[..i + 1] == tickers[..i] + [ticker];
      if |history| > 0 {
        histories := histories[ticker := history];
      }
    }
    assert tickers[..|tickers|] == tickers;
  }

  /**
   * `createStockNotification`. `render` is the chart renderer: `None` when it
   * throws. `rendered` tells whether it was asked for a chart at all.
   */
  method CreateStockNotification(
    quotes: map<string, Quote>, tickers: seq<string>, title: Option<string>, now: string, fmt: Formatter,
    historical: (string, int) -> HistoryCall, render: map<string, seq<HistoryPoint>> -> Option<Png>)
    returns (msg: Message, rendered: bool)
    ensures |msg.embeds| == 1 && fresh(msg.embeds[0])
    ensures var embed := msg.embeds[0];
            && embed.title == EmbedTitle(title, now) && embed.color == EmbedColor
            && embed.fields == Fields(quotes, tickers, fmt)
    ensures rendered <==> |HistoryMap(tickers, historical)| > 0
    ensures msg.files.Some? <==> rendered && render(HistoryMap(tickers, historical)).Some?
    ensures msg.files.Some? ==>
      && msg.files.value == [Attachment(render(HistoryMap(tickers, historical)).value, "chart.png")]
      && msg.embeds[0].image == Some("attachment://chart.png")
    ensures msg.files.None? ==> msg.embeds[0].image == None
  {
    var embed := CreateStockQuoteEmbed(quotes, tickers, title, now, fmt);
    var histories := CollectHistories(tickers, historical);
    rendered := |histories| > 0;
    if rendered {
      var chart := render(histories);
      if chart.Some? {
        msg := CreateStockMessageWithChart(embed, chart.value);
      } else {
        msg := Message([embed], None);
      }
    } else {
      msg := Message([embed], None);
    }
  }

  /** No chart is requested exactly when every ticker's history request threw or came back empty. */
  lemma NoChartWithoutHistory(tickers: seq<string>, historical: (string, int) -> HistoryCall)
    ensures |HistoryMap(tickers, historical)| == 0 <==>
      forall i :: 0 <= i < |tickers| ==> historical(tickers[i], 30).HistoryThrew? || historical(tickers[i], 30).rows == []
  {
    var m := HistoryMap(tickers, historical);
    if |m| == 0 {
      forall i | 0 <= i < |tickers|
        ensures historical(tickers[i], 30).HistoryThrew? || historical(tickers[i], 30).rows == []
      {
        HistoryMapEntries(tickers, historical, tickers[i]);
      }
    } else {
      var t :| t in m;
      HistoryMapEntries(tickers, historical, t);
      var i :| 0 <= i < |tickers| && tickers[i] == t;
    }
  }
}
