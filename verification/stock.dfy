/**
 * Ticker normalisation and the shaping of market-data answers.
 *
 * The market-data library is not modelled: `quote` and `historical` stand
 * for what the library did for a given ticker (returned a response, returned
 * nothing, or threw), and the operations here are what the notifier makes of
 * those answers.
 */
module Stock {
  import opened Common

  // ---------------------------------------------------------------------
  // Ticker strings
  // ---------------------------------------------------------------------

  /** `toUpperCase` on one character, for the ASCII letters. */
  function UpperChar(c: char): char {
    if 'a' <= c <= 'z' then (c as int - 32) as char else c
  }

  /** `toUpperCase` on a string, character by character. */
  function ToUpper(s: string): (r: string)
    ensures |r| == |s|
    ensures forall i :: 0 <= i < |s| ==> r[i] == UpperChar(s[i])
  {
    seq(|s|, i requires 0 <= i < |s| => UpperChar(s[i]))
  }

  /** A string that upper-casing leaves alone. */
  predicate IsUpperCased(s: string) {
    forall i :: 0 <= i < |s| ==> UpperChar(s[i]) == s[i]
  }

  /** Upper-casing neither creates nor removes whitespace. */
  lemma UpperCharKeepsWhitespace(c: char)
    ensures IsWhitespace(UpperChar(c)) <==> IsWhitespace(c)
  {
  }

  /** A string with no surrounding whitespace. */
  predicate IsTrimmed(s: string) {
    s != [] ==> !IsWhitespace(s[0]) && !IsWhitespace(s[|s| - 1])
  }

  lemma UpperKeepsTrimmed(s: string)
    requires IsTrimmed(s)
    ensures IsTrimmed(ToUpper(s)) && IsUpperCased(ToUpper(s))
  {
    if s != [] {
      UpperCharKeepsWhitespace(s[0]);
      UpperCharKeepsWhitespace(s[|s| - 1]);
    }
  }

  lemma WithSuffix(s: string)
    requires IsTrimmed(s) && IsUpperCased(s)
    ensures var t := s + ".T"; IsTrimmed(t) && IsUpperCased(t) && EndsWith(t, ".T")
  {
    var t := s + ".T";
    assert t[|t| - 2..] == ".T";
    assert t[|t| - 1] == 'T';
    assert t[0] == if s == [] then '.' else s[0];
    forall i | 0 <= i < |t|
      ensures UpperChar(t[i]) == t[i]
    {
      if i < |s| {
        assert t[i] == s[i];
      } else {
        assert t[i] == '.' || t[i] == 'T';
      }
    }
  }

  /** `toTokyoTicker`: trim, upper-case, and add the Tokyo suffix `.T` unless it is already there. */
  function ToTokyoTicker(input: string): (ticker: string)
    ensures EndsWith(ticker, ".T")
    ensures IsTrimmed(ticker) && IsUpperCased(ticker)
    ensures ticker == DisplayTicker(ToUpper(Trim(input))) + ".T"
  {
    var trimmed := ToUpper(Trim(input));
    UpperKeepsTrimmed(Trim(input));
    if EndsWith(trimmed, ".T") then trimmed
    else
      WithSuffix(trimmed);
      trimmed + ".T"
  }

  /** `displayTicker`: drop one trailing `.T`, if there is one. */
  function DisplayTicker(ticker: string): (code: string)
    ensures EndsWith(ticker, ".T") ==> code + ".T" == ticker
    ensures !EndsWith(ticker, ".T") ==> code == ticker
  {
    if EndsWith(ticker, ".T") then ticker[..|ticker| - 2] else ticker
  }

  lemma UpperCasedIsFixed(s: string)
    requires IsUpperCased(s)
    ensures ToUpper(s) == s
  {
  }

  /** Normalising an already normalised ticker changes nothing. */
  lemma TokyoTickerIdempotent(input: string)
    ensures ToTokyoTicker(ToTokyoTicker(input)) == ToTokyoTicker(input)
  {
    var t := ToTokyoTicker(input);
    TrimOfTrimmed(t);
    UpperCasedIsFixed(t);
  }

  /** Every normalised ticker is its display code followed by `.T`. */
  lemma TokyoTickerSplits(input: string)
    ensures DisplayTicker(ToTokyoTicker(input)) + ".T" == ToTokyoTicker(input)
  {
  }

  /** A code that is already trimmed and upper-case and lacks the suffix gets exactly `.T` appended. */
  lemma CodeGetsSuffix(code: string)
    requires IsTrimmed(code) && IsUpperCased(code) && !EndsWith(code, ".T")
    ensures ToTokyoTicker(code) == code + ".T"
  {
    TrimOfTrimmed(code);
    UpperCasedIsFixed(code);
    assert ToUpper(Trim(code)) == code;
  }

  /** For such a code, `displayTicker` gives the code back. */
  lemma CodeRoundTrip(code: string)
    requires IsTrimmed(code) && IsUpperCased(code) && !EndsWith(code, ".T")
    ensures DisplayTicker(ToTokyoTicker(code)) == code
  {
    CodeGetsSuffix(code);
    var t := code + ".T";
    assert t[|t| - 2..] == ".T";
    assert t[..|t| - 2] == code;
  }

  /** A numeric securities code such as `2802` becomes `2802.T`. */
  lemma NumericCodeRoundTrip(code: string)
    requires code != [] && AllDigits(code)
    ensures ToTokyoTicker(code) == code + ".T"
    ensures DisplayTicker(ToTokyoTicker(code)) == code
  {
    assert !IsWhitespace(code[0]) && !IsWhitespace(code[|code| - 1]);
    assert code[|code| - 1] != 'T';
    CodeGetsSuffix(code);
    CodeRoundTrip(code);
  }

  lemma ExampleNumericCode()
    ensures ToTokyoTicker("2802") == "2802.T"
  {
    NumericCodeRoundTrip("2802");
  }

  // ---------------------------------------------------------------------
  // Quotes
  // ---------------------------------------------------------------------

  /** The fields of a quote response the notifier reads; `None` is a missing (`null`/`undefined`) field. */
  datatype QuoteResponse = QuoteResponse(
    regularMarketPrice: Option<real>,
    regularMarketPreviousClose: Option<real>,
    shortName: Option<string>,
    longName: Option<string>,
    currency: Option<string>)

  /** What the library's quote call did for one ticker. */
  datatype QuoteCall = QuoteThrew | QuoteReturned(response: Option<QuoteResponse>)

  /** `StockQuote`. */
  datatype Quote = Quote(
    ticker: string,
    name: string,
    price: real,
    previousClose: real,
    change: real,
    changePercent: real,
    currency: string)

  const DefaultCurrency: string := "JPY"

  /** The call returned a response whose price is truthy: present and not zero. */
  predicate HasTruthyPrice(call: QuoteCall) {
    && call.QuoteReturned?
    && call.response.Some?
    && call.response.value.regularMarketPrice.Some?
    && call.response.value.regularMarketPrice.value != 0.0
  }

  /** `getQuote`: `quote(ticker)` is what the library did for this ticker. */
  function GetQuote(ticker: string, quote: string -> QuoteCall): (q: Option<Quote>)
    ensures q.Some? <==> HasTruthyPrice(quote(ticker))
    ensures q.Some? ==> q.value.ticker == ticker && q.value.price != 0.0
    ensures q.Some? ==> q.value.price == q.value.previousClose + q.value.change
  {
    var call := quote(ticker);
    if !HasTruthyPrice(call) then None
    else
      var result := call.response.value;
      var price := result.regularMarketPrice.value;
      var previousClose := OrElse(result.regularMarketPreviousClose, price);
      var change := price - previousClose;
      var changePercent := if previousClose != 0.0 then (change / previousClose) * 100.0 else 0.0;
      Some(Quote(
        ticker,
        OrElse(result.shortName, OrElse(result.longName, ticker)),
        price,
        previousClose,
        change,
        changePercent,
        OrElse(result.currency, DefaultCurrency)))
  }

  /** No quote when the call threw, returned nothing, or returned a missing or zero price. */
  lemma QuoteAbsentCases(ticker: string, quote: string -> QuoteCall)
    ensures GetQuote(ticker, quote).None? <==>
      || quote(ticker).QuoteThrew?
      || quote(ticker).response.None?
      || quote(ticker).response.value.regularMarketPrice.None?
      || quote(ticker).response.value.regularMarketPrice == Some(0.0)
  {
  }

  /**
   * The derived numbers: the previous close falls back to the price, the
   * change is their difference, and the percentage is the change relative to
   * the previous close, or 0 when that is 0.
   */
  lemma QuoteDerivation(ticker: string, quote: string -> QuoteCall)
    requires HasTruthyPrice(quote(ticker))
    ensures var r := quote(ticker).response.value;
            var q := GetQuote(ticker, quote).value;
            && q.price == r.regularMarketPrice.value
            && (r.regularMarketPreviousClose.Some? ==> q.previousClose == r.regularMarketPreviousClose.value)
            && (r.regularMarketPreviousClose.None? ==> q.previousClose == q.price)
            && (q.previousClose != 0.0 ==> q.changePercent * q.previousClose == q.change * 100.0)
            && (q.previousClose == 0.0 ==> q.changePercent == 0.0)
  {
  }

  /** Without a previous close the quote shows no movement at all. */
  lemma NoPreviousCloseMeansNoChange(ticker: string, quote: string -> QuoteCall)
    requires HasTruthyPrice(quote(ticker))
    requires quote(ticker).response.value.regularMarketPreviousClose.None?
    ensures GetQuote(ticker, quote).value.change == 0.0
    ensures GetQuote(ticker, quote).value.changePercent == 0.0
  {
  }

  /** With a positive previous close, the percentage has the sign of the change. */
  lemma PercentFollowsChange(ticker: string, quote: string -> QuoteCall)
    requires HasTruthyPrice(quote(ticker))
    requires GetQuote(ticker, quote).value.previousClose > 0.0
    ensures var q := GetQuote(ticker, quote).value;
            (q.changePercent >= 0.0 <==> q.change >= 0.0) && (q.changePercent == 0.0 <==> q.change == 0.0)
  {
    var q := GetQuote(ticker, quote).value;
    assert q.changePercent * q.previousClose == q.change * 100.0;
  }

  /** The name falls back from the short name to the long name to the ticker; the currency defaults to yen. */
  lemma QuoteLabels(ticker: string, quote: string -> QuoteCall)
    requires HasTruthyPrice(quote(ticker))
    ensures var r := quote(ticker).response.value;
            var q := GetQuote(ticker, quote).value;
            && (r.shortName.Some? ==> q.name == r.shortName.value)
            && (r.shortName.None? && r.longName.Some? ==> q.name == r.longName.value)
            && (r.shortName.None? && r.longName.None? ==> q.name == ticker)
            && (r.currency.Some? ==> q.currency == r.currency.value)
            && (r.currency.None? ==> q.currency == "JPY")
  {
  }

  // ---------------------------------------------------------------------
  // Several quotes at once
  // ---------------------------------------------------------------------

  /** The map `getQuotes` settles on: every requested ticker that has a quote, mapped to it. */
  function QuoteMap(tickers: seq<string>, quote: string -> QuoteCall): (m: map<string, Quote>)
    ensures forall t :: t in m ==> t in tickers && m[t].ticker == t
  {
    map t | t in tickers && GetQuote(t, quote).Some? :: GetQuote(t, quote).value
  }

  /** The map holds a ticker exactly when it was requested and its quote succeeded, and holds that quote. */
  lemma QuoteMapEntries(tickers: seq<string>, quote: string -> QuoteCall, t: string)
    ensures t in QuoteMap(tickers, quote) <==> t in tickers && GetQuote(t, quote).Some?
    ensures t in QuoteMap(tickers, quote) ==> Some(QuoteMap(tickers, quote)[t]) == GetQuote(t, quote)
  {
  }

  /** The map is empty exactly when every requested quote failed. */
  lemma QuoteMapEmptyIffAllFailed(tickers: seq<string>, quote: string -> QuoteCall)
    ensures |QuoteMap(tickers, quote)| == 0 <==> forall i :: 0 <= i < |tickers| ==> GetQuote(tickers[i], quote).None?
  {
    var m := QuoteMap(tickers, quote);
    if |m| == 0 {
      forall i | 0 <= i < |tickers|
        ensures GetQuote(tickers[i], quote).None?
      {
        assert tickers[i] !in m;
      }
    } else {
      var t :| t in m;
      assert t in tickers;
    }
  }

  /** The order in which the quotes arrive does not matter: only which tickers were asked for. */
  lemma QuoteMapOrderFree(a: seq<string>, b: seq<string>, quote: string -> QuoteCall)
    requires forall t :: t in a <==> t in b
    ensures QuoteMap(a, quote) == QuoteMap(b, quote)
  {
  }

  /** One more ticker adds its quote, if it has one, and nothing else. */
  lemma QuoteMapSnoc(tickers: seq<string>, t: string, quote: string -> QuoteCall)
    ensures GetQuote(t, quote).Some? ==> QuoteMap(tickers + [t], quote) == QuoteMap(tickers, quote)[t := GetQuote(t, quote).value]
    ensures GetQuote(t, quote).None? ==> QuoteMap(tickers + [t], quote) == QuoteMap(tickers, quote)
  {
    var m, m' := QuoteMap(tickers, quote), QuoteMap(tickers + [t], quote);
    forall u
      ensures u in m' <==> u in m || (u == t && GetQuote(t, quote).Some?)
    {
      assert u in tickers + [t] <==> u in tickers || u == t;
    }
  }

  /**
   * `getQuotes`: ask for every ticker and record the quotes that came back.
   * The fan-out is taken one ticker at a time; by `QuoteMapOrderFree` the
   * order does not change the outcome.
   */
  method GetQuotes(tickers: seq<string>, quote: string -> QuoteCall) returns (results: map<string, Quote>)
    ensures results == QuoteMap(tickers, quote)
  {
    results := map[];
    for i := 0 to |tickers|
      invariant results == QuoteMap(tickers[..i], quote)
    {
      var ticker := tickers[i];
      var q := GetQuote(ticker, quote);
      QuoteMapSnoc(tickers[..i], ticker, quote);
      assert tickers[..i + 1] == tickers[..i] + [ticker];
      if q.Some? {
        results := results[ticker := q.value];
      }
    }
    assert tickers[..|tickers|] == tickers;
  }

  // ---------------------------------------------------------------------
  // Ticker validation
  // ---------------------------------------------------------------------

  /** `{ valid, name? }`. */
  datatype Validation = Validation(valid: bool, name: Option<string>)

  /** `validateTicker`. */
  function ValidateTicker(ticker: string, quote: string -> QuoteCall): (v: Validation)
    ensures v.valid <==> HasTruthyPrice(quote(ticker))
    ensures !v.valid ==> v.name.None?
  {
    var call := quote(ticker);
    if HasTruthyPrice(call) then
      var result := call.response.value;
      Validation(true, if result.shortName.Some? then result.shortName else result.longName)
    else
      Validation(false, None)
  }

  /**
   * A ticker is valid exactly when its quote succeeds, and the quote's name is
   * the validated name, or the ticker itself when there is none.
   */
  lemma ValidIffQuoted(ticker: string, quote: string -> QuoteCall)
    ensures ValidateTicker(ticker, quote).valid <==> GetQuote(ticker, quote).Some?
    ensures ValidateTicker(ticker, quote).valid ==>
      GetQuote(ticker, quote).value.name == OrElse(ValidateTicker(ticker, quote).name, ticker)
  {
  }

  // ---------------------------------------------------------------------
  // Price history
  // ---------------------------------------------------------------------

  /** A timestamp; the model only copies it. */
  type Date = int

  /** One daily row of the library's history; `None` is a missing value. */
  datatype HistoryRow = HistoryRow(
    date: Date,
    open: Option<real>,
    high: Option<real>,
    low: Option<real>,
    close: Option<real>,
    volume: Option<real>)

  /** What the library's history call did. */
  datatype HistoryCall = HistoryThrew | HistoryReturned(rows: seq<HistoryRow>)

  /** `StockHistory`; a row without a close keeps its missing close. */
  datatype HistoryPoint = HistoryPoint(date: Date, close: Option<real>)

  const DefaultHistoryDays: int := 30

  /** Project one row onto its date and close. */
  function ToPoint(row: HistoryRow): HistoryPoint {
    HistoryPoint(row.date, row.close)
  }

  /**
   * `getHistory(ticker, days)`: `historical(ticker, days)` is what the library
   * did for the window of the last `days` days.
   */
  function GetHistory(ticker: string, days: int, historical: (string, int) -> HistoryCall): (h: seq<HistoryPoint>)
    ensures historical(ticker, days).HistoryThrew? ==> h == []
    ensures historical(ticker, days).HistoryReturned? ==> |h| == |historical(ticker, days).rows|
  {
    match historical(ticker, days)
    case HistoryThrew => []
    case HistoryReturned(rows) => seq(|rows|, i requires 0 <= i < |rows| => ToPoint(rows[i]))
  }

  /** Every row becomes one point, in the same position, with that row's date and close; none is dropped. */
  lemma HistoryKeepsRows(ticker: string, days: int, historical: (string, int) -> HistoryCall, i: int)
    requires historical(ticker, days).HistoryReturned?
    requires 0 <= i < |historical(ticker, days).rows|
    ensures var row := historical(ticker, days).rows[i];
            GetHistory(ticker, days, historical)[i] == HistoryPoint(row.date, row.close)
  {
  }

  /** The history is empty exactly when the call threw or returned no rows. */
  lemma HistoryEmptyIff(ticker: string, days: int, historical: (string, int) -> HistoryCall)
    ensures GetHistory(ticker, days, historical) == [] <==>
      historical(ticker, days).HistoryThrew? || historical(ticker, days).rows == []
  {
  }
}
