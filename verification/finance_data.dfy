/** The stock-price handler: the company name read after "price of ", its
    ticker in the fixed table, the currency inferred from the ticker, the
    fallback chain of price sources and the reply text. The market data
    provider is an input: what it would answer for a ticker. */
module FinanceData {
  import opened Wrappers
  import opened Text

  // ---------------------------------------------------------------------
  // Reading the company name: `re.search(r'price of ([a-zA-Z. ]+)', msg)`.

  const Trigger := "price of "

  predicate IsNameChar(c: char) {
    'a' <= c <= 'z' || 'A' <= c <= 'Z' || c == '.' || c == ' '
  }

  /** End of the run of name characters starting at `k`. */
  function NameEnd(s: string, k: nat): (j: nat)
    requires k <= |s|
    ensures k <= j <= |s|
    ensures forall t :: k <= t < j ==> IsNameChar(s[t])
    ensures j == |s| || !IsNameChar(s[j])
    decreases |s| - k
  {
    if k == |s| || !IsNameChar(s[k]) then k else NameEnd(s, k + 1)
  }

  /** The pattern matches at `i` with the group spanning `[i + 9, j)`. */
  ghost predicate CaptureAt(s: string, i: nat, j: nat) {
    OccursAt(s, Trigger, i) && i + |Trigger| < j <= |s|
    && forall t :: i + |Trigger| <= t < j ==> IsNameChar(s[t])
  }

  /** The span `re.search` reports: the leftmost position where the pattern
      matches and, there, the longest group. */
  ghost predicate IsCaptureResult(s: string, i: nat, j: nat) {
    CaptureAt(s, i, j)
    && (forall i': nat, j': nat :: i' < i && CaptureAt(s, i', j') ==> false)
    && (forall j': nat :: CaptureAt(s, i, j') ==> j' <= j)
  }

  /** Scans for the pattern from position `k`. */
  function FindCapture(s: string, k: nat): Option<(nat, nat)>
    decreases |s| - k
  {
    if k + |Trigger| >= |s| then None
    else if OccursAt(s, Trigger, k) && IsNameChar(s[k + |Trigger|]) then Some((k, NameEnd(s, k + |Trigger|)))
    else FindCapture(s, k + 1)
  }

  /** The scanner from `k` finds the leftmost-longest match among those at
      or after `k`, and finds nothing exactly when there is none. */
  lemma {:induction false} FindCaptureIsLeftmostLongest(s: string, k: nat)
    ensures FindCapture(s, k).Some? ==>
      var (i, j) := FindCapture(s, k).value;
      k <= i && CaptureAt(s, i, j)
      && (forall i': nat, j': nat :: k <= i' < i && CaptureAt(s, i', j') ==> false)
      && (forall j': nat :: CaptureAt(s, i, j') ==> j' <= j)
    ensures FindCapture(s, k).None? ==> forall i': nat, j': nat :: k <= i' && CaptureAt(s, i', j') ==> false
    decreases |s| - k
  {
    if k + |Trigger| >= |s| {
    } else if OccursAt(s, Trigger, k) && IsNameChar(s[k + |Trigger|]) {
      var j := NameEnd(s, k + |Trigger|);
      forall j': nat | CaptureAt(s, k, j') ensures j' <= j {
      }
    } else {
      FindCaptureIsLeftmostLongest(s, k + 1);
      forall j': nat | CaptureAt(s, k, j') ensures false {
      }
    }
  }

  /** The captured group, or `None` when the pattern does not match. */
  function Capture(s: string): (r: Option<string>)
    ensures r.Some? ==> |r.value| > 0 && forall t :: 0 <= t < |r.value| ==> IsNameChar(r.value[t])
  {
    match FindCapture(s, 0)
    case None => None
    case Some(span) =>
      FindCaptureIsLeftmostLongest(s, 0);
      assert forall t :: span.0 + |Trigger| <= t < span.1 ==> IsNameChar(s[t]);
      Some(s[span.0 + |Trigger|..span.1])
  }

  /** The group is the one `re.search` reports, and there is none exactly
      when the pattern matches nowhere. */
  lemma CaptureIsSearchResult(s: string)
    ensures Capture(s).None? <==> forall i: nat, j: nat :: CaptureAt(s, i, j) ==> false
    ensures Capture(s).Some? ==>
      exists i: nat, j: nat :: IsCaptureResult(s, i, j) && Capture(s).value == s[i + |Trigger|..j]
  {
    FindCaptureIsLeftmostLongest(s, 0);
    if FindCapture(s, 0).Some? {
      var (i, j) := FindCapture(s, 0).value;
      assert IsCaptureResult(s, i, j);
    }
  }

  /** `match.group(1).strip().upper()`. */
  function Normalize(g: string): string {
    Upper(Trim(g))
  }

  /** The company name a message asks about, if any. */
  function CompanyOf(message: string): Option<string> {
    match Capture(Lower(message))
    case None => None
    case Some(g) => Some(Normalize(g))
  }

  // ---------------------------------------------------------------------
  // The symbol table and the currency.

  /** `stock_map`: upper-case company names to tickers. */
  const Symbols: map<string, string> := map[
    "TCS" := "TCS.NS",
    "INFOSYS" := "INFY.NS",
    "RELIANCE" := "RELIANCE.NS",
    "HDFC" := "HDFCBANK.NS",
    "ICICI" := "ICICIBANK.NS",
    "WIPRO" := "WIPRO.NS",
    "HINDUSTAN UNILEVER" := "HINDUNILVR.NS",
    "TATA STEEL" := "TATASTEEL.NS",
    "TESLA" := "TSLA",
    "APPLE" := "AAPL",
    "MICROSOFT" := "MSFT"
  ]

  /** The ticker a message asks about: exact lookup of the normalised name. */
  function SymbolOf(message: string): Option<string> {
    match CompanyOf(message)
    case None => None
    case Some(name) => if name in Symbols then Some(Symbols[name]) else None
  }

  datatype Currency = INR | USD

  /** A ticker on the National Stock Exchange of India ends in ".NS". */
  function CurrencyOf(symbol: string): (c: Currency)
    ensures c == INR <==> EndsWith(Upper(symbol), ".NS")
  {
    if EndsWith(Upper(symbol), ".NS") then INR else USD
  }

  /** The Indian companies of the table. */
  const IndianNames: set<string> :=
    {"TCS", "INFOSYS", "RELIANCE", "HDFC", "ICICI", "WIPRO", "HINDUSTAN UNILEVER", "TATA STEEL"}

  /** The United States companies of the table. */
  const AmericanNames: set<string> := {"TESLA", "APPLE", "MICROSOFT"}

  const IndianTickers: set<string> :=
    {"TCS.NS", "INFY.NS", "RELIANCE.NS", "HDFCBANK.NS", "ICICIBANK.NS", "WIPRO.NS", "HINDUNILVR.NS", "TATASTEEL.NS"}

  const AmericanTickers: set<string> := {"TSLA", "AAPL", "MSFT"}

  /** The table holds eight Indian companies and three American ones. */
  lemma TableByCountry()
    ensures |IndianNames| == 8 && |AmericanNames| == 3 && IndianNames !! AmericanNames
    ensures Symbols.Keys == IndianNames + AmericanNames
  {
    CountriesDisjoint();
  }

  lemma CountriesDisjoint()
    ensures |IndianNames| == 8 && |AmericanNames| == 3 && IndianNames !! AmericanNames
  {
  }

  /** The Indian companies are quoted in rupees and the American ones in
      dollars. */
  lemma CurrencyByCountry()
    ensures forall name :: name in IndianNames ==> CurrencyOf(Symbols[name]) == INR
    ensures forall name :: name in AmericanNames ==> CurrencyOf(Symbols[name]) == USD
  {
    TickersByCountry();
    IndianTickersInRupees();
    AmericanTickersInDollars();
  }

  lemma TickersByCountry()
    ensures forall name :: name in IndianNames ==> Symbols[name] in IndianTickers
    ensures forall name :: name in AmericanNames ==> Symbols[name] in AmericanTickers
  {
  }

  lemma IndianTickersInRupees()
    ensures forall t :: t in IndianTickers ==> CurrencyOf(t) == INR
  {
    forall t | t in IndianTickers ensures CurrencyOf(t) == INR {
      NseSuffix(t);
    }
  }

  lemma AmericanTickersInDollars()
    ensures forall t :: t in AmericanTickers ==> CurrencyOf(t) == USD
  {
    forall t | t in AmericanTickers ensures CurrencyOf(t) == USD {
      NoNseSuffix(t);
    }
  }

  lemma NseSuffix(symbol: string)
    requires |symbol| >= 3 && symbol[|symbol| - 3] == '.' && symbol[|symbol| - 2] == 'N' && symbol[|symbol| - 1] == 'S'
    ensures CurrencyOf(symbol) == INR
  {
    var u := Upper(symbol);
    assert u[|u| - 3..] == ".NS";
  }

  lemma NoNseSuffix(symbol: string)
    requires |symbol| >= 1 && 'A' <= symbol[|symbol| - 1] <= 'Z' && symbol[|symbol| - 1] != 'S'
    ensures CurrencyOf(symbol) == USD
  {
    var u := Upper(symbol);
    assert u[|u| - 1] != 'S';
  }

  // ---------------------------------------------------------------------
  // `get_stock_price`: the fallback chain of price sources.

  /** What a history request gave: the closing prices of its rows (none
      for an empty or missing frame), or an exception. */
  datatype History = Rows(closes: seq<real>) | Fails

  /** What the provider answers for one ticker. `tickerFails` covers every
      exception outside the inner `try`: creating the ticker, reaching its
      fast quote, or reading a history. `fastPrice` is the `last_price` of
      the fast quote, `None` when the quote or the field is missing or when
      reading the field raises. */
  datatype Feed = Feed(tickerFails: bool, fastPrice: Option<real>, intraday: History, fiveDay: History)

  /** The price and its currency, or `None`; never an exception. */
  function StockPrice(symbol: string, feed: Feed): Option<(real, Currency)> {
    if feed.tickerFails then None
    else if feed.fastPrice.Some? && feed.fastPrice.value != 0.0 then Some((feed.fastPrice.value, CurrencyOf(symbol)))
    else
      match feed.intraday
      case Fails => None
      case Rows(day) =>
        if day != [] then Some((day[|day| - 1], CurrencyOf(symbol)))
        else
          match feed.fiveDay
          case Fails => None
          case Rows(week) => if week != [] then Some((week[|week| - 1], CurrencyOf(symbol))) else None
  }

  /** One step of a fallback chain: a value, nothing (try the next source),
      or an exception that ends the chain. */
  datatype Attempt = Value(price: real) | Nothing | Abort

  /** The first value of the chain, unless an exception comes first. */
  function FirstValue(chain: seq<Attempt>): Option<real> {
    if chain == [] then None
    else match chain[0]
      case Value(p) => Some(p)
      case Abort => None
      case Nothing => FirstValue(chain[1..])
  }

  /** The chain yields a value exactly when some source has one and every
      source before it has nothing (no exception); the value is that
      source's. */
  lemma {:induction false} FirstValueIsFirstSource(chain: seq<Attempt>)
    ensures FirstValue(chain).Some? <==>
      exists k :: 0 <= k < |chain| && chain[k].Value? && forall t :: 0 <= t < k ==> chain[t].Nothing?
    ensures forall k :: 0 <= k < |chain| && chain[k].Value? && (forall t :: 0 <= t < k ==> chain[t].Nothing?) ==>
      FirstValue(chain) == Some(chain[k].price)
  {
    if chain != [] && chain[0].Nothing? {
      var rest := chain[1..];
      FirstValueIsFirstSource(rest);
      if FirstValue(chain).Some? {
        var k :| 0 <= k < |rest| && rest[k].Value? && forall t :: 0 <= t < k ==> rest[t].Nothing?;
        assert chain[k + 1].Value? && forall t :: 0 <= t < k + 1 ==> chain[t].Nothing?;
      }
      forall k | 0 <= k < |chain| && chain[k].Value? && (forall t :: 0 <= t < k ==> chain[t].Nothing?)
        ensures FirstValue(chain) == Some(chain[k].price)
      {
        assert k > 0;
        assert rest[k - 1] == chain[k];
        assert forall t :: 0 <= t < k - 1 ==> rest[t].Nothing? by {
          forall t | 0 <= t < k - 1 ensures rest[t].Nothing? {
            assert rest[t] == chain[t + 1];
          }
        }
      }
    } else if chain != [] {
      forall k | 0 <= k < |chain| && chain[k].Value? && (forall t :: 0 <= t < k ==> chain[t].Nothing?)
        ensures k == 0
      {
      }
    }
  }

  function FastAttempt(fast: Option<real>): Attempt {
    if fast.Some? && fast.value != 0.0 then Value(fast.value) else Nothing
  }

  function HistoryAttempt(h: History): Attempt {
    match h
    case Fails => Abort
    case Rows(closes) => if closes == [] then Nothing else Value(closes[|closes| - 1])
  }

  /** The three sources in the order they are consulted. */
  function Chain(feed: Feed): seq<Attempt> {
    if feed.tickerFails then [Abort]
    else [FastAttempt(feed.fastPrice), HistoryAttempt(feed.intraday), HistoryAttempt(feed.fiveDay)]
  }

  /** The price is the first source that yields one, in the order fast
      quote, one-day intraday history, five-day history; an exception on
      the way gives `None`. The currency follows the ticker alone. */
  lemma StockPriceFollowsChain(symbol: string, feed: Feed)
    ensures StockPrice(symbol, feed).None? <==> FirstValue(Chain(feed)).None?
    ensures StockPrice(symbol, feed).Some? ==>
      StockPrice(symbol, feed).value == (FirstValue(Chain(feed)).value, CurrencyOf(symbol))
  {
    if feed.tickerFails {
      assert FirstValue([Abort]) == None;
    } else {
      var a, b, d := FastAttempt(feed.fastPrice), HistoryAttempt(feed.intraday), HistoryAttempt(feed.fiveDay);
      assert FirstValue([d]) == (if d.Value? then Some(d.price) else None) by {
        assert [d][1..] == [];
      }
      assert FirstValue([b, d]) == (if b.Value? then Some(b.price) else if b.Abort? then None else FirstValue([d])) by {
        assert [b, d][1..] == [d];
      }
      assert FirstValue([a, b, d]) == (if a.Value? then Some(a.price) else FirstValue([b, d])) by {
        assert [a, b, d][1..] == [b, d];
      }
    }
  }

  /** A fast quote of zero is falsy: it is ignored exactly as a missing
      quote is. */
  lemma ZeroFastPriceIgnored(symbol: string, feed: Feed)
    requires feed.fastPrice == Some(0.0)
    ensures StockPrice(symbol, feed) == StockPrice(symbol, feed.(fastPrice := None))
  {
  }

  /** With a fast quote, the histories are never consulted. */
  lemma FastPriceFirst(symbol: string, feed: Feed, intraday: History, fiveDay: History)
    requires !feed.tickerFails && feed.fastPrice.Some? && feed.fastPrice.value != 0.0
    ensures StockPrice(symbol, feed) == Some((feed.fastPrice.value, CurrencyOf(symbol)))
    ensures StockPrice(symbol, feed) == StockPrice(symbol, feed.(intraday := intraday, fiveDay := fiveDay))
  {
  }

  // ---------------------------------------------------------------------
  // `handle_stock_queries`.

  /** The rupee sign as the source file spells it: UTF-8 bytes read as
      Windows-1252. Kept verbatim. */
  const RupeePrefix := "\U{00E2}\U{201A}\U{00B9}"

  const Intro := "The current price of "

  /** The reply between the company name and the price: a rupee reply
      goes straight to the (garbled) rupee sign, a dollar reply names the
      ticker first. */
  function Middle(symbol: string, currency: Currency): string {
    match currency
    case INR => " is " + RupeePrefix
    case USD => " (" + symbol + ") is $"
  }

  /** The reply after the price. */
  function Trail(currency: Currency): string {
    match currency
    case INR => "."
    case USD => " USD."
  }

  /** The reply for a priced company. `fixed2` renders a price with two
      decimals (`{price:.2f}`). */
  function PriceText(name: string, symbol: string, price: real, currency: Currency, fixed2: real -> string): string {
    Intro + name + Middle(symbol, currency) + fixed2(price) + Trail(currency)
  }

  /** `handle_stock_queries`; `feeds` gives the provider's answers per
      ticker. */
  function StockReply(message: string, feeds: string -> Feed, fixed2: real -> string): Option<string> {
    match SymbolOf(message)
    case None => None
    case Some(symbol) =>
      match StockPrice(symbol, feeds(symbol))
      case None => None
      case Some((price, currency)) => Some(PriceText(CompanyOf(message).value, symbol, price, currency, fixed2))
  }

  /** There is a reply exactly when the normalised name is in the table and
      a price is found for its ticker. */
  lemma StockReplyIff(message: string, feeds: string -> Feed, fixed2: real -> string)
    ensures StockReply(message, feeds, fixed2).Some? <==>
      CompanyOf(message).Some? && CompanyOf(message).value in Symbols
      && StockPrice(Symbols[CompanyOf(message).value], feeds(Symbols[CompanyOf(message).value])).Some?
  {
  }

  /** Reads the rendered price back out of a reply for `name`, priced in
      `currency` under `symbol`. */
  function ReadPrice(text: string, name: string, symbol: string, currency: Currency): Option<string> {
    var rest :- Expect(text, Intro + name + Middle(symbol, currency));
    ExpectEnd(rest, Trail(currency))
  }

  /** A reply names the company, then the ticker (dollar replies only),
      then the price; a dollar reply ends with " USD.". The currency is the
      ticker's, and the price shown is the rendering of the first value of
      the provider's fallback chain. */
  lemma StockReplyText(message: string, feeds: string -> Feed, fixed2: real -> string)
    ensures StockReply(message, feeds, fixed2).Some? ==>
      var name := CompanyOf(message).value;
      var symbol := Symbols[name];
      var text := StockReply(message, feeds, fixed2).value;
      StartsWith(text, Intro + name) && StartsWith(text, Intro + name + Middle(symbol, CurrencyOf(symbol)))
      && EndsWith(text, Trail(CurrencyOf(symbol)))
      && FirstValue(Chain(feeds(symbol))).Some?
      && ReadPrice(text, name, symbol, CurrencyOf(symbol)) == Some(fixed2(FirstValue(Chain(feeds(symbol))).value))
  {
    if StockReply(message, feeds, fixed2).Some? {
      var name := CompanyOf(message).value;
      var symbol := Symbols[name];
      var price := StockPrice(symbol, feeds(symbol)).value;
      StockPriceFollowsChain(symbol, feeds(symbol));
      ReplyFrame(name, symbol, price.0, price.1, fixed2);
      PriceReadsBack(name, symbol, price.0, price.1, fixed2);
    }
  }

  lemma ReplyFrame(name: string, symbol: string, price: real, currency: Currency, fixed2: real -> string)
    ensures StartsWith(PriceText(name, symbol, price, currency, fixed2), Intro + name + Middle(symbol, currency))
    ensures StartsWith(PriceText(name, symbol, price, currency, fixed2), Intro + name)
    ensures EndsWith(PriceText(name, symbol, price, currency, fixed2), Trail(currency))
  {
    var head := Intro + name;
    var lead := head + Middle(symbol, currency);
    var body := lead + fixed2(price);
    EndsWithSuffix(body, Trail(currency));
    StartsWithPrefix(body, Trail(currency));
    StartsWithPrefix(lead, fixed2(price));
    StartsWithPrefix(head, Middle(symbol, currency));
    StartsWithTransitive(body + Trail(currency), body, lead);
    StartsWithTransitive(body + Trail(currency), lead, head);
  }

  /** The price text reads back exactly from a reply, whatever the name. */
  lemma PriceReadsBack(name: string, symbol: string, price: real, currency: Currency, fixed2: real -> string)
    ensures ReadPrice(PriceText(name, symbol, price, currency, fixed2), name, symbol, currency) == Some(fixed2(price))
  {
    var lead := Intro + name + Middle(symbol, currency);
    var rest := fixed2(price) + Trail(currency);
    assert PriceText(name, symbol, price, currency, fixed2) == lead + rest;
    ExpectLiteral(lead, rest);
    ExpectEndLiteral(fixed2(price), Trail(currency));
  }

  /** The handler ignores letter case: messages equal after lower-casing
      get the same reply. */
  lemma StockReplyIgnoresCase(m1: string, m2: string, feeds: string -> Feed, fixed2: real -> string)
    requires Lower(m1) == Lower(m2)
    ensures StockReply(m1, feeds, fixed2) == StockReply(m2, feeds, fixed2)
  {
  }

  /** "tcs", "TCS" and "Tcs" all resolve to the ticker "TCS.NS". */
  lemma TcsInAnyCase()
    ensures SymbolOf("price of tcs") == Some("TCS.NS")
    ensures SymbolOf("Price of TCS") == Some("TCS.NS")
    ensures SymbolOf("price of Tcs") == Some("TCS.NS")
  {
    TcsLowered();
    TcsCapture();
    TcsNormalized();
  }

  lemma TcsLowered()
    ensures Lower("Price of TCS") == "price of tcs"
    ensures Lower("price of Tcs") == "price of tcs"
    ensures Lower("price of tcs") == "price of tcs"
  {
  }

  lemma TcsCapture()
    ensures Capture("price of tcs") == Some("tcs")
  {
    var s := "price of tcs";
    assert OccursAt(s, Trigger, 0);
    assert NameEnd(s, 9) == 12;
    assert s[9..12] == "tcs";
  }

  lemma TcsNormalized()
    ensures Normalize("tcs") == "TCS"
  {
    assert LeadingSpace("tcs") == 0;
    assert TrailingSpace("tcs") == 0;
    assert "tcs"[0..][..3] == "tcs";
  }

  /** Lookup is exact: trailing words make the name unknown, and an unknown
      name gets no reply. */
  lemma TrailingWordsUnknown(feeds: string -> Feed, fixed2: real -> string)
    ensures CompanyOf("price of tcs today") == Some("TCS TODAY")
    ensures StockReply("price of tcs today", feeds, fixed2) == None
  {
    var m := "price of tcs today";
    TodayCompany();
    assert SymbolOf(m) == None by {
      NotInTable();
    }
  }

  lemma NotInTable()
    ensures "TCS TODAY" !in Symbols
  {
    TableByCountry();
  }

  lemma TodayCompany()
    ensures CompanyOf("price of tcs today") == Some("TCS TODAY")
  {
    var m := "price of tcs today";
    assert Lower(m) == m by {
      LowerOfLowercase(m);
    }
    assert Capture(Lower(m)) == Some("tcs today") by {
      TodayCapture();
    }
    TodayNormalized();
  }

  lemma TodayCapture()
    ensures Capture("price of tcs today") == Some("tcs today")
  {
    var s := "price of tcs today";
    assert OccursAt(s, Trigger, 0);
    assert NameEnd(s, 9) == 18;
    assert s[9..18] == "tcs today";
  }

  lemma TodayNormalized()
    ensures Normalize("tcs today") == "TCS TODAY"
  {
    assert LeadingSpace("tcs today") == 0;
    assert TrailingSpace("tcs today") == 0;
    assert "tcs today"[0..][..9] == "tcs today";
  }
}
