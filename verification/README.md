# FinBot in Dafny

FinBot is a small finance chat service. A browser client sends the user's
message to one endpoint, `/api/chat`. The server answers with the first
handler that has something to say:

1. the calculator, for EMI (loan instalment) and SIP (monthly investment)
   questions;
2. the stock handler, for "price of <company>" questions about eleven
   known companies;
3. the language-model fallback, which asks for general financial advice.

This project models those decisions as pure Dafny functions and proves what
they promise:

- **Calculator.** How the three numbers are picked out of a message. The
  exact, unrounded instalment pays off the loan. The SIP value is the
  month-by-month deposit account. The reply states the request it answers
  and the rendering of the amount computed for it.
- **Stock handler.** Which company a question names. Which currency a
  ticker is quoted in. Which provider source the price comes from. The
  shape of the reply, and that it shows the price found.
- **Advice fallback.** The configuration guard. The prompt carries the
  question unchanged. Every failure becomes a fixed text.
- **Chat endpoint.** The order in which the handlers are asked, and the
  status of the reply, both with the calculator as written (which can make
  the endpoint fail with status 500) and with the calculator guarded.
- **Browser client.** HTML escaping. The line-break step of a chat bubble.
  The class and avatar for each role. Which text is shown for a server
  reply. The guard that refuses blank input.

Files:

- `wrappers.dfy`: `Option`.
- `text.dfy`: ASCII case mapping, trimming, substring tests, decimal numerals.
- `triplet.dfy`: the search `(\d+)\D+(\d+)\D+(\d+)`.
- `formulas.dfy`: the EMI and SIP formulas over reals, as written and guarded, and the loan and deposit recurrences they are checked against.
- `calculators.dfy`: `handle_financial_calculations`.
- `finance_data.dfy`: `get_stock_price` and `handle_stock_queries`.
- `advice.dfy`: the configuration guard, `create_financial_advice_prompt` and `get_financial_advice`.
- `router.dfy`: `chat`.
- `web_client.dfy`: the client's pure decisions.

Effects become parameters:

- The market-data provider is a function from ticker to `Feed`. It says
  whether creating the ticker raises, the fast quote, and the 1-day and
  5-day histories.
- The language model is a function from prompt to `Generation`: a reply
  text, no usable call, or an exception.
- Float-to-text rendering is a function parameter:
  - `round(x, 2)` printed by an f-string;
  - `{price:.2f}`.

Behaviour of the code that a reader may not expect, modelled as written:

- The rate is printed as a Python float, with a trailing ".0" ("8.0%").
- A decimal rate such as "8.5" is split by the pattern into the two groups
  8 and 5. So "emi 500000 at 8.5 for 5 years" reads as rate 8 and term 5
  (`Triplet.DecimalSplitsIntoTwoRuns`).
- "emi" is matched anywhere in the lowered message, so "Premium 1000 2 3"
  is an EMI request (`Calculators.PremiumSelectsEmi`).
- The rupee sign in a stock reply is the mis-decoded text "â‚¹", as the source
  literally has it.
- A 400 reply of the endpoint is shown by the client as
  "Network or server error: Server error 400", not as its error text.
- An empty model reply is shown as "No response from server.".

## Model

| member | source | states |
|---|---|---|
| Text.LowerIdempotent | FinBot/finance_data.py:36 | lower-casing a lowered message changes nothing, so a message already in lower case is read as it stands |
| Text.LowerKeepsDigits | FinBot/calculators.py:16-20 | lower-casing neither creates nor removes a digit, so the numbers are read from the same positions as in the original message |
| Text.Trim | FinBot/finance_data.py:40 | the stripped name is a slice of the capture with only whitespace removed at either end, and it neither starts nor ends with whitespace |
| Text.TrimEmptyIffBlank | FinBot/static/js/app.js:99-100 | trimmed input is empty exactly when every character is whitespace |
| Text.NatToStringRoundTrip | FinBot/calculators.py:24 | the decimal text printed for `int(principal)` and `int(years)` reads back as the same number |
| Text.ReadNumberRoundTrip | FinBot/calculators.py:24 | a printed number followed by a non-digit reads back as that number and the rest of the text |
| Triplet.SearchIsLeftmostGreedy | FinBot/calculators.py:20 | the search finds a match exactly when the pattern matches somewhere, and the match found is the leftmost one with greedy groups |
| Triplet.MatchIsPinned | FinBot/calculators.py:20 | every match starts at or after the message's first digit, and its third group starts no earlier than the third run of digits |
| Triplet.TripleIsFirstThreeRuns | FinBot/calculators.py:20-22 | the three groups exist exactly when the pattern matches, and they are those of the leftmost greedy match |
| Triplet.DecimalSplitsIntoTwoRuns | FinBot/calculators.py:20-22 | in "emi 500000 at 8.5 for 5 years" the groups are 500000, 8 and 5: the rate's decimal part becomes the term |
| Formulas.MonthlyRate | FinBot/calculators.py:4 | the monthly rate is non-negative and is zero exactly for a zero annual rate |
| Formulas.EmiAsWrittenFailsIff | FinBot/calculators.py:3-7 | the EMI formula divides by zero exactly when the rate or the term is zero |
| Formulas.SipAsWrittenFailsIff | FinBot/calculators.py:9-13 | the SIP formula divides by zero exactly when the rate is zero |
| Formulas.Emi | FinBot/calculators.py:3-7 | the guarded EMI is missing exactly for a zero term |
| Formulas.GuardedAgreesWhereDefined | FinBot/calculators.py:3-13 | wherever the formulas as written do not divide by zero, the guarded EMI and SIP give the same value |
| Formulas.EmiAmortizes | FinBot/calculators.py:3-7 | a loan of the principal at the monthly rate, paid the EMI each month, has zero balance after `12 * years` months |
| Formulas.EmiRepaysPrincipal | FinBot/calculators.py:3-7 | the EMIs over the term add up to at least the principal |
| Formulas.SipMatchesSeries | FinBot/calculators.py:9-13 | the SIP value equals an account that receives the instalment at the start of every month and earns the monthly rate on its whole balance |
| Formulas.SipCoversContributions | FinBot/calculators.py:9-13 | the SIP value is at least the sum paid in |
| Calculators.ParseReadsSearchResult | FinBot/calculators.py:15-30 | a request is recognised exactly when the lowered message contains "emi" or "sip" and the pattern matches. It is an EMI exactly when "emi" occurs, and its numbers come from the leftmost greedy match |
| Calculators.SipCannotRescueEmi | FinBot/calculators.py:19-30 | when "emi" occurs but the pattern does not match, the SIP branch cannot match either, and the message is not a calculation |
| Calculators.PremiumSelectsEmi | FinBot/calculators.py:16-24 | "Premium 1000 2 3" is an EMI request for 1000 at 2% over 3 years, since "emi" occurs inside "premium" |
| Calculators.ReplyStatesRequest | FinBot/calculators.py:22-32 | the reply text reads back as the request's kind, amount, rate and term, and as the amount text it was given |
| Calculators.ZeroRateFaultsAsWritten | FinBot/calculators.py:3-34 | the handler as written raises ZeroDivisionError exactly for a recognised request with a zero rate, or an EMI over zero years |
| Calculators.ZeroRateExample | FinBot/calculators.py:15-24 | "emi 500000 0 5" is an EMI request at rate 0, and the handler as written raises on it |
| Calculators.Compute | FinBot/calculators.py:3-13 | the guarded amount is missing exactly for an EMI over zero years. An EMI pays off the loan; a SIP equals the deposit account |
| Calculators.HandleAgreesAndNeverFaults | FinBot/calculators.py:15-34 | the guarded handler gives the same text wherever the handler as written answers, and declines whenever that one declines. It answers every recognised request except an EMI over zero years |
| Calculators.HandleReplyStatesRequest | FinBot/calculators.py:15-34 | every calculator reply reads back as the request parsed from the message and the rendering of the amount computed for that request, the amount `Calculators.Compute` characterises |
| FinanceData.NameEnd | FinBot/finance_data.py:37 | the company group runs over letters, dots and spaces, and stops at the first other character or the end |
| FinanceData.FindCaptureIsLeftmostLongest | FinBot/finance_data.py:37 | the capture found from a position is the leftmost "price of " followed by a name character, with the longest name run; if none is found, there is no match at or after that position |
| FinanceData.Capture | FinBot/finance_data.py:37 | a captured name is non-empty and made only of letters, dots and spaces |
| FinanceData.CaptureIsSearchResult | FinBot/finance_data.py:37-40 | there is no capture exactly when the pattern does not match; otherwise the capture is the group of the leftmost longest match |
| FinanceData.NseSuffix | FinBot/finance_data.py:9 | a ticker ending in ".NS" is quoted in rupees |
| FinanceData.NoNseSuffix | FinBot/finance_data.py:9 | a ticker ending in a capital letter other than S is quoted in dollars |
| FinanceData.TableByCountry | FinBot/finance_data.py:42-54 | the table has eleven names: eight Indian and three American, with no overlap |
| FinanceData.CurrencyByCountry | FinBot/finance_data.py:42-65 | every Indian company's ticker is priced in rupees and every American one's in dollars |
| FinanceData.FirstValueIsFirstSource | FinBot/finance_data.py:11-31 | the fallback chain yields a price exactly when some source has a value and every earlier source had nothing; the price is that source's value |
| FinanceData.StockPriceFollowsChain | FinBot/finance_data.py:4-33 | the price is the first value of the chain fast quote → 1-day history → 5-day history. Any exception ends the chain with no price. The currency comes from the ticker |
| FinanceData.ZeroFastPriceIgnored | FinBot/finance_data.py:19-20 | a fast quote of 0.0 is falsy and treated as missing |
| FinanceData.FastPriceFirst | FinBot/finance_data.py:12-20 | a non-zero fast quote is the price, whatever the histories hold |
| FinanceData.StockReplyIff | FinBot/finance_data.py:35-66 | there is a stock reply exactly when the stripped, upper-cased name is in the table and a price is found for its ticker |
| FinanceData.StockReplyText | FinBot/finance_data.py:56-65 | a reply starts with "The current price of " and the name. It continues with the rupee text, or with the ticker and "$". A dollar reply ends in " USD.". The price it shows reads back as the rendering of the first value of the provider's fallback chain |
| FinanceData.PriceReadsBack | FinBot/finance_data.py:61-65 | the rendered price reads back exactly from between a reply's fixed opening and its trailer, in both formats |
| FinanceData.ReplyFrame | FinBot/finance_data.py:61-65 | both reply formats start with the fixed introduction and the name, and end with the currency's trailer |
| FinanceData.StockReplyIgnoresCase | FinBot/finance_data.py:36-40 | messages that agree after lower-casing get the same stock reply |
| FinanceData.TcsInAnyCase | FinBot/finance_data.py:36-56 | "price of tcs", "Price of TCS" and "price of Tcs" all select ticker TCS.NS |
| FinanceData.TrailingWordsUnknown | FinBot/finance_data.py:37-57 | in "price of tcs today" the name group runs to the end ("TCS TODAY"), which is not in the table, so there is no stock reply |
| Advice.KeyGuardsTheModel | FinBot/app.py:14-54 | with no key, an empty key or a configuration that raises, every question gets the fixed "not configured" notice; with a usable key (whether or not `configure` exists) the advice is the model's answer to the question's prompt |
| Advice.PromptRoundTrip | FinBot/app.py:34-42 | the question reads back unchanged from the prompt built around it |
| Advice.PromptInjective | FinBot/app.py:34-42 | different questions give different prompts |
| Advice.UnconfiguredIsConstant | FinBot/app.py:51-52 | without configuration every question gets the same fixed text, whatever the model would answer |
| Advice.AdviceAsksTheQuestion | FinBot/app.py:54-92 | when configured, the model is asked with a prompt that carries exactly the user's question, and the advice is the model's answer to it |
| Advice.ExceptionBecomesApology | FinBot/app.py:94-96 | an exception while generating becomes the fixed apology |
| Router.EmptyMessageRejected | FinBot/app.py:107-111 | a missing or empty message gets status 400 with "No message provided", whatever the environment |
| Router.ChatAnswersFirstHandler | FinBot/app.py:114-125 | any other message gets status 200. Its response is the first non-empty answer among calculator, stock handler and advice; if none is non-empty, it is the advice |
| Router.ResponseIsOneHandlers | FinBot/app.py:114-125 | the response is the text of exactly one of the three handlers |
| Router.CalculatorShortCircuits | FinBot/app.py:115-117 | a calculation is answered without consulting the stock provider or the model |
| Router.StockShortCircuits | FinBot/app.py:119-121 | a stock answer is used only when the calculator has none, and the model is not consulted |
| Router.CalculationBeatsPriceQuery | FinBot/app.py:114-117 | a message that is a calculation gets the calculator's reply, even if it also asks for a price |
| Router.UnknownCompanyGoesToAdvice | FinBot/app.py:119-125 | a price question for a company not in the table falls through to the model |
| Router.ChatAsWrittenAgrees | FinBot/app.py:105-125 | the endpoint with the calculator as written fails with status 500 exactly when that calculator raises; on every other message it sends what the endpoint with the guarded calculator sends |
| Router.ZeroRateServerError | FinBot/app.py:114-117 | "emi 500000 0 5" makes the endpoint as written fail with status 500, while the guarded endpoint answers it with the calculator's reply |
| WebClient.EscapeHtmlIsPerChar | FinBot/static/js/app.js:35-42 | the five replacements applied in order escape each character on its own, with no entity escaped twice |
| WebClient.EscapeHtmlFacts | FinBot/static/js/app.js:35-42 | escaped text contains none of `<`, `>`, `"`, `'`; it is never shorter; text without special characters is unchanged |
| WebClient.EscapeHtmlDecodesToText | FinBot/static/js/app.js:35-42 | escaped single-line text decodes back to the text itself (entities decoded) |
| WebClient.BubbleIsPerChar | FinBot/static/js/app.js:21 | escaping and then replacing newlines by `<br>` handles each character on its own |
| WebClient.BubbleDecodesToText | FinBot/static/js/app.js:21 | the bubble's HTML decodes back to exactly the message text (entities decoded, `<br>` read as a line break), and its only markup is `<br>` |
| WebClient.RoleAndAvatarAgree | FinBot/static/js/app.js:16-20 | the class is "user" exactly for the role "user", which is also exactly when the avatar is "You"; every other role is the bot, with "FB"; the class alone determines the avatar |
| WebClient.ShownPrefersResponse | FinBot/static/js/app.js:84-90 | on an ok status, a non-empty response is shown as it is and beats an error field; without one, a non-empty error is shown after "Error: ". "No response from server." is shown exactly when there is neither, or when the response is that very text |
| WebClient.FailedStatusShown | FinBot/static/js/app.js:78-79 | a failed status is shown the same whatever the body, and the number in the text shown reads back as the status |
| WebClient.SubmitGuard | FinBot/static/js/app.js:97-102 | blank input sends nothing. Anything else sends a non-empty message without surrounding whitespace, and submitting it again sends it unchanged |
| WebClient.SubmittedMessageIsAnswered | FinBot/static/js/app.js:66-102 | a message the client submits is never rejected by the endpoint. The client shows the endpoint's response, or the fixed notice when that response is empty |
| WebClient.RejectionShowsStatus | FinBot/static/js/app.js:78-79 | a 400 reply is shown as "Network or server error: Server error 400", never with its error text |

## Left out

- Float rendering: `round(x, 2)` printed by an f-string, and `{price:.2f}`. These are the parameters `show` / `money` / `fixed2`. The model proves facts about the exact real value before rounding.
- Calculators.ReplyStatesRequest: the rate is rendered as its digits followed by ".0". Python prints a float this way only below 10^16. `int(principal)` and `int(years)` are exact only below 2^53. Larger numbers are not modelled.
- Formulas.Emi: real arithmetic is exact, so floating-point rounding and overflow of `(1 + r) ** n` are not modelled.
- Text.Lower: `str.lower`, `str.upper`, `strip` and `\d` are modelled on ASCII only. Python's Unicode case mapping, Unicode whitespace and Unicode digits are not modelled. The same holds for JavaScript's `trim`.
- Text.TrimEmptyIffBlank: JavaScript's `trim()` also strips U+00A0, U+FEFF, U+2028, U+2029 and the other Unicode space separators. The model treats those as ordinary characters, so a message of only U+00A0 is blank to the client and never sent, but the model sends it.
- WebClient.SubmitGuard: inherits the same gap from `Text.Trim`; a message of only Unicode spaces (U+00A0, U+FEFF, U+2028 and the like) passes the modelled guard although the client blocks it.
- WebClient.BubbleDecodesToText: states that the bubble's HTML decodes back to the text through its entities and `<br>` tags, not what a browser shows. The HTML parser behind `innerHTML` turns CR and CRLF into LF, so "a\rb" is shown with a line break, and how runs of spaces and tabs are rendered depends on CSS that is not part of this model.
- WebClient.EscapeHtmlDecodesToText: the same gap: decoding is stated, browser rendering of CR and of whitespace runs is not.
- Flask, CORS, dotenv and the `/` page are plumbing without decisions.
- A request body that is not JSON, or a `message` that is not a string, would make `chat` raise. The model takes the message as an optional string.
- The SDK probing in `get_financial_advice`: `generate_text`, the dict shapes, `GenerativeModel` and `generate`. It is reduced to its outcome: a reply text, no usable call surface, or an exception. Which text each SDK shape yields is the library's business.
- The provider (yfinance) is the `Feed` input. Network access and the contents of its data frames are not modelled.
- Router.ChatAnswersFirstHandler: this and the other `Router` lemmas about `Chat`, and `WebClient.SubmittedMessageIsAnswered`, speak of the endpoint with the guarded calculator. The endpoint as written is `Router.ChatAsWritten`, which differs only by status 500 on the messages where the calculator raises (`Router.ChatAsWrittenAgrees`).
- Formulas.EmiAmortizes: holds for the exact EMI, not for the `round(emi, 2)` the reply shows. "emi 1 1 1" has an exact EMI of about 0.0838, shown as 0.08, and 12 × 0.08 = 0.96 leaves the loan unpaid.
- Formulas.EmiRepaysPrincipal: holds for the exact EMI only; the same "emi 1 1 1" shows 0.08 a month, and 12 × 0.08 < 1.
- Calculators.Compute: its EMI and SIP facts are about exact values before rounding to two decimals; rounding is in the `show` parameter.
- Calculators.ZeroRateFaultsAsWritten: covers ZeroDivisionError only. `(1 + r) ** n` on floats also raises OverflowError for large inputs, e.g. "emi 1 99999 999", since real arithmetic does not overflow.
- The client's DOM work is not modelled: element creation, scrolling, the typing indicator, the examples panel and the Enter-key binding. `fetch` is reduced to `Exchange`: a thrown error with its message, or a status and a parsed body.

## Findings

| source | as written | input that shows it | evidently intended | confidence | as-written member | corrected member |
|---|---|---|---|---|---|---|
| FinBot/calculators.py:3-13 | the EMI and SIP formulas divide by the monthly rate, or by `(1+r)^n - 1`, without a guard | "emi 500000 0 5": rate 0, so `(1 + r)**n - 1` is 0 and `calculate_emi` raises ZeroDivisionError; `chat` has no handler for it, so the request fails with HTTP 500. "sip 1000 0 5" fails the same way | at a zero rate, an EMI repays the principal in equal parts (P / n) and a SIP is worth what was paid in (M · n); an EMI over zero years has no instalment and is not answered by the calculator | not executed | Router.ZeroRateServerError | Calculators.HandleAgreesAndNeverFaults |
