/** The chat endpoint: rejects an empty message, then asks the calculator,
    the stock handler and the advice fallback in that order and answers
    with the first non-empty text. */
module Router {
  import opened Wrappers
  import Calculators
  import FinanceData
  import Advice

  /** Everything the endpoint depends on besides the message: the API key
      found at start-up and whether configuring the library with it raises,
      what the model generates, what the market data provider answers per
      ticker, and the two number renderings. */
  datatype Env = Env(
    apiKey: Option<string>,
    configureRaises: bool,
    generate: string -> Advice.Generation,
    feeds: string -> FinanceData.Feed,
    money: real -> string,
    fixed2: real -> string)
  {
    /** The flag set once at start-up. */
    function Configured(): bool {
      Advice.IsConfigured(apiKey, configureRaises)
    }
  }

  /** The JSON reply: `{"response": ...}` with status 200, or
      `{"error": ...}` with status 400. */
  datatype HttpReply = Ok(response: string) | BadRequest(error: string) {
    function Status(): nat {
      if Ok? then 200 else 400
    }
  }

  const NoMessage := "No message provided"

  /** Python truthiness of an optional string. */
  predicate Truthy(r: Option<string>) {
    r.Some? && r.value != []
  }

  /** `chat`; `message` is the `message` field of the request body,
      `None` when absent or null. The calculator is the guarded one. */
  function Chat(message: Option<string>, env: Env): HttpReply {
    if !Truthy(message) then BadRequest(NoMessage)
    else
      var m := message.value;
      var calculation := Calculators.Handle(m, env.money);
      if Truthy(calculation) then Ok(calculation.value)
      else Fallback(m, env)
  }

  /** The stock handler, then the advice. */
  function Fallback(m: string, env: Env): HttpReply {
    var stock := FinanceData.StockReply(m, env.feeds, env.fixed2);
    if Truthy(stock) then Ok(stock.value)
    else Ok(Advice.GetAdvice(env.Configured(), env.generate, m))
  }

  /** What the server sends: the view's JSON reply, or the status-500 page
      the web framework serves when the view raises. */
  datatype Served = Sent(reply: HttpReply) | InternalError {
    function Status(): nat {
      if Sent? then reply.Status() else 500
    }
  }

  /** `chat` with the calculator as written: its ZeroDivisionError escapes
      the view. */
  function ChatAsWritten(message: Option<string>, env: Env): Served {
    if !Truthy(message) then Sent(BadRequest(NoMessage))
    else
      var m := message.value;
      match Calculators.HandleAsWritten(m, env.money)
      case ZeroDivision => InternalError
      case Answer(text) => if text != [] then Sent(Ok(text)) else Sent(Fallback(m, env))
      case NotCalculation => Sent(Fallback(m, env))
  }

  /** The endpoint as written fails exactly when the calculator as written
      raises; on every other message it sends what the endpoint with the
      guarded calculator sends. */
  lemma ChatAsWrittenAgrees(message: Option<string>, env: Env)
    ensures ChatAsWritten(message, env) == InternalError <==>
      Truthy(message) && Calculators.HandleAsWritten(message.value, env.money) == Calculators.ZeroDivision
    ensures ChatAsWritten(message, env).Sent? ==> ChatAsWritten(message, env).reply == Chat(message, env)
  {
    if Truthy(message) {
      Calculators.HandleAgreesAndNeverFaults(message.value, env.money);
    }
  }

  /** "emi 500000 0 5" makes the endpoint as written answer with status
      500, while the guarded endpoint answers with the calculator's reply. */
  lemma ZeroRateServerError(env: Env)
    ensures ChatAsWritten(Some("emi 500000 0 5"), env) == InternalError
    ensures ChatAsWritten(Some("emi 500000 0 5"), env).Status() == 500
    ensures Calculators.Handle("emi 500000 0 5", env.money).Some?
    ensures Chat(Some("emi 500000 0 5"), env) == Ok(Calculators.Handle("emi 500000 0 5", env.money).GetOr([]))
  {
    Calculators.ZeroRateExample(env.money);
    FaultingRequest("emi 500000 0 5", env, Calculators.Request(Calculators.EmiKind, 500000, 0, 5));
  }

  lemma FaultingRequest(m: string, env: Env, req: Calculators.Request)
    requires m != [] && Calculators.ParseRequest(m) == Some(req) && !(req.kind == Calculators.EmiKind && req.years == 0)
    requires Calculators.HandleAsWritten(m, env.money) == Calculators.ZeroDivision
    ensures ChatAsWritten(Some(m), env) == InternalError
    ensures Calculators.Handle(m, env.money).Some?
    ensures Chat(Some(m), env) == Ok(Calculators.Handle(m, env.money).GetOr([]))
  {
    CalculationBeatsPriceQuery(m, env);
  }

  /** The first truthy answer of a list of handlers' answers. */
  function FirstTruthy(answers: seq<Option<string>>): Option<string> {
    if answers == [] then None
    else if Truthy(answers[0]) then answers[0]
    else FirstTruthy(answers[1..])
  }

  /** The answers of the three handlers, in the order they are asked. */
  function Answers(m: string, env: Env): seq<Option<string>> {
    [Calculators.Handle(m, env.money),
     FinanceData.StockReply(m, env.feeds, env.fixed2),
     Some(Advice.GetAdvice(env.Configured(), env.generate, m))]
  }

  /** A missing or empty message is rejected with status 400, whatever the
      environment: no handler is consulted. */
  lemma EmptyMessageRejected(message: Option<string>, env: Env, other: Env)
    requires !Truthy(message)
    ensures Chat(message, env) == BadRequest(NoMessage) && Chat(message, env).Status() == 400
    ensures Chat(message, env) == Chat(message, other)
  {
  }

  /** Any other message gets status 200, and its response is the first
      truthy answer among calculator, stock handler and advice, which is one
      handler's text unchanged (when every handler gives an empty text, it
      is the advice's). */
  lemma ChatAnswersFirstHandler(m: string, env: Env)
    requires m != []
    ensures Chat(Some(m), env).Ok? && Chat(Some(m), env).Status() == 200
    ensures Truthy(FirstTruthy(Answers(m, env))) ==> Chat(Some(m), env).response == FirstTruthy(Answers(m, env)).value
    ensures !Truthy(FirstTruthy(Answers(m, env))) ==>
      Chat(Some(m), env).response == Advice.GetAdvice(env.Configured(), env.generate, m)
  {
    var a := Answers(m, env);
    assert FirstTruthy([a[2]]) == (if Truthy(a[2]) then a[2] else None) by {
      assert [a[2]][1..] == [];
    }
    assert FirstTruthy([a[1], a[2]]) == (if Truthy(a[1]) then a[1] else FirstTruthy([a[2]])) by {
      assert [a[1], a[2]][1..] == [a[2]];
    }
    assert FirstTruthy(a) == (if Truthy(a[0]) then a[0] else FirstTruthy([a[1], a[2]])) by {
      assert a[1..] == [a[1], a[2]];
    }
  }

  /** The response is exactly one handler's text. */
  lemma ResponseIsOneHandlers(m: string, env: Env)
    requires m != []
    ensures Chat(Some(m), env).response in
      {Calculators.Handle(m, env.money).GetOr([]),
       FinanceData.StockReply(m, env.feeds, env.fixed2).GetOr([]),
       Advice.GetAdvice(env.Configured(), env.generate, m)}
  {
  }

  /** A calculation is answered by the calculator without consulting the
      stock handler or the model: environments that agree on the amount
      rendering give the same reply. */
  lemma CalculatorShortCircuits(m: string, env: Env, other: Env)
    requires m != [] && Truthy(Calculators.Handle(m, env.money)) && other.money == env.money
    ensures Chat(Some(m), env) == Ok(Calculators.Handle(m, env.money).value)
    ensures Chat(Some(m), env) == Chat(Some(m), other)
  {
  }

  /** The stock handler is consulted only when the calculator has nothing,
      and then the model is not consulted. */
  lemma StockShortCircuits(m: string, env: Env, other: Env)
    requires m != [] && !Truthy(Calculators.Handle(m, env.money))
    requires Truthy(FinanceData.StockReply(m, env.feeds, env.fixed2))
    requires other.money == env.money && other.feeds == env.feeds && other.fixed2 == env.fixed2
    ensures Chat(Some(m), env) == Ok(FinanceData.StockReply(m, env.feeds, env.fixed2).value)
    ensures Chat(Some(m), env) == Chat(Some(m), other)
  {
  }

  /** A message that is both a calculation and a price query gets the
      calculation. */
  lemma CalculationBeatsPriceQuery(m: string, env: Env)
    requires m != [] && Calculators.ParseRequest(m).Some?
    requires !(Calculators.ParseRequest(m).value.kind == Calculators.EmiKind && Calculators.ParseRequest(m).value.years == 0)
    ensures Chat(Some(m), env) == Ok(Calculators.Handle(m, env.money).value)
  {
    Calculators.HandleAgreesAndNeverFaults(m, env.money);
  }

  /** A price query for a company outside the table is not answered by the
      stock handler: without a calculation it goes to the model. */
  lemma UnknownCompanyGoesToAdvice(m: string, env: Env)
    requires m != [] && Calculators.Handle(m, env.money).None?
    requires FinanceData.CompanyOf(m).Some? && FinanceData.CompanyOf(m).value !in FinanceData.Symbols
    ensures Chat(Some(m), env) == Ok(Advice.GetAdvice(env.Configured(), env.generate, m))
  {
  }
}
