/** The EMI / SIP handler: which messages are calculation requests, which
    three numbers are read from them, and the reply text. */
module Calculators {
  import opened Wrappers
  import opened Text
  import opened Triplet
  import opened Formulas

  datatype Kind = EmiKind | SipKind

  /** A calculation request: the three numbers of the message, in order. */
  datatype Request = Request(kind: Kind, amount: nat, rate: nat, years: nat)

  /** Reads the request out of a message: lower-cased, an "emi" substring
      selects the loan calculator and otherwise a "sip" substring the
      investment one; both need the three numbers. */
  function ParseRequest(message: string): Option<Request> {
    var msg := Lower(message);
    if Contains(msg, "emi") && Triple(msg).Some? then Some(RequestOf(EmiKind, Triple(msg).value))
    else if Contains(msg, "sip") && Triple(msg).Some? then Some(RequestOf(SipKind, Triple(msg).value))
    else None
  }

  /** `map(float, match.groups())`, for whole numbers. */
  function RequestOf(kind: Kind, g: Groups): Request
    requires AllDigits(g.first) && AllDigits(g.second) && AllDigits(g.third)
  {
    Request(kind, DigitsValue(g.first), DigitsValue(g.second), DigitsValue(g.third))
  }

  /** A message is a request exactly when it mentions "emi" or "sip" (in
      any letter case, anywhere, even inside another word) and its lower-
      cased text matches the three-number pattern. The EMI reading wins
      whenever "emi" is present, and the numbers are the three groups of
      the leftmost-greedy match. */
  lemma ParseReadsSearchResult(message: string)
    ensures ParseRequest(message).Some? <==>
      (Contains(Lower(message), "emi") || Contains(Lower(message), "sip")) && exists m :: IsMatch(Lower(message), m)
    ensures ParseRequest(message).Some? ==>
      (ParseRequest(message).value.kind == EmiKind <==> Contains(Lower(message), "emi"))
    ensures ParseRequest(message).Some? ==>
      exists m :: IsSearchResult(Lower(message), m)
        && AllDigits(Lower(message)[m.i..m.a]) && AllDigits(Lower(message)[m.b..m.c]) && AllDigits(Lower(message)[m.d..m.e])
        && ParseRequest(message).value.amount == DigitsValue(Lower(message)[m.i..m.a])
        && ParseRequest(message).value.rate == DigitsValue(Lower(message)[m.b..m.c])
        && ParseRequest(message).value.years == DigitsValue(Lower(message)[m.d..m.e])
  {
    TripleIsFirstThreeRuns(Lower(message));
  }

  /** A message mentioning "emi" whose numbers do not match is not handed to
      the SIP reading, even when it also mentions "sip": both readings apply
      the same pattern to the same text. */
  lemma SipCannotRescueEmi(message: string)
    requires Contains(Lower(message), "emi") && Triple(Lower(message)).None?
    ensures ParseRequest(message).None?
  {
  }

  /** "emi" inside another word still selects the loan calculator:
      "Premium 1000 2 3" is an EMI request for 1000 at 2% over 3 years. */
  lemma PremiumSelectsEmi()
    ensures ParseRequest("Premium 1000 2 3") == Some(Request(EmiKind, 1000, 2, 3))
  {
    var m := "Premium 1000 2 3";
    var s := "premium 1000 2 3";
    PremiumLowered();
    assert Contains(Lower(m), "emi") by {
      assert OccursAt(s, "emi", 2);
    }
    PremiumGroups();
    assert Triple(Lower(m)) == Some(Groups("1000", "2", "3"));
    PremiumValues();
  }

  lemma PremiumValues()
    ensures RequestOf(EmiKind, Groups("1000", "2", "3")) == Request(EmiKind, 1000, 2, 3)
  {
    assert "2"[..0] == "" && "3"[..0] == "";
    assert "1000"[..3] == "100" && "100"[..2] == "10" && "10"[..1] == "1" && "1"[..0] == "";
  }

  lemma PremiumLowered()
    ensures Lower("Premium 1000 2 3") == "premium 1000 2 3"
  {
    assert LowerChar('P') == 'p';
  }

  lemma PremiumGroups()
    ensures Triple("premium 1000 2 3") == Some(Groups("1000", "2", "3"))
  {
    var s := "premium 1000 2 3";
    assert s[..8] == "premium ";
    assert s[8..12] == "1000";
    assert s[12..13] == " " && s[13..14] == "2" && s[14..15] == " " && s[15..16] == "3";
    TripleAt(s, 8, 12, 13, 14, 15, 16);
  }

  // ---------------------------------------------------------------------
  // Reply text.

  function Head(kind: Kind): string {
    match kind
    case EmiKind => "Approximate EMI for \U{20B9}"
    case SipKind => "Your SIP of \U{20B9}"
  }

  function Tail(kind: Kind): string {
    match kind
    case EmiKind => " years is \U{20B9}"
    case SipKind => " years will grow to around \U{20B9}"
  }

  function Close(kind: Kind): string {
    match kind
    case EmiKind => "/month."
    case SipKind => "."
  }

  /** The reply for a request whose computed amount renders as `amountText`
      (the rounded float's `str`). The rate is a Python float, so it prints
      with a trailing ".0". */
  function Render(req: Request, amountText: string): string {
    Head(req.kind) + Figures(req, amountText + Close(req.kind))
  }

  /** The part of a reply after the head: the three numbers between their
      separators, then `rest`. */
  function Figures(req: Request, rest: string): string {
    NatToString(req.amount) + (" at " + (NatToString(req.rate) + (".0% for " + (NatToString(req.years) + (Tail(req.kind) + rest)))))
  }

  /** What a reply states: the request it answers and the text of the
      amount it reports. */
  datatype Statement = Statement(req: Request, amount: string)

  /** Reads the request and the amount back out of a reply. */
  function ReadReply(text: string): Option<Statement> {
    match Expect(text, Head(EmiKind))
    case Some(s) => ReadFigures(EmiKind, s)
    case None =>
      match Expect(text, Head(SipKind))
      case Some(s) => ReadFigures(SipKind, s)
      case None => None
  }

  function ReadFigures(kind: Kind, s: string): Option<Statement> {
    var n1 :- ReadNumber(s);
    var s2 :- Expect(n1.1, " at ");
    var n2 :- ReadNumber(s2);
    var s3 :- Expect(n2.1, ".0% for ");
    var n3 :- ReadNumber(s3);
    var s4 :- Expect(n3.1, Tail(kind));
    var amount :- ExpectEnd(s4, Close(kind));
    Some(Statement(Request(kind, n1.0, n2.0, n3.0), amount))
  }

  /** The reply states the calculator, the three numbers it used and the
      amount text: they all read back exactly. */
  lemma ReplyStatesRequest(req: Request, amountText: string)
    ensures ReadReply(Render(req, amountText)) == Some(Statement(req, amountText))
  {
    var f := Figures(req, amountText + Close(req.kind));
    ExpectLiteral(Head(req.kind), f);
    FiguresReadBack(req, amountText);
    assert Expect(Render(req, amountText), Head(req.kind)) == Some(f);
    if req.kind == SipKind {
      HeadsDiffer(f);
      assert Expect(Render(req, amountText), Head(EmiKind)) == None;
    }
  }

  lemma HeadsDiffer(f: string)
    ensures Expect(Head(SipKind) + f, Head(EmiKind)) == None
  {
    assert (Head(SipKind) + f)[0] == 'Y';
  }

  lemma FiguresReadBack(req: Request, amountText: string)
    ensures ReadFigures(req.kind, Figures(req, amountText + Close(req.kind))) == Some(Statement(req, amountText))
  {
    var rest := amountText + Close(req.kind);
    var t5 := Tail(req.kind) + rest;
    var t4 := NatToString(req.years) + t5;
    var t3 := ".0% for " + t4;
    var t2 := NatToString(req.rate) + t3;
    var t1 := " at " + t2;
    ReadNumberRoundTrip(req.amount, t1);
    ExpectLiteral(" at ", t2);
    ReadNumberRoundTrip(req.rate, t3);
    ExpectLiteral(".0% for ", t4);
    ReadNumberRoundTrip(req.years, t5);
    ExpectLiteral(Tail(req.kind), rest);
    ExpectEndLiteral(amountText, Close(req.kind));
  }

  // ---------------------------------------------------------------------
  // The handler.

  /** What the handler as written does with a message: not a calculation
      (it returns None), a reply, or the ZeroDivisionError it raises. */
  datatype Outcome = NotCalculation | Answer(text: string) | ZeroDivision

  /** The amount as the source computes it. */
  function ComputeAsWritten(req: Request): Option<real> {
    match req.kind
    case EmiKind => EmiAsWritten(req.amount, req.rate, req.years)
    case SipKind => SipAsWritten(req.amount, req.rate, req.years)
  }

  /** `handle_financial_calculations` as written; `show` renders the rounded
      amount. */
  function HandleAsWritten(message: string, show: real -> string): Outcome {
    match ParseRequest(message)
    case None => NotCalculation
    case Some(req) =>
      match ComputeAsWritten(req)
      case None => ZeroDivision
      case Some(v) => Answer(Render(req, show(v)))
  }

  /** The handler as written raises exactly for a zero rate, and for an EMI
      over zero years. */
  lemma ZeroRateFaultsAsWritten(message: string, show: real -> string)
    ensures HandleAsWritten(message, show) == ZeroDivision <==>
      ParseRequest(message).Some? &&
      (ParseRequest(message).value.rate == 0 ||
       (ParseRequest(message).value.kind == EmiKind && ParseRequest(message).value.years == 0))
  {
    if ParseRequest(message).Some? {
      var req := ParseRequest(message).value;
      EmiAsWrittenFailsIff(req.amount, req.rate, req.years);
      SipAsWrittenFailsIff(req.amount, req.rate, req.years);
    }
  }

  /** "emi 500000 0 5" is an EMI request at a zero rate, and the handler as
      written raises on it. */
  lemma ZeroRateExample(show: real -> string)
    ensures ParseRequest("emi 500000 0 5") == Some(Request(EmiKind, 500000, 0, 5))
    ensures HandleAsWritten("emi 500000 0 5", show) == ZeroDivision
  {
    var s := "emi 500000 0 5";
    LowerOfLowercase(s);
    assert OccursAt(s, "emi", 0);
    ExampleGroups();
    assert DigitsValue("0") == 0 && DigitsValue("5") == 5 by {
      assert "0"[..0] == "" && "5"[..0] == "";
    }
    SixDigitValue();
    assert ParseRequest(s) == Some(Request(EmiKind, 500000, 0, 5));
    EmiAsWrittenFailsIff(500000, 0, 5);
  }

  lemma ExampleGroups()
    ensures Triple("emi 500000 0 5") == Some(Groups("500000", "0", "5"))
  {
    var s := "emi 500000 0 5";
    assert s[..4] == "emi ";
    assert s[4..10] == "500000";
    assert s[10..11] == " " && s[11..12] == "0" && s[12..13] == " " && s[13..14] == "5";
    TripleAt(s, 4, 10, 11, 12, 13, 14);
  }

  lemma SixDigitValue()
    ensures DigitsValue("500000") == 500000
  {
    assert "500000"[..5] == "50000" && "50000"[..4] == "5000" && "5000"[..3] == "500";
    assert "500"[..2] == "50" && "50"[..1] == "5" && "5"[..0] == "";
  }

  /** The amount with the zero-rate case guarded; `None` for an EMI over
      zero years, which has no installment. An EMI pays off the loan in the
      term; a SIP is the value of the month-by-month deposit account. */
  function Compute(req: Request): (v: Option<real>)
    ensures v.None? <==> req.kind == EmiKind && req.years == 0
    ensures v.Some? && req.kind == EmiKind ==>
      Balance(req.amount as real, 1.0 + MonthlyRate(req.rate), v.value, Months(req.years)) == 0.0
    ensures req.kind == SipKind ==>
      v == Some(SipSeries(req.amount as real, 1.0 + MonthlyRate(req.rate), Months(req.years)))
  {
    match req.kind
    case EmiKind =>
      if req.years == 0 then None
      else
        EmiAmortizes(req.amount, req.rate, req.years);
        Emi(req.amount, req.rate, req.years)
    case SipKind =>
      SipMatchesSeries(req.amount, req.rate, req.years);
      Some(Sip(req.amount, req.rate, req.years))
  }

  /** The handler with the guard: `None` when the message is not a
      calculation (or is an EMI over zero years), otherwise the reply. */
  function Handle(message: string, show: real -> string): Option<string> {
    match ParseRequest(message)
    case None => None
    case Some(req) =>
      match Compute(req)
      case None => None
      case Some(v) => Some(Render(req, show(v)))
  }

  /** The guarded handler answers whatever the handler as written answers,
      with the same text, and never raises: it answers every zero-rate
      request too. */
  lemma HandleAgreesAndNeverFaults(message: string, show: real -> string)
    ensures HandleAsWritten(message, show).Answer? ==> Handle(message, show) == Some(HandleAsWritten(message, show).text)
    ensures HandleAsWritten(message, show) == NotCalculation ==> Handle(message, show).None?
    ensures Handle(message, show).Some? <==>
      (ParseRequest(message).Some? &&
       !(ParseRequest(message).value.kind == EmiKind && ParseRequest(message).value.years == 0))
  {
    if ParseRequest(message).Some? {
      var req := ParseRequest(message).value;
      GuardedAgreesWhereDefined(req.amount, req.rate, req.years);
    }
  }

  /** Every reply of the guarded handler reads back as the request parsed
      from the message and the rendering of the amount computed for it, so
      the facts proved about `Compute` are facts about the reply. */
  lemma HandleReplyStatesRequest(message: string, show: real -> string)
    ensures Handle(message, show).Some? ==>
      ParseRequest(message).Some? && Compute(ParseRequest(message).value).Some? &&
      ReadReply(Handle(message, show).value) ==
        Some(Statement(ParseRequest(message).value, show(Compute(ParseRequest(message).value).value)))
  {
    if Handle(message, show).Some? {
      var req := ParseRequest(message).value;
      ReplyStatesRequest(req, show(Compute(req).value));
    }
  }
}
