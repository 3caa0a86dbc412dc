/** The general-advice fallback: the configuration guard, the prompt built
    around the user's question, and the reply of the language model with
    its failures turned into fixed texts. The model itself is an input: the
    outcome it gives for a prompt. */
module Advice {
  import opened Wrappers
  import opened Text

  // ---------------------------------------------------------------------
  // Configuration at start-up.

  /** Whether the model is usable: an API key that is present and
      non-empty, and a configuration call that does not raise. Whether the
      library offers `configure` does not matter: both ways set the flag. */
  function IsConfigured(apiKey: Option<string>, configureRaises: bool): (configured: bool)
    ensures configured ==> apiKey.Some? && apiKey.value != []
    ensures apiKey.Some? && apiKey.value != [] && !configureRaises ==> configured
  {
    match apiKey
    case None => false
    case Some(key) => key != [] && !configureRaises
  }

  // ---------------------------------------------------------------------
  // The prompt.

  const PromptHead := "You are a helpful and knowledgeable financial advisor.\n    The user's question is: "
  const PromptTail := "\n    Provide a helpful and concise response.\n    "

  /** `create_financial_advice_prompt`: the question verbatim between the
      fixed instructions (the indentation of the source's triple-quoted
      string included). */
  function Prompt(question: string): string {
    PromptHead + question + PromptTail
  }

  /** Reads the question back out of a prompt. */
  function QuestionOf(prompt: string): Option<string> {
    if |PromptHead| + |PromptTail| <= |prompt| && StartsWith(prompt, PromptHead) && EndsWith(prompt, PromptTail)
    then Some(prompt[|PromptHead|..|prompt| - |PromptTail|])
    else None
  }

  /** The prompt carries the question unchanged: it reads back exactly. */
  lemma PromptRoundTrip(question: string)
    ensures QuestionOf(Prompt(question)) == Some(question)
  {
    var p := Prompt(question);
    assert p[..|PromptHead|] == PromptHead;
    assert p[|p| - |PromptTail|..] == PromptTail;
    assert p[|PromptHead|..|p| - |PromptTail|] == question;
  }

  /** Different questions give different prompts. */
  lemma PromptInjective(q1: string, q2: string)
    requires Prompt(q1) == Prompt(q2)
    ensures q1 == q2
  {
    PromptRoundTrip(q1);
    PromptRoundTrip(q2);
  }

  // ---------------------------------------------------------------------
  // `get_financial_advice`.

  /** What the model library does with a prompt: a reply text (from
      whichever call shape the library offers), no usable call at all, or an
      exception. */
  datatype Generation = Reply(text: string) | NoCallSurface | Raised

  const NotConfigured := "AI model not configured. Please set GOOGLE_API_KEY in your .env or environment to enable Gemini responses."
  const UnexpectedSdk := "Gemini SDK is present but in an unexpected state; unable to call the model."
  const Apology := "Sorry, I am having trouble generating a response right now."

  /** The advice for a question; `generate` is the model library's answer
      for each prompt. Never fails. */
  function GetAdvice(configured: bool, generate: string -> Generation, question: string): string {
    if !configured then NotConfigured else Answer(generate(Prompt(question)))
  }

  /** The text for a generation outcome. */
  function Answer(g: Generation): string {
    match g
    case Reply(text) => text
    case NoCallSurface => UnexpectedSdk
    case Raised => Apology
  }

  /** Without configuration the advice is the same fixed text for every
      question, and the model is never asked. */
  lemma UnconfiguredIsConstant(generate: string -> Generation, other: string -> Generation, q1: string, q2: string)
    ensures GetAdvice(false, generate, q1) == GetAdvice(false, other, q2) == NotConfigured
  {
  }

  /** When configured, the model is asked about exactly the user's question,
      and the advice is the model's reply, or a fixed text when the library
      raises or offers no call. */
  lemma AdviceAsksTheQuestion(generate: string -> Generation, question: string)
    ensures exists prompt :: QuestionOf(prompt) == Some(question) && GetAdvice(true, generate, question) == Answer(generate(prompt))
  {
    PromptRoundTrip(question);
    assert QuestionOf(Prompt(question)) == Some(question);
  }

  /** The start-up guard decides whether the model is ever asked: with no
      key, an empty key or a failing configuration every question gets the
      fixed notice; with a usable key the model's answer to the question's
      prompt is returned. */
  lemma KeyGuardsTheModel(apiKey: Option<string>, configureRaises: bool, generate: string -> Generation, question: string)
    ensures apiKey.None? || apiKey.value == [] || configureRaises ==>
      GetAdvice(IsConfigured(apiKey, configureRaises), generate, question) == NotConfigured
    ensures apiKey.Some? && apiKey.value != [] && !configureRaises ==>
      GetAdvice(IsConfigured(apiKey, configureRaises), generate, question) == Answer(generate(Prompt(question)))
  {
  }

  /** Any exception during generation becomes the apology. */
  lemma ExceptionBecomesApology(generate: string -> Generation, question: string)
    requires generate(Prompt(question)) == Raised
    ensures GetAdvice(true, generate, question) == Apology
  {
  }
}
