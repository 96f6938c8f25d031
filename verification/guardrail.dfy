/** `InputGuardrailAdvisor`: before a chat request reaches the model, a second call to the
    chat model classifies the user's question as on-topic ("YES") or not. An off-topic
    question is rejected by throwing; anything else, including a failed classification,
    lets the request through unchanged. The classifier and the rest of the advisor chain
    are parameters. */
module Guardrail {
  import opened Wrappers
  import opened Jvm
  import opened Text

  // ---------------------------------------------------------------------------
  // The fixed texts
  // ---------------------------------------------------------------------------

  /** The lines of the classifier's instructions, as written at the literal's margin
      (the trailing space of the first line is part of the text). */
  const ValidationPromptLines: seq<string> := [
    "You are a content validator. Your task is to determine if a user's question ",
    "is related to airline loyalty programs.",
    "",
    "Airline loyalty topics include:",
    "- Frequent flyer programs (Delta SkyMiles, United MileagePlus, etc.)",
    "- Status tiers and qualification requirements",
    "- Earning and redeeming miles or points",
    "- Elite benefits and perks",
    "- Award flights and upgrades",
    "- Airline alliances and partnerships",
    "",
    "Respond with ONLY \"YES\" if the question is about airline loyalty programs.",
    "Respond with ONLY \"NO\" if it is not.",
    "",
    "Do not provide any explanation, just YES or NO."
  ]

  /** The instructions are used as the raw literal stands, margin and all: unlike the
      rejection message they are never passed through `trimIndent()`. */
  const ValidationSystemPrompt: string := RawString(ValidationPromptLines)

  /** The lines of the rejection message at the literal's margin; the first two keep the
      trailing space the literal gives them. */
  const RejectionLine0: string := "I'm specialized in " + "airline loyalty programs. "
  const RejectionLine1: string := "Please ask questions about " + "frequent flyer programs, "
  const RejectionLine2: string := "status tiers, miles, " + "or airline rewards."
  const RejectionLines: seq<string> := [RejectionLine0, RejectionLine1, RejectionLine2]

  /** `REJECTION_MESSAGE.trimIndent()`. */
  const RejectionMessage: string := TrimIndent(RawString(RejectionLines))

  lemma FirstRejectionLine()
    ensures NoBreaks(RejectionLine0) && RejectionLine0[0] == 'I'
  {
    NoBreaksConcat("I'm specialized in ", "airline loyalty programs. ");
  }

  lemma SecondRejectionLine()
    ensures NoBreaks(RejectionLine1) && NoBreaks(RejectionLine2)
  {
    NoBreaksConcat("Please ask questions about ", "frequent flyer programs, ");
    NoBreaksConcat("status tiers, miles, ", "or airline rewards.");
  }

  /** The rejection lines are single lines, the first starting at the margin. */
  lemma RejectionLinesAreLines()
    ensures forall j :: 0 <= j < |RejectionLines| ==> NoBreaks(RejectionLines[j])
    ensures |RejectionLines[0]| > 0 && !IsWhitespace(RejectionLines[0][0])
  {
    FirstRejectionLine();
    SecondRejectionLine();
  }

  /** The rejection message is the three lines, margin removed, trailing spaces kept,
      joined by single line feeds. */
  lemma RejectionMessageText()
    ensures RejectionMessage == RejectionLines[0] + "\n" + RejectionLines[1] + "\n" + RejectionLines[2]
  {
    RejectionLinesAreLines();
    TrimIndentOfRawString(RejectionLines, 0);
    JoinThree(RejectionLines[0], RejectionLines[1], RejectionLines[2]);
  }

  // ---------------------------------------------------------------------------
  // The classification request and its verdict
  // ---------------------------------------------------------------------------

  /** A prompt sent to the chat model, with its sampling temperature. */
  datatype Prompt = Prompt(text: string, temperature: Double)

  const QuestionSeparator: string := "\n\nUser question: "

  /** Everything in a classification prompt before the user's question. */
  const QuestionPreamble: string := ValidationSystemPrompt + QuestionSeparator

  /** The question a classification prompt asks about, if the text is one. */
  function QuestionOf(text: string): Option<string> {
    if |QuestionPreamble| <= |text| && text[..|QuestionPreamble|] == QuestionPreamble
    then Some(text[|QuestionPreamble|..])
    else None
  }

  /** The prompt `validateQuery` sends: the instructions, a blank line, the labelled
      question, at temperature 0. */
  function ClassificationPrompt(message: string): (p: Prompt)
    ensures p.temperature == PositiveZero
    ensures QuestionOf(p.text) == Some(message)
  {
    var text := ValidationSystemPrompt + QuestionSeparator + message;
    assert text[..|QuestionPreamble|] == QuestionPreamble;
    assert text[|QuestionPreamble|..] == message;
    Prompt(text, PositiveZero)
  }

  /** Distinct questions give distinct classification prompts. */
  lemma ClassificationPromptInjective(a: string, b: string)
    requires ClassificationPrompt(a) == ClassificationPrompt(b)
    ensures a == b
  {
    assert QuestionOf(ClassificationPrompt(a).text) == Some(a);
  }

  /** What the classifier call produced: the texts of the generations (each possibly
      `null`), or an exception. */
  datatype ClassifierOutcome = Generations(texts: seq<Option<string>>) | CallFailed

  /** `validateQuery`: the first generation's text, trimmed and uppercased, must be `"YES"`;
      a `null` text counts as `"NO"`; an exception (including the one `results[0]` throws on
      an empty list) lets the query through. */
  function Verdict(outcome: ClassifierOutcome): (accept: bool)
    ensures outcome.CallFailed? ==> accept
    ensures outcome.Generations? && outcome.texts == [] ==> accept
    ensures outcome.Generations? && |outcome.texts| > 0 && outcome.texts[0].None? ==> !accept
  {
    match outcome
    case CallFailed => true
    case Generations(texts) =>
      if |texts| == 0 then true
      else
        var answer := match texts[0] case Some(s) => AsciiUpper(Trim(s)) case None => "NO";
        answer == "YES"
  }

  /** The word "yes" in any mix of cases. */
  predicate IsYesWord(w: string) {
    && |w| == 3
    && (w[0] == 'y' || w[0] == 'Y')
    && (w[1] == 'e' || w[1] == 'E')
    && (w[2] == 's' || w[2] == 'S')
  }

  /** A classifier answer that says yes: surrounded by whitespace at most. */
  ghost predicate SaysYes(s: string) {
    exists i, j :: TrimmedAt(s, i, j) && IsYesWord(s[i..j])
  }

  lemma UppercaseIsYes(w: string)
    ensures AsciiUpper(w) == "YES" <==> IsYesWord(w)
  {
    var u := AsciiUpper(w);
    if |w| == 3 {
      assert u == "YES" <==> u[0] == 'Y' && u[1] == 'E' && u[2] == 'S';
    }
  }

  /** The verdict accepts exactly when the classifier failed, returned nothing, or its first
      answer says yes. */
  lemma VerdictSaysYes(outcome: ClassifierOutcome)
    ensures Verdict(outcome) <==>
      (|| outcome.CallFailed?
       || outcome.texts == []
       || (outcome.texts[0].Some? && SaysYes(outcome.texts[0].value)))
  {
    if outcome.Generations? && |outcome.texts| > 0 && outcome.texts[0].Some? {
      var s := outcome.texts[0].value;
      UppercaseIsYes(Trim(s));
      if SaysYes(s) {
        var i, j :| TrimmedAt(s, i, j) && IsYesWord(s[i..j]);
        TrimIs(s, i, j);
      } else {
        var i, j :| TrimmedAt(s, i, j) && Trim(s) == s[i..j];
      }
    }
  }

  /** `" yes\n"` is accepted, and so is an empty list of generations. */
  lemma VerdictAcceptsExamples()
    ensures Verdict(Generations([Some(" yes\n")]))
    ensures Verdict(Generations([]))
  {
    var s := " yes\n";
    assert TrimmedAt(s, 1, 4) && IsYesWord(s[1..4]);
    VerdictSaysYes(Generations([Some(s)]));
  }

  /** `"YES."` is rejected, and so is a `null` first answer whatever follows it. */
  lemma VerdictRejectsExamples()
    ensures !Verdict(Generations([Some("YES.")]))
    ensures !Verdict(Generations([None, Some("YES")]))
  {
    var t := "YES.";
    assert TrimmedAt(t, 0, 4);
    TrimIs(t, 0, 4);
    assert |AsciiUpper(Trim(t))| == 4;
  }

  // ---------------------------------------------------------------------------
  // The advisor step
  // ---------------------------------------------------------------------------

  /** A chat request: the user message's text (`null` when there is none) and whatever else
      it carries, which the advisor does not look at. */
  datatype Request<C> = Request(userText: Option<string>, context: C)

  /** The advisor's result and the calls it made: the prompts sent to the classifier and
      the requests handed to the rest of the chain. */
  datatype Advice<C, R> = Advice(result: Result<R, Exception>, classified: seq<Prompt>, forwarded: seq<Request<C>>)

  /** The text validated: the user message, or `""` when there is none. */
  function UserMessage<C>(request: Request<C>): string {
    request.userText.GetOr("")
  }

  /** `adviseCall`: classify the user message; on rejection throw the rejection message
      without touching the chain, otherwise return exactly what the chain returns for the
      unchanged request. */
  function AdviseCall<C, R>(request: Request<C>, classify: Prompt -> ClassifierOutcome,
                            next: Request<C> -> Result<R, Exception>): (a: Advice<C, R>)
    ensures a.classified == [ClassificationPrompt(UserMessage(request))]
    ensures a.forwarded == [] <==> !Verdict(classify(ClassificationPrompt(UserMessage(request))))
    ensures a.forwarded == [] ==> a.result == Err(IllegalArgument(RejectionMessage))
    ensures a.forwarded != [] ==> a.forwarded == [request] && a.result == next(request)
  {
    var prompt := ClassificationPrompt(UserMessage(request));
    if !Verdict(classify(prompt)) then Advice(Err(IllegalArgument(RejectionMessage)), [prompt], [])
    else Advice(next(request), [prompt], [request])
  }

  /** A request without a user message is judged as the empty question. */
  lemma MissingMessageIsEmpty<C, R>(context: C, classify: Prompt -> ClassifierOutcome,
                                    next: Request<C> -> Result<R, Exception>)
    ensures AdviseCall(Request(None, context), classify, next).classified == [ClassificationPrompt("")]
    ensures QuestionOf(AdviseCall(Request(None, context), classify, next).classified[0].text) == Some("")
  {
  }

  /** If the classifier cannot be reached the advisor is transparent. */
  lemma FailsOpen<C, R>(request: Request<C>, next: Request<C> -> Result<R, Exception>)
    ensures AdviseCall(request, _ => CallFailed, next).result == next(request)
    ensures AdviseCall(request, _ => Generations([]), next).result == next(request)
  {
  }

  /** A rejection is an `IllegalArgumentException` and makes no chain call. */
  lemma RejectionIsIllegalArgument<C, R>(request: Request<C>, classify: Prompt -> ClassifierOutcome,
                                         next: Request<C> -> Result<R, Exception>)
    requires AdviseCall(request, classify, next).forwarded == []
    ensures AdviseCall(request, classify, next).result.Err?
    ensures AdviseCall(request, classify, next).result.error.IsIllegalArgument()
    ensures AdviseCall(request, classify, next).result.error.message == RejectionMessage
  {
  }

  // ---------------------------------------------------------------------------
  // Order in the advisor chain
  // ---------------------------------------------------------------------------

  /** The advisors the chat client is configured with whose order the repository sets. */
  datatype Advisor = InputGuardrail | SimpleLogger

  /** `getOrder()`: lower runs earlier. */
  function Order(a: Advisor): (o: Int32)
    ensures a == InputGuardrail ==> o == Int32Min
  {
    match a
    case InputGuardrail => HighestPrecedence
    case SimpleLogger => 0
  }

  /** The guardrail sees a request before the logger does, and no advisor can be ordered
      strictly before it. */
  lemma GuardrailRunsFirst()
    ensures Order(InputGuardrail) < Order(SimpleLogger)
    ensures forall b: Advisor :: Order(InputGuardrail) <= Order(b)
  {
  }
}
