/**
 * `FactEvaluator`: an LLM-graded evaluator that compares a model's answer with an
 * expert's ideal answer. It renders the grading prompt, then turns the evaluating model's letter
 * into a rating on the evaluator's numeric metric.
 */
module FactEvaluator {
  import opened Wrappers
  import opened Text

  /** The name of the one metric the evaluator reports: `nameof(FactEvaluator)`. */
  const MetricName := "FactEvaluator"

  /** `EvaluationMetricNames`. */
  const EvaluationMetricNames: seq<string> := [MetricName]

  /** The additional contexts an evaluation may be given. */
  datatype EvaluationContext =
    | EvaluationExpert(idealAnswer: string)
    | OtherContext(typeName: string)

  /** A chat message, seen through its (nullable) `Text`. */
  datatype ChatMessage = ChatMessage(text: Option<string>)

  /** `additionalContext?.OfType<EvaluationExpert>().FirstOrDefault()`. */
  function FirstExpert(contexts: seq<EvaluationContext>): (r: Option<EvaluationContext>)
    ensures r.Some? ==> r.value.EvaluationExpert? && r.value in contexts
    ensures r.None? <==> forall k :: 0 <= k < |contexts| ==> !contexts[k].EvaluationExpert?
  {
    if contexts == [] then None
    else if contexts[0].EvaluationExpert? then Some(contexts[0])
    else FirstExpert(contexts[1..])
  }

  /** The expert found is the first one in the list. */
  lemma {:induction false} FirstExpertIsFirst(contexts: seq<EvaluationContext>, k: nat)
    requires k < |contexts| && contexts[k].EvaluationExpert?
    requires forall j :: 0 <= j < k ==> !contexts[j].EvaluationExpert?
    ensures FirstExpert(contexts) == Some(contexts[k])
  {
    if k > 0 {
      FirstExpertIsFirst(contexts[1..], k - 1);
    }
  }

  const Separator := "************"

  /** The prompt before the data. */
  const Preamble := "You are comparing a submitted answer to an expert answer on a given question. Here is the data:\n"

  /** The prompt after the data: the grading instructions. */
  const Instructions := "\n"
    + "\n"
    + "Compare the factual content of the submitted answer with the expert answer. Ignore any differences in style, grammar, or punctuation.\n"
    + "The submitted answer may either be a subset or superset of the expert answer, or it may conflict with it. Determine which case applies. Answer the question by selecting one of the following options:\n"
    + "(A) The submitted answer is a subset of the expert answer and is fully consistent with it.\n"
    + "(B) The submitted answer is a superset of the expert answer and is fully consistent with it.\n"
    + "(C) The submitted answer contains all the same details as the expert answer.\n"
    + "(D) There is a disagreement between the submitted answer and the expert answer.\n"
    + "(E) The answers differ, but these differences don't matter from the perspective of factuality.\n"
    + "\n"
    + "Return a string of choices, e.g. \"A\" or \"B\" or \"C\" or \"D\" or \"E\""

  /** The block between `[BEGIN DATA]` and `[END DATA]`: question, expert, submission. */
  function DataBlock(input: string, ideal: string, completion: string): string {
    "[BEGIN DATA]\n" + Separator + "\n[Question]: " + input
      + "\n" + Separator + "\n[Expert]: " + ideal
      + "\n" + Separator + "\n[Submission]: " + completion
      + "\n" + Separator + "\n[END DATA]"
  }

  const MissingIdeal := InvalidOperation("Ideal answer required in the additional context.")

  /** The ideal answer of the first expert, when there is an expert. */
  function IdealAnswer(additionalContext: Option<seq<EvaluationContext>>): Option<string> {
    if additionalContext.None? then None
    else
      var expert := FirstExpert(additionalContext.value);
      if expert.None? then None else Some(expert.value.idealAnswer)
  }

  /** The prompt around the three texts it is built from. */
  function Prompt(input: string, ideal: string, completion: string): string {
    Preamble + DataBlock(input, ideal, completion) + Instructions
  }

  /**
   * `RenderEvaluationPromptAsync`: the grading prompt, or an `InvalidOperationException`
   * when no expert is given or the first expert's ideal answer is empty. A missing user
   * request or response text counts as empty. The chat history is not used.
   */
  function RenderEvaluationPrompt(
    userRequest: Option<ChatMessage>,
    modelResponse: ChatMessage,
    additionalContext: Option<seq<EvaluationContext>>): (r: Result<string>)
    ensures r.Err? <==> IdealAnswer(additionalContext).None? || IdealAnswer(additionalContext) == Some("")
    ensures r.Err? ==> r.error == MissingIdeal
  {
    var ideal := IdealAnswer(additionalContext);
    if ideal.None? || ideal.value == "" then Err(MissingIdeal)
    else
      var input := if userRequest.Some? && userRequest.value.text.Some? then userRequest.value.text.value else "";
      var completion := if modelResponse.text.Some? then modelResponse.text.value else "";
      Ok(Prompt(input, ideal.value, completion))
  }

  /** Only the first expert counts: the other contexts, and later experts, change nothing. */
  lemma OnlyFirstExpertUsed(userRequest: Option<ChatMessage>, modelResponse: ChatMessage,
                            contexts: seq<EvaluationContext>, k: nat)
    requires k < |contexts| && contexts[k].EvaluationExpert?
    requires forall j :: 0 <= j < k ==> !contexts[j].EvaluationExpert?
    ensures RenderEvaluationPrompt(userRequest, modelResponse, Some(contexts)) ==
            RenderEvaluationPrompt(userRequest, modelResponse, Some([contexts[k]]))
  {
    assert IdealAnswer(Some(contexts)) == IdealAnswer(Some([contexts[k]])) by {
      FirstExpertIsFirst(contexts, k);
      FirstExpertIsFirst([contexts[k]], 0);
    }
  }

  /**
   * A rendered prompt holds the question, the expert's answer and the submission, in this
   * order and each on its own labelled line, between `[BEGIN DATA]` and `[END DATA]`; a
   * missing request or response text is written as the empty string.
   */
  lemma PromptLayout(userRequest: Option<ChatMessage>, modelResponse: ChatMessage,
                     additionalContext: Option<seq<EvaluationContext>>)
    requires RenderEvaluationPrompt(userRequest, modelResponse, additionalContext).Ok?
    ensures var p := RenderEvaluationPrompt(userRequest, modelResponse, additionalContext).value;
      var input := if userRequest.None? || userRequest.value.text.None? then "" else userRequest.value.text.value;
      var completion := if modelResponse.text.None? then "" else modelResponse.text.value;
      ContainsAt(p, DataBlock(input, IdealAnswer(additionalContext).value, completion), |Preamble|)
  {
    var input := if userRequest.None? || userRequest.value.text.None? then "" else userRequest.value.text.value;
    var completion := if modelResponse.text.None? then "" else modelResponse.text.value;
    var ideal := IdealAnswer(additionalContext).value;
    assert RenderEvaluationPrompt(userRequest, modelResponse, additionalContext).value == Prompt(input, ideal, completion);
    MiddleOf(Preamble, DataBlock(input, ideal, completion), Instructions);
  }

  lemma MiddleOf(a: string, d: string, b: string)
    ensures ContainsAt(a + d + b, d, |a|)
  {
    assert (a + d + b)[|a|..|a| + |d|] == d;
  }

  // ----- Grading -----

  /** Microsoft.Extensions.AI.Evaluation `EvaluationRating`. */
  datatype EvaluationRating = Unknown | Inconclusive | Unacceptable | Poor | Average | Good | Exceptional

  /** The evaluating model's letter as a rating: an exact, case-sensitive match. */
  function RatingOf(response: string): (r: EvaluationRating)
    ensures r != Unknown && r != Poor
  {
    match response
    case "A" => Average
    case "B" => Good
    case "C" => Exceptional
    case "D" => Unacceptable
    case "E" => Exceptional
    case _ => Inconclusive
  }

  /**
   * Only the five capital letters alone give a rating; anything else, a lower-case or
   * padded letter included, is inconclusive.
   */
  lemma RatingTable(response: string)
    ensures RatingOf(response) != Inconclusive <==> response in ["A", "B", "C", "D", "E"]
    ensures RatingOf("A") == Average && RatingOf("B") == Good && RatingOf("C") == Exceptional
      && RatingOf("D") == Unacceptable && RatingOf("E") == Exceptional
    ensures RatingOf("a") == Inconclusive && RatingOf(" A") == Inconclusive && RatingOf("A\n") == Inconclusive
  {
  }

  datatype EvaluationInterpretation = EvaluationInterpretation(rating: EvaluationRating, failed: bool)

  /** The interpretation the evaluating model's response gives. */
  function Interpret(response: string): (r: EvaluationInterpretation)
    ensures r.rating == RatingOf(response)
    ensures r.failed <==> r.rating == Inconclusive
    ensures r.failed <==> response !in ["A", "B", "C", "D", "E"]
  {
    RatingTable(response);
    var rating := RatingOf(response);
    EvaluationInterpretation(rating, rating == Inconclusive)
  }

  datatype DiagnosticSeverity = Informational | Warning | DiagnosticError

  datatype EvaluationDiagnostic = EvaluationDiagnostic(severity: DiagnosticSeverity, message: string)

  /** An evaluation metric: numeric ones carry an interpretation once graded. */
  datatype EvaluationMetric =
    | NumericMetric(name: string, diagnostics: seq<EvaluationDiagnostic>, interpretation: Option<EvaluationInterpretation>)
    | OtherMetric(name: string, diagnostics: seq<EvaluationDiagnostic>)

  /** `AddDiagnostic` on one metric. */
  function WithDiagnostic(metric: EvaluationMetric, d: EvaluationDiagnostic): (r: EvaluationMetric)
    ensures r.diagnostics == metric.diagnostics + [d]
    ensures r.NumericMetric? == metric.NumericMetric? && r.name == metric.name
    ensures r.NumericMetric? ==> r.interpretation == metric.interpretation
  {
    metric.(diagnostics := metric.diagnostics + [d])
  }

  /** `InitializeResult`: one numeric metric named after the evaluator, not yet graded. */
  function InitialMetrics(): (r: map<string, EvaluationMetric>)
    ensures forall name :: name in r <==> name in EvaluationMetricNames
    ensures MetricName in r && r[MetricName].NumericMetric?
  {
    map[MetricName := NumericMetric(MetricName, [], None)]
  }

  /** An `EvaluationResult`: metrics by name, which evaluators update in place. */
  class EvaluationResult {
    var metrics: map<string, EvaluationMetric>

    constructor (metrics: map<string, EvaluationMetric>)
      ensures this.metrics == metrics
    {
      this.metrics := metrics;
    }
  }

  /** The metrics after a successful parse of `response`. */
  function Graded(metrics: map<string, EvaluationMetric>, response: string): (r: map<string, EvaluationMetric>)
    requires MetricName in metrics && metrics[MetricName].NumericMetric?
    ensures r.Keys == metrics.Keys
    ensures r[MetricName].NumericMetric? && r[MetricName].interpretation == Some(Interpret(response))
    ensures forall k :: k in metrics ==>
      r[k].diagnostics == metrics[k].diagnostics + [EvaluationDiagnostic(Informational, response)]
    ensures forall k :: k in metrics && k != MetricName ==> r[k] == WithDiagnostic(metrics[k], EvaluationDiagnostic(Informational, response))
  {
    var d := EvaluationDiagnostic(Informational, response);
    var all := map k | k in metrics :: WithDiagnostic(metrics[k], d);
    all[MetricName := all[MetricName].(interpretation := Some(Interpret(response)))]
  }

  /**
   * `ParseEvaluationResponseAsync`: throws unless the result has a numeric metric under
   * the evaluator's name; otherwise attaches the response to every metric as an
   * informational diagnostic and sets the metric's interpretation.
   */
  method ParseEvaluationResponse(response: string, result: EvaluationResult) returns (outcome: Result<()>)
    modifies result
    ensures outcome.Err? <==> !(MetricName in old(result.metrics) && old(result.metrics)[MetricName].NumericMetric?)
    ensures outcome.Err? ==> (outcome.error == InvalidOperation("NumericMetric type required")
      && result.metrics == old(result.metrics))
    ensures outcome.Ok? ==> result.metrics == Graded(old(result.metrics), response)
  {
    if !(MetricName in result.metrics && result.metrics[MetricName].NumericMetric?) {
      return Err(InvalidOperation("NumericMetric type required"));
    }
    var diagnostic := EvaluationDiagnostic(Informational, response);
    result.metrics := map k | k in result.metrics :: WithDiagnostic(result.metrics[k], diagnostic);
    var rating := RatingOf(response);
    var numericMetric := result.metrics[MetricName];
    result.metrics := result.metrics[MetricName := numericMetric.(interpretation := Some(EvaluationInterpretation(rating, rating == Inconclusive)))];
    return Ok(());
  }

  /** A result the evaluator initialised itself is always graded: parsing it never throws. */
  lemma InitialResultGrades(response: string)
    ensures MetricName in InitialMetrics() && InitialMetrics()[MetricName].NumericMetric?
    ensures Graded(InitialMetrics(), response)[MetricName] ==
      NumericMetric(MetricName, [EvaluationDiagnostic(Informational, response)], Some(Interpret(response)))
  {
  }
}
