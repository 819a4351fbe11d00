/**
 * App.tsx: the three state fields `code`, `isGenerating` and `error`, and
 * `handleStrategySubmit`, which clears them, awaits the generation and stores
 * its outcome.
 */
module App {
  import opened Wrappers
  import opened Types
  import GeminiService
  import CodeViewer

  const UnexpectedMessage: string := "An unexpected error occurred."

  /** The text shown for a failure: its message, or a fixed fallback when the message is empty. */
  function ErrorText(message: string): (r: string)
    ensures r != ""
    ensures message != "" ==> r == message
    ensures message == "" ==> r == "An unexpected error occurred."
  {
    if message == "" then UnexpectedMessage else message
  }

  /** `code` once a submission with outcome `r` has settled. */
  function CodeAfter(r: Result<string>): (c: Option<string>)
    ensures c.Some? <==> r.Success?
    ensures r.Success? ==> c == Some(r.value)
  {
    if r.Success? then Some(r.value) else None
  }

  /** `error` once a submission with outcome `r` has settled. */
  function ErrorAfter(r: Result<string>): (e: Option<string>)
    ensures e.Some? <==> r.Failure?
    ensures e.Some? ==> CodeViewer.Truthy(e)
    ensures r.Failure? && r.message != "" ==> e == Some(r.message)
  {
    if r.Success? then None else Some(ErrorText(r.message))
  }

  /**
   * A settled submission leaves exactly one of `code` and `error` set, and
   * the viewer shows that one: the code panel for a non-empty result, the
   * error panel with the message for a failure.
   */
  lemma SettledPanel(r: Result<string>)
    requires r.Success? ==> r.value != ""
    ensures CodeAfter(r).Some? != ErrorAfter(r).Some?
    ensures r.Success? ==> CodeViewer.ChoosePanel(CodeAfter(r), ErrorAfter(r), false).CodePanel?
    ensures r.Failure? ==>
      CodeViewer.ChoosePanel(CodeAfter(r), ErrorAfter(r), false) == CodeViewer.ErrorPanel(ErrorText(r.message))
  {
  }

  /**
   * The outcomes of the generation service always carry a message, so the
   * generic fallback text is never what the viewer shows after a submission.
   */
  lemma FallbackNeverShown(apiKey: Option<string>, p: StrategyParams, fmt: real -> string,
                           respond: GeminiService.Request -> GeminiService.CallOutcome)
    ensures var r := GeminiService.GenerateExpertAdvisor(apiKey, p, fmt, respond).result;
      ErrorAfter(r) == None ||
      ErrorAfter(r) == Some("API Key is missing.") ||
      ErrorAfter(r) == Some("Failed to generate Expert Advisor. Please try again.")
  {
    GeminiService.GenerationResults(apiKey, p, fmt, respond);
  }

  class AppState {
    var code: Option<string>
    var isGenerating: bool
    var error: Option<string>

    /** Code and error are never shown together, and a request in flight has cleared both. */
    predicate Valid()
      reads this
      ensures Valid() && isGenerating ==> CodeViewer.ChoosePanel(code, error, isGenerating) == CodeViewer.Spinner
      ensures Valid() && CodeViewer.Truthy(error) ==> CodeViewer.ChoosePanel(code, error, isGenerating).ErrorPanel? && code.None?
    {
      !(code.Some? && error.Some?) && (isGenerating ==> code.None? && error.None?)
    }

    /** The `useState` initial values. */
    constructor()
      ensures code == None && error == None && !isGenerating
      ensures Valid()
    {
      code := None;
      isGenerating := false;
      error := None;
    }

    /** The three setter calls before the request. */
    method StartSubmission()
      modifies this
      ensures isGenerating && code == None && error == None
      ensures Valid()
    {
      isGenerating := true;
      error := None;
      code := None;
    }

    /** The `try` body after the await, and the `finally`. */
    method Succeed(generated: string)
      requires isGenerating && Valid()
      modifies this
      ensures code == Some(generated) && error == old(error) && !isGenerating
      ensures Valid()
    {
      code := Some(generated);
      isGenerating := false;
    }

    /** The `catch` body, and the `finally`. */
    method Fail(message: string)
      requires isGenerating && Valid()
      modifies this
      ensures error == Some(ErrorText(message)) && code == old(code) && !isGenerating
      ensures Valid()
    {
      error := Some(ErrorText(message));
      isGenerating := false;
    }

    /**
     * `handleStrategySubmit`. The awaited service call is
     * `GenerateExpertAdvisor` with the environment's key, the number
     * formatting and the model's response as parameters. The settled state
     * depends only on this submission's outcome, never on earlier ones.
     */
    method HandleStrategySubmit(p: StrategyParams, apiKey: Option<string>, fmt: real -> string,
                                respond: GeminiService.Request -> GeminiService.CallOutcome)
      modifies this
      ensures var r := GeminiService.GenerateExpertAdvisor(apiKey, p, fmt, respond).result;
        code == CodeAfter(r) && error == ErrorAfter(r)
      ensures !isGenerating
      ensures Valid()
    {
      StartSubmission();
      var outcome := GeminiService.GenerateExpertAdvisor(apiKey, p, fmt, respond).result;
      if outcome.Success? {
        Succeed(outcome.value);
      } else {
        Fail(outcome.message);
      }
    }
  }

  /**
   * A failed submission does not block the next one: after a missing key
   * gives an error, a submission whose call answers with text shows that
   * text and no error.
   */
  method RetryAfterFailure(app: AppState, p: StrategyParams, fmt: real -> string, text: string)
    requires text != ""
    modifies app
    ensures app.code == Some(text) && app.error == None && !app.isGenerating
  {
    var answer := (request: GeminiService.Request) => GeminiService.Responded(Some(text));
    app.HandleStrategySubmit(p, None, fmt, answer);
    assert app.error == Some("API Key is missing.");
    app.HandleStrategySubmit(p, Some("key"), fmt, answer);
  }
}
