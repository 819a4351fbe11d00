/**
 * services/geminiService.ts: the fixed system instruction, the prompt built
 * from the strategy parameters, and the mapping of the model call's outcome
 * to the value returned or the error thrown by `generateExpertAdvisor`.
 * The SDK call itself is not modelled: its outcome is a parameter.
 */
module GeminiService {
  import opened Wrappers
  import opened Types
  import opened Strings

  /** The role and coding rules sent with every request. */
  const SystemInstruction: string :=
    "\n"
    + "You are an expert senior MQL5 (MetaQuotes Language 5) developer. \n"
    + "You specialize in algorithmic trading systems including Price Action, Smart Money Concepts (SMC), ICT, and Candle Range Theory (CRT/TJR) principles.\n"
    + "\n"
    + "Your task is to write robust, compilable, and professional-grade Expert Advisor (EA) code based on the user's trading strategy.\n"
    + "\n"
    + "Follow these strict coding standards:\n"
    + "1. Use the 'CTrade' class from '<Trade/Trade.mqh>' for all order executions.\n"
    + "2. Structure the code properly with 'OnInit', 'OnDeinit', and 'OnTick' event handlers.\n"
    + "3. Use strict property definitions (e.g., '#property strict').\n"
    + "4. Include input variables for all user-configurable parameters (Lots, SL, TP, Magic Number, Trading Hours, etc.).\n"
    + "5. Implement error handling for trade requests.\n"
    + "6. Add comments explaining complex logic, especially for specific patterns like FVG (Fair Value Gaps), Order Blocks, or Liquidity Sweeps.\n"
    + "7. Ensure the code compiles without errors.\n"
    + "8. If the strategy involves indicators, use the standard library indicator functions (e.g., iRSI, iMA) and handle handles in OnInit.\n"
    + "9. For CRT/SMC strategies, implementing helper functions for logic like \"IsFVG\", \"FindSwingHigh\", \"CheckTimeWindow\", or \"DetectMSS\" (Market Structure Shift) is highly recommended.\n"
    + "\n"
    + "The output must be ONLY the raw code string, or a Markdown code block containing the code.\n"

  const ModelName: string := "gemini-3-pro-preview"
  const ThinkingBudget: int := 4096

  const MissingKeyMessage: string := "API Key is missing."
  const FailureMessage: string := "Failed to generate Expert Advisor. Please try again."
  const NoCodeSentinel: string := "// Error: No code generated."

  // ---------------------------------------------------------------------------
  // The prompt

  predicate EndsWith(s: string, p: string)
  {
    |p| <= |s| && s[|s| - |p|..] == p
  }

  /** `s` occurs in `t` at offset `i`. */
  predicate InfixAt(t: string, s: string, i: nat)
  {
    i + |s| <= |t| && t[i..i + |s|] == s
  }

  predicate Contains(t: string, s: string)
  {
    exists i: nat | i <= |t| :: InfixAt(t, s, i)
  }

  const Intro: string := "\n  Generate an MQL5 Expert Advisor for the following requirements:\n  \n"
  const LogicLabel: string := "\n  Strategy Logic:\n  "
  /** The closing instructions: new-bar or every-tick execution, and a margin check. */
  const Instructions: string :=
    "\n\n  Ensure the code handles new bar checks if necessary for the strategy, or runs on every tick if specified. \n"
    + "  Check for sufficient margin before opening trades.\n  "

  /** One labelled line of the requirements block. */
  function Line(name: string, value: string): string
  {
    "  " + name + ": " + value + "\n"
  }

  /** The symbol line's value: the symbol, or "Current Symbol" when it is empty. */
  function SymbolLabel(symbol: string): (r: string)
    ensures symbol == "" ==> r == "Current Symbol"
    ensures symbol != "" ==> r == symbol
  {
    if symbol == "" then "Current Symbol" else symbol
  }

  /** The trailing-stop line's value. */
  function TrailingLabel(useTrailingStop: bool): (r: string)
    ensures r == "Yes" <==> useTrailingStop
    ensures r == "No" <==> !useTrailingStop
  {
    if useTrailingStop then "Yes" else "No"
  }

  /** The five requirement lines after the symbol line. */
  function ParameterLines(p: StrategyParams, fmt: real -> string): string
  {
    Line("Timeframe", PeriodString(p.timeframe))
    + Line("Initial Lot Size", fmt(p.lotSize))
    + Line("Stop Loss (points)", fmt(p.stopLossPoints))
    + Line("Take Profit (points)", fmt(p.takeProfitPoints))
    + Line("Trailing Stop", TrailingLabel(p.useTrailingStop))
  }

  /**
   * The template literal of the prompt. `fmt` is JavaScript's conversion of a
   * number to text, which the model leaves opaque.
   */
  function Prompt(p: StrategyParams, fmt: real -> string): (r: string)
    ensures StartsWith(r, Intro + Line("Symbol", SymbolLabel(p.symbol)))
    ensures EndsWith(r, LogicLabel + p.strategyDescription + Instructions)
  {
    var head := Intro + Line("Symbol", SymbolLabel(p.symbol));
    var tail := LogicLabel + p.strategyDescription + Instructions;
    var r := head + ParameterLines(p, fmt) + tail;
    assert r[..|head|] == head;
    assert r[|r| - |tail|..] == tail;
    r
  }

  lemma ContainsLeft(x: string, y: string)
    ensures Contains(x + y, x)
  {
    assert (x + y)[0..|x|] == x;
    assert InfixAt(x + y, x, 0);
  }

  lemma ContainsRight(x: string, y: string)
    ensures Contains(x + y, y)
  {
    assert (x + y)[|x|..|x| + |y|] == y;
    assert InfixAt(x + y, y, |x|);
  }

  lemma ContainsTransitive(x: string, y: string, z: string)
    requires Contains(x, y) && Contains(y, z)
    ensures Contains(x, z)
  {
    var i: nat :| i <= |x| && InfixAt(x, y, i);
    var j: nat :| j <= |y| && InfixAt(y, z, j);
    assert y == x[i..i + |y|];
    forall k | 0 <= k < |z|
      ensures x[i + j..i + j + |z|][k] == z[k]
    {
      assert z[k] == y[j + k] == x[i + j + k];
    }
    assert x[i + j..i + j + |z|] == z;
    assert InfixAt(x, z, i + j);
  }

  /** Each of five consecutive lines between a head and a tail occurs in the whole. */
  lemma LinesOccur(head: string, l1: string, l2: string, l3: string, l4: string, l5: string, tail: string)
    ensures var r := head + (l1 + l2 + l3 + l4 + l5) + tail;
      Contains(r, l1) && Contains(r, l2) && Contains(r, l3) && Contains(r, l4) && Contains(r, l5)
  {
    var m := l1 + l2 + l3 + l4 + l5;
    var r := head + m + tail;
    ContainsLeft(head + m, tail);
    ContainsRight(head, m);
    ContainsTransitive(r, head + m, m);
    ContainsRight(l1 + l2 + l3 + l4, l5);
    ContainsTransitive(r, m, l5);
    ContainsLeft(l1 + l2 + l3 + l4, l5);
    ContainsTransitive(r, m, l1 + l2 + l3 + l4);
    ContainsRight(l1 + l2 + l3, l4);
    ContainsTransitive(r, l1 + l2 + l3 + l4, l4);
    ContainsLeft(l1 + l2 + l3, l4);
    ContainsTransitive(r, l1 + l2 + l3 + l4, l1 + l2 + l3);
    ContainsRight(l1 + l2, l3);
    ContainsTransitive(r, l1 + l2 + l3, l3);
    ContainsLeft(l1 + l2, l3);
    ContainsTransitive(r, l1 + l2 + l3, l1 + l2);
    ContainsRight(l1, l2);
    ContainsTransitive(r, l1 + l2, l2);
    ContainsLeft(l1, l2);
    ContainsTransitive(r, l1 + l2, l1);
  }

  /** Every field of the parameters appears in the prompt on its own labelled line. */
  lemma PromptMentionsEveryField(p: StrategyParams, fmt: real -> string)
    ensures Contains(Prompt(p, fmt), Line("Symbol", SymbolLabel(p.symbol)))
    ensures Contains(Prompt(p, fmt), Line("Timeframe", PeriodString(p.timeframe)))
    ensures Contains(Prompt(p, fmt), Line("Initial Lot Size", fmt(p.lotSize)))
    ensures Contains(Prompt(p, fmt), Line("Stop Loss (points)", fmt(p.stopLossPoints)))
    ensures Contains(Prompt(p, fmt), Line("Take Profit (points)", fmt(p.takeProfitPoints)))
    ensures Contains(Prompt(p, fmt), Line("Trailing Stop", TrailingLabel(p.useTrailingStop)))
  {
    var sym := Line("Symbol", SymbolLabel(p.symbol));
    var lines := ParameterLines(p, fmt);
    var tail := LogicLabel + p.strategyDescription + Instructions;
    LinesOccur(Intro + sym,
      Line("Timeframe", PeriodString(p.timeframe)),
      Line("Initial Lot Size", fmt(p.lotSize)),
      Line("Stop Loss (points)", fmt(p.stopLossPoints)),
      Line("Take Profit (points)", fmt(p.takeProfitPoints)),
      Line("Trailing Stop", TrailingLabel(p.useTrailingStop)),
      tail);
    ContainsLeft(Intro + sym + lines, tail);
    ContainsLeft(Intro + sym, lines);
    ContainsTransitive(Prompt(p, fmt), Intro + sym + lines, Intro + sym);
    ContainsRight(Intro, sym);
    ContainsTransitive(Prompt(p, fmt), Intro + sym, sym);
  }

  /** A text ending in `a + d + b` has `d` right between `a` and the final `b`. */
  lemma SuffixParts(r: string, a: string, d: string, b: string)
    requires EndsWith(r, a + d + b)
    ensures var end := |r| - |b|;
      end >= |d| + |a| &&
      r[end - |d|..end] == d &&
      r[end - |d| - |a|..end - |d|] == a &&
      r[end..] == b
  {
    var t := a + d + b;
    var k := |r| - |t|;
    assert r[k..] == t;
    assert r[k + |a|..k + |a| + |d|] == t[|a|..|a| + |d|];
    assert r[k..k + |a|] == t[..|a|];
    assert r[|r| - |b|..] == t[|t| - |b|..];
  }

  /**
   * The description is placed verbatim between the "Strategy Logic:" label and
   * the closing instructions, which end the prompt.
   */
  lemma DescriptionVerbatim(p: StrategyParams, fmt: real -> string)
    ensures var r := Prompt(p, fmt);
      var end := |r| - |Instructions|;
      end >= |p.strategyDescription| + |LogicLabel| &&
      r[end - |p.strategyDescription|..end] == p.strategyDescription &&
      r[end - |p.strategyDescription| - |LogicLabel|..end - |p.strategyDescription|] == LogicLabel &&
      r[end..] == Instructions
  {
    SuffixParts(Prompt(p, fmt), LogicLabel, p.strategyDescription, Instructions);
  }

  // ---------------------------------------------------------------------------
  // The call and its outcome

  /**
   * The system instructions a request can carry. The service only ever sends
   * one; its text is `InstructionText`.
   */
  datatype Instruction = ExpertAdvisorDeveloper

  function InstructionText(i: Instruction): string
  {
    match i
    case ExpertAdvisorDeveloper => SystemInstruction
  }

  /** What `generateContent` is given. */
  datatype Request = Request(model: string, contents: string, systemInstruction: Instruction, thinkingBudget: int)

  /** What the SDK call did: it returned a response whose `text` may be missing, or it threw. */
  datatype CallOutcome = Responded(text: Option<string>) | Threw(cause: string)

  /** Whether a request was sent, and what `generateExpertAdvisor` returned or threw (as `Failure(message)`). */
  datatype Generation = Generation(sent: Option<Request>, result: Result<string>)

  /** Model, system instruction and thinking budget are constants; only the prompt depends on the parameters. */
  function BuildRequest(p: StrategyParams, fmt: real -> string): (r: Request)
    ensures r.model == "gemini-3-pro-preview" && r.thinkingBudget == 4096
    ensures r.systemInstruction == ExpertAdvisorDeveloper
    ensures r.contents == Prompt(p, fmt)
  {
    Request(ModelName, Prompt(p, fmt), ExpertAdvisorDeveloper, ThinkingBudget)
  }

  /**
   * A call that answered gives its text, or the no-code sentinel when the
   * text is missing or empty; a call that threw gives one fixed message,
   * whatever the cause.
   */
  function MapOutcome(outcome: CallOutcome): (r: Result<string>)
    ensures r.Success? <==> outcome.Responded?
    ensures r.Success? ==> r.value != ""
    ensures outcome.Responded? && outcome.text.Some? && outcome.text.value != "" ==> r == Success(outcome.text.value)
    ensures outcome.Responded? && (outcome.text.None? || outcome.text.value == "") ==> r == Success(NoCodeSentinel)
    ensures r.Failure? ==> r.message == "Failed to generate Expert Advisor. Please try again."
  {
    match outcome
    case Responded(text) =>
      if text.None? || text.value == "" then Success(NoCodeSentinel) else Success(text.value)
    case Threw(_) => Failure(FailureMessage)
  }

  /**
   * `generateExpertAdvisor`. `apiKey` is `process.env.API_KEY`; `respond` is
   * the outcome the generative-AI service gives for a request.
   */
  function GenerateExpertAdvisor(apiKey: Option<string>, p: StrategyParams, fmt: real -> string,
                                 respond: Request -> CallOutcome): (g: Generation)
    ensures g.sent.Some? <==> apiKey.Some? && apiKey.value != ""
    ensures g.sent.None? ==> g.result == Failure("API Key is missing.")
    ensures g.sent.Some? ==> g.sent.value == BuildRequest(p, fmt) && g.result == MapOutcome(respond(g.sent.value))
  {
    if apiKey.None? || apiKey.value == "" then Generation(None, Failure(MissingKeyMessage))
    else
      var request := BuildRequest(p, fmt);
      Generation(Some(request), MapOutcome(respond(request)))
  }

  /**
   * The caller sees a non-empty code string, or one of exactly two non-empty
   * messages; the cause of a failed call never reaches it.
   */
  lemma GenerationResults(apiKey: Option<string>, p: StrategyParams, fmt: real -> string,
                          respond: Request -> CallOutcome)
    ensures var g := GenerateExpertAdvisor(apiKey, p, fmt, respond);
      (g.result.Success? ==> g.result.value != "") &&
      (g.result.Failure? ==> g.result.message == MissingKeyMessage || g.result.message == FailureMessage) &&
      (g.result.Failure? ==> g.result.message != "")
  {
  }
}
