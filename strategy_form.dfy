/**
 * components/StrategyForm.tsx: the form's state (`params` and the selected
 * template), its change handlers, the template lookup and the rule that
 * disables the submit button.
 */
module StrategyForm {
  import opened Wrappers
  import opened Types

  // ---------------------------------------------------------------------------
  // Templates

  /** One entry of `TEMPLATES`: the text shown in the selector, its option value, and the description it fills in. */
  datatype Template = Template(caption: string, value: string, content: string)

  const CrtContent: string :=
    "Implement a Candle Range Theory (CRT) strategy inspired by TJR principles.\n"
    + "\n"
    + "1. Time Window: Define a Reference Range (e.g., 02:00 - 05:00 Server Time).\n"
    + "2. Range Identification: Mark the High and Low of this time window.\n"
    + "3. Liquidity Sweep: Wait for price to sweep (break and close back inside) either the Range High or Low.\n"
    + "4. Market Structure Shift (MSS): After a sweep, look for a displacement candle creating a Fair Value Gap (FVG) in the opposite direction.\n"
    + "5. Entry: Place a Limit Order at the FVG or enter on Market if the FVG is retested.\n"
    + "6. Stop Loss: Just beyond the swing point that swept the liquidity.\n"
    + "7. Take Profit: The opposing side of the Reference Range (e.g., if Shorting from High sweep, target Range Low)."

  const RsiContent: string :=
    "Buy when RSI(14) crosses above 30 (Oversold exit).\n"
    + "Sell when RSI(14) crosses below 70 (Overbought exit).\n"
    + "Close existing positions on opposite signal."

  const MaContent: string :=
    "Fast MA (Period 10) crosses above Slow MA (Period 20) -> Buy.\n"
    + "Fast MA crosses below Slow MA -> Sell.\n"
    + "Only take trades during London and NY sessions (08:00 - 17:00)."

  const Templates: seq<Template> := [
    Template("Custom Strategy", "custom", ""),
    Template("CRT / TJR Liquidity Model", "crt", CrtContent),
    Template("RSI Reversal", "rsi", RsiContent),
    Template("MA Crossover Trend", "ma", MaContent)
  ]

  /** `Array.prototype.find` on the option value: the first entry whose value matches, if any. */
  function FindIn(ts: seq<Template>, value: string): (r: Option<Template>)
    ensures r.None? <==> forall i | 0 <= i < |ts| :: ts[i].value != value
    ensures r.Some? ==> exists i | 0 <= i < |ts| ::
      ts[i] == r.value && ts[i].value == value && forall j | 0 <= j < i :: ts[j].value != value
  {
    if ts == [] then None
    else if ts[0].value == value then Some(ts[0])
    else
      var r := FindIn(ts[1..], value);
      if r.None? then r
      else
        var i :| 0 <= i < |ts[1..]| && ts[1..][i] == r.value && ts[1..][i].value == value
          && forall j | 0 <= j < i :: ts[1..][j].value != value;
        assert ts[i + 1] == r.value && forall j | 0 <= j < i + 1 :: ts[j].value != value;
        r
  }

  function FindTemplate(value: string): Option<Template>
  {
    FindIn(Templates, value)
  }

  /** Option values are distinct, and "custom" is the only template without content. */
  lemma TemplatesWellFormed()
    ensures |Templates| == 4
    ensures forall i, j | 0 <= i < j < |Templates| :: Templates[i].value != Templates[j].value
    ensures forall i | 0 <= i < |Templates| :: Templates[i].content == "" <==> Templates[i].value == "custom"
  {
    assert |CrtContent| > 0 && |RsiContent| > 0 && |MaContent| > 0;
  }

  /** The lookup finds exactly the four listed templates. */
  lemma FindTemplateCases(value: string)
    ensures value == "custom" ==> FindTemplate(value) == Some(Templates[0])
    ensures value == "crt" ==> FindTemplate(value) == Some(Templates[1])
    ensures value == "rsi" ==> FindTemplate(value) == Some(Templates[2])
    ensures value == "ma" ==> FindTemplate(value) == Some(Templates[3])
    ensures value != "custom" && value != "crt" && value != "rsi" && value != "ma" ==> FindTemplate(value) == None
  {
  }

  /**
   * The parameters after choosing `value` in the template selector: a
   * template with non-empty content overwrites the description; anything
   * else leaves the parameters as they were.
   */
  function ApplyTemplate(p: StrategyParams, value: string): (r: StrategyParams)
    ensures r.(strategyDescription := p.strategyDescription) == p
  {
    var t := FindTemplate(value);
    if t.Some? && t.value.content != "" then p.(strategyDescription := t.value.content) else p
  }

  /** The three content templates fill in their text; "custom" and unknown values change nothing. */
  lemma ApplyTemplateCases(p: StrategyParams, value: string)
    ensures value == "crt" ==> ApplyTemplate(p, value).strategyDescription == CrtContent
    ensures value == "rsi" ==> ApplyTemplate(p, value).strategyDescription == RsiContent
    ensures value == "ma" ==> ApplyTemplate(p, value).strategyDescription == MaContent
    ensures value != "crt" && value != "rsi" && value != "ma" ==> ApplyTemplate(p, value) == p
  {
    FindTemplateCases(value);
    TemplatesWellFormed();
  }

  /** Choosing the same template twice is the same as choosing it once. */
  lemma ApplyTemplateIdempotent(p: StrategyParams, value: string)
    ensures ApplyTemplate(ApplyTemplate(p, value), value) == ApplyTemplate(p, value)
  {
    ApplyTemplateCases(p, value);
    ApplyTemplateCases(ApplyTemplate(p, value), value);
  }

  // ---------------------------------------------------------------------------
  // Fields and change events

  /** The seven keys of `StrategyParams`, which are also the `name` attributes of the inputs. */
  datatype Field = Description | Symbol | TimeframeField | LotSize | StopLoss | TakeProfit | TrailingStop

  /** A value a change handler stores under a key. */
  datatype FieldValue = StrValue(s: string) | NumValue(n: real) | BoolValue(b: bool)

  /** The `type` of the element that fired a change event. */
  datatype InputType = TextArea | TextInput | SelectOne | NumberInput | Checkbox

  /** `e.target`'s `name`, `type`, `value` and `checked`. */
  datatype ChangeEvent = ChangeEvent(name: Field, inputType: InputType, value: string, checked: bool)

  /**
   * The events the rendered form can fire: each field has one input of a fixed
   * type, and the timeframe select only offers the `Timeframe` values.
   */
  predicate Rendered(e: ChangeEvent)
  {
    match e.name
    case Description => e.inputType == TextArea
    case Symbol => e.inputType == TextInput
    case TimeframeField => e.inputType == SelectOne && ParseTimeframe(e.value).Some?
    case LotSize => e.inputType == NumberInput
    case StopLoss => e.inputType == NumberInput
    case TakeProfit => e.inputType == NumberInput
    case TrailingStop => e.inputType == Checkbox
  }

  /** The value `handleChange` stores: the checked state of a checkbox, the number a number input holds, else the raw text. */
  function EventValue(e: ChangeEvent, toNumber: string -> real): (v: FieldValue)
    ensures v.BoolValue? <==> e.inputType == Checkbox
    ensures v.NumValue? <==> e.inputType == NumberInput
    ensures v.BoolValue? ==> v.b == e.checked
    ensures v.NumValue? ==> v.n == toNumber(e.value)
    ensures v.StrValue? ==> v.s == e.value
  {
    if e.inputType == Checkbox then BoolValue(e.checked)
    else if e.inputType == NumberInput then NumValue(toNumber(e.value))
    else StrValue(e.value)
  }

  /** Values of the shape a field holds; a timeframe is held as its enum string. */
  predicate Fits(f: Field, v: FieldValue)
  {
    match f
    case Description => v.StrValue?
    case Symbol => v.StrValue?
    case TimeframeField => v.StrValue? && ParseTimeframe(v.s).Some?
    case LotSize => v.NumValue?
    case StopLoss => v.NumValue?
    case TakeProfit => v.NumValue?
    case TrailingStop => v.BoolValue?
  }

  /** Every event of the rendered form stores a value of the right shape. */
  lemma RenderedEventsFit(e: ChangeEvent, toNumber: string -> real)
    requires Rendered(e)
    ensures Fits(e.name, EventValue(e, toNumber))
  {
  }

  /** `params[f]`. */
  function Get(p: StrategyParams, f: Field): (v: FieldValue)
    ensures Fits(f, v)
  {
    match f
    case Description => StrValue(p.strategyDescription)
    case Symbol => StrValue(p.symbol)
    case TimeframeField => ParsePeriodString(p.timeframe); StrValue(PeriodString(p.timeframe))
    case LotSize => NumValue(p.lotSize)
    case StopLoss => NumValue(p.stopLossPoints)
    case TakeProfit => NumValue(p.takeProfitPoints)
    case TrailingStop => BoolValue(p.useTrailingStop)
  }

  /** `{ ...p, [f]: v }`: the named field reads back as `v` and every other field is unchanged. */
  function Set(p: StrategyParams, f: Field, v: FieldValue): (r: StrategyParams)
    requires Fits(f, v)
    ensures Get(r, f) == v
    ensures forall g: Field | g != f :: Get(r, g) == Get(p, g)
  {
    match f
    case Description => p.(strategyDescription := v.s)
    case Symbol => p.(symbol := v.s)
    case TimeframeField => p.(timeframe := ParseTimeframe(v.s).value)
    case LotSize => p.(lotSize := v.n)
    case StopLoss => p.(stopLossPoints := v.n)
    case TakeProfit => p.(takeProfitPoints := v.n)
    case TrailingStop => p.(useTrailingStop := v.b)
  }

  /** Two parameter records that agree on every field are equal. */
  lemma FieldsDetermineParams(p: StrategyParams, q: StrategyParams)
    requires forall f: Field :: Get(p, f) == Get(q, f)
    ensures p == q
  {
    assert Get(p, TimeframeField) == Get(q, TimeframeField);
    PeriodStringInjective(p.timeframe, q.timeframe);
    assert Get(p, Description) == Get(q, Description);
    assert Get(p, Symbol) == Get(q, Symbol);
    assert Get(p, LotSize) == Get(q, LotSize);
    assert Get(p, StopLoss) == Get(q, StopLoss);
    assert Get(p, TakeProfit) == Get(q, TakeProfit);
    assert Get(p, TrailingStop) == Get(q, TrailingStop);
  }

  /** Storing a field's own value changes nothing. */
  lemma SetOwnValue(p: StrategyParams, f: Field)
    ensures Set(p, f, Get(p, f)) == p
  {
    FieldsDetermineParams(Set(p, f, Get(p, f)), p);
  }

  /** A later change to the same field overrides an earlier one. */
  lemma SetTwice(p: StrategyParams, f: Field, v: FieldValue, w: FieldValue)
    requires Fits(f, v) && Fits(f, w)
    ensures Set(Set(p, f, v), f, w) == Set(p, f, w)
  {
    FieldsDetermineParams(Set(Set(p, f, v), f, w), Set(p, f, w));
  }

  /** Changes to two different fields commute. */
  lemma SetCommutes(p: StrategyParams, f: Field, v: FieldValue, g: Field, w: FieldValue)
    requires f != g && Fits(f, v) && Fits(g, w)
    ensures Set(Set(p, f, v), g, w) == Set(Set(p, g, w), f, v)
  {
    FieldsDetermineParams(Set(Set(p, f, v), g, w), Set(Set(p, g, w), f, v));
  }

  // ---------------------------------------------------------------------------
  // Submission

  const InitialParams: StrategyParams := StrategyParams("", "EURUSD", H1, 0.1, 100.0, 200.0, false)

  /** The submit button is disabled while a request is in flight or while the description is empty. */
  predicate SubmitDisabled(isGenerating: bool, p: StrategyParams)
  {
    isGenerating || p.strategyDescription == ""
  }

  /** Only the description and the request state decide the button: editing any other field leaves it as it was. */
  lemma SubmitIgnoresOtherFields(isGenerating: bool, p: StrategyParams, f: Field, v: FieldValue)
    requires f != Description && Fits(f, v)
    ensures SubmitDisabled(isGenerating, Set(p, f, v)) == SubmitDisabled(isGenerating, p)
  {
    assert Get(Set(p, f, v), Description) == Get(p, Description);
  }

  /** Typing a description decides the button: it is enabled exactly when not generating and the text is non-empty. */
  lemma SubmitFollowsDescription(isGenerating: bool, p: StrategyParams, t: string)
    ensures SubmitDisabled(isGenerating, Set(p, Description, StrValue(t))) <==> isGenerating || t == ""
  {
    assert Get(Set(p, Description, StrValue(t)), Description) == StrValue(t);
  }

  /** A fresh form cannot be submitted: its description is empty. */
  lemma InitialFormDisabled(isGenerating: bool)
    ensures SubmitDisabled(isGenerating, InitialParams)
  {
  }

  /** While no request is in flight, choosing a content template enables the button. */
  lemma ContentTemplateEnablesSubmit(p: StrategyParams, value: string)
    requires value == "crt" || value == "rsi" || value == "ma"
    ensures !SubmitDisabled(false, ApplyTemplate(p, value))
    ensures SubmitDisabled(true, ApplyTemplate(p, value))
  {
    ApplyTemplateCases(p, value);
  }

  // ---------------------------------------------------------------------------
  // The component state

  class FormState {
    var params: StrategyParams
    var selectedTemplate: string

    /** The `useState` initial values. */
    constructor()
      ensures params == StrategyParams("", "EURUSD", H1, 0.1, 100.0, 200.0, false)
      ensures selectedTemplate == "custom"
    {
      params := InitialParams;
      selectedTemplate := "custom";
    }

    /** `handleSubmit`: the current parameters go to `onSubmit` as they are. */
    method HandleSubmit() returns (submitted: StrategyParams)
      ensures submitted == params
      ensures forall f: Field :: Get(submitted, f) == Get(params, f)
    {
      submitted := params;
    }

    /** `handleChange`: only the field named by the event changes, to the value the event carries. */
    method HandleChange(e: ChangeEvent, toNumber: string -> real)
      requires Rendered(e)
      modifies this
      ensures Fits(e.name, EventValue(e, toNumber))
      ensures params == Set(old(params), e.name, EventValue(e, toNumber))
      ensures selectedTemplate == old(selectedTemplate)
    {
      RenderedEventsFit(e, toNumber);
      params := Set(params, e.name, EventValue(e, toNumber));
    }

    /** `handleTemplateChange`: the selection always follows the choice; the description only when the template has content. */
    method HandleTemplateChange(value: string)
      modifies this
      ensures selectedTemplate == value
      ensures params == ApplyTemplate(old(params), value)
    {
      selectedTemplate := value;
      var template := FindTemplate(value);
      if template.Some? && template.value.content != "" {
        params := params.(strategyDescription := template.value.content);
      }
    }

    /** The textarea's `onChange`: store the text, then fall back to "custom" in the selector. */
    method EditDescription(e: ChangeEvent, toNumber: string -> real)
      requires Rendered(e) && e.name == Description
      modifies this
      ensures params == old(params).(strategyDescription := e.value)
      ensures selectedTemplate == "custom"
    {
      HandleChange(e, toNumber);
      if selectedTemplate != "custom" {
        selectedTemplate := "custom";
      }
    }
  }
}
