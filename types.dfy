/** The shared data types of types.ts: the closed `Timeframe` enum and the `StrategyParams` record. */
module Types {
  import opened Wrappers

  /** The seven bar intervals; each member's runtime value is an MQL5 `PERIOD_*` constant name. */
  datatype Timeframe = M1 | M5 | M15 | M30 | H1 | H4 | D1

  /** All members in declaration order. */
  const AllTimeframes: seq<Timeframe> := [M1, M5, M15, M30, H1, H4, D1]

  /** The member's key as written in the enum declaration. */
  function Name(t: Timeframe): string
  {
    match t
    case M1 => "M1"
    case M5 => "M5"
    case M15 => "M15"
    case M30 => "M30"
    case H1 => "H1"
    case H4 => "H4"
    case D1 => "D1"
  }

  /** The member's string value: "PERIOD_" followed by its own key. */
  function PeriodString(t: Timeframe): (s: string)
    ensures |s| > 7 && s[..7] == "PERIOD_" && s[7..] == Name(t)
  {
    match t
    case M1 => "PERIOD_M1"
    case M5 => "PERIOD_M5"
    case M15 => "PERIOD_M15"
    case M30 => "PERIOD_M30"
    case H1 => "PERIOD_H1"
    case H4 => "PERIOD_H4"
    case D1 => "PERIOD_D1"
  }

  /** The member whose string value is `s`, if any (what a `<select>` value stands for). */
  function ParseTimeframe(s: string): (r: Option<Timeframe>)
    ensures r.Some? ==> PeriodString(r.value) == s
    ensures r.None? ==> forall t: Timeframe :: PeriodString(t) != s
  {
    if s == "PERIOD_M1" then Some(M1)
    else if s == "PERIOD_M5" then Some(M5)
    else if s == "PERIOD_M15" then Some(M15)
    else if s == "PERIOD_M30" then Some(M30)
    else if s == "PERIOD_H1" then Some(H1)
    else if s == "PERIOD_H4" then Some(H4)
    else if s == "PERIOD_D1" then Some(D1)
    else None
  }

  /** Parsing a member's string gives the member back. */
  lemma ParsePeriodString(t: Timeframe)
    ensures ParseTimeframe(PeriodString(t)) == Some(t)
  {
  }

  /** The member-to-string map is injective: the seven strings are pairwise distinct. */
  lemma PeriodStringInjective(t: Timeframe, u: Timeframe)
    ensures PeriodString(t) == PeriodString(u) <==> t == u
  {
    ParsePeriodString(t);
    ParsePeriodString(u);
  }

  /** The enum is closed: exactly the seven members, each listed once. */
  lemma TimeframeClosed(t: Timeframe)
    ensures |AllTimeframes| == 7 && t in AllTimeframes
    ensures forall i, j :: 0 <= i < j < |AllTimeframes| ==> AllTimeframes[i] != AllTimeframes[j]
  {
  }

  /**
   * The request record. JavaScript numbers are modelled as reals; NaN and the
   * infinities are not modelled.
   */
  datatype StrategyParams = StrategyParams(
    strategyDescription: string,
    symbol: string,
    timeframe: Timeframe,
    lotSize: real,
    stopLossPoints: real,
    takeProfitPoints: real,
    useTrailingStop: bool)
}
