/**
 * The enhanced prompt manager: a looser gate, a phase classifier, a renderer
 * whose last section depends on the phase, and a tally of recorded outcomes.
 */
module EnhancedPrompts {
  import opened Wrappers
  import opened Text
  import opened Patterns
  import opened TradePrompt
  import PromptManager

  /** `containsTradePrompt`: like the original gate, but a delta OR an expiry will do. */
  predicate ContainsTradePrompt(text: string) {
    PromptManager.Matches(Action, text) && PromptManager.Matches(OptionType, text)
    && (PromptManager.Matches(Delta, text) || PromptManager.Matches(Expiry, text))
    && (PromptManager.Matches(StopLoss, text) || PromptManager.Matches(TakeProfit, text))
  }

  /** The gate accepts exactly the texts whose parsed trade has these fields. */
  lemma ContainsTradePromptParses(text: string)
    ensures ContainsTradePrompt(text) <==>
              var t := ParseTradePrompt(text);
              t.action.Some? && t.optionType.Some?
              && (t.delta.Some? || t.expiry.Some?)
              && (t.stopLoss.Some? || t.takeProfit.Some?)
  {
  }

  /** Everything the original gate accepts, the enhanced gate accepts too. */
  lemma GateIsWeaker(text: string)
    ensures PromptManager.ContainsTradePrompt(text) ==> ContainsTradePrompt(text)
  {
  }

  // ---------------------------------------------------------------------------
  // Phases

  datatype Phase = Analysis | Recommendation | Decision | Execution | FollowUp

  /** The phase names the classifier returns and the renderer accepts. */
  function PhaseName(p: Phase): string {
    match p
    case Analysis => "analysis"
    case Recommendation => "recommendation"
    case Decision => "decision"
    case Execution => "execution"
    case FollowUp => "follow-up"
  }

  /** The phase a name stands for, if any. */
  function PhaseOfName(name: string): (r: Option<Phase>)
    ensures r.Some? ==> PhaseName(r.value) == name
    ensures r.None? ==> forall p :: PhaseName(p) != name
  {
    if name == "analysis" then Some(Analysis)
    else if name == "recommendation" then Some(Recommendation)
    else if name == "decision" then Some(Decision)
    else if name == "execution" then Some(Execution)
    else if name == "follow-up" then Some(FollowUp)
    else None
  }

  /** The label the panel shows for each phase. */
  function PhaseLabel(p: Phase): string {
    match p
    case Analysis => "Analysis"
    case Recommendation => "Recommendation"
    case Decision => "Decision Required"
    case Execution => "Execution"
    case FollowUp => "Monitoring"
  }

  /** `formatPhase`: the label of a known phase name, and "Analysis" for anything else. */
  function FormatPhase(name: string): (shown: string)
    ensures forall p :: PhaseName(p) == name ==> shown == PhaseLabel(p)
    ensures (forall p :: PhaseName(p) != name) ==> shown == "Analysis"
  {
    PhaseLabel(PhaseOfName(name).GetOr(Analysis))
  }

  /** `userMessage && userMessage.toLowerCase().includes(w)`. */
  predicate Says(userMessage: Option<string>, w: string) {
    userMessage.Some? && IncludesIgnoringCase(userMessage.value, w)
  }

  /** `determinePhase`: the user's reply first, then the assistant's text. */
  function DeterminePhase(text: string, userMessage: Option<string>): Phase {
    if Says(userMessage, "accept") then Execution
    else if Says(userMessage, "reject") || Says(userMessage, "modify") then Recommendation
    else if ContainsTradePrompt(text) then Decision
    else if IncludesIgnoringCase(text, "monitor") || IncludesIgnoringCase(text, "exit") then FollowUp
    else Analysis
  }

  /**
   * The classifier's five outcomes, each with the exact condition that leads
   * to it: a user reply that mentions "accept" wins over everything, one
   * that mentions "reject" or "modify" wins over the text, and only then
   * does the text decide.
   */
  lemma DeterminePhaseCases(text: string, userMessage: Option<string>)
    ensures DeterminePhase(text, userMessage) == Execution <==> Says(userMessage, "accept")
    ensures DeterminePhase(text, userMessage) == Recommendation
            <==> !Says(userMessage, "accept") && (Says(userMessage, "reject") || Says(userMessage, "modify"))
    ensures DeterminePhase(text, userMessage) == Decision
            <==> !Says(userMessage, "accept") && !Says(userMessage, "reject") && !Says(userMessage, "modify")
                 && ContainsTradePrompt(text)
    ensures DeterminePhase(text, userMessage) == FollowUp
            <==> !Says(userMessage, "accept") && !Says(userMessage, "reject") && !Says(userMessage, "modify")
                 && !ContainsTradePrompt(text)
                 && (IncludesIgnoringCase(text, "monitor") || IncludesIgnoringCase(text, "exit"))
    ensures DeterminePhase(text, userMessage) == Analysis
            <==> !Says(userMessage, "accept") && !Says(userMessage, "reject") && !Says(userMessage, "modify")
                 && !ContainsTradePrompt(text)
                 && !IncludesIgnoringCase(text, "monitor") && !IncludesIgnoringCase(text, "exit")
  {
  }

  /** Without a user reply that names a keyword, the decision phase means the text parses to a trade with an action and an option type. */
  lemma DecisionParses(text: string, userMessage: Option<string>)
    requires DeterminePhase(text, userMessage) == Decision
    ensures ParseTradePrompt(text).action.Some? && ParseTradePrompt(text).optionType.Some?
    ensures ParseTradePrompt(text).delta.Some? || ParseTradePrompt(text).expiry.Some?
  {
    DeterminePhaseCases(text, userMessage);
    ContainsTradePromptParses(text);
  }

  // ---------------------------------------------------------------------------
  // Rendering

  const ExecutionStatus := "Trade Ready for Execution"
  const MonitoringCriteria := ["Track underlying price movement", "Monitor implied volatility changes", "Observe time decay effect"]
  const ExitConditions := ["Stop loss hit: Exit immediately", "Take profit hit: Close position", "50% profit reached: Consider partial exit"]

  /** The section after the parameter block: buttons, execution steps, follow-up lists or nothing. */
  function SectionFor(t: Trade, phase: string): Section {
    if phase == "decision" then Actions(ActionButtons)
    else if phase == "execution" then
      ExecutionSteps(ExecutionStatus, [
        "Set stop loss at " + (OrDefault(t.stopLoss, DefaultStopLoss) + "x") + " of premium",
        "Set take profit at " + (OrDefault(t.takeProfit, DefaultTakeProfit) + "x") + " of premium",
        "Confirm position sizing based on risk tolerance"])
    else if phase == "follow-up" then FollowUpLists(MonitoringCriteria, ExitConditions)
    else NoSection
  }

  /**
   * `formatTradePrompt(trade, phase)`: nothing without action, ticker and
   * option type, whatever the phase; otherwise the panel labelled with the
   * phase and ending in the section of exactly that phase, whose execution
   * steps quote the stop loss and take profit the parameter block shows.
   */
  function FormatTradePrompt(t: Trade, phase: string): (r: Option<Panel>)
    ensures r.None? <==> !Renderable(t)
    ensures r.Some? ==> r.value.phaseLabel == Some(FormatPhase(phase))
    ensures r.Some? ==> (r.value.section.Actions? <==> phase == "decision")
    ensures r.Some? ==> (r.value.section.ExecutionSteps? <==> phase == "execution")
    ensures r.Some? ==> (r.value.section.FollowUpLists? <==> phase == "follow-up")
    ensures r.Some? ==> (r.value.section.NoSection? <==> PhaseOfName(phase) in {None, Some(Analysis), Some(Recommendation)})
    ensures r.Some? && phase == "execution" ==>
              && |r.value.section.steps| == 3
              && r.value.section.steps[0] == "Set stop loss at " + r.value.stopLoss + " of premium"
              && r.value.section.steps[1] == "Set take profit at " + r.value.takeProfit + " of premium"
  {
    if !Renderable(t) then None else Some(RenderPanel(t, Some(FormatPhase(phase)), SectionFor(t, phase)))
  }

  /** The original renderer is the enhanced one in the decision phase, without the phase label. */
  lemma OriginalIsDecisionPhase(t: Trade)
    ensures PromptManager.FormatTradePrompt(t).None? <==> FormatTradePrompt(t, "decision").None?
    ensures FormatTradePrompt(t, "decision").Some? ==>
              PromptManager.FormatTradePrompt(t) == Some(FormatTradePrompt(t, "decision").value.(phaseLabel := None))
  {
  }

  /** The follow-up lists are the same for every trade. */
  lemma FollowUpIsFixed(t: Trade, u: Trade)
    requires Renderable(t) && Renderable(u)
    ensures FormatTradePrompt(t, "follow-up").value.section == FormatTradePrompt(u, "follow-up").value.section
  {
  }

  // ---------------------------------------------------------------------------
  // Performance tracking

  /** A history entry: the trade's fields plus the outcome and the time it was recorded. */
  datatype RecordedTrade = RecordedTrade(trade: Trade, outcome: string, timestamp: string)

  datatype Metrics = Metrics(totalTrades: nat, successfulTrades: nat, failedTrades: nat, winRate: real)

  const InitialMetrics := Metrics(0, 0, 0, 0.0)

  /** Successful trades as a percentage of all trades, 0 when there are none. */
  function WinRate(successful: nat, total: nat): real {
    if total > 0 then successful as real / total as real * 100.0 else 0.0
  }

  /** The metrics after one more outcome: "success" and "failure" count, any other outcome only adds to the total. */
  function Tally(m: Metrics, outcome: string): Metrics {
    var total := m.totalTrades + 1;
    var successful := m.successfulTrades + (if outcome == "success" then 1 else 0);
    var failed := m.failedTrades + (if outcome == "failure" then 1 else 0);
    Metrics(total, successful, failed, WinRate(successful, total))
  }

  /** The outcomes of a history, oldest first. */
  function Outcomes(h: seq<RecordedTrade>): (r: seq<string>)
    ensures |r| == |h|
  {
    if h == [] then [] else Outcomes(h[..|h| - 1]) + [h[|h| - 1].outcome]
  }

  /** The metrics a sequence of recorded outcomes adds up to. */
  function MetricsOf(outcomes: seq<string>): Metrics {
    if outcomes == [] then InitialMetrics
    else Tally(MetricsOf(outcomes[..|outcomes| - 1]), outcomes[|outcomes| - 1])
  }

  /** One more recorded entry tallies one more outcome. */
  lemma RecordExtendsTally(h: seq<RecordedTrade>, e: RecordedTrade)
    ensures MetricsOf(Outcomes(h + [e])) == Tally(MetricsOf(Outcomes(h)), e.outcome)
  {
    assert (h + [e])[..|h|] == h;
    assert Outcomes(h + [e]) == Outcomes(h) + [e.outcome];
    assert (Outcomes(h) + [e.outcome])[..|h|] == Outcomes(h);
  }

  /** How many outcomes equal w. */
  function Count(outcomes: seq<string>, w: string): (n: nat)
    ensures n <= |outcomes|
  {
    if outcomes == [] then 0
    else Count(outcomes[..|outcomes| - 1], w) + (if outcomes[|outcomes| - 1] == w then 1 else 0)
  }

  /** Successes and failures are disjoint, so together they are at most all outcomes. */
  lemma {:induction false} CountsBounded(outcomes: seq<string>)
    ensures Count(outcomes, "success") + Count(outcomes, "failure") <= |outcomes|
  {
    if outcomes != [] {
      CountsBounded(outcomes[..|outcomes| - 1]);
    }
  }

  lemma WinRateBounds(successful: nat, total: nat)
    requires successful <= total
    ensures 0.0 <= WinRate(successful, total) <= 100.0
  {
    if total > 0 {
      assert successful as real / total as real <= 1.0;
    }
  }

  /**
   * The tallied metrics count every outcome, the successes and the failures,
   * and the win rate is the successes' share of all outcomes, a percentage.
   */
  lemma {:induction false} MetricsOfCounts(outcomes: seq<string>)
    ensures MetricsOf(outcomes).totalTrades == |outcomes|
    ensures MetricsOf(outcomes).successfulTrades == Count(outcomes, "success")
    ensures MetricsOf(outcomes).failedTrades == Count(outcomes, "failure")
    ensures MetricsOf(outcomes).winRate == WinRate(Count(outcomes, "success"), |outcomes|)
    ensures MetricsOf(outcomes).successfulTrades + MetricsOf(outcomes).failedTrades <= MetricsOf(outcomes).totalTrades
    ensures 0.0 <= MetricsOf(outcomes).winRate <= 100.0
  {
    if outcomes != [] {
      MetricsOfCounts(outcomes[..|outcomes| - 1]);
    }
    CountsBounded(outcomes);
    WinRateBounds(Count(outcomes, "success"), |outcomes|);
  }

  /** What `generatePerformanceSummary` shows. */
  datatype Summary = NoHistory | Performance(totalTrades: nat, winRate: real, successfulTrades: nat, failedTrades: nat)

  /** The manager's state: the current phase, the recorded trades and the running metrics. */
  class EnhancedPromptManager {
    var currentPhase: Phase
    var tradeHistory: seq<RecordedTrade>
    var performanceMetrics: Metrics

    /** The running metrics are the tally of the recorded outcomes. */
    ghost predicate Valid()
      reads this
    {
      performanceMetrics == MetricsOf(Outcomes(tradeHistory))
    }

    constructor()
      ensures Valid()
      ensures currentPhase == Analysis && tradeHistory == [] && performanceMetrics == InitialMetrics
    {
      currentPhase := Analysis;
      tradeHistory := [];
      performanceMetrics := InitialMetrics;
    }

    /**
     * `recordTradeOutcome`: appends the trade with its outcome and time,
     * tallies the outcome and returns the metrics, which then count every
     * recorded trade and never more successes and failures than trades.
     */
    method RecordTradeOutcome(trade: Trade, outcome: string, timestamp: string) returns (m: Metrics)
      requires Valid()
      modifies this
      ensures Valid()
      ensures tradeHistory == old(tradeHistory) + [RecordedTrade(trade, outcome, timestamp)]
      ensures performanceMetrics == Tally(old(performanceMetrics), outcome)
      ensures currentPhase == old(currentPhase)
      ensures m == performanceMetrics
      ensures m.totalTrades == |tradeHistory|
      ensures m.successfulTrades + m.failedTrades <= m.totalTrades
      ensures 0.0 <= m.winRate <= 100.0
    {
      var entry := RecordedTrade(trade, outcome, timestamp);
      RecordExtendsTally(tradeHistory, entry);
      tradeHistory := tradeHistory + [entry];
      var successful := performanceMetrics.successfulTrades;
      var failed := performanceMetrics.failedTrades;
      var total := performanceMetrics.totalTrades + 1;
      if outcome == "success" {
        successful := successful + 1;
      } else if outcome == "failure" {
        failed := failed + 1;
      }
      performanceMetrics := Metrics(total, successful, failed, WinRate(successful, total));
      MetricsOfCounts(Outcomes(tradeHistory));
      m := performanceMetrics;
    }

    /**
     * `generatePerformanceSummary`: "no history" exactly when no trade has
     * been recorded; otherwise the number of recorded trades, the successes
     * and failures among their outcomes, and the successes' percentage.
     */
    function GeneratePerformanceSummary(): (s: Summary)
      requires Valid()
      reads this
      ensures s.NoHistory? <==> tradeHistory == []
      ensures s.Performance? ==>
                && s.totalTrades == |tradeHistory|
                && s.successfulTrades == Count(Outcomes(tradeHistory), "success")
                && s.failedTrades == Count(Outcomes(tradeHistory), "failure")
                && s.winRate == WinRate(s.successfulTrades, s.totalTrades)
                && 0.0 <= s.winRate <= 100.0
    {
      MetricsOfCounts(Outcomes(tradeHistory));
      if performanceMetrics.totalTrades == 0 then NoHistory
      else Performance(performanceMetrics.totalTrades, performanceMetrics.winRate,
                       performanceMetrics.successfulTrades, performanceMetrics.failedTrades)
    }
  }
}
