/**
 * The original prompt manager: a gate that recognises trade recommendations
 * and a renderer that always offers the three decision buttons.
 */
module PromptManager {
  import opened Wrappers
  import opened Patterns
  import opened TradePrompt

  /** Whether the pattern matches somewhere in the text. */
  predicate Matches(pat: Pattern, text: string) {
    Find(pat, text).Some?
  }

  /** `containsTradePrompt`: an action, a delta, an option type and a stop loss or take profit. */
  predicate ContainsTradePrompt(text: string) {
    Matches(Action, text) && Matches(Delta, text) && Matches(OptionType, text)
    && (Matches(StopLoss, text) || Matches(TakeProfit, text))
  }

  /** The gate accepts exactly the texts whose parsed trade has these fields. */
  lemma ContainsTradePromptParses(text: string)
    ensures ContainsTradePrompt(text) <==>
              var t := ParseTradePrompt(text);
              t.action.Some? && t.delta.Some? && t.optionType.Some?
              && (t.stopLoss.Some? || t.takeProfit.Some?)
  {
  }

  /** `formatTradePrompt(trade)`: nothing without action, ticker and option type; otherwise the panel with the buttons. */
  function FormatTradePrompt(t: Trade): (r: Option<Panel>)
    ensures r.None? <==> !Renderable(t)
    ensures r.Some? ==> r.value.phaseLabel.None? && r.value.section == Actions(ActionButtons)
  {
    if !Renderable(t) then None else Some(RenderPanel(t, None, Actions(ActionButtons)))
  }
}
