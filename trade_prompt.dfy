/**
 * What the two prompt managers share: the trade record the parser fills,
 * the parser itself (identical in both managers), and the structured panel
 * that `formatTradePrompt` renders as HTML.
 */
module TradePrompt {
  import opened Wrappers
  import opened Text
  import opened Patterns
  import opened PatternFacts

  /** The partial trade object: a key is present exactly when its field is `Some`. */
  datatype Trade = Trade(
    action: Option<string>,
    ticker: Option<string>,
    expiry: Option<string>,
    delta: Option<string>,
    stopLoss: Option<string>,
    takeProfit: Option<string>,
    optionType: Option<string>)

  /** The field of a trade that the given pattern fills. */
  function Field(t: Trade, pat: Pattern): Option<string> {
    match pat
    case Action => t.action
    case Ticker => t.ticker
    case Expiry => t.expiry
    case Delta => t.delta
    case StopLoss => t.stopLoss
    case TakeProfit => t.takeProfit
    case OptionType => t.optionType
  }

  /** `parseTradePrompt`: each key is set from the first match of its own pattern. */
  function ParseTradePrompt(text: string): Trade {
    Trade(
      action := Find(Action, text),
      ticker := Find(Ticker, text),
      expiry := Find(Expiry, text),
      delta := Find(Delta, text),
      stopLoss := Find(StopLoss, text),
      takeProfit := Find(TakeProfit, text),
      optionType := Find(OptionType, text))
  }

  /**
   * Each field of the parsed trade is present exactly when its own pattern
   * matches somewhere in the text, whatever the other patterns do; a present
   * field is the non-empty group of the leftmost match, has the shape of its
   * group and is copied out of the text, so no numeric value is invented.
   */
  lemma ParseTradePromptField(text: string, pat: Pattern)
    ensures Field(ParseTradePrompt(text), pat).Some?
            <==> exists i :: 0 <= i <= |text| && MatchAt(pat, text, i).Some?
    ensures Field(ParseTradePrompt(text), pat).Some? ==>
              var v := Field(ParseTradePrompt(text), pat).value;
              && v != ""
              && CaptureForm(pat, v)
              && Includes(text, v)
              && exists i: nat :: FirstMatchAt(pat, text, i) && v == Capture(pat, text, i)
  {
    FindIsLeftmost(pat, text);
    assert Field(ParseTradePrompt(text), pat) == Find(pat, text);
    if Find(pat, text).Some? {
      FindCapture(pat, text);
      FindNonEmpty(pat, text);
    }
  }

  // ---------------------------------------------------------------------------
  // Rendering

  /** JavaScript truthiness of an optional string: present and not empty. */
  predicate Truthy(f: Option<string>) {
    f.Some? && f.value != ""
  }

  /** `f || d`. */
  function OrDefault(f: Option<string>, d: string): string {
    if Truthy(f) then f.value else d
  }

  const DefaultDelta := "0.3"
  const DefaultExpiry := "Next expiry"
  const DefaultStopLoss := "2.5"
  const DefaultTakeProfit := "0.2"
  const ActionButtons := ["Accept Trade", "Reject Trade", "Modify Parameters"]

  /** A trade can be shown only when action, ticker and option type are all truthy. */
  predicate Renderable(t: Trade) {
    Truthy(t.action) && Truthy(t.ticker) && Truthy(t.optionType)
  }

  /** The phase-specific part that follows the parameter block. */
  datatype Section =
    | NoSection
    | Actions(buttons: seq<string>)
    | ExecutionSteps(status: string, steps: seq<string>)
    | FollowUpLists(monitoring: seq<string>, exits: seq<string>)

  /** The trade panel, as the values its markup shows rather than the markup's bytes. */
  datatype Panel = Panel(
    actionClass: string,
    action: string,
    ticker: string,
    optionTypeLabel: string,
    phaseLabel: Option<string>,
    delta: string,
    expiry: string,
    stopLoss: string,
    takeProfit: string,
    section: Section)

  /** The header and parameter block common to both managers, with defaults for missing values. */
  function RenderPanel(t: Trade, phaseLabel: Option<string>, section: Section): (p: Panel)
    requires Renderable(t)
  {
    Panel(
      actionClass := Lower(t.action.value),
      action := t.action.value,
      ticker := t.ticker.value,
      optionTypeLabel := t.optionType.value + " Option",
      phaseLabel := phaseLabel,
      delta := OrDefault(t.delta, DefaultDelta),
      expiry := OrDefault(t.expiry, DefaultExpiry),
      stopLoss := OrDefault(t.stopLoss, DefaultStopLoss) + "x",
      takeProfit := OrDefault(t.takeProfit, DefaultTakeProfit) + "x",
      section := section)
  }

  /** The value a parsed field renders as: the captured text, or the default when nothing matched. */
  function ParsedOrDefault(text: string, pat: Pattern, d: string): string {
    Find(pat, text).GetOr(d)
  }

  /** On a parsed trade, truthiness is presence: every captured group is non-empty. */
  lemma ParsedTruthy(text: string, pat: Pattern)
    ensures Truthy(Field(ParseTradePrompt(text), pat)) <==> Find(pat, text).Some?
    ensures OrDefault(Field(ParseTradePrompt(text), pat), "") == ParsedOrDefault(text, pat, "")
  {
    assert Field(ParseTradePrompt(text), pat) == Find(pat, text);
    if Find(pat, text).Some? {
      FindNonEmpty(pat, text);
    }
  }

  /**
   * A parsed trade is renderable exactly when its action, ticker and option
   * type patterns all match; the header then shows the captured action (and
   * its lower-case form as the style class), ticker and option type, and
   * every parameter shows either the captured text or its default.
   */
  lemma RenderParsed(text: string, phaseLabel: Option<string>, section: Section)
    ensures Renderable(ParseTradePrompt(text))
            <==> Find(Action, text).Some? && Find(Ticker, text).Some? && Find(OptionType, text).Some?
    ensures Renderable(ParseTradePrompt(text)) ==>
              var p := RenderPanel(ParseTradePrompt(text), phaseLabel, section);
              && p.actionClass == Lower(Find(Action, text).value)
              && p.action == Find(Action, text).value
              && p.optionTypeLabel == Find(OptionType, text).value + " Option"
              && p.ticker == Find(Ticker, text).value
              && p.delta == ParsedOrDefault(text, Delta, DefaultDelta)
              && p.expiry == ParsedOrDefault(text, Expiry, DefaultExpiry)
              && p.stopLoss == ParsedOrDefault(text, StopLoss, DefaultStopLoss) + "x"
              && p.takeProfit == ParsedOrDefault(text, TakeProfit, DefaultTakeProfit) + "x"
  {
    ParsedTruthy(text, Action);
    ParsedTruthy(text, Ticker);
    ParsedTruthy(text, OptionType);
    ParsedTruthy(text, Delta);
    ParsedTruthy(text, Expiry);
    ParsedTruthy(text, StopLoss);
    ParsedTruthy(text, TakeProfit);
  }
}
