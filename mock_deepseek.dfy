/**
 * The mock chat relay: a canned reply chosen by keyword, the same history
 * window and context extraction as the real relay.
 */
module MockDeepseek {
  import opened Text
  import opened ContextManager
  import opened Relay

  /** The trade line of the default recommendation. */
  const RecommendationLine: string :=
    "Sell " + "SPY " + "2025-06-20 " + "0.3 " + "delta " + "Put " + "Option " + "at "
    + "2.5x " + "stop " + "loss " + "and " + "0.2x " + "take " + "profit"

  /** The trade line of the alternative offered after a rejection. */
  const AlternativeLine: string :=
    "Buy " + "SPY" + " 2025-06-20 0.4 delta " + "Call Option at 2.0x stop loss " + "and 0.5x take profit"

  /** The trade line of the modified recommendation. */
  const ModifiedLine: string :=
    "Sell SPY 2025-06-20 0.25 delta " + "Put Option at 3.0x stop loss " + "and 0.3x take profit"

  const DefaultReply: string :=
    "I recommend a structured " + "options trading approach for " + "SPY. Based on current market " + "conditions:\n\n"
    + RecommendationLine + "\n\n"
    + "This strategy takes advantage " + "of theta decay while managing " + "risk with clear stop loss and " + "take profit parameters. The " + "0.3 delta gives you a good " + "balance of premium collection " + "and probability of profit.\n\n"
    + "Would you like to proceed " + "with this trade " + "recommendation?"

  const AcceptReply: string :=
    "Great! Let's proceed with the " + "execution of this trade.\n\n"
    + "For the SPY 2025-06-20 0.3 " + "delta Put Option:\n\n"
    + "1. Current approximate strike " + "price would be around $480 " + "(based on SPY at $500)\n"
    + "2. Set your stop loss at 2.5x " + "the premium collected\n"
    + "3. Set your take profit at " + "0.2x the premium collected\n"
    + "4. Position size should be " + "based on your account risk " + "tolerance (typically 1-2% per " + "trade)\n\n"
    + "Remember to monitor this " + "position regularly, " + "especially if there are " + "significant market events " + "that could impact SPY.\n\n"
    + "Would you like me to explain " + "the monitoring criteria for " + "this trade?"

  /** The reject reply: an opening sentence, the alternative trade line and its rationale. */
  const RejectReply: string := RejectOpening + (AlternativeLine + RejectRationale)

  const RejectOpening: string :=
    "I understand this trade " + "doesn't meet your criteria. " + "Let me suggest an alternative:\n\n"

  const RejectRationale: string :=
    "\n\n"
    + "This is a more bullish " + "approach that could benefit " + "from upward momentum in the " + "market. The higher delta " + "gives you more directional " + "exposure, while the adjusted " + "risk parameters provide a " + "better risk-reward ratio.\n\n"
    + "Does this alternative " + "strategy better align with " + "your trading preferences?"

  const ModifyReply: string :=
    "I understand you'd like to " + "modify the parameters. Let's " + "adjust the trade:\n\n"
    + ModifiedLine + "\n\n"
    + "This modification:\n"
    + "- Reduces delta from 0.3 to " + "0.25 (further OTM, higher " + "probability of profit but " + "lower premium)\n"
    + "- Increases stop loss from " + "2.5x to 3.0x (giving the " + "trade more room to breathe)\n"
    + "- Increases take profit from " + "0.2x to 0.3x (better reward " + "for the risk taken)\n\n"
    + "How does this modified trade " + "look to you?"

  /** The canned reply for a user message: "accept" first, then "reject", then "modify", else the recommendation. */
  function SelectResponse(message: string): string {
    if IncludesIgnoringCase(message, "accept") then AcceptReply
    else if IncludesIgnoringCase(message, "reject") then RejectReply
    else if IncludesIgnoringCase(message, "modify") then ModifyReply
    else DefaultReply
  }

  lemma AcceptReplyLength() ensures |AcceptReply| == 567 { }
  lemma RejectReplyLength() ensures |RejectReply| == 452 { }
  lemma ModifyReplyLength() ensures |ModifyReply| == 470 { }
  lemma DefaultReplyLength() ensures |DefaultReply| == 437 { }

  /** The four canned replies are different texts. */
  lemma RepliesDistinct()
    ensures AcceptReply != RejectReply && AcceptReply != ModifyReply && AcceptReply != DefaultReply
    ensures RejectReply != ModifyReply && RejectReply != DefaultReply && ModifyReply != DefaultReply
  {
    AcceptReplyLength();
    RejectReplyLength();
    ModifyReplyLength();
    DefaultReplyLength();
  }

  /** Which reply a message gets, as an exact condition for each of the four. */
  lemma SelectResponseCases(message: string)
    ensures SelectResponse(message) == AcceptReply <==> IncludesIgnoringCase(message, "accept")
    ensures SelectResponse(message) == RejectReply
            <==> !IncludesIgnoringCase(message, "accept") && IncludesIgnoringCase(message, "reject")
    ensures SelectResponse(message) == ModifyReply
            <==> !IncludesIgnoringCase(message, "accept") && !IncludesIgnoringCase(message, "reject")
                 && IncludesIgnoringCase(message, "modify")
    ensures SelectResponse(message) == DefaultReply
            <==> !IncludesIgnoringCase(message, "accept") && !IncludesIgnoringCase(message, "reject")
                 && !IncludesIgnoringCase(message, "modify")
  {
    RepliesDistinct();
  }

  /**
   * `getChatCompletion` of the mock: the selected reply, and as the context
   * update the reply's extracted fields with the windowed history.
   */
  method GetChatCompletion(message: string, context: Context) returns (reply: string, updatedContext: Context)
    ensures reply == SelectResponse(message)
    ensures updatedContext == RelayUpdate(reply, Windowed(PriorHistory(context), message, reply))
  {
    reply := SelectResponse(message);
    var updatedHistory := UpdatedHistory(context, message, reply);
    var updates := ExtractContextFromResponse(reply, context);
    updatedContext := Merge(updates, map["history" := History(updatedHistory)]);
  }
}
