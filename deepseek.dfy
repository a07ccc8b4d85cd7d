/**
 * The real chat relay: it assembles the message list for the hosted model,
 * hands it to the model and keeps the same history window and context
 * extraction as the mock. The model call is a function parameter.
 */
module Deepseek {
  import opened ContextManager
  import opened Relay

  /** What the model call gives back: reply text, or the error it throws. */
  datatype Completion = Completed(content: string) | Failed(error: string)

  /** What `getChatCompletion` resolves to, or the error it rethrows. */
  datatype Outcome = Reply(message: string, updatedContext: Context) | Error(error: string)

  /** JavaScript truthiness of a record value. */
  predicate Truthy(v: Value) {
    match v
    case Undefined => false
    case Text(s) => s != ""
    case History(_) => true
  }

  /** `String(messages)` for an array of message objects. */
  function ObjectsString(messages: seq<Message>): string {
    if messages == [] then ""
    else if |messages| == 1 then "[object Object]"
    else ObjectsString(messages[..|messages| - 1]) + ",[object Object]"
  }

  /** A value as a template literal interpolates it. */
  function JsString(v: Value): string {
    match v
    case Undefined => "undefined"
    case Text(s) => s
    case History(h) => ObjectsString(h)
  }

  /** The second system message: ticker, expiry and strike range, with "5%" for a missing strike range. */
  function ContextLine(c: Context): string {
    var strike := Get(c, "strikeRange");
    "Current trading context: Ticker: " + JsString(Get(c, "ticker"))
    + ", Expiry: " + JsString(Get(c, "expiry"))
    + ", Strike Range: " + (if Truthy(strike) then JsString(strike) else "5%")
  }

  /** A record whose strike range is absent, undefined or empty is described as one whose strike range is "5%". */
  lemma StrikeRangeDefault(c: Context)
    requires "strikeRange" !in c || !Truthy(c["strikeRange"])
    ensures ContextLine(c) == ContextLine(c["strikeRange" := Text("5%")])
  {
  }

  /** The default record is described by its own values. */
  lemma DefaultContextLine()
    ensures ContextLine(DefaultContext)
            == "Current trading context: Ticker: " + "AAPL" + ", Expiry: " + "2025-05-16" + ", Strike Range: " + "5%"
  {
    assert Get(DefaultContext, "ticker") == Text("AAPL");
    assert Get(DefaultContext, "expiry") == Text("2025-05-16");
    assert Get(DefaultContext, "strikeRange") == Text("5%");
  }

  /**
   * The message list: the system prompt, the context line, every history
   * entry in order, and the user's message last.
   */
  method BuildMessages(systemPrompt: string, context: Context, message: string) returns (messages: seq<Message>)
    ensures messages == [Message(System, systemPrompt), Message(System, ContextLine(context))]
                        + PriorHistory(context) + [Message(User, message)]
  {
    messages := [Message(System, systemPrompt), Message(System, ContextLine(context))];
    var history := PriorHistory(context);
    if |history| > 0 {
      messages := messages + history;
    }
    messages := messages + [Message(User, message)];
  }

  /**
   * `getChatCompletion`: a failing model call is passed on as the error;
   * otherwise the reply comes back with its extracted fields and the
   * windowed history, which overrides any extracted key.
   */
  method GetChatCompletion(systemPrompt: string, complete: seq<Message> -> Completion,
                           message: string, context: Context) returns (r: Outcome)
    ensures var sent := [Message(System, systemPrompt), Message(System, ContextLine(context))]
                        + PriorHistory(context) + [Message(User, message)];
            match complete(sent)
            case Failed(e) => r == Error(e)
            case Completed(reply) =>
              r == Reply(reply, RelayUpdate(reply, Windowed(PriorHistory(context), message, reply)))
  {
    var messages := BuildMessages(systemPrompt, context, message);
    var response := complete(messages);
    if response.Failed? {
      return Error(response.error);
    }
    var responseContent := response.content;
    var updatedHistory := UpdatedHistory(context, message, responseContent);
    var updates := ExtractContextFromResponse(responseContent, context);
    r := Reply(responseContent, Merge(updates, map["history" := History(updatedHistory)]));
  }
}
