/**
 * Bookkeeping shared by the mock and the real chat relays: the bounded
 * conversation history and the extraction of context updates from a reply.
 * The two relays carry identical copies of this code.
 */
module Relay {
  import opened Wrappers
  import opened Patterns
  import opened PatternFacts
  import opened ContextManager
  import TradePrompt

  /** At most this many history entries are kept. */
  const HistoryLimit: nat := 10

  /** `context[key]`, `undefined` for a missing key. */
  function Get(c: Context, key: string): Value {
    if key in c then c[key] else Undefined
  }

  /** The history the relay starts from: `context.history || []`. */
  function PriorHistory(c: Context): seq<Message> {
    match Get(c, "history")
    case History(h) => h
    case _ => []
  }

  /** The last n elements of h, all of h when it is shorter. */
  function KeepLast<T>(h: seq<T>, n: nat): (r: seq<T>)
    ensures |r| == if |h| <= n then |h| else n
    ensures r == h[|h| - |r|..]
  {
    if |h| > n then h[|h| - n..] else h
  }

  /** The history after one exchange. */
  function Windowed(prior: seq<Message>, message: string, reply: string): seq<Message> {
    KeepLast(prior + [Message(User, message), Message(Assistant, reply)], HistoryLimit)
  }

  /**
   * The window holds at most ten entries, in their original order, as a
   * suffix of the old history followed by the new pair; the pair is always
   * its last two entries, and nothing is dropped while everything fits.
   */
  lemma WindowedShape(prior: seq<Message>, message: string, reply: string)
    ensures var w := Windowed(prior, message, reply);
            && |w| == (if |prior| + 2 <= HistoryLimit then |prior| + 2 else HistoryLimit)
            && w == (prior + [Message(User, message), Message(Assistant, reply)])[|prior| + 2 - |w|..]
            && w[|w| - 2..] == [Message(User, message), Message(Assistant, reply)]
            && (|prior| + 2 <= HistoryLimit ==> w == prior + [Message(User, message), Message(Assistant, reply)])
  {
    var all := prior + [Message(User, message), Message(Assistant, reply)];
    var w := Windowed(prior, message, reply);
    assert w[|w| - 2..] == all[|all| - 2..];
  }

  /** Trimming before appending and trimming afterwards agree. */
  lemma KeepLastAppend<T>(s: seq<T>, t: seq<T>, n: nat)
    ensures KeepLast(KeepLast(s, n) + t, n) == KeepLast(s + t, n)
  {
    var k := KeepLast(s, n);
    assert s == s[..|s| - |k|] + k;
    assert s + t == s[..|s| - |k|] + (k + t);
  }

  /** The messages of a sequence of exchanges, in order. */
  function Transcript(turns: seq<(string, string)>): seq<Message> {
    if turns == [] then []
    else Transcript(turns[..|turns| - 1])
         + [Message(User, turns[|turns| - 1].0), Message(Assistant, turns[|turns| - 1].1)]
  }

  /** The history after each exchange has been windowed in turn. */
  function HistoryAfter(prior: seq<Message>, turns: seq<(string, string)>): seq<Message> {
    if turns == [] then prior
    else Windowed(HistoryAfter(prior, turns[..|turns| - 1]), turns[|turns| - 1].0, turns[|turns| - 1].1)
  }

  /** Windowing at every turn keeps exactly the last ten messages of the whole conversation. */
  lemma {:induction false} HistoryAfterIsWindow(prior: seq<Message>, turns: seq<(string, string)>)
    requires |prior| <= HistoryLimit
    ensures HistoryAfter(prior, turns) == KeepLast(prior + Transcript(turns), HistoryLimit)
  {
    if turns != [] {
      var init := turns[..|turns| - 1];
      var last := turns[|turns| - 1];
      var pair := [Message(User, last.0), Message(Assistant, last.1)];
      HistoryAfterIsWindow(prior, init);
      KeepLastAppend(prior + Transcript(init), pair, HistoryLimit);
      assert prior + Transcript(turns) == (prior + Transcript(init)) + pair;
    }
  }

  /** The history update as the relays write it: copy, push the pair, splice off the oldest entries. */
  method UpdatedHistory(context: Context, message: string, reply: string) returns (h: seq<Message>)
    ensures h == Windowed(PriorHistory(context), message, reply)
  {
    h := PriorHistory(context);
    h := h + [Message(User, message)];
    h := h + [Message(Assistant, reply)];
    if |h| > HistoryLimit {
      h := h[|h| - HistoryLimit..];
    }
  }

  // ---------------------------------------------------------------------------
  // Context extraction

  /** The only tickers a reply may switch the context to. */
  const AllowedTickers: seq<string> := ["SPY", "AAPL", "MSFT", "GOOGL", "AMZN", "META"]

  /** The keys an extracted update may have. */
  const ExtractedKeys: set<string> := {"ticker", "expiry", "delta", "stopLoss", "takeProfit"}

  /** The update with one more key when its value was found; every other key keeps its value. */
  function AddField(u: Context, key: string, v: Option<string>): (r: Context)
    ensures r.Keys == u.Keys + (if v.Some? then {key} else {})
    ensures v.Some? ==> r[key] == Text(v.value)
    ensures forall k :: k in u && k != key ==> r[k] == u[k]
  {
    if v.Some? then u[key := Text(v.value)] else u
  }

  /** An assignment guarded by the match is the same record as the added field. */
  lemma AddFieldWrites(u: Context, key: string, v: Option<string>, w: Context)
    requires v.Some? ==> w == u[key := Text(v.value)]
    requires v.None? ==> w == u
    ensures w == AddField(u, key, v)
  {
  }

  /** The ticker a reply sets: its first uppercase word, and only when that word is allowed. */
  function TickerUpdate(response: string): Option<string> {
    var t := Find(Ticker, response);
    if t.Some? && t.value in AllowedTickers then t else None
  }

  /** What `extractContextFromResponse` returns, given the five matches. */
  function UpdatesOf(ticker: Option<string>, expiry: Option<string>, delta: Option<string>,
                     stopLoss: Option<string>, takeProfit: Option<string>): (u: Context)
    ensures u.Keys <= ExtractedKeys
  {
    AddField(AddField(AddField(AddField(AddField(map[], "ticker", ticker), "expiry", expiry),
      "delta", delta), "stopLoss", stopLoss), "takeProfit", takeProfit)
  }

  /** Each key of the update is present exactly when its value was found, and holds that value. */
  lemma UpdatesOfFields(ticker: Option<string>, expiry: Option<string>, delta: Option<string>,
                        stopLoss: Option<string>, takeProfit: Option<string>)
    ensures var u := UpdatesOf(ticker, expiry, delta, stopLoss, takeProfit);
            && ("ticker" in u <==> ticker.Some?) && (ticker.Some? ==> u["ticker"] == Text(ticker.value))
            && ("expiry" in u <==> expiry.Some?) && (expiry.Some? ==> u["expiry"] == Text(expiry.value))
            && ("delta" in u <==> delta.Some?) && (delta.Some? ==> u["delta"] == Text(delta.value))
            && ("stopLoss" in u <==> stopLoss.Some?) && (stopLoss.Some? ==> u["stopLoss"] == Text(stopLoss.value))
            && ("takeProfit" in u <==> takeProfit.Some?) && (takeProfit.Some? ==> u["takeProfit"] == Text(takeProfit.value))
  {
    var u1 := AddField(map[], "ticker", ticker);
    var u2 := AddField(u1, "expiry", expiry);
    var u3 := AddField(u2, "delta", delta);
    var u4 := AddField(u3, "stopLoss", stopLoss);
    assert UpdatesOf(ticker, expiry, delta, stopLoss, takeProfit) == AddField(u4, "takeProfit", takeProfit);
  }

  /** What `extractContextFromResponse` returns for a reply. */
  function ContextUpdates(response: string): Context {
    UpdatesOf(TickerUpdate(response), Find(Expiry, response), Find(Delta, response),
              Find(StopLoss, response), Find(TakeProfit, response))
  }

  /**
   * A reply sets the ticker only when its leftmost uppercase whole word is
   * allowed; a later allowed ticker does not count.
   */
  lemma TickerUpdateMeaning(response: string)
    ensures TickerUpdate(response).Some? <==>
              exists i: nat :: FirstMatchAt(Ticker, response, i) && Capture(Ticker, response, i) in AllowedTickers
    ensures TickerUpdate(response).Some? ==>
              TickerUpdate(response) == TradePrompt.ParseTradePrompt(response).ticker
  {
    FindIsLeftmost(Ticker, response);
    if TickerUpdate(response).Some? {
      var i: nat :| FirstMatchAt(Ticker, response, i) && Find(Ticker, response).value == Capture(Ticker, response, i);
      assert FirstMatchAt(Ticker, response, i) && Capture(Ticker, response, i) in AllowedTickers;
    }
    if exists i: nat :: FirstMatchAt(Ticker, response, i) && Capture(Ticker, response, i) in AllowedTickers {
      var i: nat :| FirstMatchAt(Ticker, response, i) && Capture(Ticker, response, i) in AllowedTickers;
      FindAtFirstMatch(Ticker, response, i);
    }
  }

  /**
   * The update has no keys besides the five extracted ones; a ticker exactly
   * under the allow-list rule; and expiry, delta, stop loss and take profit
   * exactly as the client-side parser reads them from the same text.
   */
  lemma ContextUpdatesMeaning(response: string)
    ensures ContextUpdates(response).Keys <= ExtractedKeys
    ensures "ticker" in ContextUpdates(response) <==>
              exists i: nat :: FirstMatchAt(Ticker, response, i) && Capture(Ticker, response, i) in AllowedTickers
    ensures "ticker" in ContextUpdates(response) ==>
              ContextUpdates(response)["ticker"] == Text(TradePrompt.ParseTradePrompt(response).ticker.value)
    ensures var t := TradePrompt.ParseTradePrompt(response);
            && ("expiry" in ContextUpdates(response) <==> t.expiry.Some?)
            && ("delta" in ContextUpdates(response) <==> t.delta.Some?)
            && ("stopLoss" in ContextUpdates(response) <==> t.stopLoss.Some?)
            && ("takeProfit" in ContextUpdates(response) <==> t.takeProfit.Some?)
            && (t.expiry.Some? ==> ContextUpdates(response)["expiry"] == Text(t.expiry.value))
            && (t.delta.Some? ==> ContextUpdates(response)["delta"] == Text(t.delta.value))
            && (t.stopLoss.Some? ==> ContextUpdates(response)["stopLoss"] == Text(t.stopLoss.value))
            && (t.takeProfit.Some? ==> ContextUpdates(response)["takeProfit"] == Text(t.takeProfit.value))
  {
    var t := TradePrompt.ParseTradePrompt(response);
    var tk := TickerUpdate(response);
    assert t.expiry == Find(Expiry, response) && t.delta == Find(Delta, response);
    assert t.stopLoss == Find(StopLoss, response) && t.takeProfit == Find(TakeProfit, response);
    UpdatesOfFields(tk, t.expiry, t.delta, t.stopLoss, t.takeProfit);
    TickerUpdateMeaning(response);
  }

  /** `extractContextFromResponse`: fills a fresh update record one field at a time; the current context is not consulted. */
  method ExtractContextFromResponse(response: string, currentContext: Context) returns (updates: Context)
    ensures updates == ContextUpdates(response)
  {
    updates := map[];
    var tickerMatch := Find(Ticker, response);
    if tickerMatch.Some? && tickerMatch.value in AllowedTickers {
      updates := updates["ticker" := Text(tickerMatch.value)];
    }
    assert updates == AddField(map[], "ticker", TickerUpdate(response));
    var expiryMatch := Find(Expiry, response);
    ghost var before := updates;
    if expiryMatch.Some? {
      updates := updates["expiry" := Text(expiryMatch.value)];
    }
    AddFieldWrites(before, "expiry", expiryMatch, updates);
    var deltaMatch := Find(Delta, response);
    before := updates;
    if deltaMatch.Some? {
      updates := updates["delta" := Text(deltaMatch.value)];
    }
    AddFieldWrites(before, "delta", deltaMatch, updates);
    var stopLossMatch := Find(StopLoss, response);
    before := updates;
    if stopLossMatch.Some? {
      updates := updates["stopLoss" := Text(stopLossMatch.value)];
    }
    AddFieldWrites(before, "stopLoss", stopLossMatch, updates);
    var takeProfitMatch := Find(TakeProfit, response);
    before := updates;
    if takeProfitMatch.Some? {
      updates := updates["takeProfit" := Text(takeProfitMatch.value)];
    }
    AddFieldWrites(before, "takeProfit", takeProfitMatch, updates);
  }

  /** `{ ...updatedContext, history: updatedHistory }`: the reply's updates with the window, which overrides them. */
  function RelayUpdate(response: string, history: seq<Message>): (u: Context)
    ensures u.Keys == ContextUpdates(response).Keys + {"history"}
    ensures u["history"] == History(history)
    ensures forall k :: k in ContextUpdates(response) && k != "history" ==> u[k] == ContextUpdates(response)[k]
  {
    Merge(ContextUpdates(response), map["history" := History(history)])
  }
}
