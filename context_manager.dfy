/**
 * The per-session context store: a dictionary from session id to a flat
 * record, created lazily from the default record, updated by shallow merge
 * and reset to the default.
 */
module ContextManager {

  datatype Role = System | User | Assistant

  /** A conversation entry: `{ role, content }`. */
  datatype Message = Message(role: Role, content: string)

  /** The values a context record holds: an absent-but-declared key, a string, or the conversation history. */
  datatype Value = Undefined | Text(text: string) | History(messages: seq<Message>)

  /** A context record; key order is not modelled. */
  type Context = map<string, Value>

  /** `DEFAULT_CONTEXT`. */
  const DefaultContext: Context := map[
    "ticker" := Text("AAPL"),
    "expiry" := Text("2025-05-16"),
    "strikeRange" := Text("5%"),
    "delta" := Text("0.3"),
    "stopLoss" := Text("2.5"),
    "takeProfit" := Text("0.2"),
    "history" := History([])]

  /**
   * `{ ...current, ...updates }`: every key of the update takes the update's
   * value, every other key of the current record keeps its value (an
   * `Undefined` one included), and no other key appears.
   */
  function Merge(current: Context, updates: Context): (r: Context)
    ensures r.Keys == current.Keys + updates.Keys
    ensures forall k :: k in updates ==> r[k] == updates[k]
    ensures forall k :: k in current && k !in updates ==> r[k] == current[k]
  {
    current + updates
  }

  /** Merging the same update again changes nothing. */
  lemma MergeIdempotent(current: Context, updates: Context)
    ensures Merge(Merge(current, updates), updates) == Merge(current, updates)
  {
  }

  /** Two merges in a row are one merge of the combined update. */
  lemma MergeTwice(current: Context, u: Context, v: Context)
    ensures Merge(Merge(current, u), v) == Merge(current, Merge(u, v))
  {
  }

  /** The whole store: session id to record. */
  type Store = map<string, Context>

  /** The record `getContext` returns: the stored one, or a fresh copy of the default. */
  function Lookup(s: Store, id: string): Context {
    if id in s then s[id] else DefaultContext
  }

  /** The predicate every operation's frame is stated with: only `id`'s entry may differ. */
  ghost predicate OthersUnchanged(before: Store, after: Store, id: string) {
    forall k :: k != id ==> (k in after <==> k in before) && (k in before ==> after[k] == before[k])
  }

  /** The store after `getContext(id)`: the id is a key, its record is what was looked up, nothing else changes. */
  function AfterGet(s: Store, id: string): (r: Store)
    ensures id in r && r[id] == Lookup(s, id)
    ensures OthersUnchanged(s, r, id)
    ensures id in s ==> r == s
  {
    if id in s then s else s[id := DefaultContext]
  }

  /** The store after `updateContext(id, u)`. */
  function AfterUpdate(s: Store, id: string, u: Context): (r: Store)
    ensures id in r && r[id] == Merge(Lookup(s, id), u)
    ensures OthersUnchanged(s, r, id)
  {
    var got := AfterGet(s, id);
    got[id := Merge(got[id], u)]
  }

  /** The store after `resetContext(id)`. */
  function AfterReset(s: Store, id: string): (r: Store)
    ensures id in r && r[id] == DefaultContext
    ensures OthersUnchanged(s, r, id)
  {
    s[id := DefaultContext]
  }

  /** Looking a session up again changes nothing. */
  lemma GetIdempotent(s: Store, id: string)
    ensures AfterGet(AfterGet(s, id), id) == AfterGet(s, id)
  {
  }

  /** Applying the same update twice gives the same store as applying it once. */
  lemma UpdateIdempotent(s: Store, id: string, u: Context)
    ensures AfterUpdate(AfterUpdate(s, id, u), id, u) == AfterUpdate(s, id, u)
  {
    var once := AfterUpdate(s, id, u);
    MergeIdempotent(Lookup(s, id), u);
    assert AfterUpdate(once, id, u)[id] == once[id];
  }

  /** A reset forgets every earlier update of that session. */
  lemma ResetForgetsUpdate(s: Store, id: string, u: Context)
    ensures AfterReset(AfterUpdate(s, id, u), id) == AfterReset(s, id)
  {
    var got := AfterGet(s, id);
    assert AfterReset(AfterUpdate(s, id, u), id) == got[id := DefaultContext];
    if id !in s {
      assert got == s[id := DefaultContext];
    }
  }

  /** An update of a session never seen before applies on top of the default record. */
  lemma UpdateFreshSession(s: Store, id: string, u: Context)
    requires id !in s
    ensures AfterUpdate(s, id, u)[id] == Merge(DefaultContext, u)
  {
  }

  /** The store object: `contextStore` and the three operations that mutate it. */
  class ContextStore {
    var contextStore: Store

    constructor()
      ensures contextStore == map[]
    {
      contextStore := map[];
    }

    /** `getContext`: creates the default record on first use and returns the session's record. */
    method GetContext(sessionId: string) returns (c: Context)
      modifies this
      ensures contextStore == AfterGet(old(contextStore), sessionId)
      ensures c == Lookup(old(contextStore), sessionId)
    {
      if sessionId !in contextStore {
        contextStore := contextStore[sessionId := DefaultContext];
      }
      c := contextStore[sessionId];
    }

    /** `updateContext`: looks the record up (creating it if needed), then stores the merge. */
    method UpdateContext(sessionId: string, updates: Context) returns (c: Context)
      modifies this
      ensures contextStore == AfterUpdate(old(contextStore), sessionId, updates)
      ensures c == Merge(Lookup(old(contextStore), sessionId), updates)
    {
      var currentContext := GetContext(sessionId);
      contextStore := contextStore[sessionId := Merge(currentContext, updates)];
      c := contextStore[sessionId];
    }

    /** `resetContext`: stores a fresh copy of the default record. */
    method ResetContext(sessionId: string) returns (c: Context)
      modifies this
      ensures contextStore == AfterReset(old(contextStore), sessionId)
      ensures c == DefaultContext
    {
      contextStore := contextStore[sessionId := DefaultContext];
      c := contextStore[sessionId];
    }
  }
}
