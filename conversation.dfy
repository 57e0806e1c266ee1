/**
 * Building the message list sent to the completion service: the thread's
 * recent history, role-tagged, turned oldest-first, behind one system
 * entry that holds the resolved prompt.
 */
module Conversation {
  import opened Types

  /** How many of the thread's most recent messages are fetched. */
  const HISTORY_LIMIT: nat := 100

  datatype Role = System | User

  /** One `{role, content}` pair of the completion request. */
  datatype Entry = Entry(role: Role, content: string)

  /** `message_role`: the bot's own messages are replayed as system messages, everyone else's as user messages. */
  function MessageRole(author: UserId, botId: UserId): (r: Role)
    ensures r == System <==> author == botId
  {
    if author == botId then System else User
  }

  function ToEntry(m: Message, botId: UserId): Entry
  {
    Entry(MessageRole(m.author, botId), m.content)
  }

  /** The history mapped entry by entry, in the order it came (newest first). */
  function Entries(history: seq<Message>, botId: UserId): (es: seq<Entry>)
    ensures |es| == |history|
    ensures forall i :: 0 <= i < |history| ==> es[i] == ToEntry(history[i], botId)
  {
    if history == [] then [] else [ToEntry(history[0], botId)] + Entries(history[1..], botId)
  }

  /** `s` back to front. */
  function Reversed<T>(s: seq<T>): seq<T>
  {
    if s == [] then [] else [s[|s| - 1]] + Reversed(s[..|s| - 1])
  }

  lemma {:induction false} ReversedIndex<T>(s: seq<T>)
    ensures |Reversed(s)| == |s|
    ensures forall k :: 0 <= k < |s| ==> Reversed(s)[k] == s[|s| - 1 - k]
  {
    if s != [] {
      var init := s[..|s| - 1];
      ReversedIndex(init);
      forall k | 0 <= k < |s| ensures Reversed(s)[k] == s[|s| - 1 - k] {
        if k > 0 {
          assert Reversed(s)[k] == Reversed(init)[k - 1];
        }
      }
    }
  }

  /** The request's messages: the history mapped, reversed to oldest first, with the prompt inserted at the front. */
  function Context(history: seq<Message>, prompt: string, botId: UserId): seq<Entry>
  {
    [Entry(System, prompt)] + Reversed(Entries(history, botId))
  }

  /**
   * The shape of the context: one entry more than the history; entry 0 is
   * the system prompt; entry i (from 1) carries the i-th oldest message, tagged
   * System exactly when the bot wrote it.
   */
  lemma ContextShape(history: seq<Message>, prompt: string, botId: UserId)
    ensures |Context(history, prompt, botId)| == |history| + 1
    ensures Context(history, prompt, botId)[0] == Entry(System, prompt)
    ensures forall i :: 1 <= i <= |history| ==>
      && Context(history, prompt, botId)[i].content == history[|history| - i].content
      && (Context(history, prompt, botId)[i].role == System <==> history[|history| - i].author == botId)
  {
    var es := Entries(history, botId);
    var ctx := Context(history, prompt, botId);
    ReversedIndex(es);
    forall i | 1 <= i <= |history|
      ensures ctx[i] == ToEntry(history[|history| - i], botId)
    {
      assert ctx[i] == Reversed(es)[i - 1];
    }
  }

  /** The fetch: the newest `limit` messages of a log kept newest first. */
  function Recent(log: seq<Message>, limit: nat): (h: seq<Message>)
    ensures |h| <= limit && |h| <= |log|
    ensures |h| == limit || h == log
    ensures h == log[..|h|]
  {
    if |log| <= limit then log else log[..limit]
  }

  /** Reverse an array in place, swapping from both ends towards the middle. */
  method ReverseInPlace(a: array<Entry>)
    modifies a
    ensures a[..] == Reversed(old(a[..]))
  {
    ghost var before := a[..];
    var lo, hi := 0, a.Length;
    while lo + 1 < hi
      invariant 0 <= lo <= hi <= a.Length && lo + hi == a.Length
      invariant forall k :: 0 <= k < lo ==> a[k] == before[a.Length - 1 - k]
      invariant forall k :: hi <= k < a.Length ==> a[k] == before[a.Length - 1 - k]
      invariant forall k :: lo <= k < hi ==> a[k] == before[k]
    {
      a[lo], a[hi - 1] := a[hi - 1], a[lo];
      lo, hi := lo + 1, hi - 1;
    }
    ReversedIndex(before);
    assert a[..] == Reversed(before);
  }

  /**
   * The handler's assembly: map the history into a vector, reverse it in
   * place, and insert the system entry at index 0.
   */
  method AssembleContext(history: seq<Message>, prompt: string, botId: UserId) returns (msgs: seq<Entry>)
    ensures msgs == Context(history, prompt, botId)
  {
    var a := new Entry[|history|];
    for i := 0 to |history|
      invariant forall k :: 0 <= k < i ==> a[k] == ToEntry(history[k], botId)
    {
      a[i] := Entry(MessageRole(history[i].author, botId), history[i].content);
    }
    assert a[..] == Entries(history, botId);
    ReverseInPlace(a);
    msgs := [Entry(System, prompt)] + a[..];
  }
}
