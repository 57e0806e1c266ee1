/**
 * `Bot::message`, the whole handler: self-loop guard, classification,
 * typing signal, history fetch, completion request, reply selection,
 * chunking and sending. Every call into the chat platform or the
 * completion service is an input (`World`) or an event the handler emits.
 */
module Handler {
  import opened Types
  import opened PromptTable
  import opened Classifier
  import opened Conversation
  import opened Reply

  /** The fixed request parameters. */
  const MODEL: string := "gpt-3.5-turbo"
  const MAX_TOKENS: nat := 1024

  datatype Request = Request(model: string, maxTokens: nat, messages: seq<Entry>)

  /**
   * The calls the handler makes to the outside, in the order it makes them.
   * A send is `Send` when the platform accepts the message and
   * `SendRejected` when it refuses it.
   */
  datatype Event =
    | FetchPrompt(channel: ChannelId)
    | Typing(channel: ChannelId)
    | FetchHistory(channel: ChannelId, limit: nat)
    | RequestCompletion(request: Request)
    | Send(channel: ChannelId, text: string)
    | SendRejected(channel: ChannelId, text: string)

  /** The points at which the handler unwraps a missing value. */
  datatype Failure =
    | GuildNotCached
    | Unclassifiable(error: ClassifyError)
    | HistoryFetchFailed
    | CompletionFailed
    | SendFailed(index: nat)

  datatype Outcome = Ignored | NotManaged | Delivered(chunks: nat) | Failed(failure: Failure)

  /**
   * What the platform and the completion service answer for one incoming
   * message: whether the cache says the bot wrote it, the channel it was
   * sent in, the guild's active threads (None when the guild is not cached),
   * each reachable channel's log newest first (a channel missing from the map
   * cannot be fetched), the completion choices (None when the request fails),
   * and the index of the first send the platform rejects, if any.
   */
  datatype World = World(
    isOwn: bool,
    channel: ChannelId,
    threads: Option<seq<Thread>>,
    logs: map<ChannelId, seq<Message>>,
    completion: Option<seq<Choice>>,
    failAt: Option<nat>)

  datatype Handling = Handling(outcome: Outcome, events: seq<Event>)

  /** The fetch made while classifying, for the failures that happen after it. */
  function PromptFetches(e: ClassifyError): seq<Event>
  {
    match e
    case ThreadWithoutParent(_) => []
    case PromptFetchFailed(pc) => [FetchPrompt(pc)]
    case PromptChannelEmpty(pc) => [FetchPrompt(pc)]
  }

  function SendEvents(channel: ChannelId, texts: seq<string>): (es: seq<Event>)
    ensures |es| == |texts|
    ensures forall i :: 0 <= i < |texts| ==> es[i] == Send(channel, texts[i])
  {
    if texts == [] then [] else [Send(channel, texts[0])] + SendEvents(channel, texts[1..])
  }

  /** The managed path, once the prompt is known. */
  function Respond(botId: UserId, w: World, promptChannel: ChannelId, prompt: string): Handling
  {
    var ch := w.channel;
    var prepared := [FetchPrompt(promptChannel), Typing(ch), FetchHistory(ch, HISTORY_LIMIT)];
    if ch !in w.logs then Handling(Failed(HistoryFetchFailed), prepared)
    else
      var request := Request(MODEL, MAX_TOKENS, Context(Recent(w.logs[ch], HISTORY_LIMIT), prompt, botId));
      var asked := prepared + [RequestCompletion(request)];
      match w.completion
      case None => Handling(Failed(CompletionFailed), asked)
      case Some(choices) =>
        var chunks := Chunks(SelectReply(choices));
        if w.failAt.Some? && w.failAt.value < |chunks| then
          Handling(Failed(SendFailed(w.failAt.value)),
                   asked + SendEvents(ch, chunks[..w.failAt.value]) + [SendRejected(ch, chunks[w.failAt.value])])
        else
          Handling(Delivered(|chunks|), asked + SendEvents(ch, chunks))
  }

  /** What handling one incoming message does. */
  function Handle(botId: UserId, table: Table, w: World): Handling
  {
    if w.isOwn then Handling(Ignored, [])
    else match w.threads
      case None => Handling(Failed(GuildNotCached), [])
      case Some(ts) =>
        match Classify(ts, w.channel, table, w.logs)
        case Unmanaged => Handling(NotManaged, [])
        case ClassifyFailed(e) => Handling(Failed(Unclassifiable(e)), PromptFetches(e))
        case Managed(pc, prompt) => Respond(botId, w, pc, prompt)
  }

  /** The handler, step by step as the source runs it. */
  method HandleMessage(botId: UserId, table: Table, w: World) returns (outcome: Outcome, events: seq<Event>)
    ensures Handling(outcome, events) == Handle(botId, table, w)
  {
    if w.isOwn {
      return Ignored, [];
    }
    if w.threads.None? {
      return Failed(GuildNotCached), [];
    }
    var c := ClassifyMessage(w.threads.value, w.channel, table, w.logs);
    if c.Unmanaged? {
      return NotManaged, [];
    }
    if c.ClassifyFailed? {
      return Failed(Unclassifiable(c.error)), PromptFetches(c.error);
    }
    events := [FetchPrompt(c.promptChannel), Typing(w.channel), FetchHistory(w.channel, HISTORY_LIMIT)];
    if w.channel !in w.logs {
      return Failed(HistoryFetchFailed), events;
    }
    var history := Recent(w.logs[w.channel], HISTORY_LIMIT);
    var msgs := AssembleContext(history, c.prompt, botId);
    events := events + [RequestCompletion(Request(MODEL, MAX_TOKENS, msgs))];
    if w.completion.None? {
      return Failed(CompletionFailed), events;
    }
    var reply := SelectReply(w.completion.value);
    var chunks := Chunks(reply);
    var sent, ok := SendChunks(chunks, w.failAt);
    events := events + SendEvents(w.channel, sent);
    if !ok {
      events := events + [SendRejected(w.channel, chunks[w.failAt.value])];
      return Failed(SendFailed(w.failAt.value)), events;
    }
    outcome := Delivered(|chunks|);
  }

  // ------------------------------------------------------------ properties

  /** The texts the platform accepted, in order. */
  function SentTexts(events: seq<Event>): seq<string>
  {
    if events == [] then []
    else (if events[0].Send? then [events[0].text] else []) + SentTexts(events[1..])
  }

  lemma {:induction false} SentTextsAppend(a: seq<Event>, b: seq<Event>)
    ensures SentTexts(a + b) == SentTexts(a) + SentTexts(b)
  {
    if a != [] {
      assert (a + b)[0] == a[0];
      assert (a + b)[1..] == a[1..] + b;
      SentTextsAppend(a[1..], b);
    } else {
      assert a + b == b;
    }
  }

  lemma {:induction false} NoSends(es: seq<Event>)
    requires forall i :: 0 <= i < |es| ==> !es[i].Send?
    ensures SentTexts(es) == []
  {
    if es != [] {
      NoSends(es[1..]);
    }
  }

  lemma {:induction false} SentTextsOfSends(channel: ChannelId, texts: seq<string>)
    ensures SentTexts(SendEvents(channel, texts)) == texts
  {
    if texts != [] {
      SentTextsOfSends(channel, texts[1..]);
    }
  }

  /** A thread whose parent is in the table has the message's channel as id. */
  ghost predicate InManagedThread(threads: seq<Thread>, channel: ChannelId, table: Table)
  {
    exists i :: 0 <= i < |threads| && threads[i].id == channel
      && threads[i].parentId.Some? && threads[i].parentId.value in table
  }

  /**
   * The self-loop guard and the unmanaged case: a message the bot wrote, or
   * one in no thread under a registered parent, causes no call at all; the
   * typing signal, the history fetch, the completion request and the sends
   * only ever happen for a managed message.
   */
  lemma Quiet(botId: UserId, table: Table, w: World)
    ensures w.isOwn ==> Handle(botId, table, w) == Handling(Ignored, [])
    ensures !w.isOwn && w.threads.Some? && !InManagedThread(w.threads.value, w.channel, table) ==>
      Handle(botId, table, w).events == []
    ensures forall k :: 0 <= k < |Handle(botId, table, w).events| && !Handle(botId, table, w).events[k].FetchPrompt? ==>
      && !w.isOwn && w.threads.Some?
      && Classify(w.threads.value, w.channel, table, w.logs).Managed?
      && InManagedThread(w.threads.value, w.channel, table)
  {
    if !w.isOwn && w.threads.Some? {
      var ts := w.threads.value;
      ClassifyManaged(ts, w.channel, table, w.logs);
      ScanFirst(ts, w.channel, table);
      var s := ScanThreads(ts, w.channel, table);
      if !InManagedThread(ts, w.channel, table) {
        if s.NoParent? {
          assert Classify(ts, w.channel, table, w.logs) == ClassifyFailed(ThreadWithoutParent(s.index));
        }
      }
    }
  }

  /**
   * A delivered reply: the request carries the fixed model and token budget
   * and a context of the fetched history plus the prompt, and the texts sent
   * into the thread are well-formed chunks that concatenate to the reply.
   */
  lemma Delivery(botId: UserId, table: Table, w: World)
    requires Handle(botId, table, w).outcome.Delivered?
    ensures !w.isOwn && w.threads.Some? && w.channel in w.logs && w.completion.Some?
    ensures
      var h := Handle(botId, table, w);
      var c := Classify(w.threads.value, w.channel, table, w.logs);
      var history := Recent(w.logs[w.channel], HISTORY_LIMIT);
      && c.Managed?
      && |h.events| == 4 + h.outcome.chunks
      && h.events[..4] == [FetchPrompt(c.promptChannel), Typing(w.channel), FetchHistory(w.channel, HISTORY_LIMIT),
                           RequestCompletion(Request(MODEL, MAX_TOKENS, Context(history, c.prompt, botId)))]
      && |Context(history, c.prompt, botId)| == |history| + 1 <= HISTORY_LIMIT + 1
      && Context(history, c.prompt, botId)[0] == Entry(System, c.prompt)
      && (forall k :: 4 <= k < |h.events| ==> h.events[k].Send? && h.events[k].channel == w.channel)
      && WellChunked(SentTexts(h.events))
      && Flatten(SentTexts(h.events)) == SelectReply(w.completion.value)
  {
    var ts := w.threads.value;
    var c := Classify(ts, w.channel, table, w.logs);
    var history := Recent(w.logs[w.channel], HISTORY_LIMIT);
    var request := Request(MODEL, MAX_TOKENS, Context(history, c.prompt, botId));
    var asked := [FetchPrompt(c.promptChannel), Typing(w.channel), FetchHistory(w.channel, HISTORY_LIMIT), RequestCompletion(request)];
    var reply := SelectReply(w.completion.value);
    var chunks := Chunks(reply);
    assert Handle(botId, table, w).events == asked + SendEvents(w.channel, chunks);
    ContextShape(history, c.prompt, botId);
    NoSends(asked);
    SentTextsAppend(asked, SendEvents(w.channel, chunks));
    SentTextsOfSends(w.channel, chunks);
    ChunksShape(reply);
    FlattenChunks(reply);
    assert SentTexts(Handle(botId, table, w).events) == chunks;
  }

  lemma {:induction false} FlattenAppend(a: seq<string>, b: seq<string>)
    ensures Flatten(a + b) == Flatten(a) + Flatten(b)
  {
    if a != [] {
      assert (a + b)[0] == a[0];
      assert (a + b)[1..] == a[1..] + b;
      FlattenAppend(a[1..], b);
      assert Flatten(a + b) == a[0] + Flatten(a[1..] + b);
    } else {
      assert a + b == b;
    }
  }

  /**
   * A send that fails stops the loop: the last call is the rejected send of
   * chunk `k`, and what reached the thread is the first `k` chunks, a prefix
   * of the reply of exactly 2000·k characters.
   */
  lemma PartialDelivery(botId: UserId, table: Table, w: World, k: nat)
    requires Handle(botId, table, w).outcome == Failed(SendFailed(k))
    ensures w.completion.Some?
    ensures
      var events := Handle(botId, table, w).events;
      && |events| == 5 + k
      && events[|events| - 1] == SendRejected(w.channel, Chunks(SelectReply(w.completion.value))[k])
    ensures
      var sent := Flatten(SentTexts(Handle(botId, table, w).events));
      var reply := SelectReply(w.completion.value);
      |sent| == MAX_CHUNK * k < |reply| && sent == reply[..|sent|]
  {
    var ts := w.threads.value;
    var c := Classify(ts, w.channel, table, w.logs);
    var history := Recent(w.logs[w.channel], HISTORY_LIMIT);
    var request := Request(MODEL, MAX_TOKENS, Context(history, c.prompt, botId));
    var asked := [FetchPrompt(c.promptChannel), Typing(w.channel), FetchHistory(w.channel, HISTORY_LIMIT), RequestCompletion(request)];
    var reply := SelectReply(w.completion.value);
    var chunks := Chunks(reply);
    var rejected := [SendRejected(w.channel, chunks[k])];
    assert Handle(botId, table, w).events == (asked + SendEvents(w.channel, chunks[..k])) + rejected;
    NoSends(asked);
    NoSends(rejected);
    SentTextsAppend(asked, SendEvents(w.channel, chunks[..k]));
    SentTextsAppend(asked + SendEvents(w.channel, chunks[..k]), rejected);
    SentTextsOfSends(w.channel, chunks[..k]);
    FlattenChunks(reply);
    ChunksShape(reply);
    assert chunks == chunks[..k] + chunks[k..];
    FlattenAppend(chunks[..k], chunks[k..]);
    FullChunksLength(chunks[..k]);
    assert SentTexts(Handle(botId, table, w).events) == chunks[..k];
    assert |Flatten(chunks[k..])| > 0 by {
      assert chunks[k..] == [chunks[k]] + chunks[k + 1..];
      FlattenAppend([chunks[k]], chunks[k + 1..]);
    }
  }

  lemma {:induction false} FullChunksLength(cs: seq<string>)
    requires forall i :: 0 <= i < |cs| ==> |cs[i]| == MAX_CHUNK
    ensures |Flatten(cs)| == MAX_CHUNK * |cs|
  {
    if cs != [] {
      FullChunksLength(cs[1..]);
    }
  }
}
