/**
 * Deciding whether an incoming message belongs to a managed thread and, if
 * so, resolving its system prompt: the scan over the guild's active threads
 * in `Bot::message`.
 */
module Classifier {
  import opened Types
  import opened PromptTable

  /** Where the scan over the threads stopped. */
  datatype Scan =
    | NoMatch
      /** the thread at `index` has the message's channel as id but no parent */
    | NoParent(index: nat)
      /** the thread at `index` is the message's and its parent maps to `promptChannel` */
    | Match(index: nat, promptChannel: ChannelId)

  /** Why classification failed (the handler unwraps each of these). */
  datatype ClassifyError =
    | ThreadWithoutParent(index: nat)
    | PromptFetchFailed(promptChannel: ChannelId)
    | PromptChannelEmpty(promptChannel: ChannelId)

  datatype Classification =
    | Unmanaged
    | Managed(promptChannel: ChannelId, prompt: string)
    | ClassifyFailed(error: ClassifyError)

  /** A thread the scan walks past: not the message's channel, or under an unregistered parent. */
  predicate PassedOver(t: Thread, channel: ChannelId, table: Table)
  {
    t.id != channel || (t.parentId.Some? && t.parentId.value !in table)
  }

  /** The scan from position `i` on: the first thread with the message's id whose parent is unregistered is skipped. */
  function ScanFrom(threads: seq<Thread>, channel: ChannelId, table: Table, i: nat): (r: Scan)
    requires i <= |threads|
    ensures r.NoParent? ==>
      i <= r.index < |threads| && threads[r.index].id == channel && threads[r.index].parentId.None?
    ensures r.Match? ==>
      && i <= r.index < |threads| && threads[r.index].id == channel
      && threads[r.index].parentId.Some? && threads[r.index].parentId.value in table
      && r.promptChannel == table[threads[r.index].parentId.value]
    decreases |threads| - i
  {
    if i == |threads| then NoMatch
    else
      var t := threads[i];
      if t.id != channel then ScanFrom(threads, channel, table, i + 1)
      else match t.parentId
        case None => NoParent(i)
        case Some(parent) =>
          if parent in table then Match(i, table[parent])
          else ScanFrom(threads, channel, table, i + 1)
  }

  function ScanThreads(threads: seq<Thread>, channel: ChannelId, table: Table): Scan
  {
    ScanFrom(threads, channel, table, 0)
  }

  /**
   * First-match semantics: the scan finds nothing exactly when every thread
   * is passed over, and when it stops, every thread before the one it
   * stopped at was passed over.
   */
  lemma {:induction false} ScanFromFirst(threads: seq<Thread>, channel: ChannelId, table: Table, i: nat)
    requires i <= |threads|
    ensures ScanFrom(threads, channel, table, i).NoMatch? <==>
      forall j :: i <= j < |threads| ==> PassedOver(threads[j], channel, table)
    ensures !ScanFrom(threads, channel, table, i).NoMatch? ==>
      forall j :: i <= j < ScanFrom(threads, channel, table, i).index ==> PassedOver(threads[j], channel, table)
    decreases |threads| - i
  {
    if i < |threads| {
      ScanFromFirst(threads, channel, table, i + 1);
    }
  }

  lemma ScanFirst(threads: seq<Thread>, channel: ChannelId, table: Table)
    ensures ScanThreads(threads, channel, table).NoMatch? <==>
      forall j :: 0 <= j < |threads| ==> PassedOver(threads[j], channel, table)
    ensures !ScanThreads(threads, channel, table).NoMatch? ==>
      forall j :: 0 <= j < ScanThreads(threads, channel, table).index ==> PassedOver(threads[j], channel, table)
  {
    ScanFromFirst(threads, channel, table, 0);
  }

  /** Threads after the one the scan stopped at do not change its result. */
  lemma {:induction false} ScanFromIgnoresLater(threads: seq<Thread>, more: seq<Thread>, channel: ChannelId, table: Table, i: nat)
    requires i <= |threads|
    requires !ScanFrom(threads, channel, table, i).NoMatch?
    ensures ScanFrom(threads + more, channel, table, i) == ScanFrom(threads, channel, table, i)
    decreases |threads| - i
  {
    assert (threads + more)[i] == threads[i];
    if PassedOver(threads[i], channel, table) {
      ScanFromIgnoresLater(threads, more, channel, table, i + 1);
    }
  }

  lemma ScanIgnoresLater(threads: seq<Thread>, more: seq<Thread>, channel: ChannelId, table: Table)
    requires !ScanThreads(threads, channel, table).NoMatch?
    ensures ScanThreads(threads + more, channel, table) == ScanThreads(threads, channel, table)
  {
    ScanFromIgnoresLater(threads, more, channel, table, 0);
  }

  /** The prompt is the content of the newest message of the prompt channel's log (newest first). */
  function ResolvePrompt(logs: map<ChannelId, seq<Message>>, promptChannel: ChannelId): Classification
  {
    if promptChannel !in logs then ClassifyFailed(PromptFetchFailed(promptChannel))
    else if logs[promptChannel] == [] then ClassifyFailed(PromptChannelEmpty(promptChannel))
    else Managed(promptChannel, logs[promptChannel][0].content)
  }

  /** What the scan over the threads decides for a message sent in `channel`. */
  function Classify(threads: seq<Thread>, channel: ChannelId, table: Table, logs: map<ChannelId, seq<Message>>): Classification
  {
    match ScanThreads(threads, channel, table)
    case NoMatch => Unmanaged
    case NoParent(i) => ClassifyFailed(ThreadWithoutParent(i))
    case Match(_, pc) => ResolvePrompt(logs, pc)
  }

  /**
   * The handler's loop: walk every thread, and at the first one that is
   * the message's channel while no prompt is set yet, look its parent up
   * and fetch the prompt.
   */
  method ClassifyMessage(threads: seq<Thread>, channel: ChannelId, table: Table, logs: map<ChannelId, seq<Message>>)
    returns (c: Classification)
    ensures c == Classify(threads, channel, table, logs)
  {
    var inChatThread := false;
    var systemPrompt := "";
    var promptChannel: ChannelId := 0;
    for i := 0 to |threads|
      invariant !inChatThread ==> ScanThreads(threads, channel, table) == ScanFrom(threads, channel, table, i)
      invariant inChatThread ==>
        && ScanThreads(threads, channel, table).Match?
        && ScanThreads(threads, channel, table).promptChannel == promptChannel
        && ResolvePrompt(logs, promptChannel) == Managed(promptChannel, systemPrompt)
    {
      var thread := threads[i];
      if channel == thread.id {
        if !inChatThread {
          if thread.parentId.None? {
            return ClassifyFailed(ThreadWithoutParent(i));
          }
          var parent := thread.parentId.value;
          if parent in table {
            var pc := table[parent];
            if pc !in logs {
              return ClassifyFailed(PromptFetchFailed(pc));
            }
            if logs[pc] == [] {
              return ClassifyFailed(PromptChannelEmpty(pc));
            }
            systemPrompt := logs[pc][0].content;
            promptChannel := pc;
            inChatThread := true;
          }
        }
      }
    }
    if !inChatThread {
      return Unmanaged;
    }
    c := Managed(promptChannel, systemPrompt);
  }

  /**
   * The classification in terms of the threads alone: a message is managed
   * exactly when some thread with its id is under a registered parent and
   * no earlier thread with its id lacks a parent; the prompt comes from the
   * first such thread's parent.
   */
  lemma ClassifyManaged(threads: seq<Thread>, channel: ChannelId, table: Table, logs: map<ChannelId, seq<Message>>)
    ensures Classify(threads, channel, table, logs).Unmanaged? <==>
      forall j :: 0 <= j < |threads| ==> PassedOver(threads[j], channel, table)
    ensures Classify(threads, channel, table, logs).Managed? ==>
      exists i :: 0 <= i < |threads|
        && threads[i].id == channel && threads[i].parentId.Some? && threads[i].parentId.value in table
        && (forall j :: 0 <= j < i ==> PassedOver(threads[j], channel, table))
        && var pc := table[threads[i].parentId.value];
           && pc in logs && |logs[pc]| > 0
           && Classify(threads, channel, table, logs) == Managed(pc, logs[pc][0].content)
  {
    ScanFirst(threads, channel, table);
  }
}
