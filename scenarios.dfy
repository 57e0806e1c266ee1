/** Worked examples of the handler on small, fixed inputs. */
module Scenarios {
  import opened Types
  import opened Classifier
  import opened Conversation
  import opened Reply
  import opened Handler

  /**
   * A managed thread: channel 1 is registered with prompt channel 10, whose
   * newest message is "Be concise."; the thread (5) holds three user
   * messages and one of the bot's, newest first; the service answers "Hi".
   * The request has five entries, oldest first, and one message goes out.
   */
  lemma ManagedThreadReply()
    ensures
      var bot: UserId := 99;
      var history := [Message(2, "q3"), Message(bot, "a1"), Message(3, "q2"), Message(2, "q1")];
      var w := World(false, 5, Some([Thread(5, Some(1))]), map[10 := [Message(7, "Be concise.")], 5 := history],
                     Some([Choice("Hi")]), None);
      Handle(bot, map[1 := 10], w) ==
        Handling(Delivered(1), [
          FetchPrompt(10), Typing(5), FetchHistory(5, HISTORY_LIMIT),
          RequestCompletion(Request(MODEL, MAX_TOKENS, [
            Entry(System, "Be concise."), Entry(User, "q1"), Entry(User, "q2"), Entry(System, "a1"), Entry(User, "q3")])),
          Send(5, "Hi")])
  {
    var bot: UserId := 99;
    var history := [Message(2, "q3"), Message(bot, "a1"), Message(3, "q2"), Message(2, "q1")];
    var logs := map[10 := [Message(7, "Be concise.")], 5 := history];
    assert Classify([Thread(5, Some(1))], 5, map[1 := 10], logs) == Managed(10, "Be concise.");
    assert Recent(history, HISTORY_LIMIT) == history;
    var es := Entries(history, bot);
    assert es == [Entry(User, "q3"), Entry(System, "a1"), Entry(User, "q2"), Entry(User, "q1")];
    ReversedIndex(es);
    assert Reversed(es) == [Entry(User, "q1"), Entry(User, "q2"), Entry(System, "a1"), Entry(User, "q3")];
    var ctx := Context(history, "Be concise.", bot);
    assert ctx == [Entry(System, "Be concise."), Entry(User, "q1"), Entry(User, "q2"), Entry(System, "a1"), Entry(User, "q3")];
    assert Chunks("Hi") == ["Hi"];
    assert SendEvents(5, ["Hi"]) == [Send(5, "Hi")];
    var w := World(false, 5, Some([Thread(5, Some(1))]), logs, Some([Choice("Hi")]), None);
    assert SelectReply([Choice("Hi")]) == "Hi";
    assert Respond(bot, w, 10, "Be concise.") == Handling(Delivered(1), [
      FetchPrompt(10), Typing(5), FetchHistory(5, HISTORY_LIMIT),
      RequestCompletion(Request(MODEL, MAX_TOKENS, ctx)), Send(5, "Hi")]);
  }

  /** The prompt channel has no message: the prompt fetch is the only call, and nothing is requested or sent. */
  lemma EmptyPromptChannel()
    ensures
      var w := World(false, 5, Some([Thread(5, Some(1))]), map[10 := [], 5 := []], Some([Choice("Hi")]), None);
      Handle(99, map[1 := 10], w) == Handling(Failed(Unclassifiable(PromptChannelEmpty(10))), [FetchPrompt(10)])
  {
  }

  /** A thread under a channel missing from the table: no call of any kind. */
  lemma UnregisteredParent()
    ensures
      var w := World(false, 5, Some([Thread(5, Some(2))]), map[10 := [Message(7, "p")], 5 := []], Some([Choice("Hi")]), None);
      Handle(99, map[1 := 10], w) == Handling(NotManaged, [])
  {
  }
}
