/**
 * The full-page chat (static/js/chatbot-fullpage.js): the same conversation
 * logic as the widget, kept under 'ai_chatbot_fullpage_messages', drawing the
 * last twenty stored messages on load. Its send handler calls a method the
 * class does not define; `SendMessageAsWritten` models that, and
 * `SendMessage` models the evident intent, drawing with
 * `addFullscreenMessage`.
 */
module FullPageChat {
  import opened Wrappers
  import opened Strings
  import opened Chat

  const StorageKey: string := "ai_chatbot_fullpage_messages"

  /** How many stored messages are drawn when the page loads. */
  const RecentOnLoad: nat := 20

  /** The TypeError raised by calling the undefined `this.addMessage`. */
  const MissingMethod: string := "this.addMessage is not a function"

  /**
   * The send handler as written: a blank input returns quietly; any other
   * input makes the very first step, drawing the user's message through the
   * undefined `this.addMessage`, throw, so nothing is added and nothing is sent.
   */
  function SendAsWritten(input: string, b: Backend, now: int): (r: Result<seq<Message>, string>)
    ensures JsTrim(input) == "" ==> r == Ok([])
    ensures JsTrim(input) != "" ==> r == Err(MissingMethod)
  {
    if JsTrim(input) == "" then Ok([]) else Err(MissingMethod)
  }

  /**
   * Every message that the intended handler would answer is lost as written:
   * 'hi' should add the user's message and at least one reply, and adds none.
   */
  lemma SendAsWrittenLosesMessages(b: Backend, now: int)
    ensures SendAsWritten("hi", b, now) == Err(MissingMethod)
    ensures |Turn("hi", b, now)| >= 2
  {
    assert !IsSpace(Js, "hi"[0]);
    TrimEmptyIff("hi", Js);
  }

  class FullPageChatbot {
    var messages: seq<Message>
    var shown: seq<Message>
    var stored: seq<Message>

    ghost predicate WrittenThrough()
      reads this
    {
      stored == messages
    }

    /**
     * Construction and `loadMessagesFromStorage`: adopt the stored list and draw its last twenty entries.
     * A missing or unparsable entry starts an empty conversation. The page
     * leaves unparsable text in storage until the first save; `stored` here is
     * the list a reload would adopt, which is empty in both cases.
     */
    constructor (saved: StoredChat)
      ensures saved.Parsed? ==> messages == saved.messages && shown == Recent(saved.messages, RecentOnLoad)
      ensures !saved.Parsed? ==> messages == [] && shown == []
      ensures WrittenThrough()
    {
      if saved.Parsed? {
        messages := saved.messages;
        shown := Recent(saved.messages, RecentOnLoad);
        stored := saved.messages;
      } else {
        messages := [];
        shown := [];
        stored := [];
      }
    }

    /** `addFullscreenMessage`: draw the message, record it with the time, and save the list. */
    method AddFullscreenMessage(content: string, sender: Sender, now: int)
      requires WrittenThrough()
      modifies this
      ensures messages == old(messages) + [Message(content, sender, now)]
      ensures shown == old(shown) + [Message(content, sender, now)]
      ensures WrittenThrough()
    {
      var m := Message(content, sender, now);
      shown := shown + [m];
      messages := messages + [m];
      stored := messages;
    }

    /** `sendMessage` as written: the call through the missing method throws before any change. */
    method SendMessageAsWritten(input: string, backend: Backend, now: int) returns (r: Result<seq<Message>, string>)
      modifies this
      ensures r == SendAsWritten(input, backend, now)
      ensures messages == old(messages) && shown == old(shown) && stored == old(stored)
    {
      var message := JsTrim(input);
      if message == "" {
        return Ok([]);
      }
      return Err(MissingMethod);
    }

    method AddReplies(replies: seq<string>, now: int)
      requires WrittenThrough() && 1 <= |replies| <= 2
      modifies this
      ensures messages == old(messages) + BotMessages(replies, now)
      ensures shown == old(shown) + BotMessages(replies, now)
      ensures WrittenThrough()
    {
      AddFullscreenMessage(replies[0], Bot, now);
      if |replies| == 2 {
        AddFullscreenMessage(replies[1], Bot, now);
      }
      assert replies == [replies[0]] + replies[1..];
    }

    /**
     * `sendMessage` as evidently intended: each message drawn with
     * `addFullscreenMessage`, so a send appends the same turn as the widget's
     * (with canned answers from the table's own keys).
     */
    method SendMessage(input: string, backend: Backend, now: int)
      requires WrittenThrough()
      modifies this
      ensures messages == old(messages) + Turn(input, backend, now)
      ensures shown == old(shown) + Turn(input, backend, now)
      ensures WrittenThrough()
    {
      var message := JsTrim(input);
      if message == "" {
        return;
      }
      ghost var before, beforeShown := messages, shown;
      AddFullscreenMessage(message, User, now);
      var replies := Respond(message, backend);
      AddReplies(replies, now);
      AppendAssoc(before, [Message(message, User, now)], BotMessages(replies, now));
      AppendAssoc(beforeShown, [Message(message, User, now)], BotMessages(replies, now));
      TurnUnfolds(input, backend, now);
    }
  }
}
