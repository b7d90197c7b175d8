/**
 * The floating chat widget of the public pages (static/js/chatbot.js): its
 * open/closed state, the conversation it keeps in memory and mirrors to local
 * storage under 'ai_chatbot_messages', and the messages it has on screen.
 */
module Chatbot {
  import opened Wrappers
  import opened Strings
  import opened Chat

  const StorageKey: string := "ai_chatbot_messages"

  /** How many stored messages are drawn when the page loads. */
  const RecentOnLoad: nat := 10

  class AIChatbot {
    var isOpen: bool
    /** The whole conversation (`this.messages`). */
    var messages: seq<Message>
    /** The messages drawn in the message area, oldest first. */
    var shown: seq<Message>
    /** The local-storage entry, as the list it encodes. */
    var stored: seq<Message>

    /** Every change to the conversation is written through to storage. */
    ghost predicate WrittenThrough()
      reads this
    {
      stored == messages
    }

    /**
     * Construction and `loadMessagesFromStorage`: adopt the stored list and draw its last ten entries.
     * A missing or unparsable entry starts an empty conversation. The page
     * leaves unparsable text in storage until the first save; `stored` here is
     * the list a reload would adopt, which is empty in both cases.
     */
    constructor (saved: StoredChat)
      ensures !isOpen
      ensures saved.Parsed? ==> messages == saved.messages && shown == Recent(saved.messages, RecentOnLoad)
      ensures !saved.Parsed? ==> messages == [] && shown == []
      ensures WrittenThrough()
    {
      isOpen := false;
      if saved.Parsed? {
        messages := saved.messages;
        shown := Recent(saved.messages, RecentOnLoad);
        stored := saved.messages;
      } else {
        messages := [];
        shown := [];
        stored := [];
      }
    }

    /** `toggleChat`: opens a closed widget and closes an open one. */
    method ToggleChat()
      modifies this
      ensures isOpen == !old(isOpen)
      ensures messages == old(messages) && shown == old(shown) && stored == old(stored)
    {
      if isOpen {
        CloseChat();
      } else {
        isOpen := true;
      }
    }

    /** `closeChat`, also reached by the close button and the Escape key. */
    method CloseChat()
      modifies this
      ensures !isOpen
      ensures messages == old(messages) && shown == old(shown) && stored == old(stored)
    {
      isOpen := false;
    }

    /** `addMessage`: draw the message, record it with the time, and save the list. */
    method AddMessage(content: string, sender: Sender, now: int)
      requires WrittenThrough()
      modifies this
      ensures messages == old(messages) + [Message(content, sender, now)]
      ensures shown == old(shown) + [Message(content, sender, now)]
      ensures isOpen == old(isOpen) && WrittenThrough()
    {
      var m := Message(content, sender, now);
      shown := shown + [m];
      messages := messages + [m];
      stored := messages;
    }

    /** The bot messages of one answer, added one after the other. */
    method AddReplies(replies: seq<string>, now: int)
      requires WrittenThrough() && 1 <= |replies| <= 2
      modifies this
      ensures messages == old(messages) + BotMessages(replies, now)
      ensures shown == old(shown) + BotMessages(replies, now)
      ensures isOpen == old(isOpen) && WrittenThrough()
    {
      AddMessage(replies[0], Bot, now);
      if |replies| == 2 {
        AddMessage(replies[1], Bot, now);
      }
      assert replies == [replies[0]] + replies[1..];
    }

    /**
     * `sendMessage`: a blank input does nothing; otherwise the trimmed text is
     * added as the user's, then the backend's answer, or the canned answer and
     * the note, or the error text. Canned answers come from the table's own
     * keys; `Chat.TurnAsWritten` covers the inherited ones the source also finds.
     */
    method SendMessage(input: string, backend: Backend, now: int)
      requires WrittenThrough()
      modifies this
      ensures messages == old(messages) + Turn(input, backend, now)
      ensures shown == old(shown) + Turn(input, backend, now)
      ensures isOpen == old(isOpen) && WrittenThrough()
    {
      var message := JsTrim(input);
      if message == "" {
        return;
      }
      ghost var before, beforeShown := messages, shown;
      AddMessage(message, User, now);
      var replies := Respond(message, backend);
      AddReplies(replies, now);
      AppendAssoc(before, [Message(message, User, now)], BotMessages(replies, now));
      AppendAssoc(beforeShown, [Message(message, User, now)], BotMessages(replies, now));
      TurnUnfolds(input, backend, now);
    }
  }
}
