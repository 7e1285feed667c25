/**
 * The messaging handlers: sendMessage finds or creates the conversation of a
 * pair and appends a new message to it; getMessage reads it back.
 */
module MessageController {
  import opened Wrappers
  import opened SeqOps
  import opened Models
  import opened Store

  /** `participants: { $all: [a, b] }`: the conversation lists both ids, in either order. */
  predicate Between(c: Conversation, a: Id, b: Id) {
    a in c.participants && b in c.participants
  }

  /** `Conversation.findOne(...)` finds a document for the pair. */
  predicate HasConversation(conversations: map<Id, Conversation>, a: Id, b: Id) {
    exists c | c in conversations :: Between(conversations[c], a, b)
  }

  /** No two conversations match the same pair of distinct users. */
  ghost predicate OnePerPair(conversations: map<Id, Conversation>) {
    forall c1, c2, a, b |
      && c1 in conversations && c2 in conversations && a != b
      && Between(conversations[c1], a, b) && Between(conversations[c2], a, b) :: c1 == c2
  }

  /** The lookup ignores the order of the pair. */
  lemma BetweenUnordered(c: Conversation, a: Id, b: Id)
    ensures Between(c, a, b) == Between(c, b, a)
  {
  }

  /** The conversation table after sendMessage's writes, given the conversation and message ids it used. */
  function AfterSend(conversations: map<Id, Conversation>, senderId: Id, receiverId: Id, convId: Id, msgId: Id)
    : (r: map<Id, Conversation>)
    ensures r.Keys == conversations.Keys + {convId}
    ensures forall c | c in conversations && c != convId :: r[c] == conversations[c]
    ensures convId in conversations ==>
      r[convId] == conversations[convId].(messages := conversations[convId].messages + [msgId])
    ensures convId !in conversations ==> r[convId] == Conversation([senderId, receiverId], [msgId])
  {
    var thread := if convId in conversations then conversations[convId] else Conversation([senderId, receiverId], []);
    conversations[convId := thread.(messages := Push(thread.messages, msgId))]
  }

  /**
   * Reusing a conversation of the pair, or creating one when the pair has
   * none, keeps at most one conversation per pair.
   */
  lemma SendKeepsOnePerPair(conversations: map<Id, Conversation>, senderId: Id, receiverId: Id, convId: Id, msgId: Id)
    requires OnePerPair(conversations)
    requires convId in conversations ==> Between(conversations[convId], senderId, receiverId)
    requires convId !in conversations ==> !HasConversation(conversations, senderId, receiverId)
    ensures OnePerPair(AfterSend(conversations, senderId, receiverId, convId, msgId))
  {
    var r := AfterSend(conversations, senderId, receiverId, convId, msgId);
    forall c1, c2, a, b | c1 in r && c2 in r && a != b && Between(r[c1], a, b) && Between(r[c2], a, b)
      ensures c1 == c2
    {
      if convId !in conversations && (c1 == convId || c2 == convId) {
        var other := if c1 == convId then c2 else c1;
        assert (a == senderId && b == receiverId) || (a == receiverId && b == senderId);
        if other != convId {
          assert Between(conversations[other], senderId, receiverId);
          assert false;
        }
      } else {
        assert Between(conversations[c1], a, b) && Between(conversations[c2], a, b);
      }
    }
  }

  /**
   * sendMessage. Reuses a conversation listing both ids if there is one and
   * otherwise creates `[senderId, receiverId]`; stores the message and pushes
   * its id onto the conversation's `messages` (200). The text is not checked.
   */
  method SendMessage(db: Db, senderId: Id, receiverId: Id, text: Option<string>)
    returns (status: int, convId: Id, msgId: Id)
    requires db.Valid()
    modifies db`conversations, db`messages, db`nextId
    ensures db.Valid()
    ensures status == OK
    ensures HasConversation(old(db.conversations), senderId, receiverId) ==>
      convId in old(db.conversations) && Between(old(db.conversations)[convId], senderId, receiverId)
    ensures !HasConversation(old(db.conversations), senderId, receiverId) ==> old(db.Unused(convId))
    ensures old(db.Unused(msgId)) && msgId != convId
    ensures db.messages == old(db.messages)[msgId := Message(senderId, receiverId, text)]
    ensures db.conversations == AfterSend(old(db.conversations), senderId, receiverId, convId, msgId)
    ensures db.conversations.Keys == old(db.conversations).Keys + {convId}
    ensures OnePerPair(old(db.conversations)) ==> OnePerPair(db.conversations)
  {
    ghost var conversations0 := db.conversations;
    if HasConversation(db.conversations, senderId, receiverId) {
      convId :| convId in db.conversations && Between(db.conversations[convId], senderId, receiverId);
    } else {
      convId := db.FreshId();
      db.conversations := db.conversations[convId := Conversation([senderId, receiverId], [])];
    }
    msgId := db.FreshId();
    db.messages := db.messages[msgId := Message(senderId, receiverId, text)];
    var conversation := db.conversations[convId];
    db.conversations := db.conversations[convId := conversation.(messages := Push(conversation.messages, msgId))];
    status := OK;
    if OnePerPair(conversations0) {
      SendKeepsOnePerPair(conversations0, senderId, receiverId, convId, msgId);
    }
  }

  /** The reply of getMessage: status, `success`, and the `message` field (None where it is `undefined`). */
  datatype MessageReply = MessageReply(status: int, success: bool, messages: Option<seq<Id>>)

  /** `Conversation.find(...)`: every conversation matching the pair. */
  function ConversationsBetween(conversations: map<Id, Conversation>, a: Id, b: Id): (r: map<Id, Conversation>)
    ensures forall c :: c in r <==> c in conversations && Between(conversations[c], a, b)
    ensures forall c | c in r :: r[c] == conversations[c]
  {
    map c | c in conversations && Between(conversations[c], a, b) :: conversations[c]
  }

  /**
   * getMessage as written. `find` yields an array, which is truthy even when
   * empty, so the empty reply is never sent; and an array has no `messages`
   * property, so the reply's `message` is `undefined`.
   */
  function GetMessageAsWritten(conversations: map<Id, Conversation>, senderId: Id, receiverId: Id): (r: MessageReply)
    ensures r.status == OK && r.success
    ensures r.messages.None?
  {
    var found := ConversationsBetween(conversations, senderId, receiverId);
    MessageReply(OK, true, None)
  }

  /** As written, getMessage never returns the thread of an existing conversation. */
  lemma GetMessageAsWrittenLosesThread(conversations: map<Id, Conversation>, senderId: Id, receiverId: Id, c: Id)
    requires c in conversations && Between(conversations[c], senderId, receiverId)
    ensures GetMessageAsWritten(conversations, senderId, receiverId).messages != Some(conversations[c].messages)
    ensures GetMessageAsWritten(map[], senderId, receiverId).success
  {
  }

  /**
   * getMessage as intended: the messages of the pair's conversation, or an
   * empty list with `success: false` when there is none. Nothing is written.
   */
  method GetMessage(conversations: map<Id, Conversation>, senderId: Id, receiverId: Id) returns (reply: MessageReply)
    ensures reply.status == OK
    ensures reply.success == HasConversation(conversations, senderId, receiverId)
    ensures !reply.success ==> reply.messages == Some([])
    ensures reply.success ==>
      exists c | c in conversations && Between(conversations[c], senderId, receiverId) ::
        reply.messages == Some(conversations[c].messages)
    ensures OnePerPair(conversations) && senderId != receiverId ==>
      forall c | c in conversations && Between(conversations[c], senderId, receiverId) ::
        reply.messages == Some(conversations[c].messages)
  {
    if !HasConversation(conversations, senderId, receiverId) {
      return MessageReply(OK, false, Some([]));
    }
    var c :| c in conversations && Between(conversations[c], senderId, receiverId);
    reply := MessageReply(OK, true, Some(conversations[c].messages));
  }
}
