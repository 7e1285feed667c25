/**
 * The in-memory stand-in for the database: one table per collection, each a
 * map from id to document, and the generator of fresh ids.
 */
module Store {
  import opened Models

  /** A snapshot of all five tables, for stating "nothing else changed". */
  datatype Tables = Tables(
    users: map<Id, User>,
    posts: map<Id, Post>,
    comments: map<Id, Comment>,
    conversations: map<Id, Conversation>,
    messages: map<Id, Message>)

  class Db {
    var users: map<Id, User>
    var posts: map<Id, Post>
    var comments: map<Id, Comment>
    var conversations: map<Id, Conversation>
    var messages: map<Id, Message>
    /** Every id handed out so far is below `nextId`. */
    var nextId: Id

    ghost predicate Valid()
      reads this
    {
      && (forall id | id in users :: id < nextId)
      && (forall id | id in posts :: id < nextId)
      && (forall id | id in comments :: id < nextId)
      && (forall id | id in conversations :: id < nextId)
      && (forall id | id in messages :: id < nextId)
    }

    /** `id` names no document of any collection. */
    ghost predicate Unused(id: Id)
      reads this
    {
      id !in users && id !in posts && id !in comments && id !in conversations && id !in messages
    }

    ghost function State(): Tables
      reads this
    {
      Tables(users, posts, comments, conversations, messages)
    }

    constructor ()
      ensures Valid()
      ensures State() == Tables(map[], map[], map[], map[], map[])
    {
      users, posts, comments, conversations, messages := map[], map[], map[], map[], map[];
      nextId := 0;
    }

    /** A new ObjectId: distinct from every id in use, and below the new bound. */
    method FreshId() returns (id: Id)
      requires Valid()
      modifies this`nextId
      ensures Valid() && Unused(id) && id < nextId
    {
      id := nextId;
      nextId := nextId + 1;
    }
  }
}
