/**
 * Request sequences composed from the handlers' contracts: what a client can
 * conclude about several calls in a row from the handlers' specifications.
 */
module Scenarios {
  import opened Wrappers
  import opened SeqOps
  import opened Models
  import opened Store
  import opened Integrity
  import Social
  import PostController
  import UserController
  import MessageController

  /** Two sign-ups with different emails on an empty store both succeed. */
  method RegisterPair(hash: string -> string) returns (db: Db, u1: Id, u2: Id)
    ensures fresh(db) && db.Valid() && u1 != u2
    ensures db.users == map[u1 := UserController.NewUser("ann", "ann@example.org", hash("secret1")),
                            u2 := UserController.NewUser("bob", "bob@example.org", hash("secret2"))]
    ensures db.posts == map[]
  {
    db := new Db();
    var s1, c1 := UserController.Register(db, Some("ann"), Some("ann@example.org"), Some("secret1"), hash);
    assert !EmailTaken(map[], "ann@example.org");
    assert !EmailTaken(db.users, "bob@example.org") by {
      assert db.users.Keys == {c1.value};
      assert "ann@example.org"[0] != "bob@example.org"[0];
    }
    var s2, c2 := UserController.Register(db, Some("bob"), Some("bob@example.org"), Some("secret2"), hash);
    u1, u2 := c1.value, c2.value;
  }

  /**
   * Two sign-ups, a login, a post by the first user, a like by the second and
   * the like undone: the login's token names the first user, the post starts
   * with no likes and comments, the like lists the second user once (liking
   * twice still once), and the dislike empties `likes` again.
   */
  method SignUpPostAndLike(hash: string -> string)
    returns (u1: Id, u2: Id, token: Option<Token>, post: Post, likedOnce: seq<Id>, likedTwice: seq<Id>, afterDislike: seq<Id>)
    ensures u1 != u2 && token == Some(Token(u1))
    ensures post.author == u1 && post.likes == [] && post.comments == []
    ensures likedOnce == [u2] && likedTwice == [u2] && afterDislike == []
  {
    var db;
    db, u1, u2 := RegisterPair(hash);
    assert db.users[u2].email != "ann@example.org" by { assert "ann@example.org"[0] != "bob@example.org"[0]; }
    assert EmailTaken(db.users, "ann@example.org") by { assert db.users[u1].email == "ann@example.org"; }
    var s3, tok, view := UserController.Login(db.users, db.posts, Some("ann@example.org"), Some("secret1"),
                                              (pw: string, hashed: string) => hashed == hash(pw));
    assert s3 == OK by {
      assert db.users[u1].posts == [] && PostsOwned(db.users, db.posts);
    }
    token := tok;
    var s4, pid := PostController.AddNewPost(db, u1, Some("hi"), Some("https://cdn.example.org/img.jpg"));
    var p := pid.value;
    post := db.posts[p];
    var s5 := PostController.LikePost(db, u2, p);
    likedOnce := db.posts[p].likes;
    var s6 := PostController.LikePost(db, u2, p);
    likedTwice := db.posts[p].likes;
    var s7 := PostController.DislikePost(db, u2, p);
    afterDislike := db.posts[p].likes;
  }

  /** Follow then unfollow between users who were not following each other leaves every user as before. */
  method FollowThenUnfollow(db: Db, a: Id, b: Id) returns (first: Option<bool>, second: Option<bool>)
    requires db.Valid() && a != b && a in db.users && b in db.users
    requires b !in db.users[a].following && a !in db.users[b].followers
    modifies db`users
    ensures first == Some(true) && second == Some(false)
    ensures db.users == old(db.users)
  {
    var s1, s2;
    s1, first := UserController.FollowOrUnfollow(db, a, b);
    s2, second := UserController.FollowOrUnfollow(db, a, b);
    Social.FollowThenUnfollowRestores(old(db.users), a, b);
  }

  /** A successful or partly failed delete leaves no post behind: asking again answers 404. */
  method DeleteTwice(db: Db, requester: Id, postId: Id) returns (first: int, second: int)
    requires db.Valid()
    modifies db`posts, db`users, db`comments
    ensures first == OK || first == BAD_REQUEST ==> second == NOT_FOUND
    ensures first == NOT_FOUND ==> second == NOT_FOUND
    ensures first == FORBIDDEN ==> second == FORBIDDEN
  {
    first := PostController.DeletePost(db, requester, postId);
    second := PostController.DeletePost(db, requester, postId);
  }

  /**
   * A message each way between two users without a conversation creates
   * exactly one conversation for them, holding both messages in order.
   */
  method SendBothWays(db: Db, u1: Id, u2: Id, t1: Option<string>, t2: Option<string>)
    returns (conv: Id, m1: Id, m2: Id)
    requires db.Valid() && !MessageController.HasConversation(db.conversations, u1, u2)
    modifies db`conversations, db`messages, db`nextId
    ensures conv !in old(db.conversations)
    ensures db.conversations == old(db.conversations)[conv := Conversation([u1, u2], [m1, m2])]
    ensures forall k | k in db.conversations && MessageController.Between(db.conversations[k], u1, u2) :: k == conv
    ensures db.messages == old(db.messages)[m1 := Message(u1, u2, t1)][m2 := Message(u2, u1, t2)]
  {
    var s1, s2, c2;
    s1, conv, m1 := MessageController.SendMessage(db, u1, u2, t1);
    ghost var between := db.conversations;
    assert conv !in old(db.conversations);
    assert Push([], m1) == [m1];
    assert between == old(db.conversations)[conv := Conversation([u1, u2], [m1])];
    assert MessageController.Between(db.conversations[conv], u2, u1);
    s2, c2, m2 := MessageController.SendMessage(db, u2, u1, t2);
    assert c2 == conv by {
      forall k | k in db.conversations && k != conv
        ensures !MessageController.Between(db.conversations[k], u2, u1)
      {
        assert k in old(db.conversations);
      }
    }
    assert between[conv].messages + [m2] == [m1, m2];
  }
}
