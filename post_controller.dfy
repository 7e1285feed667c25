/**
 * The post handlers: create, like, dislike, comment, delete, bookmark, and the
 * read queries of getUserPost and getAllPostComment.
 *
 * A handler whose JavaScript dereferences a lookup that came back null throws
 * a TypeError; its `catch` answers 400. Those paths are modelled as returning
 * BAD_REQUEST after whatever writes already happened.
 */
module PostController {
  import opened Wrappers
  import opened SeqOps
  import opened Models
  import opened Store
  import opened Integrity
  import Social

  /** `Post.find({ author: authorId })`, the query of getUserPost (its sort and populate are left out). */
  function PostsBy(posts: map<Id, Post>, authorId: Id): (r: map<Id, Post>)
    ensures forall p :: p in r <==> p in posts && posts[p].author == authorId
    ensures forall p | p in r :: r[p] == posts[p]
  {
    map p | p in posts && posts[p].author == authorId :: posts[p]
  }

  /** While post lists are owned, getUserPost returns every post on the user's list. */
  lemma UserPostsListed(users: map<Id, User>, posts: map<Id, Post>, u: Id)
    requires PostsOwned(users, posts) && u in users
    ensures forall p | p in users[u].posts :: p in PostsBy(posts, u) && PostsBy(posts, u)[p] == posts[p]
  {
  }

  /** `Comment.find({ post: postId })`, the query of getAllPostComment. */
  function CommentsOf(comments: map<Id, Comment>, postId: Id): (r: map<Id, Comment>)
    ensures forall c :: c in r <==> c in comments && comments[c].post == postId
    ensures forall c | c in r :: r[c] == comments[c]
  {
    map c | c in comments && comments[c].post == postId :: comments[c]
  }

  /** The comments table after `Comment.deleteMany({ post: postId })`. */
  function CommentsWithout(comments: map<Id, Comment>, postId: Id): (r: map<Id, Comment>)
    ensures forall c :: c in r <==> c in comments && comments[c].post != postId
    ensures forall c | c in r :: r[c] == comments[c]
  {
    map c | c in comments && comments[c].post != postId :: comments[c]
  }

  /** The cascade deletes exactly the comments getAllPostComment would list, and keeps the rest. */
  lemma CascadePartition(comments: map<Id, Comment>, postId: Id)
    ensures CommentsOf(comments, postId).Keys !! CommentsWithout(comments, postId).Keys
    ensures CommentsOf(comments, postId) + CommentsWithout(comments, postId) == comments
    ensures CommentsOf(CommentsWithout(comments, postId), postId) == map[]
  {
    var m := CommentsOf(comments, postId) + CommentsWithout(comments, postId);
    assert m.Keys == comments.Keys;
    assert CommentsOf(CommentsWithout(comments, postId), postId).Keys == {};
  }

  /** The bookmark list after bookmarkPost: pull the post if present, else add it to the set. */
  function ToggleBookmark(bookmarks: seq<Id>, postId: Id): (r: seq<Id>)
    ensures postId in r <==> postId !in bookmarks
    ensures forall p | p != postId :: p in r <==> p in bookmarks
    ensures NoDup(bookmarks) ==> NoDup(r)
  {
    if postId in bookmarks then
      PullKeepsNoDup(bookmarks, postId);
      Pull(bookmarks, postId)
    else
      AddToSet(bookmarks, postId)
  }

  /** The `type` field of bookmarkPost's reply: "saved" exactly when the post is bookmarked afterwards. */
  function BookmarkReport(bookmarks: seq<Id>, postId: Id): (kind: string)
    ensures kind == SAVED <==> postId in ToggleBookmark(bookmarks, postId)
    ensures kind == UNSAVED <==> postId !in ToggleBookmark(bookmarks, postId)
  {
    if postId in bookmarks then UNSAVED else SAVED
  }

  /** Two toggles from an unbookmarked post restore the list exactly. */
  lemma BookmarkTwiceRestores(bookmarks: seq<Id>, postId: Id)
    requires postId !in bookmarks
    ensures ToggleBookmark(ToggleBookmark(bookmarks, postId), postId) == bookmarks
    ensures BookmarkReport(bookmarks, postId) == SAVED
    ensures BookmarkReport(ToggleBookmark(bookmarks, postId), postId) == UNSAVED
  {
    PullAfterAddToSet(bookmarks, postId);
  }

  /** Two toggles always restore the set of bookmarked posts. */
  lemma BookmarkTwiceSameSet(bookmarks: seq<Id>, postId: Id)
    ensures forall p :: p in ToggleBookmark(ToggleBookmark(bookmarks, postId), postId) <==> p in bookmarks
  {
  }

  /**
   * addNewPost. Without an image: 401 and nothing written. Otherwise a new
   * post with the caption, the uploaded image's URL (`image`) and the caller
   * as author, and its id pushed onto the author's `posts` only when the
   * author document exists.
   */
  method AddNewPost(db: Db, authorId: Id, caption: Option<string>, image: Option<string>)
    returns (status: int, created: Option<Id>)
    requires db.Valid()
    modifies db`posts, db`users, db`nextId
    ensures db.Valid()
    ensures image.None? ==> status == UNAUTHORIZED && created.None? && unchanged(db)
    ensures image.Some? ==> status == CREATED && created.Some? && old(db.Unused(created.value))
    ensures image.Some? ==>
      var pid := created.value;
      && db.posts == old(db.posts)[pid := Post(caption, image.value, authorId, [], [])]
      && db.users == (if authorId in old(db.users)
                      then old(db.users)[authorId := old(db.users)[authorId].(posts := Push(old(db.users)[authorId].posts, pid))]
                      else old(db.users))
    ensures Consistent(old(db.users), old(db.posts)) ==> Consistent(db.users, db.posts)
  {
    if image.None? {
      return UNAUTHORIZED, None;
    }
    ghost var users0, posts0 := db.users, db.posts;
    var pid := db.FreshId();
    db.posts := db.posts[pid := Post(caption, image.value, authorId, [], [])];
    if authorId in db.users {
      var user := db.users[authorId];
      db.users := db.users[authorId := user.(posts := Push(user.posts, pid))];
    }
    status, created := CREATED, Some(pid);
    if Consistent(users0, posts0) {
      AddPostKeepsConsistent(users0, posts0, pid, Post(caption, image.value, authorId, [], []));
    }
  }

  /** likePost: 404 for a missing post; otherwise `$addToSet` of the caller on `likes`. */
  method LikePost(db: Db, userId: Id, postId: Id) returns (status: int)
    requires db.Valid()
    modifies db`posts
    ensures db.Valid()
    ensures status == (if postId in old(db.posts) then OK else NOT_FOUND)
    ensures db.posts == if postId in old(db.posts)
      then old(db.posts)[postId := old(db.posts)[postId].(likes := AddToSet(old(db.posts)[postId].likes, userId))]
      else old(db.posts)
    ensures Consistent(old(db.users), old(db.posts)) ==> Consistent(db.users, db.posts)
  {
    if postId !in db.posts {
      return NOT_FOUND;
    }
    var post := db.posts[postId];
    db.posts := db.posts[postId := post.(likes := AddToSet(post.likes, userId))];
    status := OK;
    PostAuthorsFrame(db.users, old(db.posts), db.posts);
  }

  /** dislikePost: 404 for a missing post; otherwise `$pull` of the caller from `likes`. */
  method DislikePost(db: Db, userId: Id, postId: Id) returns (status: int)
    requires db.Valid()
    modifies db`posts
    ensures db.Valid()
    ensures status == (if postId in old(db.posts) then OK else NOT_FOUND)
    ensures db.posts == if postId in old(db.posts)
      then old(db.posts)[postId := old(db.posts)[postId].(likes := Pull(old(db.posts)[postId].likes, userId))]
      else old(db.posts)
    ensures Consistent(old(db.users), old(db.posts)) ==> Consistent(db.users, db.posts)
  {
    if postId !in db.posts {
      return NOT_FOUND;
    }
    var post := db.posts[postId];
    db.posts := db.posts[postId := post.(likes := Pull(post.likes, userId))];
    status := OK;
    PostAuthorsFrame(db.users, old(db.posts), db.posts);
  }

  /**
   * addComment. Empty or missing text: 400 and nothing written. Otherwise the
   * comment is stored first (`created`); if the post exists its id is pushed
   * onto `post.comments` and the answer is 200, and if it does not the push
   * throws and the answer is 400 with the comment left behind.
   */
  method AddComment(db: Db, userId: Id, postId: Id, text: Option<string>)
    returns (status: int, created: Option<Id>)
    requires db.Valid()
    modifies db`comments, db`posts, db`nextId
    ensures db.Valid()
    ensures !Truthy(text) ==> status == BAD_REQUEST && created.None? && unchanged(db)
    ensures Truthy(text) ==>
      && created.Some? && old(db.Unused(created.value))
      && db.comments == old(db.comments)[created.value := Comment(text.value, userId, postId)]
    ensures Truthy(text) && postId in old(db.posts) ==>
      && status == OK
      && db.posts == old(db.posts)[postId := old(db.posts)[postId].(comments := Push(old(db.posts)[postId].comments, created.value))]
    ensures Truthy(text) && postId !in old(db.posts) ==> status == BAD_REQUEST && db.posts == old(db.posts)
    ensures Consistent(old(db.users), old(db.posts)) ==> Consistent(db.users, db.posts)
  {
    if !Truthy(text) {
      return BAD_REQUEST, None;
    }
    var cid := db.FreshId();
    db.comments := db.comments[cid := Comment(text.value, userId, postId)];
    created := Some(cid);
    if postId !in db.posts {
      return BAD_REQUEST, created;
    }
    var post := db.posts[postId];
    db.posts := db.posts[postId := post.(comments := Push(post.comments, cid))];
    status := OK;
    PostAuthorsFrame(db.users, old(db.posts), db.posts);
  }

  /**
   * deletePost. 404 for a missing post and 403 for a caller who is not its
   * author, each with nothing written. Otherwise the post is deleted; then,
   * if the author document exists, the id is filtered out of its `posts` and
   * the post's comments are deleted (200); if it does not, `user.posts`
   * throws after the post is gone (400).
   */
  method DeletePost(db: Db, requester: Id, postId: Id) returns (status: int)
    requires db.Valid()
    modifies db`posts, db`users, db`comments
    ensures db.Valid()
    ensures postId !in old(db.posts) ==> status == NOT_FOUND && unchanged(db)
    ensures postId in old(db.posts) && old(db.posts)[postId].author != requester ==>
      status == FORBIDDEN && unchanged(db)
    ensures postId in old(db.posts) && old(db.posts)[postId].author == requester ==>
      db.posts == old(db.posts) - {postId}
    ensures postId in old(db.posts) && old(db.posts)[postId].author == requester && requester in old(db.users) ==>
      && status == OK
      && db.users == old(db.users)[requester := old(db.users)[requester].(posts := Pull(old(db.users)[requester].posts, postId))]
      && db.comments == CommentsWithout(old(db.comments), postId)
    ensures postId in old(db.posts) && old(db.posts)[postId].author == requester && requester !in old(db.users) ==>
      status == BAD_REQUEST && db.users == old(db.users) && db.comments == old(db.comments)
    ensures Consistent(old(db.users), old(db.posts)) ==> Consistent(db.users, db.posts)
  {
    if postId !in db.posts {
      return NOT_FOUND;
    }
    if db.posts[postId].author != requester {
      return FORBIDDEN;
    }
    if Consistent(db.users, db.posts) {
      DeletePostKeepsConsistent(db.users, db.posts, postId);
    }
    db.posts := db.posts - {postId};
    if requester !in db.users {
      return BAD_REQUEST;
    }
    var user := db.users[requester];
    db.users := db.users[requester := user.(posts := Pull(user.posts, postId))];
    db.comments := CommentsWithout(db.comments, postId);
    status := OK;
  }

  /**
   * bookmarkPost. 404 for a missing post. A missing caller document throws
   * at `user.bookmarks` (400). Otherwise the bookmark is toggled and the reply
   * says "unsaved" if it was there and "saved" if it was not.
   */
  method BookmarkPost(db: Db, userId: Id, postId: Id) returns (status: int, kind: Option<string>)
    requires db.Valid()
    modifies db`users
    ensures db.Valid()
    ensures postId !in old(db.posts) ==> status == NOT_FOUND && kind.None? && unchanged(db)
    ensures postId in old(db.posts) && userId !in old(db.users) ==>
      status == BAD_REQUEST && kind.None? && unchanged(db)
    ensures postId in old(db.posts) && userId in old(db.users) ==>
      && status == OK
      && kind == Some(BookmarkReport(old(db.users)[userId].bookmarks, postId))
      && db.users == old(db.users)[userId := old(db.users)[userId].(bookmarks := ToggleBookmark(old(db.users)[userId].bookmarks, postId))]
    ensures Consistent(old(db.users), old(db.posts)) ==> Consistent(db.users, db.posts)
  {
    if postId !in db.posts {
      return NOT_FOUND, None;
    }
    if userId !in db.users {
      return BAD_REQUEST, None;
    }
    ghost var users0 := db.users;
    var user := db.users[userId];
    if postId in user.bookmarks {
      db.users := db.users[userId := user.(bookmarks := Pull(user.bookmarks, postId))];
      status, kind := OK, Some(UNSAVED);
    } else {
      db.users := db.users[userId := user.(bookmarks := AddToSet(user.bookmarks, postId))];
      status, kind := OK, Some(SAVED);
    }
    UserFieldsFrame(users0, db.users, db.posts);
  }
}
