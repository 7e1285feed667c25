/**
 * Cross-document invariants that every handler preserves: the follow graph
 * is consistent, a user's post list names only posts they wrote, and no two
 * users share an email.
 */
module Integrity {
  import opened Models
  import Social
  import SeqOps

  /** Every id in a user's `posts` is a stored post with that user as author. */
  ghost predicate PostsOwned(users: map<Id, User>, posts: map<Id, Post>) {
    forall u, p | u in users && p in users[u].posts :: p in posts && posts[p].author == u
  }

  ghost predicate EmailsDistinct(users: map<Id, User>) {
    forall u, v | u in users && v in users && u != v :: users[u].email != users[v].email
  }

  ghost predicate Consistent(users: map<Id, User>, posts: map<Id, Post>) {
    Social.GraphOk(users) && PostsOwned(users, posts) && EmailsDistinct(users)
  }

  /** Some user already has email `e` (`User.findOne({ email })` finds a document). */
  predicate EmailTaken(users: map<Id, User>, e: string) {
    exists u | u in users :: users[u].email == e
  }

  /** Changing fields other than `following`, `followers` and `email` keeps the graph and the emails. */
  lemma GraphAndEmailsFrame(before: map<Id, User>, after: map<Id, User>)
    requires before.Keys == after.Keys
    requires forall u | u in before ::
      after[u].following == before[u].following && after[u].followers == before[u].followers
      && after[u].email == before[u].email
    ensures Social.GraphOk(before) ==> Social.GraphOk(after)
    ensures EmailsDistinct(before) ==> EmailsDistinct(after)
  {
  }

  /** Changing only profile fields or bookmarks of users keeps every invariant. */
  lemma UserFieldsFrame(before: map<Id, User>, after: map<Id, User>, posts: map<Id, Post>)
    requires before.Keys == after.Keys
    requires forall u | u in before ::
      after[u].following == before[u].following && after[u].followers == before[u].followers
      && after[u].email == before[u].email && after[u].posts == before[u].posts
    ensures Consistent(before, posts) ==> Consistent(after, posts)
  {
    GraphAndEmailsFrame(before, after);
  }

  /** Keeping every user's `posts` and `email` keeps post ownership and distinct emails. */
  lemma PostsAndEmailsFrame(before: map<Id, User>, after: map<Id, User>, posts: map<Id, Post>)
    requires before.Keys == after.Keys
    requires forall u | u in before :: after[u].posts == before[u].posts && after[u].email == before[u].email
    ensures PostsOwned(before, posts) ==> PostsOwned(after, posts)
    ensures EmailsDistinct(before) ==> EmailsDistinct(after)
  {
  }

  /** Keeping every stored post and its author keeps post ownership. */
  lemma PostAuthorsFrame(users: map<Id, User>, before: map<Id, Post>, after: map<Id, Post>)
    requires forall p | p in before :: p in after && after[p].author == before[p].author
    ensures Consistent(users, before) ==> Consistent(users, after)
  {
  }

  /** A new post, listed only on its author's `posts`, keeps every invariant. */
  lemma AddPostKeepsConsistent(users: map<Id, User>, posts: map<Id, Post>, pid: Id, post: Post)
    requires pid !in posts
    requires Consistent(users, posts)
    ensures Consistent(users, posts[pid := post])
    ensures post.author in users ==>
      Consistent(users[post.author := users[post.author].(posts := users[post.author].posts + [pid])], posts[pid := post])
  {
    var posts' := posts[pid := post];
    PostAuthorsFrame(users, posts, posts');
    if post.author in users {
      var a := post.author;
      var users' := users[a := users[a].(posts := users[a].posts + [pid])];
      GraphAndEmailsFrame(users, users');
      forall u, p | u in users' && p in users'[u].posts ensures p in posts' && posts'[p].author == u {
        if u != a || p != pid {
          assert p in users[u].posts;
        }
      }
    }
  }

  /** Deleting a post and filtering it out of its author's list keeps every invariant. */
  lemma DeletePostKeepsConsistent(users: map<Id, User>, posts: map<Id, Post>, pid: Id)
    requires pid in posts
    requires Consistent(users, posts)
    ensures posts[pid].author !in users ==> Consistent(users, posts - {pid})
    ensures posts[pid].author in users ==>
      var a := posts[pid].author;
      Consistent(users[a := users[a].(posts := SeqOps.Pull(users[a].posts, pid))], posts - {pid})
  {
    var a := posts[pid].author;
    if a in users {
      var users' := users[a := users[a].(posts := SeqOps.Pull(users[a].posts, pid))];
      GraphAndEmailsFrame(users, users');
      OwnedAfterDelete(users, posts, pid, users');
    } else {
      OwnedAfterDelete(users, posts, pid, users);
    }
  }

  /** Post ownership after the delete, when the author's list (if any) no longer holds the id. */
  lemma OwnedAfterDelete(users: map<Id, User>, posts: map<Id, Post>, pid: Id, users': map<Id, User>)
    requires pid in posts && PostsOwned(users, posts)
    requires users'.Keys == users.Keys
    requires forall u | u in users :: u == posts[pid].author || users'[u] == users[u]
    requires posts[pid].author in users ==>
      users'[posts[pid].author].posts == SeqOps.Pull(users[posts[pid].author].posts, pid)
    ensures PostsOwned(users', posts - {pid})
  {
    var a := posts[pid].author;
    forall u, p | u in users' && p in users'[u].posts ensures p in posts - {pid} && posts[p].author == u {
      if u == a {
        assert p in users[u].posts && p != pid;
      } else {
        assert p in users[u].posts;
      }
    }
  }
}
