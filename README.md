# Social-media backend controllers, modelled in Dafny

This project models the three request-handler modules of a small
social-media backend (an Instagram clone on Express and Mongoose):

- `controllers/post.controller.js`: creating, liking, disliking,
  commenting, deleting and bookmarking posts, and the queries that list a
  user's posts and a post's comments;
- `controllers/user.controller.js`: sign-up, login, profile edits,
  suggested users and the follow/unfollow toggle;
- `controllers/message.controller.js`: sending a direct message and reading
  a conversation back.

The document database is an in-memory store, `Store.Db`. It is a class
whose fields are one map per collection (`users`, `posts`, `comments`,
`conversations`, `messages`), keyed by document id. A counter `nextId`
stands in for ObjectId generation, and `Db.Valid()` says that every stored
id lies below it. Each handler is a method. It takes the authenticated
caller's id (`req.id`) and the route and body parameters, returns the HTTP
status code the handler sends, and changes only the tables named in its
`modifies` clause. Its `ensures` clauses state the complete new content of
those tables on every path, and that nothing is written on a rejected
request.

The Mongoose array operators are functions on sequences in `SeqOps`:

- `$push` and `Array.push` are `Push`;
- `$addToSet` is `AddToSet`;
- `$pull` and the `filter` of deletePost are both `Pull`.

Request-body fields that JavaScript tests for truthiness are
`Option<string>`. `Wrappers.Truthy` holds when such a field is present and
not empty.

Three invariants tie documents together across collections:

- `Social.GraphOk`: `following` and `followers` mirror each other and hold
  no duplicates.
- `Integrity.PostsOwned`: every id on a user's `posts` list is a stored post
  written by that user.
- `Integrity.EmailsDistinct`: no two users share an email.

Each mutating handler is proved to preserve `Integrity.Consistent`, the
conjunction of the three. `MessageController.OnePerPair` says a pair of
users has at most one conversation, and sendMessage preserves it.

### Behaviour as written

The model follows the JavaScript. In several places the code's status
codes and effects are worth noting:

- A missing or empty register field gets 401.
- A missing image in addNewPost gets 401.
- A missing user on either side of followOrUnfollow gets 401.
- addNewPost appends the new post to the author's list only when the
  author document exists; otherwise it still creates the post and answers
  201.
- addComment looks the post up but checks only the text. For a missing
  post it stores the comment, then throws on `post.comments` and answers
  400, leaving an orphan comment behind.
- deletePost deletes the post before it loads the author. If the author
  document is gone, it throws after the delete (400), so the post's
  comments stay.
- bookmarkPost throws on a missing caller document (400).
- login throws at `post.author` when the user's list holds an id with no
  post. The whole `Promise.all` then fails, and the answer is 400 with no
  token issued.
- The `!comments` test in getAllPostComment and the `!suggestedUsers` test
  in suggestedUsers check the array `find` returns. An array is always
  truthy, so their 404 replies can never be sent, and the model's queries
  return the matching documents (possibly none).
- Follow uses `$push`, not `$addToSet`. On a graph that is already
  asymmetric it can create duplicates: `Social.FollowOnAsymmetricGraphDuplicates`
  exhibits this. On a consistent graph it cannot.
- sendMessage matches a conversation with `$all` on both ids, in either
  order. A user writing to themself matches any conversation they take
  part in.

## Model

| member | source | states |
|---|---|---|
| SeqOps.Push | controllers/user.controller.js:263-267 | `$push` and `Array.push`: the old list followed by the value, one longer, with the value's multiplicity raised by one |
| SeqOps.AddToSet | controllers/post.controller.js:124 | `$addToSet`: the value is in the result; nothing else is added; an existing list is left unchanged; the old list is a prefix; it occurs exactly once when it was absent; no duplicates are introduced |
| SeqOps.Pull | controllers/post.controller.js:154 | `$pull`: the value is gone; every other element keeps its membership and multiplicity; a list without the value is returned unchanged |
| SeqOps.PullAfterAddToSet | controllers/post.controller.js:124-154 | a like followed by a dislike, from a user who had not liked, restores `likes` exactly |
| SeqOps.AddToSetIdempotent | controllers/post.controller.js:124 | liking twice is the same as liking once; the liker then appears exactly once |
| SeqOps.PullKeepsNoDup | controllers/user.controller.js:244-251 | pulling from a duplicate-free list keeps it duplicate-free |
| PostController.PostsBy | controllers/post.controller.js:90 | getUserPost's query yields exactly the stored posts whose author is the caller, unchanged |
| PostController.UserPostsListed | controllers/post.controller.js:90 | while post lists are owned, every post on a user's `posts` list is among getUserPost's results |
| PostController.CommentsOf | controllers/post.controller.js:210 | getAllPostComment's query yields exactly the comments whose `post` is the given id |
| PostController.CommentsWithout | controllers/post.controller.js:263 | the cascade's `deleteMany` keeps exactly the comments whose `post` differs from the deleted id |
| PostController.CascadePartition | controllers/post.controller.js:263 | the deleted and the kept comments are disjoint and together make up the old table; no comment of the post survives the cascade |
| PostController.ToggleBookmark | controllers/post.controller.js:291-302 | the post is bookmarked afterwards iff it was not before; the other bookmarks keep their membership; a duplicate-free list stays duplicate-free |
| PostController.BookmarkReport | controllers/post.controller.js:291-308 | the reply type is "saved" iff the post is bookmarked afterwards, and "unsaved" iff it is not |
| PostController.BookmarkTwiceRestores | controllers/post.controller.js:291-308 | two bookmark calls on an unbookmarked post restore the list exactly, reporting "saved" then "unsaved" |
| PostController.BookmarkTwiceSameSet | controllers/post.controller.js:291-308 | two bookmark calls always restore the set of bookmarked posts |
| PostController.AddNewPost | controllers/post.controller.js:12-42 | no image: 401 and nothing written. Otherwise 201 and a fresh post with the caption, the URL and the caller as author, its likes and comments empty. The id is appended to the author's `posts` only if the author exists; other users are unchanged. The invariants are kept |
| PostController.LikePost | controllers/post.controller.js:116-124 | missing post: 404 and nothing written; otherwise 200 and only that post's `likes` changes, by `AddToSet`; the invariants are kept |
| PostController.DislikePost | controllers/post.controller.js:146-155 | missing post: 404 and nothing written; otherwise 200 and only that post's `likes` changes, by `Pull`; the invariants are kept |
| PostController.AddComment | controllers/post.controller.js:171-203 | falsy text: 400 and nothing written. Otherwise a fresh comment is stored. With the post present: 200 and the comment id appended to its `comments`. With the post missing: the comment stays and the answer is 400. The invariants are kept |
| PostController.DeletePost | controllers/post.controller.js:239-263 | missing post: 404; non-author: 403; in both cases nothing is written. Otherwise the post is deleted. With the author present: 200, the id filtered from the author's `posts` and exactly the post's comments deleted. With the author missing: 400, users and comments unchanged. The invariants are kept |
| PostController.BookmarkPost | controllers/post.controller.js:282-309 | missing post: 404; missing caller: 400; in both cases nothing is written. Otherwise 200, the caller's bookmarks toggled and the reply type reported. Nothing else changes and the invariants are kept |
| UserController.Register | controllers/user.controller.js:11-31 | a falsy field or an email already taken: 401 and nothing written. Otherwise 201 and a fresh user with the hashed password and empty lists. Emails stay distinct and the invariants are kept |
| UserController.PopulatePosts | controllers/user.controller.js:77-85 | login's mapping succeeds iff every listed id is a stored post. It then has one entry per id, in order: the post when the user wrote it, null otherwise |
| UserController.LoginPostsAllOwn | controllers/user.controller.js:77-85 | while post lists are owned, login's mapping succeeds and every entry is the listed post itself |
| UserController.Login | controllers/user.controller.js:49-98 | missing fields, an unknown email or a failed comparison: 401 and no token. On success: a token for a user with that email whose password matches, and the password-free view with posts mapped. 400 only when such a user's own post mapping fails. With distinct emails, 401 is given iff no user with that email matches the password, and 400 iff the matching user's mapping fails. 400 is impossible while lists are owned |
| UserController.ApplyEdits | controllers/user.controller.js:172-174 | bio and gender are overwritten iff given and non-empty, the picture iff a file was uploaded; every other field is unchanged |
| UserController.ApplyEditsIdempotent | controllers/user.controller.js:172-174 | applying the same edit twice equals applying it once |
| UserController.EditProfile | controllers/user.controller.js:164-175 | missing user: 404 and nothing written; otherwise 200, only that user's profile fields change and the user is returned without password; the invariants are kept |
| UserController.SuggestedUsers | controllers/user.controller.js:193-195 | every user except the caller, each without its password |
| UserController.FollowToggleKeepsConsistent | controllers/user.controller.js:240-269 | the follow toggle keeps the graph, post ownership and distinct emails |
| UserController.FollowOrUnfollow | controllers/user.controller.js:222-269 | self-follow: 400; a missing user on either side: 401; in both cases nothing is written. Otherwise 200, the result of `FollowToggle`, and a report of whether it was a follow; the invariants are kept |
| Social.FollowToggle | controllers/user.controller.js:240-269 | the target is in the actor's `following` afterwards iff it was not before, and the actor is in the target's `followers` likewise. Only those two lists change; every other element and every other user are unchanged |
| Social.FollowToggleKeepsGraph | controllers/user.controller.js:240-269 | from a consistent, duplicate-free graph, the toggle yields one again |
| Social.FollowThenUnfollowRestores | controllers/user.controller.js:240-269 | follow then unfollow from not-following restores every user exactly |
| Social.UnfollowThenFollowSameGraph | controllers/user.controller.js:240-269 | unfollow then follow restores the follow relation as a set of edges; the order within the lists may differ |
| Social.FollowOnAsymmetricGraphDuplicates | controllers/user.controller.js:263-267 | when the target already lists the actor as a follower but the actor does not follow, a follow duplicates the actor in `followers` |
| MessageController.BetweenUnordered | controllers/message.controller.js:10-12 | the conversation lookup does not depend on which user is the sender |
| MessageController.AfterSend | controllers/message.controller.js:14-27 | sendMessage's conversation writes: exactly the used conversation id is added or updated. A reused conversation keeps its participants and gets the message id appended last; a new one is `[sender, receiver]` holding only that id; every other conversation is unchanged |
| MessageController.SendKeepsOnePerPair | controllers/message.controller.js:10-27 | reusing the pair's conversation, or creating one only when there is none, keeps at most one conversation per pair |
| MessageController.SendMessage | controllers/message.controller.js:10-27 | always 200. An existing conversation of the pair is reused, otherwise one conversation `[sender, receiver]` is created. A fresh message is stored and its id appended last to that conversation's `messages`; the earlier messages and other conversations are unchanged. At most one conversation per pair is kept |
| MessageController.ConversationsBetween | controllers/message.controller.js:48-50 | getMessage's `find` yields exactly the conversations listing both users |
| MessageController.GetMessageAsWritten | controllers/message.controller.js:48-61 | as written: whatever the store holds, the reply is 200 with `success: true` and no `message` field, since `find` yields an always-truthy array without a `messages` property |
| MessageController.GetMessageAsWrittenLosesThread | controllers/message.controller.js:48-61 | as written, the reply never carries an existing conversation's messages, and it claims success even with no conversation |
| MessageController.GetMessage | controllers/message.controller.js:48-61 | corrected: success iff the pair has a conversation. It then returns that conversation's messages; it is the unique one when conversations are one per pair. Otherwise an empty list |
| Store.Db.FreshId | controllers/post.controller.js:32-36 | a new document id (the `_id` that `Post.create`, and every other `create`, assigns) is used by no table, and the tables are unchanged |
| Scenarios.RegisterPair | controllers/user.controller.js:11-31 | two sign-ups with different emails on an empty store create exactly two distinct users |
| Scenarios.SignUpPostAndLike | controllers/post.controller.js:112-155 | after two sign-ups and a login, the first user's token names them. Their new post starts with no likes or comments. One like and a repeated like both leave exactly `[liker]`, and a dislike empties `likes` |
| Scenarios.FollowThenUnfollow | controllers/user.controller.js:222-269 | follow then unfollow through the handler reports a follow, then an unfollow, and leaves the users table as it was |
| Scenarios.DeleteTwice | controllers/post.controller.js:239-263 | after a delete that got past the author check, a second delete answers 404; a 404 or 403 repeats |
| Scenarios.SendBothWays | controllers/message.controller.js:10-27 | a message each way between users without a conversation creates exactly one conversation for them, holding both messages in order |

## Left out

- `index.js`, `routes/` and `database/db.js` (server setup, routing, the database connection) are wiring and are not modelled.
- `middlewares/isAuthenticated.js` is not part of this model. Every handler receives the authenticated caller's id as a parameter, and the 401 for a missing, invalid or expired token is not modelled, because token verification is a foreign library.
- Image resizing (sharp) and upload (Cloudinary) are foreign calls. The resulting URL is a parameter, `None` when no file was sent. The upload editPorifle performs before its user lookup has no effect in the store.
- bcrypt and jsonwebtoken are foreign calls. `hash` and `matches` are function parameters, the token is only its `user` claim (`Models.Token`), and the cookie's attributes and the 7-day expiry are not modelled.
- getAllPost, getProfile and logOut are not modelled. They only read, or only overwrite the cookie, and write nothing.
- Sorting by creation time and `populate` of authors and comments are left out. Query results are maps, with no order.
- Concurrency is not modelled. Each handler is one atomic step, including the two updates of a `Promise.all`, so a failure between them and interleavings of concurrent requests are not captured.
- The `catch` branches for database and network failures, console logging, and the message text of each reply are not modelled. dislikePost's `catch` sends no reply; that path is a store failure and is not reachable in the model.
- `models/` (the Mongoose schemas) is not part of this model. Defaults are taken as empty strings and empty lists, and schema validation, enums and timestamps are not modelled.
- Ids are abstract naturals, so the CastError an ill-formed ObjectId raises (400) is not modelled, and neither is the string/ObjectId distinction in `includes` and `toString`.
- Request fields are strings or absent. Other JSON values in a body field are not modelled.
- UserController.Login: `User.findOne` may return any user with the email. The model chooses any match, so with duplicate emails the contract does not fix which user logs in.
- MessageController.SendMessage: `Conversation.findOne` may return any matching conversation. The model chooses any match, so with several conversations for a pair the contract does not fix which one receives the message.
- Social.FollowToggle: two toggles from following restore the relation but not the exact list order (`Social.UnfollowThenFollowSameGraph`), because `$push` appends at the end.

## Findings

| source | as written | input that shows it | evidently intended | confidence | as-written member | corrected member |
|---|---|---|---|---|---|---|
| controllers/message.controller.js:48-61 | `Conversation.find` returns an array. `!conversation` is never true, and `conversation?.messages` is `undefined`, so the reply is always `success: true` with no messages | a store holding `Conversation([u1, u2], [m])`, and GET messages from u1 to u2: the reply holds no `[m]`; the same with an empty store still answers `success: true` | `findOne`: reply with the conversation's `messages`, or an empty list and `success: false` when the pair has no conversation | high; not executed | MessageController.GetMessageAsWritten, exhibited by MessageController.GetMessageAsWrittenLosesThread | MessageController.GetMessage |
