/**
 * The five document kinds the handlers read and write, the HTTP status codes
 * they answer with, and the session claim a successful login signs.
 *
 * Ids stand for MongoDB ObjectIds. Every reference between documents is an id;
 * nothing guarantees that a referenced document exists.
 */
module Models {
  import opened Wrappers

  type Id = nat

  const OK := 200
  const CREATED := 201
  const BAD_REQUEST := 400
  const UNAUTHORIZED := 401
  const FORBIDDEN := 403
  const NOT_FOUND := 404

  /** The `type` field of a bookmark reply. */
  const SAVED := "saved"
  const UNSAVED := "unsaved"

  /** A user document; `password` holds the hash, never the plain text. */
  datatype User = User(
    username: string,
    email: string,
    password: string,
    bio: string,
    gender: string,
    profilePicture: string,
    followers: seq<Id>,
    following: seq<Id>,
    posts: seq<Id>,
    bookmarks: seq<Id>)

  /** A post document; `caption` is stored as the request gave it, possibly absent. */
  datatype Post = Post(
    caption: Option<string>,
    image: string,
    author: Id,
    likes: seq<Id>,
    comments: seq<Id>)

  datatype Comment = Comment(text: string, author: Id, post: Id)

  datatype Conversation = Conversation(participants: seq<Id>, messages: seq<Id>)

  /** A message document; the handler stores the request's text without checking it. */
  datatype Message = Message(senderId: Id, receiverId: Id, message: Option<string>)

  /** The claim `{ user: _id }` that login signs into the session cookie. */
  datatype Token = Token(user: Id)

  /** A user as the handlers send it out after `select("-password")`. */
  datatype Profile = Profile(
    id: Id,
    username: string,
    email: string,
    bio: string,
    gender: string,
    profilePicture: string,
    followers: seq<Id>,
    following: seq<Id>,
    posts: seq<Id>,
    bookmarks: seq<Id>)

  /** The user object login returns: the profile with each post id replaced by the post or null. */
  datatype LoginView = LoginView(
    id: Id,
    username: string,
    email: string,
    profilePicture: string,
    bio: string,
    gender: string,
    followers: seq<Id>,
    following: seq<Id>,
    posts: seq<Option<Post>>,
    bookmarks: seq<Id>)

  /** A user document as `select("-password")` returns it. */
  function ProfileOf(id: Id, u: User): (r: Profile) {
    Profile(id, u.username, u.email, u.bio, u.gender, u.profilePicture,
            u.followers, u.following, u.posts, u.bookmarks)
  }
}
