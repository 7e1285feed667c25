/**
 * The user handlers: register, login, edit profile, suggested users and the
 * follow/unfollow toggle.
 *
 * The three foreign calls are parameters: `hash` stands for `bcrypt.hash`,
 * `matches` for `bcrypt.compare`, and the URL a profile picture upload
 * returned is passed in as `picture`. The signed token is its claim only.
 */
module UserController {
  import opened Wrappers
  import opened SeqOps
  import opened Models
  import opened Store
  import opened Integrity
  import opened Social

  /** The document register creates: the given name, email and hash, and empty profile and lists. */
  function NewUser(username: string, email: string, hashed: string): (r: User) {
    User(username, email, hashed, "", "", "", [], [], [], [])
  }

  /** A new user with empty lists and an unused email keeps every invariant. */
  lemma AddUserKeepsConsistent(users: map<Id, User>, posts: map<Id, Post>, id: Id, user: User)
    requires id !in users
    requires user.following == [] && user.followers == [] && user.posts == []
    requires !EmailTaken(users, user.email)
    requires Consistent(users, posts)
    ensures Consistent(users[id := user], posts)
  {
    var users' := users[id := user];
    forall a, b | a in users' && b in users'[a].following ensures b in users' && a in users'[b].followers {
      assert a != id && b in users[a].following;
    }
    forall a, b | a in users' && b in users'[a].followers ensures b in users' && a in users'[b].following {
      assert a != id && b in users[a].followers;
    }
  }

  /**
   * register. Any of username, email or password missing or empty: 401. An
   * email some user already has: 401. Either way nothing is written.
   * Otherwise a new user with the hashed password (201).
   */
  method Register(db: Db, username: Option<string>, email: Option<string>, password: Option<string>,
                  hash: string -> string)
    returns (status: int, created: Option<Id>)
    requires db.Valid()
    modifies db`users, db`nextId
    ensures db.Valid()
    ensures !(Truthy(username) && Truthy(email) && Truthy(password)) ==>
      status == UNAUTHORIZED && created.None? && unchanged(db)
    ensures Truthy(username) && Truthy(email) && Truthy(password) && EmailTaken(old(db.users), email.value) ==>
      status == UNAUTHORIZED && created.None? && unchanged(db)
    ensures Truthy(username) && Truthy(email) && Truthy(password) && !EmailTaken(old(db.users), email.value) ==>
      && status == CREATED && created.Some? && old(db.Unused(created.value))
      && db.users == old(db.users)[created.value := NewUser(username.value, email.value, hash(password.value))]
    ensures EmailsDistinct(old(db.users)) ==> EmailsDistinct(db.users)
    ensures Consistent(old(db.users), db.posts) ==> Consistent(db.users, db.posts)
  {
    if !Truthy(username) || !Truthy(email) || !Truthy(password) {
      return UNAUTHORIZED, None;
    }
    if EmailTaken(db.users, email.value) {
      return UNAUTHORIZED, None;
    }
    var hashed := hash(password.value);
    var id := db.FreshId();
    if Consistent(db.users, db.posts) {
      AddUserKeepsConsistent(db.users, db.posts, id, NewUser(username.value, email.value, hashed));
    }
    db.users := db.users[id := NewUser(username.value, email.value, hashed)];
    status, created := CREATED, Some(id);
  }

  /**
   * The `user.posts.map(...)` of login: each id becomes its post when the
   * user wrote it and null otherwise. A dangling id makes `post.author`
   * throw, which fails the whole `Promise.all` (None).
   */
  function PopulatePosts(posts: map<Id, Post>, owner: Id, ids: seq<Id>): (r: Option<seq<Option<Post>>>)
    ensures r.Some? <==> forall i | 0 <= i < |ids| :: ids[i] in posts
    ensures r.Some? ==> |r.value| == |ids|
    ensures r.Some? ==> forall i | 0 <= i < |ids| ::
      r.value[i] == if posts[ids[i]].author == owner then Some(posts[ids[i]]) else None
    decreases |ids|
  {
    if ids == [] then Some([])
    else if ids[0] !in posts then None
    else
      match PopulatePosts(posts, owner, ids[1..])
      case None => None
      case Some(rest) =>
        Some([if posts[ids[0]].author == owner then Some(posts[ids[0]]) else None] + rest)
  }

  /** While post lists are owned, login's mapping succeeds and yields no null. */
  lemma LoginPostsAllOwn(users: map<Id, User>, posts: map<Id, Post>, u: Id)
    requires PostsOwned(users, posts) && u in users
    ensures var r := PopulatePosts(posts, u, users[u].posts);
      r.Some? && forall i | 0 <= i < |r.value| :: r.value[i] == Some(posts[users[u].posts[i]])
  {
  }

  /** The `user` object login replies with: the document's fields without the password, posts mapped. */
  function LoginViewOf(id: Id, u: User, populated: seq<Option<Post>>): (r: LoginView) {
    LoginView(id, u.username, u.email, u.profilePicture, u.bio, u.gender,
              u.followers, u.following, populated, u.bookmarks)
  }

  /**
   * login. Missing email or password, an unknown email, or a failed password
   * comparison: 401 and no token. On success a token for the matched user
   * and the user with its posts mapped; a dangling post id fails the mapping
   * (400, no token issued). It reads the users and posts tables and writes nothing.
   */
  method Login(users: map<Id, User>, posts: map<Id, Post>, email: Option<string>, password: Option<string>, matches: (string, string) -> bool)
    returns (status: int, token: Option<Token>, view: Option<LoginView>)
    ensures status == OK || status == UNAUTHORIZED || status == BAD_REQUEST
    ensures status != OK ==> token.None? && view.None?
    ensures !Truthy(email) || !Truthy(password) || !EmailTaken(users, email.value) ==> status == UNAUTHORIZED
    ensures status == OK ==>
      && token.Some? && token.value.user in users
      && var u := token.value.user;
      && users[u].email == email.value
      && matches(password.value, users[u].password)
      && PopulatePosts(posts, u, users[u].posts).Some?
      && view == Some(LoginViewOf(u, users[u], PopulatePosts(posts, u, users[u].posts).value))
    ensures Truthy(email) && Truthy(password) && EmailsDistinct(users) ==>
      (status == UNAUTHORIZED <==>
        forall u | u in users && users[u].email == email.value :: !matches(password.value, users[u].password))
    ensures status == BAD_REQUEST ==>
      exists u | u in users && users[u].email == email.value && matches(password.value, users[u].password) ::
        PopulatePosts(posts, u, users[u].posts).None?
    ensures Truthy(email) && Truthy(password) && EmailsDistinct(users) ==>
      (status == BAD_REQUEST <==>
        exists u | u in users && users[u].email == email.value && matches(password.value, users[u].password) ::
          PopulatePosts(posts, u, users[u].posts).None?)
    ensures PostsOwned(users, posts) ==> status != BAD_REQUEST
  {
    if !Truthy(email) || !Truthy(password) {
      return UNAUTHORIZED, None, None;
    }
    if !EmailTaken(users, email.value) {
      return UNAUTHORIZED, None, None;
    }
    var u :| u in users && users[u].email == email.value;
    var user := users[u];
    if !matches(password.value, user.password) {
      return UNAUTHORIZED, None, None;
    }
    var populated := PopulatePosts(posts, u, user.posts);
    if populated.None? {
      return BAD_REQUEST, None, None;
    }
    status, token, view := OK, Some(Token(u)), Some(LoginViewOf(u, user, populated.value));
  }

  /**
   * The field assignments of editPorifle: bio and gender are overwritten only
   * when given and non-empty, the picture only when a file was uploaded.
   */
  function ApplyEdits(u: User, bio: Option<string>, gender: Option<string>, picture: Option<string>): (r: User)
    ensures r == u.(bio := r.bio, gender := r.gender, profilePicture := r.profilePicture)
    ensures Truthy(bio) ==> r.bio == bio.value
    ensures !Truthy(bio) ==> r.bio == u.bio
    ensures Truthy(gender) ==> r.gender == gender.value
    ensures !Truthy(gender) ==> r.gender == u.gender
    ensures picture.Some? ==> r.profilePicture == picture.value
    ensures picture.None? ==> r.profilePicture == u.profilePicture
  {
    var withBio := if Truthy(bio) then u.(bio := bio.value) else u;
    var withGender := if Truthy(gender) then withBio.(gender := gender.value) else withBio;
    if picture.Some? then withGender.(profilePicture := picture.value) else withGender
  }

  /** Applying the same edit twice is the same as applying it once. */
  lemma ApplyEditsIdempotent(u: User, bio: Option<string>, gender: Option<string>, picture: Option<string>)
    ensures ApplyEdits(ApplyEdits(u, bio, gender, picture), bio, gender, picture) == ApplyEdits(u, bio, gender, picture)
  {
  }

  /**
   * editPorifle. 404 for a missing user, with nothing written. Otherwise the
   * edits are applied and the user is returned without its password (200).
   */
  method EditProfile(db: Db, userId: Id, bio: Option<string>, gender: Option<string>, picture: Option<string>)
    returns (status: int, profile: Option<Profile>)
    requires db.Valid()
    modifies db`users
    ensures db.Valid()
    ensures userId !in old(db.users) ==> status == NOT_FOUND && profile.None? && unchanged(db)
    ensures userId in old(db.users) ==>
      && status == OK
      && db.users == old(db.users)[userId := ApplyEdits(old(db.users)[userId], bio, gender, picture)]
      && profile == Some(ProfileOf(userId, db.users[userId]))
    ensures Consistent(old(db.users), db.posts) ==> Consistent(db.users, db.posts)
  {
    if userId !in db.users {
      return NOT_FOUND, None;
    }
    ghost var users0 := db.users;
    var user := db.users[userId];
    if Truthy(bio) {
      user := user.(bio := bio.value);
    }
    if Truthy(gender) {
      user := user.(gender := gender.value);
    }
    if picture.Some? {
      user := user.(profilePicture := picture.value);
    }
    db.users := db.users[userId := user];
    status, profile := OK, Some(ProfileOf(userId, user));
    UserFieldsFrame(users0, db.users, db.posts);
  }

  /** `User.find({ _id: { $ne: id } })` without passwords: every user but the caller. */
  function SuggestedUsers(users: map<Id, User>, caller: Id): (r: map<Id, Profile>)
    ensures r.Keys == users.Keys - {caller}
    ensures forall u | u in r :: r[u] == ProfileOf(u, users[u])
  {
    map u | u in users && u != caller :: ProfileOf(u, users[u])
  }

  /** The follow toggle keeps every invariant. */
  lemma FollowToggleKeepsConsistent(users: map<Id, User>, posts: map<Id, Post>, a: Id, b: Id)
    requires a in users && b in users && a != b
    requires Consistent(users, posts)
    ensures Consistent(FollowToggle(users, a, b), posts)
  {
    var r := FollowToggle(users, a, b);
    FollowToggleKeepsGraph(users, a, b);
    forall u | u in users ensures r[u].posts == users[u].posts && r[u].email == users[u].email {
      if u == a {
        assert r[a] == users[a].(following := r[a].following);
      } else if u == b {
        assert r[b] == users[b].(followers := r[b].followers);
      }
    }
    PostsAndEmailsFrame(users, r, posts);
  }

  /**
   * followOrUnfollow. Following oneself: 400. A missing user on either side:
   * 401. Either way nothing is written. Otherwise the toggle (200), reporting
   * whether it was a follow (`Some(true)`) or an unfollow (`Some(false)`).
   */
  method FollowOrUnfollow(db: Db, actor: Id, target: Id) returns (status: int, followed: Option<bool>)
    requires db.Valid()
    modifies db`users
    ensures db.Valid()
    ensures actor == target ==> status == BAD_REQUEST && followed.None? && unchanged(db)
    ensures actor != target && (actor !in old(db.users) || target !in old(db.users)) ==>
      status == UNAUTHORIZED && followed.None? && unchanged(db)
    ensures actor != target && actor in old(db.users) && target in old(db.users) ==>
      && status == OK
      && followed == Some(target !in old(db.users)[actor].following)
      && db.users == FollowToggle(old(db.users), actor, target)
    ensures Consistent(old(db.users), db.posts) ==> Consistent(db.users, db.posts)
  {
    if actor == target {
      return BAD_REQUEST, None;
    }
    if actor !in db.users || target !in db.users {
      return UNAUTHORIZED, None;
    }
    ghost var users0 := db.users;
    var isFollowing := target in db.users[actor].following;
    var user := db.users[actor];
    if isFollowing {
      db.users := db.users[actor := user.(following := Pull(user.following, target))];
      var targetUser := db.users[target];
      db.users := db.users[target := targetUser.(followers := Pull(targetUser.followers, actor))];
    } else {
      db.users := db.users[actor := user.(following := Push(user.following, target))];
      var targetUser := db.users[target];
      db.users := db.users[target := targetUser.(followers := Push(targetUser.followers, actor))];
    }
    status, followed := OK, Some(!isFollowing);
    if Consistent(users0, db.posts) {
      FollowToggleKeepsConsistent(users0, db.posts, actor, target);
    }
  }
}
