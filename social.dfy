/**
 * The follow graph. Each edge is stored twice: the followee's id in the
 * follower's `following`, and the follower's id in the followee's `followers`.
 */
module Social {
  import opened SeqOps
  import opened Models

  /** Each list is duplicate-free and nobody follows themselves. */
  ghost predicate ListsOk(users: map<Id, User>) {
    forall a | a in users ::
      NoDup(users[a].following) && NoDup(users[a].followers) && a !in users[a].following
  }

  /** Every `following` entry is a user whose `followers` holds the follower. */
  ghost predicate ForwardOk(users: map<Id, User>) {
    forall a, b | a in users && b in users[a].following :: b in users && a in users[b].followers
  }

  /** Every `followers` entry is a user whose `following` holds the followee. */
  ghost predicate BackwardOk(users: map<Id, User>) {
    forall a, b | a in users && b in users[a].followers :: b in users && a in users[b].following
  }

  /** The follow graph is symmetric, irreflexive and duplicate-free. */
  ghost predicate GraphOk(users: map<Id, User>) {
    ListsOk(users) && ForwardOk(users) && BackwardOk(users)
  }

  /**
   * The two updates of followOrUnfollow: if `b` is in `a`'s `following`, pull
   * `b` from it and `a` from `b`'s `followers`; otherwise push both.
   */
  function FollowToggle(users: map<Id, User>, a: Id, b: Id): (r: map<Id, User>)
    requires a in users && b in users && a != b
    ensures r.Keys == users.Keys
    ensures forall u | u in users && u != a && u != b :: r[u] == users[u]
    ensures r[a] == users[a].(following := r[a].following)
    ensures r[b] == users[b].(followers := r[b].followers)
    ensures (b in r[a].following) == (b !in users[a].following)
    ensures (a in r[b].followers) == (b !in users[a].following)
    ensures forall x | x != b :: x in r[a].following <==> x in users[a].following
    ensures forall x | x != a :: x in r[b].followers <==> x in users[b].followers
  {
    var ua := users[a];
    var ub := users[b];
    if b in ua.following then
      users[a := ua.(following := Pull(ua.following, b))][b := ub.(followers := Pull(ub.followers, a))]
    else
      users[a := ua.(following := Push(ua.following, b))][b := ub.(followers := Push(ub.followers, a))]
  }

  /** Starting from a consistent graph, the toggle leaves it consistent. */
  lemma FollowToggleKeepsGraph(users: map<Id, User>, a: Id, b: Id)
    requires a in users && b in users && a != b
    requires GraphOk(users)
    ensures GraphOk(FollowToggle(users, a, b))
  {
    var r := FollowToggle(users, a, b);
    var following := b in users[a].following;
    assert following <==> a in users[b].followers;
    if following {
      PullKeepsNoDup(users[a].following, b);
      PullKeepsNoDup(users[b].followers, a);
    } else {
      assert NoDup(r[a].following) by { NoDupPush(users[a].following, b); }
      assert NoDup(r[b].followers) by { NoDupPush(users[b].followers, a); }
    }
    assert ListsOk(r);
    forall u, x | u in r && x in r[u].following ensures x in r && u in r[x].followers {
      if !(u == a && x == b) {
        assert x in users[u].following;
        assert u in users[x].followers;
        if x == a {
          assert r[x].followers == users[x].followers;
        }
      }
    }
    forall u, x | u in r && x in r[u].followers ensures x in r && u in r[x].following {
      if !(u == b && x == a) {
        assert x in users[u].followers;
        assert u in users[x].following;
        if x == b {
          assert r[x].following == users[x].following;
        }
      }
    }
  }

  /** Appending an absent value keeps a list duplicate-free. */
  lemma NoDupPush(s: seq<Id>, x: Id)
    requires NoDup(s) && x !in s
    ensures NoDup(Push(s, x))
  {
    var t := Push(s, x);
    forall i, j | 0 <= i < j < |t| ensures t[i] != t[j] {
      if j == |s| {
        assert t[i] == s[i];
      } else {
        assert t[i] == s[i] && t[j] == s[j];
      }
    }
  }

  /** From a state where `a` does not follow `b`, follow then unfollow restores every list exactly. */
  lemma FollowThenUnfollowRestores(users: map<Id, User>, a: Id, b: Id)
    requires a in users && b in users && a != b
    requires b !in users[a].following && a !in users[b].followers
    ensures FollowToggle(FollowToggle(users, a, b), a, b) == users
  {
    var once := FollowToggle(users, a, b);
    PullAfterPush(users[a].following, b);
    PullAfterPush(users[b].followers, a);
    assert once[a].following == Push(users[a].following, b);
    assert once[b].followers == Push(users[b].followers, a);
    var twice := FollowToggle(once, a, b);
    assert twice[a] == users[a];
    assert twice[b] == users[b];
  }

  /**
   * From a consistent graph where `a` follows `b`, unfollow then follow
   * restores who follows whom, though `b` moves to the end of `a`'s list.
   */
  lemma UnfollowThenFollowSameGraph(users: map<Id, User>, a: Id, b: Id)
    requires a in users && b in users && a != b
    requires GraphOk(users) && b in users[a].following
    ensures var twice := FollowToggle(FollowToggle(users, a, b), a, b);
      && twice.Keys == users.Keys
      && (forall u, x | u in users :: x in twice[u].following <==> x in users[u].following)
      && (forall u, x | u in users :: x in twice[u].followers <==> x in users[u].followers)
  {
    var once := FollowToggle(users, a, b);
    assert a in users[b].followers;
    assert b !in once[a].following;
  }

  /**
   * Follow pushes rather than adds to a set: on a graph where `b` already
   * lists `a` as a follower without the matching `following` entry, a follow
   * duplicates `a` in `b`'s followers.
   */
  lemma FollowOnAsymmetricGraphDuplicates(users: map<Id, User>, a: Id, b: Id)
    requires a in users && b in users && a != b
    requires b !in users[a].following && a in users[b].followers
    ensures !NoDup(FollowToggle(users, a, b)[b].followers)
  {
    var s := users[b].followers;
    var t := FollowToggle(users, a, b)[b].followers;
    var i :| 0 <= i < |s| && s[i] == a;
    assert t[i] == a && t[|s|] == a;
  }
}
