/**
 * The array-update operators the handlers apply to the id lists of a stored
 * document: MongoDB's `$push`, `$addToSet` and `$pull`, and the JavaScript
 * `push` and `filter` the handlers run on a loaded document before `save`.
 */
module SeqOps {

  /** No value occurs twice in `s`. */
  predicate NoDup<T(==,!new)>(s: seq<T>) {
    forall i, j | 0 <= i < j < |s| :: s[i] != s[j]
  }

  /** `$push` and `Array.prototype.push`: append at the end, duplicates allowed. */
  function Push<T>(s: seq<T>, x: T): (r: seq<T>)
    ensures |r| == |s| + 1 && r[..|s|] == s && r[|s|] == x
    ensures multiset(r) == multiset(s) + multiset{x}
  {
    s + [x]
  }

  /** `$addToSet`: append `x` at the end only when it is not already present. */
  function AddToSet<T(==,!new)>(s: seq<T>, x: T): (r: seq<T>)
    ensures x in r
    ensures forall y :: y in r <==> y in s || y == x
    ensures |s| <= |r| <= |s| + 1 && r[..|s|] == s
    ensures x in s ==> r == s
    ensures NoDup(s) ==> NoDup(r)
    ensures multiset(r)[x] == if x in s then multiset(s)[x] else 1
  {
    if x in s then s else s + [x]
  }

  /**
   * `$pull` of a single value, and `filter(id => id !== x)`: drop every
   * occurrence of `x`, keeping the other elements in their order.
   */
  function Pull<T(==,!new)>(s: seq<T>, x: T): (r: seq<T>)
    ensures x !in r
    ensures forall y | y != x :: y in r <==> y in s
    ensures multiset(r) == multiset(s)[x := 0]
    ensures x !in s ==> r == s
    decreases |s|
  {
    if s == [] then []
    else
      assert s == [s[0]] + s[1..];
      if s[0] == x then Pull(s[1..], x) else [s[0]] + Pull(s[1..], x)
  }

  /** Pulling distributes over concatenation. */
  lemma {:induction false} PullAppend<T(!new)>(s: seq<T>, t: seq<T>, x: T)
    ensures Pull(s + t, x) == Pull(s, x) + Pull(t, x)
    decreases |s|
  {
    if s == [] {
      assert s + t == t;
    } else {
      assert (s + t)[1..] == s[1..] + t;
      PullAppend(s[1..], t, x);
    }
  }

  /** A pull undoes a push of the same value: `Pull(s + [x], x) == Pull(s, x)`. */
  lemma PullAfterPush<T(!new)>(s: seq<T>, x: T)
    ensures Pull(Push(s, x), x) == Pull(s, x)
  {
    PullAppend(s, [x], x);
    assert Pull([x], x) == [];
  }

  /** Starting without `x`, an add-to-set followed by a pull restores `s` exactly. */
  lemma PullAfterAddToSet<T(!new)>(s: seq<T>, x: T)
    requires x !in s
    ensures Pull(AddToSet(s, x), x) == s
  {
    PullAfterPush(s, x);
  }

  /** Pulling keeps a duplicate-free list duplicate-free. */
  lemma {:induction false} PullKeepsNoDup<T(!new)>(s: seq<T>, x: T)
    ensures NoDup(s) ==> NoDup(Pull(s, x))
    decreases |s|
  {
    if s != [] && NoDup(s) {
      assert NoDup(s[1..]) by {
        forall i, j | 0 <= i < j < |s[1..]| ensures s[1..][i] != s[1..][j] {
          assert s[1..][i] == s[i + 1] && s[1..][j] == s[j + 1];
        }
      }
      PullKeepsNoDup(s[1..], x);
      if s[0] != x {
        var r := Pull(s[1..], x);
        assert s[0] !in s[1..] by {
          forall k | 0 <= k < |s[1..]| ensures s[1..][k] != s[0] {
            assert s[1..][k] == s[k + 1];
          }
        }
        assert s[0] !in r;
        assert Pull(s, x) == [s[0]] + r;
        forall i, j | 0 <= i < j < |[s[0]] + r| ensures ([s[0]] + r)[i] != ([s[0]] + r)[j] {
          if i == 0 {
            assert ([s[0]] + r)[j] == r[j - 1];
          } else {
            assert ([s[0]] + r)[i] == r[i - 1] && ([s[0]] + r)[j] == r[j - 1];
          }
        }
      }
    }
  }

  /** Adding a value twice is the same as adding it once; from an absent value it then occurs exactly once. */
  lemma AddToSetIdempotent<T(!new)>(s: seq<T>, x: T)
    ensures AddToSet(AddToSet(s, x), x) == AddToSet(s, x)
    ensures x !in s ==> multiset(AddToSet(AddToSet(s, x), x))[x] == 1
  {
  }
}
