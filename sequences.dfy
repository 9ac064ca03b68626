/** Ordered lists of keys: the `ids` array of a collection, a JavaScript `Set`'s
    insertion order, the result of `Object.keys`. */
module Sequences {

  /** No element occurs twice. */
  ghost predicate NoDup<T>(s: seq<T>) {
    forall i, j :: 0 <= i < j < |s| ==> s[i] != s[j]
  }

  /** `s` lists exactly the elements of `keys`, each once. */
  ghost predicate Lists<T(!new)>(s: seq<T>, keys: set<T>) {
    NoDup(s) && forall x :: x in s <==> x in keys
  }

  /** `s.filter(x => x !== v)`: every occurrence of `v` dropped, the rest kept in order. */
  function Without<T(==,!new)>(s: seq<T>, v: T): (r: seq<T>)
    ensures forall x :: x in r <==> x in s && x != v
    ensures |r| <= |s|
    ensures v !in s ==> r == s
  {
    if s == [] then []
    else if s[0] == v then Without(s[1..], v)
    else [s[0]] + Without(s[1..], v)
  }

  /** `r` is `s` with some elements dropped and the order of the others kept. */
  ghost predicate Subsequence<T>(r: seq<T>, s: seq<T>)
    decreases |s|
  {
    if r == [] then true
    else if s == [] then false
    else if r[0] == s[0] then Subsequence(r[1..], s[1..])
    else Subsequence(r, s[1..])
  }

  /** Filtering keeps the relative order of what remains. */
  lemma {:induction false} WithoutIsSubsequence<T(!new)>(s: seq<T>, v: T)
    ensures Subsequence(Without(s, v), s)
  {
    if s != [] {
      WithoutIsSubsequence(s[1..], v);
      if s[0] != v {
        assert ([s[0]] + Without(s[1..], v))[1..] == Without(s[1..], v);
      } else {
        SubsequenceDropFront(Without(s[1..], v), s);
      }
    }
  }

  /** Skipping the first element of `s` never hurts a subsequence of `s[1..]`. */
  lemma {:induction false} SubsequenceDropFront<T>(r: seq<T>, s: seq<T>)
    requires s != [] && Subsequence(r, s[1..])
    ensures Subsequence(r, s)
    decreases |s|, 0
  {
    if r != [] && r[0] == s[0] {
      assert Subsequence(r[1..], s[1..]) by {
        SubsequenceTail(r, s[1..]);
      }
    }
  }

  /** Dropping the head of a subsequence leaves a subsequence. */
  lemma {:induction false} SubsequenceTail<T>(r: seq<T>, s: seq<T>)
    requires r != [] && Subsequence(r, s)
    ensures Subsequence(r[1..], s)
    decreases |s|, 1
  {
    if r[0] == s[0] {
      if r[1..] != [] {
        SubsequenceDropFront(r[1..], s);
      }
    } else {
      SubsequenceTail(r, s[1..]);
      if r[1..] != [] {
        SubsequenceDropFront(r[1..], s);
      }
    }
  }

  /** Filtering a duplicate-free list keeps it duplicate-free. */
  lemma {:induction false} WithoutNoDup<T(!new)>(s: seq<T>, v: T)
    requires NoDup(s)
    ensures NoDup(Without(s, v))
  {
    if s != [] {
      assert NoDup(s[1..]) by {
        forall i, j | 0 <= i < j < |s[1..]| ensures s[1..][i] != s[1..][j] {
          assert s[1..][i] == s[i + 1] && s[1..][j] == s[j + 1];
        }
      }
      WithoutNoDup(s[1..], v);
      if s[0] != v {
        var r := [s[0]] + Without(s[1..], v);
        assert s[0] !in s[1..] by {
          forall k | 0 <= k < |s[1..]| ensures s[1..][k] != s[0] {
            assert s[1..][k] == s[k + 1];
          }
        }
        forall i, j | 0 <= i < j < |r| ensures r[i] != r[j] {
          if i == 0 {
            assert r[j] in Without(s[1..], v);
          } else {
            assert r[i] == Without(s[1..], v)[i - 1] && r[j] == Without(s[1..], v)[j - 1];
          }
        }
      }
    }
  }

  /** Filtering a present element out of a duplicate-free list removes exactly one entry. */
  lemma {:induction false} WithoutRemovesOne<T(!new)>(s: seq<T>, v: T)
    requires NoDup(s) && v in s
    ensures |Without(s, v)| == |s| - 1
  {
    assert NoDup(s[1..]) by {
      forall i, j | 0 <= i < j < |s[1..]| ensures s[1..][i] != s[1..][j] {
        assert s[1..][i] == s[i + 1] && s[1..][j] == s[j + 1];
      }
    }
    if s[0] == v {
      assert v !in s[1..] by {
        forall k | 0 <= k < |s[1..]| ensures s[1..][k] != v {
          assert s[1..][k] == s[k + 1];
        }
      }
    } else {
      assert v in s[1..] by {
        var k :| 0 <= k < |s| && s[k] == v;
        assert s[1..][k - 1] == v;
      }
      WithoutRemovesOne(s[1..], v);
    }
  }

  /** Appending an element not yet listed keeps a list duplicate-free. */
  lemma AppendNoDup<T>(s: seq<T>, v: T)
    requires NoDup(s) && v !in s
    ensures NoDup(s + [v])
  {
    var r := s + [v];
    forall i, j | 0 <= i < j < |r| ensures r[i] != r[j] {
      if j == |s| {
        assert r[i] == s[i];
      } else {
        assert r[i] == s[i] && r[j] == s[j];
      }
    }
  }
}
