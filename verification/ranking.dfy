/**
 Top-repository ranking: `getTopRepositories` sorts the list with a
 comparator that puts higher stargazer counts first, then keeps the first
 `count` entries. `Array.prototype.sort` is stable (ECMA-262, 2019
 edition, section 22.1.3.27), so repositories with equal counts keep their
 input order. The sort happens in place: the caller's array is left sorted.
 */
module Ranking {
  import opened Js
  import opened Records

  /** `getTopRepositories`'s default `count`. */
  const DefaultCount: int := 6

  /** Stargazer counts never increase along `s`. */
  predicate SortedByStars(s: seq<Repository>) {
    forall i, j :: 0 <= i < j < |s| ==> s[i].stargazersCount >= s[j].stargazersCount
  }

  /** The repositories of `s` with exactly `v` stars, in their order in `s`. */
  function WithStars(s: seq<Repository>, v: nat): seq<Repository> {
    if s == [] then []
    else (if s[0].stargazersCount == v then [s[0]] else []) + WithStars(s[1..], v)
  }

  /**
   `r` is what a stable descending sort of `s` produces: sorted, and for every
   star count the repositories with that count appear in `r` in the order they
   had in `s`. (This also makes `r` a permutation of `s`.)
   */
  ghost predicate IsStableSortOf(r: seq<Repository>, s: seq<Repository>) {
    SortedByStars(r) && forall v :: WithStars(r, v) == WithStars(s, v)
  }

  /** Insert `x` into the sorted `t` ahead of every repository with no more stars. */
  function Insert(x: Repository, t: seq<Repository>): (r: seq<Repository>)
    ensures |r| == |t| + 1
  {
    if t == [] || x.stargazersCount >= t[0].stargazersCount then [x] + t
    else [t[0]] + Insert(x, t[1..])
  }

  lemma {:induction false} InsertMultiset(x: Repository, t: seq<Repository>)
    ensures multiset(Insert(x, t)) == multiset(t) + multiset{x}
  {
    if !(t == [] || x.stargazersCount >= t[0].stargazersCount) {
      InsertMultiset(x, t[1..]);
      assert t == [t[0]] + t[1..];
    }
  }

  lemma {:induction false} InsertMembers(x: Repository, t: seq<Repository>, k: nat)
    requires k < |Insert(x, t)|
    ensures Insert(x, t)[k] == x || Insert(x, t)[k] in t
  {
    if !(t == [] || x.stargazersCount >= t[0].stargazersCount) && k > 0 {
      InsertMembers(x, t[1..], k - 1);
    }
  }

  lemma {:induction false} InsertSorted(x: Repository, t: seq<Repository>)
    requires SortedByStars(t)
    ensures SortedByStars(Insert(x, t))
  {
    if !(t == [] || x.stargazersCount >= t[0].stargazersCount) {
      var rest := Insert(x, t[1..]);
      InsertSorted(x, t[1..]);
      InsertMultiset(x, t[1..]);
      var r := Insert(x, t);
      assert r == [t[0]] + rest;
      forall i, j | 0 <= i < j < |r|
        ensures r[i].stargazersCount >= r[j].stargazersCount
      {
        if i == 0 {
          assert r[j] == rest[j - 1];
          InsertMembers(x, t[1..], j - 1);
          if r[j] != x {
            var k :| 0 <= k < |t[1..]| && t[1..][k] == r[j];
            assert t[k + 1] == r[j];
          }
        } else {
          assert r[i] == rest[i - 1] && r[j] == rest[j - 1];
        }
      }
    }
  }

  lemma {:induction false} InsertWithStars(x: Repository, t: seq<Repository>, v: nat)
    requires SortedByStars(t)
    ensures WithStars(Insert(x, t), v)
            == (if x.stargazersCount == v then [x] else []) + WithStars(t, v)
  {
    var hx := if x.stargazersCount == v then [x] else [];
    if t == [] || x.stargazersCount >= t[0].stargazersCount {
      assert ([x] + t)[1..] == t;
      assert WithStars([x] + t, v) == hx + WithStars(t, v);
    } else {
      var rest := Insert(x, t[1..]);
      var ht := if t[0].stargazersCount == v then [t[0]] else [];
      assert SortedByStars(t[1..]) by {
        forall i, j | 0 <= i < j < |t[1..]|
          ensures t[1..][i].stargazersCount >= t[1..][j].stargazersCount
        {
          assert t[1..][i] == t[i + 1] && t[1..][j] == t[j + 1];
        }
      }
      InsertWithStars(x, t[1..], v);
      assert Insert(x, t) == [t[0]] + rest;
      assert ([t[0]] + rest)[1..] == rest;
      assert WithStars([t[0]] + rest, v) == ht + WithStars(rest, v);
      assert WithStars(t, v) == ht + WithStars(t[1..], v);
      if x.stargazersCount == v {
        assert ht == [];
      } else {
        assert hx == [];
      }
    }
  }

  /** The array contents after `repos.sort(...)`, built by stable insertion. */
  function SortByStars(s: seq<Repository>): (r: seq<Repository>)
    ensures |r| == |s|
  {
    if s == [] then [] else Insert(s[0], SortByStars(s[1..]))
  }

  /**
   `SortByStars` sorts by stargazer count, highest first, keeps every
   repository, and keeps equal-star repositories in their input order.
   */
  lemma {:induction false} SortByStarsIsStableSort(s: seq<Repository>)
    ensures SortedByStars(SortByStars(s))
    ensures multiset(SortByStars(s)) == multiset(s)
    ensures forall v :: WithStars(SortByStars(s), v) == WithStars(s, v)
  {
    if s != [] {
      var t := SortByStars(s[1..]);
      SortByStarsIsStableSort(s[1..]);
      InsertMultiset(s[0], t);
      InsertSorted(s[0], t);
      assert s == [s[0]] + s[1..];
      forall v
        ensures WithStars(SortByStars(s), v) == WithStars(s, v)
      {
        InsertWithStars(s[0], t, v);
      }
    }
  }

  /** Any sequence with no repository of `v` stars has an empty `WithStars` for `v`. */
  lemma WithStarsEmpty(s: seq<Repository>, v: nat)
    requires forall i :: 0 <= i < |s| ==> s[i].stargazersCount != v
    ensures WithStars(s, v) == []
  {
  }

  /** A repository of `s` shows up in the `WithStars` view of its own count. */
  lemma {:induction false} WithStarsNonEmpty(s: seq<Repository>, i: nat)
    requires i < |s|
    ensures WithStars(s, s[i].stargazersCount) != []
  {
    if i > 0 {
      WithStarsNonEmpty(s[1..], i - 1);
    }
  }

  lemma WithStarsTail(s: seq<Repository>, v: nat)
    requires s != []
    ensures s[0].stargazersCount == v ==> WithStars(s[1..], v) == WithStars(s, v)[1..]
    ensures s[0].stargazersCount != v ==> WithStars(s[1..], v) == WithStars(s, v)
  {
  }

  /** Two sorted sequences with the same per-star-count subsequences are equal. */
  lemma {:induction false} SortedStableUnique(a: seq<Repository>, b: seq<Repository>)
    requires SortedByStars(a) && SortedByStars(b)
    requires forall v :: WithStars(a, v) == WithStars(b, v)
    ensures a == b
    decreases |a|
  {
    if a == [] {
      if b != [] {
        WithStarsNonEmpty(b, 0);
      }
    } else if b == [] {
      WithStarsNonEmpty(a, 0);
    } else {
      var va := a[0].stargazersCount;
      var vb := b[0].stargazersCount;
      if va > vb {
        WithStarsNonEmpty(a, 0);
        WithStarsEmpty(b, va);
      } else if vb > va {
        WithStarsNonEmpty(b, 0);
        WithStarsEmpty(a, vb);
      }
      assert va == vb;
      assert WithStars(a, va)[0] == a[0];
      assert WithStars(b, va)[0] == b[0];
      forall v
        ensures WithStars(a[1..], v) == WithStars(b[1..], v)
      {
        WithStarsTail(a, v);
        WithStarsTail(b, v);
      }
      SortedStableUnique(a[1..], b[1..]);
      assert a == [a[0]] + a[1..];
      assert b == [b[0]] + b[1..];
    }
  }

  /** `SortByStars` is the one and only stable descending sort of its input. */
  lemma StableSortCharacterization(r: seq<Repository>, s: seq<Repository>)
    ensures IsStableSortOf(r, s) <==> r == SortByStars(s)
  {
    SortByStarsIsStableSort(s);
    if IsStableSortOf(r, s) {
      SortedStableUnique(r, SortByStars(s));
    }
  }

  /** Sorting an already sorted array changes nothing, so re-renders are stable. */
  lemma SortIdempotent(s: seq<Repository>)
    ensures SortByStars(SortByStars(s)) == SortByStars(s)
  {
    var t := SortByStars(s);
    SortByStarsIsStableSort(s);
    SortByStarsIsStableSort(t);
    SortedStableUnique(SortByStars(t), t);
  }

  /** A prefix keeps, for every star count, a prefix of that count's subsequence. */
  lemma {:induction false} WithStarsOfPrefix(s: seq<Repository>, k: nat, v: nat)
    requires k <= |s|
    ensures WithStars(s[..k], v) <= WithStars(s, v)
  {
    if k > 0 {
      WithStarsOfPrefix(s[1..], k - 1, v);
      assert s[..k][1..] == s[1..][..k - 1];
      var h := if s[0].stargazersCount == v then [s[0]] else [];
      PrefixOfConcat(h, WithStars(s[..k][1..], v), WithStars(s[1..], v));
    }
  }

  lemma PrefixOfConcat<T>(h: seq<T>, a: seq<T>, b: seq<T>)
    requires a <= b
    ensures h + a <= h + b
  {
    assert (h + b)[..|h + a|] == h + b[..|a|];
  }

  /** A prefix of a sorted sequence is sorted, part of it, and outranks the rest. */
  lemma SortedPrefix(s: seq<Repository>, k: nat)
    requires SortedByStars(s) && k <= |s|
    ensures SortedByStars(s[..k])
    ensures multiset(s[..k]) <= multiset(s)
    ensures forall i, j :: 0 <= i < k <= j < |s| ==> s[..k][i].stargazersCount >= s[j].stargazersCount
  {
    assert s == s[..k] + s[k..];
    assert multiset(s) == multiset(s[..k]) + multiset(s[k..]);
  }

  /**
   `getTopRepositories(repos, count)` as a value: the first `count` entries of
   the stable sort (the `slice` end index follows ECMA-262, so a negative
   `count` drops that many entries from the end).
   */
  function TopRepositories(s: seq<Repository>, count: int): (r: seq<Repository>)
    ensures count >= 0 ==> |r| == (if count < |s| then count else |s|)
    ensures count < 0 ==> |r| == (if |s| + count > 0 then |s| + count else 0)
    ensures r == SortByStars(s)[..|r|]
    ensures SortedByStars(r)
    ensures multiset(r) <= multiset(s)
    ensures forall i, j :: 0 <= i < |r| <= j < |s| ==>
              r[i].stargazersCount >= SortByStars(s)[j].stargazersCount
    ensures forall v :: WithStars(r, v) <= WithStars(s, v)
  {
    var sorted := SortByStars(s);
    SortByStarsIsStableSort(s);
    var r := sorted[..SliceEnd(|sorted|, count)];
    SortedPrefix(sorted, |r|);
    forall v
      ensures WithStars(r, v) <= WithStars(s, v)
    {
      WithStarsOfPrefix(sorted, |r|, v);
    }
    r
  }

  /**
   `getTopRepositories` on the caller's array: the array is sorted in place,
   and the returned list is the leading `count` entries of it.
   */
  method GetTopRepositories(repos: array<Repository>, count: int) returns (top: seq<Repository>)
    modifies repos
    ensures repos[..] == SortByStars(old(repos[..]))
    ensures top == TopRepositories(old(repos[..]), count)
  {
    var sorted := SortByStars(repos[..]);
    SortByStarsIsStableSort(repos[..]);
    var i := 0;
    while i < repos.Length
      invariant 0 <= i <= repos.Length
      invariant |sorted| == repos.Length
      invariant repos[..i] == sorted[..i]
    {
      repos[i] := sorted[i];
      assert repos[..i + 1] == repos[..i] + [repos[i]];
      assert sorted[..i + 1] == sorted[..i] + [sorted[i]];
      i := i + 1;
    }
    assert repos[..] == repos[..i];
    assert sorted == sorted[..i];
    top := repos[..SliceEnd(repos.Length, count)];
  }

  /** Ranking no repositories yields none, whatever `count` is. */
  lemma TopOfEmpty(count: int)
    ensures TopRepositories([], count) == []
  {
  }
}
