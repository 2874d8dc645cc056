/** The stable comparison sort of `Array.prototype.sort`, for comparators
    that order by a pair of integers lexicographically. */
module StableSort {
  import opened Filtering

  /** A sort key compared lexicographically: `major` first, then `minor`. */
  datatype Rank = Rank(major: int, minor: int)

  /** `a` sorts strictly before `b` (the comparator returns a negative number). */
  predicate Precedes(a: Rank, b: Rank)
  {
    a.major < b.major || (a.major == b.major && a.minor < b.minor)
  }

  /** No element sorts strictly before an earlier one. */
  ghost predicate SortedBy<T>(s: seq<T>, key: T -> Rank)
  {
    forall i, j :: 0 <= i < j < |s| ==> !Precedes(key(s[j]), key(s[i]))
  }

  /** Selects the elements whose key is exactly `k` (the comparator's ties). */
  function HasRank<T>(key: T -> Rank, k: Rank): T -> bool
  {
    x => key(x) == k
  }

  /** Puts `x` after every element that sorts strictly before it, and before
      all the others, so `x` stays ahead of the elements it ties with. */
  function Insert<T>(x: T, s: seq<T>, key: T -> Rank): (r: seq<T>)
    ensures |r| == |s| + 1
    ensures multiset(r) == multiset(s) + multiset{x}
  {
    if |s| == 0 || !Precedes(key(s[0]), key(x)) then [x] + s
    else
      assert s == [s[0]] + s[1..];
      [s[0]] + Insert(x, s[1..], key)
  }

  /** A sorted copy of `s`; `s` itself is a value and is left as it was. */
  function SortBy<T>(s: seq<T>, key: T -> Rank): (r: seq<T>)
    ensures |r| == |s|
    ensures multiset(r) == multiset(s)
  {
    if |s| == 0 then []
    else
      assert s == [s[0]] + s[1..];
      Insert(s[0], SortBy(s[1..], key), key)
  }

  lemma {:induction false} InsertSorted<T>(x: T, s: seq<T>, key: T -> Rank)
    requires SortedBy(s, key)
    ensures SortedBy(Insert(x, s, key), key)
  {
    if |s| != 0 && Precedes(key(s[0]), key(x)) {
      var tail := Insert(x, s[1..], key);
      InsertSorted(x, s[1..], key);
      forall y | y in tail ensures !Precedes(key(y), key(s[0])) {
        assert y in multiset(tail);
        if y != x {
          var j :| 0 <= j < |s[1..]| && s[1..][j] == y;
          assert s[j + 1] == y;
        }
      }
      var r := [s[0]] + tail;
      forall i, j | 0 <= i < j < |r| ensures !Precedes(key(r[j]), key(r[i])) {
        if i == 0 {
          assert r[j] == tail[j - 1];
          assert r[j] in tail;
        } else {
          assert r[i] == tail[i - 1] && r[j] == tail[j - 1];
        }
      }
    }
  }

  /** The result is in ascending key order. */
  lemma {:induction false} SortBySorted<T>(s: seq<T>, key: T -> Rank)
    ensures SortedBy(SortBy(s, key), key)
  {
    if |s| != 0 {
      SortBySorted(s[1..], key);
      InsertSorted(s[0], SortBy(s[1..], key), key);
    }
  }

  /** In a sorted sequence nothing after position `n` sorts strictly before
      anything up to it. */
  lemma SortedSplit<T>(s: seq<T>, key: T -> Rank, n: nat)
    requires SortedBy(s, key) && n <= |s|
    ensures forall x | x in s[n..] :: forall j :: 0 <= j < n ==> !Precedes(key(x), key(s[j]))
  {
  }

  /** Inserting `x` puts it ahead of every element it ties with. */
  lemma {:induction false} InsertKeepsTies<T>(x: T, s: seq<T>, key: T -> Rank, k: Rank)
    ensures Filter(Insert(x, s, key), HasRank(key, k))
         == (if key(x) == k then [x] else []) + Filter(s, HasRank(key, k))
  {
    var p := HasRank(key, k);
    if |s| == 0 || !Precedes(key(s[0]), key(x)) {
      assert ([x] + s)[1..] == s;
    } else {
      InsertKeepsTies(x, s[1..], key, k);
      var tail := Insert(x, s[1..], key);
      assert ([s[0]] + tail)[1..] == tail;
      assert Filter(s, p) == (if p(s[0]) then [s[0]] else []) + Filter(s[1..], p);
    }
  }

  /** Stability: for every key, the elements with that key appear in the
      result in the same order as in the input. */
  lemma {:induction false} SortByStable<T>(s: seq<T>, key: T -> Rank, k: Rank)
    ensures Filter(SortBy(s, key), HasRank(key, k)) == Filter(s, HasRank(key, k))
  {
    if |s| != 0 {
      SortByStable(s[1..], key, k);
      InsertKeepsTies(s[0], SortBy(s[1..], key), key, k);
    }
  }
}
