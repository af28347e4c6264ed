/** Ordering rows by a numeric column, largest first: the part of pandas the
    core relies on (`sort_values(..., ascending=False)`, `nlargest`,
    `value_counts().head`). */
module Ranking {

  function Min(a: int, b: int): int {
    if a <= b then a else b
  }

  /** Every element's key is at least that of every later element. */
  ghost predicate NonIncreasing<T>(s: seq<T>, key: T -> int) {
    forall i, j :: 0 <= i < j < |s| ==> key(s[i]) >= key(s[j])
  }

  /** Places `x` in front of the first element whose key is not larger,
      so that earlier elements stay ahead of later ones with an equal key. */
  function Insert<T>(x: T, s: seq<T>, key: T -> int): (r: seq<T>)
    requires NonIncreasing(s, key)
    ensures NonIncreasing(r, key)
    ensures multiset(r) == multiset(s) + multiset{x}
  {
    if s == [] || key(x) >= key(s[0]) then
      assert forall j :: 0 <= j < |s| ==> key(s[0]) >= key(s[j]);
      [x] + s
    else
      var rest := Insert(x, s[1..], key);
      assert s == [s[0]] + s[1..];
      HeadDominates(s[0], x, s[1..], rest, key);
      [s[0]] + rest
  }

  /** Putting `h` in front of a descending `rest` made of `x` and the tail of
      a descending sequence headed by `h` keeps it descending. */
  lemma HeadDominates<T>(h: T, x: T, tail: seq<T>, rest: seq<T>, key: T -> int)
    requires NonIncreasing([h] + tail, key) && NonIncreasing(rest, key)
    requires key(x) < key(h)
    requires multiset(rest) == multiset(tail) + multiset{x}
    ensures NonIncreasing([h] + rest, key)
  {
    forall j | 0 <= j < |rest| ensures key(h) >= key(rest[j]) {
      var y := rest[j];
      assert y in multiset(rest);
      if y != x {
        assert y in multiset(tail);
        var m :| 0 <= m < |tail| && tail[m] == y;
        assert ([h] + tail)[0] == h && ([h] + tail)[m + 1] == y;
      }
    }
    var r := [h] + rest;
    forall i, j | 0 <= i < j < |r| ensures key(r[i]) >= key(r[j]) {
      if i > 0 {
        assert r[i] == rest[i - 1] && r[j] == rest[j - 1];
      } else {
        assert r[j] == rest[j - 1];
      }
    }
  }

  /** A descending sort by `key`: the result is ordered and holds exactly the
      elements of `s`. */
  function SortDesc<T>(s: seq<T>, key: T -> int): (r: seq<T>)
    ensures NonIncreasing(r, key)
    ensures multiset(r) == multiset(s)
  {
    if s == [] then [] else
      assert s == [s[0]] + s[1..];
      Insert(s[0], SortDesc(s[1..], key), key)
  }

  /** In a descending sequence, every element of a prefix is at least every
      element after it. */
  lemma PrefixDominates<T>(sorted: seq<T>, key: T -> int, k: nat, x: T, y: T)
    requires NonIncreasing(sorted, key) && k <= |sorted|
    requires x in sorted[..k] && y in multiset(sorted[k..])
    ensures key(y) <= key(x)
  {
    var i :| 0 <= i < k && sorted[..k][i] == x;
    assert y in sorted[k..];
    var j :| 0 <= j < |sorted| - k && sorted[k..][j] == y;
    assert sorted[i] == x && sorted[k + j] == y;
  }

  /** A prefix of a descending permutation of `s` is drawn from `s`, and no
      element it leaves out is larger than one it keeps. */
  lemma PrefixIsTop<T>(s: seq<T>, sorted: seq<T>, key: T -> int, k: nat)
    requires multiset(sorted) == multiset(s) && NonIncreasing(sorted, key) && k <= |sorted|
    ensures multiset(sorted[..k]) <= multiset(s)
    ensures forall x, y :: x in sorted[..k] && y in multiset(s) - multiset(sorted[..k]) ==> key(y) <= key(x)
  {
    assert sorted == sorted[..k] + sorted[k..];
    assert multiset(s) - multiset(sorted[..k]) == multiset(sorted[k..]);
    forall x, y | x in sorted[..k] && y in multiset(s) - multiset(sorted[..k])
      ensures key(y) <= key(x)
    {
      PrefixDominates(sorted, key, k, x, y);
    }
  }

  /** The first `n` elements after a descending sort (`nlargest(n, key)`):
      `min(n, |s|)` elements of `s`, ordered, none of them smaller than an
      element left out. */
  function Top<T>(s: seq<T>, key: T -> int, n: nat): (r: seq<T>)
    ensures |r| == Min(n, |s|)
    ensures NonIncreasing(r, key)
    ensures multiset(r) <= multiset(s)
    ensures n >= |s| ==> multiset(r) == multiset(s)
    ensures forall x, y :: x in r && y in multiset(s) - multiset(r) ==> key(y) <= key(x)
  {
    var sorted := SortDesc(s, key);
    assert |sorted| == |multiset(sorted)| == |s|;
    var k := Min(n, |s|);
    PrefixIsTop(s, sorted, key, k);
    assert k == |s| ==> sorted[..k] == sorted;
    sorted[..k]
  }
}
