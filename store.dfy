/**
 * The storage primitives the pipeline relies on, as values: sorted sets as
 * maps from member to score, `db.sortedSetsAdd` as an upsert into the sorted
 * set of every given key, and `Array.prototype.filter`.
 */
module Store {

  /** The sorted set stored under key `k`; a missing key reads as the empty set. */
  function Lookup<K, M>(idx: map<K, map<M, int>>, k: K): map<M, int>
  {
    if k in idx then idx[k] else map[]
  }

  /**
   * `db.sortedSetsAdd(keys, score, member)`: every sorted set named in `keys`
   * gains `member` with `score`, replacing the member's earlier score; no
   * other sorted set and no other member changes.
   */
  function SortedSetsAdd<K, M(!new)>(idx: map<K, map<M, int>>, keys: set<K>, member: M, score: int): (r: map<K, map<M, int>>)
    ensures r.Keys == idx.Keys + keys
    ensures forall k :: k in keys ==> member in r[k] && r[k][member] == score
    ensures forall k, m :: k in keys && m != member ==>
              (m in r[k] <==> m in Lookup(idx, k)) && (m in r[k] ==> r[k][m] == Lookup(idx, k)[m])
    ensures forall k :: k in idx && k !in keys ==> r[k] == idx[k]
  {
    map k | k in idx.Keys + keys :: if k in keys then Lookup(idx, k)[member := score] else idx[k]
  }

  /** An upsert into no sorted set changes nothing. */
  lemma SortedSetsAddNothing<K, M(!new)>(idx: map<K, map<M, int>>, member: M, score: int)
    ensures SortedSetsAdd(idx, {}, member, score) == idx
  {
  }

  /** Upserting a member within bounds keeps every member of every sorted set within them. */
  lemma SortedSetsAddKeepsBounds<K>(idx: map<K, map<int, int>>, keys: set<K>, member: int, score: int, lo: int, hi: int)
    requires forall k, m :: k in idx && m in idx[k] ==> lo <= m <= hi
    requires lo <= member <= hi
    ensures var r := SortedSetsAdd(idx, keys, member, score);
            forall k, m :: k in r && m in r[k] ==> lo <= m <= hi
  {
    var r := SortedSetsAdd(idx, keys, member, score);
    forall k, m | k in r && m in r[k]
      ensures lo <= m <= hi
    {
      if k in keys && m != member {
        assert m in Lookup(idx, k);
      }
    }
  }

  /** Repeating an upsert changes nothing more: a retried write is harmless. */
  lemma SortedSetsAddIdempotent<K, M(!new)>(idx: map<K, map<M, int>>, keys: set<K>, member: M, score: int)
    ensures var once := SortedSetsAdd(idx, keys, member, score);
            SortedSetsAdd(once, keys, member, score) == once
  {
    var once := SortedSetsAdd(idx, keys, member, score);
    var twice := SortedSetsAdd(once, keys, member, score);
    forall k | k in keys ensures twice[k] == once[k] {
      assert twice[k] == once[k][member := score];
    }
  }

  /** Setting a key twice keeps the second value; a proof step for `SortedSetsAddLastWriteWins`. */
  lemma UpsertTwice<M, V>(m: map<M, V>, x: M, first: V, second: V)
    ensures m[x := first][x := second] == m[x := second]
  {
  }

  /** The later of two upserts of the same member decides its score. */
  lemma SortedSetsAddLastWriteWins<K, M(!new)>(idx: map<K, map<M, int>>, keys: set<K>, member: M, first: int, second: int)
    ensures SortedSetsAdd(SortedSetsAdd(idx, keys, member, first), keys, member, second)
            == SortedSetsAdd(idx, keys, member, second)
  {
    var a := SortedSetsAdd(SortedSetsAdd(idx, keys, member, first), keys, member, second);
    var b := SortedSetsAdd(idx, keys, member, second);
    assert a.Keys == b.Keys;
    forall k | k in a ensures a[k] == b[k] {
      if k in keys {
        UpsertTwice(Lookup(idx, k), member, first, second);
        assert a[k] == Lookup(idx, k)[member := first][member := second];
      }
    }
  }

  /** `s.filter(keep)`: the elements of `s` that `keep` accepts, in order. */
  function Filter<T(!new)>(s: seq<T>, keep: T -> bool): (r: seq<T>)
    ensures |r| <= |s|
    ensures forall x :: x in r <==> x in s && keep(x)
  {
    if s == [] then []
    else (if keep(s[0]) then [s[0]] else []) + Filter(s[1..], keep)
  }
}
