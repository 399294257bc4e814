/**
 * The in-memory stand-in for the storage layer: a table is a map from
 * auto-increment id to row, listed in ascending id order; the query helpers
 * the services rely on (WHERE filters, ORDER BY createdAt DESC, COUNT and
 * GROUP BY) are functions over such listings.
 */
module Tables {

  import opened Wrappers

  /** Strictly ascending ids, hence no id twice. */
  predicate Increasing(ks: seq<int>) {
    forall i, j :: 0 <= i < j < |ks| ==> ks[i] < ks[j]
  }

  /** The ids of `m` that lie in [lo, hi), ascending: the order in which an unordered query lists rows. */
  function KeysFrom<T>(m: map<int, T>, lo: int, hi: int): (ks: seq<int>)
    decreases hi - lo
    ensures forall k {:trigger k in ks} :: k in ks <==> k in m && lo <= k < hi
    ensures forall i :: 0 <= i < |ks| ==> ks[i] in m && lo <= ks[i] < hi
    ensures Increasing(ks)
  {
    if lo >= hi then []
    else
      var rest := KeysFrom(m, lo + 1, hi);
      if lo in m then
        assert forall i :: 0 <= i < |rest| ==> rest[i] in rest && lo < rest[i];
        [lo] + rest
      else rest
  }

  /** The rows stored under the ids `ks`, in that order. */
  function RowsOf<T>(m: map<int, T>, ks: seq<int>): (rows: seq<T>)
    requires forall i :: 0 <= i < |ks| ==> ks[i] in m
    ensures |rows| == |ks|
    ensures forall i :: 0 <= i < |ks| ==> rows[i] == m[ks[i]]
  {
    if ks == [] then []
    else
      [m[ks[0]]] + RowsOf(m, ks[1..])
  }

  /** The ids among `ks` whose row satisfies `p`, in their order in `ks`: a WHERE clause over a listing. */
  function KeysWhere<T>(m: map<int, T>, ks: seq<int>, p: T -> bool): (r: seq<int>)
    ensures forall k {:trigger k in r} :: k in r <==> k in ks && k in m && p(m[k])
    ensures forall i :: 0 <= i < |r| ==> r[i] in m && p(m[r[i]])
    ensures Increasing(ks) ==> Increasing(r)
  {
    if ks == [] then []
    else
      var rest := KeysWhere(m, ks[1..], p);
      assert forall k :: k in ks <==> k == ks[0] || k in ks[1..];
      if ks[0] in m && p(m[ks[0]]) then
        assert Increasing(ks) ==> forall i :: 0 <= i < |rest| ==> ks[0] < rest[i] by {
          if Increasing(ks) {
            forall i | 0 <= i < |rest| ensures ks[0] < rest[i] {
              assert rest[i] in rest;
              var j :| 0 <= j < |ks[1..]| && ks[1..][j] == rest[i];
              assert ks[j + 1] == rest[i];
            }
          }
        }
        [ks[0]] + rest
      else rest
  }

  /** Listing [lo, hi) sees only which ids lie in that range. */
  lemma {:induction false} KeysFromSame<T>(m1: map<int, T>, m2: map<int, T>, lo: int, hi: int)
    requires forall k :: lo <= k < hi ==> (k in m1 <==> k in m2)
    decreases hi - lo
    ensures KeysFrom(m1, lo, hi) == KeysFrom(m2, lo, hi)
  {
    if lo < hi {
      KeysFromSame(m1, m2, lo + 1, hi);
    }
  }

  /** When every id of `m` is in [lo, hi), listing [lo, hi) lists every row exactly once. */
  lemma {:induction false} KeysFromCount<T>(m: map<int, T>, lo: int, hi: int)
    requires forall k :: k in m ==> lo <= k < hi
    decreases hi - lo
    ensures |KeysFrom(m, lo, hi)| == |m|
  {
    if lo >= hi {
      assert m == map[] by {
        forall k | k in m ensures false {
        }
      }
    } else if lo in m {
      var rest := m - {lo};
      assert |rest| == |m| - 1 by { assert rest.Keys == m.Keys - {lo}; }
      KeysFromCount(rest, lo + 1, hi);
      KeysFromSame(m, rest, lo + 1, hi);
    } else {
      KeysFromCount(m, lo + 1, hi);
    }
  }

  /** The table invariant: ids are positive and below the id counter, and every row carries its own id. */
  ghost predicate WellFormed<T>(m: map<int, T>, nextId: int, idOf: T -> int) {
    1 <= nextId && forall id :: id in m ==> 1 <= id < nextId && idOf(m[id]) == id
  }

  /** `findOne` by primary key: the row stored under `id`, or null when there is none. */
  function Lookup<T>(m: map<int, T>, nextId: int, idOf: T -> int, id: int): (r: Option<T>)
    requires WellFormed(m, nextId, idOf)
    ensures r.Some? <==> id in m
    ensures r.Some? ==> r.value == m[id] && idOf(r.value) == id
  {
    if id in m then Some(m[id]) else None
  }

  /** An unordered query over a well-formed table: every row exactly once, in ascending id order. */
  function Listing<T>(m: map<int, T>, nextId: int, idOf: T -> int): (rows: seq<T>)
    requires WellFormed(m, nextId, idOf)
    ensures |rows| == |m|
    ensures forall i :: 0 <= i < |rows| ==> idOf(rows[i]) in m && rows[i] == m[idOf(rows[i])]
    ensures forall i, j :: 0 <= i < j < |rows| ==> idOf(rows[i]) < idOf(rows[j])
  {
    KeysFromCount(m, 1, nextId);
    RowsOf(m, KeysFrom(m, 1, nextId))
  }

  /** A listing holds exactly the stored rows: each row it lists is stored under its id, and each stored row is listed. */
  lemma ListingHolds<T>(m: map<int, T>, nextId: int, idOf: T -> int)
    requires WellFormed(m, nextId, idOf)
    ensures forall x :: x in Listing(m, nextId, idOf) ==> idOf(x) in m && m[idOf(x)] == x
    ensures forall id :: id in m ==> m[id] in Listing(m, nextId, idOf)
  {
    var rows, ks := Listing(m, nextId, idOf), KeysFrom(m, 1, nextId);
    forall id | id in m ensures m[id] in rows {
      assert id in ks;
      var i :| 0 <= i < |ks| && ks[i] == id;
      assert rows[i] == m[id];
    }
  }

  /** No two entries of `s` carry the same id. */
  predicate DistinctIds<T>(s: seq<T>, idOf: T -> int) {
    forall i, j :: 0 <= i < j < |s| ==> idOf(s[i]) != idOf(s[j])
  }

  /** In a sequence of distinct ids, every element occurs at most once. */
  lemma {:induction false} DistinctOnce<T>(s: seq<T>, idOf: T -> int, x: T)
    requires DistinctIds(s, idOf)
    ensures multiset(s)[x] <= 1
  {
    if s != [] {
      var init := s[..|s| - 1];
      assert s == init + [s[|s| - 1]];
      DistinctOnce(init, idOf, x);
      if s[|s| - 1] == x {
        assert x !in init by {
          forall i | 0 <= i < |init| ensures init[i] != x {
            assert idOf(s[i]) != idOf(s[|s| - 1]);
          }
        }
      }
    }
  }

  /** Two positions holding the same element make it occur at least twice. */
  lemma TwiceCounted<T>(r: seq<T>, i: int, j: int)
    requires 0 <= i < j < |r| && r[i] == r[j]
    ensures multiset(r)[r[i]] >= 2
  {
    assert r == r[..j] + r[j..];
    assert r[i] in r[..j];
    assert r[j] in r[j..];
  }

  /**
   * A query result that takes each row of a well-formed table's listing at most as often as
   * the listing does lists every row at most once, so no id twice.
   */
  lemma ListingDistinct<T>(m: map<int, T>, nextId: int, idOf: T -> int, r: seq<T>)
    requires WellFormed(m, nextId, idOf)
    requires forall x :: multiset(r)[x] <= multiset(Listing(m, nextId, idOf))[x]
    ensures DistinctIds(r, idOf)
  {
    var rows := Listing(m, nextId, idOf);
    forall i, j | 0 <= i < j < |r| ensures idOf(r[i]) != idOf(r[j]) {
      if idOf(r[i]) == idOf(r[j]) {
        assert r[i] in multiset(rows) && r[j] in multiset(rows) by {
          assert r[i] in multiset(r) && r[j] in multiset(r);
        }
        var ki :| 0 <= ki < |rows| && rows[ki] == r[i];
        var kj :| 0 <= kj < |rows| && rows[kj] == r[j];
        assert r[i] == r[j];
        TwiceCounted(r, i, j);
        DistinctOnce(rows, idOf, r[i]);
        assert false;
      }
    }
  }

  // ---------------------------------------------------------------------
  // WHERE: Array.prototype.filter and its length

  /** The elements of `s` that satisfy `p`, in their order in `s`. */
  function Filter<T(!new)>(s: seq<T>, p: T -> bool): (r: seq<T>)
    ensures |r| <= |s|
    ensures forall x :: x in r <==> x in s && p(x)
  {
    if s == [] then []
    else
      var init := s[..|s| - 1];
      assert forall x :: x in s <==> x in init || x == s[|s| - 1];
      Filter(init, p) + (if p(s[|s| - 1]) then [s[|s| - 1]] else [])
  }

  /** Filtering keeps every copy of a satisfying element and drops every copy of the others. */
  lemma {:induction false} FilterMultiset<T(!new)>(s: seq<T>, p: T -> bool, x: T)
    ensures multiset(Filter(s, p))[x] == if p(x) then multiset(s)[x] else 0
  {
    if s != [] {
      var init := s[..|s| - 1];
      assert s == init + [s[|s| - 1]];
      FilterMultiset(init, p, x);
    }
  }

  /** Filtering depends only on which elements the predicate accepts. */
  lemma {:induction false} FilterSame<T(!new)>(s: seq<T>, p: T -> bool, q: T -> bool)
    requires forall x :: p(x) == q(x)
    ensures Filter(s, p) == Filter(s, q)
  {
    if s != [] {
      FilterSame(s[..|s| - 1], p, q);
    }
  }

  /** Two orderings of the same rows have equally many rows satisfying `p`. */
  lemma FilterPermutation<T(!new)>(s: seq<T>, t: seq<T>, p: T -> bool)
    requires multiset(s) == multiset(t)
    ensures multiset(Filter(s, p)) == multiset(Filter(t, p))
    ensures |Filter(s, p)| == |Filter(t, p)|
  {
    forall x ensures multiset(Filter(s, p))[x] == multiset(Filter(t, p))[x] {
      FilterMultiset(s, p, x);
      FilterMultiset(t, p, x);
    }
    assert multiset(Filter(s, p)) == multiset(Filter(t, p));
    assert |multiset(Filter(s, p))| == |Filter(s, p)|;
    assert |multiset(Filter(t, p))| == |Filter(t, p)|;
  }

  /** Filtering twice keeps as many elements as filtering once on both conditions. */
  lemma FilterFilterCount<T(!new)>(s: seq<T>, q: T -> bool, p: T -> bool, both: T -> bool)
    requires forall x :: both(x) == (q(x) && p(x))
    ensures |Filter(Filter(s, q), p)| == |Filter(s, both)|
  {
    forall x ensures multiset(Filter(Filter(s, q), p))[x] == multiset(Filter(s, both))[x] {
      FilterMultiset(Filter(s, q), p, x);
      FilterMultiset(s, q, x);
      FilterMultiset(s, both, x);
    }
    assert multiset(Filter(Filter(s, q), p)) == multiset(Filter(s, both));
    assert |multiset(Filter(Filter(s, q), p))| == |Filter(Filter(s, q), p)|;
    assert |multiset(Filter(s, both))| == |Filter(s, both)|;
  }

  /** Filtering by `p` and then by `q` is filtering by their conjunction `r`. */
  lemma {:induction false} FilterFilter<T(!new)>(s: seq<T>, p: T -> bool, q: T -> bool, r: T -> bool)
    requires forall x :: r(x) == (p(x) && q(x))
    ensures Filter(Filter(s, p), q) == Filter(s, r)
  {
    if s != [] {
      var init, y := s[..|s| - 1], s[|s| - 1];
      FilterFilter(init, p, q, r);
      if p(y) {
        var fp := Filter(init, p);
        assert (fp + [y])[..|fp + [y]| - 1] == fp;
      } else {
        assert Filter(init, p) + [] == Filter(init, p);
      }
    }
  }

  /** No element satisfies both `p` and `q`: the two filters together take at most every element. */
  lemma {:induction false} FilterDisjoint<T(!new)>(s: seq<T>, p: T -> bool, q: T -> bool)
    requires forall x :: !(p(x) && q(x))
    ensures |Filter(s, p)| + |Filter(s, q)| <= |s|
  {
    if s != [] {
      FilterDisjoint(s[..|s| - 1], p, q);
    }
  }

  // ---------------------------------------------------------------------
  // ORDER BY createdAt DESC

  /** Newest first: keys never increase along `s`. */
  predicate SortedDesc<T>(s: seq<T>, key: T -> int) {
    forall i, j :: 0 <= i < j < |s| ==> key(s[i]) >= key(s[j])
  }

  /** Inserts `x` before the first element whose key is not greater than its own. */
  function InsertDesc<T(!new)>(x: T, s: seq<T>, key: T -> int): (r: seq<T>)
    ensures multiset(r) == multiset(s) + multiset{x}
    ensures |r| == |s| + 1
    ensures r[0] == x || (s != [] && r[0] == s[0])
  {
    if s == [] || key(x) >= key(s[0]) then [x] + s
    else
      assert s == [s[0]] + s[1..];
      [s[0]] + InsertDesc(x, s[1..], key)
  }

  /** Inserting into a newest-first sequence keeps it newest first. */
  lemma {:induction false} InsertDescSorted<T(!new)>(x: T, s: seq<T>, key: T -> int)
    requires SortedDesc(s, key)
    ensures SortedDesc(InsertDesc(x, s, key), key)
  {
    if s != [] && key(x) < key(s[0]) {
      InsertDescSorted(x, s[1..], key);
      var rest := InsertDesc(x, s[1..], key);
      assert key(s[0]) >= key(rest[0]);
      assert InsertDesc(x, s, key) == [s[0]] + rest;
    }
  }

  /** Insertion sort, newest first; rows with equal keys keep their listing order. */
  function SortDesc<T(!new)>(s: seq<T>, key: T -> int): (r: seq<T>)
    ensures multiset(r) == multiset(s)
    ensures SortedDesc(r, key)
  {
    if s == [] then []
    else
      assert s == [s[0]] + s[1..];
      var sorted := SortDesc(s[1..], key);
      InsertDescSorted(s[0], sorted, key);
      InsertDesc(s[0], sorted, key)
  }

  // ---------------------------------------------------------------------
  // GROUP BY / reduce((acc, x) => { acc[k] = (acc[k] || 0) + 1 })

  /** One step of the counting reduce: the counter of `k` goes up by one, starting from 0. */
  function Bump<K(==)>(m: map<K, nat>, k: K): map<K, nat> {
    m[k := (if k in m then m[k] else 0) + 1]
  }

  /** The counting reduce over `s`, left to right. */
  function CountBy<T, K(==,!new)>(s: seq<T>, key: T -> K): (m: map<K, nat>)
    ensures forall k :: k in m ==> m[k] >= 1
    ensures forall k :: k in m <==> exists i :: 0 <= i < |s| && key(s[i]) == k
  {
    if s == [] then map[]
    else
      var init := s[..|s| - 1];
      var m := CountBy(init, key);
      assert forall i :: 0 <= i < |init| ==> s[i] == init[i];
      Bump(m, key(s[|s| - 1]))
  }

  /** The number of elements of `s` whose key is `k`. */
  function Occurrences<T, K(==)>(s: seq<T>, key: T -> K, k: K): nat {
    if s == [] then 0
    else Occurrences(s[..|s| - 1], key, k) + (if key(s[|s| - 1]) == k then 1 else 0)
  }

  /** The counter of a key is the number of elements carrying it (0 when the key is absent). */
  lemma {:induction false} CountByCounts<T, K(!new)>(s: seq<T>, key: T -> K, k: K)
    ensures (if k in CountBy(s, key) then CountBy(s, key)[k] else 0) == Occurrences(s, key, k)
  {
    if s != [] {
      CountByCounts(s[..|s| - 1], key, k);
    }
  }

  /** Counting the elements with key `k` is filtering on a predicate that holds exactly for key `k`. */
  lemma {:induction false} OccurrencesFilter<T(!new), K>(s: seq<T>, key: T -> K, k: K, p: T -> bool)
    requires forall x :: p(x) == (key(x) == k)
    ensures Occurrences(s, key, k) == |Filter(s, p)|
  {
    if s != [] {
      OccurrencesFilter(s[..|s| - 1], key, k, p);
    }
  }

  /** Some key of a non-empty map. */
  ghost function Pick<K>(m: map<K, nat>): K
    requires |m| > 0
  {
    assert m.Keys != {} by { assert |m.Keys| == |m|; }
    var k :| k in m; k
  }

  /** The sum of the counters of a map. */
  ghost function MapSum<K>(m: map<K, nat>): nat
    decreases |m|
  {
    if |m| == 0 then 0
    else
      var k := Pick(m);
      assert |m - {k}| == |m| - 1 by { assert (m - {k}).Keys == m.Keys - {k}; }
      m[k] + MapSum(m - {k})
  }

  /** MapSum may take out any key first. */
  lemma {:induction false} MapSumRemove<K>(m: map<K, nat>, k: K)
    requires k in m
    decreases |m|
    ensures MapSum(m) == m[k] + MapSum(m - {k})
  {
    var j := Pick(m);
    if j != k {
      assert (m - {j}).Keys == m.Keys - {j};
      assert (m - {k}).Keys == m.Keys - {k};
      MapSumRemove(m - {j}, k);
      MapSumRemove(m - {k}, j);
      assert (m - {j}) - {k} == (m - {k}) - {j};
    }
  }

  /** One counting step adds one to the sum of the counters. */
  lemma MapSumBump<K>(m: map<K, nat>, k: K)
    ensures MapSum(Bump(m, k)) == MapSum(m) + 1
  {
    var b := Bump(m, k);
    MapSumRemove(b, k);
    if k in m {
      MapSumRemove(m, k);
      assert b - {k} == m - {k};
    } else {
      assert b - {k} == m;
    }
  }

  /** The counters of a counting reduce add up to the number of elements counted. */
  lemma {:induction false} CountBySum<T, K(!new)>(s: seq<T>, key: T -> K)
    ensures MapSum(CountBy(s, key)) == |s|
  {
    if s != [] {
      CountBySum(s[..|s| - 1], key);
      MapSumBump(CountBy(s[..|s| - 1], key), key(s[|s| - 1]));
    }
  }
}
