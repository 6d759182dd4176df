/** Generic sequence operations that the TypeScript code gets from `Array.prototype`:
    `find`, `filter`, `reduce` and the (stable) `sort` with a numeric comparator. */
module Collections {

  datatype Option<T> = None | Some(value: T)

  datatype Result<T> = Ok(value: T) | Err(message: string)

  /** `o ?? 0` and `o || 0` on an optional integer. */
  function Or0(o: Option<int>): int
  {
    if o.Some? then o.value else 0
  }

  /** Index of the first element satisfying `p`, as `Array.prototype.findIndex`. */
  function FindIndex<T>(s: seq<T>, p: T -> bool): (r: Option<nat>)
    ensures r.Some? ==> r.value < |s| && p(s[r.value])
    ensures r.Some? ==> forall j :: 0 <= j < r.value ==> !p(s[j])
    ensures r.None? ==> forall j :: 0 <= j < |s| ==> !p(s[j])
  {
    if s == [] then None
    else if p(s[0]) then Some(0)
    else match FindIndex(s[1..], p)
      case None => None
      case Some(k) => Some(k + 1)
  }

  /** `Array.prototype.filter`: keeps the elements satisfying `p`, in their order. */
  function Filter<T(!new)>(s: seq<T>, p: T -> bool): (r: seq<T>)
    ensures |r| <= |s|
    ensures forall x :: x in r <==> x in s && p(x)
    ensures multiset(r) <= multiset(s)
  {
    if s == [] then []
    else
      assert s == [s[0]] + s[1..];
      (if p(s[0]) then [s[0]] else []) + Filter(s[1..], p)
  }

  /** Every element of `s` has a key strictly smaller than the next one's. */
  predicate IncreasingBy<T>(s: seq<T>, id: T -> int)
  {
    forall i, j :: 0 <= i < j < |s| ==> id(s[i]) < id(s[j])
  }

  /** `s` is ordered by `key`, ties allowed. */
  predicate SortedBy<T>(s: seq<T>, key: T -> int)
  {
    forall i, j :: 0 <= i < j < |s| ==> key(s[i]) <= key(s[j])
  }

  /** `x` comes strictly before `y` in the lexicographic order on (key, id). */
  predicate LexBefore<T>(x: T, y: T, key: T -> int, id: T -> int)
  {
    key(x) < key(y) || (key(x) == key(y) && id(x) < id(y))
  }

  /** `s` is strictly ordered by (key, id): by key, and ties by increasing id. */
  predicate LexIncreasing<T>(s: seq<T>, key: T -> int, id: T -> int)
  {
    forall i, j :: 0 <= i < j < |s| ==> LexBefore(s[i], s[j], key, id)
  }

  lemma {:induction false} FilterKeepsIncreasing<T(!new)>(s: seq<T>, p: T -> bool, id: T -> int)
    requires IncreasingBy(s, id)
    ensures IncreasingBy(Filter(s, p), id)
  {
    if s != [] {
      FilterKeepsIncreasing(s[1..], p, id);
      var rest := Filter(s[1..], p);
      forall y | y in rest ensures id(s[0]) < id(y) {
        var j :| 0 <= j < |s[1..]| && s[1..][j] == y;
        assert s[j + 1] == y;
      }
    }
  }

  /** Inserts `x` before the first element whose key is not smaller than its own. */
  function InsertByKey<T>(x: T, s: seq<T>, key: T -> int): (r: seq<T>)
    ensures multiset(r) == multiset(s) + multiset{x}
    ensures |r| == |s| + 1
  {
    if s == [] || key(x) <= key(s[0]) then [x] + s
    else
      assert s == [s[0]] + s[1..];
      [s[0]] + InsertByKey(x, s[1..], key)
  }

  /** The stable sort `[...s].sort((a, b) => key(a) - key(b))`. */
  function SortByKey<T>(s: seq<T>, key: T -> int): (r: seq<T>)
    ensures multiset(r) == multiset(s)
    ensures |r| == |s|
    ensures SortedBy(r, key)
  {
    if s == [] then []
    else
      assert s == [s[0]] + s[1..];
      var rest := SortByKey(s[1..], key);
      InsertKeepsSorted(s[0], rest, key);
      InsertByKey(s[0], rest, key)
  }

  lemma {:induction false} InsertKeepsSorted<T>(x: T, s: seq<T>, key: T -> int)
    requires SortedBy(s, key)
    ensures SortedBy(InsertByKey(x, s, key), key)
  {
    if s != [] && key(x) > key(s[0]) {
      var tail := InsertByKey(x, s[1..], key);
      InsertKeepsSorted(x, s[1..], key);
      forall y | y in tail ensures key(s[0]) <= key(y) {
        assert y in multiset(tail);
        assert y == x || y in multiset(s[1..]);
      }
    }
  }

  lemma {:induction false} InsertKeepsLex<T>(x: T, s: seq<T>, key: T -> int, id: T -> int)
    requires LexIncreasing(s, key, id)
    requires forall y :: y in s ==> id(x) < id(y)
    ensures LexIncreasing(InsertByKey(x, s, key), key, id)
  {
    if s == [] {
    } else if key(x) <= key(s[0]) {
      var r := [x] + s;
      forall i, j | 0 <= i < j < |r| ensures LexBefore(r[i], r[j], key, id) {
        if i == 0 {
          assert r[j] in s;
          if j > 1 {
            assert LexBefore(s[0], s[j - 1], key, id);
          }
        } else {
          assert r[i] == s[i - 1] && r[j] == s[j - 1];
        }
      }
    } else {
      var tail := InsertByKey(x, s[1..], key);
      InsertKeepsLex(x, s[1..], key, id);
      var r := [s[0]] + tail;
      forall i, j | 0 <= i < j < |r| ensures LexBefore(r[i], r[j], key, id) {
        if i == 0 {
          assert r[j] in multiset(tail);
          assert r[j] == x || r[j] in multiset(s[1..]);
          if r[j] != x {
            var k :| 0 <= k < |s[1..]| && s[1..][k] == r[j];
            assert LexBefore(s[0], s[k + 1], key, id);
          }
        } else {
          assert r[i] == tail[i - 1] && r[j] == tail[j - 1];
        }
      }
    }
  }

  /** The sort is stable: on input whose ids increase, equal keys stay in id order, so the
      output is strictly increasing in (key, id). */
  lemma {:induction false} SortByKeyStable<T>(s: seq<T>, key: T -> int, id: T -> int)
    requires IncreasingBy(s, id)
    ensures LexIncreasing(SortByKey(s, key), key, id)
  {
    if s != [] {
      assert s == [s[0]] + s[1..];
      SortByKeyStable(s[1..], key, id);
      var rest := SortByKey(s[1..], key);
      forall y | y in rest ensures id(s[0]) < id(y) {
        assert y in multiset(s[1..]);
        var j :| 0 <= j < |s[1..]| && s[1..][j] == y;
        assert s[j + 1] == y;
      }
      InsertKeepsLex(s[0], rest, key, id);
    }
  }

  /** `s.filter(p).sort(comparator on key)`: exactly the elements satisfying `p`, ordered by
      key, ties kept in their original order. */
  function FilterSorted<T(!new)>(s: seq<T>, p: T -> bool, key: T -> int, id: T -> int): (r: seq<T>)
    ensures forall x :: x in r <==> x in s && p(x)
    ensures IncreasingBy(s, id) ==> LexIncreasing(r, key, id)
  {
    var f := Filter(s, p);
    var r := SortByKey(f, key);
    assert forall x :: x in r <==> x in multiset(f);
    if IncreasingBy(s, id) then
      FilterKeepsIncreasing(s, p, id);
      SortByKeyStable(f, key, id);
      r
    else r
  }
}
