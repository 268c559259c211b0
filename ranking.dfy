/** The order and tie rules the leaderboard relies on: `Array.prototype.sort` with a numeric
    comparator, which ECMAScript requires to be stable (section 23.1.3.30 of ECMA-262), so
    that equal keys keep their input order; `Math.max` over a list; and the filters that
    keep every entry tied with the best one. */
module Ranking {

  /** Index i comes before index j in a stable ascending sort by key. */
  predicate Before(keys: seq<int>, i: int, j: int)
    requires 0 <= i < |keys| && 0 <= j < |keys|
  {
    keys[i] < keys[j] || (keys[i] == keys[j] && i < j)
  }

  predicate IsIndexList(keys: seq<int>, s: seq<int>) {
    forall k :: 0 <= k < |s| ==> 0 <= s[k] < |keys|
  }

  predicate StrictlySorted(keys: seq<int>, s: seq<int>)
    requires IsIndexList(keys, s)
  {
    forall a, b :: 0 <= a < b < |s| ==> Before(keys, s[a], s[b])
  }

  /** Inserts index i after every index that comes before it. */
  function Insert(keys: seq<int>, s: seq<int>, i: int): (r: seq<int>)
    requires IsIndexList(keys, s) && 0 <= i < |keys|
    ensures IsIndexList(keys, r) && |r| == |s| + 1
    ensures forall x :: x in r <==> x in s || x == i
    ensures StrictlySorted(keys, s) && i !in s ==> StrictlySorted(keys, r)
  {
    if s == [] then [i]
    else if Before(keys, i, s[0]) then
      var r := [i] + s;
      assert StrictlySorted(keys, s) ==> StrictlySorted(keys, r) by {
        if StrictlySorted(keys, s) {
          forall k | 0 < k < |s| ensures Before(keys, i, s[k]) {
            assert Before(keys, s[0], s[k]);
          }
          ConsSorted(keys, i, s);
        }
      }
      r
    else
      var tail := Insert(keys, s[1..], i);
      var r := [s[0]] + tail;
      assert forall x :: x in s <==> x == s[0] || x in s[1..];
      assert StrictlySorted(keys, s) && i !in s ==> StrictlySorted(keys, r) by {
        if StrictlySorted(keys, s) && i !in s {
          TailSorted(keys, s);
          forall k | 0 <= k < |tail| ensures Before(keys, s[0], tail[k]) {
            assert tail[k] in tail;
            if tail[k] != i {
              var m :| 0 <= m < |s[1..]| && s[1..][m] == tail[k];
              assert Before(keys, s[0], s[m + 1]);
            }
          }
          ConsSorted(keys, s[0], tail);
        }
      }
      r
  }

  /** An index that comes before every index of a sorted list can go in front of it. */
  lemma ConsSorted(keys: seq<int>, x: int, s: seq<int>)
    requires 0 <= x < |keys| && IsIndexList(keys, s) && StrictlySorted(keys, s)
    requires forall k :: 0 <= k < |s| ==> Before(keys, x, s[k])
    ensures IsIndexList(keys, [x] + s) && StrictlySorted(keys, [x] + s)
  {
    var r := [x] + s;
    forall a, b | 0 <= a < b < |r| ensures Before(keys, r[a], r[b]) {
      assert r[b] == s[b - 1];
      if a > 0 {
        assert r[a] == s[a - 1];
      }
    }
  }

  lemma TailSorted(keys: seq<int>, s: seq<int>)
    requires IsIndexList(keys, s) && StrictlySorted(keys, s) && s != []
    ensures IsIndexList(keys, s[1..]) && StrictlySorted(keys, s[1..])
  {
    forall a, b | 0 <= a < b < |s[1..]| ensures Before(keys, s[1..][a], s[1..][b]) {
      assert s[1..][a] == s[a + 1] && s[1..][b] == s[b + 1];
    }
  }

  /** Insertion of the indices 0 to n - 1 in turn. */
  function InsertAll(keys: seq<int>, n: nat): (r: seq<int>)
    requires n <= |keys|
    ensures IsIndexList(keys, r) && |r| == n && StrictlySorted(keys, r)
    ensures forall x :: x in r <==> 0 <= x < n
  {
    if n == 0 then [] else Insert(keys, InsertAll(keys, n - 1), n - 1)
  }

  /** The indices of `keys` in the order a stable ascending sort leaves them: every index
      exactly once, each before all that come after it. */
  function SortedIndices(keys: seq<int>): (r: seq<int>)
    ensures IsIndexList(keys, r) && |r| == |keys| && StrictlySorted(keys, r)
    ensures forall x :: x in r <==> 0 <= x < |keys|
  {
    InsertAll(keys, |keys|)
  }

  /** Two strictly sorted lists with the same elements are the same list: any sort that is
      stable yields SortedIndices. */
  lemma {:induction false} SortedUnique(keys: seq<int>, a: seq<int>, b: seq<int>)
    requires IsIndexList(keys, a) && IsIndexList(keys, b)
    requires StrictlySorted(keys, a) && StrictlySorted(keys, b)
    requires forall x :: x in a <==> x in b
    ensures a == b
    decreases |a|
  {
    if a == [] {
      EmptyOrHasHead(b);
    } else {
      assert |b| > 0 by { assert a[0] in a; }
      HeadFirst(keys, b, a[0]);
      HeadFirst(keys, a, b[0]);
      forall x ensures x in a[1..] <==> x in b[1..] {
        assert x in a <==> x == a[0] || x in a[1..];
        assert x in b <==> x == b[0] || x in b[1..];
        if x in a[1..] {
          var m :| 0 <= m < |a[1..]| && a[1..][m] == x;
          assert Before(keys, a[0], a[m + 1]);
        }
        if x in b[1..] {
          var m :| 0 <= m < |b[1..]| && b[1..][m] == x;
          assert Before(keys, b[0], b[m + 1]);
        }
      }
      SortedTail(keys, a);
      SortedTail(keys, b);
      SortedUnique(keys, a[1..], b[1..]);
      assert a == [a[0]] + a[1..] && b == [b[0]] + b[1..];
    }
  }

  lemma EmptyOrHasHead(s: seq<int>)
    ensures s == [] || s[0] in s
  {
  }

  /** The head of a strictly sorted list comes before each of its other elements. */
  lemma HeadFirst(keys: seq<int>, s: seq<int>, x: int)
    requires s != [] && IsIndexList(keys, s) && StrictlySorted(keys, s) && x in s
    ensures x != s[0] ==> Before(keys, s[0], x)
  {
    var b :| 0 <= b < |s| && s[b] == x;
  }

  lemma SortedTail(keys: seq<int>, s: seq<int>)
    requires s != [] && IsIndexList(keys, s) && StrictlySorted(keys, s)
    ensures IsIndexList(keys, s[1..]) && StrictlySorted(keys, s[1..])
  {
    forall a, b | 0 <= a < b < |s[1..]| ensures Before(keys, s[1..][a], s[1..][b]) {
      assert s[1..][a] == s[a + 1] && s[1..][b] == s[b + 1];
    }
  }

  /** The first index of the sort has the least key, and among the indices with that key
      it is the earliest. */
  lemma FirstIsLeast(keys: seq<int>, j: int)
    requires keys != [] && 0 <= j < |keys|
    ensures var s := SortedIndices(keys); j != s[0] ==> Before(keys, s[0], j)
  {
    var s := SortedIndices(keys);
    if j != s[0] {
      assert j in s;
      var b :| 0 <= b < |s| && s[b] == j;
    }
  }

  /** The last index of the sort has the greatest key, and among the indices with that key
      it is the latest. */
  lemma LastIsGreatest(keys: seq<int>, j: int)
    requires keys != [] && 0 <= j < |keys|
    ensures var s := SortedIndices(keys); j != s[|s| - 1] ==> Before(keys, j, s[|s| - 1])
  {
    var s := SortedIndices(keys);
    if j != s[|s| - 1] {
      assert j in s;
      var b :| 0 <= b < |s| && s[b] == j;
    }
  }

  /** The second index of the sort differs from the first and comes before every other. */
  lemma SecondIsNextLeast(keys: seq<int>, j: int)
    requires |keys| >= 2 && 0 <= j < |keys|
    ensures var s := SortedIndices(keys); s[1] != s[0] && (j != s[0] && j != s[1] ==> Before(keys, s[1], j))
  {
    var s := SortedIndices(keys);
    assert Before(keys, s[0], s[1]);
    if j != s[0] && j != s[1] {
      assert j in s;
      var b :| 0 <= b < |s| && s[b] == j;
    }
  }

  /** The keys of a descending sort: `(a, b) => b.score - a.score` orders by the negated score. */
  function Negated(values: seq<int>): (r: seq<int>)
    ensures |r| == |values| && forall i :: 0 <= i < |values| ==> r[i] == -values[i]
  {
    seq(|values|, i requires 0 <= i < |values| => -values[i])
  }

  /** `Math.max(...values)` for a non-empty list. */
  function MaxOf(values: seq<int>): (m: int)
    requires values != []
    ensures forall i :: 0 <= i < |values| ==> values[i] <= m
    ensures exists i :: 0 <= i < |values| && values[i] == m
  {
    if |values| == 1 then values[0]
    else
      var rest := MaxOf(values[1..]);
      assert forall i :: 1 <= i < |values| ==> values[i] == values[1..][i - 1];
      if values[0] >= rest then values[0] else rest
  }

  /** The names, in the given order of indices, whose value equals `top`. */
  function FilterAt(names: seq<string>, values: seq<int>, order: seq<int>, top: int): (r: seq<string>)
    requires |names| == |values| && IsIndexList(values, order)
    ensures forall x :: x in r <==> exists k :: 0 <= k < |order| && values[order[k]] == top && names[order[k]] == x
  {
    if order == [] then []
    else
      var rest := FilterAt(names, values, order[1..], top);
      assert forall k :: 1 <= k < |order| ==> order[k] == order[1..][k - 1];
      (if values[order[0]] == top then [names[order[0]]] else []) + rest
  }

  /** The indices 0 to n - 1 in increasing order. */
  function Range(n: nat): (r: seq<int>)
    ensures |r| == n && forall k :: 0 <= k < n ==> r[k] == k
  {
    seq(n, k => k)
  }

  /** `Object.entries(stats).sort((a, b) => b[1].x - a[1].x).filter((a, i, arr) => a[1].x ===
      arr[0][1].x)`, as names: the entries sorted by descending value, keeping those equal
      to the first. They are exactly the names whose value is the maximum. */
  function MostBy(names: seq<string>, values: seq<int>): (r: seq<string>)
    requires |names| == |values|
    ensures values != [] ==> forall x :: x in r <==> exists i :: 0 <= i < |values| && names[i] == x && values[i] == MaxOf(values)
    ensures values != [] ==> r != []
    ensures values == [] ==> r == []
  {
    if values == [] then []
    else
      var order := SortedIndices(Negated(values));
      var r := FilterAt(names, values, order, values[order[0]]);
      assert values[order[0]] == MaxOf(values) by {
        var i :| 0 <= i < |values| && values[i] == MaxOf(values);
        FirstIsLeast(Negated(values), i);
      }
      assert forall x :: (exists i :: 0 <= i < |values| && names[i] == x && values[i] == MaxOf(values))
                     ==> x in r by {
        forall x, i | 0 <= i < |values| && names[i] == x && values[i] == MaxOf(values) ensures x in r {
          assert i in order;
          var k :| 0 <= k < |order| && order[k] == i;
        }
      }
      assert names[order[0]] in r;
      r
  }

  /** `consistency.filter((c) => c.score === max).map((c) => c.player)` with max the
      `Math.max` of the scores: the names whose score is the maximum, in list order. */
  function TiesAtMax(names: seq<string>, values: seq<int>): (r: seq<string>)
    requires |names| == |values|
    ensures values != [] ==> forall x :: x in r <==> exists i :: 0 <= i < |values| && names[i] == x && values[i] == MaxOf(values)
    ensures values != [] ==> r != []
    ensures values == [] ==> r == []
  {
    if values == [] then []
    else
      var r := FilterAt(names, values, Range(|values|), MaxOf(values));
      assert forall x :: (exists i :: 0 <= i < |values| && names[i] == x && values[i] == MaxOf(values))
                     ==> x in r by {
        forall x, i | 0 <= i < |values| && names[i] == x && values[i] == MaxOf(values) ensures x in r {
          assert Range(|values|)[i] == i;
        }
      }
      assert r != [] by {
        var i :| 0 <= i < |values| && values[i] == MaxOf(values);
        assert Range(|values|)[i] == i;
        assert names[i] in r;
      }
      r
  }

  /** The keys of an object built by assigning `acc[p]` for each p in turn: each name once,
      at its first occurrence. */
  function Dedup(names: seq<string>): (r: seq<string>)
    ensures forall x :: x in r <==> x in names
    ensures forall a, b :: 0 <= a < b < |r| ==> r[a] != r[b]
  {
    if names == [] then []
    else
      var init := Dedup(names[..|names| - 1]);
      var last := names[|names| - 1];
      assert forall x :: x in names <==> x in names[..|names| - 1] || x == last by {
        assert names == names[..|names| - 1] + [last];
      }
      if last in init then init else init + [last]
  }
}
