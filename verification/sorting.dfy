/**
  `[...s].sort(cmp)`. Array.prototype.sort is stable, so for a comparator that is consistent
  the result is fully determined; it is modelled here by a stable insertion sort, where
  `le(a, b)` stands for `cmp(a, b) <= 0`.
 */
module Sorting {
  import opened Seqs

  /** `le` is a total preorder: reflexive, transitive and total. */
  ghost predicate TotalPreorder<T(!new)>(le: (T, T) -> bool) {
    && (forall x :: le(x, x))
    && (forall x, y, z :: le(x, y) && le(y, z) ==> le(x, z))
    && (forall x, y :: le(x, y) || le(y, x))
  }

  ghost predicate Sorted<T>(s: seq<T>, le: (T, T) -> bool) {
    forall i, j :: 0 <= i < j < |s| ==> le(s[i], s[j])
  }

  /** Places `x` after the leading elements `e` of `t` with `le(e, x)`; on a sorted `t` these
      are exactly the elements that do not compare greater than `x`, so equal elements keep
      their order. */
  function Insert<T>(t: seq<T>, x: T, le: (T, T) -> bool): (r: seq<T>)
    ensures |r| == |t| + 1
    ensures multiset(r) == multiset(t) + multiset{x}
  {
    if t == [] then [x]
    else if le(t[0], x) then
      assert t == [t[0]] + t[1..];
      [t[0]] + Insert(t[1..], x, le)
    else [x] + t
  }

  /** The stable sort: each element in turn is inserted into the sorted prefix. */
  function SortBy<T>(s: seq<T>, le: (T, T) -> bool): (r: seq<T>)
    ensures |r| == |s|
    ensures multiset(r) == multiset(s)
  {
    if s == [] then []
    else
      assert s == s[..|s| - 1] + [s[|s| - 1]];
      Insert(SortBy(s[..|s| - 1], le), s[|s| - 1], le)
  }

  /** Inserting into a sorted sequence keeps it sorted. */
  lemma {:induction false} InsertSorted<T(!new)>(t: seq<T>, x: T, le: (T, T) -> bool)
    requires TotalPreorder(le)
    requires Sorted(t, le)
    ensures Sorted(Insert(t, x, le), le)
  {
    if t != [] {
      var r := Insert(t, x, le);
      if le(t[0], x) {
        InsertSorted(t[1..], x, le);
        var rest := Insert(t[1..], x, le);
        forall i | 0 <= i < |rest|
          ensures le(t[0], rest[i])
        {
          assert rest[i] in multiset(rest);
          if rest[i] != x {
            assert rest[i] in multiset(t[1..]);
            var k :| 0 <= k < |t[1..]| && t[1..][k] == rest[i];
            assert t[k + 1] == rest[i];
          }
        }
        assert r == [t[0]] + rest;
      } else {
        assert le(x, t[0]);
        assert r == [x] + t;
      }
    }
  }

  /** The sort returns its input sorted under a total preorder. */
  lemma {:induction false} SortBySorted<T(!new)>(s: seq<T>, le: (T, T) -> bool)
    requires TotalPreorder(le)
    ensures Sorted(SortBy(s, le), le)
  {
    if s != [] {
      SortBySorted(s[..|s| - 1], le);
      InsertSorted(SortBy(s[..|s| - 1], le), s[|s| - 1], le);
    }
  }

  /** For a comparator that only ranks elements as low or high (`cmp` of the form
      `rank(a) - rank(b)` with two ranks), the stable sort is the low elements in their
      original order followed by the high ones in theirs. */
  lemma {:induction false} TwoRankSort<T>(s: seq<T>, le: (T, T) -> bool, high: T -> bool, low: T -> bool)
    requires forall a, b :: le(a, b) == (!high(a) || high(b))
    requires forall a :: low(a) == !high(a)
    ensures SortBy(s, le) == Filter(s, low) + Filter(s, high)
  {
    if s != [] {
      var init := s[..|s| - 1];
      var x := s[|s| - 1];
      assert s == init + [x];
      TwoRankSort(init, le, high, low);
      FilterSnoc(init, x, low);
      FilterSnoc(init, x, high);
      TwoRankInsert(Filter(init, low), Filter(init, high), x, le, high, low);
    }
  }

  /** One insertion step of `TwoRankSort`. */
  lemma TwoRankInsert<T>(lows: seq<T>, highs: seq<T>, x: T, le: (T, T) -> bool, high: T -> bool, low: T -> bool)
    requires forall a, b :: le(a, b) == (!high(a) || high(b))
    requires forall a :: low(a) == !high(a)
    requires forall i :: 0 <= i < |lows| ==> low(lows[i])
    requires forall i :: 0 <= i < |highs| ==> high(highs[i])
    ensures Insert(lows + highs, x, le)
         == (lows + (if low(x) then [x] else [])) + (highs + (if high(x) then [x] else []))
  {
    if high(x) {
      InsertHigh(lows + highs, x, le);
      assert lows + highs + [x] == lows + (highs + [x]);
    } else {
      if highs != [] {
        assert high(highs[0]);
      }
      InsertLow(lows, highs, x, le);
    }
  }

  /** A high element is inserted at the end. */
  lemma {:induction false} InsertHigh<T>(t: seq<T>, x: T, le: (T, T) -> bool)
    requires forall i :: 0 <= i < |t| ==> le(t[i], x)
    ensures Insert(t, x, le) == t + [x]
  {
    if t != [] {
      InsertHigh(t[1..], x, le);
      assert t == [t[0]] + t[1..];
    }
  }

  /** An element that does not compare below any element of `lows` but compares below the
      first of `highs` is inserted between the two. */
  lemma {:induction false} InsertLow<T>(lows: seq<T>, highs: seq<T>, x: T, le: (T, T) -> bool)
    requires forall i :: 0 <= i < |lows| ==> le(lows[i], x)
    requires highs != [] ==> !le(highs[0], x)
    ensures Insert(lows + highs, x, le) == lows + [x] + highs
  {
    var t := lows + highs;
    if lows == [] {
      assert t == highs;
      if highs == [] {
        assert Insert(t, x, le) == [x];
      }
    } else {
      assert t[0] == lows[0] && le(t[0], x);
      assert t[1..] == lows[1..] + highs;
      InsertLow(lows[1..], highs, x, le);
      assert Insert(t, x, le) == [lows[0]] + (lows[1..] + [x] + highs);
      assert lows == [lows[0]] + lows[1..];
      assert [lows[0]] + (lows[1..] + [x] + highs) == lows + [x] + highs;
    }
  }
}
