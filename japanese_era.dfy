/**
 * `DateUtil.JapaneseYearType`: eras of the Japanese calendar, each known by
 * the day it starts, and `match`, which finds the era an instant belongs to.
 *
 * `match` copies the table, sorts the copy by start time, latest first, with
 * a stable sort, and returns the first entry that starts no later than the
 * instant. Its specification `Latest` needs no sorting: the entry with the
 * greatest start time not after the instant, the first declared on a tie.
 */
module JapaneseEra {
  import opened Wrappers
  import opened Calendar

  /**
   * An era: its position in the declaration (Java's `ordinal()`) and the day
   * it starts. The Japanese and romanised names are not modelled.
   */
  datatype Era = Era(ordinal: nat, startYear: int, startMonth: int, startDay: int) {
    /** Midnight of the first day, as `parse("y/M/d")` reads the start. */
    function StartDate(): DateTime {
      DateTime(startYear, startMonth, startDay, 0, 0, 0, 0)
    }
  }

  /** `getStartTime()`. */
  function StartTime(e: Era): int {
    Time(DateTime(e.startYear, e.startMonth, e.startDay, 0, 0, 0, 0))
  }

  // ----- Specification -----

  /** The entry with the greatest start time not after `time`; on a tie, the first declared. */
  function Latest(table: seq<Era>, time: int): (r: Option<Era>)
    ensures r.Some? ==> r.value in table && StartTime(r.value) <= time
    decreases |table|
  {
    if table == [] then None
    else
      var best := Latest(table[..|table| - 1], time);
      var e := table[|table| - 1];
      if StartTime(e) <= time && (best.None? || StartTime(e) > StartTime(best.value)) then Some(e) else best
  }

  /**
   * Entry `k` is the one `match` should return: it starts no later than
   * `time`, no entry starts later and still no later than `time`, and no
   * earlier entry starts at the same time.
   */
  predicate IsMatch(table: seq<Era>, time: int, k: int) {
    && 0 <= k < |table|
    && StartTime(table[k]) <= time
    && (forall j | 0 <= j < |table| && StartTime(table[j]) <= time :: StartTime(table[j]) <= StartTime(table[k]))
    && (forall j | 0 <= j < k :: StartTime(table[j]) != StartTime(table[k]))
  }

  lemma MatchUnique(table: seq<Era>, time: int, k1: int, k2: int)
    requires IsMatch(table, time, k1) && IsMatch(table, time, k2)
    ensures k1 == k2
  {
  }

  /** The last entry is the match when it starts by `time` and later than every earlier entry that does. */
  lemma MatchAtEnd(table: seq<Era>, time: int)
    requires table != [] && StartTime(table[|table| - 1]) <= time
    requires forall j | 0 <= j < |table| - 1 && StartTime(table[j]) <= time :: StartTime(table[j]) < StartTime(table[|table| - 1])
    ensures IsMatch(table, time, |table| - 1)
  {
  }

  /** A match of all but the last entry stays the match unless the last entry starts later, by `time`. */
  lemma MatchBeforeEnd(table: seq<Era>, time: int, k: int)
    requires table != [] && IsMatch(table[..|table| - 1], time, k)
    requires StartTime(table[|table| - 1]) <= time ==> StartTime(table[|table| - 1]) <= StartTime(table[k])
    ensures IsMatch(table, time, k)
  {
    assert forall j | 0 <= j < |table| - 1 :: table[j] == table[..|table| - 1][j];
  }

  /** `Latest` is empty exactly when every entry starts after `time`, and is otherwise the match. */
  lemma {:induction false} LatestIsMatch(table: seq<Era>, time: int)
    ensures Latest(table, time).None? <==> forall j | 0 <= j < |table| :: StartTime(table[j]) > time
    ensures Latest(table, time).Some? ==>
      exists k :: IsMatch(table, time, k) && table[k] == Latest(table, time).value
    decreases |table|
  {
    if table != [] {
      var n := |table| - 1;
      var init := table[..n];
      LatestIsMatch(init, time);
      var best := Latest(init, time);
      var e := table[n];
      assert forall j | 0 <= j < n :: table[j] == init[j];
      if StartTime(e) <= time && (best.None? || StartTime(e) > StartTime(best.value)) {
        if best.Some? {
          var k :| IsMatch(init, time, k) && init[k] == best.value;
        }
        MatchAtEnd(table, time);
      } else if best.Some? {
        var k :| IsMatch(init, time, k) && init[k] == best.value;
        MatchBeforeEnd(table, time, k);
      }
    }
  }

  /** The match, where there is one, is what `Latest` returns. */
  lemma LatestOfMatch(table: seq<Era>, time: int, k: int)
    requires IsMatch(table, time, k)
    ensures Latest(table, time) == Some(table[k])
  {
    LatestIsMatch(table, time);
    var k' :| IsMatch(table, time, k') && table[k'] == Latest(table, time).value;
    MatchUnique(table, time, k, k');
  }

  /** No two entries start at the same time. */
  predicate DistinctStarts(table: seq<Era>) {
    forall i, j | 0 <= i < j < |table| :: StartTime(table[i]) != StartTime(table[j])
  }

  function FirstIndex(s: seq<Era>, x: Era): (k: int)
    requires x in s
    ensures 0 <= k < |s| && s[k] == x && x !in s[..k]
  {
    if s[0] == x then 0 else 1 + FirstIndex(s[1..], x)
  }

  /**
   * Declaration order does not matter: a table listing the same eras as one
   * whose start times are distinct, in any order and with any repetition,
   * matches the same era.
   */
  lemma OrderIrrelevant(table: seq<Era>, other: seq<Era>, time: int)
    requires DistinctStarts(table)
    requires forall x :: x in table <==> x in other
    ensures Latest(other, time) == Latest(table, time)
  {
    LatestIsMatch(table, time);
    LatestIsMatch(other, time);
    if Latest(table, time).Some? {
      var e := Latest(table, time).value;
      var k :| IsMatch(table, time, k) && table[k] == e;
      var m := FirstIndex(other, e);
      forall j | 0 <= j < |other| && StartTime(other[j]) <= time
        ensures StartTime(other[j]) <= StartTime(e)
      {
        assert other[j] in table;
      }
      forall j | 0 <= j < m
        ensures StartTime(other[j]) != StartTime(e)
      {
        assert other[j] in table && other[j] != e;
        var i :| 0 <= i < |table| && table[i] == other[j];
        assert i != k;
      }
      assert IsMatch(other, time, m);
      LatestOfMatch(other, time, m);
    } else {
      forall j | 0 <= j < |other|
        ensures StartTime(other[j]) > time
      {
        assert other[j] in table;
      }
    }
  }

  /** Of two entries with the same start time, the later declared one is never the match. */
  lemma TieGoesToFirstDeclared(table: seq<Era>, time: int, i: int, j: int)
    requires 0 <= i < j < |table| && StartTime(table[i]) == StartTime(table[j])
    requires table[j] !in table[..j]
    ensures Latest(table, time) != Some(table[j])
  {
    LatestIsMatch(table, time);
  }

  // ----- match -----

  /** In the sorted copy, `x` (from declaration position `px`) comes before `y` (from `py`). */
  predicate Precedes(x: Era, px: int, y: Era, py: int) {
    StartTime(x) > StartTime(y) || (StartTime(x) == StartTime(y) && px < py)
  }

  /**
   * `s` lists the entries of `table` in the order `pos` gives: entry `k` of
   * `s` was declared at position `pos[k]`, and `pos` is a permutation.
   */
  predicate Arranged(s: seq<Era>, pos: seq<int>, table: seq<Era>) {
    && |s| == |pos| == |table|
    && (forall k | 0 <= k < |s| :: 0 <= pos[k] < |table| && s[k] == table[pos[k]])
    && multiset(pos) == multiset(Positions(|table|))
  }

  function Positions(n: nat): (r: seq<int>)
    ensures |r| == n && forall k | 0 <= k < n :: r[k] == k
  {
    if n == 0 then [] else Positions(n - 1) + [n - 1]
  }

  /** Latest start first; on equal starts, declaration order kept (the sort is stable). */
  predicate SortedDescending(s: seq<Era>, pos: seq<int>, lo: int, hi: int)
    requires 0 <= lo <= hi <= |s| == |pos|
  {
    forall p, q | lo <= p < q < hi :: Precedes(s[p], pos[p], s[q], pos[q])
  }

  lemma PositionIsListed(pos: seq<int>, n: nat, j: int)
    requires multiset(pos) == multiset(Positions(n)) && 0 <= j < n
    ensures j in pos
  {
    assert Positions(n)[j] == j;
    assert j in multiset(Positions(n));
  }

  /**
   * The first entry of the sorted copy that starts no later than `time` is
   * the match of the declared table.
   */
  lemma FirstOfSortedIsMatch(s: seq<Era>, pos: seq<int>, table: seq<Era>, time: int, k: int)
    requires Arranged(s, pos, table) && SortedDescending(s, pos, 0, |s|)
    requires 0 <= k < |s| && StartTime(s[k]) <= time
    requires forall m | 0 <= m < k :: StartTime(s[m]) > time
    ensures IsMatch(table, time, pos[k])
  {
    var n := |table|;
    forall j | 0 <= j < n
      ensures StartTime(table[j]) <= time ==> StartTime(table[j]) <= StartTime(s[k])
      ensures j < pos[k] ==> StartTime(table[j]) != StartTime(s[k])
    {
      PositionIsListed(pos, n, j);
      var m :| 0 <= m < n && pos[m] == j;
      if m > k {
        assert Precedes(s[k], pos[k], s[m], pos[m]);
      }
    }
  }

  /** When every entry of the sorted copy starts after `time`, every declared entry does. */
  lemma NoneOfSorted(s: seq<Era>, pos: seq<int>, table: seq<Era>, time: int)
    requires Arranged(s, pos, table)
    requires forall m | 0 <= m < |s| :: StartTime(s[m]) > time
    ensures Latest(table, time) == None
  {
    forall j | 0 <= j < |table|
      ensures StartTime(table[j]) > time
    {
      PositionIsListed(pos, |table|, j);
    }
    LatestIsMatch(table, time);
  }

  lemma PrecedesTransitive(x: Era, px: int, y: Era, py: int, z: Era, pz: int)
    requires Precedes(x, px, y, py) && Precedes(y, py, z, pz)
    ensures Precedes(x, px, z, pz)
  {
  }

  lemma SwapMultiset(pos: seq<int>, j: int)
    requires 0 < j < |pos|
    ensures multiset(pos[j - 1 := pos[j]][j := pos[j - 1]]) == multiset(pos)
  {
    var pos' := pos[j - 1 := pos[j]][j := pos[j - 1]];
    assert pos' == pos[..j - 1] + [pos[j], pos[j - 1]] + pos[j + 1..];
    assert pos == pos[..j - 1] + [pos[j - 1], pos[j]] + pos[j + 1..];
  }

  /** Swapping two neighbours of the copy, and their recorded positions, keeps it an arrangement. */
  lemma SwapArranged(s: seq<Era>, pos: seq<int>, table: seq<Era>, j: int)
    requires Arranged(s, pos, table) && 0 < j < |s|
    ensures Arranged(s[j - 1 := s[j]][j := s[j - 1]], pos[j - 1 := pos[j]][j := pos[j - 1]], table)
  {
    var s' := s[j - 1 := s[j]][j := s[j - 1]];
    var pos' := pos[j - 1 := pos[j]][j := pos[j - 1]];
    SwapMultiset(pos, j);
    forall k | 0 <= k < |s'|
      ensures 0 <= pos'[k] < |table| && s'[k] == table[pos'[k]]
    {
      if k == j - 1 {
        assert s'[k] == s[j] && pos'[k] == pos[j];
      } else if k == j {
        assert s'[k] == s[j - 1] && pos'[k] == pos[j - 1];
      } else {
        assert s'[k] == s[k] && pos'[k] == pos[k];
      }
    }
  }

  /** During an insertion, every pair in `s[..i + 1]` not involving the moving entry at `j` is in order. */
  predicate OrderedBesides(s: seq<Era>, pos: seq<int>, i: int, j: int)
    requires i < |s| == |pos|
  {
    forall p, q | 0 <= p < q <= i && p != j && q != j :: Precedes(s[p], pos[p], s[q], pos[q])
  }

  /** The moving entry at `j` comes before every entry it has already passed. */
  predicate AheadOfPassed(s: seq<Era>, pos: seq<int>, i: int, j: int)
    requires 0 <= j <= i < |s| == |pos|
  {
    forall q | j < q <= i :: Precedes(s[j], pos[j], s[q], pos[q])
  }

  /**
   * Swapping the entry at `j` with an earlier-starting neighbour moves it one
   * place down and keeps every other pair in order.
   */
  lemma SwapKeepsOrder(s: seq<Era>, pos: seq<int>, i: int, j: int)
    requires 0 < j <= i < |s| == |pos|
    requires StartTime(s[j - 1]) < StartTime(s[j])
    requires OrderedBesides(s, pos, i, j) && AheadOfPassed(s, pos, i, j)
    ensures OrderedBesides(s[j - 1 := s[j]][j := s[j - 1]], pos[j - 1 := pos[j]][j := pos[j - 1]], i, j - 1)
    ensures AheadOfPassed(s[j - 1 := s[j]][j := s[j - 1]], pos[j - 1 := pos[j]][j := pos[j - 1]], i, j - 1)
  {
    var s', pos' := s[j - 1 := s[j]][j := s[j - 1]], pos[j - 1 := pos[j]][j := pos[j - 1]];
    forall p, q | 0 <= p < q <= i && p != j - 1 && q != j - 1
      ensures Precedes(s'[p], pos'[p], s'[q], pos'[q])
    {
      if q == j {
        assert s'[q] == s[j - 1] && pos'[q] == pos[j - 1];
        assert s'[p] == s[p] && pos'[p] == pos[p];
      } else if p == j {
        assert s'[p] == s[j - 1] && pos'[p] == pos[j - 1];
        assert s'[q] == s[q] && pos'[q] == pos[q];
      } else {
        assert s'[p] == s[p] && pos'[p] == pos[p];
        assert s'[q] == s[q] && pos'[q] == pos[q];
      }
    }
  }

  /**
   * The insertion stops where the entry before starts no earlier: entries
   * declared before it stay ahead on a tie, so `s[..i + 1]` is sorted.
   */
  lemma InsertionDone(s: seq<Era>, pos: seq<int>, i: int, j: int)
    requires 0 <= j <= i < |s| == |pos|
    requires OrderedBesides(s, pos, i, j) && AheadOfPassed(s, pos, i, j)
    requires j == 0 || StartTime(s[j - 1]) >= StartTime(s[j])
    requires pos[j] == i && forall k | 0 <= k <= i && k != j :: pos[k] < i
    ensures SortedDescending(s, pos, 0, i + 1)
  {
    forall p | 0 <= p < j
      ensures Precedes(s[p], pos[p], s[j], pos[j])
    {
      if p < j - 1 {
        PrecedesTransitive(s[p], pos[p], s[j - 1], pos[j - 1], s[j], pos[j]);
      }
    }
  }

  /**
   * One step of the insertion sort: the entry at `i` moves down past the
   * entries that start earlier than it, behind those that start no earlier.
   */
  method InsertDescending(a: array<Era>, i: int, ghost table: seq<Era>, ghost pos0: seq<int>) returns (ghost pos: seq<int>)
    modifies a
    requires 0 <= i < a.Length
    requires Arranged(a[..], pos0, table) && SortedDescending(a[..], pos0, 0, i)
    requires forall k | 0 <= k < i :: pos0[k] < i
    requires forall k | i <= k < a.Length :: pos0[k] == k
    ensures Arranged(a[..], pos, table) && SortedDescending(a[..], pos, 0, i + 1)
    ensures forall k | 0 <= k <= i :: pos[k] <= i
    ensures forall k | i < k < a.Length :: pos[k] == k
  {
    pos := pos0;
    var j := i;
    while j > 0 && StartTime(a[j - 1]) < StartTime(a[j])
      invariant 0 <= j <= i
      invariant Arranged(a[..], pos, table)
      invariant pos[j] == i
      invariant forall k | 0 <= k <= i && k != j :: pos[k] < i
      invariant forall k | i < k < a.Length :: pos[k] == k
      invariant OrderedBesides(a[..], pos, i, j) && AheadOfPassed(a[..], pos, i, j)
    {
      ghost var s := a[..];
      SwapArranged(s, pos, table, j);
      SwapKeepsOrder(s, pos, i, j);
      a[j - 1], a[j] := a[j], a[j - 1];
      assert a[..] == s[j - 1 := s[j]][j := s[j - 1]];
      pos := pos[j - 1 := pos[j]][j := pos[j - 1]];
      j := j - 1;
    }
    InsertionDone(a[..], pos, i, j);
  }

  /**
   * `Collections.sort` with the comparator of `match`: a stable sort, latest
   * start first. `pos` records where each entry was before the sort.
   */
  method SortByStartDescending(a: array<Era>) returns (ghost pos: seq<int>)
    modifies a
    ensures Arranged(a[..], pos, old(a[..]))
    ensures SortedDescending(a[..], pos, 0, a.Length)
  {
    ghost var table := a[..];
    pos := Positions(a.Length);
    var i := 0;
    while i < a.Length
      invariant 0 <= i <= a.Length
      invariant Arranged(a[..], pos, table)
      invariant SortedDescending(a[..], pos, 0, i)
      invariant forall k | 0 <= k < i :: pos[k] < i
      invariant forall k | i <= k < a.Length :: pos[k] == k
    {
      pos := InsertDescending(a, i, table, pos);
      i := i + 1;
    }
  }

  /** The scan of `match` over the sorted copy: the first entry that starts no later than `time`. */
  method FirstStartedBy(values: array<Era>, time: int, ghost table: seq<Era>, ghost pos: seq<int>) returns (r: Option<Era>)
    requires Arranged(values[..], pos, table) && SortedDescending(values[..], pos, 0, values.Length)
    ensures r == Latest(table, time)
  {
    var k := 0;
    while k < values.Length
      invariant 0 <= k <= values.Length
      invariant forall m | 0 <= m < k :: StartTime(values[m]) > time
    {
      if StartTime(values[k]) <= time {
        FirstOfSortedIsMatch(values[..], pos, table, time, k);
        LatestOfMatch(table, time, pos[k]);
        return Some(values[k]);
      }
      k := k + 1;
    }
    NoneOfSorted(values[..], pos, table, time);
    return None;
  }

  /**
   * `match(long)`: sort a copy of the table, latest start first, and return
   * the first entry that starts no later than `time`; null when there is none.
   */
  method Match(table: seq<Era>, time: int) returns (r: Option<Era>)
    ensures r == Latest(table, time)
  {
    var values := new Era[|table|](k requires 0 <= k < |table| => table[k]);
    assert values[..] == table;
    ghost var pos := SortByStartDescending(values);
    r := FirstStartedBy(values, time, table, pos);
  }

  /** `match(Date)`: null for a null date. */
  method MatchDate(table: seq<Era>, date: Option<Date>) returns (r: Option<Era>)
    ensures date.None? ==> r == None
    ensures date.Some? ==> r == Latest(table, Time(date.value))
  {
    if date.None? {
      return None;
    }
    r := Match(table, Time(date.value));
  }
}
