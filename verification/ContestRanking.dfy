/** The order of a contest ranking: the comparator used when official ranks are applied in memory, the ORDER BY
    of the database query used otherwise, and pagination. */
module ContestRanking {
  import opened Model
  import opened Sorting

  datatype ContestLog = ContestLog(userId: int, rank: int, acCount: int, totalCount: int)

  /** The comparator of sortContestLogs. */
  predicate LogLess(a: ContestLog, b: ContestLog) {
    if (a.rank > 0) != (b.rank > 0) then a.rank > 0
    else if a.rank != b.rank then
      if a.rank <= 0 then false else if b.rank <= 0 then true else a.rank < b.rank
    else if a.acCount != b.acCount then a.acCount > b.acCount
    else if a.totalCount != b.totalCount then a.totalCount > b.totalCount
    else a.userId < b.userId
  }

  /** The ORDER BY columns, each one ascending. */
  function SqlKey(l: ContestLog): (k: seq<int>)
    ensures |k| == 5
  {
    [if l.rank > 0 then 0 else 1, l.rank, -l.acCount, -l.totalCount, l.userId]
  }

  /** Row order of ORDER BY: the first differing column decides. */
  predicate KeyBefore(a: seq<int>, b: seq<int>)
    requires |a| == |b|
  {
    a != [] && (a[0] < b[0] || (a[0] == b[0] && KeyBefore(a[1..], b[1..])))
  }

  predicate SqlBefore(a: ContestLog, b: ContestLog) {
    KeyBefore(SqlKey(a), SqlKey(b))
  }

  lemma KeyBeforeUnrolled(a: ContestLog, b: ContestLog)
    ensures SqlBefore(a, b) <==>
      var x, y := SqlKey(a), SqlKey(b);
      x[0] < y[0] || (x[0] == y[0] && (x[1] < y[1] || (x[1] == y[1] && (x[2] < y[2] || (x[2] == y[2] &&
      (x[3] < y[3] || (x[3] == y[3] && x[4] < y[4])))))))
  {
    var x, y := SqlKey(a), SqlKey(b);
    assert x[1..][1..] == x[2..] && x[2..][1..] == x[3..] && x[3..][1..] == x[4..] && x[4..][1..] == [];
    assert y[1..][1..] == y[2..] && y[2..][1..] == y[3..] && y[3..][1..] == y[4..] && y[4..][1..] == [];
    assert KeyBefore(x[4..], y[4..]) <==> x[4] < y[4];
    assert KeyBefore(x[3..], y[3..]) <==> x[3] < y[3] || (x[3] == y[3] && x[4] < y[4]);
    assert KeyBefore(x[2..], y[2..]) <==> x[2] < y[2] || (x[2] == y[2] && KeyBefore(x[3..], y[3..]));
    assert KeyBefore(x[1..], y[1..]) <==> x[1] < y[1] || (x[1] == y[1] && KeyBefore(x[2..], y[2..]));
    assert KeyBefore(x, y) <==> x[0] < y[0] || (x[0] == y[0] && KeyBefore(x[1..], y[1..]));
  }

  /** The comparator agrees with the query on a pair exactly when the two ranks are not different negative or
      zero numbers in ascending order; the query orders those, the comparator does not. */
  lemma ComparatorIsSql(a: ContestLog, b: ContestLog)
    ensures (LogLess(a, b) <==> SqlBefore(a, b)) <==> !(a.rank < b.rank <= 0)
  {
    KeyBeforeUnrolled(a, b);
  }

  /** Such ranks leave the comparator without a consistent order: x and z are ordered, y ties with both. */
  lemma NegativeRanksBreakTheOrder()
    ensures var x, y, z := ContestLog(1, -1, 2, 2), ContestLog(2, -2, 0, 0), ContestLog(3, -1, 1, 2);
            LogLess(x, z) && !LogLess(x, y) && !LogLess(y, x) && !LogLess(y, z) && !LogLess(z, y)
  {
  }

  ghost predicate Rankable(logs: seq<ContestLog>) {
    && (forall i :: 0 <= i < |logs| ==> logs[i].rank >= 0)
    && (forall i, j :: 0 <= i < j < |logs| ==> logs[i].userId != logs[j].userId)
  }

  lemma ComparatorIsTotalOrder(logs: seq<ContestLog>)
    requires Rankable(logs)
    ensures TotalOrderOn(LogLess, logs)
  {
  }

  /** sortContestLogs. */
  function SortContestLogs(logs: seq<ContestLog>): seq<ContestLog> {
    StableSort(LogLess, logs)
  }

  /** Sorting in memory gives the rows in the order of the query, and no other arrangement is in that order. */
  lemma SortMatchesQuery(logs: seq<ContestLog>, rows: seq<ContestLog>)
    requires Rankable(logs) && multiset(rows) == multiset(logs)
    ensures Ordered(SqlBefore, rows) <==> rows == SortContestLogs(logs)
  {
    ComparatorIsTotalOrder(logs);
    SortOrders(LogLess, logs, logs);
    SortPermutes(LogLess, logs);
    var sorted := SortContestLogs(logs);
    SameMembers(rows, logs);
    SameMembers(sorted, logs);
    forall a, b | a in logs && b in logs
      ensures SqlBefore(a, b) <==> LogLess(a, b)
    {
      ComparatorIsSql(a, b);
    }
    assert Ordered(LogLess, rows) <==> Ordered(SqlBefore, rows) by {
      assert forall i :: 0 <= i < |rows| ==> rows[i] in logs;
    }
    if Ordered(LogLess, rows) {
      SortedUnique(LogLess, rows, sorted, logs);
    }
  }

  /** `a` comes before `b`: ranked users first, by rank, then by solved problems and submissions, most first,
      then by user id. */
  predicate ShownBefore(a: ContestLog, b: ContestLog) {
    || (a.rank > 0 && b.rank == 0)
    || (0 < a.rank < b.rank)
    || (a.rank == b.rank &&
        (a.acCount > b.acCount ||
         (a.acCount == b.acCount &&
          (a.totalCount > b.totalCount || (a.totalCount == b.totalCount && a.userId < b.userId)))))
  }

  /** The sorted ranking, pair by pair. */
  lemma RankingOrder(logs: seq<ContestLog>, i: nat, j: nat)
    requires Rankable(logs) && i < j < |SortContestLogs(logs)|
    ensures ShownBefore(SortContestLogs(logs)[i], SortContestLogs(logs)[j])
  {
    var sorted := SortContestLogs(logs);
    ComparatorIsTotalOrder(logs);
    SortOrders(LogLess, logs, logs);
    SortPermutes(LogLess, logs);
    SameMembers(sorted, logs);
    assert sorted[i] in logs && sorted[j] in logs && LogLess(sorted[i], sorted[j]);
  }

  // ---------------------------------------------------------------- pages

  /** paginateContestLogs. */
  function Page(logs: seq<ContestLog>, offset: int, limit: int): seq<ContestLog> {
    var start := if offset < 0 then 0 else offset;
    var size := if limit <= 0 then |logs| else limit;
    if start >= |logs| then []
    else if start + size > |logs| then logs[start..] else logs[start..start + size]
  }

  /** The pages from `offset` on, one after the other. */
  function Pages(logs: seq<ContestLog>, offset: nat, limit: nat): seq<ContestLog>
    requires limit > 0
    decreases |logs| - offset
  {
    if offset >= |logs| then [] else Page(logs, offset, limit) + Pages(logs, offset + limit, limit)
  }

  /** Consecutive pages tile the ranking: no gap, no overlap, and none is longer than the limit. */
  lemma {:induction false} PagesTile(logs: seq<ContestLog>, offset: nat, limit: nat)
    requires limit > 0 && offset <= |logs|
    ensures Pages(logs, offset, limit) == logs[offset..]
    ensures |Page(logs, offset, limit)| <= limit
    ensures offset + limit < |logs| ==> |Page(logs, offset, limit)| == limit
    decreases |logs| - offset
  {
    if offset + limit < |logs| {
      PagesTile(logs, offset + limit, limit);
      assert logs[offset..] == logs[offset..offset + limit] + logs[offset + limit..];
    } else if offset < |logs| {
      assert Pages(logs, offset + limit, limit) == [];
    }
  }

  /** Every page is a window on the ranking, whatever is asked for: log number j is on it, at its place, if and
      only if the window reaches it. */
  lemma PageIsWindow(logs: seq<ContestLog>, offset: int, limit: int, j: nat)
    requires j < |logs|
    ensures var page, start := Page(logs, offset, limit), if offset < 0 then 0 else offset;
            && |page| <= |logs|
            && (0 <= j - start < |page| <==> start <= j && (limit <= 0 || j < start + limit))
            && (0 <= j - start < |page| ==> page[j - start] == logs[j])
  {
  }

  /** Log number j is on page number q, and only there, if and only if q is j / limit. */
  lemma OnOnePage(logs: seq<ContestLog>, limit: nat, q: nat, j: nat)
    requires limit > 0 && j < |logs|
    ensures var page := Page(logs, q * limit, limit);
            && (0 <= j - q * limit < |page| <==> q == j / limit)
            && (q == j / limit ==> j % limit < |page| && page[j % limit] == logs[j])
  {
    PageIsWindow(logs, q * limit, limit, j);
    QuotientIs(j, limit, q);
  }

  lemma QuotientIs(j: nat, limit: nat, q: nat)
    requires limit > 0
    ensures q * limit <= j < q * limit + limit <==> q == j / limit
    ensures q == j / limit ==> j % limit == j - q * limit
  {
    assert j == (j / limit) * limit + j % limit;
    if q < j / limit {
      assert (q + 1) * limit <= (j / limit) * limit;
    } else if q > j / limit {
      assert (j / limit + 1) * limit <= q * limit;
    }
  }
}
