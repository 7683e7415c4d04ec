/** Column statistics, penalties and page rows of the contest matrix, and the laws that tie them together. */
module MatrixSummary {
  import opened Model
  import opened ContestProblems
  import opened ContestMatrix

  datatype ColumnStat = ColumnStat(attempted: nat, accepted: nat, upsolved: nat)

  datatype ProblemResult = ProblemResult(
    key: string, status: string, acceptedMinute: int, wrongBeforeAc: nat, wrongAttempts: nat, upsolved: bool)

  datatype Calculation = Calculation(
    results: map<int, seq<ProblemResult>>, penalty: map<int, int>, acCount: map<int, nat>, stats: map<string, ColumnStat>)

  const NO_STAT := ColumnStat(0, 0, 0)

  function Stat(c: Calculation, key: string): ColumnStat {
    if key in c.stats then c.stats[key] else NO_STAT
  }

  function Penalty(c: Calculation, user: int): int {
    if user in c.penalty then c.penalty[user] else 0
  }

  function AcCount(c: Calculation, user: int): nat {
    if user in c.acCount then c.acCount[user] else 0
  }

  // ---------------------------------------------------------------- what the loops compute

  function Times(keys: seq<string>, k: string): nat {
    if keys == [] then 0 else Times(keys[..|keys| - 1], k) + if keys[|keys| - 1] == k then 1 else 0
  }

  /** `n` visits of a cell. */
  function AddVisits(s: ColumnStat, st: CellState, n: nat): ColumnStat {
    ColumnStat(
      s.attempted + (if st.hasContestSubmit then n else 0),
      s.accepted + (if st.hasContestAc then n else 0),
      s.upsolved + (if st.upsolveAc then n else 0))
  }

  function ColumnTally(cells: Cells, users: seq<int>, k: string, times: nat): ColumnStat {
    if users == [] then NO_STAT
    else AddVisits(ColumnTally(cells, users[..|users| - 1], k, times), Get(cells, users[|users| - 1], k), times)
  }

  function CellPenalty(st: CellState): int {
    if st.hasContestAc then st.contestMinute + st.wrongBeforeAc * 20 else 0
  }

  function RowPenalty(cells: Cells, u: int, keys: seq<string>): int {
    if keys == [] then 0 else RowPenalty(cells, u, keys[..|keys| - 1]) + CellPenalty(Get(cells, u, keys[|keys| - 1]))
  }

  function RowAccepted(cells: Cells, u: int, keys: seq<string>): nat {
    if keys == [] then 0
    else RowAccepted(cells, u, keys[..|keys| - 1]) + if Get(cells, u, keys[|keys| - 1]).hasContestAc then 1 else 0
  }

  function PenaltyOf(cells: Cells, users: seq<int>, keys: seq<string>, u: int): int {
    if users == [] then 0
    else PenaltyOf(cells, users[..|users| - 1], keys, u) + if users[|users| - 1] == u then RowPenalty(cells, u, keys) else 0
  }

  function AcceptedOf(cells: Cells, users: seq<int>, keys: seq<string>, u: int): nat {
    if users == [] then 0
    else AcceptedOf(cells, users[..|users| - 1], keys, u) + if users[|users| - 1] == u then RowAccepted(cells, u, keys) else 0
  }

  function ResultOf(key: string, st: CellState): ProblemResult {
    ProblemResult(
      key,
      if st.hasContestAc then "contest_ac" else if st.upsolveAc then "upsolve_ac"
      else if st.hasContestSubmit then "contest_failed" else "none",
      st.contestMinute, st.wrongBeforeAc, st.contestWrong + st.upsolveWrong, st.upsolveAc)
  }

  function RowOf(cells: Cells, u: int, keys: seq<string>): (r: seq<ProblemResult>)
    ensures |r| == |keys|
  {
    seq(|keys|, i requires 0 <= i < |keys| => ResultOf(keys[i], Get(cells, u, keys[i])))
  }

  /** The numbers of the double loop, after it has visited these users: repeated users or keys are
      visited repeatedly. */
  ghost predicate Summarized(cells: Cells, users: seq<int>, keys: seq<string>, c: Calculation) {
    && (forall k :: Stat(c, k) == ColumnTally(cells, users, k, Times(keys, k)))
    && (forall u :: Penalty(c, u) == PenaltyOf(cells, users, keys, u))
    && (forall u :: AcCount(c, u) == AcceptedOf(cells, users, keys, u))
  }

  /** `c'` is `c` after visiting these keys of user `u`. */
  ghost predicate Visited(cells: Cells, u: int, keys: seq<string>, c: Calculation, c': Calculation) {
    && (forall k :: Stat(c', k) == AddVisits(Stat(c, k), Get(cells, u, k), Times(keys, k)))
    && (forall v :: Penalty(c', v) == Penalty(c, v) + if v == u then RowPenalty(cells, u, keys) else 0)
    && (forall v :: AcCount(c', v) == AcCount(c, v) + if v == u then RowAccepted(cells, u, keys) else 0)
  }

  /** The body of the double loop. */
  function VisitCell(cells: Cells, u: int, key: string, c: Calculation): Calculation {
    var st := Get(cells, u, key);
    var stats := c.stats[key := AddVisits(Stat(c, key), st, 1)];
    if st.hasContestAc then
      Calculation(c.results, c.penalty[u := Penalty(c, u) + st.contestMinute + st.wrongBeforeAc * 20],
                  c.acCount[u := AcCount(c, u) + 1], stats)
    else c.(stats := stats)
  }

  lemma VisitCellEffect(cells: Cells, u: int, key: string, c: Calculation)
    ensures forall k :: Stat(VisitCell(cells, u, key, c), k) ==
                        if k == key then AddVisits(Stat(c, k), Get(cells, u, k), 1) else Stat(c, k)
    ensures forall v :: Penalty(VisitCell(cells, u, key, c), v) ==
                        Penalty(c, v) + if v == u then CellPenalty(Get(cells, u, key)) else 0
    ensures forall v :: AcCount(VisitCell(cells, u, key, c), v) ==
                        AcCount(c, v) + if v == u && Get(cells, u, key).hasContestAc then 1 else 0
  {
  }

  lemma RowUnrolled(cells: Cells, u: int, keys: seq<string>, key: string)
    ensures RowPenalty(cells, u, keys + [key]) == RowPenalty(cells, u, keys) + CellPenalty(Get(cells, u, key))
    ensures RowAccepted(cells, u, keys + [key]) ==
            RowAccepted(cells, u, keys) + if Get(cells, u, key).hasContestAc then 1 else 0
    ensures forall k :: Times(keys + [key], k) == Times(keys, k) + if k == key then 1 else 0
  {
  }

  lemma VisitOneMore(cells: Cells, u: int, keys: seq<string>, key: string, c: Calculation, c': Calculation)
    requires Visited(cells, u, keys, c, c')
    ensures Visited(cells, u, keys + [key], c, VisitCell(cells, u, key, c'))
  {
    VisitCellEffect(cells, u, key, c');
    RowUnrolled(cells, u, keys, key);
  }

  method VisitUser(cells: Cells, u: int, keys: seq<string>, c: Calculation) returns (c': Calculation)
    ensures Visited(cells, u, keys, c, c') && c'.results == c.results
  {
    c' := c;
    assert keys[..0] == [] && keys[..|keys|] == keys;
    assert RowPenalty(cells, u, []) == 0 && RowAccepted(cells, u, []) == 0;
    for j := 0 to |keys|
      invariant Visited(cells, u, keys[..j], c, c') && c'.results == c.results
    {
      VisitOneMore(cells, u, keys[..j], keys[j], c, c');
      assert keys[..j + 1] == keys[..j] + [keys[j]];
      c' := VisitCell(cells, u, keys[j], c');
    }
  }

  lemma SummarizeOneMore(cells: Cells, users: seq<int>, u: int, keys: seq<string>, c: Calculation, c': Calculation)
    requires Summarized(cells, users, keys, c) && Visited(cells, u, keys, c, c')
    ensures Summarized(cells, users + [u], keys, c')
  {
  }

  method Summarize(cells: Cells, users: seq<int>, keys: seq<string>) returns (c: Calculation)
    ensures Summarized(cells, users, keys, c) && c.results == map[]
  {
    c := Calculation(map[], map[], map[], map[]);
    assert users[..0] == [] && users[..|users|] == users;
    for i := 0 to |users|
      invariant Summarized(cells, users[..i], keys, c) && c.results == map[]
    {
      var next := VisitUser(cells, users[i], keys, c);
      SummarizeOneMore(cells, users[..i], users[i], keys, c, next);
      assert users[..i + 1] == users[..i] + [users[i]];
      c := next;
    }
  }

  method PageRows(cells: Cells, users: seq<int>, keys: seq<string>) returns (results: map<int, seq<ProblemResult>>)
    ensures results.Keys == set u | u in users
    ensures forall u :: u in users ==> results[u] == RowOf(cells, u, keys)
  {
    results := map[];
    for i := 0 to |users|
      invariant results.Keys == set u | u in users[..i]
      invariant forall u :: u in results ==> results[u] == RowOf(cells, u, keys)
    {
      results := results[users[i] := RowOf(cells, users[i], keys)];
      assert users[..i + 1] == users[..i] + [users[i]];
    }
    assert users[..|users|] == users;
  }

  /** calculateContestProblemMatrix, with the cell states it works on. */
  method CalculateContestProblemMatrix(cx: Contest, subs: seq<SubmitLog>, pageUsers: seq<int>, allUsers: seq<int>)
    returns (c: Calculation, cells: Cells)
    ensures Folded(cx.window, Keys(cx.problems), Entries(cx, subs), cells)
    ensures Summarized(cells, allUsers, Keys(cx.problems), c)
    ensures c.results.Keys == set u | u in pageUsers
    ensures forall u :: u in pageUsers ==> c.results[u] == RowOf(cells, u, Keys(cx.problems))
  {
    cells := FoldSubmissions(cx, subs);
    c := Summarize(cells, allUsers, Keys(cx.problems));
    var results := PageRows(cells, pageUsers, Keys(cx.problems));
    c := c.(results := results);
  }

  // ---------------------------------------------------------------- laws

  lemma {:induction false} VisitedOnce(cells: Cells, users: seq<int>, keys: seq<string>, u: int)
    requires Distinct(users)
    ensures PenaltyOf(cells, users, keys, u) == if u in users then RowPenalty(cells, u, keys) else 0
    ensures AcceptedOf(cells, users, keys, u) == if u in users then RowAccepted(cells, u, keys) else 0
  {
    if users != [] {
      VisitedOnce(cells, users[..|users| - 1], keys, u);
      assert users == users[..|users| - 1] + [users[|users| - 1]];
    }
  }

  lemma {:induction false} ListedOnce(keys: seq<string>, k: string)
    requires Distinct(keys)
    ensures Times(keys, k) == if k in keys then 1 else 0
  {
    if keys != [] {
      ListedOnce(keys[..|keys| - 1], k);
      assert keys == keys[..|keys| - 1] + [keys[|keys| - 1]];
    }
  }

  function SumAcCounts(c: Calculation, users: seq<int>): nat {
    if users == [] then 0 else SumAcCounts(c, users[..|users| - 1]) + AcCount(c, users[|users| - 1])
  }

  function SumAccepted(c: Calculation, keys: seq<string>): nat {
    if keys == [] then 0 else SumAccepted(c, keys[..|keys| - 1]) + Stat(c, keys[|keys| - 1]).accepted
  }

  /** Accepted cells of the grid, row by row. */
  function Grid(cells: Cells, users: seq<int>, keys: seq<string>): nat {
    if users == [] then 0 else Grid(cells, users[..|users| - 1], keys) + RowAccepted(cells, users[|users| - 1], keys)
  }

  lemma {:induction false} GridByColumn(cells: Cells, users: seq<int>, keys: seq<string>)
    requires keys != []
    ensures Grid(cells, users, keys) ==
            Grid(cells, users, keys[..|keys| - 1]) + ColumnTally(cells, users, keys[|keys| - 1], 1).accepted
  {
    if users != [] {
      GridByColumn(cells, users[..|users| - 1], keys);
    }
  }

  lemma {:induction false} EmptyGrid(cells: Cells, users: seq<int>)
    ensures Grid(cells, users, []) == 0
  {
    if users != [] {
      EmptyGrid(cells, users[..|users| - 1]);
    }
  }

  lemma {:induction false} RowsSum(cells: Cells, all: seq<int>, users: seq<int>, keys: seq<string>, c: Calculation)
    requires Summarized(cells, all, keys, c) && Distinct(all) && (forall u :: u in users ==> u in all)
    ensures SumAcCounts(c, users) == Grid(cells, users, keys)
  {
    if users != [] {
      RowsSum(cells, all, users[..|users| - 1], keys, c);
      VisitedOnce(cells, all, keys, users[|users| - 1]);
      assert users[|users| - 1] in all;
    }
  }

  lemma {:induction false} ColumnsSum(cells: Cells, users: seq<int>, all: seq<string>, keys: seq<string>, c: Calculation)
    requires Summarized(cells, users, all, c) && Distinct(all) && (forall k :: k in keys ==> k in all)
    ensures SumAccepted(c, keys) == Grid(cells, users, keys)
  {
    if keys == [] {
      EmptyGrid(cells, users);
    } else {
      var k := keys[|keys| - 1];
      assert k in all;
      ListedOnce(all, k);
      ColumnsSum(cells, users, all, keys[..|keys| - 1], c);
      GridByColumn(cells, users, keys);
    }
  }

  /** Double counting: solved problems summed over users equal accepted users summed over columns. */
  lemma DoubleCounting(cells: Cells, users: seq<int>, keys: seq<string>, c: Calculation)
    requires Summarized(cells, users, keys, c) && Distinct(users) && Distinct(keys)
    ensures SumAcCounts(c, users) == SumAccepted(c, keys)
  {
    RowsSum(cells, users, users, keys, c);
    ColumnsSum(cells, users, keys, keys, c);
  }

  lemma {:induction false} ColumnBounds(cells: Cells, users: seq<int>, k: string)
    requires forall u :: u in users ==> Get(cells, u, k).hasContestAc ==> Get(cells, u, k).hasContestSubmit
    ensures var s := ColumnTally(cells, users, k, 1); s.accepted <= s.attempted <= |users|
    ensures (forall u :: u in users ==> !(Get(cells, u, k).hasContestAc && Get(cells, u, k).upsolveAc)) ==>
            ColumnTally(cells, users, k, 1).accepted + ColumnTally(cells, users, k, 1).upsolved <= |users|
  {
    if users != [] {
      assert users[|users| - 1] in users;
      ColumnBounds(cells, users[..|users| - 1], k);
    }
  }

  ghost predicate TimeOrdered(entries: seq<Entry>) {
    forall i, j :: 0 <= i < j < |entries| ==> entries[i].run.time <= entries[j].run.time
  }

  ghost predicate RunsOrdered(rs: seq<Run>) {
    forall i, j :: 0 <= i < j < |rs| ==> rs[i].time <= rs[j].time
  }

  lemma {:induction false} CellRunsOrdered(entries: seq<Entry>, u: int, k: string)
    requires TimeOrdered(entries)
    ensures RunsOrdered(CellRuns(entries, u, k))
    ensures forall r :: r in CellRuns(entries, u, k) ==> entries != [] && r.time <= entries[|entries| - 1].run.time
  {
    if entries != [] {
      var before, e := CellRuns(entries[..|entries| - 1], u, k), entries[|entries| - 1];
      CellRunsOrdered(entries[..|entries| - 1], u, k);
      forall r | r in before
        ensures r.time <= e.run.time
      {
        assert entries[|entries| - 2].run.time <= e.run.time;
      }
      assert CellRuns(entries, u, k) == before || CellRuns(entries, u, k) == before + [e.run];
    }
  }

  /** On time-ordered runs no cell is both solved in the contest and upsolved. */
  lemma NotBoth(w: Window, entries: seq<Entry>, u: int, k: string)
    requires TimeOrdered(entries)
    ensures var st := CellResult(w, CellRuns(entries, u, k)); !(st.hasContestAc && st.upsolveAc)
  {
    CellRunsOrdered(entries, u, k);
  }

  /** Without the order it can happen: the late run is listed before the one in the contest. */
  lemma BothOnUnorderedRuns()
    ensures var w := Window(10, 20, true);
            var rs := [Run(true, 25), Run(true, 15)];
            CellResult(w, rs).hasContestAc && CellResult(w, rs).upsolveAc
  {
  }

  /** In every column: accepted <= attempted <= users; and on time-ordered submissions a user is counted
      as accepted or as upsolved, not both. */
  lemma ColumnLaws(cx: Contest, subs: seq<SubmitLog>, cells: Cells, users: seq<int>, c: Calculation, key: string)
    requires Folded(cx.window, Keys(cx.problems), Entries(cx, subs), cells)
    requires Summarized(cells, users, Keys(cx.problems), c) && Distinct(Keys(cx.problems))
    ensures Stat(c, key).accepted <= Stat(c, key).attempted <= |users|
    ensures TimeOrdered(Entries(cx, subs)) ==> Stat(c, key).accepted + Stat(c, key).upsolved <= |users|
  {
    var keys, entries := Keys(cx.problems), Entries(cx, subs);
    ListedOnce(keys, key);
    if key in keys {
      if TimeOrdered(entries) {
        forall u {
          NotBoth(cx.window, entries, u, key);
        }
      }
      ColumnBounds(cells, users, key);
    } else {
      UnlistedColumn(cells, users, key);
    }
  }

  lemma {:induction false} UnlistedColumn(cells: Cells, users: seq<int>, key: string)
    ensures ColumnTally(cells, users, key, 0) == NO_STAT
  {
    if users != [] {
      UnlistedColumn(cells, users[..|users| - 1], key);
    }
  }

  /** The penalty that can be recomputed from a page row as it is displayed. */
  function DisplayedPenalty(row: seq<ProblemResult>): int {
    if row == [] then 0
    else
      var r := row[|row| - 1];
      DisplayedPenalty(row[..|row| - 1]) + if r.status == "contest_ac" then r.acceptedMinute + 20 * r.wrongBeforeAc else 0
  }

  lemma {:induction false} RowShowsPenalty(cells: Cells, u: int, keys: seq<string>)
    ensures DisplayedPenalty(RowOf(cells, u, keys)) == RowPenalty(cells, u, keys)
  {
    if keys != [] {
      RowShowsPenalty(cells, u, keys[..|keys| - 1]);
      assert RowOf(cells, u, keys)[..|keys| - 1] == RowOf(cells, u, keys[..|keys| - 1]);
    }
  }

  /** Each solved problem of a row costs its minute and twenty more for every wrong attempt before it. */
  lemma PenaltyByProblem(row: seq<ProblemResult>, r: ProblemResult)
    ensures DisplayedPenalty([]) == 0
    ensures DisplayedPenalty(row + [r]) == DisplayedPenalty(row) +
              if r.status == "contest_ac" then r.acceptedMinute + 20 * r.wrongBeforeAc else 0
  {
    assert (row + [r])[..|row|] == row;
  }

  /** A participant's penalty is the sum of minute + 20 * wrong over the contest_ac cells of the page row. */
  lemma PenaltyMatchesRow(cells: Cells, users: seq<int>, keys: seq<string>, c: Calculation, u: int)
    requires Summarized(cells, users, keys, c) && Distinct(users) && u in users
    ensures Penalty(c, u) == DisplayedPenalty(RowOf(cells, u, keys))
  {
    VisitedOnce(cells, users, keys, u);
    RowShowsPenalty(cells, u, keys);
  }

  // ---------------------------------------------------------------- nothing is dropped

  function RowRuns(entries: seq<Entry>, u: int, keys: seq<string>): nat {
    if keys == [] then 0 else RowRuns(entries, u, keys[..|keys| - 1]) + |CellRuns(entries, u, keys[|keys| - 1])|
  }

  /** Runs that reach some cell of the matrix. */
  function MatrixRuns(entries: seq<Entry>, users: seq<int>, keys: seq<string>): nat {
    if users == [] then 0 else MatrixRuns(entries, users[..|users| - 1], keys) + RowRuns(entries, users[|users| - 1], keys)
  }

  lemma {:induction false} RowGains(entries: seq<Entry>, e: Entry, u: int, keys: seq<string>)
    ensures RowRuns(entries + [e], u, keys) == RowRuns(entries, u, keys) + if e.user == u then Times(keys, e.key) else 0
  {
    if keys != [] {
      RowGains(entries, e, u, keys[..|keys| - 1]);
      assert (entries + [e])[..|entries|] == entries;
    }
  }

  lemma {:induction false} MatrixGains(entries: seq<Entry>, e: Entry, users: seq<int>, keys: seq<string>)
    requires Distinct(users)
    ensures MatrixRuns(entries + [e], users, keys) ==
            MatrixRuns(entries, users, keys) + if e.user in users then Times(keys, e.key) else 0
  {
    if users != [] {
      var before, u := users[..|users| - 1], users[|users| - 1];
      MatrixGains(entries, e, before, keys);
      RowGains(entries, e, u, keys);
      assert users == before + [u];
    }
  }

  lemma {:induction false} NoRunsYet(users: seq<int>, keys: seq<string>)
    ensures MatrixRuns([], users, keys) == 0
  {
    if users != [] {
      NoRunsYet(users[..|users| - 1], keys);
      NoRowRunsYet(users[|users| - 1], keys);
    }
  }

  lemma {:induction false} NoRowRunsYet(u: int, keys: seq<string>)
    ensures RowRuns([], u, keys) == 0
  {
    if keys != [] {
      NoRowRunsYet(u, keys[..|keys| - 1]);
    }
  }

  /** Entries of participants whose key is a column. */
  function Placed(entries: seq<Entry>, users: seq<int>, keys: seq<string>): nat {
    if entries == [] then 0
    else
      var e := entries[|entries| - 1];
      Placed(entries[..|entries| - 1], users, keys) + if e.user in users && e.key in keys then 1 else 0
  }

  /** Every entry is counted in one cell if it has one, and in none otherwise. */
  lemma {:induction false} OneCellEach(entries: seq<Entry>, users: seq<int>, keys: seq<string>)
    requires Distinct(users) && Distinct(keys)
    ensures MatrixRuns(entries, users, keys) == Placed(entries, users, keys)
  {
    if entries == [] {
      NoRunsYet(users, keys);
    } else {
      var before, e := entries[..|entries| - 1], entries[|entries| - 1];
      OneCellEach(before, users, keys);
      MatrixGains(before, e, users, keys);
      ListedOnce(keys, e.key);
      assert entries == before + [e];
    }
  }

  predicate Blank(s: SubmitLog) {
    SubmissionKey(s) == ""
  }

  function Named(subs: seq<SubmitLog>): nat {
    if subs == [] then 0 else Named(subs[..|subs| - 1]) + if Blank(subs[|subs| - 1]) then 0 else 1
  }

  lemma {:induction false} PlacedAreNamed(cx: Contest, subs: seq<SubmitLog>, users: seq<int>, keys: seq<string>)
    requires forall s :: s in subs ==> s.userId in users && (KeyOf(cx, s) in keys <==> !Blank(s))
    ensures Placed(Entries(cx, subs), users, keys) == Named(subs)
  {
    if subs != [] {
      var before := subs[..|subs| - 1];
      PlacedAreNamed(cx, before, users, keys);
      assert Entries(cx, subs)[..|subs| - 1] == Entries(cx, before);
      assert subs[|subs| - 1] in subs;
    }
  }

  /** With columns normalised from the same submissions, the cells of the participants together hold
      every submission that names a problem (or at least itself), each exactly once. */
  lemma NothingDropped(site: Site, w: Window, meta: seq<ProblemMeta>, subs: seq<SubmitLog>, users: seq<int>)
    requires Distinct(users) && forall s :: s in subs ==> s.userId in users
    ensures var cx := Contest(site.cs, w, ContestColumns(site, meta, subs));
            MatrixRuns(Entries(cx, subs), users, Keys(cx.problems)) == Named(subs)
  {
    var columns := ContestColumns(site, meta, subs);
    var cx, keys := Contest(site.cs, w, columns), Keys(columns);
    ColumnKeys(site, meta, subs);
    assert forall i :: 0 <= i < |columns| ==> keys[i] == columns[i].key;
    OneCellEach(Entries(cx, subs), users, keys);
    forall s | s in subs
      ensures KeyOf(cx, s) in keys <==> !Blank(s)
    {
      EverySubmissionHasColumn(site, meta, subs, s);
      ColumnIsKey(columns, KeyOf(cx, s));
    }
    PlacedAreNamed(cx, subs, users, keys);
  }

  lemma ColumnIsKey(columns: seq<ProblemMeta>, k: string)
    ensures HasColumn(columns, k) <==> k in Keys(columns)
  {
  }

  /** Where a user is listed first. */
  function FirstAt(logUsers: seq<int>, u: int): (n: nat)
    requires u in logUsers
    ensures n < |logUsers| && logUsers[n] == u && u !in logUsers[..n]
  {
    if logUsers[0] == u then 0 else 1 + FirstAt(logUsers[1..], u)
  }

  lemma {:induction false} NewIsFirst(logUsers: seq<int>, i: nat)
    requires i < |logUsers| && logUsers[i] !in logUsers[..i]
    ensures FirstAt(logUsers, logUsers[i]) == i
  {
    if i > 0 {
      assert logUsers[0] == logUsers[..i][0];
      assert forall k :: 0 <= k < i - 1 ==> logUsers[1..][k] == logUsers[..i][k + 1];
      NewIsFirst(logUsers[1..], i - 1);
    }
  }

  /** collectContestUserIDs: the participants, each once, in the order in which they are first listed. */
  method CollectContestUserIDs(logUsers: seq<int>) returns (ids: seq<int>)
    ensures Distinct(ids)
    ensures forall u :: u in ids <==> u in logUsers && u != 0
    ensures forall i, j :: 0 <= i < j < |ids| ==> FirstAt(logUsers, ids[i]) < FirstAt(logUsers, ids[j])
  {
    ids := [];
    for i := 0 to |logUsers|
      invariant forall u :: u in ids <==> u in logUsers[..i] && u != 0
      invariant forall m :: 0 <= m < |ids| ==> ids[m] in logUsers && FirstAt(logUsers, ids[m]) < i
      invariant forall m, k :: 0 <= m < k < |ids| ==> FirstAt(logUsers, ids[m]) < FirstAt(logUsers, ids[k])
    {
      assert logUsers[..i + 1] == logUsers[..i] + [logUsers[i]];
      if logUsers[i] == 0 || logUsers[i] in ids {
        continue;
      }
      NewIsFirst(logUsers, i);
      ids := ids + [logUsers[i]];
    }
    assert logUsers[..|logUsers|] == logUsers;
  }

  // ---------------------------------------------------------------- the whole matrix

  lemma OrderedEntries(cx: Contest, subs: seq<SubmitLog>)
    requires forall i, j :: 0 <= i < j < |subs| ==> subs[i].time <= subs[j].time
    ensures TimeOrdered(Entries(cx, subs))
  {
  }

  lemma DistinctColumnKeys(columns: seq<ProblemMeta>)
    requires DistinctKeys(columns)
    ensures Distinct(Keys(columns))
  {
  }

  /** What a contest page may rely on: `users` are the participants, `c` the numbers for these columns. */
  ghost predicate PageLaws(columns: seq<ProblemMeta>, users: seq<int>, subs: seq<SubmitLog>, c: Calculation) {
    && SumAcCounts(c, users) == SumAccepted(c, Keys(columns))
    && (forall k :: Stat(c, k).accepted <= Stat(c, k).attempted <= |users|)
    && ((forall i, j :: 0 <= i < j < |subs| ==> subs[i].time <= subs[j].time) ==>
          forall k :: Stat(c, k).accepted + Stat(c, k).upsolved <= |users|)
    && (forall u :: u in users && u in c.results ==> Penalty(c, u) == DisplayedPenalty(c.results[u]))
  }

  lemma AllPageLaws(cx: Contest, subs: seq<SubmitLog>, cells: Cells, users: seq<int>, c: Calculation)
    requires Folded(cx.window, Keys(cx.problems), Entries(cx, subs), cells)
    requires Summarized(cells, users, Keys(cx.problems), c) && Distinct(users) && Distinct(Keys(cx.problems))
    requires forall u :: u in c.results ==> c.results[u] == RowOf(cells, u, Keys(cx.problems))
    ensures PageLaws(cx.problems, users, subs, c)
  {
    var keys := Keys(cx.problems);
    DoubleCounting(cells, users, keys, c);
    if forall i, j :: 0 <= i < j < |subs| ==> subs[i].time <= subs[j].time {
      OrderedEntries(cx, subs);
    }
    forall k {
      ColumnLaws(cx, subs, cells, users, c, k);
    }
    forall u | u in users && u in c.results
      ensures Penalty(c, u) == DisplayedPenalty(c.results[u])
    {
      PenaltyMatchesRow(cells, users, keys, c, u);
    }
  }

  // ---------------------------------------------------------------- what the page shows, in terms of submissions

  /** Submission `j` is one of user `u` for column `k`, made during the contest (any time, if the official
      window is not known). */
  predicate During(cx: Contest, subs: seq<SubmitLog>, u: int, k: string, j: nat) {
    && j < |subs| && subs[j].userId == u && CanonicalKey(cx.cs, cx.problems, SubmissionKey(subs[j])) == k
    && (cx.window.reliable ==> cx.window.start <= subs[j].time < cx.window.end)
  }

  /** It was made after the end of the contest. */
  predicate AfterEnd(cx: Contest, subs: seq<SubmitLog>, u: int, k: string, j: nat) {
    && j < |subs| && subs[j].userId == u && CanonicalKey(cx.cs, cx.problems, SubmissionKey(subs[j])) == k
    && cx.window.reliable && cx.window.end <= subs[j].time
  }

  predicate Accepted(cx: Contest, subs: seq<SubmitLog>, j: nat)
    requires j < |subs|
  {
    IsAcceptedStatus(cx.cs, subs[j].status)
  }

  ghost predicate Attempted(cx: Contest, subs: seq<SubmitLog>, u: int, k: string) {
    exists j: nat :: During(cx, subs, u, k, j)
  }

  ghost predicate Solved(cx: Contest, subs: seq<SubmitLog>, u: int, k: string) {
    exists j: nat :: During(cx, subs, u, k, j) && Accepted(cx, subs, j)
  }

  /** Accepted after the end, with nothing accepted during the contest listed before it. */
  ghost predicate Upsolved(cx: Contest, subs: seq<SubmitLog>, u: int, k: string) {
    exists j: nat :: AfterEnd(cx, subs, u, k, j) && Accepted(cx, subs, j) && NoneAccepted(cx, subs, u, k, j)
  }

  /** No submission before `j` is accepted during the contest. */
  ghost predicate NoneAccepted(cx: Contest, subs: seq<SubmitLog>, u: int, k: string, j: nat) {
    forall i: nat :: i < j ==> !(During(cx, subs, u, k, i) && Accepted(cx, subs, i))
  }

  ghost predicate NoneAcceptedAtAll(cx: Contest, subs: seq<SubmitLog>, u: int, k: string, j: nat) {
    forall i: nat :: i < j ==> !((During(cx, subs, u, k, i) || AfterEnd(cx, subs, u, k, i)) && Accepted(cx, subs, i))
  }

  /** The rejected submissions before the problem was solved in the contest. */
  ghost function Rejected(cx: Contest, subs: seq<SubmitLog>, u: int, k: string): set<nat> {
    set j: nat | j < |subs| && During(cx, subs, u, k, j) && !Accepted(cx, subs, j) && NoneAccepted(cx, subs, u, k, j)
  }

  /** The rejected submissions after the end, before anything was accepted. */
  ghost function RejectedLate(cx: Contest, subs: seq<SubmitLog>, u: int, k: string): set<nat> {
    set j: nat | j < |subs| && AfterEnd(cx, subs, u, k, j) && !Accepted(cx, subs, j) && NoneAcceptedAtAll(cx, subs, u, k, j)
  }

  lemma EntryMeans(cx: Contest, subs: seq<SubmitLog>, u: int, k: string, j: nat)
    requires j < |subs|
    ensures var e := Entries(cx, subs)[j];
            && (InContest(cx.window, e, u, k) <==> During(cx, subs, u, k, j))
            && (Late(cx.window, e, u, k) <==> AfterEnd(cx, subs, u, k, j))
            && (e.run.accepted <==> Accepted(cx, subs, j))
  {
  }

  lemma BeforeMeans(cx: Contest, subs: seq<SubmitLog>, u: int, k: string, n: nat)
    requires n <= |subs|
    ensures Unsolved(cx.window, Entries(cx, subs), n, u, k) <==> NoneAccepted(cx, subs, u, k, n)
    ensures Untouched(cx.window, Entries(cx, subs), n, u, k) <==> NoneAcceptedAtAll(cx, subs, u, k, n)
  {
    var entries := Entries(cx, subs);
    forall i: nat | i < n
      ensures Solves(cx.window, entries[i], u, k) <==> During(cx, subs, u, k, i) && Accepted(cx, subs, i)
      ensures Upsolves(cx.window, entries[i], u, k) <==> AfterEnd(cx, subs, u, k, i) && Accepted(cx, subs, i)
    {
      EntryMeans(cx, subs, u, k, i);
    }
  }

  /** `st` is the state of a cell in terms of the submissions. */
  ghost predicate CellShows(cx: Contest, subs: seq<SubmitLog>, u: int, k: string, st: CellState) {
    && (st.hasContestSubmit <==> Attempted(cx, subs, u, k))
    && (st.hasContestAc <==> Solved(cx, subs, u, k))
    && (st.upsolveAc <==> Upsolved(cx, subs, u, k))
    && st.wrongBeforeAc == st.contestWrong == |Rejected(cx, subs, u, k)|
    && st.upsolveWrong == |RejectedLate(cx, subs, u, k)|
    && (forall j: nat :: During(cx, subs, u, k, j) && Accepted(cx, subs, j) && NoneAccepted(cx, subs, u, k, j) ==>
          st.contestMinute == ElapsedMinute(cx.window.start, subs[j].time))
  }

  lemma FlagsShow(cx: Contest, subs: seq<SubmitLog>, u: int, k: string, st: CellState)
    requires FlagsOk(cx.window, Entries(cx, subs), u, k, st)
    ensures st.hasContestSubmit <==> Attempted(cx, subs, u, k)
    ensures st.hasContestAc <==> Solved(cx, subs, u, k)
    ensures st.upsolveAc <==> Upsolved(cx, subs, u, k)
  {
    var entries := Entries(cx, subs);
    forall j: nat | j < |subs|
      ensures InContest(cx.window, entries[j], u, k) <==> During(cx, subs, u, k, j)
      ensures Solves(cx.window, entries[j], u, k) <==> During(cx, subs, u, k, j) && Accepted(cx, subs, j)
      ensures Upsolves(cx.window, entries[j], u, k) <==> AfterEnd(cx, subs, u, k, j) && Accepted(cx, subs, j)
      ensures Unsolved(cx.window, entries, j, u, k) <==> NoneAccepted(cx, subs, u, k, j)
    {
      EntryMeans(cx, subs, u, k, j);
      BeforeMeans(cx, subs, u, k, j);
    }
  }

  lemma CountsShow(cx: Contest, subs: seq<SubmitLog>, u: int, k: string)
    ensures WrongRuns(cx.window, Entries(cx, subs), u, k) == Rejected(cx, subs, u, k)
    ensures LateWrongRuns(cx.window, Entries(cx, subs), u, k) == RejectedLate(cx, subs, u, k)
  {
    var entries := Entries(cx, subs);
    forall j: nat | j < |subs|
      ensures IsWrong(cx.window, entries, j, u, k) <==>
              During(cx, subs, u, k, j) && !Accepted(cx, subs, j) && NoneAccepted(cx, subs, u, k, j)
      ensures IsLateWrong(cx.window, entries, j, u, k) <==>
              AfterEnd(cx, subs, u, k, j) && !Accepted(cx, subs, j) && NoneAcceptedAtAll(cx, subs, u, k, j)
    {
      EntryMeans(cx, subs, u, k, j);
      BeforeMeans(cx, subs, u, k, j);
    }
  }

  /** A folded cell shows what the submissions say. */
  lemma FoldedShows(cx: Contest, subs: seq<SubmitLog>, cells: Cells, u: int, k: string)
    requires Folded(cx.window, Keys(cx.problems), Entries(cx, subs), cells) && k in Keys(cx.problems)
    ensures CellShows(cx, subs, u, k, Get(cells, u, k))
  {
    var entries := Entries(cx, subs);
    CellFlags(cx.window, entries, u, k);
    CellCounts(cx.window, entries, u, k);
    FlagsShow(cx, subs, u, k, Get(cells, u, k));
    CountsShow(cx, subs, u, k);
    forall j: nat | During(cx, subs, u, k, j) && Accepted(cx, subs, j) && NoneAccepted(cx, subs, u, k, j)
      ensures Get(cells, u, k).contestMinute == ElapsedMinute(cx.window.start, subs[j].time)
    {
      EntryMeans(cx, subs, u, k, j);
      BeforeMeans(cx, subs, u, k, j);
      CellMinute(cx.window, entries, u, k, j);
    }
  }

  /** One displayed result in terms of the submissions. */
  ghost predicate Displays(cx: Contest, subs: seq<SubmitLog>, u: int, k: string, r: ProblemResult) {
    && r.key == k
    && r.status == (if Solved(cx, subs, u, k) then "contest_ac" else if Upsolved(cx, subs, u, k) then "upsolve_ac"
                    else if Attempted(cx, subs, u, k) then "contest_failed" else "none")
    && r.wrongBeforeAc == |Rejected(cx, subs, u, k)|
    && r.wrongAttempts == |Rejected(cx, subs, u, k)| + |RejectedLate(cx, subs, u, k)|
    && (r.upsolved <==> Upsolved(cx, subs, u, k))
    && (forall j: nat :: During(cx, subs, u, k, j) && Accepted(cx, subs, j) && NoneAccepted(cx, subs, u, k, j) ==>
          r.acceptedMinute == ElapsedMinute(cx.window.start, subs[j].time))
  }

  lemma RowDisplays(cx: Contest, subs: seq<SubmitLog>, cells: Cells, u: int, i: nat)
    requires Folded(cx.window, Keys(cx.problems), Entries(cx, subs), cells) && i < |cx.problems|
    ensures Displays(cx, subs, u, cx.problems[i].key, RowOf(cells, u, Keys(cx.problems))[i])
  {
    assert Keys(cx.problems)[i] in Keys(cx.problems);
    FoldedShows(cx, subs, cells, u, Keys(cx.problems)[i]);
  }

  function TriesIn(cells: Cells, k: string): int -> bool {
    (u: int) => Get(cells, u, k).hasContestSubmit
  }

  function SolvesIn(cells: Cells, k: string): int -> bool {
    (u: int) => Get(cells, u, k).hasContestAc
  }

  function UpsolvesIn(cells: Cells, k: string): int -> bool {
    (u: int) => Get(cells, u, k).upsolveAc
  }

  /** A column tally counts users. */
  lemma {:induction false} TallyCounts(cells: Cells, users: seq<int>, k: string)
    requires Distinct(users)
    ensures ColumnTally(cells, users, k, 1) ==
            ColumnStat(|Those(users, TriesIn(cells, k))|, |Those(users, SolvesIn(cells, k))|, |Those(users, UpsolvesIn(cells, k))|)
  {
    if users == [] {
      assert Those(users, TriesIn(cells, k)) == {} && Those(users, SolvesIn(cells, k)) == {} && Those(users, UpsolvesIn(cells, k)) == {};
    } else {
      var before, v := users[..|users| - 1], users[|users| - 1];
      TallyCounts(cells, before, k);
      assert users == before + [v] && v !in before;
      OneMoreCounts(before, v, TriesIn(cells, k));
      OneMoreCounts(before, v, SolvesIn(cells, k));
      OneMoreCounts(before, v, UpsolvesIn(cells, k));
    }
  }

  function Those<T(==)>(s: seq<T>, p: T -> bool): set<T> {
    set x | x in s && p(x)
  }

  lemma OneMoreCounts<T>(s: seq<T>, x: T, p: T -> bool)
    requires x !in s
    ensures |Those(s + [x], p)| == |Those(s, p)| + if p(x) then 1 else 0
  {
    assert Those(s + [x], p) == Those(s, p) + if p(x) then {x} else {};
  }

  function SolvedBy(cells: Cells, u: int): string -> bool {
    (k: string) => Get(cells, u, k).hasContestAc
  }

  /** A user's number of solved problems counts columns. */
  lemma {:induction false} RowCounts(cells: Cells, u: int, keys: seq<string>)
    requires Distinct(keys)
    ensures RowAccepted(cells, u, keys) == |Those(keys, SolvedBy(cells, u))|
  {
    if keys == [] {
      assert Those(keys, SolvedBy(cells, u)) == {};
    } else {
      var before, k := keys[..|keys| - 1], keys[|keys| - 1];
      RowCounts(cells, u, before);
      assert keys == before + [k] && k !in before;
      OneMoreCounts(before, k, SolvedBy(cells, u));
    }
  }

  /** The numbers of the page in terms of the submissions. */
  ghost predicate PageShows(cx: Contest, subs: seq<SubmitLog>, users: seq<int>, c: Calculation) {
    && (forall u :: u in c.results ==> |c.results[u]| == |cx.problems|)
    && (forall u, i :: u in c.results && 0 <= i < |cx.problems| ==>
         Displays(cx, subs, u, cx.problems[i].key, c.results[u][i]))
    && (forall k :: k in Keys(cx.problems) ==>
         Stat(c, k) == ColumnStat(|set u | u in users && Attempted(cx, subs, u, k)|,
                                  |set u | u in users && Solved(cx, subs, u, k)|,
                                  |set u | u in users && Upsolved(cx, subs, u, k)|))
    && (forall u :: u in users ==> AcCount(c, u) == |set k | k in Keys(cx.problems) && Solved(cx, subs, u, k)|)
  }

  lemma ColumnShows(cx: Contest, subs: seq<SubmitLog>, cells: Cells, users: seq<int>, c: Calculation, k: string)
    requires Folded(cx.window, Keys(cx.problems), Entries(cx, subs), cells) && k in Keys(cx.problems)
    requires Summarized(cells, users, Keys(cx.problems), c) && Distinct(users) && Distinct(Keys(cx.problems))
    ensures Stat(c, k) == ColumnStat(|set u | u in users && Attempted(cx, subs, u, k)|,
                                     |set u | u in users && Solved(cx, subs, u, k)|,
                                     |set u | u in users && Upsolved(cx, subs, u, k)|)
  {
    ListedOnce(Keys(cx.problems), k);
    TallyCounts(cells, users, k);
    UsersShow(cx, subs, cells, users, k);
  }

  lemma UsersShow(cx: Contest, subs: seq<SubmitLog>, cells: Cells, users: seq<int>, k: string)
    requires Folded(cx.window, Keys(cx.problems), Entries(cx, subs), cells) && k in Keys(cx.problems)
    ensures Those(users, TriesIn(cells, k)) == set u | u in users && Attempted(cx, subs, u, k)
    ensures Those(users, SolvesIn(cells, k)) == set u | u in users && Solved(cx, subs, u, k)
    ensures Those(users, UpsolvesIn(cells, k)) == set u | u in users && Upsolved(cx, subs, u, k)
  {
    forall u
      ensures TriesIn(cells, k)(u) <==> Attempted(cx, subs, u, k)
      ensures SolvesIn(cells, k)(u) <==> Solved(cx, subs, u, k)
      ensures UpsolvesIn(cells, k)(u) <==> Upsolved(cx, subs, u, k)
    {
      FoldedShows(cx, subs, cells, u, k);
    }
  }

  lemma UserShows(cx: Contest, subs: seq<SubmitLog>, cells: Cells, users: seq<int>, c: Calculation, u: int)
    requires Folded(cx.window, Keys(cx.problems), Entries(cx, subs), cells) && u in users
    requires Summarized(cells, users, Keys(cx.problems), c) && Distinct(users) && Distinct(Keys(cx.problems))
    ensures AcCount(c, u) == |set k | k in Keys(cx.problems) && Solved(cx, subs, u, k)|
  {
    VisitedOnce(cells, users, Keys(cx.problems), u);
    RowCounts(cells, u, Keys(cx.problems));
    ColumnsShow(cx, subs, cells, u);
  }

  lemma ColumnsShow(cx: Contest, subs: seq<SubmitLog>, cells: Cells, u: int)
    requires Folded(cx.window, Keys(cx.problems), Entries(cx, subs), cells)
    ensures Those(Keys(cx.problems), SolvedBy(cells, u)) == set k | k in Keys(cx.problems) && Solved(cx, subs, u, k)
  {
    forall k | k in Keys(cx.problems)
      ensures SolvedBy(cells, u)(k) <==> Solved(cx, subs, u, k)
    {
      FoldedShows(cx, subs, cells, u, k);
    }
  }

  lemma AllShown(cx: Contest, subs: seq<SubmitLog>, cells: Cells, users: seq<int>, c: Calculation)
    requires Folded(cx.window, Keys(cx.problems), Entries(cx, subs), cells)
    requires Summarized(cells, users, Keys(cx.problems), c) && Distinct(users) && Distinct(Keys(cx.problems))
    requires forall u :: u in c.results ==> c.results[u] == RowOf(cells, u, Keys(cx.problems))
    ensures PageShows(cx, subs, users, c)
  {
    forall u, i: nat | u in c.results && i < |cx.problems|
      ensures Displays(cx, subs, u, cx.problems[i].key, c.results[u][i])
    {
      RowDisplays(cx, subs, cells, u, i);
    }
    forall k | k in Keys(cx.problems) {
      ColumnShows(cx, subs, cells, users, c, k);
    }
    forall u | u in users {
      UserShows(cx, subs, cells, users, c, u);
    }
  }

  /** The numbers `c` of a matrix are those of the submissions: each cell is folded from its own ones, column
      and user numbers count the cells, the rows show them, and no submission of a participant is lost. */
  ghost predicate MatrixOf(cx: Contest, subs: seq<SubmitLog>, users: seq<int>, cells: Cells, c: Calculation) {
    && Folded(cx.window, Keys(cx.problems), Entries(cx, subs), cells)
    && Summarized(cells, users, Keys(cx.problems), c)
    && (forall u :: u in c.results ==> c.results[u] == RowOf(cells, u, Keys(cx.problems)))
    && ((forall s :: s in subs ==> s.userId in users) ==>
          MatrixRuns(Entries(cx, subs), users, Keys(cx.problems)) == Named(subs))
  }

  /** buildContestMatrix from the fetched metadata and submissions on: participants, columns, cells and numbers. */
  method BuildContestMatrix(site: Site, start: Instant, end: Instant, meta: seq<ProblemMeta>, subs: seq<SubmitLog>,
                            pageLogUsers: seq<int>, allLogUsers: seq<int>)
    returns (columns: seq<ProblemMeta>, users: seq<int>, c: Calculation, ghost cells: Cells)
    ensures Distinct(users) && forall u :: u in users <==> u in allLogUsers && u != 0
    ensures pageLogUsers == [] || site.contestId == "" || site.platform == "" ==>
      columns == [] && c == Calculation(map[], map[], map[], map[])
    ensures pageLogUsers != [] && site.contestId != "" && site.platform != "" ==>
      && columns == ContestColumns(site, meta, subs)
      && (forall u :: u in c.results <==> u in pageLogUsers && u != 0)
      // The official window counts only if both ends are known and in order.
      && (var cx := Contest(site.cs, Window(start, end, start != ZERO_TIME && end != ZERO_TIME && start < end), columns);
          MatrixOf(cx, subs, users, cells, c) && PageShows(cx, subs, users, c))
      && PageLaws(columns, users, subs, c)
  {
    users := CollectContestUserIDs(allLogUsers);
    columns, c, cells := [], Calculation(map[], map[], map[], map[]), map[];
    if |pageLogUsers| == 0 || site.contestId == "" || site.platform == "" {
      return;
    }
    var pageUsers := CollectContestUserIDs(pageLogUsers);
    columns := NormalizeContestProblems(site, meta, subs);
    ColumnKeys(site, meta, subs);
    DistinctColumnKeys(columns);
    var w := Window(start, end, start != ZERO_TIME && end != ZERO_TIME && end > start);
    var cx := Contest(site.cs, w, columns);
    c, cells := CalculateContestProblemMatrix(cx, subs, pageUsers, users);
    AllPageLaws(cx, subs, cells, users, c);
    AllShown(cx, subs, cells, users, c);
    if forall s :: s in subs ==> s.userId in users {
      NothingDropped(site, w, meta, subs, users);
    }
  }
}
