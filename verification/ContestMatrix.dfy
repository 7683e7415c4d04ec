/** The problem matrix of a contest page: submissions are folded into one state per (user, problem)
    cell, and every cell is shown to hold the result of its own submissions. */
module ContestMatrix {
  import opened Model
  import opened Text
  import opened ContestProblems

  // ---------------------------------------------------------------- runs

  /** `reliable` says that the official contest window is known. */
  datatype Window = Window(start: Instant, end: Instant, reliable: bool)

  /** A submission as one cell sees it. */
  datatype Run = Run(accepted: bool, time: Instant)

  datatype Kind = ContestAc | ContestWrong | LateAc | LateWrong | Ignored

  function KindOf(w: Window, r: Run): Kind {
    if !w.reliable || w.start <= r.time < w.end then (if r.accepted then ContestAc else ContestWrong)
    else if r.time >= w.end then (if r.accepted then LateAc else LateWrong)
    else Ignored
  }

  function ElapsedMinute(start: Instant, t: Instant): int {
    if start == ZERO_TIME || t < start then 0 else (t - start) / MINUTE
  }

  predicate IsAcceptedStatus(cs: Casing, status: string) {
    var normalized := cs.upper(TrimSpace(status));
    normalized == "AC" || normalized == "OK" || Contains(normalized, "ACCEPTED") || Contains(status, "\U{6B63}\U{786E}")
  }

  /** The accepted statuses, spelled out. */
  lemma AcceptedExactly(cs: Casing, status: string)
    ensures IsAcceptedStatus(cs, status) <==>
      || cs.upper(TrimSpace(status)) in {"AC", "OK"}
      || (exists i :: OccursAt(cs.upper(TrimSpace(status)), "ACCEPTED", i))
      || (exists i :: OccursAt(status, "\U{6B63}\U{786E}", i))
  {
    ContainsExactly(cs.upper(TrimSpace(status)), "ACCEPTED");
    ContainsExactly(status, "\U{6B63}\U{786E}");
  }

  // ---------------------------------------------------------------- cells

  datatype CellState = CellState(
    hasContestSubmit: bool, hasContestAc: bool, contestMinute: int, wrongBeforeAc: nat,
    contestWrong: nat, upsolveAc: bool, upsolveWrong: nat)

  const FRESH := CellState(false, false, 0, 0, 0, false, 0)

  /** What one submission does to its cell. */
  function Advance(w: Window, st: CellState, r: Run): CellState {
    match KindOf(w, r)
    case ContestAc =>
      if st.hasContestAc then st.(hasContestSubmit := true)
      else st.(hasContestSubmit := true, hasContestAc := true, contestMinute := ElapsedMinute(w.start, r.time))
    case ContestWrong =>
      if st.hasContestAc then st.(hasContestSubmit := true)
      else st.(hasContestSubmit := true, wrongBeforeAc := st.wrongBeforeAc + 1, contestWrong := st.contestWrong + 1)
    case LateAc =>
      if st.hasContestAc || st.upsolveAc then st else st.(upsolveAc := true)
    case LateWrong =>
      if st.hasContestAc || st.upsolveAc then st else st.(upsolveWrong := st.upsolveWrong + 1)
    case Ignored => st
  }

  /** Position of the first run of this kind, or the number of runs. */
  function First(w: Window, rs: seq<Run>, k: Kind): (i: nat)
    ensures i <= |rs|
    ensures i < |rs| ==> KindOf(w, rs[i]) == k
    ensures forall j :: 0 <= j < i ==> KindOf(w, rs[j]) != k
  {
    if rs == [] then 0
    else
      var i := First(w, rs[..|rs| - 1], k);
      if i < |rs| - 1 || KindOf(w, rs[|rs| - 1]) == k then i else |rs|
  }

  function CountOf(w: Window, rs: seq<Run>, k: Kind): nat {
    if rs == [] then 0
    else CountOf(w, rs[..|rs| - 1], k) + if KindOf(w, rs[|rs| - 1]) == k then 1 else 0
  }

  /** The declarative result of a cell, in terms of its own runs only: the first accepted run in the
      contest, the rejected runs before it, and the late runs as long as nothing was accepted yet. */
  function CellResult(w: Window, rs: seq<Run>): CellState {
    var ac, late := First(w, rs, ContestAc), First(w, rs, LateAc);
    CellState(
      First(w, rs, ContestAc) < |rs| || First(w, rs, ContestWrong) < |rs|,
      ac < |rs|,
      if ac < |rs| then ElapsedMinute(w.start, rs[ac].time) else 0,
      CountOf(w, rs[..ac], ContestWrong),
      CountOf(w, rs[..ac], ContestWrong),
      late < ac,
      CountOf(w, rs[..Min(ac, late)], LateWrong))
  }

  lemma FirstAppend(w: Window, rs: seq<Run>, r: Run, k: Kind)
    ensures First(w, rs + [r], k) ==
            if First(w, rs, k) < |rs| || KindOf(w, r) == k then First(w, rs, k) else |rs| + 1
  {
  }

  lemma CountAppend(w: Window, rs: seq<Run>, r: Run, n: nat, k: Kind)
    requires n <= |rs|
    ensures CountOf(w, (rs + [r])[..n], k) == CountOf(w, rs[..n], k)
    ensures CountOf(w, (rs + [r])[..|rs| + 1], k) == CountOf(w, rs, k) + if KindOf(w, r) == k then 1 else 0
  {
    assert (rs + [r])[..n] == rs[..n];
    assert (rs + [r])[..|rs| + 1] == rs + [r];
    assert (rs + [r])[..|rs|] == rs;
  }

  /** Rejected runs before the first accepted run in the contest, with one run more. */
  lemma WrongAppend(w: Window, rs: seq<Run>, r: Run)
    ensures var ac, ac' := First(w, rs, ContestAc), First(w, rs + [r], ContestAc);
            CountOf(w, (rs + [r])[..ac'], ContestWrong) ==
            CountOf(w, rs[..ac], ContestWrong) + if ac == |rs| && KindOf(w, r) == ContestWrong then 1 else 0
  {
    FirstAppend(w, rs, r, ContestAc);
    CountAppend(w, rs, r, First(w, rs, ContestAc), ContestWrong);
    assert rs[..|rs|] == rs;
  }

  /** Late rejected runs before anything was accepted, with one run more. */
  lemma LateAppend(w: Window, rs: seq<Run>, r: Run)
    ensures var n := Min(First(w, rs, ContestAc), First(w, rs, LateAc));
            var n' := Min(First(w, rs + [r], ContestAc), First(w, rs + [r], LateAc));
            CountOf(w, (rs + [r])[..n'], LateWrong) ==
            CountOf(w, rs[..n], LateWrong) + if n == |rs| && KindOf(w, r) == LateWrong then 1 else 0
  {
    FirstAppend(w, rs, r, ContestAc);
    FirstAppend(w, rs, r, LateAc);
    CountAppend(w, rs, r, Min(First(w, rs, ContestAc), First(w, rs, LateAc)), LateWrong);
    assert rs[..|rs|] == rs;
  }

  lemma FlagsAppend(w: Window, rs: seq<Run>, r: Run)
    ensures var kind, st, st' := KindOf(w, r), CellResult(w, rs), CellResult(w, rs + [r]);
            && st'.hasContestSubmit == (st.hasContestSubmit || kind == ContestAc || kind == ContestWrong)
            && st'.hasContestAc == (st.hasContestAc || kind == ContestAc)
            && st'.upsolveAc == (st.upsolveAc || (!st.hasContestAc && kind == LateAc))
            && st'.contestMinute ==
               if !st.hasContestAc && kind == ContestAc then ElapsedMinute(w.start, r.time) else st.contestMinute
  {
    FirstAppend(w, rs, r, ContestAc);
    FirstAppend(w, rs, r, ContestWrong);
    FirstAppend(w, rs, r, LateAc);
  }

  lemma CountsAppend(w: Window, rs: seq<Run>, r: Run)
    ensures var kind, st, st' := KindOf(w, r), CellResult(w, rs), CellResult(w, rs + [r]);
            && st'.contestWrong == st'.wrongBeforeAc && st.contestWrong == st.wrongBeforeAc
            && st'.contestWrong == st.contestWrong + (if !st.hasContestAc && kind == ContestWrong then 1 else 0)
            && st'.upsolveWrong == st.upsolveWrong + (if !st.hasContestAc && !st.upsolveAc && kind == LateWrong then 1 else 0)
  {
    WrongAppend(w, rs, r);
    LateAppend(w, rs, r);
  }

  /** The mutable update computes the declarative result, one run at a time. */
  lemma AdvanceIsResult(w: Window, rs: seq<Run>, r: Run)
    ensures CellResult(w, rs + [r]) == Advance(w, CellResult(w, rs), r)
  {
    FlagsAppend(w, rs, r);
    CountsAppend(w, rs, r);
  }

  // ---------------------------------------------------------------- folding the submissions

  /** Everything that decides which cell a submission belongs to. */
  datatype Contest = Contest(cs: Casing, window: Window, problems: seq<ProblemMeta>)

  type Cells = map<(int, string), CellState>

  function Get(cells: Cells, user: int, key: string): CellState {
    if (user, key) in cells then cells[(user, key)] else FRESH
  }

  function KeyOf(cx: Contest, s: SubmitLog): string {
    CanonicalKey(cx.cs, cx.problems, SubmissionKey(s))
  }

  function RunOf(cx: Contest, s: SubmitLog): Run {
    Run(IsAcceptedStatus(cx.cs, s.status), s.time)
  }

  function Keys(problems: seq<ProblemMeta>): (r: seq<string>)
    ensures |r| == |problems|
    ensures forall i :: 0 <= i < |r| ==> r[i] == problems[i].key
  {
    seq(|problems|, i requires 0 <= i < |problems| => problems[i].key)
  }

  /** A submission with the cell it is meant for. */
  datatype Entry = Entry(user: int, key: string, run: Run)

  function EntryOf(cx: Contest, s: SubmitLog): Entry {
    Entry(s.userId, KeyOf(cx, s), RunOf(cx, s))
  }

  function Entries(cx: Contest, subs: seq<SubmitLog>): (r: seq<Entry>)
    ensures |r| == |subs|
  {
    seq(|subs|, i requires 0 <= i < |subs| => EntryOf(cx, subs[i]))
  }

  /** The cell's own runs, in order. */
  function CellRuns(entries: seq<Entry>, user: int, key: string): seq<Run> {
    if entries == [] then []
    else
      var e, before := entries[|entries| - 1], CellRuns(entries[..|entries| - 1], user, key);
      if e.user == user && e.key == key then before + [e.run] else before
  }

  /** The cells hold the declarative results of these entries. */
  ghost predicate Folded(w: Window, keys: seq<string>, entries: seq<Entry>, cells: Cells) {
    forall u, k :: k in keys ==> Get(cells, u, k) == CellResult(w, CellRuns(entries, u, k))
  }

  function Store(w: Window, keys: seq<string>, cells: Cells, e: Entry): Cells {
    if e.key in keys then cells[(e.user, e.key) := Advance(w, Get(cells, e.user, e.key), e.run)] else cells
  }

  lemma FoldStep(w: Window, keys: seq<string>, entries: seq<Entry>, e: Entry, cells: Cells)
    requires Folded(w, keys, entries, cells)
    ensures Folded(w, keys, entries + [e], Store(w, keys, cells, e))
  {
    assert (entries + [e])[..|entries|] == entries;
    AdvanceIsResult(w, CellRuns(entries, e.user, e.key), e.run);
  }

  lemma NothingFolded(w: Window, keys: seq<string>)
    ensures Folded(w, keys, [], map[])
  {
  }

  /** The keys of the submissions, looked up one by one in the built table. */
  method ReadKeys(cx: Contest, subs: seq<SubmitLog>) returns (keys: seq<string>)
    ensures |keys| == |subs| && forall i :: 0 <= i < |subs| ==> keys[i] == KeyOf(cx, subs[i])
  {
    var aliases := BuildProblemAliasMap(cx.cs, cx.problems);
    keys := [];
    for i := 0 to |subs|
      invariant |keys| == i && forall j :: 0 <= j < i ==> keys[j] == KeyOf(cx, subs[j])
    {
      var key := MapKey(cx, aliases, SubmissionKey(subs[i]));
      keys := keys + [key];
    }
  }

  method ReadEntries(cx: Contest, subs: seq<SubmitLog>) returns (entries: seq<Entry>)
    ensures entries == Entries(cx, subs)
  {
    var keys := ReadKeys(cx, subs);
    entries := seq(|subs|, i requires 0 <= i < |subs| => Entry(subs[i].userId, keys[i], RunOf(cx, subs[i])));
  }

  method FoldEntries(w: Window, keys: seq<string>, entries: seq<Entry>) returns (cells: Cells)
    ensures Folded(w, keys, entries, cells)
  {
    cells := map[];
    assert entries[..0] == [] && entries[..|entries|] == entries;
    NothingFolded(w, keys);
    for i := 0 to |entries|
      invariant Folded(w, keys, entries[..i], cells)
    {
      FoldStep(w, keys, entries[..i], entries[i], cells);
      assert entries[..i + 1] == entries[..i] + [entries[i]];
      cells := Store(w, keys, cells, entries[i]);
    }
  }

  /** The submission loop. Looking up a key does not depend on the cells, so it is done in a pass of its own. */
  method FoldSubmissions(cx: Contest, subs: seq<SubmitLog>) returns (cells: Cells)
    ensures Folded(cx.window, Keys(cx.problems), Entries(cx, subs), cells)
  {
    var entries := ReadEntries(cx, subs);
    cells := FoldEntries(cx.window, Keys(cx.problems), entries);
  }

  /** canonicalProblemKey on the table itself. */
  method MapKey(cx: Contest, aliases: map<string, string>, raw: string) returns (key: string)
    requires forall t {:trigger Lookup(aliases, t)} :: Lookup(aliases, t) == LastClaimant(cx.cs, cx.problems, t)
    ensures key == CanonicalKey(cx.cs, cx.problems, raw)
  {
    key := TrimSpace(raw);
    assert Lookup(aliases, key) == LastClaimant(cx.cs, cx.problems, key);
    assert Lookup(aliases, cx.cs.lower(key)) == LastClaimant(cx.cs, cx.problems, cx.cs.lower(key));
    if key == "" {
    } else if key in aliases {
      key := aliases[key];
    } else if cx.cs.lower(key) in aliases {
      key := aliases[cx.cs.lower(key)];
    }
  }

  // ---------------------------------------------------------------- cells in terms of times

  /** The entry is a run of this cell during the contest; without a reliable window every run is. */
  predicate InContest(w: Window, e: Entry, u: int, k: string) {
    e.user == u && e.key == k && (w.reliable ==> w.start <= e.run.time < w.end)
  }

  /** The entry is a run of this cell after the end of the contest. */
  predicate Late(w: Window, e: Entry, u: int, k: string) {
    e.user == u && e.key == k && w.reliable && e.run.time >= w.end
  }

  predicate Solves(w: Window, e: Entry, u: int, k: string) {
    InContest(w, e, u, k) && e.run.accepted
  }

  predicate Upsolves(w: Window, e: Entry, u: int, k: string) {
    Late(w, e, u, k) && e.run.accepted
  }

  /** None of the first `n` entries solves the cell. */
  ghost predicate Unsolved(w: Window, entries: seq<Entry>, n: nat, u: int, k: string)
    requires n <= |entries|
  {
    forall i :: 0 <= i < n ==> !Solves(w, entries[i], u, k)
  }

  /** None of them is accepted, early or late. */
  ghost predicate Untouched(w: Window, entries: seq<Entry>, n: nat, u: int, k: string)
    requires n <= |entries|
  {
    forall i :: 0 <= i < n ==> !Solves(w, entries[i], u, k) && !Upsolves(w, entries[i], u, k)
  }

  /** A rejected run that counts: one of the contest, before it was solved. */
  ghost predicate IsWrong(w: Window, entries: seq<Entry>, j: nat, u: int, k: string)
    requires j < |entries|
  {
    InContest(w, entries[j], u, k) && !entries[j].run.accepted && Unsolved(w, entries, j, u, k)
  }

  /** A late rejected run that counts: one before anything was accepted. */
  ghost predicate IsLateWrong(w: Window, entries: seq<Entry>, j: nat, u: int, k: string)
    requires j < |entries|
  {
    Late(w, entries[j], u, k) && !entries[j].run.accepted && Untouched(w, entries, j, u, k)
  }

  ghost function WrongRuns(w: Window, entries: seq<Entry>, u: int, k: string): set<nat> {
    set j: nat | j < |entries| && IsWrong(w, entries, j, u, k)
  }

  ghost function LateWrongRuns(w: Window, entries: seq<Entry>, u: int, k: string): set<nat> {
    set j: nat | j < |entries| && IsLateWrong(w, entries, j, u, k)
  }

  function CellOf(w: Window, entries: seq<Entry>, u: int, k: string): CellState {
    CellResult(w, CellRuns(entries, u, k))
  }

  /** `st'` is `st` after entry `e`, in terms of its time. */
  ghost predicate Moves(w: Window, st: CellState, e: Entry, u: int, k: string, st': CellState) {
    && st'.hasContestSubmit == (st.hasContestSubmit || InContest(w, e, u, k))
    && st'.hasContestAc == (st.hasContestAc || Solves(w, e, u, k))
    && st'.upsolveAc == (st.upsolveAc || (!st.hasContestAc && Upsolves(w, e, u, k)))
    && st'.contestMinute ==
       (if !st.hasContestAc && Solves(w, e, u, k) then ElapsedMinute(w.start, e.run.time) else st.contestMinute)
    && st'.wrongBeforeAc == st.wrongBeforeAc +
       (if !st.hasContestAc && InContest(w, e, u, k) && !e.run.accepted then 1 else 0)
    && st'.upsolveWrong == st.upsolveWrong +
       (if !st.hasContestAc && !st.upsolveAc && Late(w, e, u, k) && !e.run.accepted then 1 else 0)
    && (st.contestWrong == st.wrongBeforeAc ==> st'.contestWrong == st'.wrongBeforeAc)
  }

  lemma AdvanceMoves(w: Window, st: CellState, e: Entry)
    ensures Moves(w, st, e, e.user, e.key, Advance(w, st, e.run))
  {
  }

  lemma NextCell(w: Window, entries: seq<Entry>, e: Entry, u: int, k: string)
    ensures Moves(w, CellOf(w, entries, u, k), e, u, k, CellOf(w, entries + [e], u, k))
  {
    assert (entries + [e])[..|entries|] == entries;
    var rs := CellRuns(entries, u, k);
    assert CellRuns(entries + [e], u, k) == if e.user == u && e.key == k then rs + [e.run] else rs;
    AdvanceIsResult(w, rs, e.run);
    AdvanceMoves(w, CellResult(w, rs), e);
  }

  /** `st` has the flags that the times of the cell's entries call for. */
  ghost predicate FlagsOk(w: Window, entries: seq<Entry>, u: int, k: string, st: CellState) {
    && (st.hasContestSubmit <==> exists j :: 0 <= j < |entries| && InContest(w, entries[j], u, k))
    && (st.hasContestAc <==> exists j :: 0 <= j < |entries| && Solves(w, entries[j], u, k))
    && (st.upsolveAc <==> exists j :: 0 <= j < |entries| && Upsolves(w, entries[j], u, k) && Unsolved(w, entries, j, u, k))
  }

  lemma FlagsStep(w: Window, entries: seq<Entry>, e: Entry, u: int, k: string, st: CellState, st': CellState)
    requires FlagsOk(w, entries, u, k, st) && Moves(w, st, e, u, k, st')
    ensures FlagsOk(w, entries + [e], u, k, st')
  {
    var more := entries + [e];
    assert more[|entries|] == e && forall j :: 0 <= j < |entries| ==> more[j] == entries[j];
    assert forall j :: 0 <= j <= |entries| ==> (Unsolved(w, more, j, u, k) <==> Unsolved(w, entries, j, u, k));
    assert !st.hasContestAc <==> Unsolved(w, more, |entries|, u, k);
  }

  lemma {:induction false} CellFlags(w: Window, entries: seq<Entry>, u: int, k: string)
    ensures FlagsOk(w, entries, u, k, CellOf(w, entries, u, k))
  {
    if entries != [] {
      var before, e := entries[..|entries| - 1], entries[|entries| - 1];
      assert entries == before + [e];
      CellFlags(w, before, u, k);
      NextCell(w, before, e, u, k);
      FlagsStep(w, before, e, u, k, CellOf(w, before, u, k), CellOf(w, before + [e], u, k));
    }
  }

  lemma SameSoFar(w: Window, entries: seq<Entry>, e: Entry, j: nat, u: int, k: string)
    requires j < |entries|
    ensures IsWrong(w, entries + [e], j, u, k) <==> IsWrong(w, entries, j, u, k)
    ensures IsLateWrong(w, entries + [e], j, u, k) <==> IsLateWrong(w, entries, j, u, k)
  {
    assert forall i :: 0 <= i <= j ==> (entries + [e])[i] == entries[i];
  }

  lemma SameBefore(w: Window, entries: seq<Entry>, e: Entry, u: int, k: string)
    ensures Unsolved(w, entries + [e], |entries|, u, k) <==> Unsolved(w, entries, |entries|, u, k)
    ensures Untouched(w, entries + [e], |entries|, u, k) <==> Untouched(w, entries, |entries|, u, k)
  {
    assert forall i :: 0 <= i < |entries| ==> (entries + [e])[i] == entries[i];
  }

  lemma OneMoreWrong(w: Window, entries: seq<Entry>, e: Entry, u: int, k: string)
    ensures |WrongRuns(w, entries + [e], u, k)| == |WrongRuns(w, entries, u, k)| +
              if InContest(w, e, u, k) && !e.run.accepted && Unsolved(w, entries, |entries|, u, k) then 1 else 0
  {
    var more, n := entries + [e], |entries|;
    forall j: nat | j < n
      ensures IsWrong(w, more, j, u, k) <==> IsWrong(w, entries, j, u, k)
    {
      SameSoFar(w, entries, e, j, u, k);
    }
    SameBefore(w, entries, e, u, k);
    assert IsWrong(w, more, n, u, k) <==> InContest(w, e, u, k) && !e.run.accepted && Unsolved(w, entries, n, u, k);
    assert WrongRuns(w, more, u, k) == WrongRuns(w, entries, u, k) + if IsWrong(w, more, n, u, k) then {n} else {};
  }

  lemma OneMoreLateWrong(w: Window, entries: seq<Entry>, e: Entry, u: int, k: string)
    ensures |LateWrongRuns(w, entries + [e], u, k)| == |LateWrongRuns(w, entries, u, k)| +
              if Late(w, e, u, k) && !e.run.accepted && Untouched(w, entries, |entries|, u, k) then 1 else 0
  {
    var more, n := entries + [e], |entries|;
    forall j: nat | j < n
      ensures IsLateWrong(w, more, j, u, k) <==> IsLateWrong(w, entries, j, u, k)
    {
      SameSoFar(w, entries, e, j, u, k);
    }
    SameBefore(w, entries, e, u, k);
    assert IsLateWrong(w, more, n, u, k) <==> Late(w, e, u, k) && !e.run.accepted && Untouched(w, entries, n, u, k);
    assert LateWrongRuns(w, more, u, k) == LateWrongRuns(w, entries, u, k) + if IsLateWrong(w, more, n, u, k) then {n} else {};
  }

  /** The first accepted run, early or late, decides: with flags up to date, nothing is set exactly if nothing
      was accepted. */
  lemma {:induction false} FirstAccepted(w: Window, entries: seq<Entry>, n: nat, u: int, k: string)
    requires n <= |entries| && !Untouched(w, entries, n, u, k)
    ensures exists j :: 0 <= j < n && (Solves(w, entries[j], u, k) || (Upsolves(w, entries[j], u, k) && Unsolved(w, entries, j, u, k)))
  {
    if Untouched(w, entries, n - 1, u, k) {
      assert Solves(w, entries[n - 1], u, k) || (Upsolves(w, entries[n - 1], u, k) && Unsolved(w, entries, n - 1, u, k));
    } else {
      FirstAccepted(w, entries, n - 1, u, k);
    }
  }

  lemma NothingSet(w: Window, entries: seq<Entry>, u: int, k: string, st: CellState)
    requires FlagsOk(w, entries, u, k, st)
    ensures !st.hasContestAc <==> Unsolved(w, entries, |entries|, u, k)
    ensures !st.hasContestAc && !st.upsolveAc <==> Untouched(w, entries, |entries|, u, k)
  {
    if !Untouched(w, entries, |entries|, u, k) {
      FirstAccepted(w, entries, |entries|, u, k);
    }
  }

  /** The counts of a cell. */
  lemma {:induction false} CellCounts(w: Window, entries: seq<Entry>, u: int, k: string)
    ensures var st := CellOf(w, entries, u, k);
            && st.contestWrong == st.wrongBeforeAc == |WrongRuns(w, entries, u, k)|
            && st.upsolveWrong == |LateWrongRuns(w, entries, u, k)|
  {
    if entries == [] {
      assert WrongRuns(w, entries, u, k) == {} && LateWrongRuns(w, entries, u, k) == {};
    } else {
      var before, e := entries[..|entries| - 1], entries[|entries| - 1];
      assert entries == before + [e];
      CellCounts(w, before, u, k);
      CellFlags(w, before, u, k);
      NothingSet(w, before, u, k, CellOf(w, before, u, k));
      NextCell(w, before, e, u, k);
      OneMoreWrong(w, before, e, u, k);
      OneMoreLateWrong(w, before, e, u, k);
    }
  }

  /** The minute of a solved cell is that of the run that solved it first. */
  lemma {:induction false} CellMinute(w: Window, entries: seq<Entry>, u: int, k: string, j: nat)
    requires j < |entries| && Solves(w, entries[j], u, k) && Unsolved(w, entries, j, u, k)
    ensures CellOf(w, entries, u, k).contestMinute == ElapsedMinute(w.start, entries[j].run.time)
  {
    var n := |entries| - 1;
    var before, e := entries[..n], entries[n];
    assert entries == before + [e];
    NextCell(w, before, e, u, k);
    CellFlags(w, before, u, k);
    NothingSet(w, before, u, k, CellOf(w, before, u, k));
    if j < n {
      assert before[j] == entries[j] && Solves(w, before[j], u, k) && Unsolved(w, before, j, u, k);
      CellMinute(w, before, u, k, j);
    } else {
      assert Unsolved(w, before, n, u, k);
    }
  }

  /** Whole minutes since the start of the contest. */
  lemma MinuteSince(start: Instant, t: Instant)
    ensures var m := ElapsedMinute(start, t);
            if start != 0 && start <= t then start + 60_000_000_000 * m <= t < start + 60_000_000_000 * (m + 1) else m == 0
  {
  }
}
