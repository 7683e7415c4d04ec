/** normalizeFetchedSubmitLogs: drop unusable submissions, clean the rest, keep one per submit id. */
module FetchNormalize {
  import opened Model
  import opened Text

  predicate Usable(item: SubmitLog) {
    TrimSpace(item.submitId) != "" && item.time != ZERO_TIME
  }

  function Clean(user: int, platform: string, item: SubmitLog): SubmitLog {
    SubmitLog(platform, user, TrimSpace(item.submitId), TrimSpace(item.contest), TrimSpace(item.problem),
              TrimSpace(item.lang), TrimSpace(item.status), item.time)
  }

  /** What a fetched item contributes. */
  function Candidate(user: int, platform: string, item: SubmitLog): Option<SubmitLog> {
    if Usable(item) then Some(Clean(user, platform, item)) else None
  }

  function Candidates(user: int, platform: string, logs: seq<SubmitLog>): (r: seq<Option<SubmitLog>>)
    ensures |r| == |logs|
  {
    seq(|logs|, i requires 0 <= i < |logs| => Candidate(user, platform, logs[i]))
  }

  predicate HasId(rows: seq<SubmitLog>, id: string) {
    exists i :: 0 <= i < |rows| && rows[i].submitId == id
  }

  /** A row replaces the row with its id, or goes to the end. */
  function Place(rows: seq<SubmitLog>, row: SubmitLog): (r: seq<SubmitLog>)
    ensures |r| == if HasId(rows, row.submitId) then |rows| else |rows| + 1
  {
    if HasId(rows, row.submitId) then
      seq(|rows|, i requires 0 <= i < |rows| => if rows[i].submitId == row.submitId then row else rows[i])
    else rows + [row]
  }

  function Merge(cs: seq<Option<SubmitLog>>): seq<SubmitLog> {
    if cs == [] then []
    else
      var before := Merge(cs[..|cs| - 1]);
      match cs[|cs| - 1] case None => before case Some(row) => Place(before, row)
  }

  function Normalized(user: int, platform: string, logs: seq<SubmitLog>): seq<SubmitLog> {
    Merge(Candidates(user, platform, logs))
  }

  // ---------------------------------------------------------------- the loop

  ghost predicate DistinctIds(rows: seq<SubmitLog>) {
    forall i, j :: 0 <= i < j < |rows| ==> rows[i].submitId != rows[j].submitId
  }

  /** `index` finds every id of `rows`. */
  ghost predicate Indexed(rows: seq<SubmitLog>, index: map<string, nat>) {
    && (forall id :: id in index ==> index[id] < |rows| && rows[index[id]].submitId == id)
    && (forall i :: 0 <= i < |rows| ==> rows[i].submitId in index)
  }

  /** The loop's variables after these candidates. */
  ghost predicate Kept(cs: seq<Option<SubmitLog>>, rows: seq<SubmitLog>, index: map<string, nat>, skipped: nat) {
    rows == Merge(cs) && DistinctIds(rows) && Indexed(rows, index) && |rows| + skipped == |cs|
  }

  lemma SkipUnusable(cs: seq<Option<SubmitLog>>, rows: seq<SubmitLog>, index: map<string, nat>, skipped: nat)
    requires Kept(cs, rows, index, skipped)
    ensures Kept(cs + [None], rows, index, skipped + 1)
  {
  }

  method PlaceRow(ghost cs: seq<Option<SubmitLog>>, rows: seq<SubmitLog>, index: map<string, nat>, skipped: nat, row: SubmitLog)
    returns (rows': seq<SubmitLog>, index': map<string, nat>, skipped': nat)
    requires Kept(cs, rows, index, skipped)
    ensures Kept(cs + [Some(row)], rows', index', skipped')
  {
    assert (cs + [Some(row)])[..|cs|] == cs;
    if row.submitId in index {
      return rows[index[row.submitId] := row], index, skipped + 1;
    }
    return rows + [row], index[row.submitId := |rows|], skipped;
  }

  method NormalizeFetchedSubmitLogs(user: int, platform: string, logs: seq<SubmitLog>)
    returns (r: Result<seq<SubmitLog>, string>, skipped: nat)
    ensures r == if logs != [] && Normalized(user, platform, logs) == [] then Err(platform)
                 else Ok(Normalized(user, platform, logs))
    ensures |Normalized(user, platform, logs)| + skipped == |logs|
  {
    ghost var cs := Candidates(user, platform, logs);
    var rows: seq<SubmitLog>, index: map<string, nat> := [], map[];
    skipped := 0;
    for i := 0 to |logs|
      invariant Kept(cs[..i], rows, index, skipped)
    {
      assert cs[..i + 1] == cs[..i] + [Candidate(user, platform, logs[i])];
      if !Usable(logs[i]) {
        SkipUnusable(cs[..i], rows, index, skipped);
        skipped := skipped + 1;
        continue;
      }
      rows, index, skipped := PlaceRow(cs[..i], rows, index, skipped, Clean(user, platform, logs[i]));
    }
    assert cs[..|logs|] == cs;
    if |logs| > 0 && |rows| == 0 {
      return Err(platform), skipped;
    }
    return Ok(rows), skipped;
  }

  // ---------------------------------------------------------------- what the result is

  /** `i` is the position of the first candidate with this id. */
  ghost predicate FirstWith(cs: seq<Option<SubmitLog>>, id: string, i: nat) {
    i < |cs| && cs[i].Some? && cs[i].value.submitId == id &&
    forall j :: 0 <= j < i && cs[j].Some? ==> cs[j].value.submitId != id
  }

  /** `l` is the position of the last candidate with this id. */
  ghost predicate LastWith(cs: seq<Option<SubmitLog>>, id: string, l: nat) {
    l < |cs| && cs[l].Some? && cs[l].value.submitId == id &&
    forall j :: l < j < |cs| && cs[j].Some? ==> cs[j].value.submitId != id
  }

  lemma PlaceKeepsIds(rows: seq<SubmitLog>, row: SubmitLog)
    requires DistinctIds(rows)
    ensures DistinctIds(Place(rows, row))
    ensures forall i :: 0 <= i < |rows| ==> Place(rows, row)[i].submitId == rows[i].submitId
    ensures forall id :: HasId(Place(rows, row), id) <==> HasId(rows, id) || id == row.submitId
  {
    var placed := Place(rows, row);
    assert forall i :: 0 <= i < |rows| ==> placed[i].submitId == rows[i].submitId;
    if !HasId(rows, row.submitId) {
      assert placed[|rows|].submitId == row.submitId;
    }
  }

  lemma {:induction false} IdsOnce(cs: seq<Option<SubmitLog>>)
    ensures DistinctIds(Merge(cs))
  {
    if cs != [] {
      IdsOnce(cs[..|cs| - 1]);
      if cs[|cs| - 1].Some? {
        PlaceKeepsIds(Merge(cs[..|cs| - 1]), cs[|cs| - 1].value);
      }
    }
  }

  /** No usable id is lost. */
  lemma {:induction false} UsableIsKept(cs: seq<Option<SubmitLog>>, j: nat)
    requires j < |cs| && cs[j].Some?
    ensures HasId(Merge(cs), cs[j].value.submitId)
  {
    var before := cs[..|cs| - 1];
    IdsOnce(before);
    if cs[|cs| - 1].Some? {
      PlaceKeepsIds(Merge(before), cs[|cs| - 1].value);
    }
    if j < |cs| - 1 {
      UsableIsKept(before, j);
    }
  }

  /** Row `i` stands where its id was first seen and holds what was last fetched for it. */
  lemma {:induction false} RowOrigin(cs: seq<Option<SubmitLog>>, i: nat) returns (first: nat, last: nat)
    requires i < |Merge(cs)|
    ensures FirstWith(cs, Merge(cs)[i].submitId, first) && LastWith(cs, Merge(cs)[i].submitId, last)
    ensures Merge(cs)[i] == cs[last].value
  {
    var n := |cs| - 1;
    var before, rows := cs[..n], Merge(cs[..n]);
    IdsOnce(before);
    if cs[n].Some? {
      PlaceKeepsIds(rows, cs[n].value);
    }
    if i < |rows| {
      first, last := RowOrigin(before, i);
      if cs[n].Some? && cs[n].value.submitId == rows[i].submitId {
        last := n;
      }
    } else {
      first, last := n, n;
      forall j | 0 <= j < n && cs[j].Some?
        ensures cs[j].value.submitId != cs[n].value.submitId
      {
        UsableIsKept(before, j);
      }
    }
  }

  /** Rows are ordered by the first usable occurrence of their id. */
  lemma {:induction false} OrderedByFirst(cs: seq<Option<SubmitLog>>, i: nat, j: nat, fi: nat, fj: nat)
    requires i < j < |Merge(cs)|
    requires FirstWith(cs, Merge(cs)[i].submitId, fi) && FirstWith(cs, Merge(cs)[j].submitId, fj)
    ensures fi < fj
  {
    var n := |cs| - 1;
    var before, rows := cs[..n], Merge(cs[..n]);
    IdsOnce(before);
    if cs[n].Some? {
      PlaceKeepsIds(rows, cs[n].value);
    }
    if j < |rows| {
      var gi, li := RowOrigin(before, i);
      var gj, lj := RowOrigin(before, j);
      assert fi == gi && fj == gj;
      OrderedByFirst(before, i, j, gi, gj);
    } else {
      IdsOnce(cs);
      var gi, li := RowOrigin(before, i);
      assert fi == gi < n;
      if fj < n {
        UsableIsKept(before, fj);
      }
    }
  }

  lemma CandidateIds(user: int, platform: string, logs: seq<SubmitLog>, i: nat)
    requires i < |logs| && Candidates(user, platform, logs)[i].Some?
    ensures var row := Candidates(user, platform, logs)[i].value;
            row.submitId != "" && Trimmed(row.submitId) && row.userId == user && row.platform == platform
  {
    TrimSpaceTrims(logs[i].submitId);
  }

  /** The result in full: trimmed non-empty distinct ids of this user and platform, one row per usable id,
      in order of first appearance, each with the contents of its last appearance. */
  lemma NormalizedIs(user: int, platform: string, logs: seq<SubmitLog>)
    ensures var cs, rows := Candidates(user, platform, logs), Normalized(user, platform, logs);
            && DistinctIds(rows)
            && (forall i :: 0 <= i < |rows| ==>
                 && rows[i].submitId != "" && Trimmed(rows[i].submitId)
                 && rows[i].userId == user && rows[i].platform == platform
                 && exists l: nat :: LastWith(cs, rows[i].submitId, l) && rows[i] == cs[l].value)
            && (forall j :: 0 <= j < |cs| && cs[j].Some? ==> HasId(rows, cs[j].value.submitId))
            && (forall i, j, fi: nat, fj: nat ::
                  0 <= i < j < |rows| && FirstWith(cs, rows[i].submitId, fi) && FirstWith(cs, rows[j].submitId, fj)
                  ==> fi < fj)
  {
    var cs, rows := Candidates(user, platform, logs), Normalized(user, platform, logs);
    IdsOnce(cs);
    forall i | 0 <= i < |rows|
      ensures rows[i].submitId != "" && Trimmed(rows[i].submitId) && rows[i].userId == user && rows[i].platform == platform
      ensures exists l: nat :: LastWith(cs, rows[i].submitId, l) && rows[i] == cs[l].value
    {
      var first, last := RowOrigin(cs, i);
      CandidateIds(user, platform, logs, last);
    }
    forall j | 0 <= j < |cs| && cs[j].Some?
      ensures HasId(rows, cs[j].value.submitId)
    {
      UsableIsKept(cs, j);
    }
    forall i, j, fi: nat, fj: nat | 0 <= i < j < |rows| && FirstWith(cs, rows[i].submitId, fi) && FirstWith(cs, rows[j].submitId, fj)
      ensures fi < fj
    {
      OrderedByFirst(cs, i, j, fi, fj);
    }
  }

  /** `l` is the last fetched item with this id, among those with an id and a time. */
  ghost predicate LastFetched(logs: seq<SubmitLog>, id: string, l: nat) {
    && l < |logs| && TrimSpace(logs[l].submitId) == id != "" && logs[l].time != ZERO_TIME
    && forall m :: l < m < |logs| && logs[m].time != ZERO_TIME ==> TrimSpace(logs[m].submitId) != id
  }

  /** The same in terms of what was fetched, field by field. */
  lemma NormalizedFields(user: int, platform: string, logs: seq<SubmitLog>)
    ensures var rows := Normalized(user, platform, logs);
            && (forall i :: 0 <= i < |rows| ==> exists l: nat ::
                 && LastFetched(logs, rows[i].submitId, l)
                 && rows[i].platform == platform && rows[i].userId == user
                 && rows[i].contest == TrimSpace(logs[l].contest) && rows[i].problem == TrimSpace(logs[l].problem)
                 && rows[i].lang == TrimSpace(logs[l].lang) && rows[i].status == TrimSpace(logs[l].status)
                 && rows[i].time == logs[l].time)
            && (forall j :: 0 <= j < |logs| && TrimSpace(logs[j].submitId) != "" && logs[j].time != ZERO_TIME ==>
                 exists i :: 0 <= i < |rows| && rows[i].submitId == TrimSpace(logs[j].submitId))
  {
    var cs, rows := Candidates(user, platform, logs), Normalized(user, platform, logs);
    forall i | 0 <= i < |rows|
      ensures exists l: nat ::
                 && LastFetched(logs, rows[i].submitId, l)
                 && rows[i].platform == platform && rows[i].userId == user
                 && rows[i].contest == TrimSpace(logs[l].contest) && rows[i].problem == TrimSpace(logs[l].problem)
                 && rows[i].lang == TrimSpace(logs[l].lang) && rows[i].status == TrimSpace(logs[l].status)
                 && rows[i].time == logs[l].time
    {
      var first, last := RowOrigin(cs, i);
      assert cs[last] == Candidate(user, platform, logs[last]);
      assert LastFetched(logs, rows[i].submitId, last) by {
        forall m | last < m < |logs| && logs[m].time != ZERO_TIME
          ensures TrimSpace(logs[m].submitId) != rows[i].submitId
        {
          assert cs[m] == Candidate(user, platform, logs[m]);
        }
      }
    }
    forall j: nat | j < |logs| && TrimSpace(logs[j].submitId) != "" && logs[j].time != ZERO_TIME
      ensures HasId(rows, TrimSpace(logs[j].submitId))
    {
      assert cs[j] == Candidate(user, platform, logs[j]);
      UsableIsKept(cs, j);
    }
  }

  /** Nothing is left exactly when nothing was usable. */
  lemma EmptyExactly(user: int, platform: string, logs: seq<SubmitLog>)
    ensures Normalized(user, platform, logs) == [] <==>
            forall j :: 0 <= j < |logs| ==> TrimSpace(logs[j].submitId) == "" || logs[j].time == ZERO_TIME
  {
    var cs := Candidates(user, platform, logs);
    assert forall j :: 0 <= j < |logs| ==> (cs[j].Some? <==> Usable(logs[j]));
    if Merge(cs) != [] {
      var first, last := RowOrigin(cs, 0);
    }
    forall j | 0 <= j < |logs| && cs[j].Some?
      ensures Merge(cs) != []
    {
      UsableIsKept(cs, j);
    }
  }

  lemma {:induction false} MergeKeepsDistinct(rows: seq<SubmitLog>)
    requires DistinctIds(rows)
    ensures Merge(seq(|rows|, i requires 0 <= i < |rows| => Some(rows[i]))) == rows
  {
    var cs := seq(|rows|, i requires 0 <= i < |rows| => Some(rows[i]));
    if rows != [] {
      var before := rows[..|rows| - 1];
      MergeKeepsDistinct(before);
      assert cs[..|rows| - 1] == seq(|before|, i requires 0 <= i < |before| => Some(before[i]));
      assert !HasId(before, rows[|rows| - 1].submitId);
    }
  }

  lemma TrimTwice(s: string)
    ensures TrimSpace(TrimSpace(s)) == TrimSpace(s)
  {
    TrimSpaceTrims(s);
    TrimSpaceTrims(TrimSpace(s));
  }

  lemma CleanTwice(user: int, platform: string, item: SubmitLog)
    requires Usable(item)
    ensures Candidate(user, platform, Clean(user, platform, item)) == Some(Clean(user, platform, item))
  {
    TrimTwice(item.submitId);
    TrimTwice(item.contest);
    TrimTwice(item.problem);
    TrimTwice(item.lang);
    TrimTwice(item.status);
  }

  /** Normalising a normalised list changes nothing (so nothing is skipped either). */
  lemma NormalizeTwice(user: int, platform: string, logs: seq<SubmitLog>)
    ensures Normalized(user, platform, Normalized(user, platform, logs)) == Normalized(user, platform, logs)
  {
    var cs, rows := Candidates(user, platform, logs), Normalized(user, platform, logs);
    IdsOnce(cs);
    forall i | 0 <= i < |rows|
      ensures Candidate(user, platform, rows[i]) == Some(rows[i])
    {
      var first, last := RowOrigin(cs, i);
      CleanTwice(user, platform, logs[last]);
    }
    assert Candidates(user, platform, rows) == seq(|rows|, i requires 0 <= i < |rows| => Some(rows[i]));
    MergeKeepsDistinct(rows);
  }
}
