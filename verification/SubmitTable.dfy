/** The submit_logs table, keyed as its unique index is: by platform and submit id. */
module SubmitTable {
  import opened Model
  import opened FetchNormalize

  type Table = map<(string, string), SubmitLog>

  const BATCH_SIZE: nat := 500

  function KeyOf(row: SubmitLog): (string, string) {
    (row.platform, row.submitId)
  }

  /** Rows are stored under their own key. */
  ghost predicate Keyed(t: Table) {
    forall k :: k in t ==> KeyOf(t[k]) == k
  }

  predicate Owns(user: int, platform: string, row: SubmitLog) {
    row.userId == user && row.platform == platform
  }

  function Owned(t: Table, user: int, platform: string): Table {
    map k | k in t && Owns(user, platform, t[k]) :: t[k]
  }

  function Without(t: Table, user: int, platform: string): Table {
    map k | k in t && !Owns(user, platform, t[k]) :: t[k]
  }

  /** INSERT ... ON CONFLICT (platform, submit_id) DO UPDATE, row after row. */
  function Upsert(t: Table, rows: seq<SubmitLog>): Table {
    if rows == [] then t else Upsert(t, rows[..|rows| - 1])[KeyOf(rows[|rows| - 1]) := rows[|rows| - 1]]
  }

  /** One statement may not touch the same row twice. */
  predicate OneRowPerKey(rows: seq<SubmitLog>) {
    forall i, j :: 0 <= i < j < |rows| ==> KeyOf(rows[i]) != KeyOf(rows[j])
  }

  /** What a committed refresh leaves behind. */
  function Saved(t: Table, user: int, platform: string, full: bool, rows: seq<SubmitLog>): Table {
    Upsert(if full then Without(t, user, platform) else t, rows)
  }

  // ---------------------------------------------------------------- upserts

  lemma {:induction false} UpsertInTwo(t: Table, a: seq<SubmitLog>, b: seq<SubmitLog>)
    ensures Upsert(t, a + b) == Upsert(Upsert(t, a), b)
  {
    if b == [] {
      assert a + b == a;
    } else {
      UpsertInTwo(t, a, b[..|b| - 1]);
      assert (a + b)[..|a + b| - 1] == a + b[..|b| - 1];
    }
  }

  /** An upsert overrides or adds, and nothing else. */
  lemma {:induction false} UpsertIsMerge(t: Table, rows: seq<SubmitLog>)
    ensures Upsert(t, rows) == t + Upsert(map[], rows)
  {
    if rows != [] {
      UpsertIsMerge(t, rows[..|rows| - 1]);
    }
  }

  /** The rows an upsert writes, by key. */
  function Written(rows: seq<SubmitLog>): Table {
    Upsert(map[], rows)
  }

  lemma {:induction false} WrittenComesFrom(rows: seq<SubmitLog>, k: (string, string))
    requires k in Written(rows)
    ensures Written(rows)[k] in rows && KeyOf(Written(rows)[k]) == k
  {
    var before, row := rows[..|rows| - 1], rows[|rows| - 1];
    if k != KeyOf(row) {
      WrittenComesFrom(before, k);
    }
  }

  lemma {:induction false} WrittenFinds(rows: seq<SubmitLog>, i: nat)
    requires i < |rows|
    ensures KeyOf(rows[i]) in Written(rows)
    ensures OneRowPerKey(rows) ==> Written(rows)[KeyOf(rows[i])] == rows[i]
  {
    if i < |rows| - 1 {
      WrittenFinds(rows[..|rows| - 1], i);
    }
  }

  lemma {:induction false} WrittenSize(rows: seq<SubmitLog>)
    requires OneRowPerKey(rows)
    ensures |Written(rows)| == |rows|
  {
    if rows != [] {
      var before, row := rows[..|rows| - 1], rows[|rows| - 1];
      WrittenSize(before);
      var t := Written(before);
      if KeyOf(row) in t {
        WrittenComesFrom(before, KeyOf(row));
      }
      assert t[KeyOf(row) := row].Keys == t.Keys + {KeyOf(row)};
    }
  }

  // ---------------------------------------------------------------- refreshes

  ghost predicate AllOwned(user: int, platform: string, rows: seq<SubmitLog>) {
    forall i :: 0 <= i < |rows| ==> Owns(user, platform, rows[i])
  }

  lemma NormalizedIsInsertable(user: int, platform: string, logs: seq<SubmitLog>)
    ensures AllOwned(user, platform, Normalized(user, platform, logs))
    ensures OneRowPerKey(Normalized(user, platform, logs))
  {
    NormalizedIs(user, platform, logs);
  }

  lemma WrittenIsOwned(user: int, platform: string, rows: seq<SubmitLog>)
    requires AllOwned(user, platform, rows)
    ensures forall k :: k in Written(rows) ==> Owns(user, platform, Written(rows)[k]) && KeyOf(Written(rows)[k]) == k
  {
    forall k | k in Written(rows)
      ensures Owns(user, platform, Written(rows)[k]) && KeyOf(Written(rows)[k]) == k
    {
      WrittenComesFrom(rows, k);
    }
  }

  /** A full refresh replaces: afterwards the user's rows on the platform are exactly the given ones, and
      every other row is as before unless one of them took over its submit id. */
  lemma FullRefreshReplaces(t: Table, user: int, platform: string, rows: seq<SubmitLog>)
    requires Keyed(t) && AllOwned(user, platform, rows) && OneRowPerKey(rows)
    ensures Keyed(Saved(t, user, platform, true, rows))
    ensures Owned(Saved(t, user, platform, true, rows), user, platform) == Written(rows)
    ensures |Owned(Saved(t, user, platform, true, rows), user, platform)| == |rows|
    ensures Saved(t, user, platform, true, rows) == Without(t, user, platform) + Written(rows)
  {
    UpsertIsMerge(Without(t, user, platform), rows);
    WrittenIsOwned(user, platform, rows);
    WrittenSize(rows);
    assert Owned(Without(t, user, platform) + Written(rows), user, platform) == Written(rows);
  }

  /** An incremental refresh only overrides or adds. */
  lemma IncrementalRefreshAdds(t: Table, user: int, platform: string, rows: seq<SubmitLog>)
    requires Keyed(t) && AllOwned(user, platform, rows) && OneRowPerKey(rows)
    ensures Keyed(Saved(t, user, platform, false, rows))
    ensures Saved(t, user, platform, false, rows) == t + Written(rows)
    ensures forall i :: 0 <= i < |rows| ==> KeyOf(rows[i]) in Written(rows) && Written(rows)[KeyOf(rows[i])] == rows[i]
  {
    UpsertIsMerge(t, rows);
    WrittenIsOwned(user, platform, rows);
    forall i | 0 <= i < |rows|
      ensures KeyOf(rows[i]) in Written(rows) && Written(rows)[KeyOf(rows[i])] == rows[i]
    {
      WrittenFinds(rows, i);
    }
  }

  /** The saved table, key by key: a written key holds the written row; any other key is there exactly if it was
      before and a full refresh did not delete it, which it does to rows of this user on this platform only. */
  lemma SavedExactly(t: Table, user: int, platform: string, full: bool, rows: seq<SubmitLog>, k: (string, string))
    requires OneRowPerKey(rows)
    ensures var t' := Saved(t, user, platform, full, rows);
            && (forall i :: 0 <= i < |rows| && (rows[i].platform, rows[i].submitId) == k ==> k in t' && t'[k] == rows[i])
            && ((forall i :: 0 <= i < |rows| ==> (rows[i].platform, rows[i].submitId) != k) ==>
                  && (k in t' <==> k in t && !(full && t[k].userId == user && t[k].platform == platform))
                  && (k in t' ==> t'[k] == t[k]))
  {
    UpsertIsMerge(if full then Without(t, user, platform) else t, rows);
    forall i: nat | i < |rows| && KeyOf(rows[i]) == k
      ensures k in Written(rows) && Written(rows)[k] == rows[i]
    {
      WrittenFinds(rows, i);
    }
    if k in Written(rows) {
      WrittenComesFrom(rows, k);
    }
  }

  /** What a full refresh counts before it deletes. */
  lemma OwnedCount(t: Table, user: int, platform: string)
    ensures |Owned(t, user, platform)| == |set k | k in t && t[k].userId == user && t[k].platform == platform|
  {
    assert Owned(t, user, platform).Keys == set k | k in t && t[k].userId == user && t[k].platform == platform;
  }

  /** Neither kind of refresh touches another platform. */
  lemma OtherPlatformsUntouched(t: Table, user: int, platform: string, full: bool, rows: seq<SubmitLog>, k: (string, string))
    requires Keyed(t) && AllOwned(user, platform, rows) && k.0 != platform
    ensures var t' := Saved(t, user, platform, full, rows); (k in t' <==> k in t) && (k in t ==> t'[k] == t[k])
  {
    UpsertIsMerge(if full then Without(t, user, platform) else t, rows);
    WrittenIsOwned(user, platform, rows);
    assert k in Written(rows) ==> KeyOf(Written(rows)[k]) == k;
    assert k in t ==> KeyOf(t[k]) == k;
  }
}
