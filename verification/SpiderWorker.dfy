/** The worker that refreshes a user's platforms: fetch, transactional save, retries, status rows and
    the job row. Runs are executed one at a time; every outside result is an argument. */
module SpiderWorker {
  import opened Model
  import opened Text
  import opened FetchNormalize
  import opened SubmitTable
  import opened SyncHistory
  import J = RefreshJobs

  const COOLDOWN: int := 30 * MINUTE
  const CODEFORCES := "CodeForces"

  /** The database statements of one save. */
  datatype DbOp = CountRows | DeleteRows | InsertBatch(n: nat) | Commit

  /** One attempt as the outside world answers it: what the platform returned, which statements fail
      and how long it took. */
  datatype Attempt = Attempt(fetch: Result<seq<SubmitLog>, string>, faults: map<DbOp, string>, took: nat)

  datatype SaveError = FetchFailed(text: string) | NothingUsable(platform: string) | Incomplete | Database(text: string)

  /** Errors whose text mentions the platform are not retried; the one about an incomplete fetch always does. */
  predicate Final(e: SaveError) {
    var mark := "\U{5E73}\U{53F0}";
    match e
    case FetchFailed(text) => Contains(text, mark)
    case NothingUsable(platform) => Contains(platform, mark)
    case Incomplete => true
    case Database(text) => Contains(text, mark)
  }

  /** Which errors end the retries. */
  lemma FinalExactly(e: SaveError)
    ensures Final(e) <==>
      match e
      case Incomplete => true
      case NothingUsable(platform) => exists i :: OccursAt(platform, "\U{5E73}\U{53F0}", i)
      case FetchFailed(text) => exists i :: OccursAt(text, "\U{5E73}\U{53F0}", i)
      case Database(text) => exists i :: OccursAt(text, "\U{5E73}\U{53F0}", i)
  {
    match e
    case Incomplete =>
    case NothingUsable(platform) => ContainsExactly(platform, "\U{5E73}\U{53F0}");
    case FetchFailed(text) => ContainsExactly(text, "\U{5E73}\U{53F0}");
    case Database(text) => ContainsExactly(text, "\U{5E73}\U{53F0}");
  }

  /** rejectIncompleteFullFetch. */
  predicate RejectsIncomplete(fetched: nat, existing: nat, full: bool) {
    full && existing > 0 && fetched < existing
  }

  /** The first of the batches, from number `n` at row `from` on, that fails. */
  function BatchFault(faults: map<DbOp, string>, n: nat, from: nat, rows: nat): Option<string>
    decreases rows - from
  {
    if from >= rows then None
    else if InsertBatch(n) in faults then Some(faults[InsertBatch(n)])
    else BatchFault(faults, n + 1, from + BATCH_SIZE, rows)
  }

  /** The result of one attempt on table `t`: the rows to be saved, or why nothing is. */
  function Outcome(t: Table, user: int, platform: string, full: bool, a: Attempt): Result<seq<SubmitLog>, SaveError> {
    match a.fetch
    case Err(text) => Err(FetchFailed(text))
    case Ok(logs) =>
      var rows := Normalized(user, platform, logs);
      if logs != [] && rows == [] then Err(NothingUsable(platform))
      else if full && CountRows in a.faults then Err(Database(a.faults[CountRows]))
      else if RejectsIncomplete(|rows|, |Owned(t, user, platform)|, full) then Err(Incomplete)
      else if full && DeleteRows in a.faults then Err(Database(a.faults[DeleteRows]))
      else if BatchFault(a.faults, 0, 0, |rows|).Some? then Err(Database(BatchFault(a.faults, 0, 0, |rows|).value))
      else if Commit in a.faults then Err(Database(a.faults[Commit]))
      else Ok(rows)
  }

  lemma {:induction false} BatchFaultExactly(faults: map<DbOp, string>, n: nat, rows: nat)
    ensures BatchFault(faults, n, 500 * n, rows).None? <==>
            forall m: nat :: n <= m && 500 * m < rows ==> InsertBatch(m) !in faults
    decreases rows - 500 * n
  {
    if 500 * n < rows && InsertBatch(n) !in faults {
      BatchFaultExactly(faults, n + 1, rows);
    }
  }

  /** A refresh is committed exactly when the fetch succeeded, was empty or had something usable, was not
      smaller than what a full refresh would delete, and no statement failed. */
  lemma CommitsExactly(t: Table, user: int, platform: string, full: bool, a: Attempt)
    ensures Outcome(t, user, platform, full, a).Ok? <==>
      && a.fetch.Ok?
      && (a.fetch.value == [] ||
          exists j :: 0 <= j < |a.fetch.value| && TrimSpace(a.fetch.value[j].submitId) != "" && a.fetch.value[j].time != ZERO_TIME)
      && (full ==> CountRows !in a.faults && DeleteRows !in a.faults &&
                   |Normalized(user, platform, a.fetch.value)| >=
                   |set k | k in t && t[k].userId == user && t[k].platform == platform|)
      && (forall m: nat :: 500 * m < |Normalized(user, platform, a.fetch.value)| ==> InsertBatch(m) !in a.faults)
      && Commit !in a.faults
  {
    OwnedCount(t, user, platform);
    if a.fetch.Ok? {
      EmptyExactly(user, platform, a.fetch.value);
      BatchFaultExactly(a.faults, 0, |Normalized(user, platform, a.fetch.value)|);
    }
  }

  /** The table after the attempt. */
  function TableAfter(t: Table, user: int, platform: string, full: bool, a: Attempt): Table {
    match Outcome(t, user, platform, full, a)
    case Ok(rows) => Saved(t, user, platform, full, rows)
    case Err(_) => t
  }

  /** A committed full refresh never shrinks the user's rows, and leaves exactly the normalised fetch. */
  lemma CommittedFullRefresh(t: Table, user: int, platform: string, a: Attempt)
    requires Keyed(t) && Outcome(t, user, platform, true, a).Ok?
    ensures a.fetch.Ok? && Owned(TableAfter(t, user, platform, true, a), user, platform) ==
                           Written(Normalized(user, platform, a.fetch.value))
    ensures |Owned(TableAfter(t, user, platform, true, a), user, platform)| >= |Owned(t, user, platform)|
    ensures |Normalized(user, platform, a.fetch.value)| >= |set k | k in t && t[k].userId == user && t[k].platform == platform|
    ensures Keyed(TableAfter(t, user, platform, true, a))
  {
    OwnedCount(t, user, platform);
    NormalizedIsInsertable(user, platform, a.fetch.value);
    FullRefreshReplaces(t, user, platform, Normalized(user, platform, a.fetch.value));
  }

  /** The attempt is answered with a row that is stored under `k`. */
  ghost predicate Brings(user: int, platform: string, a: Attempt, k: (string, string)) {
    a.fetch.Ok? && exists row :: row in Normalized(user, platform, a.fetch.value) && (row.platform, row.submitId) == k
  }

  /** A row that the attempt does not bring stays as it is, unless a committed full refresh deletes it, which it
      does exactly to rows of the user on the platform. */
  lemma AttemptKeepsRows(t: Table, user: int, platform: string, full: bool, a: Attempt, k: (string, string))
    requires k in t && !Brings(user, platform, a, k)
    ensures var t' := TableAfter(t, user, platform, full, a);
            && (k in t' <==> !(full && Outcome(t, user, platform, full, a).Ok? &&
                               t[k].userId == user && t[k].platform == platform))
            && (k in t' ==> t'[k] == t[k])
  {
    if Outcome(t, user, platform, full, a).Ok? {
      NormalizedIsInsertable(user, platform, a.fetch.value);
      SavedExactly(t, user, platform, full, Normalized(user, platform, a.fetch.value), k);
    }
  }

  /** Every attempt leaves a well-formed table and the other platforms alone. */
  lemma AttemptIsLocal(t: Table, user: int, platform: string, full: bool, a: Attempt)
    requires Keyed(t)
    ensures Keyed(TableAfter(t, user, platform, full, a))
    ensures forall k: (string, string) :: k.0 != platform ==>
              (k in TableAfter(t, user, platform, full, a) <==> k in t) &&
              (k in t ==> TableAfter(t, user, platform, full, a)[k] == t[k])
  {
    if Outcome(t, user, platform, full, a).Ok? {
      var rows := Normalized(user, platform, a.fetch.value);
      NormalizedIsInsertable(user, platform, a.fetch.value);
      if full {
        FullRefreshReplaces(t, user, platform, rows);
      } else {
        IncrementalRefreshAdds(t, user, platform, rows);
      }
      forall k: (string, string) | k.0 != platform {
        OtherPlatformsUntouched(t, user, platform, full, rows, k);
      }
    }
  }

  /** CreateInBatches inside the transaction: batch after batch, the first failure ends it. */
  method InsertInBatches(base: Table, rows: seq<SubmitLog>, faults: map<DbOp, string>) returns (r: Result<Table, string>)
    ensures OneRowPerKey(rows) ==>
      r == match BatchFault(faults, 0, 0, |rows|) case Some(text) => Err(text) case None => Ok(Upsert(base, rows))
  {
    var t, n, from := base, 0, 0;
    while from < |rows|
      invariant t == Upsert(base, rows[..Min(from, |rows|)])
      invariant BatchFault(faults, 0, 0, |rows|) == BatchFault(faults, n, from, |rows|)
      decreases |rows| - from
    {
      var to := Min(from + BATCH_SIZE, |rows|);
      var batch := rows[from..to];
      if InsertBatch(n) in faults {
        return Err(faults[InsertBatch(n)]);
      }
      if !OneRowPerKey(batch) {
        return Err("ON CONFLICT DO UPDATE command cannot affect row a second time");
      }
      UpsertInTwo(base, rows[..from], batch);
      assert rows[..from] + batch == rows[..to];
      t := Upsert(t, batch);
      n, from := n + 1, from + BATCH_SIZE;
    }
    assert rows[..|rows|] == rows;
    return Ok(t);
  }

  // ---------------------------------------------------------------- cooldown over the whole log

  predicate IsCodeforces(cs: Casing, platform: string) {
    EqualFold(cs, TrimSpace(platform), CODEFORCES)
  }

  ghost predicate AllSpaced(cs: Casing, h: seq<Event>) {
    forall u, p :: IsCodeforces(cs, p) ==> SpacedBy(h, u, p, COOLDOWN)
  }

  lemma StartKeepsSpacing(cs: Casing, h: seq<Event>, now: Instant, u: int, p: string)
    requires AllSpaced(cs, h) && Timely(h, now)
    requires IsCodeforces(cs, p) && LastStart(h, u, p).Some? ==> now - LastStart(h, u, p).value >= COOLDOWN
    ensures AllSpaced(cs, h + [Started(u, p, now)])
  {
    forall v, q | IsCodeforces(cs, q)
      ensures SpacedBy(h + [Started(u, p, now)], v, q, COOLDOWN)
    {
      if v == u && q == p {
        LateStartKeepsSpacing(h, now, u, p, COOLDOWN);
      } else {
        OtherEventsKeepSpacing(h, Started(u, p, now), v, q, COOLDOWN);
      }
    }
  }

  /** In minutes: two refreshes of CodeForces start at least half an hour apart. */
  lemma HalfAnHourApart(cs: Casing, h: seq<Event>, i: nat, j: nat)
    requires AllSpaced(cs, h) && i < j < |h| && h[i].Started? && h[j].Started?
    requires h[i].user == h[j].user && h[i].platform == h[j].platform
    requires cs.fold(TrimSpace(h[i].platform)) == cs.fold("CodeForces")
    requires forall m :: i < m < j ==> h[m] != Cleared(h[i].user, h[i].platform)
    ensures h[j].at - h[i].at >= 1_800_000_000_000
  {
    assert SpacedBy(h, h[i].user, h[i].platform, COOLDOWN);
    assert NotClearedFrom(h[..j], h[i].user, h[i].platform, i);
  }

  lemma EndKeepsSpacing(cs: Casing, h: seq<Event>, e: Event)
    requires AllSpaced(cs, h) && !e.Started?
    ensures AllSpaced(cs, h + [e])
  {
    forall v, q | IsCodeforces(cs, q)
      ensures SpacedBy(h + [e], v, q, COOLDOWN)
    {
      OtherEventsKeepSpacing(h, e, v, q, COOLDOWN);
    }
  }

  /** The log after one refresh of platform `p`. */
  function Refreshed(h: seq<Event>, u: int, p: string, at: Instant, ok: bool): seq<Event> {
    h + [Started(u, p, at)] + [if ok then Succeeded(u, p) else Broke(u, p)]
  }

  lemma RefreshIsLocal(h: seq<Event>, u: int, p: string, at: Instant, ok: bool)
    ensures LastMark(Refreshed(h, u, p, at, ok), u, p) == Some(if ok then Success else Failed)
    ensures forall q :: q != p ==> LastStart(Refreshed(h, u, p, at, ok), u, q) == LastStart(h, u, q) &&
                                   LastMark(Refreshed(h, u, p, at, ok), u, q) == LastMark(h, u, q)
  {
  }

  /** The log after the first `n` platforms of a job, started at the given times and ended as given. */
  function JobLog(h: seq<Event>, u: int, platforms: seq<string>, starts: seq<Instant>, oks: seq<bool>, n: nat): seq<Event>
    requires n <= |platforms| && n <= |starts| && n <= |oks|
  {
    if n == 0 then h
    else Refreshed(JobLog(h, u, platforms, starts, oks, n - 1), u, platforms[n - 1], starts[n - 1], oks[n - 1])
  }

  /** A platform of the job is not left running; without repetition it shows its own outcome. */
  lemma {:induction false} JobLogMark(h: seq<Event>, u: int, platforms: seq<string>, starts: seq<Instant>,
                                      oks: seq<bool>, n: nat, m: nat)
    requires m < n <= |platforms| && n <= |starts| && n <= |oks|
    ensures LastMark(JobLog(h, u, platforms, starts, oks, n), u, platforms[m]) in {Some(Success), Some(Failed)}
    ensures Distinct(platforms) ==>
              LastMark(JobLog(h, u, platforms, starts, oks, n), u, platforms[m]) == Some(if oks[m] then Success else Failed)
  {
    RefreshIsLocal(JobLog(h, u, platforms, starts, oks, n - 1), u, platforms[n - 1], starts[n - 1], oks[n - 1]);
    if m < n - 1 {
      JobLogMark(h, u, platforms, starts, oks, n - 1, m);
    }
  }

  lemma {:induction false} JobLogStart(h: seq<Event>, u: int, platforms: seq<string>, starts: seq<Instant>,
                                       oks: seq<bool>, n: nat, q: string)
    requires n <= |platforms| && n <= |starts| && n <= |oks| && q !in platforms[..n]
    ensures LastStart(JobLog(h, u, platforms, starts, oks, n), u, q) == LastStart(h, u, q)
  {
    if n > 0 {
      assert platforms[..n] == platforms[..n - 1] + [platforms[n - 1]];
      JobLogStart(h, u, platforms, starts, oks, n - 1, q);
      RefreshIsLocal(JobLog(h, u, platforms, starts, oks, n - 1), u, platforms[n - 1], starts[n - 1], oks[n - 1]);
    }
  }

  /** The platform may be started as far as the log knows. */
  ghost predicate Rested(cs: Casing, h: seq<Event>, u: int, p: string, now: Instant) {
    IsCodeforces(cs, p) && LastStart(h, u, p).Some? ==> now - LastStart(h, u, p).value >= COOLDOWN
  }

  /** The start times of a job that began at `now` and has got to `end`. */
  ghost predicate InTurn(starts: seq<Instant>, now: Instant, end: Instant) {
    && (forall m :: 0 <= m < |starts| ==> now <= starts[m] <= end)
    && (forall m, k :: 0 <= m < k < |starts| ==> starts[m] <= starts[k])
  }

  lemma {:induction false} JobLogTimely(h: seq<Event>, now: Instant, u: int, platforms: seq<string>,
                                        starts: seq<Instant>, end: Instant, oks: seq<bool>, n: nat)
    requires n <= |platforms| && n <= |starts| && n <= |oks|
    requires Timely(h, now) && InTurn(starts, now, end)
    ensures Timely(JobLog(h, u, platforms, starts, oks, n), if n == 0 then now else starts[n - 1])
  {
    if n > 0 {
      JobLogTimely(h, now, u, platforms, starts, end, oks, n - 1);
    }
  }

  /** A job that only starts rested platforms, each once, keeps CodeForces refreshes apart. */
  lemma {:induction false} JobKeepsSpacing(cs: Casing, h: seq<Event>, now: Instant, u: int, platforms: seq<string>,
                                           starts: seq<Instant>, end: Instant, oks: seq<bool>, n: nat)
    requires n <= |platforms| && n <= |starts| && n <= |oks|
    requires AllSpaced(cs, h) && Timely(h, now) && Distinct(platforms) && InTurn(starts, now, end)
    requires forall m :: 0 <= m < |platforms| ==> Rested(cs, h, u, platforms[m], now)
    ensures AllSpaced(cs, JobLog(h, u, platforms, starts, oks, n))
  {
    if n > 0 {
      JobKeepsSpacing(cs, h, now, u, platforms, starts, end, oks, n - 1);
      var before, p, at := JobLog(h, u, platforms, starts, oks, n - 1), platforms[n - 1], starts[n - 1];
      assert Timely(before, at) by {
        JobLogTimely(h, now, u, platforms, starts, end, oks, n - 1);
      }
      assert Rested(cs, before, u, p, at) by {
        assert Rested(cs, h, u, p, now);
        JobLogStart(h, u, platforms, starts, oks, n - 1, p);
      }
      StartKeepsSpacing(cs, before, at, u, p);
      EndKeepsSpacing(cs, before + [Started(u, p, at)], if oks[n - 1] then Succeeded(u, p) else Broke(u, p));
    }
  }

  // ---------------------------------------------------------------- the worker

  function MaxRetries(platform: string): nat {
    if platform == CODEFORCES then 1 else 12
  }

  /** The attempt failed and another one follows. */
  predicate Retried(t: Table, user: int, platform: string, full: bool, a: Attempt) {
    var o := Outcome(t, user, platform, full, a);
    o.Err? && !Final(o.error) && full
  }

  const PAUSE: nat := 5_000_000_000

  /** The number of the last attempt, once attempt `i` is made: the loop stops after one that is not
      retried, or at the limit. */
  function Decisive(limit: nat, retried: nat -> bool, i: nat): (k: nat)
    requires i < limit
    ensures i <= k < limit
    decreases limit - i
  {
    if i + 1 < limit && retried(i) then Decisive(limit, retried, i + 1) else i
  }

  lemma {:induction false} DecisiveIsFirst(limit: nat, retried: nat -> bool, i: nat, k: nat)
    requires i <= k < limit
    ensures Decisive(limit, retried, i) == k <==>
            (k + 1 == limit || !retried(k)) && forall m: nat :: i <= m < k ==> retried(m)
    decreases limit - i
  {
    if i + 1 < limit && retried(i) && i < k {
      DecisiveIsFirst(limit, retried, i + 1, k);
    }
  }

  function RetriedAt(t: Table, user: int, platform: string, full: bool, script: nat -> Attempt): nat -> bool {
    (i: nat) => Retried(t, user, platform, full, script(i))
  }

  /** The attempt that decides about the platform. */
  function LastAttempt(t: Table, user: int, platform: string, full: bool, script: nat -> Attempt): Attempt {
    script(Decisive(MaxRetries(platform), RetriedAt(t, user, platform, full, script), 0))
  }

  predicate PlatformOk(t: Table, user: int, platform: string, full: bool, script: nat -> Attempt) {
    Outcome(t, user, platform, full, LastAttempt(t, user, platform, full, script)).Ok?
  }

  function PlatformTable(t: Table, user: int, platform: string, full: bool, script: nat -> Attempt): Table {
    TableAfter(t, user, platform, full, LastAttempt(t, user, platform, full, script))
  }

  /** At most twelve attempts are made, and a single one for CodeForces or in an incremental refresh. */
  lemma AttemptLimit(t: Table, user: int, platform: string, full: bool, script: nat -> Attempt)
    ensures var made := Decisive(MaxRetries(platform), RetriedAt(t, user, platform, full, script), 0) + 1;
            made <= 12 && (platform == "CodeForces" || !full ==> made == 1)
  {
    var retried := RetriedAt(t, user, platform, full, script);
    assert retried(0) == Retried(t, user, platform, full, script(0));
  }

  /** A platform succeeds exactly when some attempt commits that only retryable failures precede; then
      the table is what that attempt leaves, and otherwise it is unchanged. */
  lemma PlatformSucceedsExactly(t: Table, user: int, platform: string, full: bool, script: nat -> Attempt)
    ensures PlatformOk(t, user, platform, full, script) <==>
            exists k: nat :: k < MaxRetries(platform) && Outcome(t, user, platform, full, script(k)).Ok? &&
                             forall i: nat :: i < k ==> Retried(t, user, platform, full, script(i))
    ensures forall k: nat :: k < MaxRetries(platform) && Outcome(t, user, platform, full, script(k)).Ok? &&
                             (forall i: nat :: i < k ==> Retried(t, user, platform, full, script(i))) ==>
                             PlatformTable(t, user, platform, full, script) == TableAfter(t, user, platform, full, script(k))
    ensures !PlatformOk(t, user, platform, full, script) ==> PlatformTable(t, user, platform, full, script) == t
  {
    var retried := RetriedAt(t, user, platform, full, script);
    var d := Decisive(MaxRetries(platform), retried, 0);
    DecisiveIsFirst(MaxRetries(platform), retried, 0, d);
    forall i: nat | i < d
      ensures Retried(t, user, platform, full, script(i))
    {
      assert retried(i);
    }
    forall k: nat | k < MaxRetries(platform) && Outcome(t, user, platform, full, script(k)).Ok? &&
                    forall i: nat :: i < k ==> Retried(t, user, platform, full, script(i))
      ensures k == d
    {
      DecisiveIsFirst(MaxRetries(platform), retried, 0, k);
    }
  }

  /** What the n-th platform of a job does to a table, and whether it succeeds. */
  type Effect = (Table, nat) -> (Table, bool)

  /** `scripts(n)` are the answers to platform n. */
  function JobEffect(user: int, full: bool, platforms: seq<string>, scripts: nat -> nat -> Attempt): Effect {
    (t: Table, n: nat) =>
      if n < |platforms|
      then (PlatformTable(t, user, platforms[n], full, scripts(n)), PlatformOk(t, user, platforms[n], full, scripts(n)))
      else (t, false)
  }

  /** The table after the first `n` platforms. */
  function TableAt(effect: Effect, t: Table, n: nat): Table {
    if n == 0 then t else effect(TableAt(effect, t, n - 1), n - 1).0
  }

  /** The n-th platform succeeds. */
  predicate OkAt(effect: Effect, t: Table, n: nat) {
    effect(TableAt(effect, t, n), n).1
  }

  predicate AllOk(effect: Effect, t: Table, n: nat) {
    forall m: nat :: m < n ==> OkAt(effect, t, m)
  }

  /** A record of the platforms processed so far: table and log before each of them and at the end, how
      each one ended and when it was started. */
  datatype Trace = Trace(tables: seq<Table>, logs: seq<seq<Event>>, oks: seq<bool>, starts: seq<Instant>)

  ghost predicate Traced(user: int, platforms: seq<string>, effect: Effect, tr: Trace) {
    && |tr.tables| == |tr.logs| == |tr.oks| + 1 <= |platforms| + 1 && |tr.starts| == |tr.oks|
    && forall m: nat :: m < |tr.oks| ==> TracedAt(user, platforms[m], effect, tr, m)
  }

  ghost predicate TracedAt(user: int, platform: string, effect: Effect, tr: Trace, m: nat)
    requires m < |tr.oks| == |tr.starts| && |tr.tables| == |tr.logs| == |tr.oks| + 1
  {
    && effect(tr.tables[m], m) == (tr.tables[m + 1], tr.oks[m])
    && tr.logs[m + 1] == Refreshed(tr.logs[m], user, platform, tr.starts[m], tr.oks[m])
  }

  function Extended(tr: Trace, t: Table, h: seq<Event>, ok: bool, at: Instant): Trace {
    Trace(tr.tables + [t], tr.logs + [h], tr.oks + [ok], tr.starts + [at])
  }

  lemma TracedNext(user: int, platforms: seq<string>, effect: Effect, tr: Trace, t: Table, h: seq<Event>, ok: bool, at: Instant)
    requires Traced(user, platforms, effect, tr) && |tr.oks| < |platforms|
    requires effect(tr.tables[|tr.oks|], |tr.oks|) == (t, ok)
    requires h == Refreshed(tr.logs[|tr.oks|], user, platforms[|tr.oks|], at, ok)
    ensures Traced(user, platforms, effect, Extended(tr, t, h, ok, at))
  {
    var tr' := Extended(tr, t, h, ok, at);
    forall m: nat | m < |tr'.oks|
      ensures TracedAt(user, platforms[m], effect, tr', m)
    {
      if m < |tr.oks| {
        assert TracedAt(user, platforms[m], effect, tr, m);
      }
    }
  }

  lemma {:induction false} TracedIs(user: int, platforms: seq<string>, effect: Effect, tr: Trace, n: nat)
    requires Traced(user, platforms, effect, tr) && n <= |tr.oks|
    ensures tr.tables[n] == TableAt(effect, tr.tables[0], n)
    ensures tr.logs[n] == JobLog(tr.logs[0], user, platforms, tr.starts, tr.oks, n)
    ensures n < |tr.oks| ==> (tr.oks[n] <==> OkAt(effect, tr.tables[0], n))
  {
    if n > 0 {
      TracedIs(user, platforms, effect, tr, n - 1);
      assert TracedAt(user, platforms[n - 1], effect, tr, n - 1);
    }
    if n < |tr.oks| {
      assert TracedAt(user, platforms[n], effect, tr, n);
    }
  }

  /** The two tables have the same rows of platform `p`. */
  ghost predicate SameOn(t: Table, t': Table, p: string) {
    forall k: (string, string) :: k.0 == p ==> (k in t' <==> k in t) && (k in t ==> t'[k] == t[k])
  }

  lemma SameRowsOwned(t: Table, t': Table, user: int, p: string)
    requires Keyed(t) && Keyed(t') && SameOn(t, t', p)
    ensures Owned(t', user, p) == Owned(t, user, p)
  {
    assert forall k :: k in t ==> k.0 == t[k].platform;
    assert forall k :: k in t' ==> k.0 == t'[k].platform;
  }

  lemma PlatformIsLocal(t: Table, user: int, platform: string, full: bool, script: nat -> Attempt, p: string)
    requires Keyed(t)
    ensures Keyed(PlatformTable(t, user, platform, full, script))
    ensures p != platform ==> SameOn(t, PlatformTable(t, user, platform, full, script), p)
  {
    AttemptIsLocal(t, user, platform, full, LastAttempt(t, user, platform, full, script));
  }

  /** Between two moments of a job, only the platforms processed in between change. */
  lemma JobIsLocal(t: Table, user: int, full: bool, platforms: seq<string>, scripts: nat -> nat -> Attempt,
                   m: nat, n: nat, p: string)
    requires Keyed(t) && m <= n <= |platforms| && p !in platforms[m..n]
    ensures var effect := JobEffect(user, full, platforms, scripts);
            && Keyed(TableAt(effect, t, m)) && Keyed(TableAt(effect, t, n))
            && SameOn(TableAt(effect, t, m), TableAt(effect, t, n), p)
  {
    var effect := JobEffect(user, full, platforms, scripts);
    forall k: nat, t0 | k < |platforms| && Keyed(t0)
      ensures Keyed(effect(t0, k).0) && (platforms[k] != p ==> SameOn(t0, effect(t0, k).0, p))
    {
      PlatformIsLocal(t0, user, platforms[k], full, scripts(k), p);
    }
    EffectsAddUp(t, effect, platforms, p, m, m);
    EffectsAddUp(t, effect, platforms, p, m, n);
  }

  lemma {:induction false} EffectsAddUp(t: Table, effect: Effect, platforms: seq<string>, p: string, m: nat, n: nat)
    requires Keyed(t) && m <= n <= |platforms| && p !in platforms[m..n]
    requires forall k: nat, t0 :: k < |platforms| && Keyed(t0) ==>
               Keyed(effect(t0, k).0) && (platforms[k] != p ==> SameOn(t0, effect(t0, k).0, p))
    ensures Keyed(TableAt(effect, t, n)) && SameOn(TableAt(effect, t, m), TableAt(effect, t, n), p)
    decreases n
  {
    if m < n {
      assert platforms[m..n - 1] == platforms[m..n][..n - 1 - m];
      assert platforms[n - 1] == platforms[m..n][n - 1 - m];
      EffectsAddUp(t, effect, platforms, p, m, n - 1);
    } else if n > 0 {
      assert platforms[n - 1..n - 1] == [];
      EffectsAddUp(t, effect, platforms, p, n - 1, n - 1);
    }
  }

  /** What a full job leaves for every one of its platforms: the normalised answer of its last attempt,
      and never fewer rows than before the job, if the platform succeeded; the rows from before the job,
      if it failed. */
  lemma FullJobReplaces(t: Table, user: int, platforms: seq<string>, scripts: nat -> nat -> Attempt, m: nat)
    requires Keyed(t) && Distinct(platforms) && m < |platforms|
    ensures var effect := JobEffect(user, true, platforms, scripts);
            var p, after := platforms[m], TableAt(effect, t, |platforms|);
            var last := LastAttempt(TableAt(effect, t, m), user, p, true, scripts(m));
            if OkAt(effect, t, m)
            then last.fetch.Ok? && Owned(after, user, p) == Written(Normalized(user, p, last.fetch.value)) &&
                 |Owned(after, user, p)| >= |Owned(t, user, p)|
            else Owned(after, user, p) == Owned(t, user, p)
  {
    var effect, p := JobEffect(user, true, platforms, scripts), platforms[m];
    var before, next := TableAt(effect, t, m), TableAt(effect, t, m + 1);
    assert platforms[0..m] == platforms[..m];
    JobIsLocal(t, user, true, platforms, scripts, 0, m, p);
    SameRowsOwned(t, before, user, p);
    JobIsLocal(t, user, true, platforms, scripts, m + 1, |platforms|, p);
    SameRowsOwned(next, TableAt(effect, t, |platforms|), user, p);
    assert effect(before, m) == (PlatformTable(before, user, p, true, scripts(m)), PlatformOk(before, user, p, true, scripts(m)));
    if OkAt(effect, t, m) {
      CommittedFullRefresh(before, user, p, LastAttempt(before, user, p, true, scripts(m)));
    }
  }

  /** A job leaves a row alone if none of its platforms brings it and it is not one that a full job replaces:
      rows of other users, of other platforms, and in an incremental job all rows. */
  lemma JobKeepsRows(t: Table, user: int, full: bool, platforms: seq<string>, scripts: nat -> nat -> Attempt,
                     n: nat, k: (string, string))
    requires n <= |platforms| && k in t
    requires full ==> t[k].userId != user || t[k].platform !in platforms[..n]
    requires var effect := JobEffect(user, full, platforms, scripts);
             forall m: nat :: m < n ==>
               !Brings(user, platforms[m], LastAttempt(TableAt(effect, t, m), user, platforms[m], full, scripts(m)), k)
    ensures var t' := TableAt(JobEffect(user, full, platforms, scripts), t, n); k in t' && t'[k] == t[k]
  {
    var effect := JobEffect(user, full, platforms, scripts);
    forall m: nat | m < n && Holds(TableAt(effect, t, m), k, t[k])
      ensures Holds(effect(TableAt(effect, t, m), m).0, k, t[k])
    {
      var before, p := TableAt(effect, t, m), platforms[m];
      assert p in platforms[..n];
      AttemptKeepsRows(before, user, p, full, LastAttempt(before, user, p, full, scripts(m)), k);
    }
    StillHolds(effect, t, n, k);
  }

  ghost predicate Holds(t: Table, k: (string, string), row: SubmitLog) {
    k in t && t[k] == row
  }

  lemma {:induction false} StillHolds(effect: Effect, t: Table, n: nat, k: (string, string))
    requires k in t
    requires forall m: nat :: m < n && Holds(TableAt(effect, t, m), k, t[k]) ==> Holds(effect(TableAt(effect, t, m), m).0, k, t[k])
    ensures Holds(TableAt(effect, t, n), k, t[k])
  {
    if n > 0 {
      StillHolds(effect, t, n - 1, k);
    }
  }

  lemma {:induction false} StillThere(effect: Effect, t: Table, n: nat, k: (string, string))
    requires k in t && forall m: nat, t0: Table :: m < n && k in t0 ==> k in effect(t0, m).0
    ensures k in TableAt(effect, t, n)
  {
    if n > 0 {
      StillThere(effect, t, n - 1, k);
    }
  }

  /** An incremental job deletes nothing. */
  lemma IncrementalJobKeeps(t: Table, user: int, platforms: seq<string>, scripts: nat -> nat -> Attempt,
                            n: nat, k: (string, string))
    requires n <= |platforms| && k in t
    ensures k in TableAt(JobEffect(user, false, platforms, scripts), t, n)
  {
    var effect := JobEffect(user, false, platforms, scripts);
    forall m: nat, t0: Table | m < n && k in t0
      ensures k in effect(t0, m).0
    {
      AttemptDeletesNothing(t0, user, platforms[m], LastAttempt(t0, user, platforms[m], false, scripts(m)), k);
    }
    StillThere(effect, t, n, k);
  }

  lemma AttemptDeletesNothing(t: Table, user: int, platform: string, a: Attempt, k: (string, string))
    requires k in t
    ensures k in TableAfter(t, user, platform, false, a)
  {
    if Outcome(t, user, platform, false, a).Ok? {
      UpsertIsMerge(t, Normalized(user, platform, a.fetch.value));
    }
  }

  /** What the trace of a whole job says about the table. */
  lemma JobTables(u: int, platforms: seq<string>, effect: Effect, tr: Trace)
    requires Traced(u, platforms, effect, tr) && |tr.oks| == |platforms|
    ensures tr.tables[|platforms|] == TableAt(effect, tr.tables[0], |platforms|)
    ensures false !in tr.oks <==> AllOk(effect, tr.tables[0], |platforms|)
  {
    TracedIs(u, platforms, effect, tr, |platforms|);
    forall m: nat | m < |platforms|
      ensures tr.oks[m] in tr.oks && (tr.oks[m] <==> OkAt(effect, tr.tables[0], m))
    {
      TracedIs(u, platforms, effect, tr, m);
    }
  }

  /** What it says about the log. */
  lemma JobEvents(cs: Casing, now: Instant, end: Instant, u: int, platforms: seq<string>, effect: Effect, tr: Trace)
    requires Traced(u, platforms, effect, tr) && |tr.oks| == |platforms|
    requires Timely(tr.logs[0], now) && InTurn(tr.starts, now, end)
    ensures JobMarks(tr.logs[|platforms|], u, platforms, tr.oks)
    ensures Distinct(platforms) && AllSpaced(cs, tr.logs[0]) &&
            (forall p :: p in platforms ==> Rested(cs, tr.logs[0], u, p, now)) ==>
              AllSpaced(cs, tr.logs[|platforms|])
  {
    TracedIs(u, platforms, effect, tr, |platforms|);
    JobLogMarks(tr.logs[0], u, platforms, tr.starts, tr.oks);
    if Distinct(platforms) && AllSpaced(cs, tr.logs[0]) && forall p :: p in platforms ==> Rested(cs, tr.logs[0], u, p, now) {
      JobKeepsSpacing(cs, tr.logs[0], now, u, platforms, tr.starts, end, tr.oks, |platforms|);
    }
  }

  /** The log shows how the platforms ended; none is left running. */
  ghost predicate JobMarks(h: seq<Event>, u: int, platforms: seq<string>, oks: seq<bool>) {
    && (forall p :: p in platforms ==> LastMark(h, u, p) in {Some(Success), Some(Failed)})
    && (Distinct(platforms) ==> (false !in oks <==> forall p :: p in platforms ==> LastMark(h, u, p) == Some(Success)))
  }

  lemma JobLogMarks(h: seq<Event>, u: int, platforms: seq<string>, starts: seq<Instant>, oks: seq<bool>)
    requires |platforms| == |starts| == |oks|
    ensures JobMarks(JobLog(h, u, platforms, starts, oks, |platforms|), u, platforms, oks)
  {
    forall m: nat | m < |platforms| {
      JobLogMark(h, u, platforms, starts, oks, |platforms|, m);
    }
    assert forall m :: 0 <= m < |oks| ==> platforms[m] in platforms && oks[m] in oks;
  }

  /** The fetch gets as far as the transaction. */
  predicate EntersTransaction(t: Table, user: int, platform: string, full: bool, a: Attempt) {
    && a.fetch.Ok?
    && var rows := Normalized(user, platform, a.fetch.value);
       && (a.fetch.value == [] || rows != [])
       && (full ==> CountRows !in a.faults && !RejectsIncomplete(|rows|, |Owned(t, user, platform)|, full))
  }

  class SpiderUseCase {
    const cs: Casing
    var table: Table
    var statuses: Statuses
    var jobs: map<int, J.JobRow>
    var clock: Instant
    ghost var history: seq<Event>

    ghost predicate Valid()
      reads this
    {
      Keyed(table) && Consistent(statuses, history) && Timely(history, clock)
    }

    constructor (cs: Casing, clock: Instant)
      ensures Valid() && AllSpaced(cs, history)
      ensures this.cs == cs && table == map[] && statuses == map[] && jobs == map[] && this.clock == clock && history == []
    {
      this.cs, this.clock := cs, clock;
      table, statuses, jobs, history := map[], map[], map[], [];
    }

    // Job rows. A missing row, or an id that is not positive, is ignored.

    method StartJob(jobId: int, total: nat)
      modifies this`jobs
      ensures jobs == if jobId > 0 && jobId in old(jobs) then old(jobs)[jobId := J.JobStarted(old(jobs)[jobId], total)] else old(jobs)
    {
      if jobId > 0 && jobId in jobs {
        jobs := jobs[jobId := J.JobStarted(jobs[jobId], total)];
      }
    }

    method SetCurrentPlatform(jobId: int, platform: string)
      modifies this`jobs
      ensures jobs == if jobId > 0 && jobId in old(jobs) then old(jobs)[jobId := J.PlatformEntered(old(jobs)[jobId], platform)] else old(jobs)
    {
      if jobId > 0 && jobId in jobs {
        jobs := jobs[jobId := J.PlatformEntered(jobs[jobId], platform)];
      }
    }

    method FinishPlatform(jobId: int, platform: string)
      modifies this`jobs
      ensures jobs == if jobId > 0 && jobId in old(jobs) then old(jobs)[jobId := J.PlatformLeft(old(jobs)[jobId], platform)] else old(jobs)
    {
      if jobId > 0 && jobId in jobs {
        jobs := jobs[jobId := J.PlatformLeft(jobs[jobId], platform)];
      }
    }

    method FinishJob(jobId: int, ok: bool)
      modifies this`jobs
      ensures jobs == if jobId > 0 && jobId in old(jobs) then old(jobs)[jobId := J.JobFinished(old(jobs)[jobId], ok)] else old(jobs)
    {
      if jobId > 0 && jobId in jobs {
        jobs := jobs[jobId := J.JobFinished(jobs[jobId], ok)];
      }
    }

    /** markPlatformRunning, markPlatformSuccess and markPlatformFailed; and the removal of the status when
        another account is bound. */
    method Mark(e: Event)
      requires Valid() && (e.Started? ==> e.at == clock)
      modifies this`statuses, this`history
      ensures Valid() && history == old(history) + [e] && statuses == Recorded(old(statuses), e)
    {
      RecordingIsConsistent(statuses, history, e);
      statuses := Recorded(statuses, e);
      history := history + [e];
    }

    /** Time passes between runs. */
    method Wait(d: nat)
      requires Valid()
      modifies this`clock
      ensures Valid() && clock == old(clock) + d
    {
      clock := clock + d;
    }

    predicate ShouldSkipRecent(user: int, platform: string)
      reads this
    {
      IsCodeforces(cs, platform) && (user, platform) in statuses &&
      statuses[(user, platform)].lastStartedAt.Some? && clock - statuses[(user, platform)].lastStartedAt.value < COOLDOWN
    }

    method FetchAndSave(user: int, platform: string, full: bool, a: Attempt)
      returns (count: nat, skipped: nat, err: Option<SaveError>)
      requires Keyed(table)
      modifies this`table
      ensures Keyed(table) && table == TableAfter(old(table), user, platform, full, a)
      ensures match Outcome(old(table), user, platform, full, a)
              case Err(e) => err == Some(e)
              case Ok(rows) => err == None && count == |rows|
      // Counts come with errors too.
      ensures a.fetch.Err? ==> skipped == 0
      ensures a.fetch.Ok? ==> |Normalized(user, platform, a.fetch.value)| + skipped == |a.fetch.value|
      ensures count == if EntersTransaction(old(table), user, platform, full, a)
                       then |Normalized(user, platform, a.fetch.value)| else 0
    {
      AttemptIsLocal(table, user, platform, full, a);
      count, skipped, err := 0, 0, None;
      if a.fetch.Err? {
        return 0, 0, Some(FetchFailed(a.fetch.error));
      }
      var normalized;
      normalized, skipped := NormalizeFetchedSubmitLogs(user, platform, a.fetch.value);
      if normalized.Err? {
        return 0, skipped, Some(NothingUsable(normalized.error));
      }
      var rows := normalized.value;
      if full {
        if CountRows in a.faults {
          return 0, skipped, Some(Database(a.faults[CountRows]));
        }
        if RejectsIncomplete(|rows|, |Owned(table, user, platform)|, full) {
          return 0, skipped, Some(Incomplete);
        }
      }
      count := |rows|;
      // The transaction works on a copy; only a commit replaces the table.
      var tx := table;
      if full {
        if DeleteRows in a.faults {
          return count, skipped, Some(Database(a.faults[DeleteRows]));
        }
        tx := Without(tx, user, platform);
      }
      NormalizedIsInsertable(user, platform, a.fetch.value);
      var inserted := InsertInBatches(tx, rows, a.faults);
      if inserted.Err? {
        return count, skipped, Some(Database(inserted.error));
      }
      if Commit in a.faults {
        return count, skipped, Some(Database(a.faults[Commit]));
      }
      table := inserted.value;
    }

    /** `r` reports what the attempt did, and the table is what it leaves. */
    ghost predicate Done(t: Table, user: int, platform: string, full: bool, a: Attempt, r: Result<(nat, nat), SaveError>, t': Table) {
      Reports(t, user, platform, full, a, r) && t' == TableAfter(t, user, platform, full, a)
    }

    lemma DoneMeans(t: Table, user: int, platform: string, full: bool, script: nat -> Attempt, r: Result<(nat, nat), SaveError>, t': Table)
      requires Done(t, user, platform, full, LastAttempt(t, user, platform, full, script), r, t')
      ensures Reports(t, user, platform, full, LastAttempt(t, user, platform, full, script), r)
      ensures r.Ok? <==> PlatformOk(t, user, platform, full, script)
      ensures t' == PlatformTable(t, user, platform, full, script)
    {
    }

    ghost predicate Reports(t: Table, user: int, platform: string, full: bool, a: Attempt, r: Result<(nat, nat), SaveError>) {
      match Outcome(t, user, platform, full, a)
      case Ok(rows) => r.Ok? && r.value.0 == |rows| && r.value.0 + r.value.1 == |a.fetch.value|
      case Err(e) => r == Err(e)
    }

    /** One turn of the retry loop; `again` asks for another. */
    method TryOnce(user: int, platform: string, full: bool, a: Attempt)
      returns (r: Result<(nat, nat), SaveError>, again: bool)
      requires Keyed(table)
      modifies this`table, this`clock
      ensures Keyed(table) && clock >= old(clock) && Done(old(table), user, platform, full, a, r, table)
      ensures again <==> Retried(old(table), user, platform, full, a)
      ensures again ==> table == old(table)
    {
      var count, skipped, err := FetchAndSave(user, platform, full, a);
      clock := clock + a.took;
      if err.None? {
        return Ok((count, skipped)), false;
      }
      if Final(err.value) || !full {
        return Err(err.value), false;
      }
      clock := clock + PAUSE;
      return Err(err.value), true;
    }

    /** The retry loop of loadOnePlatform; `made` counts the attempts. */
    method FetchWithRetries(user: int, platform: string, full: bool, script: nat -> Attempt)
      returns (r: Result<(nat, nat), SaveError>, made: nat)
      requires Keyed(table)
      modifies this`table, this`clock
      ensures Keyed(table) && clock >= old(clock)
      ensures made == Decisive(MaxRetries(platform), RetriedAt(old(table), user, platform, full, script), 0) + 1
      ensures Done(old(table), user, platform, full, LastAttempt(old(table), user, platform, full, script), r, table)
    {
      ghost var t, retried := table, RetriedAt(table, user, platform, full, script);
      var again;
      r, again := TryOnce(user, platform, full, script(0));
      made := 1;
      ghost var last := script(0);
      while again && made < MaxRetries(platform)
        invariant 1 <= made <= MaxRetries(platform) && Keyed(table) && clock >= old(clock)
        invariant forall m: nat :: m < made - 1 ==> retried(m)
        invariant again <==> retried(made - 1)
        invariant again ==> table == t
        invariant last == script(made - 1) && Done(t, user, platform, full, last, r, table)
        decreases MaxRetries(platform) - made
      {
        r, again := TryOnce(user, platform, full, script(made));
        last := script(made);
        made := made + 1;
      }
      DecisiveIsFirst(MaxRetries(platform), retried, 0, made - 1);
    }

    method LoadOnePlatform(user: int, platform: string, full: bool, script: nat -> Attempt)
      returns (r: Result<(nat, nat), SaveError>, made: nat)
      requires Valid()
      modifies this`table, this`statuses, this`history, this`clock
      ensures Valid() && clock >= old(clock) && history == old(history) + [Started(user, platform, old(clock))]
      ensures made == Decisive(MaxRetries(platform), RetriedAt(old(table), user, platform, full, script), 0) + 1
      ensures Reports(old(table), user, platform, full, LastAttempt(old(table), user, platform, full, script), r)
      ensures r.Ok? <==> PlatformOk(old(table), user, platform, full, script)
      ensures table == PlatformTable(old(table), user, platform, full, script)
    {
      Mark(Started(user, platform, clock));
      r, made := FetchWithRetries(user, platform, full, script);
      DoneMeans(old(table), user, platform, full, script, r, table);
    }

    /** The platforms that are not on cooldown, as they are listed. */
    function Due(user: int, platforms: seq<string>): seq<string>
      reads this
    {
      if platforms == [] then []
      else
        var last := platforms[|platforms| - 1];
        Due(user, platforms[..|platforms| - 1]) + (if ShouldSkipRecent(user, last) then [] else [last])
    }

    method FilterRecent(user: int, platforms: seq<string>) returns (filtered: seq<string>)
      ensures filtered == Due(user, platforms)
      ensures forall p :: p in filtered <==> p in platforms && !ShouldSkipRecent(user, p)
      ensures Distinct(platforms) ==> Distinct(filtered)
    {
      filtered := [];
      for i := 0 to |platforms|
        invariant filtered == Due(user, platforms[..i])
        invariant forall p :: p in filtered <==> p in platforms[..i] && !ShouldSkipRecent(user, p)
        invariant Distinct(platforms) ==> Distinct(filtered)
      {
        assert platforms[..i + 1][..i] == platforms[..i];
        assert platforms[..i + 1] == platforms[..i] + [platforms[i]];
        if ShouldSkipRecent(user, platforms[i]) {
          continue;
        }
        filtered := filtered + [platforms[i]];
      }
      assert platforms[..|platforms|] == platforms;
    }

    /** One turn of the platform loop. */
    method ProcessOne(jobId: int, user: int, full: bool, platform: string, script: nat -> Attempt) returns (ok: bool)
      requires Valid()
      modifies this`table, this`statuses, this`history, this`clock, this`jobs
      ensures ok <==> PlatformOk(old(table), user, platform, full, script)
      ensures table == PlatformTable(old(table), user, platform, full, script)
      ensures Valid() && clock >= old(clock) && history == Refreshed(old(history), user, platform, old(clock), ok)
      ensures jobs == if jobId > 0 && jobId in old(jobs)
                      then old(jobs)[jobId := J.PlatformLeft(old(jobs)[jobId], platform)] else old(jobs)
    {
      SetCurrentPlatform(jobId, platform);
      var r, made := LoadOnePlatform(user, platform, full, script);
      FinishPlatform(jobId, platform);
      ok := r.Ok?;
      Mark(if ok then Succeeded(user, platform) else Broke(user, platform));
    }

    lemma NotSkippedIsRested(user: int, p: string)
      requires Valid()
      ensures ShouldSkipRecent(user, p) <==> !Rested(cs, history, user, p, clock)
    {
    }

    /** The row of the job, if there is one, counts `n` more finished platforms, and no other row changed. */
    ghost predicate Advanced(was: map<int, J.JobRow>, now: map<int, J.JobRow>, jobId: int, n: nat) {
      && now.Keys == was.Keys
      && (forall id :: id in was && (id != jobId || jobId <= 0) ==> now[id] == was[id])
      && (jobId > 0 && jobId in was ==>
           now[jobId].totalPlatforms == was[jobId].totalPlatforms &&
           now[jobId].finishedPlatforms == was[jobId].finishedPlatforms + n)
    }

    /** The job's row shows how it ended, and no other row changed. */
    ghost predicate Ended(was: map<int, J.JobRow>, now: map<int, J.JobRow>, jobId: int, ok: bool) {
      && now.Keys == was.Keys
      && (forall id :: id in was && (id != jobId || jobId <= 0) ==> now[id] == was[id])
      && (jobId > 0 && jobId in was ==> now[jobId].status == if ok then J.Success else J.Failed)
    }

    /** The platform loop, with a trace of what it did. */
    method ProcessAll(jobId: int, user: int, full: bool, platforms: seq<string>, scripts: nat -> nat -> Attempt)
      returns (ok: bool, ghost tr: Trace)
      requires Valid()
      modifies this`table, this`statuses, this`history, this`clock, this`jobs
      ensures Valid() && clock >= old(clock) && InTurn(tr.starts, old(clock), clock)
      ensures Traced(user, platforms, JobEffect(user, full, platforms, scripts), tr) && |tr.oks| == |platforms|
      ensures tr.tables[0] == old(table) && tr.tables[|platforms|] == table
      ensures tr.logs[0] == old(history) && tr.logs[|platforms|] == history
      ensures ok <==> false !in tr.oks
      ensures Advanced(old(jobs), jobs, jobId, |platforms|)
    {
      ghost var effect := JobEffect(user, full, platforms, scripts);
      ok, tr := true, Trace([table], [history], [], []);
      for n := 0 to |platforms|
        invariant Valid() && clock >= old(clock) && InTurn(tr.starts, old(clock), clock)
        invariant Traced(user, platforms, effect, tr) && |tr.oks| == n
        invariant tr.tables[0] == old(table) && tr.tables[n] == table
        invariant tr.logs[0] == old(history) && tr.logs[n] == history
        invariant ok <==> false !in tr.oks
        invariant Advanced(old(jobs), jobs, jobId, n)
      {
        ghost var at := clock;
        var fine := ProcessOne(jobId, user, full, platforms[n], scripts(n));
        TracedNext(user, platforms, effect, tr, table, history, fine, at);
        tr := Extended(tr, table, history, fine, at);
        ok := ok && fine;
      }
    }

    /** The rest of LoadData, once the platforms are known. */
    method RunPlatforms(jobId: int, user: int, full: bool, platforms: seq<string>, scripts: nat -> nat -> Attempt)
      returns (ok: bool)
      requires Valid()
      modifies this`table, this`statuses, this`history, this`clock, this`jobs
      ensures Valid() && clock >= old(clock)
      ensures table == TableAt(JobEffect(user, full, platforms, scripts), old(table), |platforms|)
      ensures ok <==> AllOk(JobEffect(user, full, platforms, scripts), old(table), |platforms|)
      ensures Distinct(platforms) ==> (ok <==> forall p :: p in platforms ==> LastMark(history, user, p) == Some(Success))
      ensures forall p :: p in platforms ==> LastMark(history, user, p) in {Some(Success), Some(Failed)}
      ensures Distinct(platforms) && AllSpaced(cs, old(history)) &&
              (forall p :: p in platforms ==> !old(ShouldSkipRecent(user, p))) ==>
                AllSpaced(cs, history)
      ensures Ended(old(jobs), jobs, jobId, ok)
      ensures jobId > 0 && jobId in jobs ==> jobs[jobId].finishedPlatforms == jobs[jobId].totalPlatforms == |platforms|
    {
      StartJob(jobId, |platforms|);
      if |platforms| == 0 {
        FinishJob(jobId, true);
        return true;
      }
      ghost var now := clock;
      forall p | p in platforms {
        NotSkippedIsRested(user, p);
      }
      ghost var tr;
      ok, tr := ProcessAll(jobId, user, full, platforms, scripts);
      ghost var effect := JobEffect(user, full, platforms, scripts);
      JobTables(user, platforms, effect, tr);
      JobEvents(cs, now, clock, user, platforms, effect, tr);
      FinishJob(jobId, ok);
    }

    /** The platforms a job goes through, given the answer of the binding query. */
    function ToProcess(user: int, target: string, bound: Result<seq<string>, string>): seq<string>
      reads this
    {
      if bound.Err? || bound.value == [] then []
      else if target == "" then Due(user, bound.value)
      else if ShouldSkipRecent(user, bound.value[0]) then []
      else bound.value
    }

    /** LoadData. `bound` is the answer of the binding query, `scripts(n)` those to platform n's attempts;
        `processed` reports the platforms that were not skipped. */
    method LoadData(jobId: int, user: int, full: bool, target: string, bound: Result<seq<string>, string>,
                    scripts: nat -> nat -> Attempt)
      returns (ok: bool, processed: seq<string>)
      requires Valid()
      requires bound.Ok? && target != "" ==> forall p :: p in bound.value ==> p == target
      modifies this`table, this`statuses, this`history, this`clock, this`jobs
      ensures Valid() && clock >= old(clock)
      ensures processed == old(ToProcess(user, target, bound))
      ensures forall p :: p in processed <==> bound.Ok? && p in bound.value && !old(ShouldSkipRecent(user, p))
      ensures table == TableAt(JobEffect(user, full, processed, scripts), old(table), |processed|)
      // It succeeds exactly when something is bound and every platform's last attempt is committed.
      ensures ok <==> bound.Ok? && bound.value != [] &&
                      AllOk(JobEffect(user, full, processed, scripts), old(table), |processed|)
      ensures bound.Ok? && Distinct(bound.value) && bound.value != [] ==>
                (ok <==> forall p :: p in processed ==> LastMark(history, user, p) == Some(Success))
      // The job ends as the result says, and has finished every platform it announced.
      ensures Ended(old(jobs), jobs, jobId, ok)
      ensures jobId > 0 && jobId in jobs && bound.Ok? && bound.value != [] ==>
                jobs[jobId].finishedPlatforms == jobs[jobId].totalPlatforms == |processed|
      // No processed platform is left running.
      ensures forall p :: p in processed ==> LastMark(history, user, p) in {Some(Success), Some(Failed)}
      // Refreshes of CodeForces keep their distance.
      ensures bound.Ok? && Distinct(bound.value) && AllSpaced(cs, old(history)) ==> AllSpaced(cs, history)
    {
      processed := [];
      if bound.Err? || bound.value == [] {
        FinishJob(jobId, false);
        return false, [];
      }
      var platforms := bound.value;
      assert target != "" && Distinct(platforms) ==> platforms == [platforms[0]] by {
        if target != "" && |platforms| > 1 {
          assert platforms[0] in platforms && platforms[1] in platforms;
        }
      }
      if target == "" {
        platforms := FilterRecent(user, platforms);
      } else if ShouldSkipRecent(user, platforms[0]) {
        assert platforms[0] in platforms && forall p :: p in platforms ==> p == platforms[0];
        StartJob(jobId, 0);
        FinishJob(jobId, true);
        return true, [];
      }
      ok := RunPlatforms(jobId, user, full, platforms, scripts);
      return ok, platforms;
    }
  }
}
