/** Refresh jobs: the rows of spider_refresh_jobs, the updates the worker makes to them, and the
    admission test of SpiderTask.Do. A job's id is its position in the table. */
module RefreshJobs {
  import opened Model

  datatype Status = Queued | Running | Success | Failed

  datatype JobRow = JobRow(
    user: int, status: Status, currentPlatform: string, totalPlatforms: int, finishedPlatforms: int)

  predicate Active(r: JobRow) {
    r.status == Queued || r.status == Running
  }

  /** ActiveRefreshConflictCondition. */
  predicate Conflicts(platform: string, r: JobRow) {
    (platform != "" && r.currentPlatform == platform) || r.currentPlatform == "" || r.totalPlatforms != 1
  }

  function NewRow(user: int, platform: string): JobRow {
    JobRow(user, Queued, platform, if platform == "" then 0 else 1, 0)
  }

  // The worker's row updates.

  function JobStarted(r: JobRow, total: int): JobRow {
    r.(status := Running, totalPlatforms := total, finishedPlatforms := 0)
  }

  function PlatformEntered(r: JobRow, platform: string): JobRow {
    r.(currentPlatform := platform)
  }

  function PlatformLeft(r: JobRow, platform: string): JobRow {
    r.(currentPlatform := platform, finishedPlatforms := r.finishedPlatforms + 1)
  }

  function JobFinished(r: JobRow, ok: bool): JobRow {
    r.(status := if ok then Success else Failed)
  }

  // ---------------------------------------------------------------- admission

  predicate Blocks(user: int, platform: string, r: JobRow) {
    r.user == user && Active(r) && Conflicts(platform, r)
  }

  /** The rows after stale ones (`stale`: not updated within the time limit) were failed. */
  function Expired(rows: seq<JobRow>, user: int, platform: string, stale: set<nat>): (r: seq<JobRow>)
    ensures |r| == |rows|
  {
    seq(|rows|, i requires 0 <= i < |rows| =>
      if i in stale && Blocks(user, platform, rows[i]) then rows[i].(status := Failed) else rows[i])
  }

  predicate Admits(rows: seq<JobRow>, user: int, platform: string) {
    forall i :: 0 <= i < |rows| ==> !Blocks(user, platform, rows[i])
  }

  lemma AdmittedExactly(rows: seq<JobRow>, user: int, platform: string, stale: set<nat>)
    ensures Admits(Expired(rows, user, platform, stale), user, platform) <==>
            forall i :: 0 <= i < |rows| && rows[i].user == user && rows[i].status in {Queued, Running} && i !in stale ==>
              rows[i].totalPlatforms == 1 && rows[i].currentPlatform != "" && rows[i].currentPlatform != platform
  {
    var kept := Expired(rows, user, platform, stale);
    assert forall i :: 0 <= i < |rows| ==> (Blocks(user, platform, kept[i]) <==> Blocks(user, platform, rows[i]) && i !in stale);
  }

  /** How far a request gets: the statements of Do that can fail, in their order. */
  datatype Fate = ExpireFails | QueryFails | InsertFails | PublishFails | Published

  /** The rows after Do. */
  function AfterDo(rows: seq<JobRow>, user: int, platform: string, stale: set<nat>, fate: Fate): seq<JobRow> {
    var kept := Expired(rows, user, platform, stale);
    if fate == ExpireFails then rows
    else if fate == QueryFails || fate == InsertFails || !Admits(kept, user, platform) then kept
    else kept + [if fate == Published then NewRow(user, platform) else NewRow(user, platform).(status := Failed)]
  }

  datatype DoError = ActiveRefreshJob(id: nat) | PublishFailed(id: nat) | DatabaseFailed

  class SpiderTask {
    var rows: seq<JobRow>

    method Do(user: int, platform: string, stale: set<nat>, fate: Fate) returns (r: Result<nat, DoError>)
      modifies this
      ensures rows == AfterDo(old(rows), user, platform, stale, fate)
      ensures |rows| > |old(rows)| <==> r.Ok? || r.error.PublishFailed?
      ensures r.Ok? ==> r.value == |old(rows)| && rows[r.value] == NewRow(user, platform)
      ensures r.Err? && r.error.ActiveRefreshJob? ==> r.error.id < |rows| && Blocks(user, platform, rows[r.error.id])
      ensures r.Err? && r.error.PublishFailed? ==> r.error.id == |old(rows)| && !Active(rows[r.error.id])
      ensures r == Err(DatabaseFailed) <==>
              fate == ExpireFails || fate == QueryFails || (fate == InsertFails && Admits(rows, user, platform))
      // Existing rows change only by expiry: stale, unfinished rows of the user that conflict end failed.
      ensures forall i :: 0 <= i < |old(rows)| ==>
                var row := old(rows)[i];
                rows[i] == if fate != ExpireFails && i in stale && row.user == user && row.status in {Queued, Running} &&
                              (row.currentPlatform in {"", platform} || row.totalPlatforms != 1)
                           then row.(status := Failed) else row
      // The job is let in exactly if every unfinished row of the user that is not stale has one platform, named
      // in the row, which is not the requested one.
      ensures r.Ok? <==> (fate == Published &&
                          forall i :: 0 <= i < |old(rows)| ==>
                            var row := old(rows)[i];
                            row.user == user && row.status in {Queued, Running} && i !in stale ==>
                              row.totalPlatforms == 1 && row.currentPlatform != "" && row.currentPlatform != platform)
    {
      if fate == ExpireFails {
        return Err(DatabaseFailed);
      }
      AdmittedExactly(rows, user, platform, stale);
      rows := Expired(rows, user, platform, stale);
      if fate == QueryFails {
        return Err(DatabaseFailed);
      }
      if i :| 0 <= i < |rows| && Blocks(user, platform, rows[i]) {
        return Err(ActiveRefreshJob(i));
      }
      if fate == InsertFails {
        return Err(DatabaseFailed);
      }
      var id := |rows|;
      rows := rows + [NewRow(user, platform)];
      if fate == PublishFails {
        rows := rows[id := rows[id].(status := Failed)];
        return Err(PublishFailed(id));
      }
      return Ok(id);
    }
  }
}

/** The refresh protocol: requests and workers take atomic database steps in any order. */
module RefreshProtocol {
  import opened RefreshJobs

  /** Where the worker of a job is. Aiming(i) and Fetching(i) refer to the i-th planned platform. */
  datatype Phase = InQueue | Loaded | Aiming(i: nat) | Fetching(i: nat) | Wrapping | Done

  /** `target` is the platform in the message ("" for all); `plan` the platforms the worker read. */
  datatype Worker = Worker(target: string, plan: seq<string>, phase: Phase)

  datatype World = World(rows: seq<JobRow>, workers: seq<Worker>)

  datatype Action =
    | Load(plan: seq<string>)     // read the bound platforms, minus those on cooldown
    | LoadFailed                  // no platform bound, or the query failed
    | Start
    | Enter
    | Leave
    | Finish(ok: bool)

  datatype Step =
    | Request(user: int, platform: string, stale: set<nat>, fate: Fate)
    | Work(id: nat, action: Action)

  predicate Enabled(k: Worker, a: Action) {
    match a
    case Load(plan) => k.phase == InQueue && (k.target != "" ==> forall p :: p in plan ==> p == k.target)
    case LoadFailed => k.phase == InQueue
    case Start => k.phase == Loaded
    case Enter => k.phase.Aiming? && k.phase.i < |k.plan|
    case Leave => k.phase.Fetching? && k.phase.i < |k.plan|
    case Finish(ok) => k.phase == Wrapping || k.phase == Aiming(|k.plan|)
  }

  function WorkerAfter(k: Worker, a: Action): Worker
    requires Enabled(k, a)
  {
    match a
    case Load(plan) => k.(plan := plan, phase := Loaded)
    case LoadFailed => k.(phase := Wrapping)
    case Start => k.(phase := Aiming(0))
    case Enter => k.(phase := Fetching(k.phase.i))
    case Leave => k.(phase := Aiming(k.phase.i + 1))
    case Finish(ok) => k.(phase := Done)
  }

  function RowAfter(r: JobRow, k: Worker, a: Action): JobRow
    requires Enabled(k, a)
  {
    match a
    case Load(plan) => r
    case LoadFailed => r
    case Start => JobStarted(r, |k.plan|)
    case Enter => PlatformEntered(r, k.plan[k.phase.i])
    case Leave => PlatformLeft(r, k.plan[k.phase.i])
    case Finish(ok) => JobFinished(r, ok)
  }

  ghost predicate Next(w: World, step: Step, w': World) {
    |w.rows| == |w.workers| &&
    match step
    case Request(user, platform, stale, fate) =>
      && w'.rows == AfterDo(w.rows, user, platform, stale, fate)
      && w'.workers == (if |w'.rows| == |w.rows| then w.workers
                        else w.workers + [Worker(platform, [], if fate == Published then InQueue else Done)])
    case Work(id, a) =>
      && id < |w.rows| && Enabled(w.workers[id], a)
      && w'.rows == w.rows[id := RowAfter(w.rows[id], w.workers[id], a)]
      && w'.workers == w.workers[id := WorkerAfter(w.workers[id], a)]
  }

  /** Worker `k` may still fetch platform `p`. */
  ghost predicate MayFetch(k: Worker, p: string) {
    match k.phase
    case InQueue => k.target == "" || k.target == p
    case Loaded => p in k.plan
    case Aiming(i) => i <= |k.plan| && p in k.plan[i..]
    case Fetching(i) => i <= |k.plan| && p in k.plan[i..]
    case Wrapping => false
    case Done => false
  }

  /** The row of a job tells where its worker is. */
  ghost predicate Tied(r: JobRow, k: Worker) {
    && (k.phase == Done ==> !Active(r))
    && (k.target != "" ==> (forall p :: p in k.plan ==> p == k.target) && r.currentPlatform == k.target)
    && match k.phase
       case InQueue => r.currentPlatform == k.target && r.totalPlatforms == if k.target == "" then 0 else 1
       case Loaded => r.currentPlatform == k.target && r.totalPlatforms == if k.target == "" then 0 else 1
       case Aiming(i) =>
         && i <= |k.plan| == r.totalPlatforms && r.finishedPlatforms == i
         && r.currentPlatform == if i == 0 then k.target else k.plan[i - 1]
       case Fetching(i) =>
         i < |k.plan| == r.totalPlatforms && r.finishedPlatforms == i && r.currentPlatform == k.plan[i]
       case Wrapping => r.currentPlatform == k.target && r.totalPlatforms == if k.target == "" then 0 else 1
       case Done => true
  }

  ghost predicate AllTied(w: World) {
    |w.rows| == |w.workers| && forall i :: 0 <= i < |w.rows| ==> Tied(w.rows[i], w.workers[i])
  }

  /** Whatever a worker may still fetch, its row conflicts with a request for it, so that the row keeps
      the request out as long as it is active. */
  lemma RowCoversFetches(r: JobRow, k: Worker, p: string)
    requires Tied(r, k) && MayFetch(k, p) && p != ""
    ensures Conflicts(p, r)
  {
  }

  lemma WorkKeepsTied(r: JobRow, k: Worker, a: Action)
    requires Tied(r, k) && Enabled(k, a)
    ensures Tied(RowAfter(r, k, a), WorkerAfter(k, a))
  {
    if a.Enter? || a.Leave? {
      assert k.plan[k.phase.i] in k.plan;
    }
  }

  lemma StepKeepsTied(w: World, step: Step, w': World)
    requires AllTied(w) && Next(w, step, w')
    ensures AllTied(w')
  {
    if step.Work? {
      WorkKeepsTied(w.rows[step.id], w.workers[step.id], step.action);
    }
  }

  /** Only one platform is left for this worker. */
  ghost predicate Narrow(k: Worker, p: string) {
    forall q :: MayFetch(k, q) ==> q == p
  }

  /** This step marks the job as failed because it is stale. */
  ghost predicate Expires(w: World, step: Step, i: nat) {
    && step.Request? && step.fate != ExpireFails
    && i < |w.rows| && i in step.stale && Blocks(step.user, step.platform, w.rows[i])
  }

  /** Jobs that are already there keep their user and target, and can only lose platforms; an active one
      stays so until its worker is done, unless it expires. */
  lemma OldJobs(w: World, step: Step, w': World, i: nat)
    requires Next(w, step, w') && i < |w.rows|
    ensures i < |w'.rows| == |w'.workers| && w'.rows[i].user == w.rows[i].user
    ensures w'.workers[i].target == w.workers[i].target
    ensures forall p :: MayFetch(w'.workers[i], p) ==> MayFetch(w.workers[i], p)
    ensures w'.workers[i].phase != Done ==> w.workers[i].phase != Done
    ensures w'.workers[i].phase != Done && Active(w.rows[i]) && !Expires(w, step, i) ==> Active(w'.rows[i])
  {
  }

  /** A job that was not there was admitted: nobody blocked it but those it marked as failed. */
  lemma NewJob(w: World, step: Step, w': World, j: nat)
    requires Next(w, step, w') && |w.rows| <= j < |w'.rows|
    ensures step.Request? && j == |w.rows| && |w'.workers| == |w'.rows|
    ensures forall i :: 0 <= i < |w.rows| && Blocks(step.user, step.platform, w.rows[i]) ==> Expires(w, step, i)
    ensures w'.rows[j].user == step.user && w'.workers[j].target == step.platform && w'.workers[j].plan == []
    ensures (w'.workers[j].phase == InQueue && Active(w'.rows[j])) || w'.workers[j].phase == Done
  {
    if step.Request? {
      var kept := Expired(w.rows, step.user, step.platform, step.stale);
      assert forall i :: 0 <= i < |w.rows| && Blocks(step.user, step.platform, w.rows[i]) ==>
        kept[i] == w.rows[i] || Expires(w, step, i);
    }
  }

  /** What admission guarantees, at the moment of a request, about every job already there whose row is
      active and not expired by the request. */
  lemma AdmissionIsExclusive(w: World, step: Step, w': World, i: nat, p: string)
    requires AllTied(w) && Next(w, step, w') && step.Request? && |w'.rows| > |w.rows|
    requires i < |w.rows| && w.rows[i].user == step.user && Active(w.rows[i]) && !Expires(w, step, i)
    requires p != "" && MayFetch(w.workers[i], p)
    ensures step.platform != p
    ensures step.platform == "" ==> Narrow(w.workers[i], p)
  {
    NewJob(w, step, w', |w.rows|);
    RowCoversFetches(w.rows[i], w.workers[i], p);
  }

  // ---------------------------------------------------------------- whole runs

  /** A finite run from the empty table, in any interleaving. */
  ghost predicate Run(worlds: seq<World>, steps: seq<Step>) {
    && |worlds| == |steps| + 1
    && worlds[0] == World([], [])
    && forall n :: 0 <= n < |steps| ==> Next(worlds[n], steps[n], worlds[n + 1])
  }

  lemma {:induction false} RunInvariant(worlds: seq<World>, steps: seq<Step>, n: nat)
    requires Run(worlds, steps) && n <= |steps|
    ensures AllTied(worlds[n])
  {
    if n > 0 {
      RunInvariant(worlds, steps, n - 1);
      StepKeepsTied(worlds[n - 1], steps[n - 1], worlds[n]);
    }
  }

  /** One of the first n steps marked job i as failed although its worker was not done. */
  ghost predicate HasExpired(worlds: seq<World>, steps: seq<Step>, n: nat, i: nat)
    requires n <= |steps| < |worlds|
  {
    exists m :: 0 <= m < n && Expires(worlds[m], steps[m], i)
  }

  /** The row of a job is active until its worker is done, or the job has expired. */
  lemma {:induction false} UnfinishedIsActiveOrExpired(worlds: seq<World>, steps: seq<Step>, n: nat, i: nat)
    requires Run(worlds, steps) && n <= |steps|
    requires i < |worlds[n].rows| == |worlds[n].workers| && worlds[n].workers[i].phase != Done
    ensures Active(worlds[n].rows[i]) || HasExpired(worlds, steps, n, i)
  {
    if n > 0 {
      var w, step, w' := worlds[n - 1], steps[n - 1], worlds[n];
      assert Next(w, step, w');
      if i < |w.rows| {
        OldJobs(w, step, w', i);
        UnfinishedIsActiveOrExpired(worlds, steps, n - 1, i);
      } else {
        NewJob(w, step, w', i);
      }
    }
  }

  /** A request is admitted over a job already there: that job cannot fetch the platform any more, or
      is narrowed down before a full refresh, unless it has expired, now or earlier. */
  lemma AdmittedOver(worlds: seq<World>, steps: seq<Step>, n: nat, i: nat, p: string)
    requires Run(worlds, steps) && n < |steps| && steps[n].Request? && |worlds[n + 1].rows| > |worlds[n].rows|
    requires i < |worlds[n].rows| == |worlds[n].workers| && worlds[n].rows[i].user == steps[n].user
    requires p != "" && MayFetch(worlds[n].workers[i], p) && !HasExpired(worlds, steps, n + 1, i)
    ensures steps[n].platform != p
    ensures steps[n].platform == "" ==> Narrow(worlds[n].workers[i], p)
  {
    RunInvariant(worlds, steps, n);
    UnfinishedIsActiveOrExpired(worlds, steps, n, i);
    assert Next(worlds[n], steps[n], worlds[n + 1]);
    AdmissionIsExclusive(worlds[n], steps[n], worlds[n + 1], i, p);
  }

  /** Over every run: if two jobs of one user may fetch the same platform, then the later one is a full
      refresh and the earlier one has nothing else left, or the earlier one has expired. */
  lemma {:induction false} OverlapsExplained(worlds: seq<World>, steps: seq<Step>, n: nat, i: nat, j: nat, p: string)
    requires Run(worlds, steps) && n <= |steps| && |worlds[n].rows| == |worlds[n].workers|
    requires i < j < |worlds[n].rows| && worlds[n].rows[i].user == worlds[n].rows[j].user && p != ""
    requires MayFetch(worlds[n].workers[i], p) && MayFetch(worlds[n].workers[j], p)
    ensures (worlds[n].workers[j].target == "" && Narrow(worlds[n].workers[i], p)) || HasExpired(worlds, steps, n, i)
  {
    if n > 0 {
      var w, step, w' := worlds[n - 1], steps[n - 1], worlds[n];
      assert Next(w, step, w');
      if j < |w.rows| {
        OldJobs(w, step, w', i);
        OldJobs(w, step, w', j);
        OverlapsExplained(worlds, steps, n - 1, i, j, p);
      } else {
        NewJob(w, step, w', j);
        OldJobs(w, step, w', i);
        if !HasExpired(worlds, steps, n, i) {
          AdmittedOver(worlds, steps, n - 1, i, p);
        }
      }
    }
  }

  /** Exclusion over every run: a job of the user that can still fetch the platform when a single-platform
      request is admitted has a row that was inactive already or is failed by this very request; and it
      has expired, at this request or an earlier one. */
  lemma SinglePlatformExclusion(worlds: seq<World>, steps: seq<Step>, n: nat, i: nat)
    requires Run(worlds, steps) && n < |steps|
    requires steps[n].Request? && steps[n].platform != "" && |worlds[n + 1].rows| > |worlds[n].rows|
    requires i < |worlds[n].rows| == |worlds[n].workers| && worlds[n].rows[i].user == steps[n].user
    ensures MayFetch(worlds[n].workers[i], steps[n].platform) ==>
              !Active(worlds[n].rows[i]) || Expires(worlds[n], steps[n], i)
    ensures !HasExpired(worlds, steps, n + 1, i) ==> !MayFetch(worlds[n].workers[i], steps[n].platform)
  {
    RunInvariant(worlds, steps, n);
    var platform := steps[n].platform;
    assert Next(worlds[n], steps[n], worlds[n + 1]);
    if MayFetch(worlds[n].workers[i], platform) {
      RowCoversFetches(worlds[n].rows[i], worlds[n].workers[i], platform);
      NewJob(worlds[n], steps[n], worlds[n + 1], |worlds[n].rows|);
      UnfinishedIsActiveOrExpired(worlds, steps, n, i);
      assert Active(worlds[n].rows[i]) ==> Expires(worlds[n], steps[n], i);
    }
  }

  /** When exclusion fails, exactly. A single-platform request that is admitted meets a job that may still
      fetch the platform if and only if such a job has an inactive row, or a blocking row among the stale
      ones; the first kind is left over from an earlier expiry. */
  lemma OverlapExactly(w: World, step: Step, w': World)
    requires AllTied(w) && Next(w, step, w') && step.Request? && step.platform != "" && |w'.rows| > |w.rows|
    ensures (exists i :: 0 <= i < |w.rows| && w.rows[i].user == step.user && MayFetch(w.workers[i], step.platform)) <==>
            (exists i :: 0 <= i < |w.rows| && w.rows[i].user == step.user && MayFetch(w.workers[i], step.platform) &&
                         (Active(w.rows[i]) ==> i in step.stale))
    ensures (forall i :: 0 <= i < |w.rows| && w.workers[i].phase != Done ==> Active(w.rows[i])) ==>
            ((exists i :: 0 <= i < |w.rows| && w.rows[i].user == step.user && MayFetch(w.workers[i], step.platform)) <==>
             (exists i :: 0 <= i < |w.rows| && i in step.stale && Blocks(step.user, step.platform, w.rows[i]) &&
                          MayFetch(w.workers[i], step.platform)))
  {
    NewJob(w, step, w', |w.rows|);
    forall i | 0 <= i < |w.rows| && w.rows[i].user == step.user && MayFetch(w.workers[i], step.platform)
      ensures Active(w.rows[i]) ==> i in step.stale && Blocks(step.user, step.platform, w.rows[i])
    {
      RowCoversFetches(w.rows[i], w.workers[i], step.platform);
    }
  }

  /** Over every run: of two unfinished jobs of one user for the same single platform, the earlier one has
      expired. */
  lemma {:induction false} OneJobPerPlatform(worlds: seq<World>, steps: seq<Step>, n: nat, i: nat, j: nat)
    requires Run(worlds, steps) && n <= |steps| && |worlds[n].rows| == |worlds[n].workers|
    requires i < j < |worlds[n].rows| && worlds[n].rows[i].user == worlds[n].rows[j].user
    requires worlds[n].workers[i].phase != Done && worlds[n].workers[j].phase != Done
    requires worlds[n].workers[i].target == worlds[n].workers[j].target != ""
    ensures HasExpired(worlds, steps, n, i)
  {
    if n > 0 {
      var w, step, w' := worlds[n - 1], steps[n - 1], worlds[n];
      assert Next(w, step, w');
      OldJobs(w, step, w', i);
      if j < |w.rows| {
        OldJobs(w, step, w', j);
        OneJobPerPlatform(worlds, steps, n - 1, i, j);
      } else {
        NewJob(w, step, w', j);
        RunInvariant(worlds, steps, n - 1);
        UnfinishedIsActiveOrExpired(worlds, steps, n - 1, i);
        assert Tied(w.rows[i], w.workers[i]);
        assert Active(w.rows[i]) ==> Blocks(step.user, step.platform, w.rows[i]);
      }
    }
  }

  /** When a full refresh is let in, exactly: every active job of the user has one platform, and its name
      is in the row already. */
  lemma FullRefreshAdmittedExactly(w: World, user: int)
    requires AllTied(w)
    ensures Admits(w.rows, user, "") <==>
            forall i :: 0 <= i < |w.rows| && w.rows[i].user == user && Active(w.rows[i]) ==>
              var k := w.workers[i];
              match k.phase
              case Aiming(n) => |k.plan| == 1 && (if n == 0 then k.target else k.plan[0]) != ""
              case Fetching(n) => |k.plan| == 1 && k.plan[0] != ""
              case _ => k.target != ""
  {
  }

  lemma NothingExpires(rows: seq<JobRow>, user: int, platform: string)
    ensures Expired(rows, user, platform, {}) == rows
  {
  }

  /** When a request for one platform is let in, exactly: every active job of the user has one platform, its
      name is in the row already, and it is another one. */
  lemma SinglePlatformAdmittedExactly(w: World, user: int, platform: string)
    requires AllTied(w) && platform != ""
    ensures Admits(w.rows, user, platform) <==>
            forall i :: 0 <= i < |w.rows| && w.rows[i].user == user && w.rows[i].status in {Queued, Running} ==>
              var k := w.workers[i];
              match k.phase
              case Aiming(n) => |k.plan| == 1 && (if n == 0 then k.target else k.plan[0]) !in {"", platform}
              case Fetching(n) => |k.plan| == 1 && k.plan[0] !in {"", platform}
              case _ => k.target !in {"", platform}
  {
  }

  // ---------------------------------------------------------------- what a worker may still fetch

  /** `k'` is reached from `k` by these actions. */
  ghost predicate Leads(k: Worker, actions: seq<Action>, k': Worker)
    decreases actions
  {
    if actions == [] then k' == k
    else Enabled(k, actions[0]) && Leads(WorkerAfter(k, actions[0]), actions[1..], k')
  }

  ghost predicate Fetches(k: Worker, p: string) {
    k.phase.Fetching? && k.phase.i < |k.plan| && k.plan[k.phase.i] == p
  }

  /** A worker that comes to fetch a platform could fetch it all along. */
  lemma {:induction false} FetchesOnlyWhatItMay(k: Worker, actions: seq<Action>, k': Worker, p: string)
    requires Leads(k, actions, k') && Fetches(k', p)
    ensures MayFetch(k, p)
    decreases actions
  {
    if actions == [] {
      assert k.plan[k.phase.i..][0] == p;
    } else {
      FetchesOnlyWhatItMay(WorkerAfter(k, actions[0]), actions[1..], k', p);
    }
  }

  /** And what it may fetch, it can come to fetch. */
  lemma {:induction false} MayFetchCanFetch(k: Worker, p: string) returns (actions: seq<Action>, k': Worker)
    requires MayFetch(k, p)
    ensures Leads(k, actions, k') && Fetches(k', p)
    decreases match k.phase case InQueue => 2 case Loaded => 1 case _ => 0,
              if k.phase.Aiming? || k.phase.Fetching? then |k.plan| - k.phase.i else 0,
              if k.phase.Aiming? then 1 else 0
  {
    if Fetches(k, p) {
      actions, k' := [], k;
    } else {
      var a := match k.phase
               case InQueue => Load([p])
               case Loaded => Start
               case Aiming(_) => Enter
               case _ => Leave;
      var rest;
      rest, k' := MayFetchCanFetch(WorkerAfter(k, a), p);
      actions := [a] + rest;
      assert actions[1..] == rest;
    }
  }

  /** The documentation promises that a full refresh excludes single-platform ones; the code admits a
      full refresh while a single-platform job waits, and both will fetch the platform. */
  lemma FullRefreshIsNotExclusive(user: int) returns (worlds: seq<World>, steps: seq<Step>)
    ensures Run(worlds, steps) && (forall i: nat :: !HasExpired(worlds, steps, |steps|, i))
    ensures |worlds| == 3 && |worlds[2].rows| == |worlds[2].workers| == 2
    ensures forall i :: 0 <= i < 2 ==> worlds[2].rows[i].user == user && Active(worlds[2].rows[i]) &&
                                       MayFetch(worlds[2].workers[i], "AtCoder")
  {
    var single, full := Worker("AtCoder", [], InQueue), Worker("", [], InQueue);
    var w1 := World([NewRow(user, "AtCoder")], [single]);
    var w2 := World([NewRow(user, "AtCoder"), NewRow(user, "")], [single, full]);
    worlds := [World([], []), w1, w2];
    steps := [Request(user, "AtCoder", {}, Published), Request(user, "", {}, Published)];
    NothingExpires([], user, "AtCoder");
    NothingExpires(w1.rows, user, "");
    assert Next(worlds[0], steps[0], worlds[1]);
    assert Next(worlds[1], steps[1], worlds[2]);
  }

  /** Failing a stale job does not stop it: its message waits in the queue, a second request for the same
      platform is admitted, and both workers will fetch it. */
  lemma ExpiryBreaksExclusion(user: int) returns (worlds: seq<World>, steps: seq<Step>)
    ensures Run(worlds, steps) && |worlds| == 3 && |worlds[2].rows| == |worlds[2].workers| == 2
    ensures forall i :: 0 <= i < 2 ==> worlds[2].rows[i].user == user && worlds[2].workers[i].target == "AtCoder" &&
                                       MayFetch(worlds[2].workers[i], "AtCoder")
  {
    var p := "AtCoder";
    var row, failed, waiting := NewRow(user, p), NewRow(user, p).(status := Failed), Worker(p, [], InQueue);
    worlds := [World([], []), World([row], [waiting]), World([failed, row], [waiting, waiting])];
    steps := [Request(user, p, {}, Published), Request(user, p, {0}, Published)];
    NothingExpires([], user, p);
    assert Expired([row], user, p, {0}) == [failed];
    assert Next(worlds[0], steps[0], worlds[1]);
    assert Next(worlds[1], steps[1], worlds[2]);
  }
}
