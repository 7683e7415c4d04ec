/** What happened to the platform refreshes of users, as a log of events, and what the rows of
    spider_sync_statuses have to say about it. */
module SyncHistory {
  import opened Model

  datatype Mark = Running | Success | Failed

  datatype Event =
    | Started(user: int, platform: string, at: Instant)
    | Succeeded(user: int, platform: string)
    | Broke(user: int, platform: string)
    | Cleared(user: int, platform: string)

  datatype SyncStatus = SyncStatus(status: Mark, lastStartedAt: Option<Instant>, consecutiveFailure: nat)

  type Statuses = map<(int, string), SyncStatus>

  predicate About(e: Event, u: int, p: string) {
    e.user == u && e.platform == p
  }

  // ---------------------------------------------------------------- the log's own account

  /** Start of the latest refresh since the status was last cleared. */
  function LastStart(h: seq<Event>, u: int, p: string): Option<Instant> {
    if h == [] then None
    else
      var e, before := h[|h| - 1], LastStart(h[..|h| - 1], u, p);
      if !About(e, u, p) then before
      else match e
           case Started(_, _, at) => Some(at)
           case Cleared(_, _) => None
           case _ => before
  }

  /** Failed refreshes since the last successful one (or since the status was cleared). */
  function Failures(h: seq<Event>, u: int, p: string): nat {
    if h == [] then 0
    else
      var e, before := h[|h| - 1], Failures(h[..|h| - 1], u, p);
      if !About(e, u, p) || e.Started? then before else if e.Broke? then before + 1 else 0
  }

  function LastMark(h: seq<Event>, u: int, p: string): Option<Mark> {
    if h == [] then None
    else if !About(h[|h| - 1], u, p) then LastMark(h[..|h| - 1], u, p)
    else match h[|h| - 1]
         case Started(_, _, _) => Some(Running)
         case Succeeded(_, _) => Some(Success)
         case Broke(_, _) => Some(Failed)
         case Cleared(_, _) => None
  }

  ghost predicate Consistent(statuses: Statuses, h: seq<Event>) {
    forall u, p ::
      && ((u, p) in statuses <==> LastMark(h, u, p).Some?)
      && ((u, p) in statuses ==> statuses[(u, p)] == SyncStatus(LastMark(h, u, p).value, LastStart(h, u, p), Failures(h, u, p)))
      && ((u, p) !in statuses ==> LastStart(h, u, p).None? && Failures(h, u, p) == 0)
  }

  // ---------------------------------------------------------------- the rows

  function RowFor(statuses: Statuses, u: int, p: string): SyncStatus {
    if (u, p) in statuses then statuses[(u, p)] else SyncStatus(Running, None, 0)
  }

  /** What markPlatformRunning, markPlatformSuccess, markPlatformFailed and a change of the bound account
      do to the rows. */
  function Recorded(statuses: Statuses, e: Event): Statuses {
    var row := RowFor(statuses, e.user, e.platform);
    match e
    case Started(u, p, at) => statuses[(u, p) := row.(status := Running, lastStartedAt := Some(at))]
    case Succeeded(u, p) => statuses[(u, p) := row.(status := Success, consecutiveFailure := 0)]
    case Broke(u, p) => statuses[(u, p) := row.(status := Failed, consecutiveFailure := row.consecutiveFailure + 1)]
    case Cleared(u, p) => statuses - {(u, p)}
  }

  /** The rows keep telling the log's story, whatever is recorded. */
  lemma RecordingIsConsistent(statuses: Statuses, h: seq<Event>, e: Event)
    requires Consistent(statuses, h)
    ensures Consistent(Recorded(statuses, e), h + [e])
  {
  }

  // ---------------------------------------------------------------- cooldown

  predicate IsStart(e: Event, u: int, p: string) {
    e.Started? && About(e, u, p)
  }

  ghost predicate NotClearedFrom(h: seq<Event>, u: int, p: string, i: nat) {
    forall m :: i <= m < |h| ==> h[m] != Cleared(u, p)
  }

  /** Starts are listed in the order of the clock, which now shows `now`. */
  ghost predicate Timely(h: seq<Event>, now: Instant) {
    && (forall i :: 0 <= i < |h| && h[i].Started? ==> h[i].at <= now)
    && (forall i, j :: 0 <= i < j < |h| && h[i].Started? && h[j].Started? ==> h[i].at <= h[j].at)
  }

  /** Two refreshes of one user and platform, with the same account bound throughout, start `gap` apart. */
  ghost predicate SpacedBy(h: seq<Event>, u: int, p: string, gap: int) {
    forall i, j :: 0 <= i < j < |h| && IsStart(h[i], u, p) && IsStart(h[j], u, p) && NotClearedFrom(h[..j], u, p, i) ==>
      h[j].at - h[i].at >= gap
  }

  lemma {:induction false} LastStartIsLatest(h: seq<Event>, now: Instant, u: int, p: string, i: nat)
    requires Timely(h, now) && i < |h| && IsStart(h[i], u, p) && NotClearedFrom(h, u, p, i)
    ensures LastStart(h, u, p).Some? && h[i].at <= LastStart(h, u, p).value
  {
    var n := |h| - 1;
    if i < n {
      assert NotClearedFrom(h[..n], u, p, i);
      assert h[n] != Cleared(u, p);
      LastStartIsLatest(h[..n], now, u, p, i);
    }
  }

  /** Only a start of the same refresh can break the spacing. */
  lemma OtherEventsKeepSpacing(h: seq<Event>, e: Event, u: int, p: string, gap: int)
    requires SpacedBy(h, u, p, gap) && !IsStart(e, u, p)
    ensures SpacedBy(h + [e], u, p, gap)
  {
    forall i, j | 0 <= i < j < |h + [e]| && IsStart((h + [e])[i], u, p) && IsStart((h + [e])[j], u, p) &&
                  NotClearedFrom((h + [e])[..j], u, p, i)
      ensures (h + [e])[j].at - (h + [e])[i].at >= gap
    {
      assert (h + [e])[..j] == h[..j];
    }
  }

  lemma LateStartKeepsSpacing(h: seq<Event>, now: Instant, u: int, p: string, gap: int)
    requires SpacedBy(h, u, p, gap) && Timely(h, now)
    requires LastStart(h, u, p).Some? ==> now - LastStart(h, u, p).value >= gap
    ensures SpacedBy(h + [Started(u, p, now)], u, p, gap)
  {
    var h' := h + [Started(u, p, now)];
    forall i, j | 0 <= i < j < |h'| && IsStart(h'[i], u, p) && IsStart(h'[j], u, p) && NotClearedFrom(h'[..j], u, p, i)
      ensures h'[j].at - h'[i].at >= gap
    {
      assert h'[..j] == h[..j];
      if j == |h| {
        assert h[..j] == h;
        LastStartIsLatest(h, now, u, p, i);
      }
    }
  }
}
