/** The caches in front of the Codeforces standings: a standings cache, and on top of it a cache of rank maps
    and one of contest metadata. Clock readings are arguments, in nanoseconds since the Unix epoch. */
module RankCache {
  import opened Model
  import opened Text

  const SECOND: int := 1_000_000_000
  const HOUR: int := 60 * MINUTE
  const SIX_HOURS: int := 6 * HOUR

  // ---------------------------------------------------------------- ttlCache

  datatype Entry<T> = Entry(value: T, expiresAt: Instant)

  type Entries<T> = map<string, Entry<T>>

  /** What a read of `key` at time `t` finds: an entry counts up to and including its expiry. */
  function Find<T>(entries: Entries<T>, key: string, t: Instant): Option<T> {
    if key in entries && t <= entries[key].expiresAt then Some(entries[key].value) else None
  }

  function AfterGet<T>(entries: Entries<T>, key: string, now: Instant): Entries<T> {
    if Find(entries, key, now).None? then entries - {key} else entries
  }

  function AfterSet<T>(entries: Entries<T>, key: string, value: T, ttl: int, now: Instant): Entries<T> {
    entries[key := Entry(value, now + ttl)]
  }

  class TtlCache<T> {
    const ttl: int
    var entries: Entries<T>

    constructor (ttl: int)
      ensures this.ttl == ttl && entries == map[]
    {
      this.ttl := ttl;
      entries := map[];
    }

    /** What the cache would answer for `key` at time `t`. */
    ghost function Serves(key: string, t: Instant): Option<T>
      reads this
    {
      Find(entries, key, t)
    }

    /** Reading removes an expired entry, which no later read can notice. */
    method Get(key: string, now: Instant) returns (r: Option<T>)
      modifies this
      ensures r == old(Serves(key, now))
      ensures forall k, t :: now <= t ==> Serves(k, t) == old(Serves(k, t))
      ensures entries == AfterGet(old(entries), key, now)
    {
      if key !in entries {
        assert entries - {key} == entries;
        return None;
      }
      if now > entries[key].expiresAt {
        entries := entries - {key};
        return None;
      }
      return Some(entries[key].value);
    }

    /** The value is served until its time to live (or the default one) is over; other keys as before. */
    method SetWithTtl(key: string, value: T, ttl: int, now: Instant)
      modifies this
      ensures var lifetime := if ttl <= 0 then this.ttl else ttl;
              && entries == AfterSet(old(entries), key, value, lifetime, now)
              && forall k, t :: Serves(k, t) ==
                   if k != key then old(Serves(k, t)) else if t <= now + lifetime then Some(value) else None
    {
      entries := entries[key := Entry(value, now + if ttl <= 0 then this.ttl else ttl)];
    }

    method Set(key: string, value: T, now: Instant)
      modifies this
      ensures entries == AfterSet(old(entries), key, value, ttl, now)
      ensures forall k, t :: Serves(k, t) ==
                if k != key then old(Serves(k, t)) else if t <= now + ttl then Some(value) else None
    {
      SetWithTtl(key, value, ttl, now);
    }
  }

  // ---------------------------------------------------------------- standings and rank maps

  datatype Row = Row(rank: int, handles: seq<string>)

  /** A standings response; `contest` is the cache key it was requested under, `fetchedAt` the moment it arrived. */
  datatype Standings = Standings(contest: string, start: int, duration: int, rows: seq<Row>, fetchedAt: Instant)

  predicate KnownWindow(s: Standings) {
    s.start > 0 && s.duration > 0
  }

  /** Ten minutes after the end of the contest. */
  function Cutoff(s: Standings): Instant {
    (s.start + s.duration) * SECOND + 10 * MINUTE
  }

  /** codeforcesStandingsTTL. */
  function StandingsTtl(s: Standings, now: Instant): int {
    if !KnownWindow(s) || now < Cutoff(s) then MINUTE else SIX_HOURS
  }

  function Handle(cs: Casing, raw: string): string {
    cs.lower(TrimSpace(raw))
  }

  predicate Lists(cs: Casing, handles: seq<string>, h: string) {
    h != "" && exists i :: 0 <= i < |handles| && Handle(cs, handles[i]) == h
  }

  /** The rank of a handle: that of the first row, among those with a rank, that lists it. */
  function OfficialRank(cs: Casing, rows: seq<Row>, h: string): Option<int> {
    if rows == [] then None
    else
      var before, row := OfficialRank(cs, rows[..|rows| - 1], h), rows[|rows| - 1];
      if before.None? && row.rank > 0 && Lists(cs, row.handles, h) then Some(row.rank) else before
  }

  /** A row with a rank that lists the handle, trimmed and in lower case. */
  ghost predicate RankedRow(cs: Casing, row: Row, h: string) {
    row.rank > 0 && h != "" && exists i :: 0 <= i < |row.handles| && cs.lower(TrimSpace(row.handles[i])) == h
  }

  lemma {:induction false} OfficialRankIs(cs: Casing, rows: seq<Row>, h: string)
    ensures forall i :: 0 <= i < |rows| && RankedRow(cs, rows[i], h) && (forall j :: 0 <= j < i ==> !RankedRow(cs, rows[j], h)) ==>
              OfficialRank(cs, rows, h) == Some(rows[i].rank)
    ensures (forall i :: 0 <= i < |rows| ==> !RankedRow(cs, rows[i], h)) <==> OfficialRank(cs, rows, h) == None
  {
    if rows != [] {
      var before, row := rows[..|rows| - 1], rows[|rows| - 1];
      OfficialRankIs(cs, before, h);
      assert row.rank > 0 && Lists(cs, row.handles, h) <==> RankedRow(cs, row, h);
      assert forall i :: 0 <= i < |before| ==> before[i] == rows[i];
    }
  }

  function Rank(m: map<string, int>, h: string): Option<int> {
    if h in m then Some(m[h]) else None
  }

  method AddRow(cs: Casing, m: map<string, int>, row: Row) returns (r: map<string, int>)
    ensures forall h :: Rank(r, h) ==
              if Rank(m, h).None? && row.rank > 0 && Lists(cs, row.handles, h) then Some(row.rank) else Rank(m, h)
  {
    r := m;
    if row.rank <= 0 {
      return;
    }
    for i := 0 to |row.handles|
      invariant forall h :: Rank(r, h) ==
                  if Rank(m, h).None? && Lists(cs, row.handles[..i], h) then Some(row.rank) else Rank(m, h)
    {
      var handle := Handle(cs, row.handles[i]);
      forall h {
        ListsAppend(cs, row.handles, i, h);
      }
      if handle != "" && handle !in r {
        r := r[handle := row.rank];
      }
    }
    assert row.handles[..|row.handles|] == row.handles;
  }

  lemma ListsAppend(cs: Casing, handles: seq<string>, i: nat, h: string)
    requires i < |handles|
    ensures Lists(cs, handles[..i + 1], h) <==> Lists(cs, handles[..i], h) || (h != "" && Handle(cs, handles[i]) == h)
  {
  }

  method BuildRankMap(cs: Casing, rows: seq<Row>) returns (m: map<string, int>)
    ensures forall h :: Rank(m, h) == OfficialRank(cs, rows, h)
  {
    m := map[];
    for i := 0 to |rows|
      invariant forall h :: Rank(m, h) == OfficialRank(cs, rows[..i], h)
    {
      m := AddRow(cs, m, rows[i]);
      assert rows[..i + 1][..i] == rows[..i];
    }
    assert rows[..|rows|] == rows;
  }

  // ---------------------------------------------------------------- ages

  /** An entry derived from `s` expires within `short` of the fetch, or, if the cutoff has passed by `now`,
      within `long`. */
  ghost predicate Bounded(s: Standings, expiresAt: Instant, now: Instant, short: int, long: int) {
    || expiresAt <= s.fetchedAt + short
    || (KnownWindow(s) && Cutoff(s) <= now && expiresAt <= s.fetchedAt + long)
  }

  /** How old a served value may be. */
  ghost predicate AgeOk(s: Standings, now: Instant, short: int, long: int) {
    && s.fetchedAt + long >= now
    && (!KnownWindow(s) || now < Cutoff(s) ==> now <= s.fetchedAt + short)
  }

  lemma ServedInTime(s: Standings, expiresAt: Instant, now: Instant, short: int, long: int)
    requires Bounded(s, expiresAt, now, short, long) && now <= expiresAt && short <= long
    ensures AgeOk(s, now, short, long)
  {
  }

  /** Storing a value: the time to live is chosen at `decided`, the expiry is computed at `stored`. */
  lemma StoredInTime(s: Standings, asOf: Instant, decided: Instant, stored: Instant, lag: nat, short: int, long: int)
    requires asOf <= decided <= stored <= asOf + lag && AgeOk(s, asOf, short, long) && short <= long
    ensures Bounded(s, stored + StandingsTtl(s, decided), stored, short + lag + MINUTE, long + lag + SIX_HOURS)
  {
  }

  lemma StoredForSixHours(s: Standings, asOf: Instant, stored: Instant, lag: nat, short: int, long: int)
    requires asOf <= stored <= asOf + lag && AgeOk(s, asOf, short, long) && short <= long
    ensures Bounded(s, stored + SIX_HOURS, stored, short + lag + SIX_HOURS, long + lag + SIX_HOURS)
  {
  }

  lemma HandedOutInTime(s: Standings, asOf: Instant, now: Instant, lag: nat, short: int, long: int)
    requires asOf <= now <= asOf + lag && AgeOk(s, asOf, short, long)
    ensures AgeOk(s, now, short + lag, long + lag)
  {
  }
}

/** Calls of fetchCodeforcesOfficialRankMap and fetchCodeforcesMatrixMeta that overlap in time: each cache
    access is atomic, and between two accesses anything may happen. */
module RankCalls {
  import opened Model
  import opened Text
  import opened RankCache

  datatype Outer = RankMap | Meta

  datatype Ranked = Ranked(ranks: map<string, int>, source: Standings)

  /** Where a call is. `asOf` is the moment at which it read the standings from the cache or received them;
      `decided` the moment at which the time to live was chosen. */
  datatype Phase =
    | Missed
    | Asking
    | Arrived(s: Standings)
    | Choosing(s: Standings, decided: Instant)
    | Holding(s: Standings, asOf: Instant)
    | Closing(s: Standings, asOf: Instant, decided: Instant)

  datatype Call = Call(outer: Outer, key: string, began: Instant, phase: Phase)

  datatype World = World(
    clock: Instant, standings: Entries<Standings>, ranks: Entries<Ranked>, metas: Entries<Standings>, calls: map<nat, Call>)

  datatype Action =
    | Begin(outer: Outer, key: string)      // the read of the outer cache
    | InnerGet                              // the read of the standings cache
    | Arrive(s: Standings)                  // the answer of codeforces.com
    | Fail                                  // no usable answer
    | Choose                                // codeforcesStandingsTTL
    | Store                                 // the write to the standings cache
    | OuterChoose
    | OuterStore(ranks: map<string, int>)   // the write to the outer cache, and the return

  /** Call `id` acts at time `at`. */
  datatype Step = Step(id: nat, at: Instant, action: Action)

  ghost predicate IsRankMap(cs: Casing, m: map<string, int>, s: Standings) {
    forall h :: Rank(m, h) == OfficialRank(cs, s.rows, h)
  }

  function Moved(w: World, step: Step, phase: Phase): map<nat, Call>
    requires step.id in w.calls
  {
    w.calls[step.id := w.calls[step.id].(phase := phase)]
  }

  /** One step; a call takes at most `lag`. */
  ghost predicate Next(cs: Casing, lag: nat, w: World, step: Step, w': World) {
    && w.clock <= step.at == w'.clock
    && if step.action.Begin? then step.id !in w.calls && Begins(w, step, w') else
       step.id in w.calls && step.at <= w.calls[step.id].began + lag && Continues(cs, w, step, w')
  }

  ghost predicate Begins(w: World, step: Step, w': World)
    requires step.action.Begin?
  {
    var key, hit := step.action.key, FoundAt(w, step.action, step.at);
    && w'.standings == w.standings
    && w'.ranks == (if step.action.outer == RankMap then AfterGet(w.ranks, key, step.at) else w.ranks)
    && w'.metas == (if step.action.outer == Meta then AfterGet(w.metas, key, step.at) else w.metas)
    && w'.calls == if hit then w.calls else w.calls[step.id := Call(step.action.outer, key, step.at, Missed)]
  }

  predicate FoundAt(w: World, a: Action, at: Instant)
    requires a.Begin?
  {
    if a.outer == RankMap then Find(w.ranks, a.key, at).Some? else Find(w.metas, a.key, at).Some?
  }

  ghost predicate Continues(cs: Casing, w: World, step: Step, w': World)
    requires step.id in w.calls
  {
    var c := w.calls[step.id];
    match step.action
    case Begin(_, _) => false
    case InnerGet =>
      && c.phase == Missed && w' == w.(clock := step.at, standings := AfterGet(w.standings, c.key, step.at),
           calls := Moved(w, step, match Find(w.standings, c.key, step.at)
                                   case Some(s) => Holding(s, step.at)
                                   case None => Asking))
    case Arrive(s) =>
      && c.phase == Asking && s.fetchedAt == step.at && s.contest == c.key
      && w' == w.(clock := step.at, calls := Moved(w, step, Arrived(s)))
    case Fail =>
      (c.phase == Missed || c.phase == Asking) && w' == w.(clock := step.at, calls := w.calls - {step.id})
    case Choose =>
      c.phase.Arrived? && w' == w.(clock := step.at, calls := Moved(w, step, Choosing(c.phase.s, step.at)))
    case Store =>
      && c.phase.Choosing?
      && w' == w.(clock := step.at,
           standings := AfterSet(w.standings, c.key, c.phase.s, StandingsTtl(c.phase.s, c.phase.decided), step.at),
           calls := Moved(w, step, Holding(c.phase.s, c.phase.s.fetchedAt)))
    case OuterChoose =>
      c.phase.Holding? && w' == w.(clock := step.at, calls := Moved(w, step, Closing(c.phase.s, c.phase.asOf, step.at)))
    case OuterStore(m) =>
      && c.phase.Closing? && (c.outer == RankMap ==> IsRankMap(cs, m, c.phase.s))
      && w' == w.(clock := step.at, calls := w.calls - {step.id},
           ranks := if c.outer == Meta then w.ranks else
             AfterSet(w.ranks, c.key, Ranked(m, c.phase.s), StandingsTtl(c.phase.s, c.phase.decided), step.at),
           metas := if c.outer == RankMap then w.metas else AfterSet(w.metas, c.key, c.phase.s, SIX_HOURS, step.at))
  }

  // ---------------------------------------------------------------- what every step keeps

  ghost predicate StandingsOk(lag: nat, e: Entry<Standings>, now: Instant) {
    Bounded(e.value, e.expiresAt, now, lag + MINUTE, lag + SIX_HOURS)
  }

  ghost predicate RanksOk(cs: Casing, lag: nat, e: Entry<Ranked>, now: Instant) {
    && IsRankMap(cs, e.value.ranks, e.value.source)
    && Bounded(e.value.source, e.expiresAt, now, 2 * lag + 2 * MINUTE, 2 * lag + 2 * SIX_HOURS)
  }

  ghost predicate MetaOk(lag: nat, e: Entry<Standings>, now: Instant) {
    Bounded(e.value, e.expiresAt, now, 2 * lag + MINUTE + SIX_HOURS, 2 * lag + 2 * SIX_HOURS)
  }

  ghost predicate CallOk(lag: nat, c: Call, now: Instant) {
    c.began <= now &&
    match c.phase
    case Missed => true
    case Asking => true
    case Arrived(s) => s.contest == c.key && c.began <= s.fetchedAt <= now
    case Choosing(s, decided) => s.contest == c.key && c.began <= s.fetchedAt <= decided <= now
    case Holding(s, asOf) =>
      s.contest == c.key && c.began <= asOf <= now && AgeOk(s, asOf, lag + MINUTE, lag + SIX_HOURS)
    case Closing(s, asOf, decided) =>
      s.contest == c.key && c.began <= asOf <= decided <= now && AgeOk(s, asOf, lag + MINUTE, lag + SIX_HOURS)
  }

  ghost predicate Inv(cs: Casing, lag: nat, w: World) {
    && (forall k :: k in w.standings ==> w.standings[k].value.contest == k && StandingsOk(lag, w.standings[k], w.clock))
    && (forall k :: k in w.ranks ==> w.ranks[k].value.source.contest == k && RanksOk(cs, lag, w.ranks[k], w.clock))
    && (forall k :: k in w.metas ==> w.metas[k].value.contest == k && MetaOk(lag, w.metas[k], w.clock))
    && (forall id :: id in w.calls ==> CallOk(lag, w.calls[id], w.clock))
  }

  /** Time passing keeps the invariant. */
  lemma LaterInv(cs: Casing, lag: nat, w: World, now: Instant)
    requires Inv(cs, lag, w) && w.clock <= now
    ensures Inv(cs, lag, w.(clock := now))
  {
  }

  /** Steps that touch one call only. */
  lemma MoveKeepsInv(cs: Casing, lag: nat, w: World, step: Step, phase: Phase)
    requires Inv(cs, lag, w) && step.id in w.calls && CallOk(lag, w.calls[step.id].(phase := phase), w.clock)
    ensures Inv(cs, lag, w.(calls := Moved(w, step, phase)))
  {
  }

  lemma InnerGetKeepsInv(cs: Casing, lag: nat, w: World, step: Step, w': World)
    requires Inv(cs, lag, w.(clock := step.at)) && Next(cs, lag, w, step, w') && step.action.InnerGet?
    ensures Inv(cs, lag, w')
  {
    var c := w.calls[step.id];
    if Find(w.standings, c.key, step.at).Some? {
      var e := w.standings[c.key];
      ServedInTime(e.value, e.expiresAt, step.at, lag + MINUTE, lag + SIX_HOURS);
      MoveKeepsInv(cs, lag, w.(clock := step.at), step, Holding(e.value, step.at));
    } else {
      MoveKeepsInv(cs, lag, w.(clock := step.at), step, Asking);
    }
  }

  lemma StoreKeepsInv(cs: Casing, lag: nat, w: World, step: Step, w': World)
    requires Inv(cs, lag, w.(clock := step.at)) && Next(cs, lag, w, step, w') && step.action.Store?
    requires CallOk(lag, w.calls[step.id], w.clock)
    ensures Inv(cs, lag, w')
  {
    var s, decided := w.calls[step.id].phase.s, w.calls[step.id].phase.decided;
    StoredInTime(s, s.fetchedAt, decided, step.at, lag, 0, 0);
    MoveKeepsInv(cs, lag, w.(clock := step.at), step, Holding(s, s.fetchedAt));
  }

  lemma OuterStoreKeepsInv(cs: Casing, lag: nat, w: World, step: Step, w': World)
    requires Inv(cs, lag, w.(clock := step.at)) && Next(cs, lag, w, step, w') && step.action.OuterStore?
    requires CallOk(lag, w.calls[step.id], w.clock)
    ensures Inv(cs, lag, w')
  {
    var c := w.calls[step.id];
    StoredInTime(c.phase.s, c.phase.asOf, c.phase.decided, step.at, lag, lag + MINUTE, lag + SIX_HOURS);
    StoredForSixHours(c.phase.s, c.phase.asOf, step.at, lag, lag + MINUTE, lag + SIX_HOURS);
  }

  lemma BeginKeepsInv(cs: Casing, lag: nat, w: World, step: Step, w': World)
    requires Inv(cs, lag, w.(clock := step.at)) && Next(cs, lag, w, step, w') && step.action.Begin?
    ensures Inv(cs, lag, w')
  {
  }

  lemma StepKeepsInv(cs: Casing, lag: nat, w: World, step: Step, w': World)
    requires Inv(cs, lag, w) && Next(cs, lag, w, step, w')
    ensures Inv(cs, lag, w')
  {
    LaterInv(cs, lag, w, step.at);
    var later := w.(clock := step.at);
    match step.action
    case Begin(_, _) => BeginKeepsInv(cs, lag, w, step, w');
    case InnerGet => InnerGetKeepsInv(cs, lag, w, step, w');
    case Arrive(s) => MoveKeepsInv(cs, lag, later, step, Arrived(s));
    case Fail =>
    case Choose => MoveKeepsInv(cs, lag, later, step, Choosing(w.calls[step.id].phase.s, step.at));
    case Store => StoreKeepsInv(cs, lag, w, step, w');
    case OuterChoose =>
      MoveKeepsInv(cs, lag, later, step, Closing(w.calls[step.id].phase.s, w.calls[step.id].phase.asOf, step.at));
    case OuterStore(_) => OuterStoreKeepsInv(cs, lag, w, step, w');
  }

  // ---------------------------------------------------------------- whole runs

  ghost predicate Run(cs: Casing, lag: nat, worlds: seq<World>, steps: seq<Step>) {
    && |worlds| == |steps| + 1
    && worlds[0] == World(worlds[0].clock, map[], map[], map[], map[])
    && forall n :: 0 <= n < |steps| ==> Next(cs, lag, worlds[n], steps[n], worlds[n + 1])
  }

  lemma {:induction false} RunInv(cs: Casing, lag: nat, worlds: seq<World>, steps: seq<Step>, n: nat)
    requires Run(cs, lag, worlds, steps) && n <= |steps|
    ensures Inv(cs, lag, worlds[n])
  {
    if n > 0 {
      RunInv(cs, lag, worlds, steps, n - 1);
      StepKeepsInv(cs, lag, worlds[n - 1], steps[n - 1], worlds[n]);
    }
  }

  /** The contest a step is about. */
  function KeyOf(w: World, step: Step): string {
    if step.action.Begin? then step.action.key else if step.id in w.calls then w.calls[step.id].key else ""
  }

  /** The rank map that a step hands to its caller, with the standings it was made of: a cached one, or the
      one just computed. */
  function RanksOut(w: World, step: Step): Option<Ranked> {
    match step.action
    case Begin(RankMap, key) => Find(w.ranks, key, step.at)
    case OuterStore(m) =>
      if step.id in w.calls && w.calls[step.id].outer == RankMap && w.calls[step.id].phase.Closing?
      then Some(Ranked(m, w.calls[step.id].phase.s)) else None
    case _ => None
  }

  function MetaOut(w: World, step: Step): Option<Standings> {
    match step.action
    case Begin(Meta, key) => Find(w.metas, key, step.at)
    case OuterStore(m) =>
      if step.id in w.calls && w.calls[step.id].outer == Meta && w.calls[step.id].phase.Closing?
      then Some(w.calls[step.id].phase.s) else None
    case _ => None
  }

  /** In every interleaving of calls that take at most `lag` each, a rank map that is handed out is the official
      one of standings of that contest that are at most two minutes older while the contest runs (until ten minutes after its
      end, or as long as its window is unknown) and twelve hours at any time, plus twice `lag`. */
  lemma RanksAreFresh(cs: Casing, lag: nat, worlds: seq<World>, steps: seq<Step>, n: nat)
    requires Run(cs, lag, worlds, steps) && n < |steps| && RanksOut(worlds[n], steps[n]).Some?
    ensures var out := RanksOut(worlds[n], steps[n]).value;
            out.source.contest == KeyOf(worlds[n], steps[n]) && IsRankMap(cs, out.ranks, out.source) &&
            AgeOk(out.source, steps[n].at, 2 * lag + 2 * MINUTE, 2 * lag + 2 * SIX_HOURS)
    ensures var s, age := RanksOut(worlds[n], steps[n]).value.source,
                          steps[n].at - RanksOut(worlds[n], steps[n]).value.source.fetchedAt;
            && age <= 2 * lag + 43_200_000_000_000
            && (s.start <= 0 || s.duration <= 0 || steps[n].at < (s.start + s.duration + 600) * 1_000_000_000 ==>
                  age <= 2 * lag + 120_000_000_000)
  {
    var w, step := worlds[n], steps[n];
    RunInv(cs, lag, worlds, steps, n);
    assert Next(cs, lag, w, step, worlds[n + 1]);
    if step.action.Begin? {
      var e := w.ranks[step.action.key];
      ServedInTime(e.value.source, e.expiresAt, step.at, 2 * lag + 2 * MINUTE, 2 * lag + 2 * SIX_HOURS);
    } else {
      var c := w.calls[step.id];
      HandedOutInTime(c.phase.s, c.phase.asOf, step.at, lag, lag + MINUTE, lag + SIX_HOURS);
    }
  }

  /** Metadata is kept for six hours even while the contest runs, so that it may be that much older. */
  lemma MetaIsFresh(cs: Casing, lag: nat, worlds: seq<World>, steps: seq<Step>, n: nat)
    requires Run(cs, lag, worlds, steps) && n < |steps| && MetaOut(worlds[n], steps[n]).Some?
    ensures MetaOut(worlds[n], steps[n]).value.contest == KeyOf(worlds[n], steps[n])
    ensures AgeOk(MetaOut(worlds[n], steps[n]).value, steps[n].at, 2 * lag + MINUTE + SIX_HOURS, 2 * lag + 2 * SIX_HOURS)
    ensures var s, age := MetaOut(worlds[n], steps[n]).value, steps[n].at - MetaOut(worlds[n], steps[n]).value.fetchedAt;
            && age <= 2 * lag + 43_200_000_000_000
            && (s.start <= 0 || s.duration <= 0 || steps[n].at < (s.start + s.duration + 600) * 1_000_000_000 ==>
                  age <= 2 * lag + 21_660_000_000_000)
  {
    var w, step := worlds[n], steps[n];
    RunInv(cs, lag, worlds, steps, n);
    assert Next(cs, lag, w, step, worlds[n + 1]);
    if step.action.Begin? {
      var e := w.metas[step.action.key];
      ServedInTime(e.value, e.expiresAt, step.at, 2 * lag + MINUTE + SIX_HOURS, 2 * lag + 2 * SIX_HOURS);
    } else {
      var c := w.calls[step.id];
      HandedOutInTime(c.phase.s, c.phase.asOf, step.at, lag, lag + MINUTE, lag + SIX_HOURS);
    }
  }

  // ---------------------------------------------------------------- how long entries are served

  /** The step writes a rank map for `key`. */
  predicate StoresRanks(w: World, step: Step, key: string) {
    step.action.OuterStore? && step.id in w.calls && w.calls[step.id].outer == RankMap && w.calls[step.id].key == key
  }

  /** The step writes standings for `key`. */
  predicate StoresStandings(w: World, step: Step, key: string) {
    step.action.Store? && step.id in w.calls && w.calls[step.id].key == key
  }

  /** The time to live: six hours once the contest is over for ten minutes, otherwise a minute. */
  lemma TtlIs(s: Standings, now: Instant)
    ensures StandingsTtl(s, now) ==
            if s.start > 0 && s.duration > 0 && now >= (s.start + s.duration + 600) * 1_000_000_000
            then 21_600_000_000_000 else 60_000_000_000
  {
  }

  lemma ClockStep(cs: Casing, lag: nat, worlds: seq<World>, steps: seq<Step>, n: nat)
    requires Run(cs, lag, worlds, steps) && n < |steps|
    ensures worlds[n].clock <= steps[n].at == worlds[n + 1].clock
  {
    assert Next(cs, lag, worlds[n], steps[n], worlds[n + 1]);
  }

  /** A property that every step from n to m keeps while the clock shows at most `until`. */
  lemma {:induction false} Persists(worlds: seq<World>, holds: World -> bool, n: nat, m: nat, until: Instant)
    requires n <= m < |worlds| && holds(worlds[n]) && worlds[m].clock <= until
    requires forall k :: n <= k < m ==> worlds[k].clock <= worlds[k + 1].clock
    requires forall k :: n <= k < m && holds(worlds[k]) && worlds[k + 1].clock <= until ==> holds(worlds[k + 1])
    ensures holds(worlds[m])
    decreases m
  {
    if n < m {
      Persists(worlds, holds, n, m - 1, until);
    }
  }

  lemma RanksStay(cs: Casing, lag: nat, w: World, step: Step, w': World, key: string, until: Instant)
    requires Next(cs, lag, w, step, w') && key in w.ranks && w.ranks[key].expiresAt >= until && step.at <= until
    requires StoresRanks(w, step, key) ==> step.at + MINUTE >= until
    ensures key in w'.ranks && w'.ranks[key].expiresAt >= until
    ensures !StoresRanks(w, step, key) ==> w'.ranks[key] == w.ranks[key]
  {
  }

  /** A stored map is served until it expires or another one is stored. */
  lemma MapIsServed(cs: Casing, lag: nat, worlds: seq<World>, steps: seq<Step>, n: nat, m: nat, key: string)
    requires Run(cs, lag, worlds, steps) && n < m <= |steps| && StoresRanks(worlds[n], steps[n], key)
    requires forall k :: n < k < m ==> !StoresRanks(worlds[k], steps[k], key)
    requires key in worlds[n + 1].ranks && worlds[m].clock <= worlds[n + 1].ranks[key].expiresAt
    ensures key in worlds[m].ranks && worlds[m].ranks[key] == worlds[n + 1].ranks[key]
  {
    var e := worlds[n + 1].ranks[key];
    var holds := (w: World) => key in w.ranks && w.ranks[key] == e;
    forall k | n + 1 <= k < m
      ensures worlds[k].clock <= worlds[k + 1].clock
      ensures holds(worlds[k]) && worlds[k + 1].clock <= e.expiresAt ==> holds(worlds[k + 1])
    {
      ClockStep(cs, lag, worlds, steps, k);
      if holds(worlds[k]) && worlds[k + 1].clock <= e.expiresAt {
        RanksStay(cs, lag, worlds[k], steps[k], worlds[k + 1], key, worlds[k + 1].clock);
      }
    }
    Persists(worlds, holds, n + 1, m, e.expiresAt);
  }

  /** How long that is: a call that begins within a minute of the store gets the stored map, and within six
      hours if the time to live was chosen when the contest was over for ten minutes; no later call does. */
  lemma ServedExactly(cs: Casing, lag: nat, worlds: seq<World>, steps: seq<Step>, n: nat, m: nat, key: string)
    requires Run(cs, lag, worlds, steps) && n < m < |steps| && StoresRanks(worlds[n], steps[n], key)
    requires forall k :: n < k < m ==> !StoresRanks(worlds[k], steps[k], key)
    requires steps[m].action == Begin(RankMap, key)
    ensures worlds[n].calls[steps[n].id].phase.Closing?
    ensures var s, decided := worlds[n].calls[steps[n].id].phase.s, worlds[n].calls[steps[n].id].phase.decided;
            var over := s.start > 0 && s.duration > 0 && decided >= (s.start + s.duration + 600) * 1_000_000_000;
            if steps[m].at - steps[n].at <= (if over then 21_600_000_000_000 else 60_000_000_000)
            then RanksOut(worlds[m], steps[m]) == Some(Ranked(steps[n].action.ranks, s))
            else RanksOut(worlds[m], steps[m]) == None
  {
    var w, step, w' := worlds[n], steps[n], worlds[n + 1];
    assert Next(cs, lag, w, step, w') && Next(cs, lag, worlds[m], steps[m], worlds[m + 1]);
    var c := w.calls[step.id];
    TtlIs(c.phase.s, c.phase.decided);
    var e := w'.ranks[key];
    assert e == Entry(Ranked(step.action.ranks, c.phase.s), step.at + StandingsTtl(c.phase.s, c.phase.decided));
    if steps[m].at <= e.expiresAt {
      MapIsServed(cs, lag, worlds, steps, n, m, key);
    } else {
      OnlyThatEntry(cs, lag, worlds, steps, n, m, key);
    }
  }

  lemma {:induction false} OnlyThatEntry(cs: Casing, lag: nat, worlds: seq<World>, steps: seq<Step>, n: nat, m: nat, key: string)
    requires Run(cs, lag, worlds, steps) && n < m <= |steps| && StoresRanks(worlds[n], steps[n], key)
    requires forall k :: n < k < m ==> !StoresRanks(worlds[k], steps[k], key)
    ensures key in worlds[m].ranks ==> key in worlds[n + 1].ranks && worlds[m].ranks[key] == worlds[n + 1].ranks[key]
    decreases m
  {
    if n + 1 < m {
      OnlyThatEntry(cs, lag, worlds, steps, n, m - 1, key);
      assert Next(cs, lag, worlds[m - 1], steps[m - 1], worlds[m]);
    }
  }

  lemma StandingsStay(cs: Casing, lag: nat, w: World, step: Step, w': World, key: string, until: Instant)
    requires Next(cs, lag, w, step, w') && key in w.standings && w.standings[key].expiresAt >= until && step.at <= until
    requires StoresStandings(w, step, key) ==> step.at + MINUTE >= until
    ensures key in w'.standings && w'.standings[key].expiresAt >= until
  {
  }

  lemma StandingsStored(cs: Casing, lag: nat, w: World, step: Step, w': World, key: string)
    requires Next(cs, lag, w, step, w') && StoresStandings(w, step, key)
    ensures key in w'.standings && w'.standings[key].expiresAt >= step.at + MINUTE
  {
  }

  lemma StandingsLast(cs: Casing, lag: nat, worlds: seq<World>, steps: seq<Step>, n: nat, m: nat, key: string)
    requires Run(cs, lag, worlds, steps) && n < m <= |steps| && StoresStandings(worlds[n], steps[n], key)
    requires worlds[m].clock <= steps[n].at + MINUTE
    ensures key in worlds[m].standings && worlds[m].standings[key].expiresAt >= steps[n].at + MINUTE
  {
    var until := steps[n].at + MINUTE;
    var holds := (w: World) => w.clock >= steps[n].at && key in w.standings && w.standings[key].expiresAt >= until;
    ClockStep(cs, lag, worlds, steps, n);
    StandingsStored(cs, lag, worlds[n], steps[n], worlds[n + 1], key);
    forall k | n + 1 <= k < m
      ensures worlds[k].clock <= worlds[k + 1].clock
      ensures holds(worlds[k]) && worlds[k + 1].clock <= until ==> holds(worlds[k + 1])
    {
      ClockStep(cs, lag, worlds, steps, k);
      if holds(worlds[k]) && worlds[k + 1].clock <= until {
        StandingsStay(cs, lag, worlds[k], steps[k], worlds[k + 1], key, until);
      }
    }
    Persists(worlds, holds, n + 1, m, until);
  }

  /** For a minute after standings were stored, no call for the contest that looks them up asks codeforces.com. */
  lemma NobodyAsksForAMinute(cs: Casing, lag: nat, worlds: seq<World>, steps: seq<Step>, n: nat, m: nat, key: string)
    requires Run(cs, lag, worlds, steps) && n < m < |steps| && StoresStandings(worlds[n], steps[n], key)
    requires steps[m].action == InnerGet && steps[m].id in worlds[m].calls && worlds[m].calls[steps[m].id].key == key
    requires steps[m].at - steps[n].at <= 60_000_000_000
    ensures steps[m].id in worlds[m + 1].calls && worlds[m + 1].calls[steps[m].id].phase.Holding?
  {
    assert Next(cs, lag, worlds[m], steps[m], worlds[m + 1]);
    StandingsLast(cs, lag, worlds, steps, n, m, key);
  }

  /** The step writes metadata for `key`. */
  predicate StoresMeta(w: World, step: Step, key: string) {
    step.action.OuterStore? && step.id in w.calls && w.calls[step.id].outer == Meta && w.calls[step.id].key == key
  }

  lemma MetaStored(cs: Casing, lag: nat, w: World, step: Step, w': World, key: string)
    requires Next(cs, lag, w, step, w') && StoresMeta(w, step, key)
    ensures w.calls[step.id].phase.Closing?
    ensures key in w'.metas && w'.metas[key] == Entry(w.calls[step.id].phase.s, step.at + 21_600_000_000_000)
  {
  }

  lemma MetaStays(cs: Casing, lag: nat, w: World, step: Step, w': World, key: string)
    requires Next(cs, lag, w, step, w') && key in w.metas && step.at <= w.metas[key].expiresAt && !StoresMeta(w, step, key)
    ensures key in w'.metas && w'.metas[key] == w.metas[key]
  {
  }

  /** Stored metadata is handed out for six hours, until other metadata is stored. */
  lemma MetaIsServed(cs: Casing, lag: nat, worlds: seq<World>, steps: seq<Step>, n: nat, m: nat, key: string)
    requires Run(cs, lag, worlds, steps) && n < m < |steps| && StoresMeta(worlds[n], steps[n], key)
    requires forall k :: n < k < m ==> !StoresMeta(worlds[k], steps[k], key)
    requires steps[m].action == Begin(Meta, key) && steps[m].at - steps[n].at <= 21_600_000_000_000
    ensures worlds[n].calls[steps[n].id].phase.Closing?
    ensures MetaOut(worlds[m], steps[m]) == Some(worlds[n].calls[steps[n].id].phase.s)
  {
    assert Next(cs, lag, worlds[n], steps[n], worlds[n + 1]);
    MetaStored(cs, lag, worlds[n], steps[n], worlds[n + 1], key);
    ClockStep(cs, lag, worlds, steps, m);
    var e := worlds[n + 1].metas[key];
    var holds := (w: World) => key in w.metas && w.metas[key] == e;
    forall k | n + 1 <= k < m
      ensures worlds[k].clock <= worlds[k + 1].clock
      ensures holds(worlds[k]) && worlds[k + 1].clock <= e.expiresAt ==> holds(worlds[k + 1])
    {
      ClockStep(cs, lag, worlds, steps, k);
      if holds(worlds[k]) && worlds[k + 1].clock <= e.expiresAt {
        MetaStays(cs, lag, worlds[k], steps[k], worlds[k + 1], key);
      }
    }
    Persists(worlds, holds, n + 1, m, e.expiresAt);
  }
}
