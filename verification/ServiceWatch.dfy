/** The gateway's service watcher as interleaved steps: Add, the watch loop of each endpoint, lock-free
    cancellation and the cleanup goroutine.

    Steps that the code performs under the write lock are atomic. doCallback holds the read lock while it
    calls one applier after the other: its calls are separate steps, between which appliers may be cancelled
    and other endpoints may deliver, but nobody can add or delete. */
module ServiceWatch {
  import opened Model

  type Endpoint = string
  type Instances = seq<string>

  /** What an applier knows: its cancelled flag and, per endpoint, the last list it applied. */
  datatype Applier = Applier(canceled: bool, applied: map<Endpoint, Instances>)

  /** nodeApplier.Callback: a cancelled applier refuses, an empty list is ignored. */
  function Callback(a: Applier, e: Endpoint, list: Instances): Applier {
    if a.canceled || list == [] then a else a.(applied := a.applied[e := list])
  }

  /** Waiting: nothing pending. Received: Next returned a list. Cached: it is in the cache, doCallback has not
      begun. Delivering: doCallback still has to call `todo`. Stopped: the watch was cancelled. */
  datatype Loop = Waiting | Received(list: Instances) | Cached(list: Instances) | Delivering(list: Instances, todo: set<nat>) | Stopped

  datatype Watch = Watch(selected: Instances, loop: Loop)

  /** `regs[e]` maps registration ids to appliers. `missed` are registrations made while discovery refused to
      watch the endpoint and not reached by any delivery since. `doomed` is what cleanup is about to delete. */
  datatype State = State(
    watches: map<Endpoint, Watch>,
    regs: map<Endpoint, map<nat, nat>>,
    appliers: map<nat, Applier>,
    missed: map<Endpoint, set<nat>>,
    doomed: map<Endpoint, set<nat>>)

  function Regs(s: State, e: Endpoint): map<nat, nat> {
    if e in s.regs then s.regs[e] else map[]
  }

  function Missed(s: State, e: Endpoint): set<nat> {
    if e in s.missed then s.missed[e] else {}
  }

  function Doomed(s: State, e: Endpoint): set<nat> {
    if e in s.doomed then s.doomed[e] else {}
  }

  datatype Step =
    | AddKnown(e: Endpoint, id: nat, a: nat)                      // the endpoint is watched already
    | AddFirst(e: Endpoint, id: nat, a: nat, initial: Instances)  // first watch; empty after error or timeout
    | AddRefused(e: Endpoint, id: nat, a: nat)                    // discovery.Watch failed
    | Receive(e: Endpoint, list: Instances)
    | Stop(e: Endpoint)
    | SetCache(e: Endpoint)
    | BeginCallbacks(e: Endpoint)
    | CallOne(e: Endpoint, id: nat)
    | EndCallbacks(e: Endpoint)
    | Create(a: nat)
    | Cancel(a: nat)
    | Scan(e: Endpoint, found: set<nat>)
    | Sweep(e: Endpoint)

  /** No endpoint is inside doCallback, so the write lock can be had. */
  ghost predicate Unlocked(s: State) {
    forall e :: e in s.watches ==> !s.watches[e].loop.Delivering?
  }

  /** Registration ids are random and never reused. */
  ghost predicate Fresh(s: State, e: Endpoint, id: nat) {
    id !in Regs(s, e) && id !in Missed(s, e) && id !in Doomed(s, e)
  }

  function Register(s: State, e: Endpoint, id: nat, a: nat): State {
    s.(regs := s.regs[e := Regs(s, e)[id := a]])
  }

  function Call(s: State, a: nat, e: Endpoint, list: Instances): State
    requires a in s.appliers
  {
    s.(appliers := s.appliers[a := Callback(s.appliers[a], e, list)])
  }

  function SetLoop(s: State, e: Endpoint, l: Loop): State
    requires e in s.watches
  {
    s.(watches := s.watches[e := s.watches[e].(loop := l)])
  }

  ghost predicate Enabled(s: State, step: Step) {
    match step
    case AddKnown(e, id, a) => Unlocked(s) && e in s.watches && Fresh(s, e, id) && a in s.appliers
    case AddFirst(e, id, a, initial) => Unlocked(s) && e !in s.watches && Fresh(s, e, id) && a in s.appliers
    case AddRefused(e, id, a) => Unlocked(s) && e !in s.watches && Fresh(s, e, id) && a in s.appliers
    case Receive(e, list) => e in s.watches && s.watches[e].loop == Waiting && list != []
    case Stop(e) => e in s.watches && s.watches[e].loop == Waiting
    case SetCache(e) => Unlocked(s) && e in s.watches && s.watches[e].loop.Received?
    case BeginCallbacks(e) => e in s.watches && s.watches[e].loop.Cached?
    case CallOne(e, id) =>
      e in s.watches && s.watches[e].loop.Delivering? && id in s.watches[e].loop.todo && id in Regs(s, e) &&
      Regs(s, e)[id] in s.appliers
    case EndCallbacks(e) => e in s.watches && s.watches[e].loop.Delivering? && s.watches[e].loop.todo == {}
    case Create(a) => a !in s.appliers
    case Cancel(a) => a in s.appliers
    case Scan(e, found) => forall id :: id in found ==> id in Regs(s, e) && Regs(s, e)[id] in s.appliers && s.appliers[Regs(s, e)[id]].canceled
    case Sweep(e) => Unlocked(s) && e in s.regs
  }

  function After(s: State, step: Step): State
    requires Enabled(s, step)
  {
    match step
    case AddKnown(e, id, a) => Register(Call(s, a, e, s.watches[e].selected), e, id, a)
    case AddFirst(e, id, a, initial) =>
      Register(Call(s.(watches := s.watches[e := Watch(initial, Waiting)]), a, e, initial), e, id, a)
    case AddRefused(e, id, a) => Register(s, e, id, a).(missed := s.missed[e := Missed(s, e) + {id}])
    case Receive(e, list) => SetLoop(s, e, Received(list))
    case Stop(e) => SetLoop(s, e, Stopped)
    case SetCache(e) =>
      var list := s.watches[e].loop.list;
      s.(watches := s.watches[e := Watch(list, Cached(list))])
    case BeginCallbacks(e) => SetLoop(s, e, Delivering(s.watches[e].loop.list, Regs(s, e).Keys))
    case CallOne(e, id) =>
      var l := s.watches[e].loop;
      SetLoop(Call(s, Regs(s, e)[id], e, l.list), e, l.(todo := l.todo - {id})).(missed := s.missed[e := Missed(s, e) - {id}])
    case EndCallbacks(e) => SetLoop(s, e, Waiting)
    case Create(a) => s.(appliers := s.appliers[a := Applier(false, map[])])
    case Cancel(a) => s.(appliers := s.appliers[a := s.appliers[a].(canceled := true)])
    case Scan(e, found) => s.(doomed := s.doomed[e := found])
    case Sweep(e) => s.(regs := s.regs[e := Regs(s, e) - Doomed(s, e)], doomed := s.doomed[e := {}])
  }

  // ---------------------------------------------------------------- invariant

  /** Applier `a` is cancelled, or the list it applied last for `e` is `list`. */
  ghost predicate UpToDate(s: State, e: Endpoint, a: nat, list: Instances) {
    a in s.appliers && (s.appliers[a].canceled || list == [] || (e in s.appliers[a].applied && s.appliers[a].applied[e] == list))
  }

  /** What holds of endpoint `e` in each phase of its loop. */
  ghost predicate EndpointOk(s: State, e: Endpoint) {
    && (forall id :: id in Regs(s, e) ==> Regs(s, e)[id] in s.appliers)
    && (forall id :: id in Doomed(s, e) && id in Regs(s, e) ==> s.appliers[Regs(s, e)[id]].canceled)
    && (e !in s.watches ==> Regs(s, e).Keys <= Missed(s, e))
    && (e in s.watches ==>
         var w := s.watches[e];
         match w.loop
         case Waiting => Agreed(s, e, {})
         case Stopped => Agreed(s, e, {})
         case Received(list) => list != [] && Agreed(s, e, {})
         case Cached(list) => list != [] && w.selected == list
         case Delivering(list, todo) => list != [] && w.selected == list && todo <= Regs(s, e).Keys && Agreed(s, e, todo))
  }

  /** Every registration of `e`, except `todo` and those that missed the first delivery, is up to date. */
  ghost predicate Agreed(s: State, e: Endpoint, todo: set<nat>)
    requires e in s.watches
  {
    forall id :: id in Regs(s, e) && id !in todo && id !in Missed(s, e) ==> UpToDate(s, e, Regs(s, e)[id], s.watches[e].selected)
  }

  ghost predicate Inv(s: State) {
    forall e :: EndpointOk(s, e)
  }

  const INITIAL := State(map[], map[], map[], map[], map[])

  /** As far as endpoint `f` is concerned, appliers stay or become cancelled. */
  ghost predicate KeptFor(s: State, s': State, f: Endpoint) {
    forall a :: a in s.appliers ==>
      && a in s'.appliers
      && (s.appliers[a].canceled ==> s'.appliers[a].canceled)
      && (s'.appliers[a].canceled || (f in s.appliers[a].applied ==>
            f in s'.appliers[a].applied && s'.appliers[a].applied[f] == s.appliers[a].applied[f]))
  }

  lemma EndpointKept(s: State, s': State, f: Endpoint)
    requires EndpointOk(s, f) && KeptFor(s, s', f)
    requires Regs(s', f) == Regs(s, f) && Missed(s', f) == Missed(s, f) && Doomed(s', f) == Doomed(s, f)
    requires (f in s'.watches <==> f in s.watches) && (f in s.watches ==> s'.watches[f] == s.watches[f])
    ensures EndpointOk(s', f)
  {
  }

  /** The endpoint a step belongs to, if any. */
  function Subject(step: Step): Option<Endpoint> {
    match step
    case AddKnown(e, _, _) => Some(e)
    case AddFirst(e, _, _, _) => Some(e)
    case AddRefused(e, _, _) => Some(e)
    case Receive(e, _) => Some(e)
    case Stop(e) => Some(e)
    case SetCache(e) => Some(e)
    case BeginCallbacks(e) => Some(e)
    case CallOne(e, _) => Some(e)
    case EndCallbacks(e) => Some(e)
    case Create(_) => None
    case Cancel(_) => None
    case Scan(e, _) => Some(e)
    case Sweep(e) => Some(e)
  }

  lemma OthersKeepTheirData(s: State, step: Step, f: Endpoint)
    requires Enabled(s, step) && Subject(step) != Some(f)
    ensures var s' := After(s, step);
            && Regs(s', f) == Regs(s, f) && Missed(s', f) == Missed(s, f) && Doomed(s', f) == Doomed(s, f)
            && (f in s'.watches <==> f in s.watches) && (f in s.watches ==> s'.watches[f] == s.watches[f])
  {
  }

  lemma OthersKeepTheirAppliers(s: State, step: Step, f: Endpoint)
    requires Enabled(s, step) && Subject(step) != Some(f)
    ensures KeptFor(s, After(s, step), f)
  {
  }

  lemma OtherEndpoints(s: State, step: Step, f: Endpoint)
    requires Enabled(s, step) && EndpointOk(s, f) && Subject(step) != Some(f)
    ensures EndpointOk(After(s, step), f)
  {
    OthersKeepTheirData(s, step, f);
    OthersKeepTheirAppliers(s, step, f);
    EndpointKept(s, After(s, step), f);
  }

  // ---------------------------------------------------------------- one lemma per kind of step

  lemma AddKnownOk(s: State, e: Endpoint, id: nat, a: nat)
    requires Enabled(s, AddKnown(e, id, a)) && EndpointOk(s, e)
    ensures EndpointOk(After(s, AddKnown(e, id, a)), e)
  {
  }

  lemma AddFirstOk(s: State, e: Endpoint, id: nat, a: nat, initial: Instances)
    requires Enabled(s, AddFirst(e, id, a, initial)) && EndpointOk(s, e)
    ensures EndpointOk(After(s, AddFirst(e, id, a, initial)), e)
  {
  }

  lemma AddRefusedOk(s: State, e: Endpoint, id: nat, a: nat)
    requires Enabled(s, AddRefused(e, id, a)) && EndpointOk(s, e)
    ensures EndpointOk(After(s, AddRefused(e, id, a)), e)
  {
  }

  /** Receive, Stop, SetCache, BeginCallbacks and EndCallbacks only move the loop. */
  lemma LoopOk(s: State, step: Step)
    requires step.Receive? || step.Stop? || step.SetCache? || step.BeginCallbacks? || step.EndCallbacks?
    requires Enabled(s, step) && EndpointOk(s, step.e)
    ensures EndpointOk(After(s, step), step.e)
  {
  }

  lemma CallOneOk(s: State, e: Endpoint, id: nat)
    requires Enabled(s, CallOne(e, id)) && EndpointOk(s, e)
    ensures EndpointOk(After(s, CallOne(e, id)), e)
  {
  }

  lemma CleanupOk(s: State, step: Step)
    requires step.Scan? || step.Sweep?
    requires Enabled(s, step) && EndpointOk(s, step.e)
    ensures EndpointOk(After(s, step), step.e)
  {
  }

  lemma OwnEndpoint(s: State, step: Step)
    requires Enabled(s, step) && Subject(step).Some? && EndpointOk(s, Subject(step).value)
    ensures EndpointOk(After(s, step), Subject(step).value)
  {
    match step
    case AddKnown(e, id, a) => AddKnownOk(s, e, id, a);
    case AddFirst(e, id, a, initial) => AddFirstOk(s, e, id, a, initial);
    case AddRefused(e, id, a) => AddRefusedOk(s, e, id, a);
    case CallOne(e, id) => CallOneOk(s, e, id);
    case Scan(e, found) => CleanupOk(s, step);
    case Sweep(e) => CleanupOk(s, step);
    case _ => LoopOk(s, step);
  }

  lemma StepKeepsInv(s: State, step: Step)
    requires Inv(s) && Enabled(s, step)
    ensures Inv(After(s, step))
  {
    forall f
      ensures EndpointOk(After(s, step), f)
    {
      if Subject(step) == Some(f) {
        OwnEndpoint(s, step);
      } else {
        OtherEndpoints(s, step, f);
      }
    }
  }

  // ---------------------------------------------------------------- whole runs

  ghost predicate Run(states: seq<State>, steps: seq<Step>) {
    && |states| == |steps| + 1
    && states[0] == INITIAL
    && forall n :: 0 <= n < |steps| ==> Enabled(states[n], steps[n]) && states[n + 1] == After(states[n], steps[n])
  }

  lemma {:induction false} RunKeepsInv(states: seq<State>, steps: seq<Step>, n: nat)
    requires Run(states, steps) && n <= |steps|
    ensures Inv(states[n])
  {
    if n > 0 {
      RunKeepsInv(states, steps, n - 1);
      StepKeepsInv(states[n - 1], steps[n - 1]);
    }
  }

  // ---------------------------------------------------------------- what discovery said

  /** The list discovery announced last for `e` in the first `n` steps: the initial one or a later one. */
  function Announced(steps: seq<Step>, n: nat, e: Endpoint): Instances
    requires n <= |steps|
  {
    if n == 0 then []
    else match steps[n - 1]
         case AddFirst(f, _, _, initial) => if f == e then initial else Announced(steps, n - 1, e)
         case Receive(f, list) => if f == e then list else Announced(steps, n - 1, e)
         case _ => Announced(steps, n - 1, e)
  }

  /** The loop works on the announced list, and the cache holds it once the loop is idle. */
  ghost predicate Follows(s: State, e: Endpoint, list: Instances) {
    if e !in s.watches then list == []
    else match s.watches[e].loop
         case Waiting => s.watches[e].selected == list
         case Stopped => s.watches[e].selected == list
         case Received(l) => l == list
         case Cached(l) => l == list && s.watches[e].selected == list
         case Delivering(l, _) => l == list && s.watches[e].selected == list
  }

  lemma StepFollows(s: State, step: Step, e: Endpoint, list: Instances)
    requires Enabled(s, step) && Follows(s, e, list)
    ensures var list' := match step
                         case AddFirst(f, _, _, initial) => if f == e then initial else list
                         case Receive(f, l) => if f == e then l else list
                         case _ => list;
            Follows(After(s, step), e, list')
  {
    if Subject(step) != Some(e) {
      OthersKeepTheirData(s, step, e);
    }
  }

  lemma {:induction false} CacheFollowsDiscovery(states: seq<State>, steps: seq<Step>, n: nat, e: Endpoint)
    requires Run(states, steps) && n <= |steps|
    ensures Follows(states[n], e, Announced(steps, n, e))
  {
    if n > 0 {
      CacheFollowsDiscovery(states, steps, n - 1, e);
      StepFollows(states[n - 1], steps[n - 1], e, Announced(steps, n - 1, e));
    }
  }

  /** Agreement: in every interleaving, when an endpoint's loop has no cached but undelivered update, each of
      its uncancelled appliers last applied exactly the cached list (if there is one), unless it was
      registered while discovery refused the watch and no delivery reached it since. When the loop is idle,
      that list is the one discovery announced last. */
  lemma Agreement(states: seq<State>, steps: seq<Step>, n: nat, e: Endpoint, id: nat)
    requires Run(states, steps) && n <= |steps| && e in states[n].watches
    requires !states[n].watches[e].loop.Cached? && !states[n].watches[e].loop.Delivering?
    requires id in Regs(states[n], e) && id !in Missed(states[n], e)
    ensures var a, list := Regs(states[n], e)[id], states[n].watches[e].selected;
            a in states[n].appliers &&
            (!states[n].appliers[a].canceled && list != [] ==>
               e in states[n].appliers[a].applied && states[n].appliers[a].applied[e] == list)
    ensures !states[n].watches[e].loop.Received? ==> states[n].watches[e].selected == Announced(steps, n, e)
  {
    RunKeepsInv(states, steps, n);
    CacheFollowsDiscovery(states, steps, n, e);
    assert EndpointOk(states[n], e);
    assert UpToDate(states[n], e, Regs(states[n], e)[id], states[n].watches[e].selected);
  }

  // ---------------------------------------------------------------- in terms of the steps alone

  ghost predicate Adds(step: Step, e: Endpoint, id: nat, a: nat) {
    || step == AddKnown(e, id, a)
    || (step.AddFirst? && step.e == e && step.id == id && step.a == a)
    || step == AddRefused(e, id, a)
  }

  ghost predicate NeverCancelled(steps: seq<Step>, n: nat, a: nat)
    requires n <= |steps|
  {
    forall k :: 0 <= k < n ==> steps[k] != Cancel(a)
  }

  lemma StepKeepsUncancelled(s: State, step: Step, a: nat)
    requires Enabled(s, step) && a in s.appliers && !s.appliers[a].canceled && step != Cancel(a)
    ensures a in After(s, step).appliers && !After(s, step).appliers[a].canceled
  {
  }

  lemma {:induction false} CreatedUncancelled(states: seq<State>, steps: seq<Step>, n: nat, a: nat)
    requires Run(states, steps) && n <= |steps| && NeverCancelled(steps, n, a) && a in states[n].appliers
    ensures !states[n].appliers[a].canceled
  {
    assert n > 0;
    assert Enabled(states[n - 1], steps[n - 1]) && states[n] == After(states[n - 1], steps[n - 1]);
    if a in states[n - 1].appliers {
      CreatedUncancelled(states, steps, n - 1, a);
      StepKeepsUncancelled(states[n - 1], steps[n - 1], a);
    }
  }

  lemma AddIsRecorded(s: State, step: Step, e: Endpoint, id: nat, a: nat)
    requires Enabled(s, step) && Adds(step, e, id, a)
    ensures var s' := After(s, step);
            && a in s'.appliers && id in Regs(s', e) && Regs(s', e)[id] == a
            && (id in Missed(s', e) <==> step.AddRefused?)
  {
  }

  /** `id` stands for the uncancelled applier `a`. */
  ghost predicate Registered(s: State, e: Endpoint, id: nat, a: nat) {
    a in s.appliers && !s.appliers[a].canceled && id in Regs(s, e) && Regs(s, e)[id] == a
  }

  lemma StepKeepsRegistered(s: State, step: Step, e: Endpoint, id: nat, a: nat)
    requires Inv(s) && Enabled(s, step) && Registered(s, e, id, a) && step != Cancel(a)
    ensures Registered(After(s, step), e, id, a)
  {
    StepKeepsUncancelled(s, step, a);
    OnlyCancelledAreDropped(s, step, e, id);
  }

  lemma AddRegisters(states: seq<State>, steps: seq<Step>, m: nat, e: Endpoint, id: nat, a: nat)
    requires Run(states, steps) && m < |steps| && Adds(steps[m], e, id, a) && NeverCancelled(steps, m + 1, a)
    ensures Registered(states[m + 1], e, id, a)
    ensures id in Missed(states[m + 1], e) <==> steps[m].AddRefused?
  {
    AddIsRecorded(states[m], steps[m], e, id, a);
    CreatedUncancelled(states, steps, m + 1, a);
  }

  /** Once added, a registration stays as long as its applier is not cancelled. */
  lemma {:induction false} StaysRegistered(states: seq<State>, steps: seq<Step>, m: nat, n: nat, e: Endpoint, id: nat, a: nat)
    requires Run(states, steps) && m < n <= |steps| && Adds(steps[m], e, id, a) && NeverCancelled(steps, n, a)
    ensures Registered(states[n], e, id, a)
    decreases n
  {
    if m == n - 1 {
      AddRegisters(states, steps, m, e, id, a);
    } else {
      StaysRegistered(states, steps, m, n - 1, e, id, a);
      RunKeepsInv(states, steps, n - 1);
      StepKeepsRegistered(states[n - 1], steps[n - 1], e, id, a);
    }
  }

  lemma MissedOnlyGrowsByRefusal(s: State, step: Step, e: Endpoint, id: nat)
    requires Enabled(s, step) && id in Regs(s, e) && id !in Missed(s, e)
    ensures id !in Missed(After(s, step), e)
  {
  }

  lemma EndedDeliveryMissesNobody(states: seq<State>, steps: seq<Step>, n: nat, e: Endpoint, id: nat)
    requires Run(states, steps) && n < |steps| && steps[n] == EndCallbacks(e) && id in Regs(states[n], e)
    ensures id !in Missed(states[n + 1], e)
  {
    assert Enabled(states[n], steps[n]);
    DeliveryReachesAll(states, steps, n, e);
    var missed, registered := Missed(states[n], e), Regs(states[n], e).Keys;
    assert id !in missed * registered;
  }

  /** A registration has missed nothing if discovery did not refuse it, or a delivery has ended since. */
  lemma {:induction false} NothingMissed(states: seq<State>, steps: seq<Step>, m: nat, n: nat, e: Endpoint, id: nat, a: nat)
    requires Run(states, steps) && m < n <= |steps| && Adds(steps[m], e, id, a) && NeverCancelled(steps, n, a)
    requires !steps[m].AddRefused? || exists k :: m < k < n && steps[k] == EndCallbacks(e)
    ensures id !in Missed(states[n], e)
    decreases n
  {
    if m == n - 1 {
      AddRegisters(states, steps, m, e, id, a);
    } else {
      StaysRegistered(states, steps, m, n - 1, e, id, a);
      if steps[n - 1] == EndCallbacks(e) {
        EndedDeliveryMissesNobody(states, steps, n - 1, e, id);
      } else {
        NothingMissed(states, steps, m, n - 1, e, id, a);
        MissedOnlyGrowsByRefusal(states[n - 1], steps[n - 1], e, id);
      }
    }
  }

  /** The whole watcher in terms of what happened: an applier that was added for an endpoint and never
      cancelled has last applied the list discovery announced last, whenever the endpoint's loop is idle,
      unless discovery refused the watch when it was added and no delivery has ended since. */
  lemma AppliersFollowDiscovery(states: seq<State>, steps: seq<Step>, m: nat, n: nat, e: Endpoint, id: nat, a: nat)
    requires Run(states, steps) && m < n <= |steps| && Adds(steps[m], e, id, a) && NeverCancelled(steps, n, a)
    requires !steps[m].AddRefused? || exists k :: m < k < n && steps[k] == EndCallbacks(e)
    requires e in states[n].watches && (states[n].watches[e].loop == Waiting || states[n].watches[e].loop == Stopped)
    ensures a in states[n].appliers
    ensures Announced(steps, n, e) != [] ==>
              e in states[n].appliers[a].applied && states[n].appliers[a].applied[e] == Announced(steps, n, e)
  {
    StaysRegistered(states, steps, m, n, e, id, a);
    NothingMissed(states, steps, m, n, e, id, a);
    Agreement(states, steps, n, e, id);
  }

  /** The exception is real: an applier that discovery refused does not learn the initial list that the next
      one to register brings in. */
  lemma RefusedIsLeftBehind(e: Endpoint) returns (states: seq<State>, steps: seq<Step>)
    ensures Run(states, steps) && steps == [Create(0), Create(1), AddRefused(e, 0, 0), AddFirst(e, 1, 1, ["10.0.0.1"])]
    ensures e in states[4].watches && states[4].watches[e].loop == Waiting && Announced(steps, 4, e) == ["10.0.0.1"]
    ensures 0 in states[4].appliers && !states[4].appliers[0].canceled && e !in states[4].appliers[0].applied
  {
    steps := [Create(0), Create(1), AddRefused(e, 0, 0), AddFirst(e, 1, 1, ["10.0.0.1"])];
    var s1 := After(INITIAL, steps[0]);
    var s2 := After(s1, steps[1]);
    var s3 := After(s2, steps[2]);
    states := [INITIAL, s1, s2, s3, After(s3, steps[3])];
  }

  // ---------------------------------------------------------------- progress

  /** `s'` is reached from `s` by steps of the loop of `e` only. */
  ghost predicate Reaches(s: State, steps: seq<Step>, s': State, e: Endpoint)
    decreases steps
  {
    if steps == [] then s' == s
    else Subject(steps[0]) == Some(e) && Enabled(s, steps[0]) && Reaches(After(s, steps[0]), steps[1..], s', e)
  }

  /** Whoever is registered for `e` and not cancelled has applied `list`. */
  ghost predicate AllHave(s: State, e: Endpoint, list: Instances) {
    forall id :: id in Regs(s, e) ==> Has(s, e, Regs(s, e)[id], list)
  }

  ghost predicate Has(s: State, e: Endpoint, a: nat, list: Instances) {
    a in s.appliers && (s.appliers[a].canceled || (e in s.appliers[a].applied && s.appliers[a].applied[e] == list))
  }

  lemma DeliveryDone(s: State, e: Endpoint)
    requires EndpointOk(s, e) && e in s.watches && s.watches[e].loop.Delivering? && s.watches[e].loop.todo == {}
    requires Missed(s, e) * Regs(s, e).Keys <= {}
    ensures AllHave(After(s, EndCallbacks(e)), e, s.watches[e].loop.list)
  {
    forall id | id in Regs(s, e)
      ensures Has(s, e, Regs(s, e)[id], s.watches[e].loop.list)
    {
      assert id !in Missed(s, e);
      assert UpToDate(s, e, Regs(s, e)[id], s.watches[e].selected);
    }
  }

  lemma CalledOne(s: State, e: Endpoint, id: nat)
    requires EndpointOk(s, e) && Enabled(s, CallOne(e, id))
    requires Missed(s, e) * Regs(s, e).Keys <= s.watches[e].loop.todo
    ensures var s', l := After(s, CallOne(e, id)), s.watches[e].loop;
            && EndpointOk(s', e) && e in s'.watches && s'.watches[e].loop == Delivering(l.list, l.todo - {id})
            && Missed(s', e) * Regs(s', e).Keys <= l.todo - {id}
  {
    CallOneOk(s, e, id);
    var s' := After(s, CallOne(e, id));
    assert Missed(s', e) == Missed(s, e) - {id} && Regs(s', e) == Regs(s, e);
  }

  /** A begun delivery can be completed, and then has reached everybody, late registrations included. */
  lemma {:induction false} DeliveryCanEnd(s: State, e: Endpoint) returns (steps: seq<Step>, s': State)
    requires EndpointOk(s, e) && e in s.watches && s.watches[e].loop.Delivering?
    requires Missed(s, e) * Regs(s, e).Keys <= s.watches[e].loop.todo
    ensures Reaches(s, steps, s', e) && e in s'.watches && s'.watches[e] == Watch(s.watches[e].loop.list, Waiting)
    ensures AllHave(s', e, s.watches[e].loop.list)
    decreases |s.watches[e].loop.todo|
  {
    var todo := s.watches[e].loop.todo;
    if todo == {} {
      DeliveryDone(s, e);
      s' := After(s, EndCallbacks(e));
      steps := [EndCallbacks(e)];
      assert Reaches(s', steps[1..], s', e);
    } else {
      var id :| id in todo;
      CalledOne(s, e, id);
      var rest;
      rest, s' := DeliveryCanEnd(After(s, CallOne(e, id)), e);
      steps := [CallOne(e, id)] + rest;
      assert steps[1..] == rest;
    }
  }

  /** A received list can always be cached and delivered as soon as no other delivery holds the lock: then the
      cache and every uncancelled applier of the endpoint have it. */
  lemma ReceivedIsDeliverable(s: State, e: Endpoint) returns (steps: seq<Step>, s': State)
    requires Inv(s) && Unlocked(s) && e in s.watches && s.watches[e].loop.Received?
    ensures Reaches(s, steps, s', e) && e in s'.watches && s'.watches[e] == Watch(s.watches[e].loop.list, Waiting)
    ensures AllHave(s', e, s.watches[e].loop.list)
  {
    assert EndpointOk(s, e);
    var cached := After(s, SetCache(e));
    LoopOk(s, SetCache(e));
    var begun := After(cached, BeginCallbacks(e));
    LoopOk(cached, BeginCallbacks(e));
    var rest;
    rest, s' := DeliveryCanEnd(begun, e);
    steps := [SetCache(e), BeginCallbacks(e)] + rest;
    assert steps[1..] == [BeginCallbacks(e)] + rest && steps[1..][1..] == rest;
    assert Reaches(begun, rest, s', e) && Reaches(cached, steps[1..], s', e);
  }

  /** What a scan found is gone after the sweep, and nothing else is. */
  lemma SweepRemoves(s: State, e: Endpoint, found: set<nat>, id: nat)
    requires Unlocked(s) && e in s.regs && Enabled(s, Scan(e, found))
    ensures var scanned := After(s, Scan(e, found));
            Enabled(scanned, Sweep(e)) && (id in Regs(After(scanned, Sweep(e)), e) <==> id in Regs(s, e) && id !in found)
  {
  }

  /** A cancelled applier applies nothing any more. */
  lemma CancelledStaysPut(s: State, step: Step, a: nat)
    requires Enabled(s, step) && a in s.appliers && s.appliers[a].canceled
    ensures a in After(s, step).appliers && After(s, step).appliers[a] == s.appliers[a]
  {
  }

  // ---------------------------------------------------------------- the steps of a delivery

  /** A delivery leaves nobody out: when doCallback returns, even late registrations are up to date. */
  lemma {:induction false} DeliveryReachesAll(states: seq<State>, steps: seq<Step>, n: nat, e: Endpoint)
    requires Run(states, steps) && n <= |steps| && e in states[n].watches && states[n].watches[e].loop.Delivering?
    ensures Missed(states[n], e) * Regs(states[n], e).Keys <= states[n].watches[e].loop.todo
  {
    assert n > 0;
    var s, step, s' := states[n - 1], steps[n - 1], states[n];
    assert s' == After(s, step) && Enabled(s, step);
    if e in s.watches && s.watches[e].loop.Delivering? {
      DeliveryReachesAll(states, steps, n - 1, e);
      if step.CallOne? && step.e == e {
        assert Missed(s', e) == Missed(s, e) - {step.id} && Regs(s', e) == Regs(s, e);
      } else {
        assert Missed(s', e) == Missed(s, e) && forall id :: id in Regs(s', e) ==> id in Regs(s, e);
      }
    }
  }

  /** A non-empty cache never becomes empty, and a watched endpoint stays watched. */
  lemma CacheNeverEmpties(s: State, step: Step, e: Endpoint)
    requires Inv(s) && Enabled(s, step) && e in s.watches
    ensures e in After(s, step).watches
    ensures s.watches[e].selected != [] ==> After(s, step).watches[e].selected != []
  {
    assert EndpointOk(s, e);
  }

  /** Cleanup deletes only registrations of cancelled appliers, and nothing else deletes any. */
  lemma OnlyCancelledAreDropped(s: State, step: Step, e: Endpoint, id: nat)
    requires Inv(s) && Enabled(s, step) && id in Regs(s, e) && Regs(s, e)[id] in s.appliers
    requires !s.appliers[Regs(s, e)[id]].canceled
    ensures id in Regs(After(s, step), e) && Regs(After(s, step), e)[id] == Regs(s, e)[id]
  {
    assert EndpointOk(s, e);
  }

  lemma {:induction false} OverRuns(states: seq<State>, steps: seq<Step>, n: nat, m: nat, e: Endpoint)
    requires Run(states, steps) && n <= m <= |steps| && e in states[n].watches && states[n].watches[e].selected != []
    ensures e in states[m].watches && states[m].watches[e].selected != []
    decreases m
  {
    if n < m {
      OverRuns(states, steps, n, m - 1, e);
      RunKeepsInv(states, steps, m - 1);
      CacheNeverEmpties(states[m - 1], steps[m - 1], e);
    }
  }
}
