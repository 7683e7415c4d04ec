/** Who closes the backend clients of the gateway across configuration reloads. Clients are numbered in the
    order in which the factory returns them. */
module ClientOwnership {

  /** How building one endpoint ends: the factory fails; the middleware or the retry strategy fails after a
      client exists; the router refuses the route; or all is well. */
  datatype Endpoint = FactoryFails | BuildFails | RouteFails | Built

  /** `installed` are the closers of the current router, `retired` those of the replaced routers whose
      SyncClose has not run yet, `closed` lists every Close call in order. */
  datatype State = State(next: nat, installed: seq<nat>, retired: seq<seq<nat>>, closed: seq<nat>)

  const START := State(0, [], [], [])

  // ---------------------------------------------------------------- what the operations amount to

  /** The number of endpoints that succeed before the first failure. */
  function Sound(eps: seq<Endpoint>): (n: nat)
    ensures n <= |eps|
    ensures forall i :: 0 <= i < n ==> eps[i].Built?
    ensures n < |eps| ==> !eps[n].Built?
  {
    if eps == [] || !eps[0].Built? then 0 else 1 + Sound(eps[1..])
  }

  /** Clients that a failing update creates. */
  function Created(eps: seq<Endpoint>): nat {
    var n := Sound(eps);
    if n < |eps| && !eps[n].FactoryFails? then n + 1 else n
  }

  function Up(from: nat, n: nat): seq<nat> {
    if n == 0 then [] else Up(from, n - 1) + [from + n - 1]
  }

  /** The same clients, last first: the order of deferred calls. */
  function Down(from: nat, n: nat): seq<nat> {
    if n == 0 then [] else [from + n - 1] + Down(from, n - 1)
  }

  function AfterUpdate(s: State, eps: seq<Endpoint>): State {
    if Sound(eps) == |eps|
    then State(s.next + |eps|, Up(s.next, |eps|), s.retired + [s.installed], s.closed)
    else State(s.next + Created(eps), s.installed, s.retired, s.closed + Down(s.next, Created(eps)))
  }

  function AfterSyncClose(s: State, i: nat): State
    requires i < |s.retired|
  {
    s.(retired := s.retired[..i] + s.retired[i + 1..], closed := s.closed + s.retired[i])
  }

  // ---------------------------------------------------------------- the code

  class Proxy {
    var next: nat
    var installed: seq<nat>
    var retired: seq<seq<nat>>
    var closed: seq<nat>

    ghost function View(): State
      reads this
    {
      State(next, installed, retired, closed)
    }

    constructor ()
      ensures View() == START
    {
      next, installed, retired, closed := 0, [], [], [];
    }

    /** Deferred closeOnError calls run last in, first out. */
    method RunDeferred(deferred: seq<nat>, ghost from: nat)
      requires deferred == Up(from, |deferred|)
      modifies this`closed
      ensures closed == old(closed) + Down(from, |deferred|)
    {
      var i: nat := |deferred|;
      while i > 0
        invariant i <= |deferred|
        invariant closed + Down(from, i) == old(closed) + Down(from, |deferred|)
      {
        i := i - 1;
        UpAt(from, |deferred|, i);
        assert closed + Down(from, i + 1) == (closed + [deferred[i]]) + Down(from, i);
        closed := closed + [deferred[i]];
      }
      assert closed + Down(from, 0) == closed;
    }

    /** The loop of Update: builds the endpoints of the new router, or closes again what was built. */
    method BuildRouter(eps: seq<Endpoint>) returns (ok: bool, router: seq<nat>)
      modifies this`next, this`closed
      ensures ok <==> Sound(eps) == |eps|
      ensures ok ==> router == Up(old(next), |eps|) && next == old(next) + |eps| && closed == old(closed)
      ensures !ok ==> next == old(next) + Created(eps) && closed == old(closed) + Down(old(next), Created(eps))
    {
      router := [];
      var deferred: seq<nat> := [];
      ghost var start := next;
      for i := 0 to |eps|
        invariant router == deferred == Up(start, i) && |deferred| == i && next == start + i
        invariant closed == old(closed)
        invariant forall j :: 0 <= j < i ==> eps[j].Built?
      {
        match eps[i] {
          case FactoryFails =>
            SoundIs(eps, i);
            RunDeferred(deferred, start);
            return false, router;
          case BuildFails =>
            SoundIs(eps, i);
            var client := next;
            next := next + 1;
            closed := closed + [client];
            RunDeferred(deferred, start);
            assert closed == old(closed) + ([client] + Down(start, i));
            return false, router;
          case RouteFails =>
            SoundIs(eps, i);
            var client := next;
            next := next + 1;
            deferred := deferred + [client];
            RunDeferred(deferred, start);
            return false, router;
          case Built =>
            var client := next;
            next := next + 1;
            deferred := deferred + [client];
            router := router + [client];
        }
      }
      SoundIs(eps, |eps|);
      return true, router;
    }

    method Update(eps: seq<Endpoint>) returns (ok: bool)
      modifies this
      ensures View() == AfterUpdate(old(View()), eps)
      ensures ok <==> forall i :: 0 <= i < |eps| ==> eps[i] == Built
      ensures Reloaded(old(View()), ok, |eps|, View())
    {
      UpdateMeans(View(), eps);
      var router;
      ok, router := BuildRouter(eps);
      if !ok {
        return false;
      }
      var replaced := installed;
      installed := router;
      retired := retired + [replaced];
    }

    /** SyncClose of a replaced router, run in the background once for each of them. */
    method SyncClose(i: nat)
      requires i < |retired|
      modifies this`closed, this`retired
      ensures View() == AfterSyncClose(old(View()), i)
    {
      var closers := retired[i];
      for j := 0 to |closers|
        invariant closed == old(closed) + closers[..j] && retired == old(retired)
      {
        assert closers[..j + 1] == closers[..j] + [closers[j]];
        closed := closed + [closers[j]];
      }
      assert closers[..|closers|] == closers;
      retired := retired[..i] + retired[i + 1..];
    }
  }

  lemma {:induction false} UpAt(from: nat, n: nat, i: nat)
    requires i < n
    ensures |Up(from, n)| == n && Up(from, n)[i] == from + i
  {
    if n > 1 {
      UpAt(from, n - 1, if i < n - 1 then i else 0);
    }
  }

  lemma {:induction false} DownAt(from: nat, n: nat, i: nat)
    requires i < n
    ensures |Down(from, n)| == n && Down(from, n)[i] == from + n - 1 - i
  {
    if n > 1 {
      DownAt(from, n - 1, if i > 0 then i - 1 else 0);
    }
  }

  lemma {:induction false} RangeSize(from: nat, n: nat)
    ensures |Up(from, n)| == |Down(from, n)| == n
  {
    if n > 0 {
      RangeSize(from, n - 1);
    }
  }

  /** What an update does, client by client. Success: the new router has one new client for each of the `n`
      endpoints, in order, and the old router is retired. Failure: the routers are as before, and every
      client made for the new one is closed, last first. */
  ghost predicate Reloaded(s: State, ok: bool, n: nat, s': State) {
    if ok
    then |s'.installed| == n && (forall i :: 0 <= i < n ==> s'.installed[i] == s.next + i) &&
         s'.retired == s.retired + [s.installed] && s'.closed == s.closed && s'.next == s.next + n
    else s'.installed == s.installed && s'.retired == s.retired && s'.next >= s.next &&
         |s'.closed| == |s.closed| + (s'.next - s.next) && s.closed <= s'.closed &&
         forall k :: |s.closed| <= k < |s'.closed| ==> s'.closed[k] == s'.next - 1 - (k - |s.closed|)
  }

  lemma UpdateMeans(s: State, eps: seq<Endpoint>)
    ensures Reloaded(s, forall i :: 0 <= i < |eps| ==> eps[i] == Built, |eps|, AfterUpdate(s, eps))
  {
    var n := Created(eps);
    RangeSize(s.next, |eps|);
    RangeSize(s.next, n);
    forall i: nat | i < |eps|
      ensures Up(s.next, |eps|)[i] == s.next + i
    {
      UpAt(s.next, |eps|, i);
    }
    forall i: nat | i < n
      ensures Down(s.next, n)[i] == s.next + n - 1 - i
    {
      DownAt(s.next, n, i);
    }
  }

  lemma {:induction false} SoundIs(eps: seq<Endpoint>, n: nat)
    requires n <= |eps| && (forall j :: 0 <= j < n ==> eps[j].Built?) && (n < |eps| ==> !eps[n].Built?)
    ensures Sound(eps) == n
  {
  }

  // ---------------------------------------------------------------- conservation

  /** How often `c` occurs. */
  function Occurs(s: seq<nat>, c: nat): nat {
    if s == [] then 0 else Occurs(s[..|s| - 1], c) + if s[|s| - 1] == c then 1 else 0
  }

  function OccursIn(routers: seq<seq<nat>>, c: nat): nat {
    if routers == [] then 0 else OccursIn(routers[..|routers| - 1], c) + Occurs(routers[|routers| - 1], c)
  }

  function Places(s: State, c: nat): nat {
    Occurs(s.installed, c) + OccursIn(s.retired, c) + Occurs(s.closed, c)
  }

  /** Every client the factory ever returned is in exactly one place, once: with the installed router, with
      a retired one, or among the closed. */
  ghost predicate Accounted(s: State) {
    forall c: nat :: Places(s, c) == if c < s.next then 1 else 0
  }

  lemma {:induction false} OccursConcat(a: seq<nat>, b: seq<nat>, c: nat)
    ensures Occurs(a + b, c) == Occurs(a, c) + Occurs(b, c)
  {
    if b == [] {
      assert a + b == a;
    } else {
      OccursConcat(a, b[..|b| - 1], c);
      assert (a + b)[..|a + b| - 1] == a + b[..|b| - 1];
    }
  }

  lemma {:induction false} OccursInRange(from: nat, n: nat, c: nat)
    ensures Occurs(Up(from, n), c) == (if from <= c < from + n then 1 else 0)
    ensures Occurs(Down(from, n), c) == (if from <= c < from + n then 1 else 0)
  {
    if n > 0 {
      OccursInRange(from, n - 1, c);
      OccursConcat(Up(from, n - 1), [from + n - 1], c);
      OccursConcat([from + n - 1], Down(from, n - 1), c);
    }
  }

  lemma {:induction false} RouterRemoved(routers: seq<seq<nat>>, i: nat, c: nat)
    requires i < |routers|
    ensures OccursIn(routers, c) == OccursIn(routers[..i] + routers[i + 1..], c) + Occurs(routers[i], c)
  {
    var n := |routers| - 1;
    if i == n {
      assert routers[..i] + routers[i + 1..] == routers[..n];
    } else {
      RouterRemoved(routers[..n], i, c);
      var rest := routers[..i] + routers[i + 1..];
      assert rest[..|rest| - 1] == routers[..n][..i] + routers[..n][i + 1..];
      assert rest[|rest| - 1] == routers[n];
    }
  }

  lemma SwapPlaces(s: State, n: nat, c: nat)
    ensures Places(State(s.next + n, Up(s.next, n), s.retired + [s.installed], s.closed), c) ==
            Places(s, c) + if s.next <= c < s.next + n then 1 else 0
  {
  }

  lemma RollbackPlaces(s: State, n: nat, c: nat)
    ensures Places(State(s.next + n, s.installed, s.retired, s.closed + Down(s.next, n)), c) ==
            Places(s, c) + if s.next <= c < s.next + n then 1 else 0
  {
    OccursInRange(s.next, n, c);
    OccursConcat(s.closed, Down(s.next, n), c);
  }

  lemma UpdateConserves(s: State, eps: seq<Endpoint>)
    requires Accounted(s)
    ensures Accounted(AfterUpdate(s, eps))
  {
    var s' := AfterUpdate(s, eps);
    forall c: nat
      ensures Places(s', c) == if c < s'.next then 1 else 0
    {
      assert Places(s, c) == if c < s.next then 1 else 0;
      if Sound(eps) == |eps| {
        SwapPlaces(s, |eps|, c);
      } else {
        RollbackPlaces(s, Created(eps), c);
      }
    }
  }

  lemma SyncCloseConserves(s: State, i: nat)
    requires Accounted(s) && i < |s.retired|
    ensures Accounted(AfterSyncClose(s, i))
  {
    forall c: nat
      ensures Places(AfterSyncClose(s, i), c) == Places(s, c)
    {
      RouterRemoved(s.retired, i, c);
      OccursConcat(s.closed, s.retired[i], c);
    }
  }

  datatype Step = Reload(eps: seq<Endpoint>) | Close(router: nat)

  ghost predicate Next(s: State, step: Step, s': State) {
    match step
    case Reload(eps) => s' == AfterUpdate(s, eps)
    case Close(i) => i < |s.retired| && s' == AfterSyncClose(s, i)
  }

  ghost predicate Run(states: seq<State>, steps: seq<Step>) {
    && |states| == |steps| + 1
    && states[0] == START
    && forall n :: 0 <= n < |steps| ==> Next(states[n], steps[n], states[n + 1])
  }

  lemma {:induction false} RunConserves(states: seq<State>, steps: seq<Step>, n: nat)
    requires Run(states, steps) && n <= |steps|
    ensures Accounted(states[n])
  {
    if n > 0 {
      RunConserves(states, steps, n - 1);
      assert Next(states[n - 1], steps[n - 1], states[n]);
      match steps[n - 1]
      case Reload(eps) => UpdateConserves(states[n - 1], eps);
      case Close(i) => SyncCloseConserves(states[n - 1], i);
    }
  }

  lemma {:induction false} OccursMembers(s: seq<nat>, c: nat)
    ensures Occurs(s, c) > 0 <==> c in s
  {
    if s != [] {
      OccursMembers(s[..|s| - 1], c);
      assert s == s[..|s| - 1] + [s[|s| - 1]];
    }
  }

  lemma {:induction false} OccursInMembers(routers: seq<seq<nat>>, c: nat)
    ensures OccursIn(routers, c) > 0 <==> exists r :: r in routers && c in r
  {
    if routers != [] {
      OccursInMembers(routers[..|routers| - 1], c);
      OccursMembers(routers[|routers| - 1], c);
      assert routers == routers[..|routers| - 1] + [routers[|routers| - 1]];
    }
  }

  /** Over any run of updates that fail anywhere or succeed, and of background closes: no client is closed
      twice, and the open clients are exactly those of the installed router and of retired routers that
      were not closed yet. */
  lemma ClosedOnceOpenOwned(states: seq<State>, steps: seq<Step>, n: nat, c: nat)
    requires Run(states, steps) && n <= |steps| && c < states[n].next
    ensures Occurs(states[n].closed, c) <= 1
    ensures c !in states[n].closed <==> c in states[n].installed || exists r :: r in states[n].retired && c in r
  {
    RunConserves(states, steps, n);
    var s := states[n];
    assert Places(s, c) == 1;
    OccursMembers(s.closed, c);
    OccursMembers(s.installed, c);
    OccursInMembers(s.retired, c);
  }

  // ---------------------------------------------------------------- which clients serve

  /** The clients `from` to `from + n - 1` that the last successful reload of the first `m` steps created. */
  ghost function Serving(states: seq<State>, steps: seq<Step>, m: nat): (nat, nat)
    requires Run(states, steps) && m <= |steps|
  {
    if m == 0 then (0, 0)
    else match steps[m - 1]
         case Reload(eps) =>
           if forall i :: 0 <= i < |eps| ==> eps[i] == Built then (states[m - 1].next, |eps|)
           else Serving(states, steps, m - 1)
         case Close(_) => Serving(states, steps, m - 1)
  }

  /** Over any run the installed router holds exactly the clients of the last successful reload, in order of
      its endpoints. */
  lemma {:induction false} InstalledIsLastReload(states: seq<State>, steps: seq<Step>, m: nat)
    requires Run(states, steps) && m <= |steps|
    ensures var (from, n) := Serving(states, steps, m);
            && |states[m].installed| == n && from + n <= states[m].next
            && forall i :: 0 <= i < n ==> states[m].installed[i] == from + i
  {
    if m > 0 {
      InstalledIsLastReload(states, steps, m - 1);
      assert Next(states[m - 1], steps[m - 1], states[m]);
      if steps[m - 1].Reload? {
        UpdateMeans(states[m - 1], steps[m - 1].eps);
      }
    }
  }

  /** None of them is closed. */
  lemma ServingIsOpen(states: seq<State>, steps: seq<Step>, m: nat, c: nat)
    requires Run(states, steps) && m <= |steps|
    requires var (from, n) := Serving(states, steps, m); from <= c < from + n
    ensures c in states[m].installed && c !in states[m].closed
  {
    InstalledIsLastReload(states, steps, m);
    var (from, n) := Serving(states, steps, m);
    assert states[m].installed[c - from] == c;
    ClosedOnceOpenOwned(states, steps, m, c);
  }
}
