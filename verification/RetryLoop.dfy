/** The attempt loop of a proxied request: retries gated by a feature switch and a circuit breaker. */
module RetryLoop {
  import opened Model

  datatype RetryConfig = RetryConfig(attempts: nat)

  /** calcAttempts. */
  function CalcAttempts(retry: Option<RetryConfig>): (n: nat)
    ensures n >= 1
    ensures retry.None? || retry.value.attempts == 0 ==> n == 1
    ensures retry.Some? && retry.value.attempts > 0 ==> n == retry.value.attempts
  {
    if retry.None? || retry.value.attempts == 0 then 1 else retry.value.attempts
  }

  datatype Verdict = Allowed | NotAllowed | BreakerError

  /** The answers of the outside world in turn i: the switch, the breaker, the request context, the round
      trip (a status code or an error), and whether the response meets a retry condition. */
  datatype Turn = Turn(retryEnabled: bool, breaker: Verdict, contextError: Option<string>, trip: Result<nat, string>, retryWanted: bool)

  /** The response of turn `turn`; a response that is to be retried has its body closed. */
  datatype Reply = Reply(turn: nat, status: nat, bodyOpen: bool)

  /** A success or failure reported to the breaker for turn `turn`. */
  datatype BreakerMark = BreakerMark(turn: nat, success: bool)

  // ---------------------------------------------------------------- declarative account

  predicate GateOpen(world: nat -> Turn, i: nat) {
    i == 0 || (world(i).retryEnabled && world(i).breaker == Allowed)
  }

  predicate Live(world: nat -> Turn, i: nat) {
    GateOpen(world, i) && world(i).contextError.None?
  }

  /** The response of turn i is good enough to end the loop. */
  predicate Accepted(world: nat -> Turn, i: nat) {
    world(i).trip.Ok? && !world(i).retryWanted
  }

  /** Turn i makes its round trip. */
  ghost predicate Reached(world: nat -> Turn, attempts: nat, i: nat) {
    i < attempts && (forall j :: 0 <= j <= i ==> Live(world, j)) && (forall j :: 0 <= j < i ==> !Accepted(world, j))
  }

  /** The loop leaves at turn n: attempts are used up, the turn may not run, or the previous was accepted. */
  predicate StopsAt(world: nat -> Turn, attempts: nat, n: nat) {
    n == attempts || !Live(world, n) || (n > 0 && Accepted(world, n - 1))
  }

  lemma TripsAreReached(world: nat -> Turn, attempts: nat, n: nat)
    requires n <= attempts && StopsAt(world, attempts, n)
    requires forall j :: 0 <= j < n ==> Live(world, j) && (j < n - 1 ==> !Accepted(world, j))
    ensures forall i: nat :: Reached(world, attempts, i) <==> i < n
    ensures forall i :: 0 <= i < n ==> GateOpen(world, i)
  {
    forall i | 0 <= i < n
      ensures GateOpen(world, i)
    {
      assert Live(world, i);
    }
  }

  /** Turns 1..|marks| were reported, in order, each once. */
  ghost predicate MarkedOnce(world: nat -> Turn, marks: seq<BreakerMark>, trips: nat) {
    forall k :: 0 <= k < |marks| ==> marks[k].turn == k + 1 && (marks[k].success <==> k + 1 < trips && Accepted(world, k + 1))
  }

  /** The variables of the loop. `admitted` counts the retries the breaker let in (turns 1..admitted);
      `lastAttempt` holds, for each round trip made, whether it was announced as the last one. */
  datatype Progress = Progress(
    err: Option<string>, resp: Option<Reply>, lastAttempt: seq<bool>, admitted: nat, marks: seq<BreakerMark>)

  /** `n` turns made their round trip and none of them was accepted. */
  ghost predicate Before(world: nat -> Turn, attempts: nat, p: Progress, n: nat) {
    && n <= attempts && |p.lastAttempt| == n && p.admitted == |p.marks| == (if n == 0 then 0 else n - 1)
    && (forall j :: 0 <= j < n ==> Live(world, j) && !Accepted(world, j) && p.lastAttempt[j] == (j + 1 == attempts))
    && MarkedOnce(world, p.marks, n)
    && (n == 0 ==> p.err.None? && p.resp.None?)
    && (n > 0 ==> match world(n - 1).trip
                  case Err(e) => p.err == Some(e)
                  case Ok(status) => p.err.None? && p.resp == Some(Reply(n - 1, status, false)))
  }

  /** The promises of the loop. */
  ghost predicate Ended(world: nat -> Turn, attempts: nat, p: Progress) {
    var n := |p.lastAttempt|;
    // The round trips are exactly the turns that may and must be made, at most `attempts` of them.
    && n <= attempts
    && (forall i: nat :: Reached(world, attempts, i) <==> i < n)
    && (forall i :: 0 <= i < n ==> p.lastAttempt[i] == (i + 1 == attempts))
    // Every admitted retry gets exactly one mark; one more mark, for a turn that was not admitted, appears
    // only when the breaker itself failed.
    && n <= p.admitted + 1 <= n + 1
    && (forall i :: 0 < i <= p.admitted ==> GateOpen(world, i))
    && MarkedOnce(world, p.marks, n)
    && (|p.marks| == p.admitted ||
        (|p.marks| == p.admitted + 1 == n < attempts && world(n).breaker == BreakerError))
    // The error is that of the context if it ended the loop, else that of the last trip.
    && p.err == FinalError(world, attempts, n)
    // Without an error there is a response: the one of the last trip, readable exactly if some turn that was
    // reached was accepted.
    && (p.err.None? ==>
          n > 0 && world(n - 1).trip.Ok? && p.resp.Some? &&
          p.resp.value.turn == n - 1 && p.resp.value.status == world(n - 1).trip.value &&
          (p.resp.value.bodyOpen <==> exists i: nat :: Reached(world, attempts, i) && Accepted(world, i)))
  }

  /** The error left when `n` trips were made. */
  function FinalError(world: nat -> Turn, attempts: nat, n: nat): Option<string> {
    if n < attempts && GateOpen(world, n) && !(n > 0 && Accepted(world, n - 1)) && world(n).contextError.Some?
    then world(n).contextError
    else if n > 0 && world(n - 1).trip.Err? then Some(world(n - 1).trip.error)
    else None
  }

  /** The number `n` of round trips in terms of the answers alone. */
  ghost predicate Spelled(world: nat -> Turn, attempts: nat, n: nat) {
    && n <= attempts
    // Every trip had a live context, and every retry an enabled switch and the breaker's permission.
    && (forall i: nat :: i < n ==> world(i).contextError == None && (i > 0 ==> world(i).retryEnabled && world(i).breaker == Allowed))
    // Every trip but the last one failed, or its response was to be retried.
    && (forall i: nat :: i + 1 < n ==> world(i).trip.Err? || world(i).retryWanted)
    // There was no further trip: the attempts were used up, the last response was good, or the next turn was
    // not allowed or cancelled.
    && (|| n == attempts
        || (n > 0 && world(n - 1).trip.Ok? && !world(n - 1).retryWanted)
        || world(n).contextError.Some?
        || (n > 0 && (!world(n).retryEnabled || world(n).breaker != Allowed)))
  }

  lemma EndedIsSpelled(world: nat -> Turn, attempts: nat, p: Progress)
    requires Ended(world, attempts, p)
    ensures Spelled(world, attempts, |p.lastAttempt|)
  {
    var n := |p.lastAttempt|;
    forall i: nat | i < n
      ensures world(i).contextError == None && (i > 0 ==> world(i).retryEnabled && world(i).breaker == Allowed)
      ensures i + 1 < n ==> world(i).trip.Err? || world(i).retryWanted
    {
      assert Reached(world, attempts, n - 1) && Live(world, i);
      assert i + 1 < n ==> !Accepted(world, i);
    }
    assert !Reached(world, attempts, n);
    if n < attempts && Live(world, n) && n > 0 && !Accepted(world, n - 1) {
      assert Reached(world, attempts, n - 1);
      assert Reached(world, attempts, n);
    }
  }

  /** A single attempt that is answered but to be retried is forwarded with a closed body. */
  lemma ForwardedUnreadable(p: Progress)
    requires Ended(_ => Turn(true, Allowed, None, Ok(502), true), 1, p)
    ensures p.err == None && p.resp == Some(Reply(0, 502, false))
  {
    var world := (_: nat) => Turn(true, Allowed, None, Ok(502), true);
    assert Reached(world, 1, 0);
  }

  /** markSuccess and markFailed: the first attempt is not a retry and is never reported. */
  function Mark(marks: seq<BreakerMark>, i: nat, success: bool): seq<BreakerMark> {
    if i > 0 then marks + [BreakerMark(i, success)] else marks
  }

  lemma GateShut(world: nat -> Turn, attempts: nat, p: Progress, n: nat)
    requires Before(world, attempts, p, n) && 0 < n && (n == attempts || !GateOpen(world, n))
    ensures Ended(world, attempts, p)
    ensures n < attempts && world(n).breaker == BreakerError ==> Ended(world, attempts, p.(marks := Mark(p.marks, n, false)))
  {
    TripsAreReached(world, attempts, n);
  }

  lemma ContextGone(world: nat -> Turn, attempts: nat, p: Progress, n: nat)
    requires Before(world, attempts, p, n) && n < attempts && GateOpen(world, n) && world(n).contextError.Some?
    ensures Ended(world, attempts, p.(err := world(n).contextError, admitted := n, marks := Mark(p.marks, n, false)))
  {
    TripsAreReached(world, attempts, n);
  }

  lemma TripAccepted(world: nat -> Turn, attempts: nat, p: Progress, n: nat)
    requires Before(world, attempts, p, n) && n < attempts && Live(world, n) && Accepted(world, n)
    ensures Ended(world, attempts, Progress(None, Some(Reply(n, world(n).trip.value, true)),
                                            p.lastAttempt + [n + 1 >= attempts], n, Mark(p.marks, n, true)))
  {
    TripsAreReached(world, attempts, n + 1);
  }

  method RunAttempts(attempts: nat, world: nat -> Turn) returns (p: Progress)
    requires attempts >= 1
    ensures Ended(world, attempts, p)
  {
    p := Progress(None, None, [], 0, []);
    var i := 0;
    while i < attempts
      invariant Before(world, attempts, p, i)
    {
      var turn := world(i);
      if i > 0 {
        if !turn.retryEnabled || turn.breaker != Allowed {
          GateShut(world, attempts, p, i);
          if turn.retryEnabled && turn.breaker == BreakerError {
            p := p.(marks := Mark(p.marks, i, false));
          }
          return;
        }
      }
      if turn.contextError.Some? {
        ContextGone(world, attempts, p, i);
        return p.(err := turn.contextError, admitted := i, marks := Mark(p.marks, i, false));
      }
      var flags := p.lastAttempt + [i + 1 >= attempts];
      match turn.trip {
        case Err(e) =>
          p := Progress(Some(e), None, flags, i, Mark(p.marks, i, false));
        case Ok(status) =>
          if !turn.retryWanted {
            TripAccepted(world, attempts, p, i);
            return Progress(None, Some(Reply(i, status, true)), flags, i, Mark(p.marks, i, true));
          }
          p := Progress(None, Some(Reply(i, status, false)), flags, i, Mark(p.marks, i, false));
      }
      i := i + 1;
    }
    GateShut(world, attempts, p, i);
  }
}
