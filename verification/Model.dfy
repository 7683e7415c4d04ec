/** The database records that several components share. */
module Model {

  /** Nanoseconds since the zero time.Time, so that IsZero is equality with 0. */
  type Instant = int
  const ZERO_TIME: Instant := 0
  const MINUTE: int := 60_000_000_000

  datatype Option<+T> = None | Some(value: T)
  datatype Result<+T, +E> = Ok(value: T) | Err(error: E)

  datatype SubmitLog = SubmitLog(
    platform: string, userId: int, submitId: string,
    contest: string, problem: string, lang: string, status: string, time: Instant)

  function Min(a: nat, b: nat): nat {
    if a < b then a else b
  }

  /** No element occurs twice. */
  ghost predicate Distinct<T>(s: seq<T>) {
    forall i, j :: 0 <= i < j < |s| ==> s[i] != s[j]
  }
}
