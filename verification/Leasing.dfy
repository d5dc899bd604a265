/** Work that is claimed under a lease with a fresh token, retried with growing delays, and given up after so many claims. */
module Leasing {
  import opened Options
  import opened Numbers

  type Token = nat

  const DAY_MS := 24 * 60 * 60 * 1000

  /** Failed is also what a mail's dead letter is. */
  datatype Status = Pending | Processing | Failed
  datatype Lease = Lease(token: Token, expires: int)
  datatype Work = Work(status: Status, attempts: nat, nextAttempt: int, lease: Option<Lease>)

  function PowerOfTwo(n: nat): (r: nat)
    ensures r >= 1
  {
    if n == 0 then 1 else 2 * PowerOfTwo(n - 1)
  }

  function RetryDelay(attempt: int): int {
    Min(DAY_MS, 60000 * PowerOfTwo(if attempt - 1 > 0 then attempt - 1 else 0))
  }

  predicate RanOut(w: Work, now: int) { w.status == Processing && w.lease.Some? && w.lease.value.expires <= now }

  /** Work whose last lease ran out fails. */
  function Sweep(w: Work, now: int, cap: nat): Work {
    if RanOut(w, now) && w.attempts >= cap then w.(status := Failed, lease := None) else w
  }

  predicate MayBeClaimed(w: Work, now: int, cap: nat) {
    w.attempts < cap && ((w.status == Pending && w.nextAttempt <= now) || RanOut(w, now))
  }

  function Lend(w: Work, token: Token, expires: int): Work {
    w.(status := Processing, attempts := w.attempts + 1, lease := Some(Lease(token, expires)))
  }

  predicate HeldBy(w: Work, token: Token) { w.status == Processing && w.lease.Some? && w.lease.value.token == token }

  function GiveBack(w: Work, attempt: nat, now: int, cap: nat): Work {
    w.(status := if attempt >= cap then Failed else Pending, nextAttempt := now + RetryDelay(attempt), lease := None)
  }
}
