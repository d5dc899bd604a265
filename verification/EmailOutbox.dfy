/**
 One receipt email in the outbox: claimed under a lease, sent, and then deleted by the claim that sent it,
 or retried, or given up after ten claims. Workers interleave freely and may stop at any point.
 */
module EmailOutbox {
  import opened Options
  import opened Leasing

  const EMAIL_LEASE_MS := 2 * 60 * 1000
  const MAX_EMAIL_ATTEMPTS := 10

  /** A dead letter is a row whose work has failed. */
  datatype Row = Row(work: Work, deleteAfter: int)

  /** What a worker holds: the number of its claim, and whether it has sent the mail. */
  datatype Claim = Claim(attempt: nat, sent: bool)

  /** The row while there is one, the claims handed out, the sends so far, and the send whose claim deleted the row. */
  datatype State = State(row: Option<Row>, claims: map<Token, Claim>, sends: nat, completed: bool)

  datatype Event =
    | ClaimMail(now: int, token: Token)
    | Send(token: Token)
    | Complete(token: Token)
    | Release(token: Token, now: int)
    | Purge(now: int)

  function Taken(r: Row, now: int, token: Token): Row { r.(work := Lend(r.work, token, now + EMAIL_LEASE_MS)) }

  /** Tokens are fresh; only a claim that was handed out acts, and it sends at most once. */
  ghost predicate Possible(s: State, e: Event) {
    match e
    case ClaimMail(_, token) => token !in s.claims
    case Send(token) => token in s.claims && !s.claims[token].sent
    case Complete(token) => token in s.claims && s.claims[token].sent
    case Release(token, _) => token in s.claims
    case Purge(_) => true
  }

  ghost function After(s: State, e: Event): State
    requires Possible(s, e)
  {
    match e
    case ClaimMail(now, token) =>
      if s.row.None? then s
      else if MayBeClaimed(s.row.value.work, now, MAX_EMAIL_ATTEMPTS) then
        s.(row := Some(Taken(s.row.value, now, token)), claims := s.claims[token := Claim(s.row.value.work.attempts + 1, false)])
      else s.(row := Some(s.row.value.(work := Sweep(s.row.value.work, now, MAX_EMAIL_ATTEMPTS))))
    case Send(token) => s.(sends := s.sends + 1, claims := s.claims[token := s.claims[token].(sent := true)])
    case Complete(token) => if s.row.Some? && HeldBy(s.row.value.work, token) then s.(row := None, completed := true) else s
    case Release(token, now) =>
      if s.row.Some? && HeldBy(s.row.value.work, token) then s.(row := Some(s.row.value.(work := GiveBack(s.row.value.work, s.claims[token].attempt, now, MAX_EMAIL_ATTEMPTS)))) else s
    case Purge(now) =>
      if s.row.Some? && s.row.value.work.status == Failed && s.row.value.deleteAfter <= now then s.(row := None) else s
  }

  ghost function SentClaims(claims: map<Token, Claim>): set<Token> { set t <- claims | claims[t].sent }

  ghost predicate Inv(s: State) {
    && |s.claims.Keys| <= MAX_EMAIL_ATTEMPTS && s.sends == |SentClaims(s.claims)|
    && Distinct(s.claims)
    && (s.completed ==> s.row.None? && s.sends > 0)
    && (s.row.None? && !s.completed ==> |s.claims.Keys| == MAX_EMAIL_ATTEMPTS)
    && (s.row.Some? ==> WorkOk(s.claims, s.row.value.work))
  }

  ghost predicate Distinct(claims: map<Token, Claim>) {
    forall t, u :: t in claims && u in claims && claims[t].attempt == claims[u].attempt ==> t == u
  }

  ghost predicate WorkOk(claims: map<Token, Claim>, w: Work) {
    && |claims.Keys| == w.attempts
    && (forall t <- claims :: claims[t].attempt <= w.attempts)
    && (w.status == Processing <==> w.lease.Some?)
    && (w.lease.Some? ==> w.lease.value.token in claims && claims[w.lease.value.token].attempt == w.attempts)
    && (w.status == Failed ==> w.attempts == MAX_EMAIL_ATTEMPTS)
  }

  lemma ClaimsPlus(claims: map<Token, Claim>, token: Token, attempt: nat)
    requires token !in claims
    ensures |claims[token := Claim(attempt, false)].Keys| == |claims.Keys| + 1
    ensures SentClaims(claims[token := Claim(attempt, false)]) == SentClaims(claims)
  {
    assert claims[token := Claim(attempt, false)].Keys == claims.Keys + {token};
  }

  lemma SentPlus(claims: map<Token, Claim>, token: Token)
    requires token in claims && !claims[token].sent
    ensures var claims' := claims[token := claims[token].(sent := true)];
            claims'.Keys == claims.Keys && |SentClaims(claims')| == |SentClaims(claims)| + 1
  {
    assert SentClaims(claims[token := claims[token].(sent := true)]) == SentClaims(claims) + {token};
  }

  lemma DistinctPlus(claims: map<Token, Claim>, token: Token, attempt: nat)
    requires Distinct(claims) && forall t <- claims :: claims[t].attempt < attempt
    ensures Distinct(claims[token := Claim(attempt, false)])
  {
  }

  lemma ClaimKeeps(s: State, now: int, token: Token)
    requires Inv(s) && token !in s.claims
    ensures Inv(After(s, ClaimMail(now, token)))
  {
    hide SentClaims, Distinct;
    if s.row.Some? && MayBeClaimed(s.row.value.work, now, MAX_EMAIL_ATTEMPTS) {
      DistinctPlus(s.claims, token, s.row.value.work.attempts + 1);
      ClaimsPlus(s.claims, token, s.row.value.work.attempts + 1);
    }
  }

  lemma SendKeeps(s: State, token: Token)
    requires Inv(s) && Possible(s, Send(token))
    ensures Inv(After(s, Send(token)))
  {
    hide SentClaims;
    SentPlus(s.claims, token);
  }

  lemma StepKeeps(s: State, e: Event)
    requires Inv(s) && Possible(s, e)
    ensures Inv(After(s, e))
  {
    hide SentClaims;
    match e
    case ClaimMail(now, token) => ClaimKeeps(s, now, token);
    case Send(token) => SendKeeps(s, token);
    case Complete(token) => assert SentClaims(s.claims) != {} by { Sent(s, token); }
    case Release(token, now) =>
    case Purge(now) =>
  }

  lemma Sent(s: State, token: Token)
    requires token in s.claims && s.claims[token].sent
    ensures token in SentClaims(s.claims)
  {
  }

  ghost function Start(nextAttempt: int, deleteAfter: int): State {
    State(Some(Row(Work(Pending, 0, nextAttempt, None), deleteAfter)), map[], 0, false)
  }

  ghost predicate PossibleRun(s: State, run: seq<Event>)
    decreases |run|
  {
    run == [] || (Possible(s, run[0]) && PossibleRun(After(s, run[0]), run[1..]))
  }

  ghost function Final(s: State, run: seq<Event>): State
    requires PossibleRun(s, run)
    decreases |run|
  {
    if run == [] then s else Final(After(s, run[0]), run[1..])
  }

  lemma {:induction false} RunKeeps(s: State, run: seq<Event>)
    requires Inv(s) && PossibleRun(s, run)
    ensures Inv(Final(s, run))
    decreases |run|
  {
    hide Inv, After, Possible;
    if run != [] {
      StepKeeps(s, run[0]);
      RunKeeps(After(s, run[0]), run[1..]);
    }
  }

  /**
   However workers crash and leases run out: the mail is sent at most ten times, its row is completed only after a send,
   and it is given up, dead or purged, only after all ten claims.
   */
  lemma SentOrGivenUp(nextAttempt: int, deleteAfter: int, run: seq<Event>)
    requires PossibleRun(Start(nextAttempt, deleteAfter), run)
    ensures var s := Final(Start(nextAttempt, deleteAfter), run);
            && s.sends <= |s.claims.Keys| <= MAX_EMAIL_ATTEMPTS
            && (s.completed ==> s.sends > 0 && s.row.None?)
            && (s.row.Some? && s.row.value.work.status == Failed ==> |s.claims.Keys| == MAX_EMAIL_ATTEMPTS)
            && (s.row.None? && !s.completed ==> |s.claims.Keys| == MAX_EMAIL_ATTEMPTS)
  {
    var first := Start(nextAttempt, deleteAfter);
    assert SentClaims(first.claims) == {};
    RunKeeps(first, run);
    var s := Final(first, run);
    FewerSent(s);
  }

  lemma FewerSent(s: State)
    ensures |SentClaims(s.claims)| <= |s.claims.Keys|
  {
    var all := s.claims.Keys;
    assert SentClaims(s.claims) <= all;
    SubsetSize(SentClaims(s.claims), all);
  }

  lemma SubsetSize(a: set<Token>, b: set<Token>)
    requires a <= b
    ensures |a| <= |b|
  {
    assert b == a + (b - a);
  }

  /** Only the newest claim completes or releases the row; a claim that lost its lease changes nothing. */
  lemma OnlyTheNewestActs(nextAttempt: int, deleteAfter: int, run: seq<Event>, token: Token)
    requires PossibleRun(Start(nextAttempt, deleteAfter), run) && token in Final(Start(nextAttempt, deleteAfter), run).claims
    ensures var s := Final(Start(nextAttempt, deleteAfter), run);
            s.row.Some? && HeldBy(s.row.value.work, token) ==> forall t <- s.claims :: s.claims[t].attempt <= s.claims[token].attempt
  {
    var first := Start(nextAttempt, deleteAfter);
    assert SentClaims(first.claims) == {};
    RunKeeps(first, run);
  }

  /** Once the row is gone nothing brings it back, so no further claim is handed out. */
  lemma {:induction false} GoneStaysGone(s: State, run: seq<Event>)
    requires PossibleRun(s, run) && s.row.None?
    ensures Final(s, run).row.None? && Final(s, run).claims.Keys == s.claims.Keys
    decreases |run|
  {
    if run != [] {
      GoneStaysGone(After(s, run[0]), run[1..]);
    }
  }

  // Leases keep others out.

  ghost predicate HeldUntil(s: State, token: Token, until: int) {
    s.row.Some? && HeldBy(s.row.value.work, token) && s.row.value.work.lease == Some(Lease(token, until))
  }

  /** The events that leave the claim alone: nobody claims by an instant from `until` on, and its worker does not end it. */
  ghost predicate LeftAlone(run: seq<Event>, token: Token, until: int) {
    forall k :: 0 <= k < |run| ==> run[k] != Complete(token) && !(run[k].Release? && run[k].token == token) && (run[k].ClaimMail? ==> run[k].now < until)
  }

  /** While the lease lasts nobody else gets the mail: no claim is handed out. */
  lemma {:induction false} NobodyElseClaims(s: State, run: seq<Event>, token: Token, until: int)
    requires PossibleRun(s, run) && HeldUntil(s, token, until) && LeftAlone(run, token, until)
    ensures HeldUntil(Final(s, run), token, until) && Final(s, run).claims.Keys == s.claims.Keys
    decreases |run|
  {
    if run != [] {
      assert forall k :: 0 <= k < |run[1..]| ==> run[1..][k] == run[k + 1];
      NobodyElseClaims(After(s, run[0]), run[1..], token, until);
    }
  }

  /** Mutual exclusion: in every continuation of a claim in which no later claim's instant is two minutes past this one's. */
  lemma ClaimsExclude(s: State, now: int, token: Token, run: seq<Event>)
    requires Possible(s, ClaimMail(now, token)) && s.row.Some? && MayBeClaimed(s.row.value.work, now, MAX_EMAIL_ATTEMPTS)
    requires PossibleRun(After(s, ClaimMail(now, token)), run) && LeftAlone(run, token, now + 2 * 60 * 1000)
    ensures var s' := Final(After(s, ClaimMail(now, token)), run);
            s'.row.Some? && HeldBy(s'.row.value.work, token) && s'.claims.Keys == s.claims.Keys + {token}
  {
    NobodyElseClaims(After(s, ClaimMail(now, token)), run, token, now + 2 * 60 * 1000);
  }

  /** Just after a claim the mail can be claimed again exactly from two minutes on, if attempts are left. */
  lemma ClaimableAgain(r: Row, now: int, token: Token, later: int)
    ensures var w := Taken(r, now, token).work;
            MayBeClaimed(w, later, MAX_EMAIL_ATTEMPTS) <==> later >= now + 2 * 60 * 1000 && w.attempts < 10
  {
  }

  /** Just after a failed delivery the mail waits a minute, doubled with each attempt; after the tenth it is dead. */
  lemma FailedWaits(w: Work, attempt: nat, now: int, later: int)
    requires 1 <= attempt == w.attempts <= 10
    ensures var w' := GiveBack(w, attempt, now, MAX_EMAIL_ATTEMPTS);
            && (MayBeClaimed(w', later, MAX_EMAIL_ATTEMPTS) <==> attempt < 10 && later >= now + 60000 * PowerOfTwo(attempt - 1))
            && (w'.status == Failed <==> attempt == 10)
  {
    assert PowerOfTwo(0) == 1 && PowerOfTwo(1) == 2 && PowerOfTwo(2) == 4 && PowerOfTwo(3) == 8 && PowerOfTwo(4) == 16;
    assert PowerOfTwo(5) == 32 && PowerOfTwo(6) == 64 && PowerOfTwo(7) == 128 && PowerOfTwo(8) == 256 && PowerOfTwo(9) == 512;
  }

  /** The row in place. */
  class Outbox {
    var row: Option<Row>

    /** `claimAccountDeletionEmail`, for this row: the number of the claim, if it is claimed. */
    method ClaimEmail(now: int, token: Token) returns (claim: Option<nat>)
      modifies this
      ensures claim.Some? <==> old(row).Some? && MayBeClaimed(old(row).value.work, now, MAX_EMAIL_ATTEMPTS)
      ensures claim.Some? ==> row == Some(Taken(old(row).value, now, token)) && claim.value == old(row).value.work.attempts + 1
      ensures claim.Some? ==> HeldBy(row.value.work, token)
                              && forall n :: MayBeClaimed(row.value.work, n, MAX_EMAIL_ATTEMPTS) <==> n >= now + 2 * 60 * 1000 && claim.value < 10
      ensures claim.None? ==> row == if old(row).Some? then Some(old(row).value.(work := Sweep(old(row).value.work, now, MAX_EMAIL_ATTEMPTS))) else None
    {
      if row.None? {
        return None;
      }
      var w := row.value.work;
      if w.status == Processing && w.lease.Some? && w.lease.value.expires <= now && w.attempts >= MAX_EMAIL_ATTEMPTS {
        row := Some(row.value.(work := w.(status := Failed, lease := None)));
        return None;
      }
      if !MayBeClaimed(w, now, MAX_EMAIL_ATTEMPTS) {
        return None;
      }
      row := Some(row.value.(work := w.(status := Processing, attempts := w.attempts + 1, lease := Some(Lease(token, now + EMAIL_LEASE_MS)))));
      return Some(w.attempts + 1);
    }

    /** The rest of `processAccountDeletionEmailOutbox` for one claim: delivery, then deletion or release. Counts the mail if its own claim deleted it. */
    method Process(now: int, token: Token, delivers: bool) returns (sent: bool)
      modifies this
      ensures sent <==> old(row).Some? && MayBeClaimed(old(row).value.work, now, MAX_EMAIL_ATTEMPTS) && delivers
      ensures old(row).None? ==> row.None?
      ensures sent ==> row.None?
      ensures old(row).Some? && !sent ==>
                var w := old(row).value.work;
                && row.Some? && row.value.deleteAfter == old(row).value.deleteAfter
                && if !MayBeClaimed(w, now, MAX_EMAIL_ATTEMPTS) then row.value.work == Sweep(w, now, MAX_EMAIL_ATTEMPTS)
                   else row.value.work == Work(if w.attempts + 1 == MAX_EMAIL_ATTEMPTS then Failed else Pending, w.attempts + 1, now + RetryDelay(w.attempts + 1), None)
    {
      var claim := ClaimEmail(now, token);
      if claim.None? {
        return false;
      }
      if !HeldBy(row.value.work, token) {
        return false;
      }
      if delivers {
        row := None;
        return true;
      }
      row := Some(row.value.(work := GiveBack(row.value.work, claim.value, now, MAX_EMAIL_ATTEMPTS)));
      return false;
    }
  }
}
