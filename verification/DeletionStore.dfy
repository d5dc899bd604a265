/** The transactions on the three tables, and the batch loop of one maintenance pass. */
module DeletionStore {
  import opened Options
  import opened Leasing
  import opened Deletion

  const MAINTENANCE_BATCH_SIZE := 50

  datatype Accepted = Scheduled(at: int) | StateConflict

  /** The row a batch leaves behind for a request whose deletion failed. */
  function Retried(r: Request, now: int): Request {
    r.(status := if r.attempts + 1 >= MAX_DELETION_ATTEMPTS then Failed else Pending,
       attempts := r.attempts + 1, nextAttempt := now + RetryDelay(r.attempts + 1), lease := None)
  }

  /** What one batch may do to a row: sweep it, retry it once, or delete it with its account and queue the receipt. */
  ghost predicate BatchRow(db: Db, db': Db, id: Id, now: int)
    requires id in db.requests
  {
    var r := db.requests[id];
    if id in db'.requests then db'.requests[id] == r || db'.requests[id] == Swept(r, now) || (Eligible(r, now) && db'.requests[id] == Retried(r, now))
    else Eligible(r, now) && r.user !in db'.accounts && id in db'.receipts
  }

  ghost predicate Batch(db: Db, db': Db, now: int) {
    && db'.requests.Keys <= db.requests.Keys
    && (forall id <- db.requests :: BatchRow(db, db', id, now))
    && (forall u <- db.accounts :: u !in db'.accounts ==> exists id <- db.requests :: db.requests[id].user == u && id !in db'.requests)
    && (forall u <- db'.accounts :: u in db.accounts && db'.accounts[u] == db.accounts[u])
  }

  class Store {
    var accounts: map<Id, Account>
    var requests: map<Id, Request>
    var receipts: set<Id>

    ghost function View(): Db
      reads this
    {
      Db(accounts, requests, receipts)
    }

    /** `requestAccountDeletion`: a second request answers with the first one's date. */
    method RequestDeletion(user: Id, id: Id, cancel: nat, now: int) returns (r: Accepted)
      modifies this
      ensures View() == Asked(old(View()), user, id, cancel, now)
      ensures match r
              case Scheduled(at) => exists x <- requests :: requests[x].user == user && requests[x].scheduledFor == at
              case StateConflict => View() == old(View()) && !HasRequest(View(), user) && (user !in accounts || accounts[user].status != Active)
    {
      if existing :| existing in requests && requests[existing].user == user {
        return Scheduled(requests[existing].scheduledFor);
      }
      if user !in accounts || accounts[user].status != Active {
        return StateConflict;
      }
      requests := requests[id := Request(user, cancel, now + DELETION_DELAY_MS, Pending, 0, now, None, now)];
      accounts := accounts[user := accounts[user].(status := PendingDeletion)];
      assert requests[id].user == user;
      return Scheduled(now + DELETION_DELAY_MS);
    }

    /** `cancelAccountDeletion`: the request with this token, if it may still be restored. */
    method RestoreByToken(cancel: nat, now: int) returns (user: Option<Id>)
      requires forall a <- requests, b <- requests :: requests[a].cancel == requests[b].cancel ==> a == b
      modifies this
      ensures user.Some? <==> exists row <- old(requests) :: old(requests[row].cancel) == cancel && Restorable(old(View()), row, now)
      ensures user.Some? ==> exists row <- old(requests) :: old(requests[row].cancel) == cancel && old(requests[row].user) == user.value
                                                            && View() == Restored(old(View()), row, now)
      ensures user.None? ==> View() == old(View())
    {
      if row :| row in requests && requests[row].cancel == cancel && requests[row].status == Pending && requests[row].scheduledFor > now && requests[row].user in accounts {
        user := RestoreRow(row, now);
      } else {
        user := None;
      }
    }

    /** `cancelAccountDeletionOnLogin`: the user's request, if the password is right and it may still be restored. */
    method RestoreOnLogin(id: Id, password: nat, now: int) returns (user: Option<Id>)
      requires forall a <- requests, b <- requests :: requests[a].user == requests[b].user ==> a == b
      modifies this
      ensures user.Some? <==> id in old(accounts) && old(accounts[id].password) == password
                              && exists row <- old(requests) :: old(requests[row].user) == id && Restorable(old(View()), row, now)
      ensures user.Some? ==> user.value == id && exists row <- old(requests) :: old(requests[row].user) == id && View() == Restored(old(View()), row, now)
      ensures user.None? ==> View() == old(View())
    {
      if row :| row in requests && requests[row].user == id && id in accounts && accounts[id].password == password
                && requests[row].status == Pending && requests[row].scheduledFor > now {
        user := RestoreRow(row, now);
      } else {
        user := None;
      }
    }

    /** The rest of a restore once its row is found. */
    method RestoreRow(row: Id, now: int) returns (user: Option<Id>)
      requires row in requests && requests[row].status == Pending && requests[row].scheduledFor > now && requests[row].user in accounts
      modifies this
      ensures View() == Restored(old(View()), row, now)
      ensures user == if old(Restorable(View(), row, now)) then Some(old(requests[row].user)) else None
    {
      var id := requests[row].user;
      if accounts[id].status != PendingDeletion {
        return None;
      }
      accounts := accounts[id := accounts[id].(status := Active)];
      requests := requests - {row};
      return Some(id);
    }

    /** The oldest eligible row that is not locked. */
    method Oldest(now: int, locked: set<Id>) returns (pick: Option<Id>)
      ensures Candidate(View(), now, locked, pick)
    {
      pick := None;
      var rest := requests.Keys;
      while rest != {}
        invariant rest <= requests.Keys
        invariant pick.Some? ==> pick.value in requests && pick.value !in locked && Eligible(requests[pick.value], now)
        invariant forall id <- requests :: id !in rest && id !in locked && Eligible(requests[id], now) ==>
                    pick.Some? && NotAfter(requests[pick.value], requests[id])
        decreases |rest|
      {
        var id :| id in rest;
        rest := rest - {id};
        if id !in locked && Eligible(requests[id], now) && (pick.None? || !NotAfter(requests[pick.value], requests[id])) {
          pick := Some(id);
        }
      }
    }

    /** `claimDueAccountDeletion`: sweeps the expired rows and leases the oldest due one. */
    method ClaimDueDeletion(now: int, token: Token, locked: set<Id>) returns (claim: Option<Claim>, ghost pick: Option<Id>)
      modifies this`requests
      ensures Candidate(old(View()), now, locked, pick) && View() == Claimed(old(View()), now, token, pick)
      ensures claim.Some? ==> Holds(View(), claim.value)
                              && forall n :: Eligible(requests[claim.value.id], n) <==> n >= now + 5 * 60 * 1000 && claim.value.attempts < 8
      ensures claim == if pick.Some? then Some(Claim(pick.value, old(requests[pick.value].user), token, old(requests[pick.value].attempts) + 1)) else None
    {
      var row := Oldest(now, locked);
      pick := row;
      ghost var db := View();
      requests := SweptAll(requests, now);
      if row.None? {
        return None, pick;
      }
      var r := requests[row.value];
      requests := requests[row.value := Taken(r, now, token)];
      claim := Some(Claim(row.value, r.user, token, r.attempts + 1));
      forall n { ClaimableAgain(db, now, token, locked, row.value, n); }
    }

    /** `finalizeClaimedAccountDeletion`: false when the claim has lost its lease. */
    method FinalizeClaim(claim: Claim) returns (done: bool)
      modifies this
      ensures View() == Finalized(old(View()), claim)
      ensures done <==> old(Holds(View(), claim) && requests[claim.id].user in accounts)
    {
      if !(claim.id in requests && requests[claim.id].status == Processing && requests[claim.id].lease.Some?
           && requests[claim.id].lease.value.token == claim.token && requests[claim.id].user in accounts) {
        return false;
      }
      var user := requests[claim.id].user;
      receipts := receipts + {claim.id};
      accounts := accounts - {user};
      requests := map id | id in requests && requests[id].user != user :: requests[id];
      return true;
    }

    /** `releaseAccountDeletionClaim`: true when the request has failed for good. */
    method ReleaseClaim(claim: Claim, now: int) returns (failed: bool)
      modifies this`requests
      ensures View() == Released(old(View()), claim, now)
      ensures failed <==> old(Holds(View(), claim)) && claim.attempts >= MAX_DELETION_ATTEMPTS
    {
      failed := claim.attempts >= MAX_DELETION_ATTEMPTS;
      if claim.id in requests && requests[claim.id].status == Processing && requests[claim.id].lease.Some?
         && requests[claim.id].lease.value.token == claim.token {
        requests := requests[claim.id := requests[claim.id].(status := if failed then Failed else Pending,
                                                             nextAttempt := now + RetryDelay(claim.attempts), lease := None)];
      } else {
        failed := false;
      }
    }

    /** One turn of the batch: claims, then finalises, or releases when the finalisation throws. */
    method ProcessOne(now: int, token: Token, throws: bool, ghost first: Db) returns (claimed: bool, deleted: bool)
      requires StatusMatches(View()) && Batch(first, View(), now)
      modifies this
      ensures StatusMatches(View()) && Batch(first, View(), now)
      ensures !claimed ==> !deleted && forall id <- requests :: !Eligible(requests[id], now)
      ensures |accounts| == |old(accounts)| - (if deleted then 1 else 0)
      ensures deleted <==> claimed && !throws
    {
      hide StatusMatches, Batch, RetryDelay, BatchRow, Candidate, Eligible, Swept, Taken;
      ghost var db := View();
      var claim, pick := ClaimDueDeletion(now, token, {});
      ClaimKeepsBatch(first, db, now, token, pick);
      if claim.None? {
        NothingEligible(db, now, token);
        return false, false;
      }
      claimed := true;
      ghost var p := pick.value;
      assert p in db.requests && Eligible(db.requests[p], now) by { Picked(db, now, pick); }
      if throws {
        RetryKeepsBatch(first, db, now, token, p);
        var _ := ReleaseClaim(claim.value, now);
        deleted := false;
      } else {
        DeleteKeepsBatch(first, db, now, token, p);
        deleted := FinalizeClaim(claim.value);
      }
    }

    /** `processDueAccountDeletions`: tries each due request at most once and leaves none untried unless the batch is full. */
    method ProcessDue(now: int, tokens: seq<Token>, throws: seq<bool>) returns (processed: nat, claims: nat)
      requires |tokens| == |throws| == MAINTENANCE_BATCH_SIZE && StatusMatches(View())
      modifies this
      ensures StatusMatches(View()) && Batch(old(View()), View(), now)
      ensures processed == |old(accounts)| - |accounts| && processed <= claims <= MAINTENANCE_BATCH_SIZE
      ensures claims < MAINTENANCE_BATCH_SIZE ==> forall id <- requests :: !Eligible(requests[id], now)
    {
      hide StatusMatches, Batch;
      processed, claims := 0, 0;
      assert Batch(old(View()), View(), now) by { NothingDone(View(), now); }
      for index := 0 to MAINTENANCE_BATCH_SIZE
        invariant claims == index && processed <= index
        invariant StatusMatches(View()) && Batch(old(View()), View(), now)
        invariant |accounts| == |old(accounts)| - processed
      {
        var claimed, deleted := ProcessOne(now, tokens[index], throws[index], old(View()));
        if !claimed {
          break;
        }
        claims := claims + 1;
        if deleted {
          processed := processed + 1;
        }
      }
    }
  }

  lemma NothingDone(db: Db, now: int)
    ensures Batch(db, db, now)
  {
  }

  lemma SweepOnce(r: Request, now: int)
    ensures Swept(Swept(r, now), now) == Swept(r, now)
    ensures Eligible(Swept(r, now), now) ==> Swept(r, now) == r
    ensures Eligible(r, now) ==> Swept(r, now) == r
    ensures Swept(Retried(r, now), now) == Retried(r, now) && !Eligible(Retried(r, now), now)
  {
    DelaysDouble(r.attempts + 1);
  }

  lemma Picked(db: Db, now: int, pick: Option<Id>)
    requires Candidate(db, now, {}, pick) && pick.Some?
    ensures pick.value in db.requests && Eligible(db.requests[pick.value], now)
  {
  }

  lemma NothingEligible(db: Db, now: int, token: Token)
    requires Candidate(db, now, {}, None)
    ensures forall id <- Claimed(db, now, token, None).requests :: !Eligible(Claimed(db, now, token, None).requests[id], now)
  {
    forall id <- db.requests { SweepOnce(db.requests[id], now); }
  }

  lemma ClaimKeepsBatch(first: Db, db: Db, now: int, token: Token, pick: Option<Id>)
    requires Batch(first, db, now) && StatusMatches(db)
    ensures Batch(first, Claimed(db, now, token, None), now) && StatusMatches(Claimed(db, now, token, pick))
  {
    hide Eligible, Swept, StatusMatches, Retried, RetryDelay;
    SameUsersKeepStatus(db, Claimed(db, now, token, pick));
    SweepKeepsBatch(first, db, Claimed(db, now, token, None), now);
  }

  lemma SweepKeepsBatch(first: Db, db: Db, swept: Db, now: int)
    requires Batch(first, db, now) && swept.accounts == db.accounts && swept.receipts == db.receipts
    requires swept.requests == SweptAll(db.requests, now)
    ensures Batch(first, swept, now)
  {
    hide Eligible, Swept, Retried;
    forall id <- first.requests ensures BatchRow(first, swept, id, now) {
      SweepOnce(first.requests[id], now);
      assert BatchRow(first, db, id, now);
    }
  }

  /** A row that is eligible within a batch is as the batch found it, and was eligible then. */
  lemma StillUntried(first: Db, db: Db, now: int, p: Id)
    requires Batch(first, db, now) && p in db.requests && Eligible(db.requests[p], now)
    ensures p in first.requests && first.requests[p] == db.requests[p] == Swept(db.requests[p], now)
  {
    hide Eligible, Swept, RetryDelay;
    assert BatchRow(first, db, p, now);
    SweepOnce(first.requests[p], now);
  }

  lemma RowRetried(first: Db, swept: Db, now: int, p: Id)
    requires Batch(first, swept, now) && p in first.requests && p in swept.requests && Eligible(first.requests[p], now)
    ensures Batch(first, swept.(requests := swept.requests[p := Retried(first.requests[p], now)]), now)
  {
    hide Eligible, Swept, RetryDelay;
    var db' := swept.(requests := swept.requests[p := Retried(first.requests[p], now)]);
    forall id <- first.requests ensures BatchRow(first, db', id, now) {
      assert BatchRow(first, swept, id, now);
    }
  }

  lemma RowDeleted(first: Db, swept: Db, now: int, p: Id)
    requires Batch(first, swept, now) && p in first.requests && Eligible(first.requests[p], now)
    ensures var user := first.requests[p].user;
            Batch(first, Db(swept.accounts - {user}, swept.requests - {p}, swept.receipts + {p}), now)
  {
    hide Eligible, Swept, RetryDelay;
    var db' := Db(swept.accounts - {first.requests[p].user}, swept.requests - {p}, swept.receipts + {p});
    forall id <- first.requests ensures BatchRow(first, db', id, now) {
      assert BatchRow(first, swept, id, now);
    }
  }

  lemma ClaimedThenRetried(db: Db, now: int, token: Token, p: Id)
    requires p in db.requests && Swept(db.requests[p], now) == db.requests[p]
    ensures var swept := Claimed(db, now, token, None);
            var c := Claim(p, db.requests[p].user, token, db.requests[p].attempts + 1);
            var db' := Released(Claimed(db, now, token, Some(p)), c, now);
            && p in swept.requests
            && db' == swept.(requests := swept.requests[p := Retried(db.requests[p], now)])
            && db'.accounts == db.accounts && db'.requests.Keys == db.requests.Keys
            && forall id <- db.requests :: db'.requests[id].user == db.requests[id].user
  {
    hide Swept, RetryDelay;
    var swept := Claimed(db, now, token, None);
    var c := Claim(p, db.requests[p].user, token, db.requests[p].attempts + 1);
    assert Released(Claimed(db, now, token, Some(p)), c, now).requests == swept.requests[p := Retried(db.requests[p], now)];
  }

  lemma ClaimedThenDeleted(db: Db, now: int, token: Token, p: Id)
    requires StatusMatches(db) && p in db.requests && Swept(db.requests[p], now) == db.requests[p]
    ensures var swept := Claimed(db, now, token, None);
            var claimed := Claimed(db, now, token, Some(p));
            var user := db.requests[p].user;
            var c := Claim(p, user, token, db.requests[p].attempts + 1);
            && Holds(claimed, c) && user in db.accounts && swept.accounts == db.accounts
            && Finalized(claimed, c) == Db(swept.accounts - {user}, swept.requests - {p}, swept.receipts + {p})
  {
    hide Swept, RetryDelay;
    var swept := Claimed(db, now, token, None);
    var user := db.requests[p].user;
    var c := Claim(p, user, token, db.requests[p].attempts + 1);
    assert forall id <- db.requests :: db.requests[id].user == user ==> id == p;
    assert Finalized(Claimed(db, now, token, Some(p)), c).requests == swept.requests - {p};
  }

  lemma DeletedKeepsStatus(db: Db, now: int, token: Token, p: Id)
    requires StatusMatches(db) && p in db.requests
    ensures var c := Claim(p, db.requests[p].user, token, db.requests[p].attempts + 1);
            StatusMatches(Finalized(Claimed(db, now, token, Some(p)), c))
  {
    hide Swept, RetryDelay, StatusMatches;
    var c := Claim(p, db.requests[p].user, token, db.requests[p].attempts + 1);
    var claimed := Claimed(db, now, token, Some(p));
    SameUsersKeepStatus(db, claimed);
    WithoutKeepsStatus(claimed, db.requests[p].user);
    SameUsersKeepStatus(Without(claimed, db.requests[p].user), Finalized(claimed, c));
  }

  lemma RetryKeepsBatch(first: Db, db: Db, now: int, token: Token, p: Id)
    requires Batch(first, db, now) && StatusMatches(db) && p in db.requests && Eligible(db.requests[p], now)
    requires Batch(first, Claimed(db, now, token, None), now)
    ensures var c := Claim(p, db.requests[p].user, token, db.requests[p].attempts + 1);
            var db' := Released(Claimed(db, now, token, Some(p)), c, now);
            Batch(first, db', now) && StatusMatches(db')
  {
    var c := Claim(p, db.requests[p].user, token, db.requests[p].attempts + 1);
    hide *;
    StillUntried(first, db, now, p);
    ClaimedThenRetried(db, now, token, p);
    SameUsersKeepStatus(db, Released(Claimed(db, now, token, Some(p)), c, now));
    RowRetried(first, Claimed(db, now, token, None), now, p);
  }

  lemma DeleteKeepsBatch(first: Db, db: Db, now: int, token: Token, p: Id)
    requires Batch(first, db, now) && StatusMatches(db) && p in db.requests && Eligible(db.requests[p], now)
    requires Batch(first, Claimed(db, now, token, None), now)
    ensures var c := Claim(p, db.requests[p].user, token, db.requests[p].attempts + 1);
            var claimed := Claimed(db, now, token, Some(p));
            var db' := Finalized(claimed, c);
            && Holds(claimed, c) && db.requests[p].user in db.accounts && db'.accounts == db.accounts - {db.requests[p].user}
            && Batch(first, db', now) && StatusMatches(db')
  {
    var c := Claim(p, db.requests[p].user, token, db.requests[p].attempts + 1);
    hide *;
    StillUntried(first, db, now, p);
    ClaimedThenDeleted(db, now, token, p);
    DeletedKeepsStatus(db, now, token, p);
    RowDeleted(first, Claimed(db, now, token, None), now, p);
  }
}
