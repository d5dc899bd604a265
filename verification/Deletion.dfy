/**
 Deferred account deletion: requests, restores, leased claims with fencing tokens, retries and final deletion.
 Every transaction is one step on the tables; workers interleave freely and may stop at any point.
 Each transaction carries the instant `now` its worker read earlier, which may lie before the time it runs at.
 */
module Deletion {
  import opened Options
  import opened Leasing

  type Id = nat

  const DELETION_DELAY_MS := 7 * 24 * 60 * 60 * 1000
  const DELETION_LEASE_MS := 5 * 60 * 1000
  const MAX_DELETION_ATTEMPTS := 8

  datatype AccountStatus = Active | Frozen | PendingDeletion
  datatype Account = Account(status: AccountStatus, password: nat)

  datatype Request = Request(user: Id, cancel: nat, scheduledFor: int, status: Status, attempts: nat,
                             nextAttempt: int, lease: Option<Lease>, created: int)

  /** What a worker keeps of the row it claimed. */
  datatype Claim = Claim(id: Id, user: Id, token: Token, attempts: nat)

  datatype Db = Db(accounts: map<Id, Account>, requests: map<Id, Request>, receipts: set<Id>)

  function WorkOf(r: Request): Work { Work(r.status, r.attempts, r.nextAttempt, r.lease) }

  function WithWork(r: Request, w: Work): Request {
    r.(status := w.status, attempts := w.attempts, nextAttempt := w.nextAttempt, lease := w.lease)
  }

  // One function per transaction: the tables after it.

  ghost predicate HasRequest(db: Db, user: Id) { exists id <- db.requests :: db.requests[id].user == user }

  ghost function Asked(db: Db, user: Id, id: Id, cancel: nat, now: int): Db {
    if HasRequest(db, user) || user !in db.accounts || db.accounts[user].status != Active then db
    else
      db.(requests := db.requests[id := Request(user, cancel, now + DELETION_DELAY_MS, Pending, 0, now, None, now)],
          accounts := db.accounts[user := db.accounts[user].(status := PendingDeletion)])
  }

  predicate Restorable(db: Db, row: Id, now: int) {
    && row in db.requests && db.requests[row].user in db.accounts
    && db.requests[row].status == Pending && db.requests[row].scheduledFor > now
    && db.accounts[db.requests[row].user].status == PendingDeletion
  }

  function Restored(db: Db, row: Id, now: int): Db {
    if !Restorable(db, row, now) then db
    else
      var user := db.requests[row].user;
      db.(requests := db.requests - {row}, accounts := db.accounts[user := db.accounts[user].(status := Active)])
  }

  predicate Expired(r: Request, now: int) { RanOut(WorkOf(r), now) }

  /** A processing request whose last lease ran out fails. */
  function Swept(r: Request, now: int): (swept: Request)
    ensures swept.attempts == r.attempts && swept.user == r.user && (swept.lease == r.lease || swept.lease == None)
  {
    WithWork(r, Sweep(WorkOf(r), now, MAX_DELETION_ATTEMPTS))
  }

  function SweptAll(requests: map<Id, Request>, now: int): (swept: map<Id, Request>)
    ensures swept.Keys == requests.Keys
    ensures forall id <- swept :: swept[id] == Swept(requests[id], now)
  {
    map id | id in requests :: Swept(requests[id], now)
  }

  predicate Eligible(r: Request, now: int) {
    MayBeClaimed(WorkOf(r), now, MAX_DELETION_ATTEMPTS) && (r.status == Pending ==> r.scheduledFor <= now)
  }

  predicate NotAfter(a: Request, b: Request) {
    a.scheduledFor < b.scheduledFor || (a.scheduledFor == b.scheduledFor && a.created <= b.created)
  }

  /** The row a claim takes: the oldest eligible one that no other transaction has locked, if there is one. */
  ghost predicate Candidate(db: Db, now: int, locked: set<Id>, pick: Option<Id>) {
    match pick
    case None => forall id <- db.requests :: id in locked || !Eligible(db.requests[id], now)
    case Some(p) =>
      && p in db.requests && p !in locked && Eligible(db.requests[p], now)
      && forall id <- db.requests :: id !in locked && Eligible(db.requests[id], now) ==> NotAfter(db.requests[p], db.requests[id])
  }

  function Taken(r: Request, now: int, token: Token): (taken: Request)
    ensures taken.attempts == r.attempts + 1 && taken.user == r.user
  {
    WithWork(r, Lend(WorkOf(r), token, now + DELETION_LEASE_MS))
  }

  function Claimed(db: Db, now: int, token: Token, pick: Option<Id>): Db {
    var swept := SweptAll(db.requests, now);
    db.(requests := if pick.Some? && pick.value in swept then swept[pick.value := Taken(swept[pick.value], now, token)] else swept)
  }

  /** The row still carries this claim's token. */
  predicate Holds(db: Db, c: Claim) {
    c.id in db.requests && HeldBy(WorkOf(db.requests[c.id]), c.token)
  }

  /** The receipt is queued; the account goes and takes its request with it. */
  function Finalized(db: Db, c: Claim): Db {
    if !Holds(db, c) || db.requests[c.id].user !in db.accounts then db
    else Without(db, db.requests[c.id].user).(receipts := db.receipts + {c.id})
  }

  /** Deleting an account cascades to its request. */
  function Without(db: Db, user: Id): Db {
    db.(accounts := db.accounts - {user}, requests := map id | id in db.requests && db.requests[id].user != user :: db.requests[id])
  }

  function Released(db: Db, c: Claim, now: int): Db {
    if !Holds(db, c) then db
    else
      var r := db.requests[c.id];
      db.(requests := db.requests[c.id := WithWork(r, GiveBack(WorkOf(r), c.attempts, now, MAX_DELETION_ATTEMPTS))])
  }

  // Runs.

  datatype Deleted = Deleted(id: Id, user: Id, due: int, at: int)

  /** The tables, the time, and what history the properties speak of. */
  datatype State = State(db: Db, clock: int, issued: map<Token, Claim>, users: set<Id>, ids: set<Id>, deleted: seq<Deleted>)

  datatype Step =
    | Register(user: Id, password: nat)
    | SetStatus(user: Id, status: AccountStatus)
    | Remove(user: Id)
    | Ask(user: Id, id: Id, cancel: nat, now: int)
    | RestoreRow(row: Id, now: int)
    | ClaimDue(now: int, token: Token, locked: set<Id>, pick: Option<Id>)
    | Finalize(claim: Claim)
    | Release(claim: Claim, now: int)

  /** What the database and the callers guarantee of a step: fresh keys and tokens, claims that were handed out, no clock ahead of time. */
  ghost predicate Legal(s: State, at: int, c: Step) {
    s.clock <= at
    && match c
       case Register(user, _) => user !in s.users
       case SetStatus(user, status) => user in s.db.accounts && s.db.accounts[user].status != PendingDeletion && status != PendingDeletion
       case Remove(_) => true
       case Ask(_, id, _, now) => id !in s.ids && now <= at
       case RestoreRow(_, now) => now <= at
       case ClaimDue(now, token, locked, pick) => token !in s.issued && now <= at && Candidate(s.db, now, locked, pick)
       case Finalize(claim) => claim.token in s.issued && s.issued[claim.token] == claim
       case Release(claim, now) => claim.token in s.issued && s.issued[claim.token] == claim && now <= at
  }

  ghost function Apply(s: State, at: int, c: Step): State {
    match c
    case Register(user, password) =>
      s.(clock := at, users := s.users + {user}, db := s.db.(accounts := s.db.accounts[user := Account(Active, password)]))
    case SetStatus(user, status) =>
      s.(clock := at, db := if user in s.db.accounts then s.db.(accounts := s.db.accounts[user := s.db.accounts[user].(status := status)]) else s.db)
    case Remove(user) => s.(clock := at, db := Without(s.db, user))
    case Ask(user, id, cancel, now) => s.(clock := at, ids := s.ids + {id}, db := Asked(s.db, user, id, cancel, now))
    case RestoreRow(row, now) => s.(clock := at, db := Restored(s.db, row, now))
    case ClaimDue(now, token, _, pick) =>
      s.(clock := at, db := Claimed(s.db, now, token, pick),
         issued := if pick.Some? && pick.value in s.db.requests
                   then s.issued[token := Claim(pick.value, s.db.requests[pick.value].user, token, s.db.requests[pick.value].attempts + 1)]
                   else s.issued)
    case Finalize(claim) =>
      s.(clock := at, db := Finalized(s.db, claim),
         deleted := if Finalized(s.db, claim) != s.db
                    then s.deleted + [Deleted(claim.id, s.db.requests[claim.id].user, s.db.requests[claim.id].scheduledFor, at)]
                    else s.deleted)
    case Release(claim, now) => s.(clock := at, db := Released(s.db, claim, now))
  }

  const Start := State(Db(map[], map[], {}), 0, map[], {}, {}, [])

  datatype Timed = Timed(at: int, step: Step)

  ghost predicate LegalRun(s: State, run: seq<Timed>)
    decreases |run|
  {
    run == [] || (Legal(s, run[0].at, run[0].step) && LegalRun(Apply(s, run[0].at, run[0].step), run[1..]))
  }

  ghost function Final(s: State, run: seq<Timed>): State
    decreases |run|
  {
    if run == [] then s else Final(Apply(s, run[0].at, run[0].step), run[1..])
  }

  // What every step keeps.

  /** A user has at most one request, and is pending deletion exactly while it has one. */
  ghost predicate StatusMatches(db: Db) {
    && (forall id <- db.requests :: db.requests[id].user in db.accounts && db.accounts[db.requests[id].user].status == PendingDeletion)
    && (forall u <- db.accounts :: db.accounts[u].status == PendingDeletion ==> HasRequest(db, u))
    && (forall a <- db.requests, b <- db.requests :: db.requests[a].user == db.requests[b].user ==> a == b)
  }

  ghost predicate RowOk(r: Request, clock: int) {
    && (r.status == Processing <==> r.lease.Some?)
    && (r.status == Processing ==> r.attempts > 0)
    && (r.status == Failed ==> r.attempts == MAX_DELETION_ATTEMPTS)
    && (r.attempts > 0 ==> r.scheduledFor <= clock)
    && r.attempts <= MAX_DELETION_ATTEMPTS
  }

  ghost function Claims(issued: map<Token, Claim>, id: Id): set<Token> { set t <- issued | issued[t].id == id }

  ghost predicate RowsOk(s: State) {
    && (forall id <- s.db.requests :: id in s.ids && RowOk(s.db.requests[id], s.clock) && |Claims(s.issued, id)| == s.db.requests[id].attempts)
    && (forall u <- s.db.accounts :: u in s.users)
  }

  ghost predicate ClaimsOk(s: State) {
    && (forall t <- s.issued :: s.issued[t].token == t && s.issued[t].id in s.ids)
    && (forall t <- s.issued :: s.issued[t].id in s.db.requests ==> s.issued[t].attempts <= s.db.requests[s.issued[t].id].attempts)
    && (forall t <- s.issued, u <- s.issued :: s.issued[t].id == s.issued[u].id && s.issued[t].attempts == s.issued[u].attempts ==> t == u)
    && (forall id <- s.db.requests :: s.db.requests[id].lease.Some? ==>
          var t := s.db.requests[id].lease.value.token;
          t in s.issued && s.issued[t] == Claim(id, s.db.requests[id].user, t, s.db.requests[id].attempts))
    && (forall id :: |Claims(s.issued, id)| <= MAX_DELETION_ATTEMPTS)
  }

  /** Each deletion happened when due or later, to a user and a request that are gone, and queued the receipt. */
  ghost predicate HistoryOk(s: State) {
    && (forall i :: 0 <= i < |s.deleted| ==> DeletedOk(s, s.deleted[i]))
    && (forall i, j :: 0 <= i < j < |s.deleted| ==> s.deleted[i].user != s.deleted[j].user && s.deleted[i].id != s.deleted[j].id)
    && (forall id :: id in s.db.receipts <==> exists d <- s.deleted :: d.id == id)
  }

  ghost predicate DeletedOk(s: State, d: Deleted) {
    d.due <= d.at <= s.clock && d.user in s.users && d.user !in s.db.accounts && d.id in s.ids && d.id !in s.db.requests
  }

  ghost predicate Inv(s: State) { StatusMatches(s.db) && RowsOk(s) && ClaimsOk(s) && HistoryOk(s) }

  lemma SameUsersKeepStatus(db: Db, db': Db)
    requires StatusMatches(db) && db'.accounts == db.accounts && db'.requests.Keys == db.requests.Keys
    requires forall id <- db.requests :: db'.requests[id].user == db.requests[id].user
    ensures StatusMatches(db')
  {
    forall u | HasRequest(db, u) ensures HasRequest(db', u) {
      var id :| id in db.requests && db.requests[id].user == u;
      assert id in db'.requests;
    }
  }

  lemma AskedKeepsStatus(db: Db, user: Id, id: Id, cancel: nat, now: int)
    requires StatusMatches(db) && id !in db.requests
    ensures StatusMatches(Asked(db, user, id, cancel, now))
  {
    var db' := Asked(db, user, id, cancel, now);
    forall u | HasRequest(db, u) ensures HasRequest(db', u) {
      var x :| x in db.requests && db.requests[x].user == u;
      assert x in db'.requests && db'.requests[x].user == u;
    }
    if db' != db {
      assert id in db'.requests && db'.requests[id].user == user;
    }
  }

  lemma RestoredKeepsStatus(db: Db, row: Id, now: int)
    requires StatusMatches(db)
    ensures StatusMatches(Restored(db, row, now))
  {
    var db' := Restored(db, row, now);
    forall u | HasRequest(db, u) && (row !in db.requests || u != db.requests[row].user) ensures HasRequest(db', u) {
      var x :| x in db.requests && db.requests[x].user == u;
      assert x in db'.requests && db'.requests[x].user == u;
    }
  }

  lemma WithoutKeepsStatus(db: Db, user: Id)
    requires StatusMatches(db)
    ensures StatusMatches(Without(db, user))
  {
    var db' := Without(db, user);
    forall u | HasRequest(db, u) && u != user ensures HasRequest(db', u) {
      var x :| x in db.requests && db.requests[x].user == u;
      assert x in db'.requests && db'.requests[x].user == u;
    }
  }

  lemma AccountKeepsStatus(db: Db, user: Id, account: Account)
    requires StatusMatches(db) && account.status != PendingDeletion
    requires user in db.accounts ==> db.accounts[user].status != PendingDeletion
    ensures StatusMatches(db.(accounts := db.accounts[user := account]))
  {
    var db' := db.(accounts := db.accounts[user := account]);
    forall u | HasRequest(db, u) ensures HasRequest(db', u) {
      var x :| x in db.requests && db.requests[x].user == u;
      assert x in db'.requests && db'.requests[x].user == u;
    }
  }

  lemma KeepsStatus(s: State, at: int, c: Step)
    requires Inv(s) && Legal(s, at, c)
    ensures StatusMatches(Apply(s, at, c).db)
  {
    hide StatusMatches, ClaimsOk, HistoryOk;
    match c
    case Register(user, password) => AccountKeepsStatus(s.db, user, Account(Active, password));
    case SetStatus(user, status) => AccountKeepsStatus(s.db, user, s.db.accounts[user].(status := status));
    case Remove(user) => WithoutKeepsStatus(s.db, user);
    case Ask(user, id, cancel, now) => AskedKeepsStatus(s.db, user, id, cancel, now);
    case RestoreRow(row, now) => RestoredKeepsStatus(s.db, row, now);
    case ClaimDue(now, token, _, pick) => SameUsersKeepStatus(s.db, Claimed(s.db, now, token, pick));
    case Finalize(claim) =>
      if Finalized(s.db, claim) != s.db {
        var rest := Without(s.db, s.db.requests[claim.id].user);
        WithoutKeepsStatus(s.db, s.db.requests[claim.id].user);
        SameUsersKeepStatus(rest, Finalized(s.db, claim));
      }
    case Release(claim, now) => SameUsersKeepStatus(s.db, Released(s.db, claim, now));
  }

  lemma ClaimAdded(issued: map<Token, Claim>, c: Claim, id: Id)
    requires c.token !in issued
    ensures Claims(issued[c.token := c], id) == if c.id == id then Claims(issued, id) + {c.token} else Claims(issued, id)
    ensures |Claims(issued[c.token := c], id)| == |Claims(issued, id)| + if c.id == id then 1 else 0
  {
  }

  lemma NoClaims(s: State, id: Id)
    requires ClaimsOk(s) && id !in s.ids
    ensures |Claims(s.issued, id)| == 0
  {
    assert Claims(s.issued, id) == {};
  }

  lemma TakenOk(r: Request, now: int, token: Token, clock: int, at: int)
    requires RowOk(r, clock) && clock <= at && now <= at
    ensures RowOk(Swept(r, now), at)
    ensures Eligible(r, now) ==> RowOk(Taken(Swept(r, now), now, token), at)
  {
  }

  lemma ReleasedOk(r: Request, attempts: nat, next: int, clock: int, at: int)
    requires RowOk(r, clock) && clock <= at && r.attempts == attempts
    ensures RowOk(r.(status := if attempts >= MAX_DELETION_ATTEMPTS then Failed else Pending, nextAttempt := next, lease := None), at)
  {
  }

  lemma LaterOk(r: Request, clock: int, at: int)
    requires RowOk(r, clock) && clock <= at
    ensures RowOk(r, at)
  {
  }

  lemma ClaimKeepsRows(s: State, at: int, c: Step)
    requires RowsOk(s) && c.ClaimDue? && Legal(s, at, c)
    ensures RowsOk(Apply(s, at, c))
  {
    hide RowOk, Eligible, Swept, Taken, Claims;
    forall id <- s.db.requests { TakenOk(s.db.requests[id], c.now, c.token, s.clock, at); }
    if c.pick.Some? {
      var p := c.pick.value;
      var claim := Claim(p, s.db.requests[p].user, c.token, s.db.requests[p].attempts + 1);
      forall id { ClaimAdded(s.issued, claim, id); }
    }
  }

  lemma ReleaseKeepsRows(s: State, at: int, c: Step)
    requires RowsOk(s) && ClaimsOk(s) && c.Release? && Legal(s, at, c)
    ensures RowsOk(Apply(s, at, c))
  {
    hide RowOk, Claims, RetryDelay;
    forall id <- s.db.requests { LaterOk(s.db.requests[id], s.clock, at); }
    if Holds(s.db, c.claim) {
      ReleasedOk(s.db.requests[c.claim.id], c.claim.attempts, c.now + RetryDelay(c.claim.attempts), s.clock, at);
    }
  }

  lemma KeepsRows(s: State, at: int, c: Step)
    requires Inv(s) && Legal(s, at, c)
    ensures RowsOk(Apply(s, at, c))
  {
    if c.ClaimDue? {
      ClaimKeepsRows(s, at, c);
    } else if c.Release? {
      ReleaseKeepsRows(s, at, c);
    } else {
      hide RowOk, HistoryOk, Claims, StatusMatches;
      forall id <- s.db.requests { LaterOk(s.db.requests[id], s.clock, at); }
      if c.Ask? {
        NoClaims(s, c.id);
        FreshRowOk(c.user, c.cancel, c.now, at);
      }
    }
  }

  lemma FreshRowOk(user: Id, cancel: nat, now: int, clock: int)
    ensures RowOk(Request(user, cancel, now + DELETION_DELAY_MS, Pending, 0, now, None, now), clock)
  {
  }

  lemma SweptKeepsClaims(s: State, now: int)
    requires ClaimsOk(s)
    ensures ClaimsOk(s.(db := s.db.(requests := SweptAll(s.db.requests, now))))
  {
    hide Claims;
  }

  lemma TakenKeepsClaims(s: State, p: Id, now: int, token: Token, claim: Claim)
    requires ClaimsOk(s) && p in s.db.requests && p in s.ids && token !in s.issued
    requires |Claims(s.issued, p)| < MAX_DELETION_ATTEMPTS
    requires claim == Claim(p, s.db.requests[p].user, token, s.db.requests[p].attempts + 1)
    ensures ClaimsOk(s.(db := s.db.(requests := s.db.requests[p := Taken(s.db.requests[p], now, token)]), issued := s.issued[token := claim]))
  {
    hide Claims;
    var s' := s.(db := s.db.(requests := s.db.requests[p := Taken(s.db.requests[p], now, token)]), issued := s.issued[token := claim]);
    forall id ensures |Claims(s'.issued, id)| <= MAX_DELETION_ATTEMPTS { ClaimAdded(s.issued, claim, id); }
  }

  lemma ClaimKeepsClaims(s: State, at: int, c: Step)
    requires RowsOk(s) && ClaimsOk(s) && c.ClaimDue? && Legal(s, at, c)
    ensures ClaimsOk(Apply(s, at, c))
  {
    hide RowOk, Claims, ClaimsOk;
    SweptKeepsClaims(s, c.now);
    var s1 := s.(db := s.db.(requests := SweptAll(s.db.requests, c.now)));
    if c.pick.Some? {
      var p := c.pick.value;
      var claim := Claim(p, s.db.requests[p].user, c.token, s.db.requests[p].attempts + 1);
      TakenKeepsClaims(s1, p, c.now, c.token, claim);
      LaterClaimsOk(s1.(db := Claimed(s.db, c.now, c.token, c.pick), issued := s.issued[c.token := claim]), at);
    } else {
      LaterClaimsOk(s1, at);
    }
  }

  lemma LaterClaimsOk(s: State, at: int)
    requires ClaimsOk(s)
    ensures ClaimsOk(s.(clock := at))
  {
  }

  lemma KeepsClaims(s: State, at: int, c: Step)
    requires Inv(s) && Legal(s, at, c)
    ensures ClaimsOk(Apply(s, at, c))
  {
    if c.ClaimDue? {
      ClaimKeepsClaims(s, at, c);
    } else if c.Release? {
      hide RowOk, HistoryOk, Claims, StatusMatches, RetryDelay;
    } else {
      hide ClaimsOk, HistoryOk, StatusMatches, RowOk, Claims;
      FewerRowsKeepClaims(s, Apply(s, at, c));
    }
  }

  lemma FewerRowsKeepClaims(s: State, s': State)
    requires ClaimsOk(s) && s'.issued == s.issued && s.ids <= s'.ids
    requires forall id <- s'.db.requests ::
               (id in s.db.requests && s'.db.requests[id] == s.db.requests[id]) || (id !in s.ids && s'.db.requests[id].lease.None?)
    ensures ClaimsOk(s')
  {
    hide Claims;
  }

  lemma FinalizeKeepsHistory(s: State, at: int, c: Step)
    requires Inv(s) && c.Finalize? && Legal(s, at, c)
    ensures HistoryOk(Apply(s, at, c))
  {
    hide ClaimsOk;
    var s' := Apply(s, at, c);
    if s'.db != s.db {
      assert s'.deleted[|s.deleted|] in s'.deleted;
      assert forall d <- s.deleted :: d in s'.deleted;
    }
  }

  lemma KeepsHistory(s: State, at: int, c: Step)
    requires Inv(s) && Legal(s, at, c)
    ensures HistoryOk(Apply(s, at, c))
  {
    if c.Finalize? {
      FinalizeKeepsHistory(s, at, c);
    } else {
      hide RowOk, ClaimsOk, Claims, StatusMatches, RetryDelay;
    }
  }

  lemma KeepsInv(s: State, at: int, c: Step)
    requires Inv(s) && Legal(s, at, c)
    ensures Inv(Apply(s, at, c))
  {
    KeepsStatus(s, at, c);
    KeepsRows(s, at, c);
    KeepsClaims(s, at, c);
    KeepsHistory(s, at, c);
  }

  lemma {:induction false} RunKeepsInv(s: State, run: seq<Timed>)
    requires Inv(s) && LegalRun(s, run)
    ensures Inv(Final(s, run))
    decreases |run|
  {
    hide Inv, Legal, Apply;
    if run != [] {
      KeepsInv(s, run[0].at, run[0].step);
      RunKeepsInv(Apply(s, run[0].at, run[0].step), run[1..]);
    }
  }

  lemma Reachable(run: seq<Timed>)
    requires LegalRun(Start, run)
    ensures Inv(Final(Start, run))
  {
    RunKeepsInv(Start, run);
  }

  // What that means, for every run from empty tables.

  /** An account is pending deletion exactly while it has a request, and then it has one. */
  lemma PendingMeansRequested(run: seq<Timed>, user: Id)
    requires LegalRun(Start, run)
    ensures var db := Final(Start, run).db;
            && ((user in db.accounts && db.accounts[user].status == PendingDeletion) <==> HasRequest(db, user))
            && forall a <- db.requests, b <- db.requests :: db.requests[a].user == db.requests[b].user ==> a == b
  {
    Reachable(run);
    hide LegalRun, Final;
  }

  /** No account is deleted twice, none before its request was due, each deleted one stays gone, and each queued one receipt. */
  lemma DeletedOnceAndNotEarly(run: seq<Timed>)
    requires LegalRun(Start, run)
    ensures var s := Final(Start, run);
            && (forall d <- s.deleted :: d.due <= d.at && d.user !in s.db.accounts && d.id !in s.db.requests)
            && (forall i, j :: 0 <= i < j < |s.deleted| ==> s.deleted[i].user != s.deleted[j].user && s.deleted[i].id != s.deleted[j].id)
            && (forall id :: id in s.db.receipts <==> exists d <- s.deleted :: d.id == id)
  {
    Reachable(run);
    hide LegalRun, Final;
  }

  /** However workers crash and leases run out, no request is claimed more than eight times, and it fails only after the eighth. */
  lemma AtMostEightClaims(run: seq<Timed>, id: Id)
    requires LegalRun(Start, run)
    ensures var s := Final(Start, run);
            && |Claims(s.issued, id)| <= MAX_DELETION_ATTEMPTS
            && (id in s.db.requests ==> |Claims(s.issued, id)| == s.db.requests[id].attempts)
            && (id in s.db.requests && s.db.requests[id].status == Failed ==> |Claims(s.issued, id)| == MAX_DELETION_ATTEMPTS)
  {
    Reachable(run);
    hide LegalRun, Final;
  }

  /** A finalisation or a release takes effect exactly for the holder of the current token, which is the newest claim of its request. */
  lemma OnlyTheHolderActs(run: seq<Timed>, c: Claim, now: int)
    requires LegalRun(Start, run) && c.token in Final(Start, run).issued && Final(Start, run).issued[c.token] == c
    ensures var s := Final(Start, run);
            && (Finalized(s.db, c) != s.db <==> Holds(s.db, c))
            && (Released(s.db, c, now) != s.db <==> Holds(s.db, c))
            && (Holds(s.db, c) ==> s.db.requests[c.id].user == c.user
                                   && forall t <- s.issued :: s.issued[t].id == c.id ==> s.issued[t].attempts <= c.attempts)
  {
    Reachable(run);
    hide LegalRun, Final;
    var s := Final(Start, run);
    if Holds(s.db, c) {
      assert c.user !in Finalized(s.db, c).accounts && c.user in s.db.accounts;
      assert Released(s.db, c, now).requests[c.id].lease.None?;
    }
  }

  /** A claim that no longer holds its request never holds it again. */
  lemma {:induction false} LostLeaseStaysLost(s: State, run: seq<Timed>, c: Claim)
    requires Inv(s) && LegalRun(s, run) && c.token in s.issued && !Holds(s.db, c)
    ensures !Holds(Final(s, run).db, c)
    decreases |run|
  {
    hide Inv;
    if run != [] {
      KeepsInv(s, run[0].at, run[0].step);
      LostByStep(s, run[0].at, run[0].step, c);
      LostLeaseStaysLost(Apply(s, run[0].at, run[0].step), run[1..], c);
    }
  }

  lemma LostByStep(s: State, at: int, step: Step, c: Claim)
    requires Legal(s, at, step) && c.token in s.issued && !Holds(s.db, c)
    ensures !Holds(Apply(s, at, step).db, c) && c.token in Apply(s, at, step).issued
  {
    hide RetryDelay;
  }

  /** A finalised or released request is not held by the claim that did it. */
  lemma ActingEndsTheLease(s: State, c: Claim, now: int)
    requires Inv(s)
    ensures !Holds(Released(s.db, c, now), c) && !Holds(Finalized(s.db, c), c)
  {
  }

  // Leases keep others out.

  /** A step that could end this claim's hold before its lease runs out: its own worker's, or the removal of the account. */
  predicate EndsHold(step: Step, c: Claim) {
    step == Finalize(c) || (step.Release? && step.claim == c) || step == Remove(c.user)
  }

  /** The steps that leave the claim alone: nobody claims by an instant from `until` on, and nobody ends the hold. */
  ghost predicate LeftAlone(run: seq<Timed>, c: Claim, until: int) {
    forall k :: 0 <= k < |run| ==> !EndsHold(run[k].step, c) && (run[k].step.ClaimDue? ==> run[k].step.now < until)
  }

  ghost predicate HeldUntil(db: Db, c: Claim, until: int) {
    Holds(db, c) && db.requests[c.id].lease == Some(Lease(c.token, until)) && db.requests[c.id].user == c.user
  }

  lemma HeldByStep(s: State, at: int, step: Step, c: Claim, until: int)
    requires Inv(s) && Legal(s, at, step) && HeldUntil(s.db, c, until) && c.token in s.issued && s.issued[c.token] == c
    requires !EndsHold(step, c) && (step.ClaimDue? ==> step.now < until)
    ensures var s' := Apply(s, at, step);
            HeldUntil(s'.db, c, until) && c.token in s'.issued && s'.issued[c.token] == c
            && (step.ClaimDue? ==> step.pick != Some(c.id))
  {
    hide RowOk, HistoryOk, Claims, RetryDelay;
    if step.ClaimDue? {
      var r := s.db.requests[c.id];
      assert !Eligible(r, step.now) && Swept(r, step.now) == r;
    }
  }

  /** While the lease lasts nobody else gets the request, whatever the other workers, users and administrators do. */
  lemma {:induction false} NobodyElseClaims(s: State, run: seq<Timed>, c: Claim, until: int)
    requires Inv(s) && LegalRun(s, run) && HeldUntil(s.db, c, until) && c.token in s.issued && s.issued[c.token] == c
    requires LeftAlone(run, c, until)
    ensures HeldUntil(Final(s, run).db, c, until)
    ensures forall k :: 0 <= k < |run| && run[k].step.ClaimDue? ==> run[k].step.pick != Some(c.id)
    decreases |run|
  {
    hide Inv, Legal, Apply, HeldUntil, EndsHold;
    if run != [] {
      HeldByStep(s, run[0].at, run[0].step, c, until);
      KeepsInv(s, run[0].at, run[0].step);
      forall k | 0 <= k < |run[1..]| ensures run[1..][k] == run[k + 1] {
      }
      assert LeftAlone(run[1..], c, until);
      NobodyElseClaims(Apply(s, run[0].at, run[0].step), run[1..], c, until);
      forall k | 0 < k < |run| && run[k].step.ClaimDue? ensures run[k].step.pick != Some(c.id) {
        assert run[1..][k - 1] == run[k];
      }
    }
  }

  lemma HeldAfterClaim(s: State, at: int, now: int, token: Token, locked: set<Id>, p: Id)
    requires Legal(s, at, ClaimDue(now, token, locked, Some(p)))
    ensures p in s.db.requests
    ensures var c := Claim(p, s.db.requests[p].user, token, s.db.requests[p].attempts + 1);
            var s' := Apply(s, at, ClaimDue(now, token, locked, Some(p)));
            HeldUntil(s'.db, c, now + 5 * 60 * 1000) && Holds(s'.db, c) && c.token in s'.issued && s'.issued[c.token] == c
  {
  }

  lemma HeldIsHolding(db: Db, c: Claim, until: int)
    requires HeldUntil(db, c, until)
    ensures Holds(db, c)
  {
  }

  /**
   Mutual exclusion: in every continuation of a claim in which no later claim's instant is five minutes past this one's,
   the claim keeps its hold and no other claim gets the request, unless its own worker gives it up or the account is removed.
   */
  lemma ClaimsExclude(s: State, at: int, now: int, token: Token, locked: set<Id>, p: Id, run: seq<Timed>)
    requires Inv(s) && Legal(s, at, ClaimDue(now, token, locked, Some(p))) && p in s.db.requests
    requires LegalRun(Apply(s, at, ClaimDue(now, token, locked, Some(p))), run)
    requires LeftAlone(run, Claim(p, s.db.requests[p].user, token, s.db.requests[p].attempts + 1), now + 5 * 60 * 1000)
    ensures var c := Claim(p, s.db.requests[p].user, token, s.db.requests[p].attempts + 1);
            && Holds(Final(Apply(s, at, ClaimDue(now, token, locked, Some(p))), run).db, c)
            && forall k :: 0 <= k < |run| && run[k].step.ClaimDue? ==> run[k].step.pick != Some(p)
  {
    var step := ClaimDue(now, token, locked, Some(p));
    var c := Claim(p, s.db.requests[p].user, token, s.db.requests[p].attempts + 1);
    hide *;
    KeepsInv(s, at, step);
    HeldAfterClaim(s, at, now, token, locked, p);
    NobodyElseClaims(Apply(s, at, step), run, c, now + 5 * 60 * 1000);
    HeldIsHolding(Final(Apply(s, at, step), run).db, c, now + 5 * 60 * 1000);
  }

  /** Just after a claim: the claim holds the request, and it can be claimed again exactly from five minutes on, if attempts are left. */
  lemma ClaimableAgain(db: Db, now: int, token: Token, locked: set<Id>, p: Id, later: int)
    requires Candidate(db, now, locked, Some(p))
    ensures var db' := Claimed(db, now, token, Some(p));
            && Holds(db', Claim(p, db.requests[p].user, token, db.requests[p].attempts + 1))
            && (Eligible(db'.requests[p], later) <==> later >= now + 5 * 60 * 1000 && db'.requests[p].attempts < 8)
            && db'.requests[p].attempts == db.requests[p].attempts + 1
  {
  }

  /** Just after a release: claimable again exactly once the request is due and the delay, a minute doubled with each attempt, is over. */
  lemma ReleasedWaits(db: Db, c: Claim, now: int, later: int)
    requires Holds(db, c) && 1 <= c.attempts == db.requests[c.id].attempts <= 8
    ensures var r := Released(db, c, now).requests[c.id];
            && !Holds(Released(db, c, now), c)
            && (Eligible(r, later) <==> c.attempts < 8 && later >= r.scheduledFor && later >= now + 60000 * PowerOfTwo(c.attempts - 1))
            && (r.status == Failed <==> c.attempts == 8)
  {
    DelaysDouble(c.attempts);
    PowersUpToEight(c.attempts);
  }

  lemma PowersUpToEight(n: nat)
    requires 1 <= n <= 8
    ensures PowerOfTwo(n - 1) <= 128
  {
    assert PowerOfTwo(0) == 1 && PowerOfTwo(1) == 2 && PowerOfTwo(2) == 4 && PowerOfTwo(3) == 8;
    assert PowerOfTwo(4) == 16 && PowerOfTwo(5) == 32 && PowerOfTwo(6) == 64 && PowerOfTwo(7) == 128;
  }

  /** Restoring a fresh request before it is due undoes it: account and requests are as before. */
  lemma RestoreUndoesAsking(db: Db, user: Id, id: Id, cancel: nat, now: int, later: int)
    requires id !in db.requests && Asked(db, user, id, cancel, now) != db
    ensures Restored(Asked(db, user, id, cancel, now), id, later) == if later < now + 7 * DAY_MS then db else Asked(db, user, id, cancel, now)
  {
    var asked := Asked(db, user, id, cancel, now);
    assert asked.requests - {id} == db.requests;
    assert asked.accounts[user := db.accounts[user]] == db.accounts;
  }

  /** A request that was just made can first be claimed a week later. */
  lemma AskedWaits(db: Db, user: Id, id: Id, cancel: nat, now: int, later: int)
    requires Asked(db, user, id, cancel, now) != db
    ensures id in Asked(db, user, id, cancel, now).requests
    ensures Eligible(Asked(db, user, id, cancel, now).requests[id], later) <==> later >= now + 7 * DAY_MS
  {
  }

  /** A failed request never changes again; only removing its account removes it. */
  lemma {:induction false} FailedIsAbsorbing(s: State, run: seq<Timed>, id: Id)
    requires Inv(s) && LegalRun(s, run) && id in s.db.requests && s.db.requests[id].status == Failed
    ensures var db := Final(s, run).db;
            (id in db.requests && db.requests[id] == s.db.requests[id])
            || (id !in db.requests && exists k :: 0 <= k < |run| && run[k].step == Remove(s.db.requests[id].user))
    decreases |run|
  {
    hide Inv;
    if run != [] {
      var s1 := Apply(s, run[0].at, run[0].step);
      KeepsInv(s, run[0].at, run[0].step);
      FailedByStep(s, run[0].at, run[0].step, id);
      if id in s1.db.requests {
        FailedIsAbsorbing(s1, run[1..], id);
        assert forall k :: 0 <= k < |run[1..]| ==> run[1..][k] == run[k + 1];
      } else {
        assert id in s1.ids;
        GoneStaysGone(s1, run[1..], id);
      }
    }
  }

  lemma FailedByStep(s: State, at: int, step: Step, id: Id)
    requires Inv(s) && Legal(s, at, step) && id in s.db.requests && s.db.requests[id].status == Failed
    ensures var s1 := Apply(s, at, step);
            && id in s1.ids
            && (if step == Remove(s.db.requests[id].user) then id !in s1.db.requests
                else id in s1.db.requests && s1.db.requests[id] == s.db.requests[id])
  {
    hide HistoryOk, ClaimsOk, Claims, RetryDelay;
  }

  lemma {:induction false} GoneStaysGone(s: State, run: seq<Timed>, id: Id)
    requires LegalRun(s, run) && id in s.ids && id !in s.db.requests
    ensures id !in Final(s, run).db.requests
    decreases |run|
  {
    hide RetryDelay;
    if run != [] {
      GoneStaysGone(Apply(s, run[0].at, run[0].step), run[1..], id);
    }
  }

  /**
   A request that was claimed before is restored iff it is back to pending and the restore's own instant lies before the due time.
   Such an instant is out of date: it lies before the present, so a restore that reads the clock afresh never does it.
   */
  lemma ClaimedIsRestoredOnlyByAnOldInstant(run: seq<Timed>, row: Id, now: int)
    requires LegalRun(Start, run)
    ensures var s := Final(Start, run);
            row in s.db.requests && s.db.requests[row].attempts > 0 ==>
              && (Restored(s.db, row, now) != s.db <==> s.db.requests[row].status == Pending && now < s.db.requests[row].scheduledFor)
              && (Restored(s.db, row, now) != s.db ==> now < s.clock)
  {
    Reachable(run);
    hide LegalRun, Final;
    var s := Final(Start, run);
    if Restorable(s.db, row, now) {
      assert row !in Restored(s.db, row, now).requests;
    }
  }

  lemma FirstStep(s: State, first: Timed, rest: seq<Timed>)
    requires Legal(s, first.at, first.step) && LegalRun(Apply(s, first.at, first.step), rest)
    ensures LegalRun(s, [first] + rest) && Final(s, [first] + rest) == Final(Apply(s, first.at, first.step), rest)
  {
    assert ([first] + rest)[1..] == rest;
  }

  // The request of one account: waiting, claimed when due, released for a retry, restored.
  const DUE := DELETION_DELAY_MS
  const WAITING := Request(1, 9, DUE, Pending, 0, 0, None, 0)
  const ASKED := State(Db(map[1 := Account(PendingDeletion, 5)], map[7 := WAITING], {}), 0, map[], {1}, {7}, [])
  const RETRYING := State(Db(ASKED.db.accounts, map[7 := WAITING.(attempts := 1, nextAttempt := DUE + RetryDelay(1))], {}),
                          DUE, map[3 := Claim(7, 1, 3, 1)], {1}, {7}, [])
  const RESTORED := RETRYING.(db := Db(map[1 := Account(Active, 5)], map[], {}))

  lemma AskedFromStart() returns (run: seq<Timed>)
    ensures LegalRun(Start, run) && Final(Start, run) == ASKED
  {
    var register, ask := Timed(0, Register(1, 5)), Timed(0, Ask(1, 7, 9, 0));
    var s := State(Db(map[1 := Account(Active, 5)], map[], {}), 0, map[], {1}, {}, []);
    assert LegalRun(ASKED, []) && Final(ASKED, []) == ASKED;
    hide LegalRun, Final;
    assert Apply(s, 0, ask.step) == ASKED by {
      assert !HasRequest(s.db, 1);
    }
    FirstStep(s, ask, []);
    assert Apply(Start, 0, register.step) == s;
    FirstStep(Start, register, [ask] + []);
    run := [register] + ([ask] + []);
  }

  lemma ClaimedThenReleased() returns (run: seq<Timed>)
    ensures LegalRun(ASKED, run) && Final(ASKED, run) == RETRYING
  {
    var take, retry := Timed(DUE, ClaimDue(DUE, 3, {}, Some(7))), Timed(DUE, Release(Claim(7, 1, 3, 1), DUE));
    var taken := WAITING.(status := Processing, attempts := 1, lease := Some(Lease(3, DUE + DELETION_LEASE_MS)));
    var s := RETRYING.(db := RETRYING.db.(requests := map[7 := taken]));
    assert LegalRun(RETRYING, []) && Final(RETRYING, []) == RETRYING;
    hide LegalRun, Final;
    assert Apply(s, DUE, retry.step) == RETRYING && Legal(s, DUE, retry.step);
    FirstStep(s, retry, []);
    assert Apply(ASKED, DUE, take.step) == s && Legal(ASKED, DUE, take.step);
    FirstStep(ASKED, take, [retry] + []);
    run := [take] + ([retry] + []);
  }

  lemma {:induction false} RunsJoin(s: State, a: seq<Timed>, b: seq<Timed>)
    requires LegalRun(s, a) && LegalRun(Final(s, a), b)
    ensures LegalRun(s, a + b) && Final(s, a + b) == Final(Final(s, a), b)
    decreases |a|
  {
    hide Legal, Apply;
    if a == [] {
      assert a + b == b;
    } else {
      RunsJoin(Apply(s, a[0].at, a[0].step), a[1..], b);
      assert (a + b)[1..] == a[1..] + b;
    }
  }

  /** A claimed request does get restored: by an instant read just before it was due. */
  lemma RestoredAfterAClaim() returns (run: seq<Timed>)
    ensures LegalRun(Start, run) && Final(Start, run) == RESTORED
    ensures |Claims(RESTORED.issued, 7)| == 1 && 7 !in RESTORED.db.requests && RESTORED.db.accounts[1].status == Active
  {
    var restore := Timed(DUE, RestoreRow(7, DUE - 1));
    var ask := AskedFromStart();
    var claim := ClaimedThenReleased();
    assert Claims(RESTORED.issued, 7) == {3};
    assert LegalRun(RESTORED, []) && Final(RESTORED, []) == RESTORED;
    assert Apply(RETRYING, DUE, restore.step) == RESTORED && Legal(RETRYING, DUE, restore.step);
    FirstStep(RETRYING, restore, []);
    RunsJoin(ASKED, claim, [restore] + []);
    RunsJoin(Start, ask, claim + ([restore] + []));
    run := ask + (claim + ([restore] + []));
  }

  /** The retry delays double from one minute; within the allowed attempts the cap of a day is never reached. */
  lemma DelaysDouble(attempt: nat)
    ensures 1 <= attempt < MAX_DELETION_ATTEMPTS ==> RetryDelay(attempt + 1) == 2 * RetryDelay(attempt)
    ensures 0 < RetryDelay(attempt) <= DAY_MS
    ensures attempt <= MAX_DELETION_ATTEMPTS ==> RetryDelay(attempt) < DAY_MS
  {
    if attempt <= MAX_DELETION_ATTEMPTS {
      assert PowerOfTwo(0) == 1 && PowerOfTwo(1) == 2 && PowerOfTwo(2) == 4 && PowerOfTwo(3) == 8;
      assert PowerOfTwo(4) == 16 && PowerOfTwo(5) == 32 && PowerOfTwo(6) == 64 && PowerOfTwo(7) == 128;
    }
  }
}
