/**
 The job runner as a state machine: each step is one stretch of code between two awaits, in any interleaving of
 worker messages, errors, exits, timeouts, cancellations, lost leases, preemption, shutdown and re-initialisation.
 */
module Runner {
  import opened Options
  import opened Numbers

  type JobId = nat
  type Token = nat

  /** The store calls that end an attempt. */
  datatype Call = Complete | Fail | Cancel | Retry | Release

  /** What a settling attempt waits for: the progress flush, the job's row, the worker's end, the store call. */
  datatype Stage =
    | Running
    | Flushing(call: Call)
    | Looking(call: Call, stopFirst: bool)
    | Stopping(next: Onward)
    | Calling(call: Call)
    | Done

  datatype Onward = ThenCancel | ThenLook(call: Call)

  /** Whether the map of active attempts holds it, or how it left. */
  datatype Fate = Present | Settled | Preempted | Superseded

  datatype Job = Job(id: JobId, idle: bool)
  datatype Attempt = Attempt(job: Job, token: Token, settling: bool, renewing: bool, stage: Stage, fate: Fate)

  /** Where the pump waits. */
  datatype Pump =
    | Idle
    | Claiming
    | Preempting(candidates: set<JobId>)
    | Evicting(victim: nat, job: Job, token: Token)
    | Releasing(token: Token, preempting: bool)
    | Retrying(token: Token, preempting: bool)

  datatype State = State(accepting: bool, initialized: bool, limit: nat, peak: nat, attempts: seq<Attempt>, active: map<JobId, nat>,
                         pump: Pump, claimed: set<Token>, calls: seq<(Token, Call)>)

  datatype Answer = Cancelled | Going | Throws

  datatype Event =
    | Initialize
    | InitializeFailed
    | BeginShutdown
    | EndShutdown
    | Reconfigure(limit: nat)
    | Request
    | Message(i: nat, call: Call)
    | CancelRequest(job: JobId)
    | Stop(i: nat, terminate: bool)
    | Interrupt(i: nat)
    | Flushed(i: nat)
    | Looked(i: nat, answer: Answer)
    | Stopped(i: nat, ok: bool)
    | Called(i: nat)
    | ClaimAnswer(claim: Option<(Job, Token)>, spawns: bool)
    | PumpThrows
    | ReleaseAnswer
    | RetryAnswer
    | PreemptAnswer(claim: Option<(Job, Token)>, interrupted: JobId, spawns: bool)
    | Evicted(spawns: bool)

  // The stretches of code.

  /** The attempts a waiting paid job may replace. */
  function Replaceable(s: State): set<JobId>
    requires forall j <- s.active :: s.active[j] < |s.attempts|
  {
    set j <- s.active | !s.attempts[s.active[j]].settling && s.attempts[s.active[j]].job.idle
  }

  ghost predicate Indexed(s: State) {
    forall j <- s.active :: s.active[j] < |s.attempts|
  }

  ghost function PreemptHead(s: State): (r: State)
    requires Indexed(s)
    ensures r == s.(pump := r.pump)
  {
    if s.accepting && Replaceable(s) != {} then s.(pump := Preempting(Replaceable(s))) else s.(pump := Idle)
  }

  ghost function PumpHead(s: State): (r: State)
    requires Indexed(s)
    ensures r == s.(pump := r.pump)
  {
    if s.accepting && |s.active| < s.limit then s.(pump := Claiming) else PreemptHead(s)
  }

  /** `handleOptimizeJobProcessingRequest`: initialises first if need be. */
  ghost function Wake(s: State): (r: State)
    requires Indexed(s)
    ensures r == s.(pump := r.pump, accepting := r.accepting, initialized := r.initialized)
    ensures s.initialized ==> r == s.(pump := r.pump)
  {
    if !s.initialized then s.(initialized := true, accepting := true)
    else if s.accepting && s.pump == Idle then PumpHead(s)
    else s
  }

  predicate Holds(s: State, i: nat) {
    i < |s.attempts| && s.attempts[i].job.id in s.active && s.active[s.attempts[i].job.id] == i
  }

  function Updated(s: State, i: nat, a: Attempt): State
    requires i < |s.attempts|
  {
    s.(attempts := s.attempts[i := a])
  }

  /** The guard and first stretch of every settle path. */
  function Enter(s: State, i: nat, stage: Stage, renewing: bool): State {
    if !Holds(s, i) || s.attempts[i].settling then s
    else Updated(s, i, s.attempts[i].(settling := true, stage := stage, renewing := renewing && s.attempts[i].renewing))
  }

  function Issue(s: State, i: nat, call: Call): State
    requires i < |s.attempts|
  {
    Updated(s, i, s.attempts[i].(stage := Calling(call))).(calls := s.calls + [(s.attempts[i].token, call)])
  }

  /** `finishAttempt`, up to the request it ends with. */
  function Removed(s: State, i: nat, fate: Fate): State
    requires i < |s.attempts|
  {
    if !Holds(s, i) then s
    else Updated(s, i, s.attempts[i].(fate := fate)).(active := s.active - {s.attempts[i].job.id})
  }

  /** The end of a settle path. */
  ghost function Finish(s: State, i: nat): State
    requires i < |s.attempts| && Indexed(s)
  {
    var s1 := Updated(s, i, s.attempts[i].(stage := Done, renewing := false));
    if Holds(s, i) && s.accepting then Wake(Removed(s1, i, Settled)) else Removed(s1, i, Settled)
  }

  /** `spawnClaimedWorker`: a new attempt takes the job's place in the map. */
  function Spawn(s: State, job: Job, token: Token): State
    requires job.id in s.active ==> s.active[job.id] < |s.attempts|
  {
    var s1 := if job.id in s.active then Updated(s, s.active[job.id], s.attempts[s.active[job.id]].(fate := Superseded)) else s;
    s1.(attempts := s1.attempts + [Attempt(job, token, false, true, Running, Present)],
        active := s.active[job.id := |s.attempts|], claimed := s.claimed + {token}, pump := Idle)
  }

  function PumpCall(s: State, token: Token, call: Call, pump: Pump): State {
    s.(claimed := s.claimed + {token}, calls := s.calls + [(token, call)], pump := pump)
  }

  ghost function ClaimOutcome(s: State, job: Job, token: Token, spawns: bool): State
    requires Indexed(s)
  {
    if !s.accepting then PumpCall(s, token, Release, Releasing(token, false))
    else if spawns then PumpHead(Spawn(s, job, token))
    else PumpCall(s, token, Retry, Retrying(token, false))
  }

  ghost function PreemptOutcome(s: State, job: Job, token: Token, spawns: bool): State
    requires Indexed(s)
  {
    if !s.accepting then PumpCall(s, token, Release, Releasing(token, true))
    else if spawns then PreemptHead(Spawn(s, job, token))
    else PumpCall(s, token, Retry, Retrying(token, true))
  }

  /** The victim stops renewing and counts as settling before its worker is terminated. */
  function Condemned(s: State, victim: nat, job: Job, token: Token): State
    requires victim < |s.attempts|
  {
    Updated(s, victim, s.attempts[victim].(settling := true, renewing := false)).(claimed := s.claimed + {token}, pump := Evicting(victim, job, token))
  }

  ghost function VictimGone(s: State, victim: nat): State
    requires victim < |s.attempts| && Indexed(s)
  {
    if Holds(s, victim) && s.accepting then Wake(Removed(s, victim, Preempted)) else Removed(s, victim, Preempted)
  }

  /** The job's row is read: a cancelled job is cancelled, the worker being stopped first unless it was already. */
  ghost function AfterLook(s: State, i: nat, answer: Answer): State
    requires Indexed(s) && i < |s.attempts| && s.attempts[i].stage.Looking?
  {
    if answer == Throws then Finish(s, i)
    else if answer == Going then Issue(s, i, s.attempts[i].stage.call)
    else if s.attempts[i].stage.stopFirst then Updated(s, i, s.attempts[i].(stage := Stopping(ThenCancel)))
    else Issue(s, i, Cancel)
  }

  ghost function AfterStop(s: State, i: nat, ok: bool): State
    requires Indexed(s) && i < |s.attempts| && s.attempts[i].stage.Stopping?
  {
    if !ok then Finish(s, i)
    else if s.attempts[i].stage.next == ThenCancel then Issue(s, i, Cancel)
    else Updated(s, i, s.attempts[i].(stage := Looking(s.attempts[i].stage.next.call, false)))
  }

  ghost function AfterClaim(s: State, claim: Option<(Job, Token)>, spawns: bool): State
    requires Indexed(s)
  {
    if claim.None? then PreemptHead(s) else ClaimOutcome(s, claim.value.0, claim.value.1, spawns)
  }

  ghost function AfterPreempt(s: State, claim: Option<(Job, Token)>, interrupted: JobId, spawns: bool): State
    requires Indexed(s)
  {
    if claim.None? then s.(pump := Idle)
    else if interrupted in s.active then Condemned(s, s.active[interrupted], claim.value.0, claim.value.1)
    else PreemptOutcome(s, claim.value.0, claim.value.1, spawns)
  }

  ghost function AfterEviction(s: State, spawns: bool): State
    requires Indexed(s) && s.pump.Evicting? && s.pump.victim < |s.attempts|
  {
    PreemptOutcome(VictimGone(s, s.pump.victim), s.pump.job, s.pump.token, spawns)
  }

  /** What may happen next: each answer comes to whoever waits for it, tokens are fresh, the victim is one of the candidates. */
  ghost predicate Possible(s: State, e: Event) {
    match e
    case Initialize => !s.initialized
    case Message(_, call) => call in {Complete, Fail, Retry}
    case Flushed(i) => i < |s.attempts| && s.attempts[i].stage.Flushing?
    case Looked(i, _) => i < |s.attempts| && s.attempts[i].stage.Looking?
    case Stopped(i, _) => i < |s.attempts| && s.attempts[i].stage.Stopping?
    case Called(i) => i < |s.attempts| && s.attempts[i].stage.Calling?
    case ClaimAnswer(claim, _) => s.pump.Claiming? && (claim.Some? ==> claim.value.1 !in s.claimed)
    case PumpThrows => s.pump.Claiming? || s.pump.Preempting? || s.pump.Releasing? || s.pump.Retrying?
    case ReleaseAnswer => s.pump.Releasing?
    case RetryAnswer => s.pump.Retrying?
    case PreemptAnswer(claim, interrupted, _) =>
      s.pump.Preempting? && (claim.Some? ==> claim.value.1 !in s.claimed && interrupted in s.pump.candidates)
    case Evicted(_) => s.pump.Evicting?
    case _ => true
  }

  ghost function After(s: State, e: Event): State
    requires Indexed(s) && Possible(s, e) && (s.pump.Evicting? ==> s.pump.victim < |s.attempts|)
  {
    match e
    case Initialize => s.(initialized := true, accepting := true)
    case InitializeFailed => s.(initialized := false, accepting := false)
    case BeginShutdown => s.(accepting := false)
    case EndShutdown => s.(initialized := false)
    case Reconfigure(limit) => s.(limit := limit, peak := Max(s.peak, limit))
    case Request => Wake(s)
    case Message(i, call) => Enter(s, i, Flushing(call), true)
    case CancelRequest(job) => if job in s.active then Enter(s, s.active[job], Stopping(ThenCancel), false) else s
    case Stop(i, terminate) => Enter(s, i, if terminate then Stopping(ThenLook(Retry)) else Looking(Retry, false), false)
    case Interrupt(i) => Enter(s, i, Stopping(ThenLook(Release)), false)
    case Flushed(i) => Updated(s, i, s.attempts[i].(stage := Looking(s.attempts[i].stage.call, true)))
    case Looked(i, answer) => AfterLook(s, i, answer)
    case Stopped(i, ok) => AfterStop(s, i, ok)
    case Called(i) => Finish(s, i)
    case ClaimAnswer(claim, spawns) => AfterClaim(s, claim, spawns)
    case PumpThrows => s.(pump := Idle)
    case ReleaseAnswer => if s.pump.preempting then s.(pump := Idle) else PreemptHead(s)
    case RetryAnswer => if s.pump.preempting then PreemptHead(s) else PumpHead(s)
    case PreemptAnswer(claim, interrupted, spawns) => AfterPreempt(s, claim, interrupted, spawns)
    case Evicted(spawns) => AfterEviction(s, spawns)
  }

  // What every step keeps.

  function Count(calls: seq<(Token, Call)>, t: Token): (n: nat)
  {
    if calls == [] then 0 else Count(calls[..|calls| - 1], t) + if calls[|calls| - 1].0 == t then 1 else 0
  }

  lemma CountOne(calls: seq<(Token, Call)>, c: (Token, Call), t: Token)
    ensures Count(calls + [c], t) == Count(calls, t) + if c.0 == t then 1 else 0
  {
    assert (calls + [c])[..|calls|] == calls;
  }

  ghost predicate MapOk(attempts: seq<Attempt>, active: map<JobId, nat>) {
    && (forall j <- active :: active[j] < |attempts| && attempts[active[j]].job.id == j && attempts[active[j]].fate == Present)
    && (forall i :: 0 <= i < |attempts| && attempts[i].fate == Present ==> attempts[i].job.id in active && active[attempts[i].job.id] == i)
  }

  ghost predicate AttemptOk(a: Attempt, calls: nat) {
    && (a.stage != Running ==> a.settling)
    && (a.stage == Done ==> a.fate != Present && calls <= 1)
    && (a.stage != Done ==> calls == if a.stage.Calling? then 1 else 0)
    && (a.fate == Settled ==> a.stage == Done)
    && (a.fate == Preempted ==> a.settling)
  }

  ghost predicate AttemptsOk(attempts: seq<Attempt>, calls: seq<(Token, Call)>) {
    && (forall i :: 0 <= i < |attempts| ==> AttemptOk(attempts[i], Count(calls, attempts[i].token)))
    && (forall i, j :: 0 <= i < j < |attempts| ==> attempts[i].token != attempts[j].token)
  }

  ghost function Spawned(attempts: seq<Attempt>): set<Token> { set a <- attempts :: a.token }

  /** The claim the pump has in hand. */
  function InHand(pump: Pump): set<Token> {
    if pump.Evicting? || pump.Releasing? || pump.Retrying? then {pump.token} else {}
  }

  /** A claim is the pump's, or was spawned, or the pump has given it back by the one call it made for it. */
  ghost predicate TokensOk(spawned: set<Token>, pump: Pump, claimed: set<Token>, calls: seq<(Token, Call)>) {
    && spawned <= claimed && InHand(pump) <= claimed && InHand(pump) !! spawned
    && (forall t <- claimed - spawned :: Count(calls, t) == if pump.Evicting? && t in InHand(pump) then 0 else 1)
    && (forall t :: t !in claimed ==> Count(calls, t) == 0)
    && (forall c <- calls :: c.1 == Release || c.1 == Retry || c.0 in spawned)
  }

  ghost predicate RoomOk(active: map<JobId, nat>, limit: nat, pump: Pump, attempts: seq<Attempt>) {
    && |active| <= limit
    && (pump.Claiming? ==> |active| < limit)
    && (pump.Preempting? ==> forall j <- pump.candidates :: j in active || |active| < limit)
    && (pump.Evicting? ==> pump.victim < |attempts| && attempts[pump.victim].settling && (attempts[pump.victim].fate == Present || |active| < limit))
  }

  ghost predicate Inv(s: State) {
    && MapOk(s.attempts, s.active) && AttemptsOk(s.attempts, s.calls)
    && TokensOk(Spawned(s.attempts), s.pump, s.claimed, s.calls) && RoomOk(s.active, s.peak, s.pump, s.attempts) && s.limit <= s.peak
  }

  lemma SpawnedUpdate(attempts: seq<Attempt>, i: nat, a: Attempt)
    requires i < |attempts| && a.token == attempts[i].token
    ensures Spawned(attempts[i := a]) == Spawned(attempts) && a.token in Spawned(attempts)
  {
    var after := attempts[i := a];
    forall t | t in Spawned(attempts) ensures t in Spawned(after) {
      var k :| 0 <= k < |attempts| && attempts[k].token == t;
      assert after[k] in after && after[k].token == t;
    }
    forall t | t in Spawned(after) ensures t in Spawned(attempts) {
      var k :| 0 <= k < |after| && after[k].token == t;
      assert attempts[k] in attempts && attempts[k].token == t;
    }
  }

  lemma MapUpdate(attempts: seq<Attempt>, active: map<JobId, nat>, i: nat, a: Attempt)
    requires MapOk(attempts, active) && i < |attempts| && a.job == attempts[i].job && a.fate == attempts[i].fate
    ensures MapOk(attempts[i := a], active)
  {
  }

  lemma AttemptsUpdate(attempts: seq<Attempt>, calls: seq<(Token, Call)>, i: nat, a: Attempt)
    requires AttemptsOk(attempts, calls) && i < |attempts| && a.token == attempts[i].token && AttemptOk(a, Count(calls, a.token))
    ensures AttemptsOk(attempts[i := a], calls)
  {
    hide AttemptOk, Count;
  }

  lemma UpdateKeeps(s: State, i: nat, a: Attempt)
    requires Inv(s) && i < |s.attempts|
    requires a.job == s.attempts[i].job && a.token == s.attempts[i].token && a.fate == s.attempts[i].fate
    requires AttemptOk(a, Count(s.calls, a.token)) && (s.attempts[i].settling ==> a.settling)
    ensures Inv(Updated(s, i, a))
  {
    hide AttemptOk, Count, MapOk, AttemptsOk, Spawned, TokensOk;
    SpawnedUpdate(s.attempts, i, a);
    MapUpdate(s.attempts, s.active, i, a);
    AttemptsUpdate(s.attempts, s.calls, i, a);
  }

  lemma EnterKeeps(s: State, i: nat, stage: Stage, renewing: bool)
    requires Inv(s) && (stage.Flushing? || stage.Looking? || stage.Stopping?)
    ensures Inv(Enter(s, i, stage, renewing))
  {
    hide Count, MapOk, TokensOk, RoomOk, Spawned;
    if Holds(s, i) && !s.attempts[i].settling {
      UpdateKeeps(s, i, s.attempts[i].(settling := true, stage := stage, renewing := renewing && s.attempts[i].renewing));
    }
  }

  lemma MoveKeeps(s: State, i: nat, stage: Stage)
    requires Inv(s) && i < |s.attempts| && (stage.Looking? || stage.Stopping?)
    requires s.attempts[i].stage != Running && s.attempts[i].stage != Done && !s.attempts[i].stage.Calling?
    ensures Inv(Updated(s, i, s.attempts[i].(stage := stage)))
  {
    hide Count, MapOk, TokensOk, RoomOk, Spawned;
    UpdateKeeps(s, i, s.attempts[i].(stage := stage));
  }

  lemma IssueTokens(spawned: set<Token>, pump: Pump, claimed: set<Token>, calls: seq<(Token, Call)>, c: (Token, Call))
    requires TokensOk(spawned, pump, claimed, calls) && c.0 in spawned
    ensures TokensOk(spawned, pump, claimed, calls + [c])
  {
    hide Count;
    forall t { CountOne(calls, c, t); }
  }

  lemma IssueAttempts(attempts: seq<Attempt>, calls: seq<(Token, Call)>, i: nat, call: Call)
    requires AttemptsOk(attempts, calls) && i < |attempts| && (attempts[i].stage.Looking? || attempts[i].stage.Stopping?)
    ensures AttemptsOk(attempts[i := attempts[i].(stage := Calling(call))], calls + [(attempts[i].token, call)])
  {
    hide Count;
    forall t { CountOne(calls, (attempts[i].token, call), t); }
  }

  lemma IssueKeeps(s: State, i: nat, call: Call)
    requires Inv(s) && i < |s.attempts| && (s.attempts[i].stage.Looking? || s.attempts[i].stage.Stopping?)
    ensures Inv(Issue(s, i, call))
  {
    hide AttemptOk, Count, MapOk, AttemptsOk, Spawned, TokensOk;
    var a := s.attempts[i].(stage := Calling(call));
    SpawnedUpdate(s.attempts, i, a);
    MapUpdate(s.attempts, s.active, i, a);
    IssueAttempts(s.attempts, s.calls, i, call);
    IssueTokens(Spawned(s.attempts), s.pump, s.claimed, s.calls, (a.token, call));
  }

  lemma SizeWithout(m: map<JobId, nat>, j: JobId)
    requires j in m
    ensures |m - {j}| == |m| - 1
  {
    assert (m - {j}).Keys == m.Keys - {j};
    assert |(m - {j}).Keys| == |m - {j}|;
  }

  lemma MapRemove(attempts: seq<Attempt>, active: map<JobId, nat>, i: nat, a: Attempt)
    requires MapOk(attempts, active) && i < |attempts| && attempts[i].job.id in active && active[attempts[i].job.id] == i
    requires a.job == attempts[i].job && a.fate != Present
    ensures MapOk(attempts[i := a], active - {a.job.id})
  {
  }

  lemma RoomRemove(active: map<JobId, nat>, limit: nat, pump: Pump, attempts: seq<Attempt>, i: nat, a: Attempt, j: JobId)
    requires RoomOk(active, limit, pump, attempts) && i < |attempts| && j in active && (attempts[i].settling ==> a.settling)
    ensures RoomOk(active - {j}, limit, pump, attempts[i := a])
  {
    SizeWithout(active, j);
  }

  /** The attempt leaves the map as one that is done, or as a victim that counts as settling. */
  lemma RemovedKeeps(s: State, i: nat, a: Attempt)
    requires Inv(s) && Holds(s, i)
    requires a.job == s.attempts[i].job && a.token == s.attempts[i].token && a.fate != Present
    requires AttemptOk(a, Count(s.calls, a.token)) && (s.attempts[i].settling ==> a.settling)
    ensures Inv(Updated(s, i, a).(active := s.active - {a.job.id}))
    ensures |s.active - {a.job.id}| < s.peak
  {
    hide AttemptOk, Count, MapOk, AttemptsOk, Spawned, TokensOk;
    SpawnedUpdate(s.attempts, i, a);
    MapRemove(s.attempts, s.active, i, a);
    AttemptsUpdate(s.attempts, s.calls, i, a);
    RoomRemove(s.active, s.peak, s.pump, s.attempts, i, a, a.job.id);
    SizeWithout(s.active, a.job.id);
  }

  lemma Candidates(s: State)
    requires MapOk(s.attempts, s.active)
    ensures Indexed(s) && forall j <- Replaceable(s) :: j in s.active
  {
  }

  lemma HeadsKeep(s: State)
    requires Inv(s.(pump := Idle))
    ensures Indexed(s) && Inv(PreemptHead(s)) && Inv(PumpHead(s))
  {
    hide AttemptOk, Count, MapOk, AttemptsOk, Spawned, Replaceable;
    Candidates(s);
  }

  lemma WakeKeeps(s: State)
    requires Inv(s)
    ensures Indexed(s) && Inv(Wake(s))
  {
    hide AttemptOk, Count, MapOk, AttemptsOk, Spawned, Replaceable, TokensOk, RoomOk;
    Candidates(s);
    if s.initialized && s.accepting && s.pump == Idle {
      assert s.(pump := Idle) == s;
      HeadsKeep(s);
    }
  }

  lemma FinishKeeps(s: State, i: nat)
    requires Inv(s) && i < |s.attempts| && s.attempts[i].stage != Running
    ensures Indexed(s) && Inv(Finish(s, i))
  {
    hide Count, Wake, MapOk, Spawned, TokensOk, RoomOk;
    Candidates(s);
    var a := s.attempts[i].(stage := Done, renewing := false);
    if Holds(s, i) {
      var gone := a.(fate := Settled);
      RemovedKeeps(s, i, gone);
      var s2 := Updated(s, i, gone).(active := s.active - {a.job.id});
      assert Removed(Updated(s, i, a), i, Settled) == s2;
      WakeKeeps(s2);
    } else {
      assert s.attempts[i].fate != Present by { NotHeld(s, i); }
      UpdateKeeps(s, i, a);
    }
  }

  lemma NotHeld(s: State, i: nat)
    requires MapOk(s.attempts, s.active) && i < |s.attempts|
    ensures Holds(s, i) <==> s.attempts[i].fate == Present
  {
  }

  /** A claim that nothing was done for yet. */
  ghost predicate Untouched(s: State, token: Token) {
    token !in Spawned(s.attempts) && Count(s.calls, token) == 0 && InHand(s.pump) <= {token}
  }

  lemma FreshUntouched(s: State, token: Token)
    requires Inv(s) && token !in s.claimed && InHand(s.pump) == {}
    ensures Untouched(s, token)
  {
    hide Count;
  }

  lemma SpawnMap(attempts: seq<Attempt>, active: map<JobId, nat>, a: Attempt)
    requires MapOk(attempts, active) && a.fate == Present
    ensures var j := a.job.id;
            var marked := if j in active then attempts[active[j] := attempts[active[j]].(fate := Superseded)] else attempts;
            MapOk(marked + [a], active[j := |attempts|])
  {
  }

  lemma SpawnAttempts(attempts: seq<Attempt>, calls: seq<(Token, Call)>, a: Attempt)
    requires AttemptsOk(attempts, calls) && a.token !in Spawned(attempts) && AttemptOk(a, Count(calls, a.token))
    ensures AttemptsOk(attempts + [a], calls) && Spawned(attempts + [a]) == Spawned(attempts) + {a.token}
  {
    hide AttemptOk, Count;
    var more := attempts + [a];
    forall i | 0 <= i < |attempts| ensures attempts[i].token != a.token {
      assert attempts[i] in attempts;
    }
    forall t | t in Spawned(attempts) ensures t in Spawned(more) {
      var x :| x in attempts && x.token == t;
      assert x in more;
    }
    assert more[|attempts|] in more;
  }

  lemma SpawnTokens(spawned: set<Token>, pump: Pump, claimed: set<Token>, calls: seq<(Token, Call)>, token: Token)
    requires TokensOk(spawned, pump, claimed, calls) && InHand(pump) <= {token} && Count(calls, token) == 0
    ensures TokensOk(spawned + {token}, Idle, claimed + {token}, calls)
  {
    hide Count;
  }

  lemma SpawnKeeps(s: State, job: Job, token: Token)
    requires Inv(s) && Untouched(s, token) && (|s.active| < s.peak || job.id in s.active)
    ensures Indexed(s) && Inv(Spawn(s, job, token))
  {
    hide Count, MapOk, AttemptsOk, Spawned, TokensOk;
    Candidates(s);
    var a := Attempt(job, token, false, true, Running, Present);
    SpawnMap(s.attempts, s.active, a);
    var marked := s.attempts;
    if job.id in s.active {
      var i := s.active[job.id];
      var old_a := s.attempts[i];
      SpawnedUpdate(s.attempts, i, old_a.(fate := Superseded));
      assert AttemptOk(old_a, Count(s.calls, old_a.token)) && old_a.fate == Present by { AttemptAt(s, i); PresentAt(s, job.id); }
      AttemptsUpdate(s.attempts, s.calls, i, old_a.(fate := Superseded));
      marked := s.attempts[i := old_a.(fate := Superseded)];
    }
    SpawnAttempts(marked, s.calls, a);
    SpawnTokens(Spawned(s.attempts), s.pump, s.claimed, s.calls, token);
    SizeWith(s.active, job.id, |s.attempts|);
  }

  lemma SizeWith(m: map<JobId, nat>, j: JobId, v: nat)
    ensures |m[j := v]| == if j in m then |m| else |m| + 1
  {
    assert m[j := v].Keys == m.Keys + {j};
    assert |m[j := v].Keys| == |m[j := v]| && |m.Keys| == |m|;
  }

  lemma AttemptAt(s: State, i: nat)
    requires Inv(s) && i < |s.attempts|
    ensures AttemptOk(s.attempts[i], Count(s.calls, s.attempts[i].token))
  {
  }

  lemma PresentAt(s: State, j: JobId)
    requires Inv(s) && j in s.active
    ensures s.active[j] < |s.attempts| && s.attempts[s.active[j]].job.id == j && s.attempts[s.active[j]].fate == Present
  {
  }

  lemma PumpCallTokens(spawned: set<Token>, pump: Pump, claimed: set<Token>, calls: seq<(Token, Call)>, token: Token, call: Call, pump': Pump)
    requires TokensOk(spawned, pump, claimed, calls) && InHand(pump) <= {token} && Count(calls, token) == 0 && token !in spawned
    requires (pump'.Releasing? || pump'.Retrying?) && pump'.token == token && (call == Release || call == Retry)
    ensures TokensOk(spawned, pump', claimed + {token}, calls + [(token, call)])
  {
    hide Count;
    forall t { CountOne(calls, (token, call), t); }
  }

  lemma CallsElsewhere(attempts: seq<Attempt>, calls: seq<(Token, Call)>, c: (Token, Call))
    requires AttemptsOk(attempts, calls) && c.0 !in Spawned(attempts)
    ensures AttemptsOk(attempts, calls + [c])
  {
    hide Count, AttemptOk;
    forall i | 0 <= i < |attempts| ensures Count(calls + [c], attempts[i].token) == Count(calls, attempts[i].token) {
      assert attempts[i] in attempts;
      CountOne(calls, c, attempts[i].token);
    }
  }

  lemma PumpCallKeeps(s: State, token: Token, call: Call, pump': Pump)
    requires Inv(s) && Untouched(s, token)
    requires (pump'.Releasing? || pump'.Retrying?) && pump'.token == token && (call == Release || call == Retry)
    ensures Inv(PumpCall(s, token, call, pump'))
  {
    hide Count, MapOk, AttemptsOk, Spawned, TokensOk;
    PumpCallTokens(Spawned(s.attempts), s.pump, s.claimed, s.calls, token, call, pump');
    CallsElsewhere(s.attempts, s.calls, (token, call));
  }

  lemma ClaimOutcomeKeeps(s: State, job: Job, token: Token, spawns: bool)
    requires Inv(s) && s.pump.Claiming? && token !in s.claimed
    ensures Indexed(s) && Inv(ClaimOutcome(s, job, token, spawns))
  {
    FreshUntouched(s, token);
    Candidates(s);
    hide Count, MapOk, AttemptsOk, Spawned, TokensOk, PumpHead, Untouched;
    if !s.accepting {
      PumpCallKeeps(s, token, Release, Releasing(token, false));
    } else if spawns {
      SpawnKeeps(s, job, token);
      HeadsKeep(Spawn(s, job, token));
    } else {
      PumpCallKeeps(s, token, Retry, Retrying(token, false));
    }
  }

  lemma PreemptOutcomeKeeps(s: State, job: Job, token: Token, spawns: bool)
    requires Inv(s) && Untouched(s, token) && |s.active| < s.peak
    ensures Indexed(s) && Inv(PreemptOutcome(s, job, token, spawns))
  {
    Candidates(s);
    hide Count, MapOk, AttemptsOk, Spawned, TokensOk, PreemptHead, Untouched, RoomOk;
    if !s.accepting {
      PumpCallKeeps(s, token, Release, Releasing(token, true));
    } else if spawns {
      SpawnKeeps(s, job, token);
      assert Spawn(s, job, token).(pump := Idle) == Spawn(s, job, token);
      HeadsKeep(Spawn(s, job, token));
    } else {
      PumpCallKeeps(s, token, Retry, Retrying(token, true));
    }
  }

  lemma EvictingTokens(spawned: set<Token>, pump: Pump, claimed: set<Token>, calls: seq<(Token, Call)>, token: Token, pump': Pump)
    requires TokensOk(spawned, pump, claimed, calls) && InHand(pump) == {} && token !in claimed
    requires pump'.Evicting? && pump'.token == token
    ensures TokensOk(spawned, pump', claimed + {token}, calls)
  {
    hide Count;
  }

  lemma EvictingRoom(active: map<JobId, nat>, peak: nat, pump: Pump, attempts: seq<Attempt>, victim: nat, a: Attempt, job: Job, token: Token)
    requires RoomOk(active, peak, pump, attempts) && victim < |attempts| && a.settling && a.fate == Present
    ensures RoomOk(active, peak, Evicting(victim, job, token), attempts[victim := a])
  {
  }

  lemma CondemnedKeeps(s: State, victim: nat, job: Job, token: Token)
    requires Inv(s) && InHand(s.pump) == {} && Holds(s, victim) && token !in s.claimed
    ensures Inv(Condemned(s, victim, job, token))
  {
    AttemptAt(s, victim);
    PresentAt(s, s.attempts[victim].job.id);
    hide Count, MapOk, AttemptsOk, Spawned, TokensOk, RoomOk;
    var a := s.attempts[victim].(settling := true, renewing := false);
    EvictingTokens(Spawned(s.attempts), s.pump, s.claimed, s.calls, token, Evicting(victim, job, token));
    SpawnedUpdate(s.attempts, victim, a);
    MapUpdate(s.attempts, s.active, victim, a);
    AttemptsUpdate(s.attempts, s.calls, victim, a);
    EvictingRoom(s.active, s.peak, s.pump, s.attempts, victim, a, job, token);
  }

  lemma VictimGoneKeeps(s: State)
    requires Inv(s) && s.pump.Evicting?
    ensures s.pump.victim < |s.attempts| && Indexed(s)
    ensures var s' := VictimGone(s, s.pump.victim);
            Inv(s') && s'.pump == s.pump && |s'.active| < s'.peak && Untouched(s', s.pump.token)
  {
    var i := s.pump.victim;
    Candidates(s);
    AttemptAt(s, i);
    NotHeld(s, i);
    InHandUntouched(s);
    hide Count, MapOk, AttemptsOk, Spawned, TokensOk;
    if Holds(s, i) {
      var gone := s.attempts[i].(fate := Preempted);
      RemovedKeeps(s, i, gone);
      var s1 := Updated(s, i, gone).(active := s.active - {gone.job.id});
      assert Removed(s, i, Preempted) == s1;
      WakeKeeps(s1);
      SpawnedUpdate(s.attempts, i, gone);
    }
  }

  lemma InHandUntouched(s: State)
    requires Inv(s) && s.pump.Evicting?
    ensures Untouched(s, s.pump.token)
  {
    hide Count;
  }

  lemma IdleKeeps(s: State)
    requires Inv(s) && !s.pump.Evicting?
    ensures Inv(s.(pump := Idle))
  {
    hide Count;
  }

  lemma ReconfigureKeeps(s: State, limit: nat)
    requires Inv(s)
    ensures Inv(s.(limit := limit, peak := Max(s.peak, limit)))
  {
    hide Count, MapOk, AttemptsOk, Spawned, TokensOk;
  }

  /** Every step keeps the invariant. */
  lemma StepKeeps(s: State, e: Event)
    requires Inv(s) && Possible(s, e)
    ensures Indexed(s) && (s.pump.Evicting? ==> s.pump.victim < |s.attempts|) && Inv(After(s, e))
  {
    Candidates(s);
    hide Count, MapOk, AttemptsOk, Spawned, TokensOk, Wake, PumpHead, PreemptHead, Finish, ClaimOutcome, PreemptOutcome, VictimGone, Replaceable;
    match e
    case Initialize =>
    case InitializeFailed =>
    case BeginShutdown =>
    case EndShutdown =>
    case Reconfigure(limit) => ReconfigureKeeps(s, limit);
    case Request => WakeKeeps(s);
    case Message(i, call) => EnterKeeps(s, i, Flushing(call), true);
    case CancelRequest(job) =>
      if job in s.active { EnterKeeps(s, s.active[job], Stopping(ThenCancel), false); }
    case Stop(i, terminate) => EnterKeeps(s, i, if terminate then Stopping(ThenLook(Retry)) else Looking(Retry, false), false);
    case Interrupt(i) => EnterKeeps(s, i, Stopping(ThenLook(Release)), false);
    case Flushed(i) => MoveKeeps(s, i, Looking(s.attempts[i].stage.call, true));
    case Looked(i, answer) =>
      if answer == Throws { FinishKeeps(s, i); }
      else if answer == Going { IssueKeeps(s, i, s.attempts[i].stage.call); }
      else if s.attempts[i].stage.stopFirst { MoveKeeps(s, i, Stopping(ThenCancel)); }
      else { IssueKeeps(s, i, Cancel); }
    case Stopped(i, ok) =>
      if !ok { FinishKeeps(s, i); }
      else if s.attempts[i].stage.next == ThenCancel { IssueKeeps(s, i, Cancel); }
      else { MoveKeeps(s, i, Looking(s.attempts[i].stage.next.call, false)); }
    case Called(i) => FinishKeeps(s, i);
    case ClaimAnswer(claim, spawns) =>
      if claim.None? { IdleKeeps(s); HeadsKeep(s); } else { ClaimOutcomeKeeps(s, claim.value.0, claim.value.1, spawns); }
    case PumpThrows => IdleKeeps(s);
    case ReleaseAnswer => IdleKeeps(s); HeadsKeep(s);
    case RetryAnswer => IdleKeeps(s); HeadsKeep(s);
    case PreemptAnswer(claim, interrupted, spawns) =>
      if claim.None? { IdleKeeps(s); }
      else if interrupted in s.active { PresentAt(s, interrupted); CondemnedKeeps(s, s.active[interrupted], claim.value.0, claim.value.1); }
      else { FreshUntouched(s, claim.value.1); PreemptOutcomeKeeps(s, claim.value.0, claim.value.1, spawns); }
    case Evicted(spawns) =>
      VictimGoneKeeps(s);
      PreemptOutcomeKeeps(VictimGone(s, s.pump.victim), s.pump.job, s.pump.token, spawns);
  }

  // Runs.

  ghost function Start(limit: nat): State { State(false, false, limit, limit, [], map[], Idle, {}, []) }

  ghost predicate PossibleRun(s: State, run: seq<Event>)
    decreases |run|
  {
    run == [] || (Inv(s) && Possible(s, run[0]) && PossibleRun(Next(s, run[0]), run[1..]))
  }

  ghost function Next(s: State, e: Event): State
    requires Inv(s) && Possible(s, e)
  {
    StepKeeps(s, e);
    After(s, e)
  }

  ghost function Final(s: State, run: seq<Event>): State
    requires PossibleRun(s, run)
    decreases |run|
  {
    if run == [] then s else Final(Next(s, run[0]), run[1..])
  }

  lemma {:induction false} RunKeeps(s: State, run: seq<Event>)
    requires Inv(s) && PossibleRun(s, run)
    ensures Inv(Final(s, run)) && Final(s, run).peak == Peak(s.peak, run)
    decreases |run|
  {
    hide Inv, Possible, After;
    if run != [] {
      StepKeeps(s, run[0]);
      PeakGrows(s, run[0]);
      RunKeeps(Next(s, run[0]), run[1..]);
    }
  }

  /** The highest concurrency limit that was configured. */
  function Peak(peak: nat, run: seq<Event>): nat
    decreases |run|
  {
    if run == [] then peak else Peak(if run[0].Reconfigure? then Max(peak, run[0].limit) else peak, run[1..])
  }

  lemma PeakGrows(s: State, e: Event)
    requires Inv(s) && Possible(s, e)
    ensures Next(s, e).peak == if e.Reconfigure? then Max(s.peak, e.limit) else s.peak
  {
    hide Count, MapOk, AttemptsOk, Spawned, TokensOk, RoomOk, Replaceable, Wake, PumpHead, PreemptHead;
    StepKeeps(s, e);
  }

  lemma StartIsFine(limit: nat)
    ensures Inv(Start(limit))
  {
    assert Spawned([]) == {};
  }

  /** In every run at most one store call ends an attempt, counting those the pump makes for claims it could not start. */
  lemma OneTerminalCall(limit: nat, run: seq<Event>, t: Token)
    requires PossibleRun(Start(limit), run)
    ensures Count(Final(Start(limit), run).calls, t) <= 1
  {
    StartIsFine(limit);
    RunKeeps(Start(limit), run);
    hide Count;
    var s := Final(Start(limit), run);
    if t in Spawned(s.attempts) {
      var a :| a in s.attempts && a.token == t;
    } else if t in s.claimed {
      assert t in s.claimed - Spawned(s.attempts);
    }
  }

  /** The map never holds more attempts than the highest concurrency limit so far, through preemption too. */
  lemma NeverOverLimit(limit: nat, run: seq<Event>)
    requires PossibleRun(Start(limit), run)
    ensures |Final(Start(limit), run).active| <= Peak(limit, run)
  {
    StartIsFine(limit);
    RunKeeps(Start(limit), run);
  }

  /** The one attempt a claim was spawned as. */
  ghost predicate SpawnedAs(s: State, t: Token, i: nat) {
    i < |s.attempts| && s.attempts[i].token == t && (forall j :: 0 <= j < |s.attempts| && s.attempts[j].token == t ==> j == i)
  }

  /** The pump made exactly one call for the claim, and it gave the job back. */
  ghost predicate GivenBack(s: State, t: Token) {
    Count(s.calls, t) == 1 && forall c <- s.calls :: c.0 == t ==> c.1 == Release || c.1 == Retry
  }

  /**
   Where every claimed job is: in the pump's hands, or given back by exactly one release or retry, or spawned as exactly
   one attempt. An attempt is in the map exactly while it has neither settled, nor been preempted, nor been
   superseded by a later claim of the same job.
   */
  lemma EveryClaimAccountedFor(limit: nat, run: seq<Event>, t: Token)
    requires PossibleRun(Start(limit), run) && t in Final(Start(limit), run).claimed
    ensures var s := Final(Start(limit), run);
            && (t in InHand(s.pump) || GivenBack(s, t) || exists i: nat :: SpawnedAs(s, t, i))
            && (forall i: nat :: SpawnedAs(s, t, i) ==> t !in InHand(s.pump) && (Holds(s, i) <==> s.attempts[i].fate == Present))
            && (forall i: nat :: SpawnedAs(s, t, i) && s.attempts[i].fate == Settled ==> s.attempts[i].stage == Done)
            && (t in InHand(s.pump) && !s.pump.Evicting? ==> GivenBack(s, t))
            && (t in InHand(s.pump) && s.pump.Evicting? ==> Count(s.calls, t) == 0)
  {
    StartIsFine(limit);
    RunKeeps(Start(limit), run);
    var s := Final(Start(limit), run);
    AccountedFor(s, t);
  }

  lemma AccountedFor(s: State, t: Token)
    requires Inv(s) && t in s.claimed
    ensures t in InHand(s.pump) || GivenBack(s, t) || exists i: nat :: SpawnedAs(s, t, i)
    ensures forall i: nat :: SpawnedAs(s, t, i) ==> t !in InHand(s.pump) && (Holds(s, i) <==> s.attempts[i].fate == Present)
    ensures forall i: nat :: SpawnedAs(s, t, i) && s.attempts[i].fate == Settled ==> s.attempts[i].stage == Done
    ensures t in InHand(s.pump) && !s.pump.Evicting? ==> GivenBack(s, t)
    ensures t in InHand(s.pump) && s.pump.Evicting? ==> Count(s.calls, t) == 0
  {
    hide Count, AttemptOk;
    if t in Spawned(s.attempts) {
      var i :| 0 <= i < |s.attempts| && s.attempts[i].token == t;
      assert SpawnedAs(s, t, i);
    } else {
      assert t in s.claimed - Spawned(s.attempts);
    }
    SettledIsDone(s);
  }

  lemma SettledIsDone(s: State)
    requires Inv(s)
    ensures forall i :: 0 <= i < |s.attempts| && s.attempts[i].fate == Settled ==> s.attempts[i].stage == Done
  {
    hide Count;
  }

  ghost predicate Reinitialises(s: State, e: Event) { e == Initialize || (e == Request && !s.initialized) }

  /** Once the runner accepts nothing, only re-initialising changes that, and until then the map only shrinks. */
  lemma OnlyShrinks(s: State, e: Event)
    requires Inv(s) && Possible(s, e) && !s.accepting && !Reinitialises(s, e)
    ensures var s' := Next(s, e); !s'.accepting && s'.active.Keys <= s.active.Keys && forall j <- s'.active :: s'.active[j] == s.active[j]
  {
    hide Count, MapOk, AttemptsOk, Spawned, TokensOk, RoomOk, Replaceable, Wake, PumpHead, PreemptHead;
    StepKeeps(s, e);
  }

  ghost predicate NoReinitialisation(s: State, run: seq<Event>)
    requires PossibleRun(s, run)
    decreases |run|
  {
    run == [] || (!Reinitialises(s, run[0]) && NoReinitialisation(Next(s, run[0]), run[1..]))
  }

  lemma {:induction false} ShutDownOnlyShrinks(s: State, run: seq<Event>)
    requires Inv(s) && !s.accepting && PossibleRun(s, run) && NoReinitialisation(s, run)
    ensures var s' := Final(s, run); !s'.accepting && s'.active.Keys <= s.active.Keys && forall j <- s'.active :: s'.active[j] == s.active[j]
    decreases |run|
  {
    hide Inv, Possible, After, Reinitialises;
    if run != [] {
      OnlyShrinks(s, run[0]);
      StepKeeps(s, run[0]);
      ShutDownOnlyShrinks(Next(s, run[0]), run[1..]);
    }
  }

  function Rank(stage: Stage): nat {
    match stage
    case Running => 6
    case Flushing(_) => 5
    case Looking(_, stopFirst) => if stopFirst then 4 else 2
    case Stopping(next) => if next == ThenCancel then 2 else 3
    case Calling(_) => 1
    case Done => 0
  }

  // What a stretch does to one attempt.

  /** The step spawns a claim of this attempt's job, and does not evict the attempt itself first. */
  ghost predicate Respawns(s: State, e: Event, i: nat)
    requires i < |s.attempts|
  {
    s.accepting && match e
                   case ClaimAnswer(claim, spawns) => spawns && claim.Some? && claim.value.0.id == s.attempts[i].job.id
                   case PreemptAnswer(claim, interrupted, spawns) =>
                     spawns && claim.Some? && claim.value.0.id == s.attempts[i].job.id && interrupted !in s.active
                   case Evicted(spawns) => spawns && s.pump.Evicting? && s.pump.job.id == s.attempts[i].job.id && s.pump.victim != i
                   case _ => false
  }

  lemma FinishOne(s: State, k: nat, i: nat)
    requires k < |s.attempts| && i < |s.attempts| && Indexed(s)
    ensures var s' := Finish(s, k);
            i < |s'.attempts| && s'.attempts[i] == if i != k then s.attempts[i]
                                                   else s.attempts[i].(stage := Done, renewing := false, fate := if Holds(s, k) then Settled else s.attempts[i].fate)
  {
    hide Wake;
  }

  ghost function SupersededAt(s: State, job: JobId, i: nat): Attempt
    requires i < |s.attempts|
  {
    if job in s.active && s.active[job] == i then s.attempts[i].(fate := Superseded) else s.attempts[i]
  }

  lemma OutcomeOne(s: State, job: Job, token: Token, spawns: bool, i: nat)
    requires i < |s.attempts| && Indexed(s)
    ensures var after := if s.accepting && spawns then SupersededAt(s, job.id, i) else s.attempts[i];
            && i < |ClaimOutcome(s, job, token, spawns).attempts| && ClaimOutcome(s, job, token, spawns).attempts[i] == after
            && i < |PreemptOutcome(s, job, token, spawns).attempts| && PreemptOutcome(s, job, token, spawns).attempts[i] == after
  {
    hide PumpHead, PreemptHead;
  }

  lemma VictimOne(s: State, victim: nat, i: nat)
    requires victim < |s.attempts| && i < |s.attempts| && Indexed(s)
    ensures var s' := VictimGone(s, victim);
            && Indexed(s') && (s'.accepting <==> s.accepting) && i < |s'.attempts|
            && s'.attempts[i] == (if i == victim && Holds(s, victim) then s.attempts[i].(fate := Preempted) else s.attempts[i])
            && s'.active == if Holds(s, victim) then s.active - {s.attempts[victim].job.id} else s.active
  {
    hide Wake;
    WakeAccepts(Removed(s, victim, Preempted));
  }

  lemma WakeAccepts(s: State)
    requires Indexed(s)
    ensures s.accepting ==> Wake(s).accepting
  {
  }

  lemma HoldsAt(s: State, i: nat, job: JobId)
    requires Inv(s) && i < |s.attempts|
    ensures job in s.active && s.active[job] == i <==> s.attempts[i].fate == Present && s.attempts[i].job.id == job
    ensures Holds(s, i) <==> s.attempts[i].fate == Present
  {
    hide Count;
  }

  /** An attempt is superseded after a step iff it was before, or a later claim took its place. */
  ghost predicate FateOk(a: Attempt, a': Attempt, takenOver: bool) {
    && (a'.fate == Superseded <==> (a.fate == Superseded || (a.fate == Present && takenOver)))
    && (a.fate == Superseded && a.stage == Running ==> a' == a)
  }

  lemma ClaimStepOne(s: State, claim: Option<(Job, Token)>, spawns: bool, i: nat)
    requires Inv(s) && i < |s.attempts| && Indexed(s)
    ensures i < |AfterClaim(s, claim, spawns).attempts|
    ensures FateOk(s.attempts[i], AfterClaim(s, claim, spawns).attempts[i],
                   s.accepting && spawns && claim.Some? && claim.value.0.id == s.attempts[i].job.id)
  {
    hide Inv, Indexed, PreemptHead, ClaimOutcome, PreemptOutcome, Holds;
    if claim.Some? {
      HoldsAt(s, i, claim.value.0.id);
      OutcomeOne(s, claim.value.0, claim.value.1, spawns, i);
    }
  }

  lemma PreemptStepOne(s: State, claim: Option<(Job, Token)>, interrupted: JobId, spawns: bool, i: nat)
    requires Inv(s) && i < |s.attempts| && Indexed(s)
    ensures i < |AfterPreempt(s, claim, interrupted, spawns).attempts|
    ensures FateOk(s.attempts[i], AfterPreempt(s, claim, interrupted, spawns).attempts[i],
                   s.accepting && spawns && claim.Some? && claim.value.0.id == s.attempts[i].job.id && interrupted !in s.active)
  {
    hide Inv, ClaimOutcome, PreemptOutcome, Holds;
    if claim.Some? {
      HoldsAt(s, i, claim.value.0.id);
      HoldsAt(s, i, interrupted);
      OutcomeOne(s, claim.value.0, claim.value.1, spawns, i);
    }
  }

  lemma EvictedStepOne(s: State, spawns: bool, i: nat)
    requires Inv(s) && i < |s.attempts| && Indexed(s) && s.pump.Evicting? && s.pump.victim < |s.attempts|
    ensures i < |AfterEviction(s, spawns).attempts|
    ensures FateOk(s.attempts[i], AfterEviction(s, spawns).attempts[i],
                   s.accepting && spawns && s.pump.job.id == s.attempts[i].job.id && s.pump.victim != i)
  {
    HoldsAt(s, i, s.pump.job.id);
    HoldsAt(s, s.pump.victim, s.pump.job.id);
    hide Inv, Indexed, ClaimOutcome, PreemptOutcome, VictimGone, Holds;
    VictimOne(s, s.pump.victim, i);
    OutcomeOne(VictimGone(s, s.pump.victim), s.pump.job, s.pump.token, spawns, i);
  }

  /** The answer moves its own attempt on, and out of the map as settled when that was the end. */
  ghost predicate MovedOn(a: Attempt, a': Attempt) {
    && Rank(a'.stage) < Rank(a.stage)
    && a'.fate == (if a.fate == Present && a'.stage == Done then Settled else a.fate)
    && a'.settling == a.settling
  }

  lemma LookOne(s: State, k: nat, answer: Answer, i: nat)
    requires Inv(s) && Indexed(s) && k < |s.attempts| && s.attempts[k].stage.Looking? && i < |s.attempts|
    ensures i < |AfterLook(s, k, answer).attempts|
    ensures if i == k then MovedOn(s.attempts[i], AfterLook(s, k, answer).attempts[i]) else AfterLook(s, k, answer).attempts[i] == s.attempts[i]
  {
    NotHeld(s, k);
    hide Inv, Finish, Holds, Indexed;
    FinishOne(s, k, i);
  }

  lemma StopOne(s: State, k: nat, ok: bool, i: nat)
    requires Inv(s) && Indexed(s) && k < |s.attempts| && s.attempts[k].stage.Stopping? && i < |s.attempts|
    ensures i < |AfterStop(s, k, ok).attempts|
    ensures if i == k then MovedOn(s.attempts[i], AfterStop(s, k, ok).attempts[i]) else AfterStop(s, k, ok).attempts[i] == s.attempts[i]
  {
    NotHeld(s, k);
    hide Inv, Finish, Holds, Indexed;
    FinishOne(s, k, i);
  }

  lemma SettlingStepOne(s: State, e: Event, i: nat)
    requires Inv(s) && Possible(s, e) && i < |s.attempts| && Indexed(s) && (s.pump.Evicting? ==> s.pump.victim < |s.attempts|)
    requires e.Flushed? || e.Looked? || e.Stopped? || e.Called?
    ensures i < |After(s, e).attempts|
    ensures if i == e.i then MovedOn(s.attempts[i], After(s, e).attempts[i]) else After(s, e).attempts[i] == s.attempts[i]
  {
    NotHeld(s, e.i);
    hide Inv, Finish, Holds, Indexed, AfterLook, AfterStop;
    match e
    case Looked(k, answer) => LookOne(s, k, answer, i);
    case Stopped(k, ok) => StopOne(s, k, ok, i);
    case Called(k) => FinishOne(s, k, i);
    case _ =>
  }

  lemma SpawningStepOne(s: State, e: Event, i: nat)
    requires Inv(s) && Possible(s, e) && i < |s.attempts| && Indexed(s) && (s.pump.Evicting? ==> s.pump.victim < |s.attempts|)
    requires e.ClaimAnswer? || e.PreemptAnswer? || e.Evicted?
    ensures i < |After(s, e).attempts| && FateOk(s.attempts[i], After(s, e).attempts[i], Respawns(s, e, i))
  {
    hide Inv, Indexed, FateOk, AfterClaim, AfterPreempt, AfterEviction;
    match e
    case ClaimAnswer(claim, spawns) => ClaimStepOne(s, claim, spawns, i);
    case PreemptAnswer(claim, interrupted, spawns) => PreemptStepOne(s, claim, interrupted, spawns, i);
    case Evicted(spawns) => EvictedStepOne(s, spawns, i);
  }

  lemma OtherStepOne(s: State, e: Event, i: nat)
    requires Inv(s) && Possible(s, e) && i < |s.attempts| && Indexed(s)
    requires !(e.ClaimAnswer? || e.PreemptAnswer? || e.Evicted? || e.Flushed? || e.Looked? || e.Stopped? || e.Called?)
    ensures i < |After(s, e).attempts| && After(s, e).attempts[i].fate == s.attempts[i].fate
    ensures !Holds(s, i) ==> After(s, e).attempts[i] == s.attempts[i]
  {
    hide Count, AttemptOk, TokensOk, Spawned, RoomOk, Wake, PumpHead, PreemptHead, MapOk, AttemptsOk, Replaceable;
  }

  lemma QuietStepOne(s: State, e: Event, i: nat)
    requires Inv(s) && Possible(s, e) && i < |s.attempts| && Indexed(s) && (s.pump.Evicting? ==> s.pump.victim < |s.attempts|)
    requires !(e.ClaimAnswer? || e.PreemptAnswer? || e.Evicted?)
    ensures i < |After(s, e).attempts| && FateOk(s.attempts[i], After(s, e).attempts[i], false)
  {
    HoldsAt(s, i, 0);
    hide Inv, After, Possible, Holds, Rank, Indexed;
    if e.Flushed? || e.Looked? || e.Stopped? || e.Called? {
      WaitingAt(s, e);
      SettlingStepOne(s, e, i);
    } else {
      OtherStepOne(s, e, i);
    }
  }

  lemma StepOne(s: State, e: Event, i: nat)
    requires Inv(s) && Possible(s, e) && i < |s.attempts|
    ensures i < |Next(s, e).attempts| && FateOk(s.attempts[i], Next(s, e).attempts[i], Respawns(s, e, i))
  {
    StepKeeps(s, e);
    hide Inv, After, Possible, Indexed, FateOk;
    if e.ClaimAnswer? || e.PreemptAnswer? || e.Evicted? {
      SpawningStepOne(s, e, i);
    } else {
      QuietStepOne(s, e, i);
    }
  }

  /** Only an attempt that is settling waits for an answer. */
  lemma WaitingAt(s: State, e: Event)
    requires Possible(s, e) && (e.Flushed? || e.Looked? || e.Stopped? || e.Called?)
    ensures e.i < |s.attempts| && s.attempts[e.i].stage != Running
  {
  }

  /** An attempt loses its place in the map to a later one exactly when a claim of the same job is spawned while it is there. */
  lemma SupersededWhen(s: State, e: Event, i: nat)
    requires Inv(s) && Possible(s, e) && i < |s.attempts| && s.attempts[i].fate == Present
    ensures i < |Next(s, e).attempts|
    ensures Next(s, e).attempts[i].fate == Superseded <==> Respawns(s, e, i)
  {
    hide Inv, After, Possible, Respawns;
    StepOne(s, e, i);
  }

  /** A superseded attempt that was not settling never settles: no message, error, timeout or shutdown reaches it any more. */
  lemma OrphansNeverSettle(s: State, e: Event, i: nat)
    requires Inv(s) && Possible(s, e) && i < |s.attempts| && s.attempts[i].fate == Superseded && !s.attempts[i].settling
    ensures i < |Next(s, e).attempts| && Next(s, e).attempts[i] == s.attempts[i]
  {
    OrphanIsRunning(s, i);
    hide Inv, After, Possible, Respawns;
    StepOne(s, e, i);
  }

  lemma OrphanIsRunning(s: State, i: nat)
    requires Inv(s) && i < |s.attempts| && s.attempts[i].fate == Superseded && !s.attempts[i].settling
    ensures s.attempts[i].stage == Running && !Holds(s, i)
  {
    hide Count;
  }

  /** Every answer brings a settling attempt nearer its end, whichever answer it is; the last one takes it out of the map. */
  lemma AnswersSettle(s: State, e: Event)
    requires Inv(s) && Possible(s, e) && (e.Flushed? || e.Looked? || e.Stopped? || e.Called?)
    ensures var s' := Next(s, e);
            && e.i < |s.attempts| && e.i < |s'.attempts| && Rank(s'.attempts[e.i].stage) < Rank(s.attempts[e.i].stage)
            && (s'.attempts[e.i].stage == Done ==> !Holds(s', e.i))
  {
    WaitingAt(s, e);
    StepKeeps(s, e);
    hide After, Possible;
    SettlingStepOne(s, e, e.i);
    NotHeld(Next(s, e), e.i);
    AttemptAt(Next(s, e), e.i);
  }

  /** The event concerns this attempt: its message, its end, its job's cancellation, its interruption or its preemption. */
  ghost predicate Addresses(s: State, e: Event, i: nat)
    requires i < |s.attempts|
  {
    match e
    case Message(k, _) => k == i
    case Stop(k, _) => k == i
    case Interrupt(k) => k == i
    case CancelRequest(job) => job == s.attempts[i].job.id
    case PreemptAnswer(claim, interrupted, _) => claim.Some? && interrupted == s.attempts[i].job.id
    case _ => false
  }

  lemma ClaimSettles(s: State, claim: Option<(Job, Token)>, spawns: bool, i: nat)
    requires i < |s.attempts| && Indexed(s)
    ensures i < |AfterClaim(s, claim, spawns).attempts| && AfterClaim(s, claim, spawns).attempts[i].settling == s.attempts[i].settling
  {
    hide Indexed, PreemptHead, ClaimOutcome, PreemptOutcome;
    if claim.Some? { OutcomeOne(s, claim.value.0, claim.value.1, spawns, i); }
  }

  lemma PreemptSettles(s: State, claim: Option<(Job, Token)>, interrupted: JobId, spawns: bool, i: nat)
    requires Inv(s) && i < |s.attempts| && Indexed(s)
    ensures i < |AfterPreempt(s, claim, interrupted, spawns).attempts|
    ensures AfterPreempt(s, claim, interrupted, spawns).attempts[i].settling <==>
            s.attempts[i].settling || (Holds(s, i) && claim.Some? && interrupted == s.attempts[i].job.id)
  {
    HoldsAt(s, i, interrupted);
    hide Inv, ClaimOutcome, PreemptOutcome, Holds;
    if claim.Some? { OutcomeOne(s, claim.value.0, claim.value.1, spawns, i); }
  }

  lemma EvictedSettles(s: State, spawns: bool, i: nat)
    requires i < |s.attempts| && Indexed(s) && s.pump.Evicting? && s.pump.victim < |s.attempts|
    ensures i < |AfterEviction(s, spawns).attempts| && AfterEviction(s, spawns).attempts[i].settling == s.attempts[i].settling
  {
    hide Indexed, ClaimOutcome, PreemptOutcome, VictimGone, Holds;
    VictimOne(s, s.pump.victim, i);
    OutcomeOne(VictimGone(s, s.pump.victim), s.pump.job, s.pump.token, spawns, i);
  }

  lemma SpawningSettles(s: State, e: Event, i: nat)
    requires Inv(s) && Possible(s, e) && i < |s.attempts| && Indexed(s) && (s.pump.Evicting? ==> s.pump.victim < |s.attempts|)
    requires e.ClaimAnswer? || e.PreemptAnswer? || e.Evicted?
    ensures i < |After(s, e).attempts|
    ensures After(s, e).attempts[i].settling <==> s.attempts[i].settling || (Holds(s, i) && Addresses(s, e, i))
  {
    hide Inv, Indexed, Holds, AfterClaim, AfterPreempt, AfterEviction;
    match e
    case ClaimAnswer(claim, spawns) => ClaimSettles(s, claim, spawns, i);
    case PreemptAnswer(claim, interrupted, spawns) => PreemptSettles(s, claim, interrupted, spawns, i);
    case Evicted(spawns) => EvictedSettles(s, spawns, i);
  }

  lemma EnterSettles(s: State, k: nat, stage: Stage, renewing: bool, i: nat)
    requires i < |s.attempts|
    ensures i < |Enter(s, k, stage, renewing).attempts|
    ensures Enter(s, k, stage, renewing).attempts[i].settling <==> s.attempts[i].settling || (k == i && Holds(s, i))
  {
  }

  lemma OtherSettles(s: State, e: Event, i: nat)
    requires Inv(s) && Possible(s, e) && i < |s.attempts| && Indexed(s)
    requires !(e.ClaimAnswer? || e.PreemptAnswer? || e.Evicted? || e.Flushed? || e.Looked? || e.Stopped? || e.Called?)
    ensures i < |After(s, e).attempts|
    ensures After(s, e).attempts[i].settling <==> s.attempts[i].settling || (Holds(s, i) && Addresses(s, e, i))
  {
    hide Wake, PumpHead, PreemptHead, Replaceable, Enter;
    match e
    case Message(k, call) => EnterSettles(s, k, Flushing(call), true, i);
    case CancelRequest(job) =>
      HoldsAt(s, i, job);
      if job in s.active { EnterSettles(s, s.active[job], Stopping(ThenCancel), false, i); }
    case Stop(k, terminate) => EnterSettles(s, k, if terminate then Stopping(ThenLook(Retry)) else Looking(Retry, false), false, i);
    case Interrupt(k) => EnterSettles(s, k, Stopping(ThenLook(Release)), false, i);
    case _ =>
  }

  /** An attempt is settling once it is, and begins to exactly when an event that concerns it finds it in the map. */
  lemma SettlesWhen(s: State, e: Event, i: nat)
    requires Inv(s) && Possible(s, e) && i < |s.attempts|
    ensures i < |Next(s, e).attempts|
    ensures Next(s, e).attempts[i].settling <==> s.attempts[i].settling || (Holds(s, i) && Addresses(s, e, i))
  {
    StepKeeps(s, e);
    hide Inv, After, Possible, Holds, Rank;
    if e.ClaimAnswer? || e.PreemptAnswer? || e.Evicted? {
      SpawningSettles(s, e, i);
    } else if e.Flushed? || e.Looked? || e.Stopped? || e.Called? {
      SettlingStepOne(s, e, i);
    } else {
      OtherSettles(s, e, i);
    }
  }

  lemma HeadIsBusy(s: State)
    requires Indexed(s) && s.accepting && |s.active| < s.limit
    ensures PumpHead(s).pump == Claiming
  {
  }

  lemma FinishUsesRoom(s: State, i: nat)
    requires Inv(s) && Indexed(s) && i < |s.attempts| && Holds(s, i) && s.accepting && s.initialized
    ensures var s' := Finish(s, i); |s'.active| < s'.limit ==> s'.pump != Idle
  {
    hide Inv, PumpHead;
    var s1 := Removed(Updated(s, i, s.attempts[i].(stage := Done, renewing := false)), i, Settled);
    if |s1.active| < s1.limit {
      HeadIsBusy(s1);
    }
  }

  /** If the step changed the map and more could run now, the pump is at work. */
  ghost predicate RoomUsed(s: State, s': State) {
    s'.active != s.active && |s'.active| < s'.limit ==> s'.pump != Idle
  }

  lemma FinishRoom(s: State, i: nat)
    requires Inv(s) && Indexed(s) && i < |s.attempts| && s.accepting && s.initialized
    ensures RoomUsed(s, Finish(s, i))
  {
    hide Inv, Finish, Indexed, Holds;
    if Holds(s, i) {
      FinishUsesRoom(s, i);
    } else {
      FinishKeepsMap(s, i);
    }
  }

  lemma LookRoom(s: State, i: nat, answer: Answer)
    requires Inv(s) && Indexed(s) && i < |s.attempts| && s.attempts[i].stage.Looking? && s.accepting && s.initialized
    ensures RoomUsed(s, AfterLook(s, i, answer))
  {
    FinishRoom(s, i);
    hide Inv, Finish, Indexed;
  }

  lemma StopRoom(s: State, i: nat, ok: bool)
    requires Inv(s) && Indexed(s) && i < |s.attempts| && s.attempts[i].stage.Stopping? && s.accepting && s.initialized
    ensures RoomUsed(s, AfterStop(s, i, ok))
  {
    FinishRoom(s, i);
    hide Inv, Finish, Indexed;
  }

  /** Room that a settled attempt leaves is used: if more could run, the pump is at work afterwards. */
  lemma FreedRoomIsUsed(s: State, e: Event)
    requires Inv(s) && Possible(s, e) && s.accepting && s.initialized && (e.Looked? || e.Stopped? || e.Called?)
    ensures RoomUsed(s, Next(s, e))
  {
    StepKeeps(s, e);
    hide Inv, Finish, Indexed, RoomUsed, AfterLook, AfterStop;
    match e
    case Looked(i, answer) => LookRoom(s, i, answer);
    case Stopped(i, ok) => StopRoom(s, i, ok);
    case Called(i) => FinishRoom(s, i);
    case _ =>
  }

  lemma FinishKeepsMap(s: State, i: nat)
    requires Indexed(s) && i < |s.attempts| && !Holds(s, i)
    ensures Finish(s, i).active == s.active
  {
  }

  lemma RunFrom(s: State, e: Event, rest: seq<Event>)
    requires Inv(s) && Possible(s, e) && PossibleRun(Next(s, e), rest)
    ensures PossibleRun(s, [e] + rest) && Final(s, [e] + rest) == Final(Next(s, e), rest)
  {
    assert ([e] + rest)[1..] == rest;
  }

  // A store that hands out a job again while its first attempt is in the map: two claims of job 5.
  const FIRST := Attempt(Job(5, false), 0, false, true, Running, Present)
  const SECOND := FIRST.(token := 1)
  const ONE_CLAIM := State(true, true, 2, 2, [FIRST], map[5 := 0], Claiming, {0}, [])
  const TWO_CLAIMS := State(true, true, 2, 2, [FIRST.(fate := Superseded), SECOND], map[5 := 1], Claiming, {0, 1}, [])

  lemma ClaimsTheSameJob(s: State)
    requires s == ONE_CLAIM && Inv(s)
    ensures Next(s, ClaimAnswer(Some((Job(5, false), 1)), true)) == TWO_CLAIMS
  {
    hide Inv;
    StepKeeps(s, ClaimAnswer(Some((Job(5, false), 1)), true));
    assert |map[5 := 1]| == 1;
  }

  lemma ClaimsOnce(s: State)
    requires s == State(true, true, 2, 2, [], map[], Claiming, {}, []) && Inv(s)
    ensures Next(s, ClaimAnswer(Some((Job(5, false), 0)), true)) == ONE_CLAIM
  {
    hide Inv;
    StepKeeps(s, ClaimAnswer(Some((Job(5, false), 0)), true));
    assert |map[5 := 0]| == 1;
  }

  /** A claimed job can thus end up neither in the map nor given back: its attempt runs on as an orphan. */
  lemma AnOrphan() returns (run: seq<Event>)
    ensures PossibleRun(Start(2), run) && Final(Start(2), run) == TWO_CLAIMS
    ensures 0 in TWO_CLAIMS.claimed && !Holds(TWO_CLAIMS, 0) && !TWO_CLAIMS.attempts[0].settling && Count(TWO_CLAIMS.calls, 0) == 0
  {
    var first, second := ClaimAnswer(Some((Job(5, false), 0)), true), ClaimAnswer(Some((Job(5, false), 1)), true);
    var s2 := StartsClaiming();
    StepKeeps(s2, first);
    ClaimsOnce(s2);
    StepKeeps(ONE_CLAIM, second);
    ClaimsTheSameJob(ONE_CLAIM);
    assert PossibleRun(TWO_CLAIMS, []) && Final(TWO_CLAIMS, []) == TWO_CLAIMS;
    hide Inv, After, PossibleRun, Final, Count;
    RunFrom(ONE_CLAIM, second, []);
    RunFrom(s2, first, [second] + []);
    RunFrom(Next(Start(2), Initialize), Request, [first] + ([second] + []));
    RunFrom(Start(2), Initialize, [Request] + ([first] + ([second] + [])));
    run := [Initialize] + ([Request] + ([first] + ([second] + [])));
  }

  lemma StartsClaiming() returns (s: State)
    ensures Inv(Start(2)) && Inv(Next(Start(2), Initialize)) && Inv(s)
    ensures s == Next(Next(Start(2), Initialize), Request) == State(true, true, 2, 2, [], map[], Claiming, {}, [])
  {
    StartIsFine(2);
    StepKeeps(Start(2), Initialize);
    var s1 := Next(Start(2), Initialize);
    StepKeeps(s1, Request);
    s := Next(s1, Request);
  }
}
