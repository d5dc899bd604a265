/** The runner's module state and its handlers; each handler is the stretch up to its next await. */
module RunnerProcess {
  import opened Options
  import opened Numbers
  import opened Runner
  import opened RunnerCalls

  class Process {
    var accepting: bool
    var initialized: bool
    var limit: nat
    ghost var peak: nat
    var attempts: seq<Attempt>
    var active: map<JobId, nat>
    var pump: Pump
    ghost var claimed: set<Token>
    ghost var calls: seq<(Token, Call)>

    constructor (limit: nat)
      ensures View() == Start(limit)
    {
      this.limit, peak := limit, limit;
      accepting, initialized, attempts, active, pump := false, false, [], map[], Idle;
      claimed, calls := {}, [];
    }

    ghost function View(): State
      reads this
    {
      State(accepting, initialized, limit, peak, attempts, active, pump, claimed, calls)
    }

    predicate Owns(i: nat)
      reads this
    {
      i < |attempts| && attempts[i].job.id in active && active[attempts[i].job.id] == i
    }

    /** The test of the preemption loop. */
    method PreemptTurn()
      requires Indexed(View())
      modifies this`pump
      ensures View() == PreemptHead(old(View()))
    {
      var candidates := set j <- active | !attempts[active[j]].settling && attempts[active[j]].job.idle;
      pump := if accepting && candidates != {} then Preempting(candidates) else Idle;
    }

    /** The test of the claim loop in `spawnAvailableWorkers`. */
    method PumpTurn()
      requires Indexed(View())
      modifies this`pump
      ensures View() == PumpHead(old(View()))
    {
      if accepting && |active| < limit {
        pump := Claiming;
      } else {
        PreemptTurn();
      }
    }

    /** `handleOptimizeJobProcessingRequest` and, when it has to, the start of `initializeOptimizeJobProcessing`. */
    method HandleRequest()
      requires Indexed(View())
      modifies this`pump, this`initialized, this`accepting
      ensures View() == Wake(old(View()))
    {
      if !initialized {
        initialized, accepting := true, true;
      } else if accepting && pump == Idle {
        PumpTurn();
      }
    }

    /** `finishAttempt`. */
    method FinishAttempt(i: nat, fate: Fate)
      requires i < |attempts| && Indexed(View())
      modifies this`attempts, this`active, this`pump, this`initialized, this`accepting
      ensures View() == if old(Runner.Holds(View(), i) && accepting) then Wake(Removed(old(View()), i, fate)) else Removed(old(View()), i, fate)
    {
      if !Owns(i) {
        return;
      }
      var job := attempts[i].job.id;
      attempts := attempts[i := attempts[i].(fate := fate)];
      active := active - {job};
      if accepting {
        HandleRequest();
      }
    }

    /** The guard all settle paths start with. */
    method BeginSettling(i: nat, stage: Stage, keepRenewing: bool)
      modifies this`attempts
      ensures View() == Enter(old(View()), i, stage, keepRenewing)
    {
      if !Owns(i) || attempts[i].settling {
        return;
      }
      attempts := attempts[i := attempts[i].(settling := true, stage := stage, renewing := keepRenewing && attempts[i].renewing)];
    }

    method IssueCall(i: nat, call: Call)
      requires i < |attempts|
      modifies this`attempts, this`calls
      ensures View() == Issue(old(View()), i, call)
    {
      calls := calls + [(attempts[i].token, call)];
      attempts := attempts[i := attempts[i].(stage := Calling(call))];
    }

    /** The `finally` of every settle path. */
    method EndSettling(i: nat)
      requires i < |attempts| && Indexed(View())
      modifies this`attempts, this`active, this`pump, this`initialized, this`accepting
      ensures View() == Finish(old(View()), i)
    {
      attempts := attempts[i := attempts[i].(stage := Done, renewing := false)];
      FinishAttempt(i, Settled);
    }

    method SettleWorkerMessage(i: nat, call: Call)
      modifies this`attempts
      ensures View() == Enter(old(View()), i, Flushing(call), true)
    {
      BeginSettling(i, Flushing(call), true);
    }

    method StopAndCancel(job: JobId)
      modifies this`attempts
      ensures View() == if job in active then Enter(old(View()), active[job], Stopping(ThenCancel), false) else old(View())
    {
      if job in active {
        BeginSettling(active[job], Stopping(ThenCancel), false);
      }
    }

    method StopAndRetry(i: nat, terminate: bool)
      modifies this`attempts
      ensures View() == Enter(old(View()), i, if terminate then Stopping(ThenLook(Retry)) else Looking(Retry, false), false)
    {
      BeginSettling(i, if terminate then Stopping(ThenLook(Retry)) else Looking(Retry, false), false);
    }

    method InterruptForShutdown(i: nat)
      modifies this`attempts
      ensures View() == Enter(old(View()), i, Stopping(ThenLook(Release)), false)
    {
      BeginSettling(i, Stopping(ThenLook(Release)), false);
    }

    method GotJob(i: nat, answer: Answer)
      requires i < |attempts| && attempts[i].stage.Looking? && Indexed(View())
      modifies this
      ensures View() == AfterLook(old(View()), i, answer)
    {
      hide Finish;
      var stage := attempts[i].stage;
      if answer == Throws {
        EndSettling(i);
      } else if answer == Cancelled && stage.stopFirst {
        attempts := attempts[i := attempts[i].(stage := Stopping(ThenCancel))];
      } else {
        IssueCall(i, if answer == Cancelled then Cancel else stage.call);
      }
    }

    method Terminated(i: nat, ok: bool)
      requires i < |attempts| && attempts[i].stage.Stopping? && Indexed(View())
      modifies this
      ensures View() == AfterStop(old(View()), i, ok)
    {
      hide Finish;
      var next := attempts[i].stage.next;
      if !ok {
        EndSettling(i);
      } else if next == ThenCancel {
        IssueCall(i, Cancel);
      } else {
        attempts := attempts[i := attempts[i].(stage := Looking(next.call, false))];
      }
    }

    /** `spawnClaimedWorker`, when the worker starts. */
    method SpawnClaimedWorker(job: Job, token: Token)
      requires Indexed(View())
      modifies this`attempts, this`active, this`claimed, this`pump
      ensures View() == Spawn(old(View()), job, token) && Indexed(View())
    {
      if job.id in active {
        attempts := attempts[active[job.id] := attempts[active[job.id]].(fate := Superseded)];
      }
      active := active[job.id := |attempts|];
      attempts := attempts + [Attempt(job, token, false, true, Running, Present)];
      claimed, pump := claimed + {token}, Idle;
    }

    method CallForClaim(token: Token, call: Call, next: Pump)
      modifies this`claimed, this`calls, this`pump
      ensures View() == PumpCall(old(View()), token, call, next)
    {
      claimed, calls, pump := claimed + {token}, calls + [(token, call)], next;
    }

    /** A claim of the pump's first loop is answered. */
    method ClaimAnswered(claim: Option<(Job, Token)>, spawns: bool)
      requires Indexed(View())
      modifies this
      ensures View() == AfterClaim(old(View()), claim, spawns)
    {
      hide PumpHead, PreemptHead, Spawn;
      if claim.None? {
        PreemptTurn();
      } else if !accepting {
        CallForClaim(claim.value.1, Release, Releasing(claim.value.1, false));
      } else if spawns {
        SpawnClaimedWorker(claim.value.0, claim.value.1);
        PumpTurn();
      } else {
        CallForClaim(claim.value.1, Retry, Retrying(claim.value.1, false));
      }
    }

    /** The part of `preemptLocalFreeAttemptForPaid` after its victim is gone. */
    method StartPreempting(job: Job, token: Token, spawns: bool)
      requires Indexed(View())
      modifies this
      ensures View() == PreemptOutcome(old(View()), job, token, spawns)
    {
      hide PreemptHead, Spawn;
      if !accepting {
        CallForClaim(token, Release, Releasing(token, true));
      } else if spawns {
        SpawnClaimedWorker(job, token);
        PreemptTurn();
      } else {
        CallForClaim(token, Retry, Retrying(token, true));
      }
    }

    method PreemptionAnswered(claim: Option<(Job, Token)>, interrupted: JobId, spawns: bool)
      requires Indexed(View())
      modifies this
      ensures View() == AfterPreempt(old(View()), claim, interrupted, spawns)
    {
      hide PreemptOutcome;
      if claim.None? {
        pump := Idle;
      } else if interrupted in active {
        var victim := active[interrupted];
        attempts := attempts[victim := attempts[victim].(settling := true, renewing := false)];
        claimed, pump := claimed + {claim.value.1}, Evicting(victim, claim.value.0, claim.value.1);
      } else {
        StartPreempting(claim.value.0, claim.value.1, spawns);
      }
    }

    method VictimTerminated(spawns: bool)
      requires Indexed(View()) && pump.Evicting? && pump.victim < |attempts|
      modifies this
      ensures View() == AfterEviction(old(View()), spawns)
    {
      hide PreemptOutcome, Wake;
      var job, token := pump.job, pump.token;
      FinishAttempt(pump.victim, Preempted);
      StartPreempting(job, token, spawns);
    }

    /** The pump's release or retry call for a claim it could not start is answered. */
    method PumpCallAnswered()
      requires Indexed(View()) && (pump.Releasing? || pump.Retrying?)
      modifies this`pump
      ensures old(pump.Releasing?) ==> View() == if old(pump.preempting) then old(View()).(pump := Idle) else PreemptHead(old(View()))
      ensures old(pump.Retrying?) ==> View() == if old(pump.preempting) then PreemptHead(old(View())) else PumpHead(old(View()))
    {
      hide PumpHead, PreemptHead;
      if pump.Releasing? && pump.preempting {
        pump := Idle;
      } else if pump.Retrying? && !pump.preempting {
        PumpTurn();
      } else {
        PreemptTurn();
      }
    }

    /** The last part of `shutdownOptimizeJobProcessing`: every attempt still in the map begins to settle, unless it has already. */
    method InterruptRemaining()
      requires Inv(View())
      modifies this`attempts
      ensures View() == old(View()).(attempts := attempts) && |attempts| == |old(attempts)|
      ensures forall i :: 0 <= i < |attempts| ==> attempts[i] == if old(Runner.Holds(View(), i)) then Interrupted(old(attempts[i])) else old(attempts[i])
    {
      hide Inv, Runner.Holds, Enter, InterruptedBut;
      ghost var s := View();
      MapOfInv(s);
      var remaining := active.Keys;
      assert InterruptedBut(s, attempts, remaining) by { NothingInterrupted(s); }
      while remaining != {}
        invariant remaining <= active.Keys && View() == s.(attempts := attempts) && InterruptedBut(s, attempts, remaining)
        decreases |remaining|
      {
        var job :| job in remaining;
        OneInterrupted(s, attempts, remaining, job);
        remaining := remaining - {job};
        InterruptForShutdown(active[job]);
      }
      AllInterrupted(s, attempts);
    }

    /** One event, by the handler it belongs to. */
    method Handle(e: Event)
      requires Inv(View()) && Possible(View(), e)
      modifies this
      ensures Inv(View()) && View() == Next(old(View()), e)
    {
      StepKeeps(View(), e);
      hide Inv, Wake, PumpHead, PreemptHead, Finish, Enter, Issue, AfterLook, AfterStop, AfterClaim, AfterPreempt, AfterEviction, Replaceable;
      match e {
        case Initialize => initialized, accepting := true, true;
        case InitializeFailed => initialized, accepting := false, false;
        case BeginShutdown => accepting := false;
        case EndShutdown => initialized := false;
        case Reconfigure(limit') => limit, peak := limit', Max(peak, limit');
        case Request => HandleRequest();
        case Message(i, call) => SettleWorkerMessage(i, call);
        case CancelRequest(job) => StopAndCancel(job);
        case Stop(i, terminate) => StopAndRetry(i, terminate);
        case Interrupt(i) => InterruptForShutdown(i);
        case Flushed(i) => attempts := attempts[i := attempts[i].(stage := Looking(attempts[i].stage.call, true))];
        case Looked(i, answer) => GotJob(i, answer);
        case Stopped(i, ok) => Terminated(i, ok);
        case Called(i) => EndSettling(i);
        case ClaimAnswer(claim, spawns) => ClaimAnswered(claim, spawns);
        case PumpThrows => pump := Idle;
        case ReleaseAnswer => PumpCallAnswered();
        case RetryAnswer => PumpCallAnswered();
        case PreemptAnswer(claim, interrupted, spawns) => PreemptionAnswered(claim, interrupted, spawns);
        case Evicted(spawns) => VictimTerminated(spawns);
      }
    }

    /**
     Any sequence of events, from an idle process on: the map never exceeds the highest limit configured, no claim, whether
     it was spawned or not, is ended by more than one store call, and the call that ends an attempt is the one wanted by the
     event that made it settle, which is missing only after a failure on the way to it.
     */
    method Run(events: seq<Event>)
      requires View() == Start(limit) && PossibleRun(View(), events)
      modifies this
      ensures View() == Final(Start(old(limit)), events)
      ensures Inv(View()) && |active| <= Peak(old(limit), events)
      ensures forall t :: Count(calls, t) <= 1
      ensures CallsWanted(Start(old(limit)), events, attempts, calls)
    {
      ghost var s := View();
      StartIsFine(limit);
      assert events[0..] == events;
      for k := 0 to |events|
        invariant Inv(View()) && PossibleRun(View(), events[k..]) && Final(View(), events[k..]) == Final(s, events)
      {
        hide Inv, Possible, After;
        assert events[k..][0] == events[k] && events[k..][1..] == events[k + 1..];
        Handle(events[k]);
      }
      hide Inv, Possible, After, Count, Runner.Start, CallsWanted;
      assert events[|events|..] == [];
      NeverOverLimit(old(limit), events);
      forall t { OneTerminalCall(old(limit), events, t); }
      AllCallsFollow(old(limit), events);
    }
  }

  /** The attempts with all interrupted but those of the remaining jobs. */
  ghost predicate InterruptedBut(s: State, attempts: seq<Attempt>, remaining: set<JobId>) {
    && |attempts| == |s.attempts|
    && forall i :: 0 <= i < |attempts| ==>
         attempts[i] == if Holds(s, i) && s.attempts[i].job.id !in remaining then Interrupted(s.attempts[i]) else s.attempts[i]
  }

  lemma NothingInterrupted(s: State)
    ensures InterruptedBut(s, s.attempts, s.active.Keys)
  {
  }

  lemma AllInterrupted(s: State, attempts: seq<Attempt>)
    requires InterruptedBut(s, attempts, {})
    ensures |attempts| == |s.attempts|
    ensures forall i :: 0 <= i < |attempts| ==> attempts[i] == if Holds(s, i) then Interrupted(s.attempts[i]) else s.attempts[i]
  {
  }

  lemma OneInterrupted(s: State, attempts: seq<Attempt>, remaining: set<JobId>, job: JobId)
    requires InterruptedBut(s, attempts, remaining) && job in remaining && job in s.active
    requires s.active[job] < |s.attempts| && Holds(s, s.active[job]) && s.attempts[s.active[job]].job.id == job
    ensures InterruptedBut(s, Enter(s.(attempts := attempts), s.active[job], Stopping(ThenLook(Release)), false).attempts, remaining - {job})
  {
    var k := s.active[job];
    assert attempts[k] == s.attempts[k];
    forall i | 0 <= i < |attempts| && Holds(s, i) && s.attempts[i].job.id == job ensures i == k {
    }
  }

  /** An attempt once shutdown has interrupted it. */
  function Interrupted(a: Attempt): Attempt {
    if a.settling then a else a.(settling := true, stage := Stopping(ThenLook(Release)), renewing := false)
  }

  lemma MapOfInv(s: State)
    requires Inv(s)
    ensures Indexed(s) && forall j <- s.active :: Holds(s, s.active[j]) && s.attempts[s.active[j]].job.id == j
  {
  }
}
