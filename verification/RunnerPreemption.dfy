/** Whom a waiting paid job may replace: only attempts whose own job is of the idle class. */
module RunnerPreemption {
  import opened Options
  import opened Runner
  import opened RunnerCalls

  /** The jobs offered for preemption are of the idle class, as long as they are in the map. */
  ghost predicate OffersIdle(s: State) {
    Indexed(s) && (s.pump.Preempting? ==> forall j <- s.pump.candidates :: j in s.active ==> s.attempts[s.active[j]].job.idle)
  }

  /** Every attempt keeps its job. */
  ghost predicate JobsStay(s: State, s': State) {
    |s.attempts| <= |s'.attempts| && forall i :: 0 <= i < |s.attempts| ==> s'.attempts[i].job == s.attempts[i].job
  }

  lemma HeadsOffer(s: State)
    requires Indexed(s)
    ensures OffersIdle(PreemptHead(s)) && OffersIdle(PumpHead(s))
  {
  }

  lemma WakeOffers(s: State)
    requires OffersIdle(s)
    ensures OffersIdle(Wake(s))
  {
    hide PumpHead;
    HeadsOffer(s);
  }

  lemma UpdateOffers(s: State, i: nat, a: Attempt)
    requires OffersIdle(s) && i < |s.attempts| && a.job == s.attempts[i].job
    ensures OffersIdle(Updated(s, i, a)) && JobsStay(s, Updated(s, i, a))
  {
  }

  lemma FinishOffers(s: State, i: nat)
    requires OffersIdle(s) && i < |s.attempts|
    ensures OffersIdle(Finish(s, i)) && JobsStay(s, Finish(s, i))
  {
    hide Wake;
    var s1 := Updated(s, i, s.attempts[i].(stage := Done, renewing := false));
    UpdateOffers(s, i, s.attempts[i].(stage := Done, renewing := false));
    RemovedOffers(s1, i, Settled);
    WakeOffers(Removed(s1, i, Settled));
  }

  lemma RemovedOffers(s: State, i: nat, fate: Fate)
    requires OffersIdle(s) && i < |s.attempts|
    ensures OffersIdle(Removed(s, i, fate)) && JobsStay(s, Removed(s, i, fate))
  {
  }

  lemma OutcomesOffer(s: State, job: Job, token: Token, spawns: bool)
    requires Indexed(s)
    ensures OffersIdle(ClaimOutcome(s, job, token, spawns)) && OffersIdle(PreemptOutcome(s, job, token, spawns))
    ensures JobsStay(s, ClaimOutcome(s, job, token, spawns)) && JobsStay(s, PreemptOutcome(s, job, token, spawns))
  {
    hide PumpHead, PreemptHead;
    HeadsOffer(Spawn(s, job, token));
  }

  lemma LookOffers(s: State, i: nat, answer: Answer)
    requires OffersIdle(s) && i < |s.attempts| && s.attempts[i].stage.Looking?
    ensures OffersIdle(AfterLook(s, i, answer)) && JobsStay(s, AfterLook(s, i, answer))
  {
    hide Finish;
    FinishOffers(s, i);
  }

  lemma StopOffers(s: State, i: nat, ok: bool)
    requires OffersIdle(s) && i < |s.attempts| && s.attempts[i].stage.Stopping?
    ensures OffersIdle(AfterStop(s, i, ok)) && JobsStay(s, AfterStop(s, i, ok))
  {
    hide Finish;
    FinishOffers(s, i);
  }

  lemma EnterOffers(s: State, i: nat, stage: Stage, renewing: bool)
    requires OffersIdle(s)
    ensures OffersIdle(Enter(s, i, stage, renewing)) && JobsStay(s, Enter(s, i, stage, renewing))
  {
  }

  lemma AnswerOffers(s: State, e: Event)
    requires Inv(s) && Possible(s, e) && OffersIdle(s) && Answers(e)
    ensures OffersIdle(Next(s, e)) && JobsStay(s, Next(s, e))
  {
    StepKeeps(s, e);
    hide Inv, OffersIdle, JobsStay, Indexed, AfterLook, AfterStop, Finish, Holds;
    match e
    case Flushed(i) => UpdateOffers(s, i, s.attempts[i].(stage := Looking(s.attempts[i].stage.call, true)));
    case Looked(i, answer) => LookOffers(s, i, answer);
    case Stopped(i, ok) => StopOffers(s, i, ok);
    case Called(i) => FinishOffers(s, i);
  }

  lemma AfterClaimOffers(s: State, claim: Option<(Job, Token)>, spawns: bool)
    requires Indexed(s)
    ensures OffersIdle(AfterClaim(s, claim, spawns)) && JobsStay(s, AfterClaim(s, claim, spawns))
  {
    HeadsOffer(s);
    hide ClaimOutcome, PreemptHead, OffersIdle;
    if claim.Some? { OutcomesOffer(s, claim.value.0, claim.value.1, spawns); }
  }

  lemma AfterPreemptOffers(s: State, claim: Option<(Job, Token)>, interrupted: JobId, spawns: bool)
    requires Indexed(s)
    ensures OffersIdle(AfterPreempt(s, claim, interrupted, spawns)) && JobsStay(s, AfterPreempt(s, claim, interrupted, spawns))
  {
    hide PreemptOutcome;
    if claim.Some? { OutcomesOffer(s, claim.value.0, claim.value.1, spawns); }
  }

  lemma AfterEvictionOffers(s: State, spawns: bool)
    requires Indexed(s) && s.pump.Evicting? && s.pump.victim < |s.attempts|
    ensures OffersIdle(AfterEviction(s, spawns)) && JobsStay(s, AfterEviction(s, spawns))
  {
    VictimIndexed(s);
    hide VictimGone, PreemptOutcome, OffersIdle, Indexed;
    OutcomesOffer(VictimGone(s, s.pump.victim), s.pump.job, s.pump.token, spawns);
  }

  lemma ClaimOffers(s: State, e: Event)
    requires Inv(s) && Possible(s, e) && OffersIdle(s) && Claims(e)
    ensures OffersIdle(Next(s, e)) && JobsStay(s, Next(s, e))
  {
    StepKeeps(s, e);
    hide Inv, AfterClaim, AfterPreempt, AfterEviction, OffersIdle, JobsStay, Indexed;
    match e
    case ClaimAnswer(claim, spawns) => AfterClaimOffers(s, claim, spawns);
    case PreemptAnswer(claim, interrupted, spawns) => AfterPreemptOffers(s, claim, interrupted, spawns);
    case Evicted(spawns) => AfterEvictionOffers(s, spawns);
  }

  lemma VictimIndexed(s: State)
    requires Indexed(s) && s.pump.Evicting? && s.pump.victim < |s.attempts|
    ensures Indexed(VictimGone(s, s.pump.victim)) && JobsStay(s, VictimGone(s, s.pump.victim))
  {
    hide Wake;
  }

  lemma EnteringOffers(s: State, e: Event)
    requires Inv(s) && Possible(s, e) && OffersIdle(s) && Enters(e)
    ensures OffersIdle(Next(s, e)) && JobsStay(s, Next(s, e))
  {
    StepKeeps(s, e);
    hide Inv, OffersIdle, Indexed, Enter;
    match e
    case Message(i, call) => EnterOffers(s, i, Flushing(call), true);
    case CancelRequest(job) =>
      if job in s.active { EnterOffers(s, s.active[job], Stopping(ThenCancel), false); }
    case Stop(i, terminate) => EnterOffers(s, i, if terminate then Stopping(ThenLook(Retry)) else Looking(Retry, false), false);
    case Interrupt(i) => EnterOffers(s, i, Stopping(ThenLook(Release)), false);
  }

  lemma OtherOffers(s: State, e: Event)
    requires Inv(s) && Possible(s, e) && OffersIdle(s) && !Answers(e) && !Claims(e) && !Enters(e)
    ensures OffersIdle(Next(s, e)) && JobsStay(s, Next(s, e))
  {
    StepKeeps(s, e);
    HeadsOffer(s);
    WakeOffers(s);
    QuietSteps(s, e);
    hide Inv, Wake, PumpHead, PreemptHead;
  }

  lemma StepOffers(s: State, e: Event)
    requires Inv(s) && Possible(s, e) && OffersIdle(s)
    ensures OffersIdle(Next(s, e)) && JobsStay(s, Next(s, e))
  {
    hide Inv, Next, Possible, OffersIdle, JobsStay;
    if Answers(e) {
      AnswerOffers(s, e);
    } else if Claims(e) {
      ClaimOffers(s, e);
    } else if Enters(e) {
      EnteringOffers(s, e);
    } else {
      OtherOffers(s, e);
    }
  }

  lemma {:induction false} JobStays(s: State, run: seq<Event>, i: nat)
    requires Inv(s) && OffersIdle(s) && PossibleRun(s, run) && i < |s.attempts|
    ensures i < |Final(s, run).attempts| && Final(s, run).attempts[i].job == s.attempts[i].job
    decreases |run|
  {
    if run != [] {
      StepKeeps(s, run[0]);
      StepOffers(s, run[0]);
      hide Inv, Possible, Next, OffersIdle;
      JobStays(Next(s, run[0]), run[1..], i);
    }
  }

  lemma {:induction false} CausedByPreemption(s: State, run: seq<Event>, i: nat)
    requires Inv(s) && OffersIdle(s) && PossibleRun(s, run) && Cause(s, run, i).Some? && Cause(s, run, i).value.PreemptAnswer?
    ensures i < |Final(s, run).attempts| && Final(s, run).attempts[i].job.idle
    decreases |run|
  {
    var e := run[0];
    StepKeeps(s, e);
    StepOffers(s, e);
    if !Settles(s, i) && Settles(Next(s, e), i) {
      if i < |s.attempts| {
        SettlesWhen(s, e, i);
        JobStays(s, run, i);
      } else {
        NewFits(s, e, i);
      }
    } else {
      hide Inv, Possible, Next, OffersIdle;
      CausedByPreemption(Next(s, e), run[1..], i);
    }
  }

  /** In every run only attempts at idle-class jobs are preempted, whatever the store answers within the offer. */
  lemma OnlyIdleIsPreempted(limit: nat, run: seq<Event>, i: nat)
    requires PossibleRun(Start(limit), run) && Cause(Start(limit), run, i).Some? && Cause(Start(limit), run, i).value.PreemptAnswer?
    ensures i < |Final(Start(limit), run).attempts| && Final(Start(limit), run).attempts[i].job.idle
  {
    StartIsFine(limit);
    CausedByPreemption(Start(limit), run, i);
  }
}
