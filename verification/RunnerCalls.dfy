/** Which store call ends an attempt: the one that what happened to it asks for, or the cancellation its job's row asked for. */
module RunnerCalls {
  import opened Options
  import opened Runner

  /** The call an event asks for when it makes an attempt settle; a preemption asks for none. */
  function Intended(e: Event): Option<Call> {
    match e
    case Message(_, call) => Some(call)
    case Stop(_, _) => Some(Retry)
    case Interrupt(_) => Some(Release)
    case CancelRequest(_) => Some(Cancel)
    case _ => None
  }

  /** A job that was found cancelled is cancelled instead. */
  function Wanted(e: Event, foundCancelled: bool): Option<Call> {
    if foundCancelled && Intended(e).Some? then Some(Cancel) else Intended(e)
  }

  predicate Settles(s: State, i: nat) { i < |s.attempts| && s.attempts[i].settling }

  /** The event of the run that made attempt i settle. */
  ghost function Cause(s: State, run: seq<Event>, i: nat): Option<Event>
    requires PossibleRun(s, run)
    decreases |run|
  {
    if run == [] then None
    else if !Settles(s, i) && Settles(Next(s, run[0]), i) then Some(run[0])
    else Cause(Next(s, run[0]), run[1..], i)
  }

  // One attempt in one step.

  ghost predicate Uncalled(a: Attempt, calls: seq<(Token, Call)>) { forall c :: (a.token, c) !in calls }

  /**
   What a run has told about an attempt: what made it settle, whether its job was found cancelled, whether its worker was
   terminated, and whether either could not be done.
   */
  datatype History = History(cause: Option<Event>, cancelled: bool, stopped: bool, failed: bool)

  const FRESH := History(None, false, false, false)

  /** The event is a failure to read the job's row or to terminate the worker. */
  predicate FailsFor(e: Event, i: nat) { e == Looked(i, Throws) || e == Stopped(i, false) }

  /** The event asks for the worker to be terminated before the job's row is read. */
  predicate StopsFirst(e: Event) { e.Interrupt? || (e.Stop? && e.terminate) }

  /** The worker has to be terminated before this call. */
  predicate NeedsEnd(e: Event, c: Call) { StopsFirst(e) || e.CancelRequest? || (e.Message? && c == Cancel) }

  /** Stage and calls of an attempt agree with its history. */
  ghost predicate Fits(a: Attempt, h: History, calls: seq<(Token, Call)>) {
    && (a.settling <==> h.cause.Some?)
    && (!a.settling ==> a.stage == Running && a.renewing)
    && (a.settling && a.renewing ==> h.cause.Some? && h.cause.value.Message? && a.stage != Done)
    && (!a.stage.Calling? && a.stage != Done ==> Uncalled(a, calls) && StageFits(a.stage, h))
    && (a.stage != Done ==> !h.failed)
    && (a.stage.Calling? || a.stage == Done ==> (h.failed <==> Uncalled(a, calls)))
    && forall c :: (a.token, c) in calls ==> h.cause.Some? && Wanted(h.cause.value, h.cancelled) == Some(c) && (h.stopped <==> NeedsEnd(h.cause.value, c))
  }

  ghost predicate StageFits(stage: Stage, h: History)
    requires !stage.Calling? && stage != Done
  {
    match stage
    case Running => !h.cancelled && !h.stopped
    case Flushing(call) => !h.cancelled && !h.stopped && h.cause.Some? && h.cause.value.Message? && Intended(h.cause.value) == Some(call) && call != Cancel
    case Looking(call, stopFirst) =>
      && !h.cancelled && h.cause.Some? && Intended(h.cause.value) == Some(call)
      && (if stopFirst then h.cause.value.Message? && !h.stopped && call != Cancel
          else (h.cause.value.Stop? || h.cause.value.Interrupt?) && (h.stopped <==> StopsFirst(h.cause.value)))
    case Stopping(next) =>
      && !h.stopped && h.cause.Some?
      && (if next.ThenCancel? then h.cause.value.CancelRequest? || (h.cause.value.Message? && h.cancelled)
          else !h.cancelled && StopsFirst(h.cause.value) && Intended(h.cause.value) == Some(next.call))
  }

  /** An attempt that a step leaves in its stage still fits, whether it settles now or not. */
  lemma FitsSame(a: Attempt, a': Attempt, h: History, h': History, calls: seq<(Token, Call)>, calls': seq<(Token, Call)>)
    requires Fits(a, h, calls) && SameStage(a, a')
    requires (a'.settling <==> h'.cause.Some?) && (h.cause.Some? ==> h' == h) && h' == h.(cause := h'.cause)
    requires forall c :: (a.token, c) in calls' <==> (a.token, c) in calls
    ensures Fits(a', h', calls')
  {
  }

  lemma {:induction false} ZeroMeansNone(calls: seq<(Token, Call)>, t: Token)
    requires Count(calls, t) == 0
    ensures forall c :: (t, c) !in calls
  {
    if calls != [] {
      ZeroMeansNone(calls[..|calls| - 1], t);
      assert forall x <- calls :: x in calls[..|calls| - 1] || x == calls[|calls| - 1];
    }
  }

  lemma OtherToken(s: State, i: nat, k: nat)
    requires Inv(s) && i < |s.attempts| && k < |s.attempts| && i != k
    ensures s.attempts[i].token != s.attempts[k].token
  {
  }

  /** What a step adds to the history of attempt i. */
  ghost function Told(h: History, a: Attempt, a': Attempt, e: Event, i: nat): History {
    History(if !a.settling && a'.settling then Some(e) else h.cause, h.cancelled || e == Looked(i, Cancelled), h.stopped || e == Stopped(i, true),
            h.failed || FailsFor(e, i))
  }

  lemma FinishFits(s: State, k: nat, i: nat, h: History, h': History)
    requires Inv(s) && Indexed(s) && k < |s.attempts| && i < |s.attempts| && Fits(s.attempts[i], h, s.calls)
    requires s.attempts[k].stage != Running && s.attempts[k].stage != Done
    requires h' == if i == k then h.(failed := !s.attempts[k].stage.Calling?) else h
    ensures i < |Finish(s, k).attempts| && Finish(s, k).calls == s.calls && Finish(s, k).attempts[i].settling == s.attempts[i].settling
    ensures Fits(Finish(s, k).attempts[i], h', s.calls)
  {
    FinishOne(s, k, i);
    hide Inv, Finish, Indexed, Holds;
    FinishCalls(s, k);
    if i != k {
      FitsSame(s.attempts[i], Finish(s, k).attempts[i], h, h, s.calls, s.calls);
    }
  }

  lemma FinishCalls(s: State, k: nat)
    requires Indexed(s) && k < |s.attempts|
    ensures Finish(s, k).calls == s.calls && |Finish(s, k).attempts| == |s.attempts|
  {
    hide Wake;
  }

  lemma IssueFits(s: State, k: nat, call: Call, i: nat, h: History, h': History)
    requires Inv(s) && k < |s.attempts| && i < |s.attempts| && Fits(s.attempts[i], h, s.calls)
    requires s.attempts[k].stage.Looking? || s.attempts[k].stage.Stopping?
    requires h'.cause == h.cause && h'.failed == h.failed
    requires if i == k then h.cause.Some? && Wanted(h.cause.value, h'.cancelled) == Some(call) && (h'.stopped <==> NeedsEnd(h.cause.value, call)) else h' == h
    ensures Fits(Issue(s, k, call).attempts[i], h', Issue(s, k, call).calls)
  {
    if i != k {
      OtherToken(s, i, k);
    }
    hide Inv, Count;
    var s' := Issue(s, k, call);
    if i == k {
      assert forall c :: (s.attempts[k].token, c) in s'.calls ==> c == call;
    } else {
      FitsSame(s.attempts[i], s'.attempts[i], h, h, s.calls, s'.calls);
    }
  }

  lemma LookFits(s: State, k: nat, answer: Answer, i: nat, h: History)
    requires Inv(s) && Indexed(s) && k < |s.attempts| && s.attempts[k].stage.Looking? && i < |s.attempts| && Fits(s.attempts[i], h, s.calls)
    ensures var s' := AfterLook(s, k, answer);
            && i < |s'.attempts| && s'.attempts[i].settling == s.attempts[i].settling
            && Fits(s'.attempts[i], h.(cancelled := h.cancelled || (i == k && answer == Cancelled),
                                       failed := h.failed || (i == k && answer == Throws)), s'.calls)
  {
    hide Inv, Finish, Indexed, Holds;
    if answer == Throws {
      FinishFits(s, k, i, h, if i == k then h.(failed := true) else h);
    } else if answer == Going {
      IssueFits(s, k, s.attempts[k].stage.call, i, h, h);
    } else if !s.attempts[k].stage.stopFirst {
      IssueFits(s, k, Cancel, i, h, h.(cancelled := h.cancelled || i == k));
    }
  }

  lemma StopFits(s: State, k: nat, ok: bool, i: nat, h: History)
    requires Inv(s) && Indexed(s) && k < |s.attempts| && s.attempts[k].stage.Stopping? && i < |s.attempts| && Fits(s.attempts[i], h, s.calls)
    ensures var s' := AfterStop(s, k, ok);
            && i < |s'.attempts| && s'.attempts[i].settling == s.attempts[i].settling
            && Fits(s'.attempts[i], h.(stopped := h.stopped || (i == k && ok), failed := h.failed || (i == k && !ok)), s'.calls)
  {
    hide Inv, Finish, Indexed, Holds;
    if !ok {
      FinishFits(s, k, i, h, if i == k then h.(failed := true) else h);
    } else if s.attempts[k].stage.next == ThenCancel {
      IssueFits(s, k, Cancel, i, h, h.(stopped := h.stopped || i == k));
    }
  }

  lemma FlushFits(s: State, k: nat, i: nat, h: History)
    requires k < |s.attempts| && s.attempts[k].stage.Flushing? && i < |s.attempts| && Fits(s.attempts[i], h, s.calls)
    ensures var s' := Updated(s, k, s.attempts[k].(stage := Looking(s.attempts[k].stage.call, true)));
            s'.attempts[i].settling == s.attempts[i].settling && Fits(s'.attempts[i], h, s'.calls)
  {
  }

  lemma ToldAnswer(h: History, a: Attempt, a': Attempt, e: Event, i: nat)
    requires a'.settling == a.settling
    ensures Told(h, a, a', e, i) ==
            h.(cancelled := h.cancelled || e == Looked(i, Cancelled), stopped := h.stopped || e == Stopped(i, true), failed := h.failed || FailsFor(e, i))
  {
  }

  lemma CalledFits(s: State, k: nat, i: nat, h: History)
    requires Inv(s) && Indexed(s) && k < |s.attempts| && s.attempts[k].stage.Calling? && i < |s.attempts| && Fits(s.attempts[i], h, s.calls)
    ensures var s' := Finish(s, k);
            && i < |s'.attempts| && s'.calls == s.calls && s'.attempts[i].settling == s.attempts[i].settling
            && Fits(s'.attempts[i], h, s'.calls)
  {
    hide Inv, Finish, Indexed;
    assert i == k ==> h == h.(failed := false);
    FinishFits(s, k, i, h, h);
  }

  /** Attempt i still fits after a step that does not make it settle. */
  ghost predicate StillFits(s: State, e: Event, i: nat, h: History)
    requires Inv(s) && Possible(s, e) && i < |s.attempts|
  {
    var s' := Next(s, e);
    && i < |s'.attempts| && s'.attempts[i].settling == s.attempts[i].settling
    && Fits(s'.attempts[i], Told(h, s.attempts[i], s'.attempts[i], e, i), s'.calls)
  }

  lemma FlushedIs(s: State, k: nat)
    requires Inv(s) && Possible(s, Flushed(k))
    ensures Indexed(s) && k < |s.attempts| && s.attempts[k].stage.Flushing? && Next(s, Flushed(k)) == Updated(s, k, s.attempts[k].(stage := Looking(s.attempts[k].stage.call, true)))
  {
    StepKeeps(s, Flushed(k));
    hide Inv, Indexed, Holds;
  }

  lemma FlushedFits(s: State, k: nat, i: nat, h: History)
    requires Inv(s) && Possible(s, Flushed(k)) && i < |s.attempts| && Fits(s.attempts[i], h, s.calls)
    ensures StillFits(s, Flushed(k), i, h)
  {
    FlushedIs(s, k);
    hide Inv, Possible, Next, Indexed, AfterLook, AfterStop, Finish, Fits, Told;
    FlushFits(s, k, i, h);
    ToldAnswer(h, s.attempts[i], Next(s, Flushed(k)).attempts[i], Flushed(k), i);
  }

  lemma LookedIs(s: State, k: nat, answer: Answer)
    requires Inv(s) && Possible(s, Looked(k, answer))
    ensures Indexed(s) && k < |s.attempts| && s.attempts[k].stage.Looking? && Next(s, Looked(k, answer)) == AfterLook(s, k, answer)
  {
    StepKeeps(s, Looked(k, answer));
    hide Inv, Indexed, AfterLook, AfterStop, Finish;
  }

  lemma LookedFits(s: State, k: nat, answer: Answer, i: nat, h: History)
    requires Inv(s) && Possible(s, Looked(k, answer)) && i < |s.attempts| && Fits(s.attempts[i], h, s.calls)
    ensures StillFits(s, Looked(k, answer), i, h)
  {
    LookedIs(s, k, answer);
    hide Inv, Possible, Next, Indexed, AfterLook, AfterStop, Finish, Fits, Told;
    LookFits(s, k, answer, i, h);
    ToldAnswer(h, s.attempts[i], Next(s, Looked(k, answer)).attempts[i], Looked(k, answer), i);
  }

  lemma StoppedIs(s: State, k: nat, ok: bool)
    requires Inv(s) && Possible(s, Stopped(k, ok))
    ensures Indexed(s) && k < |s.attempts| && s.attempts[k].stage.Stopping? && Next(s, Stopped(k, ok)) == AfterStop(s, k, ok)
  {
    StepKeeps(s, Stopped(k, ok));
    hide Inv, Indexed, AfterLook, AfterStop, Finish;
  }

  lemma StoppedFits(s: State, k: nat, ok: bool, i: nat, h: History)
    requires Inv(s) && Possible(s, Stopped(k, ok)) && i < |s.attempts| && Fits(s.attempts[i], h, s.calls)
    ensures StillFits(s, Stopped(k, ok), i, h)
  {
    StoppedIs(s, k, ok);
    hide Inv, Possible, Next, Indexed, AfterLook, AfterStop, Finish, Fits, Told;
    StopFits(s, k, ok, i, h);
    ToldAnswer(h, s.attempts[i], Next(s, Stopped(k, ok)).attempts[i], Stopped(k, ok), i);
  }

  lemma CallAnsweredIs(s: State, k: nat)
    requires Inv(s) && Possible(s, Called(k))
    ensures Indexed(s) && k < |s.attempts| && s.attempts[k].stage.Calling? && Next(s, Called(k)) == Finish(s, k)
  {
    StepKeeps(s, Called(k));
    hide Inv, Indexed, AfterLook, AfterStop, Finish;
  }

  lemma CallAnsweredFits(s: State, k: nat, i: nat, h: History)
    requires Inv(s) && Possible(s, Called(k)) && i < |s.attempts| && Fits(s.attempts[i], h, s.calls)
    ensures StillFits(s, Called(k), i, h)
  {
    CallAnsweredIs(s, k);
    hide Inv, Possible, Next, Indexed, AfterLook, AfterStop, Finish, Fits, Told;
    CalledFits(s, k, i, h);
    ToldAnswer(h, s.attempts[i], Next(s, Called(k)).attempts[i], Called(k), i);
  }

  lemma AnswerFits(s: State, e: Event, i: nat, h: History)
    requires Inv(s) && Possible(s, e) && i < |s.attempts| && Fits(s.attempts[i], h, s.calls)
    requires e.Flushed? || e.Looked? || e.Stopped? || e.Called?
    ensures StillFits(s, e, i, h)
  {
    hide *;
    match e {
      case Flushed(k) => FlushedFits(s, k, i, h);
      case Looked(k, answer) => LookedFits(s, k, answer, i, h);
      case Stopped(k, ok) => StoppedFits(s, k, ok, i, h);
      case Called(k) => CallAnsweredFits(s, k, i, h);
    }
  }

  // Steps that claim.

  /** What the pump does with a claim: it spawns the job, or gives it back by the one call its situation asks for. */
  ghost predicate Dealt(s: State, s': State, job: Job, token: Token, spawns: bool) {
    && s'.calls == s.calls + (if !s.accepting then [(token, Release)] else if spawns then [] else [(token, Retry)])
    && |s'.attempts| == |s.attempts| + (if s.accepting && spawns then 1 else 0)
    && (s.accepting && spawns ==>
          s'.attempts[|s.attempts|] == Attempt(job, token, false, true, Running, Present) && job.id in s'.active && s'.active[job.id] == |s.attempts|)
  }

  lemma OutcomesDeal(s: State, job: Job, token: Token, spawns: bool)
    requires Indexed(s)
    ensures Dealt(s, ClaimOutcome(s, job, token, spawns), job, token, spawns)
    ensures Dealt(s, PreemptOutcome(s, job, token, spawns), job, token, spawns)
  {
    hide PumpHead, PreemptHead;
  }

  lemma VictimCalls(s: State, victim: nat)
    requires Indexed(s) && victim < |s.attempts|
    ensures VictimGone(s, victim).calls == s.calls && |VictimGone(s, victim).attempts| == |s.attempts|
  {
    hide Wake;
  }

  /** The claim a step deals with, if it deals with one. */
  ghost function DealtClaim(s: State, e: Event): Option<(Job, Token, bool)>
    requires Possible(s, e)
  {
    match e
    case ClaimAnswer(claim, spawns) => if claim.Some? then Some((claim.value.0, claim.value.1, spawns)) else None
    case PreemptAnswer(claim, interrupted, spawns) =>
      if claim.Some? && interrupted !in s.active then Some((claim.value.0, claim.value.1, spawns)) else None
    case Evicted(spawns) => Some((s.pump.job, s.pump.token, spawns))
    case _ => None
  }

  lemma EvictedDeals(s: State, spawns: bool)
    requires Indexed(s) && s.pump.Evicting? && s.pump.victim < |s.attempts|
    ensures Dealt(s, AfterEviction(s, spawns), s.pump.job, s.pump.token, spawns)
  {
    var s1 := VictimGone(s, s.pump.victim);
    VictimOne(s, s.pump.victim, s.pump.victim);
    VictimCalls(s, s.pump.victim);
    hide VictimGone, PreemptOutcome, ClaimOutcome, Holds, Indexed;
    OutcomesDeal(s1, s.pump.job, s.pump.token, spawns);
  }

  lemma ClaimDeals(s: State, claim: Option<(Job, Token)>, spawns: bool)
    requires Indexed(s)
    ensures var s' := AfterClaim(s, claim, spawns);
            if claim.Some? then Dealt(s, s', claim.value.0, claim.value.1, spawns) else s'.calls == s.calls && |s'.attempts| == |s.attempts|
  {
    hide Indexed, ClaimOutcome, PreemptOutcome, PreemptHead, Dealt;
    if claim.Some? { OutcomesDeal(s, claim.value.0, claim.value.1, spawns); }
  }

  lemma PreemptDeals(s: State, claim: Option<(Job, Token)>, interrupted: JobId, spawns: bool)
    requires Indexed(s)
    ensures var s' := AfterPreempt(s, claim, interrupted, spawns);
            if claim.Some? && interrupted !in s.active then Dealt(s, s', claim.value.0, claim.value.1, spawns)
            else s'.calls == s.calls && |s'.attempts| == |s.attempts|
  {
    hide ClaimOutcome, PreemptOutcome, Dealt;
    if claim.Some? { OutcomesDeal(s, claim.value.0, claim.value.1, spawns); }
  }

  /** A claim is released exactly when nothing is accepted any more, retried exactly when its worker does not start, and otherwise spawned as its own job. */
  lemma HowClaimsAreDealt(s: State, e: Event)
    requires Inv(s) && Possible(s, e) && (e.ClaimAnswer? || e.PreemptAnswer? || e.Evicted?)
    ensures var claim := DealtClaim(s, e);
            if claim.Some? then Dealt(s, Next(s, e), claim.value.0, claim.value.1, claim.value.2)
            else Next(s, e).calls == s.calls && |Next(s, e).attempts| == |s.attempts|
  {
    StepKeeps(s, e);
    hide Inv, Indexed, AfterClaim, AfterPreempt, AfterEviction, Dealt;
    match e
    case ClaimAnswer(claim, spawns) => ClaimDeals(s, claim, spawns);
    case PreemptAnswer(claim, interrupted, spawns) => PreemptDeals(s, claim, interrupted, spawns);
    case Evicted(spawns) => EvictedDeals(s, spawns);
  }

  /** The dealt claim was not spawned before, and nothing was called for it. */
  lemma DealtIsUntouched(s: State, e: Event)
    requires Inv(s) && Possible(s, e) && DealtClaim(s, e).Some?
    ensures Count(s.calls, DealtClaim(s, e).value.1) == 0
    ensures forall i :: 0 <= i < |s.attempts| ==> s.attempts[i].token != DealtClaim(s, e).value.1
  {
    hide Count, AttemptOk;
    var t := DealtClaim(s, e).value.1;
    assert t !in Spawned(s.attempts);
    forall i | 0 <= i < |s.attempts| ensures s.attempts[i].token != t {
      assert s.attempts[i] in s.attempts;
    }
  }

  /** The stages of the attempts that were there stay as they are while the pump claims. */
  lemma ClaimingKeepsStages(s: State, e: Event, i: nat)
    requires Inv(s) && Possible(s, e) && i < |s.attempts| && (e.ClaimAnswer? || e.PreemptAnswer? || e.Evicted?)
    ensures i < |Next(s, e).attempts|
    ensures SameStage(s.attempts[i], Next(s, e).attempts[i])
  {
    StepKeeps(s, e);
    hide Inv, AfterClaim, AfterPreempt, AfterEviction;
    match e
    case ClaimAnswer(claim, spawns) => ClaimStages(s, claim, spawns, i);
    case PreemptAnswer(claim, interrupted, spawns) => PreemptStages(s, claim, interrupted, spawns, i);
    case Evicted(spawns) => EvictedStages(s, spawns, i);
  }

  ghost predicate SameStage(a: Attempt, a': Attempt) {
    && a'.stage == a.stage && a'.token == a.token && (a.settling ==> a'.settling)
    && (a'.settling && a'.renewing ==> a.settling && a.renewing) && (!a'.settling ==> a.renewing ==> a'.renewing)
  }

  lemma ClaimStages(s: State, claim: Option<(Job, Token)>, spawns: bool, i: nat)
    requires i < |s.attempts| && Indexed(s)
    ensures i < |AfterClaim(s, claim, spawns).attempts| && SameStage(s.attempts[i], AfterClaim(s, claim, spawns).attempts[i])
  {
    hide Indexed, PreemptHead, ClaimOutcome, PreemptOutcome;
    if claim.Some? { OutcomeOne(s, claim.value.0, claim.value.1, spawns, i); }
  }

  lemma PreemptStages(s: State, claim: Option<(Job, Token)>, interrupted: JobId, spawns: bool, i: nat)
    requires i < |s.attempts| && Indexed(s)
    ensures i < |AfterPreempt(s, claim, interrupted, spawns).attempts|
    ensures SameStage(s.attempts[i], AfterPreempt(s, claim, interrupted, spawns).attempts[i])
  {
    hide ClaimOutcome, PreemptOutcome;
    if claim.Some? { OutcomeOne(s, claim.value.0, claim.value.1, spawns, i); }
  }

  lemma EvictedStages(s: State, spawns: bool, i: nat)
    requires i < |s.attempts| && Indexed(s) && s.pump.Evicting? && s.pump.victim < |s.attempts|
    ensures i < |AfterEviction(s, spawns).attempts| && SameStage(s.attempts[i], AfterEviction(s, spawns).attempts[i])
  {
    hide Indexed, ClaimOutcome, PreemptOutcome, VictimGone, Holds;
    VictimOne(s, s.pump.victim, i);
    OutcomeOne(VictimGone(s, s.pump.victim), s.pump.job, s.pump.token, spawns, i);
  }

  lemma ClaimingFits(s: State, e: Event, i: nat, h: History)
    requires Inv(s) && Possible(s, e) && i < |s.attempts| && Fits(s.attempts[i], h, s.calls)
    requires e.ClaimAnswer? || e.PreemptAnswer? || e.Evicted?
    ensures var s' := Next(s, e);
            i < |s'.attempts| && Fits(s'.attempts[i], Told(h, s.attempts[i], s'.attempts[i], e, i), s'.calls)
  {
    HowClaimsAreDealt(s, e);
    ClaimingKeepsStages(s, e, i);
    if DealtClaim(s, e).Some? { DealtIsUntouched(s, e); }
    hide Inv, Next, Possible;
    var s' := Next(s, e);
    FitsSame(s.attempts[i], s'.attempts[i], h, Told(h, s.attempts[i], s'.attempts[i], e, i), s.calls, s'.calls);
  }

  // Steps that make an attempt settle, and the rest.

  /** How each event enters: a message to flush the progress, the rest to stop the worker or to read the job's row. */
  predicate EntersBy(stage: Stage, e: Event) {
    match e
    case Message(_, call) => stage.Flushing? && call != Cancel
    case Stop(_, terminate) => if terminate then stage.Stopping? && stage.next.ThenLook? else stage.Looking? && !stage.stopFirst
    case Interrupt(_) => stage.Stopping? && stage.next.ThenLook?
    case CancelRequest(_) => stage.Stopping? && stage.next.ThenCancel?
    case _ => false
  }

  lemma EnterFits(s: State, k: nat, stage: Stage, renewing: bool, e: Event, i: nat, h: History)
    requires i < |s.attempts| && Fits(s.attempts[i], h, s.calls)
    requires stage.Flushing? ==> Intended(e) == Some(stage.call)
    requires stage.Looking? ==> Intended(e) == Some(stage.call)
    requires stage.Stopping? ==> Intended(e) == Some(if stage.next.ThenCancel? then Cancel else stage.next.call)
    requires (stage.Flushing? || stage.Looking? || stage.Stopping?) && (renewing ==> e.Message?)
    requires EntersBy(stage, e)
    ensures var s' := Enter(s, k, stage, renewing);
            && i < |s'.attempts| && s'.calls == s.calls
            && Fits(s'.attempts[i], Told(h, s.attempts[i], s'.attempts[i], e, i), s'.calls)
  {
  }

  /** Whether the event is one that may make an attempt settle by itself. */
  predicate Enters(e: Event) { e.Message? || e.CancelRequest? || e.Stop? || e.Interrupt? }

  predicate Answers(e: Event) { e.Flushed? || e.Looked? || e.Stopped? || e.Called? }

  predicate Claims(e: Event) { e.ClaimAnswer? || e.PreemptAnswer? || e.Evicted? }

  lemma QuietSteps(s: State, e: Event)
    requires Inv(s) && Possible(s, e) && !Enters(e) && !Answers(e) && !Claims(e)
    ensures Next(s, e).attempts == s.attempts && Next(s, e).calls == s.calls
  {
    StepKeeps(s, e);
    hide Inv, PumpHead, PreemptHead;
  }

  lemma EnteringFits(s: State, e: Event, i: nat, h: History)
    requires Inv(s) && Possible(s, e) && i < |s.attempts| && Fits(s.attempts[i], h, s.calls) && Enters(e)
    ensures var s' := Next(s, e);
            i < |s'.attempts| && Fits(s'.attempts[i], Told(h, s.attempts[i], s'.attempts[i], e, i), s'.calls)
  {
    StepKeeps(s, e);
    hide Inv, Enter, Fits;
    match e
    case Message(k, call) => EnterFits(s, k, Flushing(call), true, e, i, h);
    case CancelRequest(job) =>
      if job in s.active { EnterFits(s, s.active[job], Stopping(ThenCancel), false, e, i, h); }
    case Stop(k, terminate) =>
      EnterFits(s, k, if terminate then Stopping(ThenLook(Retry)) else Looking(Retry, false), false, e, i, h);
    case Interrupt(k) => EnterFits(s, k, Stopping(ThenLook(Release)), false, e, i, h);
  }

  lemma EnteringAddsNone(s: State, e: Event)
    requires Inv(s) && Possible(s, e) && Enters(e)
    ensures |Next(s, e).attempts| == |s.attempts|
  {
    StepKeeps(s, e);
    hide Inv, Enter, Indexed;
    match e
    case Message(k, call) => EnterAddsNone(s, k, Flushing(call), true);
    case CancelRequest(job) =>
      if job in s.active { EnterAddsNone(s, s.active[job], Stopping(ThenCancel), false); }
    case Stop(k, terminate) => EnterAddsNone(s, k, if terminate then Stopping(ThenLook(Retry)) else Looking(Retry, false), false);
    case Interrupt(k) => EnterAddsNone(s, k, Stopping(ThenLook(Release)), false);
  }

  lemma EnterAddsNone(s: State, k: nat, stage: Stage, renewing: bool)
    ensures |Enter(s, k, stage, renewing).attempts| == |s.attempts|
  {
  }

  lemma LookAddsNone(s: State, k: nat, answer: Answer)
    requires Indexed(s) && k < |s.attempts| && s.attempts[k].stage.Looking?
    ensures |AfterLook(s, k, answer).attempts| == |s.attempts|
  {
    hide Finish, Indexed;
    FinishCalls(s, k);
  }

  lemma StopAddsNone(s: State, k: nat, ok: bool)
    requires Indexed(s) && k < |s.attempts| && s.attempts[k].stage.Stopping?
    ensures |AfterStop(s, k, ok).attempts| == |s.attempts|
  {
    hide Finish, Indexed;
    FinishCalls(s, k);
  }

  lemma AnswersAddNone(s: State, e: Event)
    requires Inv(s) && Possible(s, e) && Answers(e)
    ensures |Next(s, e).attempts| == |s.attempts|
  {
    StepKeeps(s, e);
    hide Inv, Finish, AfterLook, AfterStop, Indexed;
    match e
    case Looked(k, answer) => LookAddsNone(s, k, answer);
    case Stopped(k, ok) => StopAddsNone(s, k, ok);
    case Called(k) => FinishCalls(s, k);
    case _ =>
  }

  lemma StepFits(s: State, e: Event, i: nat, h: History)
    requires Inv(s) && Possible(s, e) && i < |s.attempts| && Fits(s.attempts[i], h, s.calls)
    ensures var s' := Next(s, e);
            && i < |s'.attempts|
            && Fits(s'.attempts[i], Told(h, s.attempts[i], s'.attempts[i], e, i), s'.calls)
  {
    hide Inv, Next, Possible, Fits;
    if Answers(e) {
      AnswerFits(s, e, i, h);
    } else if Claims(e) {
      ClaimingFits(s, e, i, h);
    } else if Enters(e) {
      EnteringFits(s, e, i, h);
    } else {
      QuietSteps(s, e);
    }
  }

  lemma DealtFits(s: State, s': State, job: Job, token: Token, spawns: bool, i: nat)
    requires Dealt(s, s', job, token, spawns) && (forall c :: (token, c) !in s.calls) && i >= |s.attempts|
    ensures i < |s'.attempts| ==> Fits(s'.attempts[i], FRESH, s'.calls)
  {
  }

  lemma ClaimedFits(s: State, e: Event, i: nat)
    requires Inv(s) && Possible(s, e) && i >= |s.attempts| && Claims(e)
    ensures i < |Next(s, e).attempts| ==> Fits(Next(s, e).attempts[i], FRESH, Next(s, e).calls)
  {
    hide Inv, Next, Possible, DealtClaim, Count, Dealt, Fits;
    HowClaimsAreDealt(s, e);
    if DealtClaim(s, e).Some? {
      var (job, token, spawns) := DealtClaim(s, e).value;
      DealtIsUntouched(s, e);
      ZeroMeansNone(s.calls, token);
      DealtFits(s, Next(s, e), job, token, spawns, i);
    }
  }

  lemma NotLooking(s: State, e: Event, i: nat)
    requires Inv(s) && Possible(s, e) && i >= |s.attempts|
    ensures e != Looked(i, Cancelled) && e != Stopped(i, true) && !FailsFor(e, i)
  {
    hide Inv;
  }

  /** An attempt that a step adds has not settled, and nothing was called for it. */
  lemma NewFits(s: State, e: Event, i: nat)
    requires Inv(s) && Possible(s, e) && i >= |s.attempts|
    ensures e != Looked(i, Cancelled) && e != Stopped(i, true) && !FailsFor(e, i)
    ensures i < |Next(s, e).attempts| ==> Fits(Next(s, e).attempts[i], FRESH, Next(s, e).calls)
  {
    hide Inv, Next, Possible, Fits;
    NotLooking(s, e, i);
    if Claims(e) {
      ClaimedFits(s, e, i);
    } else if Answers(e) {
      AnswersAddNone(s, e);
    } else if Enters(e) {
      EnteringAddsNone(s, e);
    } else {
      QuietSteps(s, e);
    }
  }

  lemma {:induction false} RunFits(s: State, run: seq<Event>, i: nat, h: History)
    requires Inv(s) && PossibleRun(s, run)
    requires if i < |s.attempts| then Fits(s.attempts[i], h, s.calls) else h == FRESH
    ensures var s' := Final(s, run);
            i < |s'.attempts| ==>
              Fits(s'.attempts[i], History(if h.cause.Some? then h.cause else Cause(s, run, i), h.cancelled || Looked(i, Cancelled) in run,
                                           h.stopped || Stopped(i, true) in run, h.failed || exists e <- run :: FailsFor(e, i)), s'.calls)
    decreases |run|
  {
    if run != [] {
      var e, rest := run[0], run[1..];
      var s1 := Next(s, e);
      StepKeeps(s, e);
      if i < |s.attempts| {
        StepFits(s, e, i, h);
      } else {
        NewFits(s, e, i);
      }
      SettledHasCause(s, i, h);
      hide Inv, Possible, Next;
      var h1 := if i < |s.attempts| then Told(h, s.attempts[i], s1.attempts[i], e, i) else FRESH;
      assert Looked(i, Cancelled) in run <==> e == Looked(i, Cancelled) || Looked(i, Cancelled) in rest;
      assert Stopped(i, true) in run <==> e == Stopped(i, true) || Stopped(i, true) in rest;
      assert (exists e <- run :: FailsFor(e, i)) <==> FailsFor(e, i) || exists e <- rest :: FailsFor(e, i);
      RunFits(s1, rest, i, h1);
    }
  }

  lemma SettledHasCause(s: State, i: nat, h: History)
    requires if i < |s.attempts| then Fits(s.attempts[i], h, s.calls) else h == FRESH
    ensures Settles(s, i) <==> h.cause.Some?
  {
  }

  /**
   In every run, each call made for a spawned claim is the one wanted by the event that made its attempt settle: a message's
   own call, a retry after an error or exit, a release at shutdown, a cancellation on request; and a cancellation
   instead of any of these iff the job's row said so.
   */
  lemma CallsFollowCauses(limit: nat, run: seq<Event>, i: nat, c: Call)
    requires PossibleRun(Start(limit), run) && i < |Final(Start(limit), run).attempts|
    requires (Final(Start(limit), run).attempts[i].token, c) in Final(Start(limit), run).calls
    ensures IsWanted(Start(limit), run, i, c)
  {
    StartIsFine(limit);
    RunFits(Start(limit), run, i, FRESH);
  }

  /** An attempt that has settled made its call, unless its job's row could not be read or its worker not be terminated. */
  lemma NoCallIsMissing(limit: nat, run: seq<Event>, i: nat)
    requires PossibleRun(Start(limit), run) && i < |Final(Start(limit), run).attempts| && Final(Start(limit), run).attempts[i].stage == Done
    ensures var s := Final(Start(limit), run);
            (exists c :: (s.attempts[i].token, c) in s.calls) <==> Looked(i, Throws) !in run && Stopped(i, false) !in run
  {
    StartIsFine(limit);
    RunFits(Start(limit), run, i, FRESH);
    assert (exists e <- run :: FailsFor(e, i)) <==> Looked(i, Throws) in run || Stopped(i, false) in run;
  }

  /** An attempt renews its lease until it begins to settle, and from then on only while its own message is being settled. */
  lemma RenewsUntilItSettles(limit: nat, run: seq<Event>, i: nat)
    requires PossibleRun(Start(limit), run) && i < |Final(Start(limit), run).attempts|
    ensures var a := Final(Start(limit), run).attempts[i];
            && (!a.settling ==> a.renewing)
            && (a.settling && a.renewing ==>
                  a.stage != Done && Cause(Start(limit), run, i).Some? && Cause(Start(limit), run, i).value.Message?)
  {
    StartIsFine(limit);
    RunFits(Start(limit), run, i, FRESH);
  }

  /** Every call for a spawned claim is the wanted one, and none is missing but for a failure to read the row or to terminate the worker. */
  ghost predicate CallsWanted(s: State, run: seq<Event>, attempts: seq<Attempt>, calls: seq<(Token, Call)>)
    requires PossibleRun(s, run)
  {
    && (forall i: nat, c: Call :: i < |attempts| && (attempts[i].token, c) in calls ==> IsWanted(s, run, i, c))
    && (forall i: nat :: i < |attempts| && attempts[i].stage == Done ==>
          ((exists c :: (attempts[i].token, c) in calls) <==> Looked(i, Throws) !in run && Stopped(i, false) !in run))
  }

  /**
   The event that made the attempt settle wants this call, or the job was found cancelled and this is the cancellation; and
   the attempt's worker was terminated exactly if the call needs that.
   */
  ghost predicate IsWanted(s: State, run: seq<Event>, i: nat, c: Call)
    requires PossibleRun(s, run)
  {
    && Cause(s, run, i).Some? && Wanted(Cause(s, run, i).value, Looked(i, Cancelled) in run) == Some(c)
    && (Stopped(i, true) in run <==> NeedsEnd(Cause(s, run, i).value, c))
  }

  lemma AllCallsFollow(limit: nat, run: seq<Event>)
    requires PossibleRun(Start(limit), run)
    ensures CallsWanted(Start(limit), run, Final(Start(limit), run).attempts, Final(Start(limit), run).calls)
  {
    hide PossibleRun, Final, IsWanted;
    forall i: nat, c: Call | i < |Final(Start(limit), run).attempts| && (Final(Start(limit), run).attempts[i].token, c) in Final(Start(limit), run).calls
      ensures IsWanted(Start(limit), run, i, c)
    {
      CallsFollowCauses(limit, run, i, c);
    }
    forall i: nat | i < |Final(Start(limit), run).attempts| && Final(Start(limit), run).attempts[i].stage == Done
      ensures (exists c :: (Final(Start(limit), run).attempts[i].token, c) in Final(Start(limit), run).calls)
              <==> Looked(i, Throws) !in run && Stopped(i, false) !in run
    {
      NoCallIsMissing(limit, run, i);
    }
  }

  /** The cause is an event of the run that found the attempt in the map, not settling, and concerned it. */
  lemma {:induction false} CauseFoundIt(s: State, run: seq<Event>, i: nat) returns (before: State)
    requires Inv(s) && PossibleRun(s, run) && Cause(s, run, i).Some?
    ensures var e := Cause(s, run, i).value;
            e in run && i < |before.attempts| && Holds(before, i) && !before.attempts[i].settling && Addresses(before, e, i)
    decreases |run|
  {
    var e := run[0];
    StepKeeps(s, e);
    if i < |s.attempts| {
      SettlesWhen(s, e, i);
    } else {
      NewFits(s, e, i);
    }
    hide Inv, Possible, Next;
    if !Settles(s, i) && Settles(Next(s, e), i) {
      before := s;
    } else {
      before := CauseFoundIt(Next(s, e), run[1..], i);
    }
  }
}
