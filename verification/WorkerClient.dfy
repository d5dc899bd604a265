/**
 Requests to a child process and its replies, matched without message ids: one reader, or one updater,
 with cancellation, timeouts, crashes, an idle timer and shutdown in any interleaving.
 A promise, and the task it stands for, is named by the number of its `execute` call.
 */
module WorkerClient {
  import opened Options

  datatype Reply = Result(value: int) | Fault(code: int)

  datatype Reason = Busy | Unavailable | RequestAborted | TimedOut | FaultReply(code: int) | Restarting

  datatype Status = Pending | Resolved(value: int) | Rejected(reason: Reason)

  datatype Promise = Promise(status: Status, timedOut: bool, aborted: bool)

  /** A child: the tasks it has not answered, and its answers that have not arrived. */
  datatype Child = Child(alive: bool, inbox: seq<nat>, outbox: seq<(nat, Reply)>)

  /** `answers` remembers what the children answered to which task. */
  datatype State = State(updater: bool, worker: Option<nat>, active: Option<nat>, stopping: Option<nat>, idle: bool,
                         children: seq<Child>, promises: seq<Promise>, answers: set<(nat, Reply)>)

  datatype Event =
    | Execute(aborted: bool, forks: bool, sends: bool)
    | Answer(child: nat, k: nat, reply: Reply)
    | Deliver(child: nat)
    | Fail(child: nat)
    | Exit(child: nat)
    | Stopped
    | Abort(promise: nat)
    | Timeout(promise: nat)
    | IdleTimer
    | Shutdown

  // The stretches of code.

  ghost function StopWorker(s: State): (r: State)
    ensures r == s.(idle := false, worker := None, stopping := r.stopping)
  {
    if s.worker.Some? then s.(idle := false, worker := None, stopping := s.worker) else s.(idle := false)
  }

  function Verdict(p: Promise, outcome: Status): Status {
    if p.timedOut then Rejected(TimedOut) else if p.aborted then Rejected(RequestAborted) else outcome
  }

  /** `finish` of the active promise. */
  ghost function Finish(s: State, outcome: Status): State {
    if s.active.None? || s.active.value >= |s.promises| then s
    else
      var p := s.active.value;
      var s1 := s.(active := None, promises := s.promises[p := s.promises[p].(status := Verdict(s.promises[p], outcome))]);
      if s.updater then StopWorker(s1) else s1.(idle := true)
  }

  ghost function AddPromise(s: State, status: Status): State { s.(promises := s.promises + [Promise(status, false, false)]) }

  ghost function Executed(s: State, aborted: bool, forks: bool, sends: bool): State {
    if aborted then AddPromise(s, Rejected(RequestAborted))
    else if s.active.Some? || s.stopping.Some? then AddPromise(s, Rejected(Busy))
    else if s.worker.None? && !forks then AddPromise(s, Rejected(Unavailable))
    else Sent(Started(if s.worker.None? then Forked(s) else s), sends)
  }

  ghost function Forked(s: State): State { s.(worker := Some(|s.children|), children := s.children + [Child(true, [], [])]) }

  ghost function Started(s: State): State { AddPromise(s, Pending).(idle := false, active := Some(|s.promises|)) }

  ghost function Sent(s: State, sends: bool): State {
    if s.worker.None? || s.worker.value >= |s.children| || s.active.None? then s
    else if sends then
      var c := s.worker.value;
      s.(children := s.children[c := s.children[c].(inbox := s.children[c].inbox + [s.active.value])])
    else StopWorker(Finish(s, Rejected(Unavailable)))
  }

  function Outcome(r: Reply): Status { if r.Result? then Resolved(r.value) else Rejected(FaultReply(r.code)) }

  /** A child's answer arrives; only the current worker is listened to. */
  ghost function Delivered(s: State, c: nat): State
    requires c < |s.children| && s.children[c].outbox != []
  {
    var (_, reply) := s.children[c].outbox[0];
    var s1 := s.(children := s.children[c := s.children[c].(outbox := s.children[c].outbox[1..])]);
    if s.worker == Some(c) then Finish(s1, Outcome(reply)) else s1
  }

  ghost function Failed(s: State, c: nat): State {
    if s.worker != Some(c) then s else StopWorker(Finish(s, Rejected(Unavailable)))
  }

  ghost function Gone(s: State, c: nat): State
    requires c < |s.children|
  {
    s.(children := s.children[c := s.children[c].(alive := false, inbox := [])])
  }

  /** Cancelling or timing out: the updater's child is only asked to cancel, the reader's is given up. */
  ghost function GivenUp(s: State, p: nat, why: Reason): State {
    if s.active != Some(p) || p >= |s.promises| || s.updater then s else StopWorker(Finish(s, Rejected(why)))
  }

  ghost function Marked(s: State, p: nat, timedOut: bool): State
    requires p < |s.promises|
  {
    s.(promises := s.promises[p := if timedOut then s.promises[p].(timedOut := true) else s.promises[p].(aborted := true)])
  }

  /** `shutdownCultivationWorker`; an updater still at work is only told to cancel, and stopped once it is done. */
  ghost function Stopping(s: State): State {
    if s.updater && s.active.Some? then s else StopWorker(Finish(s, Rejected(Restarting)))
  }

  ghost predicate Possible(s: State, e: Event) {
    match e
    case Answer(c, k, _) => c < |s.children| && s.children[c].alive && k < |s.children[c].inbox|
    case Deliver(c) => c < |s.children| && s.children[c].outbox != []
    case Exit(c) => c < |s.children|
    case Stopped => s.stopping.Some? && s.stopping.value < |s.children| && !s.children[s.stopping.value].alive
    case Abort(p) => p < |s.promises|
    case Timeout(p) => s.active == Some(p) && p < |s.promises|
    case IdleTimer => s.idle
    case _ => true
  }

  ghost function After(s: State, e: Event): State
    requires Possible(s, e)
  {
    match e
    case Execute(aborted, forks, sends) => Executed(s, aborted, forks, sends)
    case Answer(c, k, reply) =>
      var child := s.children[c];
      var task := child.inbox[k];
      s.(children := s.children[c := child.(inbox := child.inbox[..k] + child.inbox[k + 1..], outbox := child.outbox + [(task, reply)])],
         answers := s.answers + {(task, reply)})
    case Deliver(c) => Delivered(s, c)
    case Fail(c) => Failed(s, c)
    case Exit(c) => Failed(Gone(s, c), c)
    case Stopped => s.(stopping := None)
    case Abort(p) => if s.active == Some(p) then GivenUp(Marked(s, p, false), p, RequestAborted) else s
    case Timeout(p) => GivenUp(Marked(s, p, true), p, TimedOut)
    case IdleTimer => StopWorker(s)
    case Shutdown => Stopping(s)
  }

  // What every step keeps.

  /** The tasks a child still owes an answer for, or whose answer is under way. */
  function Owed(c: Child): seq<nat> { c.inbox + Tasks(c.outbox) }

  function Tasks(replies: seq<(nat, Reply)>): (r: seq<nat>)
    ensures |r| == |replies| && forall i :: 0 <= i < |r| ==> r[i] == replies[i].0
  {
    seq(|replies|, i requires 0 <= i < |replies| => replies[i].0)
  }

  ghost predicate ChildOk(c: Child, answers: set<(nat, Reply)>, promises: nat) {
    && |Owed(c)| <= 1
    && (forall r <- c.outbox :: r in answers)
    && (forall t <- Owed(c) :: t < promises)
  }

  ghost predicate ChildrenOk(s: State) {
    forall i :: 0 <= i < |s.children| ==> ChildOk(s.children[i], s.answers, |s.promises|)
  }

  /** The current worker owes an answer for nothing but the active task. */
  ghost predicate WorkerOk(s: State) {
    && (s.worker.Some? ==> s.stopping.None? && s.worker.value < |s.children|)
    && (s.active.Some? ==> s.worker.Some? && s.active.value < |s.promises| && !s.idle)
    && (s.stopping.Some? ==> s.stopping.value < |s.children|)
    && (s.worker.Some? ==> Owed(s.children[s.worker.value]) == [] || (s.active.Some? && Owed(s.children[s.worker.value]) == [s.active.value]))
  }

  /** A promise is pending while it is the active one, and resolves only to its own task's answer. */
  ghost predicate PromiseOk(p: nat, q: Promise, active: Option<nat>, answers: set<(nat, Reply)>) {
    && (q.status == Pending <==> active == Some(p))
    && (q.status.Resolved? ==> (p, Result(q.status.value)) in answers)
  }

  ghost predicate PromisesOk(s: State) {
    forall p :: 0 <= p < |s.promises| ==> PromiseOk(p, s.promises[p], s.active, s.answers)
  }

  ghost predicate Inv(s: State) { ChildrenOk(s) && WorkerOk(s) && PromisesOk(s) }

  /** Settling the active promise and stopping its worker. */
  lemma GiveUpKeeps(s: State, outcome: Status)
    requires Inv(s) && outcome.Rejected?
    ensures Inv(StopWorker(Finish(s, outcome)))
  {
    hide ChildOk, Owed;
  }

  lemma RejectedKeeps(s: State, reason: Reason)
    requires Inv(s)
    ensures Inv(AddPromise(s, Rejected(reason)))
  {
    hide Owed;
  }

  lemma ForkedKeeps(s: State)
    requires Inv(s) && s.worker.None? && s.active.None? && s.stopping.None?
    ensures Inv(Forked(s)) && Forked(s).worker.Some?
  {
  }

  lemma StartedKeeps(s: State)
    requires Inv(s) && s.worker.Some? && s.active.None?
    ensures Inv(Started(s)) && Owed(s.children[s.worker.value]) == []
  {
    hide PromiseOk;
    forall p | 0 <= p < |s.promises| ensures PromiseOk(p, s.promises[p], Some(|s.promises|), s.answers) {
      StillSettled(s, p);
    }
    NewPending(|s.promises|, s.answers);
  }

  lemma StillSettled(s: State, p: nat)
    requires p < |s.promises| && s.active.None? && PromisesOk(s)
    ensures PromiseOk(p, s.promises[p], Some(|s.promises|), s.answers)
  {
  }

  lemma NewPending(p: nat, answers: set<(nat, Reply)>)
    ensures PromiseOk(p, Promise(Pending, false, false), Some(p), answers)
  {
  }

  lemma SentKeeps(s: State, sends: bool)
    requires Inv(s) && s.worker.Some? && s.active.Some? && Owed(s.children[s.worker.value]) == []
    ensures Inv(Sent(s, sends))
  {
    hide PromiseOk;
    if sends {
      var c := s.children[s.worker.value];
      assert Owed(c.(inbox := c.inbox + [s.active.value])) == [s.active.value];
    } else {
      GiveUpKeeps(s, Rejected(Unavailable));
    }
  }

  lemma ExecutedKeeps(s: State, aborted: bool, forks: bool, sends: bool)
    requires Inv(s)
    ensures Inv(Executed(s, aborted, forks, sends))
  {
    hide Inv, Sent, Started, Forked, Owed, ChildOk, PromiseOk;
    if aborted {
      RejectedKeeps(s, RequestAborted);
    } else if s.active.Some? || s.stopping.Some? {
      RejectedKeeps(s, Busy);
    } else if s.worker.None? && !forks {
      RejectedKeeps(s, Unavailable);
    } else {
      if s.worker.None? { ForkedKeeps(s); }
      var s1 := if s.worker.None? then Forked(s) else s;
      assert s1.worker.Some? && s1.active.None? && s1.worker.value < |s1.children| by { InvWorker(s1); ForkedActive(s); }
      StartedKeeps(s1);
      StartedWorker(s1);
      SentKeeps(Started(s1), sends);
    }
  }

  lemma InvWorker(s: State)
    requires Inv(s)
    ensures s.worker.Some? ==> s.worker.value < |s.children|
  {
  }

  lemma ForkedActive(s: State)
    ensures Forked(s).active == s.active
  {
  }

  lemma StartedWorker(s: State)
    ensures Started(s).worker == s.worker && Started(s).children == s.children && Started(s).active.Some?
  {
  }

  lemma AnswerKeeps(s: State, c: nat, k: nat, reply: Reply)
    requires Inv(s) && Possible(s, Answer(c, k, reply))
    ensures Inv(After(s, Answer(c, k, reply)))
  {
    var child := s.children[c];
    var task := child.inbox[k];
    assert Owed(child)[k] == task && |Owed(child)| == 1;
    assert child.inbox == [task] && child.outbox == [];
    var child' := child.(inbox := [], outbox := [(task, reply)]);
    assert child.inbox[..k] + child.inbox[k + 1..] == [];
    assert Owed(child') == [task] && task in Owed(child);
    var s' := After(s, Answer(c, k, reply));
    assert s'.children[c] == child';
    hide Owed;
  }

  lemma DeliveredKeeps(s: State, c: nat)
    requires Inv(s) && c < |s.children| && s.children[c].outbox != []
    ensures Inv(Delivered(s, c))
  {
    var child := s.children[c];
    var (task, reply) := child.outbox[0];
    assert Owed(child)[|child.inbox|] == task;
    assert child.inbox == [] && child.outbox == [(task, reply)];
    var child' := child.(outbox := child.outbox[1..]);
    assert Owed(child') == [];
    assert (task, reply) in s.answers;
    assert task in Owed(child);
    hide Owed;
  }

  lemma GoneKeeps(s: State, c: nat)
    requires Inv(s) && c < |s.children|
    ensures Inv(Gone(s, c))
  {
    hide PromiseOk;
    var child := s.children[c];
    assert Owed(child.(alive := false, inbox := [])) == Tasks(child.outbox);
    assert forall t <- Tasks(child.outbox) :: t in Owed(child);
  }

  lemma MarkedKeeps(s: State, p: nat, timedOut: bool)
    requires Inv(s) && p < |s.promises|
    ensures Inv(Marked(s, p, timedOut))
  {
    hide Owed;
  }

  lemma StepKeeps(s: State, e: Event)
    requires Inv(s) && Possible(s, e)
    ensures Inv(After(s, e))
  {
    hide Owed, ChildOk, PromiseOk, Executed, Delivered, Finish;
    match e
    case Execute(aborted, forks, sends) => ExecutedKeeps(s, aborted, forks, sends);
    case Answer(c, k, reply) => AnswerKeeps(s, c, k, reply);
    case Deliver(c) => DeliveredKeeps(s, c);
    case Fail(c) => GiveUpKeeps(s, Rejected(Unavailable));
    case Exit(c) => GoneKeeps(s, c); GiveUpKeeps(Gone(s, c), Rejected(Unavailable));
    case Stopped =>
    case Abort(p) =>
      if s.active == Some(p) { MarkedKeeps(s, p, false); GiveUpKeeps(Marked(s, p, false), Rejected(RequestAborted)); }
    case Timeout(p) => MarkedKeeps(s, p, true); GiveUpKeeps(Marked(s, p, true), Rejected(TimedOut));
    case IdleTimer =>
    case Shutdown => GiveUpKeeps(s, Rejected(Restarting));
  }

  // Runs.

  ghost function Start(updater: bool): State { State(updater, None, None, None, false, [], [], {}) }

  ghost predicate PossibleRun(s: State, run: seq<Event>)
    decreases |run|
  {
    run == [] || (Possible(s, run[0]) && PossibleRun(After(s, run[0]), run[1..]))
  }

  ghost function Final(s: State, run: seq<Event>): State
    requires PossibleRun(s, run)
    decreases |run|
  {
    if run == [] then s else Final(After(s, run[0]), run[1..])
  }

  lemma {:induction false} RunKeeps(s: State, run: seq<Event>)
    requires Inv(s) && PossibleRun(s, run)
    ensures Inv(Final(s, run))
    decreases |run|
  {
    hide Inv, Possible, After;
    if run != [] {
      StepKeeps(s, run[0]);
      RunKeeps(After(s, run[0]), run[1..]);
    }
  }

  /** In every run a promise that resolves carries an answer some child gave to that very task. */
  lemma ResolvesToItsOwnReply(updater: bool, run: seq<Event>, p: nat)
    requires PossibleRun(Start(updater), run) && p < |Final(Start(updater), run).promises|
    ensures var s := Final(Start(updater), run);
            s.promises[p].status.Resolved? ==> (p, Result(s.promises[p].status.value)) in s.answers
  {
    RunKeeps(Start(updater), run);
  }

  /** At any time no child owes more than one answer, and the one that is listened to owes none but the active task's. */
  lemma OneOutstandingTask(updater: bool, run: seq<Event>, c: nat)
    requires PossibleRun(Start(updater), run) && c < |Final(Start(updater), run).children|
    ensures var s := Final(Start(updater), run);
            && |Owed(s.children[c])| <= 1
            && (s.worker == Some(c) ==> Owed(s.children[c]) == [] || (s.active.Some? && Owed(s.children[c]) == [s.active.value]))
            && (s.active.Some? <==> exists p :: 0 <= p < |s.promises| && s.promises[p].status == Pending)
  {
    RunKeeps(Start(updater), run);
    var s := Final(Start(updater), run);
    hide Owed;
    assert ChildOk(s.children[c], s.answers, |s.promises|);
    if s.active.Some? {
      assert PromiseOk(s.active.value, s.promises[s.active.value], s.active, s.answers);
    }
  }

  /** A settled promise keeps its value: it settles at most once. */
  lemma {:induction false} SettlesOnce(s: State, run: seq<Event>, p: nat)
    requires Inv(s) && PossibleRun(s, run) && p < |s.promises| && s.promises[p].status != Pending
    ensures p < |Final(s, run).promises| && Final(s, run).promises[p].status == s.promises[p].status
    decreases |run|
  {
    hide Inv, Possible, After;
    if run != [] {
      StepKeeps(s, run[0]);
      SettledByStep(s, run[0], p);
      SettlesOnce(After(s, run[0]), run[1..], p);
    }
  }

  lemma ExecuteAddsOne(s: State, aborted: bool, forks: bool, sends: bool, p: nat)
    requires p < |s.promises|
    ensures var s' := Executed(s, aborted, forks, sends);
            p < |s'.promises| && s'.promises[p] == s.promises[p]
  {
    hide StopWorker, Verdict;
  }

  lemma SettledByStep(s: State, e: Event, p: nat)
    requires Inv(s) && Possible(s, e) && p < |s.promises| && s.promises[p].status != Pending
    ensures p < |After(s, e).promises| && After(s, e).promises[p].status == s.promises[p].status
  {
    assert s.active != Some(p) by { assert PromiseOk(p, s.promises[p], s.active, s.answers); }
    hide Inv, StopWorker, Verdict, Executed;
    if e.Execute? {
      ExecuteAddsOne(s, e.aborted, e.forks, e.sends, p);
    }
  }

  /** An answer that arrives late, from any child but the current one, settles nothing. */
  lemma LateRepliesAreIgnored(s: State, c: nat)
    requires Inv(s) && Possible(s, Deliver(c)) && s.worker != Some(c)
    ensures After(s, Deliver(c)).promises == s.promises && After(s, Deliver(c)).active == s.active
  {
  }

  /** What settles a pending promise: its answer's arrival or its child's failure; and for the reader also a cancellation, a timeout or a shutdown. */
  lemma WhatSettles(s: State, e: Event, p: nat)
    requires Inv(s) && Possible(s, e) && p < |s.promises| && s.promises[p].status == Pending
    ensures p < |After(s, e).promises|
    ensures After(s, e).promises[p].status != Pending <==>
            (e.Deliver? && s.worker == Some(e.child)) || (e.Fail? && s.worker == Some(e.child)) || (e.Exit? && s.worker == Some(e.child))
            || (!s.updater && (e == Abort(p) || e == Timeout(p) || e == Shutdown))
  {
    assert s.active == Some(p) by { assert PromiseOk(p, s.promises[p], s.active, s.answers); }
    hide Inv, StopWorker, Executed;
    if e.Execute? {
      ExecuteAddsOne(s, e.aborted, e.forks, e.sends, p);
    }
  }

  /** A promise that timed out or was cancelled before it settled never resolves. */
  lemma GivenUpNeverResolves(s: State, e: Event, p: nat)
    requires Inv(s) && Possible(s, e) && p < |s.promises| && s.promises[p].status == Pending && (s.promises[p].timedOut || s.promises[p].aborted)
    ensures p < |After(s, e).promises| && !After(s, e).promises[p].status.Resolved?
    ensures After(s, e).promises[p].status == Pending ==> After(s, e).promises[p].timedOut || After(s, e).promises[p].aborted
  {
    assert s.active == Some(p) by { assert PromiseOk(p, s.promises[p], s.active, s.answers); }
    hide Inv, StopWorker, Executed;
    if e.Execute? {
      ExecuteAddsOne(s, e.aborted, e.forks, e.sends, p);
    }
  }

  // How promises settle.

  /** What a pending promise comes to when its answer arrives, if it was neither timed out nor cancelled before. */
  ghost predicate Answered(reply: Reply, status: Status) {
    match reply
    case Result(v) => status == Resolved(v)
    case Fault(code) => status == Rejected(FaultReply(code))
  }

  /** What the event makes of the active promise, which was timed out or cancelled before or not. */
  ghost predicate Caused(s: State, e: Event, timedOut: bool, aborted: bool, status: Status) {
    if timedOut || e.Timeout? then status == Rejected(TimedOut)
    else if aborted || e.Abort? then status == Rejected(RequestAborted)
    else
      match e
      case Deliver(c) => c < |s.children| && s.children[c].outbox != [] && Answered(s.children[c].outbox[0].1, status)
      case Shutdown => status == Rejected(Restarting)
      case _ => status == Rejected(Unavailable)
  }

  /** The event settles the active promise. */
  ghost predicate Settling(s: State, e: Event, p: nat) {
    || (e.Deliver? && s.worker == Some(e.child)) || (e.Fail? && s.worker == Some(e.child)) || (e.Exit? && s.worker == Some(e.child))
    || (!s.updater && (e == Abort(p) || e == Timeout(p) || e == Shutdown))
  }

  /**
   How a pending promise settles: to the value or the fault its own child answered, unless it timed out or was cancelled
   before; as unavailable when the child fails or exits; as restarting at a shutdown of the reader.
   */
  lemma HowItSettles(s: State, e: Event, p: nat)
    requires Inv(s) && Possible(s, e) && p < |s.promises| && s.promises[p].status == Pending
    ensures p < |After(s, e).promises|
    ensures if Settling(s, e, p) then Caused(s, e, s.promises[p].timedOut, s.promises[p].aborted, After(s, e).promises[p].status) else After(s, e).promises[p].status == Pending
  {
    assert s.active == Some(p) by { assert PromiseOk(p, s.promises[p], s.active, s.answers); }
    hide Inv, StopWorker, Executed, Finish;
    match e
    case Execute(aborted, forks, sends) => ExecuteAddsOne(s, aborted, forks, sends, p);
    case Deliver(c) => DeliveredSettles(s, c, p);
    case Exit(c) => FinishSettles(Gone(s, c), Rejected(Unavailable), p);
    case Abort(q) => if q == p { FinishSettles(Marked(s, p, false), Rejected(RequestAborted), p); }
    case Timeout(q) => FinishSettles(Marked(s, p, true), Rejected(TimedOut), p);
    case Shutdown => FinishSettles(s, Rejected(Restarting), p);
    case _ => FinishSettles(s, Rejected(Unavailable), p);
  }

  lemma FinishSettles(s: State, outcome: Status, p: nat)
    requires s.active == Some(p) && p < |s.promises|
    ensures var q := s.promises[p];
            p < |Finish(s, outcome).promises|
            && Finish(s, outcome).promises[p].status == if q.timedOut then Rejected(TimedOut) else if q.aborted then Rejected(RequestAborted) else outcome
  {
    hide StopWorker;
  }

  lemma DeliveredSettles(s: State, c: nat, p: nat)
    requires c < |s.children| && s.children[c].outbox != [] && s.active == Some(p) && p < |s.promises|
    ensures var s', q := Delivered(s, c), s.promises[p];
            && p < |s'.promises|
            && if s.worker != Some(c) then s'.promises[p] == q
               else if q.timedOut then s'.promises[p].status == Rejected(TimedOut)
               else if q.aborted then s'.promises[p].status == Rejected(RequestAborted)
               else Answered(s.children[c].outbox[0].1, s'.promises[p].status)
  {
    hide Finish;
    var reply := s.children[c].outbox[0].1;
    FinishSettles(s.(children := s.children[c := s.children[c].(outbox := s.children[c].outbox[1..])]), Outcome(reply), p);
  }

  /** The answer that arrives from the current child is the one to the active task. */
  lemma AnswersTheActiveTask(s: State, c: nat)
    requires Inv(s) && Possible(s, Deliver(c)) && s.worker == Some(c)
    ensures s.active == Some(s.children[c].outbox[0].0)
  {
    assert Owed(s.children[c])[|s.children[c].inbox|] == s.children[c].outbox[0].0;
  }

  /** How a request begins: refused when cancelled, busy, or without a child or a channel to it; otherwise pending. */
  ghost predicate Begun(s: State, e: Event, status: Status) {
    && e.Execute?
    && status == if e.aborted then Rejected(RequestAborted)
                 else if s.active.Some? || s.stopping.Some? then Rejected(Busy)
                 else if (s.worker.None? && !e.forks) || !e.sends then Rejected(Unavailable)
                 else Pending
  }

  lemma ExecutedBegins(s: State, aborted: bool, forks: bool, sends: bool)
    requires WorkerOk(s)
    ensures var s' := Executed(s, aborted, forks, sends);
            |s'.promises| == |s.promises| + 1 && Begun(s, Execute(aborted, forks, sends), s'.promises[|s.promises|].status)
  {
    hide Owed, StopWorker;
  }

  lemma OthersAddNone(s: State, e: Event)
    requires Possible(s, e) && !e.Execute?
    ensures |After(s, e).promises| == |s.promises|
  {
    hide StopWorker;
  }

  lemma HowItBegins(s: State, e: Event)
    requires Inv(s) && Possible(s, e)
    ensures |After(s, e).promises| == |s.promises| + if e.Execute? then 1 else 0
    ensures e.Execute? ==> Begun(s, e, After(s, e).promises[|s.promises|].status)
  {
    hide ChildrenOk, PromisesOk, WorkerOk, Executed, Begun;
    if e.Execute? {
      ExecutedBegins(s, e.aborted, e.forks, e.sends);
    } else {
      OthersAddNone(s, e);
    }
  }

  /** A request that is pending has just been sent to the current child, which owes nothing else; a child forked for it is alive. */
  lemma RequestsAreSent(s: State, aborted: bool, forks: bool, sends: bool)
    requires Inv(s)
    ensures var s', p := After(s, Execute(aborted, forks, sends)), |s.promises|;
            p < |s'.promises| && s'.promises[p].status == Pending ==>
              && s'.active == Some(p) && s'.worker.Some? && s'.worker.value < |s'.children|
              && s'.children[s'.worker.value].inbox == [p] && s'.children[s'.worker.value].outbox == []
              && if s.worker.None? then s'.children[s'.worker.value].alive else s'.worker == s.worker
  {
    hide StopWorker;
  }

  lemma PendingBefore(s: State, e: Event, p: nat)
    requires Inv(s) && Possible(s, e) && p < |s.promises| && p < |After(s, e).promises| && After(s, e).promises[p].status == Pending
    ensures s.promises[p].status == Pending
  {
    if s.promises[p].status != Pending {
      SettledByStep(s, e, p);
    }
  }

  lemma MarkedWhilePending(s: State, e: Event, p: nat)
    requires Inv(s) && Possible(s, e) && p < |s.promises| && s.promises[p].status == Pending
    requires p < |After(s, e).promises| && After(s, e).promises[p].status == Pending
    ensures After(s, e).promises[p].timedOut <==> s.promises[p].timedOut || e == Timeout(p)
    ensures After(s, e).promises[p].aborted <==> s.promises[p].aborted || e == Abort(p)
  {
    assert s.active == Some(p) by { assert PromiseOk(p, s.promises[p], s.active, s.answers); }
    hide Inv, StopWorker, Executed;
    if e.Execute? {
      ExecuteAddsOne(s, e.aborted, e.forks, e.sends, p);
    }
  }

  lemma NewIsUnmarked(s: State, aborted: bool, forks: bool, sends: bool)
    ensures var s' := Executed(s, aborted, forks, sends);
            |s.promises| < |s'.promises| ==> !s'.promises[|s.promises|].timedOut && !s'.promises[|s.promises|].aborted
  {
    hide StopWorker;
  }

  /** A pending promise is marked by its own timeout and cancellation, and by nothing else. */
  lemma MarkedByStep(s: State, e: Event, p: nat)
    requires Inv(s) && Possible(s, e) && p < |After(s, e).promises| && After(s, e).promises[p].status == Pending
    ensures p <= |s.promises|
    ensures p < |s.promises| ==>
              && s.promises[p].status == Pending
              && (After(s, e).promises[p].timedOut <==> s.promises[p].timedOut || e == Timeout(p))
              && (After(s, e).promises[p].aborted <==> s.promises[p].aborted || e == Abort(p))
    ensures p == |s.promises| ==> !After(s, e).promises[p].timedOut && !After(s, e).promises[p].aborted && e.Execute?
  {
    HowItBegins(s, e);
    if p < |s.promises| {
      PendingBefore(s, e, p);
      MarkedWhilePending(s, e, p);
    } else {
      NewIsUnmarked(s, e.aborted, e.forks, e.sends);
    }
  }

  /** No promise is marked before it was made. */
  lemma {:induction false} NotBefore(s: State, run: seq<Event>, p: nat)
    requires Inv(s) && PossibleRun(s, run) && p >= |Final(s, run).promises|
    ensures p >= |s.promises| && Timeout(p) !in run && Abort(p) !in run
    decreases |run|
  {
    if run != [] {
      StepKeeps(s, run[0]);
      HowItBegins(s, run[0]);
      hide Inv, After;
      NotBefore(After(s, run[0]), run[1..], p);
    }
  }

  /** In every run a pending promise is marked as timed out or cancelled exactly if that happened to it. */
  lemma {:induction false} MarksFromEvents(updater: bool, run: seq<Event>, p: nat)
    requires PossibleRun(Start(updater), run)
    ensures var s := Final(Start(updater), run);
            p < |s.promises| && s.promises[p].status == Pending ==>
              (s.promises[p].timedOut <==> Timeout(p) in run) && (s.promises[p].aborted <==> Abort(p) in run)
    decreases |run|
  {
    if run != [] {
      var n := |run| - 1;
      RunSplits(Start(updater), run, n);
      RunKeeps(Start(updater), run[..n]);
      assert run[..n + 1] == run && run == run[..n] + [run[n]];
      var before := Final(Start(updater), run[..n]);
      hide Inv, Possible, After;
      MarksFromEvents(updater, run[..n], p);
      var s := Final(Start(updater), run);
      if p < |s.promises| && s.promises[p].status == Pending {
        MarkedByStep(before, run[n], p);
        if p == |before.promises| {
          NotBefore(Start(updater), run[..n], p);
        }
      }
    }
  }

  /** At step k of the run the promise settled with this status, for the reason the step gives. */
  ghost predicate SettledAt(s: State, run: seq<Event>, k: nat, p: nat, status: Status)
    requires PossibleRun(s, run)
  {
    k < |run| && PossibleRun(s, run[..k]) &&
    var before := Final(s, run[..k]);
    if p < |before.promises|
    then before.promises[p].status == Pending && Settling(before, run[k], p)
         && Caused(before, run[k], Timeout(p) in run[..k], Abort(p) in run[..k], status)
    else p == |before.promises| && Begun(before, run[k], status)
  }

  lemma {:induction false} RunSplits(s: State, run: seq<Event>, k: nat)
    requires PossibleRun(s, run) && k < |run|
    ensures PossibleRun(s, run[..k]) && Possible(Final(s, run[..k]), run[k])
    ensures PossibleRun(s, run[..k + 1]) && Final(s, run[..k + 1]) == After(Final(s, run[..k]), run[k])
    decreases k
  {
    hide Possible, After;
    if k == 0 {
      assert run[..1][1..] == [] && run[..1][0] == run[0];
      assert PossibleRun(After(s, run[0]), run[..1][1..]);
    } else {
      RunSplits(After(s, run[0]), run[1..], k - 1);
      assert run[..k][1..] == run[1..][..k - 1] && run[..k + 1][1..] == run[1..][..k];
    }
  }

  /** In every run each settled promise settled at one step, for that step's reason. */
  lemma {:induction false} EveryPromiseSettlesAsCaused(updater: bool, run: seq<Event>, n: nat, p: nat)
    requires PossibleRun(Start(updater), run) && n <= |run|
    ensures PossibleRun(Start(updater), run[..n])
    ensures var s := Final(Start(updater), run[..n]);
            p < |s.promises| && s.promises[p].status != Pending ==> exists k :: SettledAt(Start(updater), run, k, p, s.promises[p].status)
    decreases n
  {
    hide Possible, After, Begun, Caused, Settling;
    if n > 0 {
      EveryPromiseSettlesAsCaused(updater, run, n - 1, p);
      RunSplits(Start(updater), run, n - 1);
      RunKeeps(Start(updater), run[..n - 1]);
      var before := Final(Start(updater), run[..n - 1]);
      HowItBegins(before, run[n - 1]);
      var s := After(before, run[n - 1]);
      if p < |s.promises| && s.promises[p].status != Pending {
        if p < |before.promises| {
          if before.promises[p].status == Pending {
            HowItSettles(before, run[n - 1], p);
            MarksFromEvents(updater, run[..n - 1], p);
            assert SettledAt(Start(updater), run, n - 1, p, s.promises[p].status);
          } else {
            SettledByStep(before, run[n - 1], p);
          }
        } else {
          assert SettledAt(Start(updater), run, n - 1, p, s.promises[p].status);
        }
      }
    }
  }

  // The module's state and its handlers.

  class Worker {
    const updater: bool
    var worker: Option<nat>
    var active: Option<nat>
    var stopping: Option<nat>
    var idle: bool
    var children: seq<Child>
    var promises: seq<Promise>
    ghost var answers: set<(nat, Reply)>

    constructor (updater: bool)
      ensures View() == Start(updater)
    {
      this.updater := updater;
      worker, active, stopping, idle, children, promises, answers := None, None, None, false, [], [], {};
    }

    ghost function View(): State
      reads this
    {
      State(updater, worker, active, stopping, idle, children, promises, answers)
    }

    method Stop()
      modifies this`idle, this`worker, this`stopping
      ensures View() == StopWorker(old(View()))
    {
      idle := false;
      var current := worker;
      worker := None;
      if current.Some? {
        stopping := current;
      }
    }

    method Settle(outcome: Status)
      modifies this
      ensures View() == Finish(old(View()), outcome)
    {
      if active.None? || active.value >= |promises| {
        return;
      }
      var p := active.value;
      active := None;
      promises := promises[p := promises[p].(status := Verdict(promises[p], outcome))];
      if updater {
        Stop();
      } else {
        idle := true;
      }
    }

    method GetWorker(forks: bool) returns (ok: bool)
      modifies this`worker, this`children
      ensures ok <==> old(worker).Some? || forks
      ensures View() == if old(worker).None? && forks then Forked(old(View())) else old(View())
    {
      if worker.Some? {
        return true;
      }
      if !forks {
        return false;
      }
      worker := Some(|children|);
      children := children + [Child(true, [], [])];
      return true;
    }

    /** `execute`; the promise is the last one afterwards. */
    method ExecuteTask(aborted: bool, forks: bool, sends: bool) returns (promise: nat)
      requires Inv(View())
      modifies this
      ensures View() == Executed(old(View()), aborted, forks, sends) && promise == |old(promises)| == |promises| - 1
    {
      hide ChildrenOk, PromisesOk, Owed;
      promise := |promises|;
      if aborted {
        promises := promises + [Promise(Rejected(RequestAborted), false, false)];
        return;
      }
      if active.Some? || stopping.Some? {
        promises := promises + [Promise(Rejected(Busy), false, false)];
        return;
      }
      var ok := GetWorker(forks);
      if !ok {
        promises := promises + [Promise(Rejected(Unavailable), false, false)];
        return;
      }
      promises := promises + [Promise(Pending, false, false)];
      idle, active := false, Some(promise);
      if sends {
        var c := worker.value;
        children := children[c := children[c].(inbox := children[c].inbox + [promise])];
      } else {
        Settle(Rejected(Unavailable));
        Stop();
      }
    }

    /** A message from child c. */
    method OnMessage(c: nat)
      requires c < |children| && children[c].outbox != []
      modifies this
      ensures View() == Delivered(old(View()), c)
    {
      var reply := children[c].outbox[0].1;
      children := children[c := children[c].(outbox := children[c].outbox[1..])];
      if worker == Some(c) {
        Settle(Outcome(reply));
      }
    }

    /** An error or exit event of child c. */
    method OnFailed(c: nat)
      modifies this
      ensures View() == Failed(old(View()), c)
    {
      if worker != Some(c) {
        return;
      }
      Settle(Rejected(Unavailable));
      Stop();
    }

    /** The abort listener or the timer of the active promise. */
    method GiveUp(p: nat, timedOut: bool)
      requires active == Some(p) && p < |promises|
      modifies this
      ensures View() == GivenUp(Marked(old(View()), p, timedOut), p, if timedOut then TimedOut else RequestAborted)
    {
      promises := promises[p := if timedOut then promises[p].(timedOut := true) else promises[p].(aborted := true)];
      if !updater {
        Settle(Rejected(if timedOut then TimedOut else RequestAborted));
        Stop();
      }
    }

    method ShutDown()
      modifies this
      ensures View() == Stopping(old(View()))
    {
      if updater && active.Some? {
        return;
      }
      Settle(Rejected(Restarting));
      Stop();
    }

    /** One event, by the handler it belongs to; what the children do on their own is done here. */
    method Handle(e: Event)
      requires Inv(View()) && Possible(View(), e)
      modifies this
      ensures Inv(View()) && View() == After(old(View()), e)
    {
      StepKeeps(View(), e);
      assert active.Some? ==> active.value < |promises|;
      hide ChildrenOk, PromisesOk, WorkerOk, Executed, Delivered, Failed, GivenUp, StopWorker, Stopping;
      match e {
        case Execute(aborted, forks, sends) => var _ := ExecuteTask(aborted, forks, sends);
        case Answer(c, k, reply) =>
          var child := children[c];
          var task := child.inbox[k];
          children := children[c := child.(inbox := child.inbox[..k] + child.inbox[k + 1..], outbox := child.outbox + [(task, reply)])];
          answers := answers + {(task, reply)};
        case Deliver(c) => OnMessage(c);
        case Fail(c) => OnFailed(c);
        case Exit(c) =>
          children := children[c := children[c].(alive := false, inbox := [])];
          OnFailed(c);
        case Stopped => stopping := None;
        case Abort(p) => if active == Some(p) { GiveUp(p, false); }
        case Timeout(p) => GiveUp(p, true);
        case IdleTimer => Stop();
        case Shutdown => ShutDown();
      }
    }

    /**
     Any sequence of events, from a client without a child on: a promise that resolves carries its own task's answer,
     at most the active one is pending, and no child owes two answers.
     */
    method Run(events: seq<Event>)
      requires View() == Start(updater) && PossibleRun(View(), events)
      modifies this
      ensures View() == Final(Start(updater), events)
      ensures forall p :: 0 <= p < |promises| ==>
                (promises[p].status == Pending <==> active == Some(p))
                && (promises[p].status.Resolved? ==> (p, Result(promises[p].status.value)) in answers)
      ensures forall p :: 0 <= p < |promises| && promises[p].status != Pending ==>
                exists k :: SettledAt(Start(updater), events, k, p, promises[p].status)
      ensures forall c <- children :: |Owed(c)| <= 1
    {
      ghost var s := View();
      assert events[0..] == events;
      for k := 0 to |events|
        invariant Inv(View()) && PossibleRun(View(), events[k..]) && Final(View(), events[k..]) == Final(s, events)
      {
        hide Inv, Possible, After;
        assert events[k..][0] == events[k] && events[k..][1..] == events[k + 1..];
        Handle(events[k]);
      }
      assert events[|events|..] == [] && events[..|events|] == events;
      forall p | 0 <= p < |promises| && promises[p].status != Pending
        ensures exists k :: SettledAt(Start(updater), events, k, p, promises[p].status)
      {
        EveryPromiseSettlesAsCaused(updater, events, |events|, p);
      }
      hide Owed, WorkerOk;
      assert forall p :: 0 <= p < |promises| ==> PromiseOk(p, promises[p], active, answers);
      forall c <- children ensures |Owed(c)| <= 1 {
        assert ChildOk(c, answers, |promises|);
      }
    }
  }
}
