/** The worker autoscaler: starts the worker machine on a long queue and stops it after a long lull, over any sequence of ticks. */
module Autoscaler {
  import opened Options

  datatype Status = Running | Stopped | Starting | Stopping | Unknown

  datatype Power = StartUp | ShutDown

  /** One tick's inputs: a queue or status that cannot be read, or what was read, the clock's two readings, and whether a power call throws. */
  datatype Tick = Unreadable | Tick(queued: nat, running: nat, status: Status, now1: int, now2: int, powerFails: bool)

  datatype Action = Started | StoppedIt | Waiting | Noop | Threw

  datatype Config = Config(up: int, down: int, idleMs: int)

  /** The two closure variables. */
  datatype Memory = Memory(lowQueueSince: Option<int>, powerOperation: Option<Power>)

  // What the source promises, told from the ticks alone.

  predicate Seen(t: Tick) { t.Tick? }

  predicate High(c: Config, t: Tick) { t.Tick? && t.queued > c.up }

  /** The queue is short and the machine is not off. */
  predicate Low(c: Config, t: Tick) { t.Tick? && t.queued <= c.up && t.queued <= c.down && t.status != Stopped }

  /** A tick that was seen and ends a lull: it is not low, or it stops the machine. */
  ghost predicate Breaks(c: Config, ticks: seq<Tick>, i: int) {
    0 <= i < |ticks| && Seen(ticks[i]) && (!Low(c, ticks[i]) || StopsAt(c, ticks, i))
  }

  /** No lull is open before tick j: the last tick seen before it ended one, or none was seen. */
  ghost predicate NoLull(c: Config, ticks: seq<Tick>, j: nat) {
    j <= |ticks| && forall i :: 0 <= i < j && Seen(ticks[i]) && LastSeen(ticks, i, j) ==> Breaks(c, ticks, i)
  }

  ghost predicate LastSeen(ticks: seq<Tick>, i: nat, j: nat) {
    j <= |ticks| && forall m :: i < m < j ==> !Seen(ticks[m])
  }

  /** Tick j begins the lull that is still open before tick k. */
  ghost predicate LullFrom(c: Config, ticks: seq<Tick>, j: nat, k: nat) {
    && j < k <= |ticks| && Seen(ticks[j]) && NoLull(c, ticks, j)
    && forall i :: j <= i < k && Seen(ticks[i]) ==> Low(c, ticks[i]) && !StopsAt(c, ticks, i)
  }

  /** Tick j begins a lull that tick k belongs to; j may be k. */
  ghost predicate LullThrough(c: Config, ticks: seq<Tick>, j: nat, k: nat) {
    k < |ticks| && Low(c, ticks[k]) && (LullFrom(c, ticks, j, k) || (j == k && NoLull(c, ticks, k)))
  }

  /** A start succeeded at i and no running machine was seen since, before k. */
  ghost predicate StartPending(c: Config, ticks: seq<Tick>, k: nat) {
    exists i :: 0 <= i < k <= |ticks| && StartsAt(c, ticks, i) && forall m :: i < m < k && Seen(ticks[m]) ==> ticks[m].status != Running
  }

  ghost predicate StopPending(c: Config, ticks: seq<Tick>, k: nat) {
    exists i :: 0 <= i < k <= |ticks| && StopsAt(c, ticks, i) && forall m :: i < m < k && Seen(ticks[m]) ==> ticks[m].status != Stopped
  }

  // What the code does.

  /** The pending operation, forgotten once its result is observed. */
  function Remembered(m: Memory, status: Status): Option<Power> {
    if (status == Running && m.powerOperation == Some(StartUp)) || (status == Stopped && m.powerOperation == Some(ShutDown)) then None
    else m.powerOperation
  }

  function Step(c: Config, m: Memory, t: Tick): (Memory, Action) {
    if t.Unreadable? then (m, Threw)
    else
      var power := Remembered(m, t.status);
      if t.queued > c.up then
        if power == Some(StartUp) then (Memory(None, power), Waiting)
        else if t.status == Stopped then
          if t.powerFails then (Memory(None, power), Threw) else (Memory(None, Some(StartUp)), Started)
        else (Memory(None, power), if t.status == Running then Noop else Waiting)
      else if t.queued > c.down || t.status == Stopped then (Memory(None, power), Noop)
      else
        var since := if m.lowQueueSince.Some? then m.lowQueueSince.value else t.now1;
        if t.now2 - since < c.idleMs || t.running > 0 || t.status != Running || power == Some(ShutDown) then (Memory(Some(since), power), Waiting)
        else if t.powerFails then (Memory(Some(since), power), Threw)
        else (Memory(None, Some(ShutDown)), StoppedIt)
  }

  /** The closure variables before tick k. */
  function MemoryAt(c: Config, ticks: seq<Tick>, k: nat): Memory
    requires k <= |ticks|
  {
    if k == 0 then Memory(None, None) else Step(c, MemoryAt(c, ticks, k - 1), ticks[k - 1]).0
  }

  function ActionAt(c: Config, ticks: seq<Tick>, k: nat): Action
    requires k < |ticks|
  {
    Step(c, MemoryAt(c, ticks, k), ticks[k]).1
  }

  predicate StartsAt(c: Config, ticks: seq<Tick>, k: int) { 0 <= k < |ticks| && ActionAt(c, ticks, k) == Started }

  predicate StopsAt(c: Config, ticks: seq<Tick>, k: int) { 0 <= k < |ticks| && ActionAt(c, ticks, k) == StoppedIt }

  class Scaler {
    const configuration: Config
    var lowQueueSince: Option<int>
    var powerOperation: Option<Power>

    constructor (configuration: Config)
      ensures this.configuration == configuration && View() == Memory(None, None)
    {
      this.configuration := configuration;
      lowQueueSince, powerOperation := None, None;
    }

    ghost function View(): Memory
      reads this
    {
      Memory(lowQueueSince, powerOperation)
    }

    /** `runOnce`. */
    method RunOnce(t: Tick) returns (action: Action)
      modifies this
      ensures (View(), action) == Step(configuration, old(View()), t)
    {
      if t.Unreadable? {
        return Threw;
      }
      if t.status == Running && powerOperation == Some(StartUp) {
        powerOperation := None;
      }
      if t.status == Stopped && powerOperation == Some(ShutDown) {
        powerOperation := None;
      }
      if t.queued > configuration.up {
        lowQueueSince := None;
        if powerOperation == Some(StartUp) {
          return Waiting;
        }
        if t.status == Stopped {
          if t.powerFails {
            return Threw;
          }
          powerOperation := Some(StartUp);
          return Started;
        }
        return if t.status in {Unknown, Starting, Stopping} then Waiting else Noop;
      }
      if t.queued > configuration.down {
        lowQueueSince := None;
        return Noop;
      }
      if t.status == Stopped {
        lowQueueSince := None;
        return Noop;
      }
      if lowQueueSince.None? {
        lowQueueSince := Some(t.now1);
      }
      if t.now2 - lowQueueSince.value < configuration.idleMs {
        return Waiting;
      }
      if t.running > 0 || t.status != Running {
        return Waiting;
      }
      if powerOperation == Some(ShutDown) {
        return Waiting;
      }
      if t.powerFails {
        return Threw;
      }
      powerOperation := Some(ShutDown);
      lowQueueSince := None;
      return StoppedIt;
    }

    /** All ticks in turn. */
    method RunAll(ticks: seq<Tick>) returns (actions: seq<Action>)
      requires View() == Memory(None, None)
      modifies this
      ensures |actions| == |ticks| && forall k :: 0 <= k < |ticks| ==> actions[k] == ActionAt(configuration, ticks, k)
    {
      actions := [];
      for k := 0 to |ticks|
        invariant |actions| == k && View() == MemoryAt(configuration, ticks, k)
        invariant forall i :: 0 <= i < k ==> actions[i] == ActionAt(configuration, ticks, i)
      {
        var action := RunOnce(ticks[k]);
        actions := actions + [action];
      }
    }
  }

  // The power operation the code remembers is the one still pending.

  lemma {:induction false} RemembersPending(c: Config, ticks: seq<Tick>, k: nat)
    requires k <= |ticks|
    ensures MemoryAt(c, ticks, k).powerOperation == Some(StartUp) <==> StartPending(c, ticks, k)
    ensures MemoryAt(c, ticks, k).powerOperation == Some(ShutDown) <==> StopPending(c, ticks, k)
  {
    if k > 0 {
      RemembersPending(c, ticks, k - 1);
      PendingStep(c, ticks, k - 1);
    }
  }

  /** Pending after tick k: started there, or pending before and no running machine seen. */
  lemma PendingStep(c: Config, ticks: seq<Tick>, k: nat)
    requires k < |ticks|
    ensures StartPending(c, ticks, k + 1) <==> StartsAt(c, ticks, k) || (StartPending(c, ticks, k) && (Seen(ticks[k]) ==> ticks[k].status != Running))
    ensures StopPending(c, ticks, k + 1) <==> StopsAt(c, ticks, k) || (StopPending(c, ticks, k) && (Seen(ticks[k]) ==> ticks[k].status != Stopped))
  {
  }

  /** Between two successful starts a running machine was seen. */
  lemma RunningBetweenStarts(c: Config, ticks: seq<Tick>, i: nat, k: nat)
    requires i < k && StartsAt(c, ticks, i) && StartsAt(c, ticks, k)
    ensures exists m :: i < m < k && Seen(ticks[m]) && ticks[m].status == Running
  {
    RemembersPending(c, ticks, k);
  }

  /** Between two successful stops a stopped machine was seen. */
  lemma StoppedBetweenStops(c: Config, ticks: seq<Tick>, i: nat, k: nat)
    requires i < k && StopsAt(c, ticks, i) && StopsAt(c, ticks, k)
    ensures exists m :: i < m < k && Seen(ticks[m]) && ticks[m].status == Stopped
  {
    RemembersPending(c, ticks, k);
  }

  /** Exactly when a start succeeds. */
  lemma StartsExactly(c: Config, ticks: seq<Tick>, k: nat)
    requires k < |ticks|
    ensures StartsAt(c, ticks, k) <==> High(c, ticks[k]) && ticks[k].status == Stopped && !ticks[k].powerFails && !StartPending(c, ticks, k)
  {
    RemembersPending(c, ticks, k);
  }

  lemma NoLullStep(c: Config, ticks: seq<Tick>, k: nat)
    requires k < |ticks|
    ensures NoLull(c, ticks, k + 1) <==> if Seen(ticks[k]) then Breaks(c, ticks, k) else NoLull(c, ticks, k)
  {
    assert LastSeen(ticks, k, k + 1);
    forall i | 0 <= i < k ensures LastSeen(ticks, i, k + 1) <==> LastSeen(ticks, i, k) && !Seen(ticks[k]) {
    }
  }

  /** The instant the code remembers is the first reading of the tick that began the open lull. */
  lemma {:induction false} RemembersLull(c: Config, ticks: seq<Tick>, k: nat)
    requires k <= |ticks|
    ensures MemoryAt(c, ticks, k).lowQueueSince.None? <==> NoLull(c, ticks, k)
    ensures MemoryAt(c, ticks, k).lowQueueSince.Some? ==>
              exists j: nat :: LullFrom(c, ticks, j, k) && ticks[j].now1 == MemoryAt(c, ticks, k).lowQueueSince.value
  {
    hide NoLull;
    if k == 0 {
      EmptyNoLull(c, ticks);
    } else {
      var n := k - 1;
      RemembersLull(c, ticks, n);
      NoLullStep(c, ticks, n);
      var before, after := MemoryAt(c, ticks, n), MemoryAt(c, ticks, k);
      if after.lowQueueSince.Some? {
        if before.lowQueueSince.Some? {
          var j: nat :| LullFrom(c, ticks, j, n) && ticks[j].now1 == before.lowQueueSince.value;
          assert LullFrom(c, ticks, j, k);
        } else {
          assert LullFrom(c, ticks, n, k);
        }
      }
    }
  }

  lemma EmptyNoLull(c: Config, ticks: seq<Tick>)
    ensures NoLull(c, ticks, 0)
  {
  }

  /** A lull has one beginning. */
  lemma OneBeginning(c: Config, ticks: seq<Tick>, i: nat, j: nat, k: nat)
    requires LullFrom(c, ticks, i, k) && LullFrom(c, ticks, j, k)
    ensures i == j
  {
    if i < j {
      LullBars(c, ticks, i, j, k);
    } else if j < i {
      LullBars(c, ticks, j, i, k);
    }
  }

  lemma {:induction false} LullBars(c: Config, ticks: seq<Tick>, i: nat, j: nat, k: nat)
    requires LullFrom(c, ticks, i, k) && i < j <= k
    ensures !NoLull(c, ticks, j)
    decreases j
  {
    hide NoLull;
    NoLullStep(c, ticks, j - 1);
    if i < j - 1 {
      LullBars(c, ticks, i, j - 1, k);
    }
  }

  /** Exactly when a stop succeeds: nothing runs on a running machine, no stop is pending, and the lull has lasted long enough. */
  lemma StopsExactly(c: Config, ticks: seq<Tick>, k: nat)
    requires k < |ticks|
    ensures StopsAt(c, ticks, k) <==>
            Seen(ticks[k]) && ticks[k].status == Running && ticks[k].running == 0 && !ticks[k].powerFails && !StopPending(c, ticks, k)
            && exists j: nat :: LullThrough(c, ticks, j, k) && ticks[k].now2 - ticks[j].now1 >= c.idleMs
  {
    RemembersPending(c, ticks, k);
    RemembersLull(c, ticks, k);
    hide NoLull, StopPending, StartPending;
    var before := MemoryAt(c, ticks, k).lowQueueSince;
    if before.Some? && Low(c, ticks[k]) {
      var j: nat :| LullFrom(c, ticks, j, k) && ticks[j].now1 == before.value;
      assert LullThrough(c, ticks, j, k);
      forall i: nat | LullFrom(c, ticks, i, k) ensures i == j {
        OneBeginning(c, ticks, i, j, k);
      }
    } else if Low(c, ticks[k]) {
      assert LullThrough(c, ticks, k, k);
      forall i: nat | LullFrom(c, ticks, i, k) ensures false {
        LullBars(c, ticks, i, k, k);
      }
    }
  }
}
