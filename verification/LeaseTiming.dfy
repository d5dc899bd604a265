/** The timing of heartbeats: why a running attempt never beats after its lease has run out. */
module LeaseTiming {
  import opened Options
  import opened Numbers

  const DEFAULT_LOCK_TTL_MS := 60000
  const DEFAULT_HEARTBEAT_MS := 15000

  /** `positiveInteger`: None stands for a setting that is not a finite number. */
  function PositiveInteger(configured: Option<int>, fallback: int, minimum: int): int {
    if configured.Some? then Max(minimum, configured.value) else fallback
  }

  function LockTtlMs(setting: Option<int>): int { PositiveInteger(setting, DEFAULT_LOCK_TTL_MS, 30000) }

  function HeartbeatMs(setting: Option<int>, ttl: int): int {
    Min(PositiveInteger(setting, DEFAULT_HEARTBEAT_MS, 1000), Max(1000, ttl / 3))
  }

  /** Whatever is configured, at least three heartbeats fit into a lease. */
  lemma ThreeBeatsPerLease(ttlSetting: Option<int>, beatSetting: Option<int>)
    ensures var ttl := LockTtlMs(ttlSetting);
            var beat := HeartbeatMs(beatSetting, ttl);
            0 < beat && 3 * beat <= ttl
  {
    assert LockTtlMs(ttlSetting) >= 30000;
  }

  datatype Reply = Renewed | Refused | Failed

  /** A tick of the heartbeat timer, and when and how the store answered it. */
  datatype Beat = Beat(at: int, answered: int, reply: Reply)

  /** The attempt's lease deadline, and whether it still renews: it stops for good when it begins to settle. */
  datatype Lease = Lease(deadline: int, live: bool)

  /** What one heartbeat should leave: a renewal counts from the tick; a failure stops an attempt that could not try again in time. */
  ghost function Next(l: Lease, b: Beat, ttl: int, beat: int): Lease {
    if !l.live then l
    else
      match b.reply
      case Renewed => l.(deadline := b.at + ttl)
      case Refused => l.(live := false)
      case Failed => l.(live := b.answered + beat < l.deadline)
  }

  class Attempt {
    var leaseDeadline: int
    var leaseRenewalEnabled: bool
    var heartbeatBusy: bool

    constructor (deadline: int)
      ensures View() == Lease(deadline, true) && !heartbeatBusy
    {
      leaseDeadline, leaseRenewalEnabled, heartbeatBusy := deadline, true, false;
    }

    ghost function View(): Lease
      reads this
    {
      Lease(leaseDeadline, leaseRenewalEnabled)
    }

    /** `heartbeat`, up to its store call; false when there is nothing to do. */
    method Begin() returns (asks: bool)
      modifies this`heartbeatBusy
      ensures asks <==> leaseRenewalEnabled && !old(heartbeatBusy)
      ensures heartbeatBusy <==> old(heartbeatBusy) || asks
    {
      if !leaseRenewalEnabled || heartbeatBusy {
        return false;
      }
      heartbeatBusy := true;
      return true;
    }

    /** `heartbeat`, once the store has answered. */
    method End(b: Beat, ttl: int, beat: int)
      requires heartbeatBusy && leaseRenewalEnabled
      modifies this
      ensures View() == Next(old(View()), b, ttl, beat) && !heartbeatBusy
    {
      match b.reply {
        case Renewed => leaseDeadline := b.at + ttl;
        case Refused => leaseRenewalEnabled := false;
        case Failed =>
          if b.answered + beat >= leaseDeadline {
            leaseRenewalEnabled := false;
          }
      }
      heartbeatBusy := false;
    }

    /** A whole life of ticks, each answered before the next. */
    method Beats(beats: seq<Beat>, ttl: int, beat: int)
      requires !heartbeatBusy
      modifies this
      ensures View() == LeaseAt(old(View()), beats, |beats|, ttl, beat)
    {
      for k := 0 to |beats|
        invariant !heartbeatBusy && View() == LeaseAt(old(View()), beats, k, ttl, beat)
      {
        var asks := Begin();
        if asks {
          End(beats[k], ttl, beat);
        }
      }
    }
  }

  /** The lease before beat k. */
  ghost function LeaseAt(l: Lease, beats: seq<Beat>, k: nat, ttl: int, beat: int): Lease
    requires k <= |beats|
  {
    if k == 0 then l else Next(LeaseAt(l, beats, k - 1, ttl, beat), beats[k - 1], ttl, beat)
  }

  /** A heartbeat that an attempt outlives: it was not refused, and after a failure the next one comes before this deadline. */
  ghost predicate Outlived(b: Beat, deadline: int, beat: int) {
    b.reply != Refused && (b.reply == Failed ==> b.answered + beat < deadline)
  }

  /** An attempt renews exactly as long as no renewal was refused and no failure came too late; once it has stopped it never renews again. */
  lemma {:induction false} LiveExactlyWhile(l: Lease, beats: seq<Beat>, k: nat, ttl: int, beat: int)
    requires k <= |beats|
    ensures LeaseAt(l, beats, k, ttl, beat).live <==>
            l.live && forall j :: 0 <= j < k ==> Outlived(beats[j], LeaseAt(l, beats, j, ttl, beat).deadline, beat)
  {
    if k > 0 {
      LiveExactlyWhile(l, beats, k - 1, ttl, beat);
    }
  }

  /** While it renews, its deadline counts from the tick of the last renewal. */
  lemma {:induction false} DeadlineOfLastRenewal(l: Lease, beats: seq<Beat>, last: int, k: nat, ttl: int, beat: int)
    requires -1 <= last < k && k <= |beats| && LeaseAt(l, beats, k, ttl, beat).live
    requires last >= 0 ==> beats[last].reply == Renewed
    requires forall j :: last < j < k ==> beats[j].reply != Renewed
    ensures LeaseAt(l, beats, k, ttl, beat).deadline == if last < 0 then l.deadline else beats[last].at + ttl
  {
    if k - 1 > last {
      DeadlineOfLastRenewal(l, beats, last, k - 1, ttl, beat);
    }
  }

  /** Each answer comes before the next tick, which is at most a heartbeat after the answer; a renewal is answered within ttl - beat. */
  ghost predicate Timely(beats: seq<Beat>, ttl: int, beat: int) {
    && (forall k :: 0 <= k < |beats| ==> beats[k].at <= beats[k].answered)
    && (forall k :: 0 <= k < |beats| && beats[k].reply == Renewed ==> beats[k].answered < beats[k].at + ttl - beat)
    && (forall k {:trigger beats[k].answered} :: 0 <= k < |beats| - 1 ==> beats[k].answered <= beats[k + 1].at <= beats[k].answered + beat)
  }

  /** No tick of an attempt that still renews comes at or after its deadline, through any mix of renewals and failures. */
  lemma {:induction false} NoLateBeat(l: Lease, beats: seq<Beat>, k: nat, ttl: int, beat: int)
    requires Timely(beats, ttl, beat) && k < |beats| && (l.live ==> beats[0].at < l.deadline)
    ensures LeaseAt(l, beats, k, ttl, beat).live ==> beats[k].at < LeaseAt(l, beats, k, ttl, beat).deadline
  {
    if k > 0 {
      NoLateBeat(l, beats, k - 1, ttl, beat);
      assert beats[k - 1].answered <= beats[k - 1 + 1].at <= beats[k - 1].answered + beat;
    }
  }

  /** A timer that ticks every `beat`, with each answer before the next tick, is timely for every configuration. */
  lemma RegularTicksAreTimely(beats: seq<Beat>, ttlSetting: Option<int>, beatSetting: Option<int>)
    requires var beat := HeartbeatMs(beatSetting, LockTtlMs(ttlSetting));
             && (forall k {:trigger beats[k].at} :: 0 <= k < |beats| - 1 ==> beats[k + 1].at == beats[k].at + beat)
             && (forall k :: 0 <= k < |beats| ==> beats[k].at <= beats[k].answered <= beats[k].at + beat)
    ensures Timely(beats, LockTtlMs(ttlSetting), HeartbeatMs(beatSetting, LockTtlMs(ttlSetting)))
  {
    ThreeBeatsPerLease(ttlSetting, beatSetting);
    var beat := HeartbeatMs(beatSetting, LockTtlMs(ttlSetting));
    forall k | 0 <= k < |beats| - 1 ensures beats[k].answered <= beats[k + 1].at <= beats[k].answered + beat {
      assert beats[k + 1].at == beats[k].at + beat;
    }
  }

  /** The instants at which the tick after this beat may come. */
  ghost predicate MayTick(b: Beat, beat: int, t: int) { b.answered <= t <= b.answered + beat }

  /** The bound on answers is exact: the next tick after a renewal, anywhere within a heartbeat of the answer, is in time iff the answer took less than ttl - beat. */
  lemma RenewalInTime(l: Lease, b: Beat, ttl: int, beat: int)
    requires l.live && b.reply == Renewed && beat >= 0
    ensures b.answered - b.at < ttl - beat <==> forall t :: MayTick(b, beat, t) ==> t < Next(l, b, ttl, beat).deadline
  {
    if b.answered - b.at >= ttl - beat {
      var t := b.answered + beat;
      assert MayTick(b, beat, t) && t >= Next(l, b, ttl, beat).deadline;
    }
  }

  /** The stop test is exact in the same sense: an attempt survives a failure iff every tick within a heartbeat of it is in time. */
  lemma FailureStopsInTime(l: Lease, b: Beat, ttl: int, beat: int)
    requires l.live && b.reply == Failed && beat >= 0
    ensures Next(l, b, ttl, beat).live <==> forall t :: MayTick(b, beat, t) ==> t < l.deadline
  {
    if b.answered + beat >= l.deadline {
      var t := b.answered + beat;
      assert MayTick(b, beat, t) && t >= l.deadline;
    }
  }
}
