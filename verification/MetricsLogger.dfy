/** BluetoothMetricsLogger (system/common/metrics.cc) with its four leaky queues and the log message
    that Build fills. Proved, for calls made one after another, against the unbounded history. */
module MetricsLogger {
  import opened Wrappers
  import opened LeakyBondedQueue
  import opened MetricsSpec
  import A2dp = A2dpSessionMetrics

  /** One of the loops of Build: move items to the log while its list is no longer than the queue's
      capacity. */
  method Drain<T>(queue: Queue<T>) returns (list: seq<T>)
    requires queue.Valid()
    modifies queue
    ensures queue.Valid() && queue.items == [] && list == old(queue.items)
  {
    list := [];
    var empty := queue.Empty();
    while !empty && |list| <= queue.capacity
      invariant queue.Valid() && empty == (queue.items == [])
      invariant list + queue.items == old(queue.items)
      decreases |queue.items|
    {
      var item := queue.Dequeue();
      list := list + [item];
      empty := queue.Empty();
    }
  }

  /** The fifth loop of Build, which goes on while the session queue is not empty but dequeues wake
      events. It takes a wake event from an empty queue unless there are no sessions or enough wake
      events to fill the list beyond the capacity. */
  method DrainGuardedBy(sessions: Queue<Session>, wakes: Queue<WakeEvent>, list: seq<WakeEvent>)
    returns (longer: seq<WakeEvent>)
    requires sessions.Valid() && wakes.Valid()
    requires sessions.items == [] || |list| + |wakes.items| > wakes.capacity
    modifies wakes
    ensures wakes.Valid() && longer + wakes.items == list + old(wakes.items)
    ensures sessions.items == [] ==> longer == list
  {
    longer := list;
    var empty := sessions.Empty();
    while !empty && |longer| <= wakes.capacity
      invariant wakes.Valid() && empty == (sessions.items == [])
      invariant longer + wakes.items == list + old(wakes.items)
      invariant sessions.items == [] ==> longer == list
      decreases |wakes.items|
    {
      assert |longer| + |wakes.items| == |longer + wakes.items|;
      var item := wakes.Dequeue();
      longer := longer + [item];
      empty := sessions.Empty();
    }
  }

  class Logger {
    const sessionQueue: Queue<Session>
    const pairQueue: Queue<PairEvent>
    const wakeQueue: Queue<WakeEvent>
    const scanQueue: Queue<ScanEvent>
    var log: Log
    var open: Option<Session>
    var startTime: int
    var a2dp: A2dp.Metrics
    var headset: Counts
    ghost var history: History

    ghost function Queues(): set<object> {
      {sessionQueue, pairQueue, wakeQueue, scanQueue}
    }

    /** Every queue holds the tail of the records since the last dump or reset, the counters count
        all of them, and the lists of the log are empty between calls. */
    ghost predicate Valid()
      reads this, Queues()
    {
      && |Queues()| == 4
      && sessionQueue.Valid() && sessionQueue.capacity == MAX_SESSIONS
      && pairQueue.Valid() && pairQueue.capacity == MAX_PAIRS
      && wakeQueue.Valid() && wakeQueue.capacity == MAX_WAKES
      && scanQueue.Valid() && scanQueue.capacity == MAX_SCANS
      && sessionQueue.items == Suffix(history.sessions, MAX_SESSIONS)
      && pairQueue.items == Suffix(history.pairs, MAX_PAIRS)
      && wakeQueue.items == Suffix(history.wakes, MAX_WAKES)
      && scanQueue.items == Suffix(history.scans, MAX_SCANS)
      && log == EMPTY_LOG.(numSessions := |history.sessions|, numPairs := |history.pairs|,
                          numWakes := |history.wakes|, numScans := |history.scans|)
      && open == history.open && startTime == history.startTime
      && a2dp == history.a2dp && headset == history.headset
    }

    constructor ()
      ensures Valid() && fresh(Queues()) && history == FRESH
    {
      sessionQueue := new Queue(MAX_SESSIONS);
      pairQueue := new Queue(MAX_PAIRS);
      wakeQueue := new Queue(MAX_WAKES);
      scanQueue := new Queue(MAX_SCANS);
      log := EMPTY_LOG;
      open, startTime, a2dp, headset := None, 0, A2dp.UNSET, Counts(0, 0, 0);
      history := FRESH;
    }

    method LogPairEvent(event: PairEvent)
      requires Valid()
      modifies this, Queues()
      ensures Valid() && history == Apply(old(history), LogPair(event))
    {
      LeakIsSuffix(history.pairs, MAX_PAIRS, event);
      pairQueue.Enqueue(event);
      log := log.(numPairs := log.numPairs + 1);
      history := Apply(history, LogPair(event));
    }

    method LogWakeEvent(event: WakeEvent)
      requires Valid()
      modifies this, Queues()
      ensures Valid() && history == Apply(old(history), LogWake(event))
    {
      LeakIsSuffix(history.wakes, MAX_WAKES, event);
      wakeQueue.Enqueue(event);
      log := log.(numWakes := log.numWakes + 1);
      history := Apply(history, LogWake(event));
    }

    method LogScanEvent(event: ScanEvent)
      requires Valid()
      modifies this, Queues()
      ensures Valid() && history == Apply(old(history), LogScan(event))
    {
      LeakIsSuffix(history.scans, MAX_SCANS, event);
      scanQueue.Enqueue(event);
      log := log.(numScans := log.numScans + 1);
      history := Apply(history, LogScan(event));
    }

    method LogBluetoothSessionEnd(reason: EndReason, timestamp: int, clock: Clock)
      requires Valid()
      modifies this, Queues()
      ensures Valid() && history == EndSession(old(history), reason, timestamp, clock)
    {
      if open.None? {
        return;
      }
      var end := if timestamp == 0 then clock.atEnd else timestamp;
      var session := open.value.(durationSec := DurationSec(startTime, end), reason := reason);
      LeakIsSuffix(history.sessions, MAX_SESSIONS, session);
      sessionQueue.Enqueue(session);
      open := None;
      a2dp := A2dp.UNSET;
      log := log.(numSessions := log.numSessions + 1);
      history := EndSession(history, reason, timestamp, clock);
    }

    method LogBluetoothSessionStart(tech: LinkTech, timestamp: int, clock: Clock)
      requires Valid()
      modifies this, Queues()
      ensures Valid() && history == StartSession(old(history), tech, timestamp, clock)
    {
      if open.Some? {
        LogBluetoothSessionEnd(EndNextStart, 0, clock);
      }
      startTime := if timestamp == 0 then clock.atStart else timestamp;
      open := Some(Session(tech, None, None, 0, EndUnknown));
      history := history.(startTime := startTime, open := open);
    }

    method LogBluetoothSessionDeviceInfo(deviceClass: nat, clock: Clock)
      requires Valid()
      modifies this, Queues()
      ensures Valid() && history == DeviceInfo(old(history), deviceClass, clock)
    {
      if open.None? {
        LogBluetoothSessionStart(LinkUnknown, 0, clock);
      }
      open := Some(open.value.(device := Some(Device(deviceClass, DeviceBrEdr))));
      history := history.(open := open);
    }

    method LogA2dpSession(metrics: A2dp.Metrics, clock: Clock)
      requires Valid()
      modifies this, Queues()
      ensures Valid() && history == LogA2dp(old(history), metrics, clock)
    {
      if open.None? {
        LogBluetoothSessionStart(LinkBrEdr, 0, clock);
        LogBluetoothSessionDeviceInfo(COD_MAJOR_AUDIO, clock);
      }
      a2dp := A2dp.Merge(a2dp, metrics);
      open := Some(open.value.(a2dp := Some(a2dp)));
      history := history.(a2dp := a2dp, open := open);
    }

    method LogHeadsetProfileRfcConnection(profile: Profile)
      requires Valid()
      modifies this
      ensures Valid() && history == Headset(old(history), profile)
    {
      match profile {
        case ProfileHsp => headset := headset.(hsp := headset.hsp + 1);
        case ProfileHfp => headset := headset.(hfp := headset.hfp + 1);
        case ProfileUnknown => headset := headset.(unknown := headset.unknown + 1);
      }
      history := Headset(history, profile);
    }

    method CutoffSession(clock: Clock)
      requires Valid()
      modifies this, Queues()
      ensures Valid() && history == Cutoff(old(history), clock)
    {
      if open.Some? {
        var next := open.value.(a2dp := None);
        LogBluetoothSessionEnd(EndMetricsDump, 0, clock);
        open := Some(next);
        startTime := clock.atStart;
        a2dp := A2dp.UNSET;
        history := history.(open := open, startTime := startTime, a2dp := a2dp);
      }
    }

    /** Build, serialise, clear. */
    method WriteString(clock: Clock) returns (written: Log)
      requires Valid()
      modifies this, Queues()
      ensures Valid() && history == AfterDump(Cutoff(old(history), clock))
      ensures written == DumpOf(Cutoff(old(history), clock))
      ensures sessionQueue.items == [] && pairQueue.items == [] && wakeQueue.items == [] && scanQueue.items == []
    {
      hide Cutoff, Connections, Suffix;
      CutoffSession(clock);
      var sessions, pairs, scans, wakes := DrainAll();
      log := log.(sessions := sessions, pairs := pairs, scans := scans, wakes := wakes,
                  headset := Connections(headset));
      headset := Counts(0, 0, 0);
      written := log;
      log := EMPTY_LOG;
      history := AfterDump(history);
      SuffixNone<Session>(MAX_SESSIONS);
      SuffixNone<PairEvent>(MAX_PAIRS);
      SuffixNone<WakeEvent>(MAX_WAKES);
      SuffixNone<ScanEvent>(MAX_SCANS);
    }

    /** The loops of Build. The first four leave every queue empty, so the guard of the fifth is false
        when it is reached. */
    method DrainAll()
      returns (sessions: seq<Session>, pairs: seq<PairEvent>, scans: seq<ScanEvent>, wakes: seq<WakeEvent>)
      requires |Queues()| == 4
      requires sessionQueue.Valid() && pairQueue.Valid() && wakeQueue.Valid() && scanQueue.Valid()
      modifies Queues()
      ensures sessionQueue.Valid() && pairQueue.Valid() && wakeQueue.Valid() && scanQueue.Valid()
      ensures sessions == old(sessionQueue.items) && pairs == old(pairQueue.items)
      ensures scans == old(scanQueue.items) && wakes == old(wakeQueue.items)
      ensures sessionQueue.items == [] && pairQueue.items == [] && wakeQueue.items == [] && scanQueue.items == []
    {
      sessions := Drain(sessionQueue);
      pairs := Drain(pairQueue);
      scans := Drain(scanQueue);
      wakes := Drain(wakeQueue);
      wakes := DrainGuardedBy(sessionQueue, wakeQueue, wakes);
    }

    method ResetAll()
      requires Valid()
      modifies this, Queues()
      ensures Valid() && history == Reset(old(history))
    {
      open, startTime, a2dp := None, 0, A2dp.UNSET;
      log := EMPTY_LOG;
      sessionQueue.Clear();
      pairQueue.Clear();
      wakeQueue.Clear();
      scanQueue.Clear();
      history := Reset(history);
    }
  }
}
