/** BluetoothMetricsLogger (system/common/metrics.cc) without bounds: a logger that keeps every
    record since the last dump or reset. The bounded logger is proved against it. Records hold the
    values after the enum mapping functions; clock readings are parameters. */
module MetricsSpec {
  import opened Arithmetic
  import opened LeakyBondedQueue
  import opened Wrappers
  import A2dp = A2dpSessionMetrics

  const MAX_SESSIONS := 50
  const MAX_PAIRS := 50
  const MAX_WAKES := 1000
  const MAX_SCANS := 50
  const COD_MAJOR_AUDIO := 4

  datatype DeviceType = DeviceUnknown | DeviceBrEdr | DeviceLe | DeviceDumo
  datatype Device = Device(deviceClass: nat, deviceType: DeviceType)
  datatype PairEvent = PairEvent(reason: nat, time: nat, device: Device)
  datatype WakeKind = WakeUnknown | WakeAcquired | WakeReleased
  datatype WakeEvent = WakeEvent(kind: WakeKind, requestor: string, name: string, time: nat)
  datatype ScanTech = ScanUnknown | ScanLe | ScanBrEdr | ScanBoth
  datatype ScanEvent = ScanEvent(start: bool, initiator: string, tech: ScanTech, results: nat, time: nat)
  datatype LinkTech = LinkUnknown | LinkLe | LinkBrEdr
  datatype EndReason = EndUnknown | EndMetricsDump | EndNextStart
  datatype Profile = ProfileUnknown | ProfileHsp | ProfileHfp

  /** `a2dp` is the running total copied into the session; duration and reason are set when it ends. */
  datatype Session = Session(
    tech: LinkTech, device: Option<Device>, a2dp: Option<A2dp.Metrics>, durationSec: int, reason: EndReason)

  datatype Counts = Counts(unknown: nat, hsp: nat, hfp: nat)

  datatype History = History(
    sessions: seq<Session>,
    pairs: seq<PairEvent>,
    wakes: seq<WakeEvent>,
    scans: seq<ScanEvent>,
    open: Option<Session>,
    startTime: int,
    a2dp: A2dp.Metrics,
    headset: Counts)

  const FRESH := History([], [], [], [], None, 0, A2dp.UNSET, Counts(0, 0, 0))

  /** Clock readings that a call may take: when it ends a session and when it starts one. */
  datatype Clock = Clock(atEnd: int, atStart: int)

  function DurationSec(start: int, end: int): int {
    ((end - start) % TWO_64) / 1000
  }

  /** A stamp of 0 makes the call read the clock. */
  function Effective(stamp: int, clock: int): int {
    if stamp == 0 then clock else stamp
  }

  function EndSession(h: History, reason: EndReason, timestamp: int, clock: Clock): History {
    match h.open
    case None => h
    case Some(s) =>
      var end := Effective(timestamp, clock.atEnd);
      h.(sessions := h.sessions + [s.(durationSec := DurationSec(h.startTime, end), reason := reason)],
         open := None,
         a2dp := A2dp.UNSET)
  }

  function StartSession(h: History, tech: LinkTech, timestamp: int, clock: Clock): History {
    EndSession(h, EndNextStart, 0, clock).(
      startTime := Effective(timestamp, clock.atStart),
      open := Some(Session(tech, None, None, 0, EndUnknown)))
  }

  /** The device type given by the caller is ignored: BR/EDR is always recorded. */
  function DeviceInfo(h: History, deviceClass: nat, clock: Clock): History {
    var h1 := if h.open.None? then StartSession(h, LinkUnknown, 0, clock) else h;
    h1.(open := Some(h1.open.value.(device := Some(Device(deviceClass, DeviceBrEdr)))))
  }

  function LogA2dp(h: History, metrics: A2dp.Metrics, clock: Clock): History {
    var h1 :=
      if h.open.None? then DeviceInfo(StartSession(h, LinkBrEdr, 0, clock), COD_MAJOR_AUDIO, clock) else h;
    var total := A2dp.Merge(h1.a2dp, metrics);
    h1.(a2dp := total, open := Some(h1.open.value.(a2dp := Some(total))))
  }

  function Headset(h: History, profile: Profile): History {
    h.(headset :=
       match profile
       case ProfileHsp => h.headset.(hsp := h.headset.hsp + 1)
       case ProfileHfp => h.headset.(hfp := h.headset.hfp + 1)
       case ProfileUnknown => h.headset.(unknown := h.headset.unknown + 1))
  }

  /** A dump ends the open session and continues it as a new one without A2DP figures. */
  function Cutoff(h: History, clock: Clock): History {
    match h.open
    case None => h
    case Some(s) =>
      EndSession(h, EndMetricsDump, 0, clock).(
        open := Some(s.(a2dp := None)), startTime := clock.atStart, a2dp := A2dp.UNSET)
  }

  function Connections(c: Counts): seq<(Profile, nat)> {
    (if c.unknown > 0 then [(ProfileUnknown, c.unknown)] else []) +
    (if c.hsp > 0 then [(ProfileHsp, c.hsp)] else []) +
    (if c.hfp > 0 then [(ProfileHfp, c.hfp)] else [])
  }

  /** What WriteString serialises. */
  datatype Log = Log(
    sessions: seq<Session>, pairs: seq<PairEvent>, scans: seq<ScanEvent>, wakes: seq<WakeEvent>,
    numSessions: nat, numPairs: nat, numScans: nat, numWakes: nat,
    headset: seq<(Profile, nat)>)

  const EMPTY_LOG := Log([], [], [], [], 0, 0, 0, 0, [])

  /** The last records of each kind, with the number of all records, oldest first. */
  function DumpOf(h: History): Log {
    Log(Suffix(h.sessions, MAX_SESSIONS), Suffix(h.pairs, MAX_PAIRS),
        Suffix(h.scans, MAX_SCANS), Suffix(h.wakes, MAX_WAKES),
        |h.sessions|, |h.pairs|, |h.scans|, |h.wakes|,
        Connections(h.headset))
  }

  function AfterDump(h: History): History {
    h.(sessions := [], pairs := [], wakes := [], scans := [], headset := Counts(0, 0, 0))
  }

  /** Reset forgets everything except the headset connection counts. */
  function Reset(h: History): History {
    FRESH.(headset := h.headset)
  }

  // ----- histories of calls

  datatype Call =
    | LogPair(pair: PairEvent)
    | LogWake(wake: WakeEvent)
    | LogScan(scan: ScanEvent)
    | LogSessionStart(tech: LinkTech, startStamp: int, clock: Clock)
    | LogSessionEnd(reason: EndReason, endStamp: int, clock: Clock)
    | LogDeviceInfo(deviceClass: nat, clock: Clock)
    | LogA2dpSession(metrics: A2dp.Metrics, clock: Clock)
    | LogHeadset(profile: Profile)
    | WriteString(clock: Clock)
    | ResetAll

  function Apply(h: History, call: Call): History {
    match call
    case LogPair(e) => h.(pairs := h.pairs + [e])
    case LogWake(e) => h.(wakes := h.wakes + [e])
    case LogScan(e) => h.(scans := h.scans + [e])
    case LogSessionStart(tech, stamp, clock) => StartSession(h, tech, stamp, clock)
    case LogSessionEnd(reason, stamp, clock) => EndSession(h, reason, stamp, clock)
    case LogDeviceInfo(deviceClass, clock) => DeviceInfo(h, deviceClass, clock)
    case LogA2dpSession(metrics, clock) => LogA2dp(h, metrics, clock)
    case LogHeadset(profile) => Headset(h, profile)
    case WriteString(clock) => AfterDump(Cutoff(h, clock))
    case ResetAll => Reset(h)
  }

  function Run(calls: seq<Call>): History {
    if calls == [] then FRESH else Apply(Run(calls[..|calls| - 1]), calls[|calls| - 1])
  }

  /** The calls made after the latest dump or reset. */
  function SinceCleared(calls: seq<Call>): seq<Call> {
    if calls == [] then []
    else
      var n := |calls| - 1;
      if calls[n].WriteString? || calls[n].ResetAll? then [] else SinceCleared(calls[..n]) + [calls[n]]
  }

  function PairsIn(calls: seq<Call>): seq<PairEvent> {
    if calls == [] then []
    else PairsIn(calls[..|calls| - 1]) + (var c := calls[|calls| - 1]; if c.LogPair? then [c.pair] else [])
  }

  function WakesIn(calls: seq<Call>): seq<WakeEvent> {
    if calls == [] then []
    else WakesIn(calls[..|calls| - 1]) + (var c := calls[|calls| - 1]; if c.LogWake? then [c.wake] else [])
  }

  function ScansIn(calls: seq<Call>): seq<ScanEvent> {
    if calls == [] then []
    else ScansIn(calls[..|calls| - 1]) + (var c := calls[|calls| - 1]; if c.LogScan? then [c.scan] else [])
  }

  lemma ApplyEvents(h: History, call: Call)
    ensures !call.WriteString? && !call.ResetAll? ==>
              var h' := Apply(h, call);
              && h'.pairs == h.pairs + (if call.LogPair? then [call.pair] else [])
              && h'.wakes == h.wakes + (if call.LogWake? then [call.wake] else [])
              && h'.scans == h.scans + (if call.LogScan? then [call.scan] else [])
  {
  }

  /** After any calls, the pair, wake and scan records kept are exactly those logged since the latest
      dump or reset, in order. */
  lemma {:induction false} RunKeepsEvents(calls: seq<Call>)
    ensures var h, recent := Run(calls), SinceCleared(calls);
            h.pairs == PairsIn(recent) && h.wakes == WakesIn(recent) && h.scans == ScansIn(recent)
  {
    if calls != [] {
      var n := |calls| - 1;
      RunKeepsEvents(calls[..n]);
      if !calls[n].WriteString? && !calls[n].ResetAll? {
        hide Apply;
        ApplyEvents(Run(calls[..n]), calls[n]);
        var recent := SinceCleared(calls[..n]);
        assert (recent + [calls[n]])[..|recent|] == recent;
      }
    }
  }

  // ----- A2DP figures of a session

  /** The call starts, ends, cuts off or drops a session. */
  predicate IsBoundary(call: Call) {
    call.LogSessionStart? || call.LogSessionEnd? || call.WriteString? || call.ResetAll?
  }

  /** The calls made since the current session was started, ended, cut off or dropped. */
  function SinceBoundary(calls: seq<Call>): seq<Call> {
    if calls == [] then []
    else
      var n := |calls| - 1;
      if IsBoundary(calls[n]) then []
      else SinceBoundary(calls[..n]) + [calls[n]]
  }

  function A2dpIn(calls: seq<Call>): seq<A2dp.Metrics> {
    if calls == [] then []
    else A2dpIn(calls[..|calls| - 1]) + (var c := calls[|calls| - 1]; if c.LogA2dpSession? then [c.metrics] else [])
  }

  ghost predicate A2dpAgrees(h: History, updates: seq<A2dp.Metrics>) {
    && h.a2dp == A2dp.MergeAll(updates)
    && (h.open.Some? ==> h.open.value.a2dp == if updates == [] then None else Some(h.a2dp))
    && (h.open.None? ==> updates == [])
  }

  lemma A2dpStep(h: History, updates: seq<A2dp.Metrics>, call: Call)
    requires A2dpAgrees(h, updates)
    ensures A2dpAgrees(Apply(h, call),
                       if call.LogA2dpSession? then updates + [call.metrics]
                       else if IsBoundary(call) then []
                       else updates)
  {
    hide A2dp.Merge, DurationSec;
    if call.LogA2dpSession? {
      assert (updates + [call.metrics])[..|updates|] == updates;
    }
  }

  /** After any calls the open session carries exactly the merge of the A2DP updates logged since it
      was started or cut off, and no figures when there were none. */
  lemma {:induction false} RunMergesA2dp(calls: seq<Call>)
    ensures A2dpAgrees(Run(calls), A2dpIn(SinceBoundary(calls)))
  {
    hide Apply, A2dpAgrees;
    if calls == [] {
      NothingLogged();
    } else {
      var n := |calls| - 1;
      RunMergesA2dp(calls[..n]);
      var before := SinceBoundary(calls[..n]);
      A2dpStep(Run(calls[..n]), A2dpIn(before), calls[n]);
      assert (before + [calls[n]])[..|before|] == before;
      assert A2dpIn(before) + [] == A2dpIn(before);
    }
  }

  lemma NothingLogged()
    ensures A2dpAgrees(FRESH, [])
  {
  }

  // ----- headset connections

  /** The calls made after the latest dump; Reset does not count. */
  function SinceDump(calls: seq<Call>): seq<Call> {
    if calls == [] then []
    else
      var n := |calls| - 1;
      if calls[n].WriteString? then [] else SinceDump(calls[..n]) + [calls[n]]
  }

  function ConnectionsIn(calls: seq<Call>, profile: Profile): nat {
    if calls == [] then 0
    else ConnectionsIn(calls[..|calls| - 1], profile) + if calls[|calls| - 1] == LogHeadset(profile) then 1 else 0
  }

  function CountsIn(calls: seq<Call>): Counts {
    Counts(ConnectionsIn(calls, ProfileUnknown), ConnectionsIn(calls, ProfileHsp), ConnectionsIn(calls, ProfileHfp))
  }

  lemma HeadsetStep(h: History, call: Call, calls: seq<Call>)
    requires h.headset == CountsIn(calls)
    ensures Apply(h, call).headset == if call.WriteString? then CountsIn([]) else CountsIn(calls + [call])
  {
    hide A2dp.Merge, DurationSec;
    assert (calls + [call])[..|calls|] == calls;
  }

  /** After any calls the headset counts are the connections logged since the latest dump. */
  lemma {:induction false} RunCountsHeadset(calls: seq<Call>)
    ensures Run(calls).headset == CountsIn(SinceDump(calls))
  {
    hide Apply, CountsIn;
    if calls == [] {
      NothingConnected();
    } else {
      var n := |calls| - 1;
      RunCountsHeadset(calls[..n]);
      HeadsetStep(Run(calls[..n]), calls[n], SinceDump(calls[..n]));
    }
  }

  lemma NothingConnected()
    ensures FRESH.headset == CountsIn([])
  {
  }

  lemma ConnectionsMeaning(c: Counts, p: Profile, n: nat)
    ensures (p, n) in Connections(c) <==>
            n > 0 && n == match p case ProfileUnknown => c.unknown case ProfileHsp => c.hsp case ProfileHfp => c.hfp
    ensures |Connections(c)| <= 3
  {
  }

  /** A dump after any calls lists a profile with a count exactly when it connected that many times, and
      at least once, since the latest dump. */
  lemma DumpCountsHeadset(calls: seq<Call>, clock: Clock, p: Profile, n: nat)
    ensures (p, n) in DumpOf(Cutoff(Run(calls), clock)).headset <==> n > 0 && n == ConnectionsIn(SinceDump(calls), p)
  {
    hide Connections, ConnectionsIn, Suffix;
    RunCountsHeadset(calls);
    ConnectionsMeaning(Run(calls).headset, p, n);
  }

  /** Reset does not reset the headset counts: a dump after it lists the connections from before. */
  lemma ResetKeepsHeadsetCounts(calls: seq<Call>, clock: Clock, p: Profile, n: nat)
    ensures (p, n) in DumpOf(Cutoff(Run(calls + [ResetAll]), clock)).headset <==>
            n > 0 && n == ConnectionsIn(SinceDump(calls), p)
  {
    hide Connections, Suffix, Run, Cutoff;
    var more := calls + [ResetAll];
    assert more[..|calls|] == calls;
    DumpCountsHeadset(more, clock, p, n);
    assert SinceDump(more) == SinceDump(calls) + [ResetAll];
    assert SinceDump(more)[..|SinceDump(calls)|] == SinceDump(calls);
  }
}
