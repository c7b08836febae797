/** Which session records the metrics logger holds after any calls, read off the calls themselves:
    where a session was opened, where the part of it that is still to be reported began, and which
    call reported it. */
module MetricsSessions {
  import opened Arithmetic
  import opened LeakyBondedQueue
  import opened MetricsSpec
  import opened Wrappers
  import A2dp = A2dpSessionMetrics

  // ----- sessions in a sequence of calls

  /** After the calls a session is open. */
  predicate IsOpen(calls: seq<Call>) {
    if calls == [] then false
    else
      match calls[|calls| - 1]
      case LogSessionStart(_, _, _) => true
      case LogDeviceInfo(_, _) => true
      case LogA2dpSession(_, _) => true
      case LogSessionEnd(_, _, _) => false
      case ResetAll => false
      case _ => IsOpen(calls[..|calls| - 1])
  }

  /** The last call opens a session: a start always does, the others when none is open. */
  predicate Opens(calls: seq<Call>) {
    calls != [] &&
    (calls[|calls| - 1].LogSessionStart? || (IsOpen(calls) && !IsOpen(calls[..|calls| - 1])))
  }

  /** Where the open session was opened. */
  function Opening(calls: seq<Call>): (i: nat)
    requires IsOpen(calls)
    ensures i < |calls|
  {
    if Opens(calls) then |calls| - 1 else Opening(calls[..|calls| - 1])
  }

  /** Where the part of the open session that no dump has reported began. */
  function Resumption(calls: seq<Call>): (j: nat)
    requires IsOpen(calls)
    ensures Opening(calls) <= j < |calls|
  {
    if Opens(calls) || calls[|calls| - 1].WriteString? then |calls| - 1 else Resumption(calls[..|calls| - 1])
  }

  /** A session that a device or A2DP call opens is of unknown technology or BR/EDR. */
  function TechOf(opening: Call): LinkTech {
    match opening
    case LogSessionStart(tech, _, _) => tech
    case LogA2dpSession(_, _) => LinkBrEdr
    case _ => LinkUnknown
  }

  function StartTime(call: Call): int {
    match call
    case LogSessionStart(_, stamp, clock) => if stamp == 0 then clock.atStart else stamp
    case LogDeviceInfo(_, clock) => clock.atStart
    case LogA2dpSession(_, clock) => clock.atStart
    case WriteString(clock) => clock.atStart
    case _ => 0
  }

  function LastDevice(calls: seq<Call>): Option<Device> {
    if calls == [] then None
    else
      match calls[|calls| - 1]
      case LogDeviceInfo(deviceClass, _) => Some(Device(deviceClass, DeviceBrEdr))
      case _ => LastDevice(calls[..|calls| - 1])
  }

  /** The device of a session: the last one named, or an audio device if an A2DP call opened it. */
  function DeviceIn(session: seq<Call>): Option<Device> {
    match LastDevice(session)
    case Some(device) => Some(device)
    case None =>
      if session != [] && session[0].LogA2dpSession? then Some(Device(COD_MAJOR_AUDIO, DeviceBrEdr)) else None
  }

  function A2dpOf(calls: seq<Call>): Option<A2dp.Metrics> {
    var updates := A2dpIn(calls);
    if updates == [] then None else Some(A2dp.MergeAll(updates))
  }

  function OpenSession(calls: seq<Call>): Session
    requires IsOpen(calls)
  {
    var i, j := Opening(calls), Resumption(calls);
    Session(TechOf(calls[i]), DeviceIn(calls[i..]), A2dpOf(calls[j..]), 0, EndUnknown)
  }

  /** The record of the open session when it ends. */
  function Ended(calls: seq<Call>, reason: EndReason, end: int): Session
    requires IsOpen(calls)
  {
    var start := StartTime(calls[Resumption(calls)]);
    OpenSession(calls).(durationSec := DurationSec(start, end), reason := reason)
  }

  /** The record, if any, that `call` adds after `calls`: a session superseded, ended or cut off. */
  function RecordOf(calls: seq<Call>, call: Call): seq<Session> {
    if !IsOpen(calls) then []
    else
      match call
      case LogSessionStart(_, _, clock) => [Ended(calls, EndNextStart, clock.atEnd)]
      case LogSessionEnd(reason, stamp, clock) =>
        [Ended(calls, reason, if stamp == 0 then clock.atEnd else stamp)]
      case WriteString(clock) => [Ended(calls, EndMetricsDump, clock.atEnd)]
      case _ => []
  }

  /** The records added since the latest dump or reset. */
  function SessionsIn(calls: seq<Call>): seq<Session> {
    if calls == [] then []
    else
      var n := |calls| - 1;
      if calls[n].WriteString? || calls[n].ResetAll? then []
      else SessionsIn(calls[..n]) + RecordOf(calls[..n], calls[n])
  }

  // ----- one more call

  lemma Snoc(calls: seq<Call>, call: Call)
    ensures var more := calls + [call];
            more[|calls|] == call && more[..|calls|] == calls && more[|calls|..] == [call]
    ensures forall i {:trigger (calls + [call])[i..]} :: 0 <= i < |calls| ==>
              (calls + [call])[i..] == calls[i..] + [call]
  {
  }

  lemma A2dpSnoc(calls: seq<Call>, call: Call)
    ensures A2dpIn(calls + [call]) ==
            if call.LogA2dpSession? then A2dpIn(calls) + [call.metrics] else A2dpIn(calls)
  {
    Snoc(calls, call);
    assert A2dpIn(calls) + [] == A2dpIn(calls);
  }

  lemma DeviceSnoc(calls: seq<Call>, call: Call)
    requires calls != []
    ensures DeviceIn(calls + [call]) ==
            if call.LogDeviceInfo? then Some(Device(call.deviceClass, DeviceBrEdr)) else DeviceIn(calls)
  {
    Snoc(calls, call);
  }

  lemma A2dpNone()
    ensures A2dpIn([]) == [] && A2dp.MergeAll([]) == A2dp.UNSET
  {
  }

  /** The logger's fields say about the open session what the calls say. */
  ghost predicate OpenAgrees(h: History, calls: seq<Call>) {
    if IsOpen(calls) then
      var j := Resumption(calls);
      && h.open == Some(OpenSession(calls))
      && h.startTime == StartTime(calls[j])
      && h.a2dp == A2dp.MergeAll(A2dpIn(calls[j..]))
    else
      h.open == None && h.a2dp == A2dp.UNSET
  }

  lemma {:induction false} OpenNext(h: History, calls: seq<Call>, call: Call)
    requires OpenAgrees(h, calls)
    ensures OpenAgrees(Apply(h, call), calls + [call])
  {
    hide A2dp.Merge, DurationSec, OpenSession, Resumption;
    var more := calls + [call];
    Snoc(calls, call);
    if Opens(more) {
      OpenedByCall(h, calls, call);
    } else if IsOpen(more) {
      KeptByCall(h, calls, call);
    }
  }

  lemma OnlyCall(call: Call)
    ensures A2dpIn([call]) == if call.LogA2dpSession? then [call.metrics] else []
    ensures DeviceIn([call]) ==
            if call.LogDeviceInfo? then Some(Device(call.deviceClass, DeviceBrEdr))
            else if call.LogA2dpSession? then Some(Device(COD_MAJOR_AUDIO, DeviceBrEdr))
            else None
  {
    assert [call][..0] == [];
    assert LastDevice([call][..0]) == None;
  }

  lemma MergeOne(m: A2dp.Metrics)
    ensures A2dp.MergeAll([m]) == A2dp.Merge(A2dp.UNSET, m)
  {
    assert [m][..0] == [];
  }

  lemma OpenedByCall(h: History, calls: seq<Call>, call: Call)
    requires OpenAgrees(h, calls) && Opens(calls + [call])
    ensures OpenAgrees(Apply(h, call), calls + [call])
  {
    hide A2dp.Merge, A2dp.MergeAll, DurationSec, DeviceIn, A2dpIn;
    Snoc(calls, call);
    OnlyCall(call);
    A2dpNone();
    if call.LogA2dpSession? {
      MergeOne(call.metrics);
    }
  }

  lemma KeptByCall(h: History, calls: seq<Call>, call: Call)
    requires OpenAgrees(h, calls) && IsOpen(calls + [call]) && !Opens(calls + [call])
    ensures OpenAgrees(Apply(h, call), calls + [call])
  {
    hide A2dp.Merge, A2dp.MergeAll, DurationSec, DeviceIn, A2dpIn;
    Snoc(calls, call);
    OnlyCall(call);
    A2dpNone();
    var i, j := Opening(calls), Resumption(calls);
    DeviceSnoc(calls[i..], call);
    A2dpSnoc(calls[j..], call);
    if call.LogA2dpSession? {
      A2dp.MergeSnoc(A2dpIn(calls[j..]), call.metrics);
    }
  }

  // ----- runs

  /** What the calls add to the records and, at a dump or reset, take away. */
  lemma RecordsNext(h: History, calls: seq<Call>, call: Call)
    requires OpenAgrees(h, calls)
    ensures Apply(h, call).sessions ==
            if call.WriteString? || call.ResetAll? then [] else h.sessions + RecordOf(calls, call)
    ensures call.WriteString? ==> Cutoff(h, call.clock).sessions == h.sessions + RecordOf(calls, call)
  {
    hide A2dp.Merge, A2dp.MergeAll, DurationSec, OpenSession, Resumption, A2dpIn;
    assert h.sessions + [] == h.sessions;
  }

  /** After any calls the session records are those of the sessions superseded, ended or cut off
      since the latest dump or reset, in order, and the open session is as the calls left it. */
  lemma {:induction false} RunKeepsSessions(calls: seq<Call>)
    ensures Run(calls).sessions == SessionsIn(calls)
    ensures OpenAgrees(Run(calls), calls)
  {
    hide Apply, OpenAgrees, RecordOf, IsOpen;
    if calls == [] {
      NothingOpen();
    } else {
      var n := |calls| - 1;
      RunKeepsSessions(calls[..n]);
      RecordsNext(Run(calls[..n]), calls[..n], calls[n]);
      OpenNext(Run(calls[..n]), calls[..n], calls[n]);
      assert calls[..n] + [calls[n]] == calls;
    }
  }

  lemma NothingOpen()
    ensures OpenAgrees(FRESH, [])
  {
  }

  /** A dump at the end of any calls holds the last min(n, capacity) of the n records of each kind
      since the previous dump or reset, oldest first, with n. The dump itself cuts off the open
      session, which adds the last session record. */
  lemma DumpHoldsRecent(calls: seq<Call>, clock: Clock)
    ensures var log, recent := DumpOf(Cutoff(Run(calls), clock)), SinceCleared(calls);
            var sessions := SessionsIn(calls) + RecordOf(calls, WriteString(clock));
            && IsLast(log.sessions, sessions, MAX_SESSIONS) && log.numSessions == |sessions|
            && IsLast(log.pairs, PairsIn(recent), MAX_PAIRS) && log.numPairs == |PairsIn(recent)|
            && IsLast(log.wakes, WakesIn(recent), MAX_WAKES) && log.numWakes == |WakesIn(recent)|
            && IsLast(log.scans, ScansIn(recent), MAX_SCANS) && log.numScans == |ScansIn(recent)|
  {
    hide IsLast, Suffix, RecordOf, SessionsIn, PairsIn, WakesIn, ScansIn, Connections;
    RunKeepsEvents(calls);
    RunKeepsSessions(calls);
    RecordsNext(Run(calls), calls, WriteString(clock));
    var h := Cutoff(Run(calls), clock);
    SuffixIsLast(h.sessions, MAX_SESSIONS);
    SuffixIsLast(h.pairs, MAX_PAIRS);
    SuffixIsLast(h.wakes, MAX_WAKES);
    SuffixIsLast(h.scans, MAX_SCANS);
  }

  // ----- what a session record says

  function ApplyAll(h: History, calls: seq<Call>): History {
    if calls == [] then h else Apply(ApplyAll(h, calls[..|calls| - 1]), calls[|calls| - 1])
  }

  /** A session started and then described by `within`. */
  ghost predicate Describes(h: History, started: History, within: seq<Call>) {
    && started.open.Some?
    && h.sessions == started.sessions && h.startTime == started.startTime
    && h.a2dp == A2dp.MergeAll(A2dpIn(within))
    && h.open == Some(started.open.value.(device := LastDevice(within), a2dp := A2dpOf(within)))
  }

  lemma WithinDescribes(h: History, started: History, within: seq<Call>, call: Call)
    requires Describes(h, started, within) && !IsBoundary(call)
    ensures Describes(Apply(h, call), started, within + [call])
  {
    hide A2dp.Merge, A2dp.MergeAll, DurationSec, A2dpIn;
    Snoc(within, call);
    A2dpSnoc(within, call);
    if call.LogA2dpSession? {
      A2dp.MergeSnoc(A2dpIn(within), call.metrics);
    }
  }

  lemma {:induction false} SessionStaysOpen(started: History, within: seq<Call>)
    requires Describes(started, started, [])
    requires forall i :: 0 <= i < |within| ==> !IsBoundary(within[i])
    ensures Describes(ApplyAll(started, within), started, within)
  {
    hide Apply, Describes;
    if within != [] {
      var n := |within| - 1;
      SessionStaysOpen(started, within[..n]);
      WithinDescribes(ApplyAll(started, within[..n]), started, within[..n], within[n]);
      assert within[..n] + [within[n]] == within;
    }
  }

  lemma StartDescribes(h: History, tech: LinkTech, stamp: int, clock: Clock)
    requires h.open.None? ==> h.a2dp == A2dp.UNSET
    ensures var started := Apply(h, LogSessionStart(tech, stamp, clock));
            Describes(started, started, []) && started.open == Some(Session(tech, None, None, 0, EndUnknown))
  {
    hide DurationSec;
    A2dpNone();
  }

  /** After any calls, starting a session and ending it, with anything but session boundaries in
      between, adds the record of a session that was still open, if any, and one record with the
      technology, the last device named, the merge of the A2DP updates, the reason and the length in
      whole seconds. Each stamp may be 0, which stands for the clock. */
  lemma SessionRecord(calls: seq<Call>, start: Call, within: seq<Call>, end: Call)
    requires start.LogSessionStart? && end.LogSessionEnd?
    requires forall i :: 0 <= i < |within| ==> !IsBoundary(within[i])
    ensures var ended := Apply(ApplyAll(Apply(Run(calls), start), within), end);
            var t1 := if start.startStamp == 0 then start.clock.atStart else start.startStamp;
            var t2 := if end.endStamp == 0 then end.clock.atEnd else end.endStamp;
            var record := Session(start.tech, LastDevice(within), A2dpOf(within), DurationSec(t1, t2), end.reason);
            && ended.sessions == SessionsIn(calls) + RecordOf(calls, start) + [record]
            && ended.open == None
            && (0 <= t1 <= t2 < TWO_64 ==> record.durationSec * 1000 <= t2 - t1 < record.durationSec * 1000 + 1000)
  {
    hide ApplyAll, A2dpOf, A2dp.MergeAll, A2dpIn, LastDevice, SessionsIn, RecordOf, OpenSession, DurationSec;
    var h := Run(calls);
    RunKeepsSessions(calls);
    RecordsNext(h, calls, start);
    StartDescribes(h, start.tech, start.startStamp, start.clock);
    SessionStaysOpen(Apply(h, start), within);
    DurationInSeconds(Effective(start.startStamp, start.clock.atStart), Effective(end.endStamp, end.clock.atEnd));
  }

  lemma DurationInSeconds(start: int, end: int)
    ensures 0 <= start <= end < TWO_64 ==>
              DurationSec(start, end) * 1000 <= end - start < DurationSec(start, end) * 1000 + 1000
  {
  }
}
