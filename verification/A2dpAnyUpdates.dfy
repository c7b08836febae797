/** What A2dpSessionMetrics holds after any updates, whichever of their figures are set. */
module A2dpAnyUpdates {
  import opened A2dpSessionMetrics

  type Field = Metrics -> int

  ghost predicate NoneSet(updates: seq<Metrics>, field: Field) {
    forall u :: u in updates ==> field(u) < 0
  }

  /** `x` is the least of the figures that are set, or -1 when none is. */
  ghost predicate IsLeastSet(x: int, updates: seq<Metrics>, field: Field) {
    if NoneSet(updates, field) then x == -1
    else
      && (exists u :: u in updates && field(u) >= 0 && x == field(u))
      && (forall u :: u in updates && field(u) >= 0 ==> x <= field(u))
  }

  ghost predicate IsGreatestSet(x: int, updates: seq<Metrics>, field: Field) {
    if NoneSet(updates, field) then x == -1
    else
      && (exists u :: u in updates && field(u) >= 0 && x == field(u))
      && (forall u :: u in updates && field(u) >= 0 ==> field(u) <= x)
  }

  function SumSet(updates: seq<Metrics>, field: Field): int {
    if updates == [] then 0
    else
      var n := |updates| - 1;
      SumSet(updates[..n], field) + if field(updates[n]) < 0 then 0 else field(updates[n])
  }

  /** `x` is the sum of the figures that are set, or -1 when none is. */
  ghost predicate IsSumSet(x: int, updates: seq<Metrics>, field: Field) {
    x == if NoneSet(updates, field) then -1 else SumSet(updates, field)
  }

  lemma LeastNext(x: int, updates: seq<Metrics>, u: Metrics, field: Field)
    requires IsLeastSet(x, updates, field)
    ensures var y := field(u);
            IsLeastSet(if y < 0 then x else if x < 0 then y else Min(x, y), updates + [u], field)
  {
    var more := updates + [u];
    assert u in more && forall v :: v in updates ==> v in more;
  }

  lemma GreatestNext(x: int, updates: seq<Metrics>, u: Metrics, field: Field)
    requires IsGreatestSet(x, updates, field)
    ensures IsGreatestSet(if field(u) < 0 then x else Max(x, field(u)), updates + [u], field)
  {
    var more := updates + [u];
    assert u in more && forall v :: v in updates ==> v in more;
  }

  lemma {:induction false} SumOfNone(updates: seq<Metrics>, field: Field)
    ensures SumSet(updates, field) >= 0
    ensures NoneSet(updates, field) ==> SumSet(updates, field) == 0
  {
    if updates != [] {
      SumOfNone(updates[..|updates| - 1], field);
    }
  }

  lemma SumNext(x: int, updates: seq<Metrics>, u: Metrics, field: Field)
    requires IsSumSet(x, updates, field)
    ensures IsSumSet(if field(u) < 0 then x else Max(0, x) + field(u), updates + [u], field)
  {
    var more := updates + [u];
    assert u in more && forall v :: v in updates ==> v in more;
    assert more[..|updates|] == updates;
    SumOfNone(updates, field);
  }

  lemma BuffersKeepTimers(a: Metrics, b: Metrics)
    ensures var m := MergeBuffers(a, b);
            && m.timerMin == a.timerMin && m.timerMax == a.timerMax
            && m.timerAvg == a.timerAvg && m.schedulingCount == a.schedulingCount
  {
    hide CombineRealAverages, Max;
  }

  lemma TimersKeepBuffers(a: Metrics, b: Metrics)
    ensures var m := MergeTimers(a, b);
            && m.overrunsMax == a.overrunsMax && m.overrunsTotal == a.overrunsTotal
            && m.underrunsAvg == a.underrunsAvg && m.underrunsCount == a.underrunsCount
  {
    hide CombineAverages, Max, Min;
  }

  lemma MergeTimerFields(a: Metrics, b: Metrics)
    ensures var m := Merge(a, b);
            && m.timerMin == (if b.timerMin < 0 then a.timerMin
                              else if a.timerMin < 0 then b.timerMin
                              else Min(a.timerMin, b.timerMin))
            && m.timerMax == (if b.timerMax < 0 then a.timerMax else Max(a.timerMax, b.timerMax))
  {
    hide CombineAverages, MergeBuffers, Max, Min;
    BuffersKeepTimers(MergeTimers(a, b), b);
  }

  lemma MergeTotalFields(a: Metrics, b: Metrics)
    ensures var m := Merge(a, b);
            && m.overrunsMax == (if b.overrunsMax < 0 then a.overrunsMax else Max(a.overrunsMax, b.overrunsMax))
            && m.audioDuration ==
               (if b.audioDuration < 0 then a.audioDuration else Max(0, a.audioDuration) + b.audioDuration)
            && m.overrunsTotal ==
               (if b.overrunsTotal < 0 then a.overrunsTotal else Max(0, a.overrunsTotal) + b.overrunsTotal)
  {
    hide CombineRealAverages, MergeTimers, Max;
    TimersKeepBuffers(a, b);
  }

  /** After any updates, complete or not, the extremes are those of the figures that were set and the
      totals are their sums; a figure that no update set is still unset. */
  lemma {:induction false} AnyExtremesAndTotals(updates: seq<Metrics>)
    ensures var m := MergeAll(updates);
            && IsLeastSet(m.timerMin, updates, (u: Metrics) => u.timerMin)
            && IsGreatestSet(m.timerMax, updates, (u: Metrics) => u.timerMax)
            && IsGreatestSet(m.overrunsMax, updates, (u: Metrics) => u.overrunsMax)
            && IsSumSet(m.audioDuration, updates, (u: Metrics) => u.audioDuration)
            && IsSumSet(m.overrunsTotal, updates, (u: Metrics) => u.overrunsTotal)
  {
    hide Merge, Max, Min;
    if updates != [] {
      hide IsLeastSet, IsGreatestSet, IsSumSet;
      var n := |updates| - 1;
      var front, u := updates[..n], updates[n];
      var m := MergeAll(front);
      AnyExtremesAndTotals(front);
      MergeTimerFields(m, u);
      MergeTotalFields(m, u);
      LeastNext(m.timerMin, front, u, (u: Metrics) => u.timerMin);
      GreatestNext(m.timerMax, front, u, (u: Metrics) => u.timerMax);
      GreatestNext(m.overrunsMax, front, u, (u: Metrics) => u.overrunsMax);
      SumNext(m.audioDuration, front, u, (u: Metrics) => u.audioDuration);
      SumNext(m.overrunsTotal, front, u, (u: Metrics) => u.overrunsTotal);
      assert front + [u] == updates;
    }
  }

  // ----- averages

  /** The updates that set both the timer average and its count. */
  function Timed(updates: seq<Metrics>): seq<Metrics> {
    if updates == [] then []
    else
      var n := |updates| - 1;
      Timed(updates[..n]) + if updates[n].timerAvg >= 0 && updates[n].schedulingCount >= 0 then [updates[n]] else []
  }

  /** The updates that set both the underrun average and its count. */
  function Buffered(updates: seq<Metrics>): seq<Metrics> {
    if updates == [] then []
    else
      var n := |updates| - 1;
      Buffered(updates[..n]) +
      if updates[n].underrunsAvg >= 0.0 && updates[n].underrunsCount >= 0 then [updates[n]] else []
  }

  /** What an update does to an average depends on the average and its count alone, and an update that
      does not set both leaves them. */
  lemma TimerOfMerge(a: Metrics, a': Metrics, b: Metrics)
    requires a.timerAvg == a'.timerAvg && a.schedulingCount == a'.schedulingCount
    ensures Merge(a, b).timerAvg == Merge(a', b).timerAvg
    ensures Merge(a, b).schedulingCount == Merge(a', b).schedulingCount
    ensures b.timerAvg < 0 || b.schedulingCount < 0 ==>
              Merge(a, b).timerAvg == a.timerAvg && Merge(a, b).schedulingCount == a.schedulingCount
  {
    hide CombineAverages, MergeBuffers, Max, Min;
    BuffersKeepTimers(MergeTimers(a, b), b);
    BuffersKeepTimers(MergeTimers(a', b), b);
  }

  lemma UnderrunsOfMerge(a: Metrics, a': Metrics, b: Metrics)
    requires a.underrunsAvg == a'.underrunsAvg && a.underrunsCount == a'.underrunsCount
    ensures Merge(a, b).underrunsAvg == Merge(a', b).underrunsAvg
    ensures Merge(a, b).underrunsCount == Merge(a', b).underrunsCount
    ensures b.underrunsAvg < 0.0 || b.underrunsCount < 0 ==>
              Merge(a, b).underrunsAvg == a.underrunsAvg && Merge(a, b).underrunsCount == a.underrunsCount
  {
    hide CombineRealAverages, MergeTimers, Max;
    TimersKeepBuffers(a, b);
    TimersKeepBuffers(a', b);
  }

  /** After any updates the timer average and its count are those of the updates that set both. */
  lemma {:induction false} AnyTimerAverage(updates: seq<Metrics>)
    ensures var m, t := MergeAll(updates), MergeAll(Timed(updates));
            m.timerAvg == t.timerAvg && m.schedulingCount == t.schedulingCount
  {
    hide Merge, MergeAll;
    if updates == [] {
    } else {
      var n := |updates| - 1;
      var front, u := updates[..n], updates[n];
      AnyTimerAverage(front);
      TimerOfMerge(MergeAll(front), MergeAll(Timed(front)), u);
      MergeSnoc(front, u);
      MergeSnoc(Timed(front), u);
      assert front + [u] == updates && Timed(front) + [] == Timed(front);
    }
  }

  /** After any updates the underrun average and its count are those of the updates that set both. */
  lemma {:induction false} AnyUnderrunAverage(updates: seq<Metrics>)
    ensures var m, b := MergeAll(updates), MergeAll(Buffered(updates));
            m.underrunsAvg == b.underrunsAvg && m.underrunsCount == b.underrunsCount
  {
    hide Merge, MergeAll;
    if updates == [] {
    } else {
      var n := |updates| - 1;
      var front, u := updates[..n], updates[n];
      AnyUnderrunAverage(front);
      UnderrunsOfMerge(MergeAll(front), MergeAll(Buffered(front)), u);
      MergeSnoc(front, u);
      MergeSnoc(Buffered(front), u);
      assert front + [u] == updates && Buffered(front) + [] == Buffered(front);
    }
  }
}
