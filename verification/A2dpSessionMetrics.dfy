/** A2dpSessionMetrics::Update and the averaging it uses (system/common/metrics.cc). Negative values
    mean "not set". The buffer underrun average, a float in the source, is a real here. */
module A2dpSessionMetrics {
  import opened Arithmetic

  datatype Metrics = Metrics(
    audioDuration: int,
    timerMin: int,
    timerMax: int,
    timerAvg: int,
    schedulingCount: int,
    overrunsMax: int,
    overrunsTotal: int,
    underrunsAvg: real,
    underrunsCount: int,
    codecIndex: int,
    offload: bool)

  const UNSET := Metrics(-1, -1, -1, -1, -1, -1, -1, -1.0, -1, -1, false)

  function Max(a: int, b: int): int {
    if a < b then b else a
  }

  function Min(a: int, b: int): int {
    if b < a then b else a
  }

  /** Division of C++, which rounds toward zero. */
  function TruncDiv(a: int, b: int): int
    requires b > 0
  {
    if a >= 0 then a / b else -((-a) / b)
  }

  function CombineAverages(avgA: int, ctA: int, avgB: int, ctB: int): int {
    if ctA > 0 && ctB > 0 then TruncDiv(avgA * ctA + avgB * ctB, ctA + ctB)
    else if ctB > 0 then avgB
    else avgA
  }

  function CombineRealAverages(avgA: real, ctA: int, avgB: real, ctB: int): real {
    if ctA > 0 && ctB > 0 then (avgA * ctA as real + avgB * ctB as real) / (ctA + ctB) as real
    else if ctB > 0 then avgB
    else avgA
  }

  function MergeTimers(a: Metrics, b: Metrics): Metrics {
    var lo := if b.timerMin < 0 then a.timerMin else if a.timerMin < 0 then b.timerMin else Min(a.timerMin, b.timerMin);
    var hi := if b.timerMax < 0 then a.timerMax else Max(a.timerMax, b.timerMax);
    var a1 := a.(timerMin := lo, timerMax := hi);
    if b.timerAvg < 0 || b.schedulingCount < 0 then a1
    else if a.timerAvg < 0 || a.schedulingCount < 0 then
      a1.(timerAvg := b.timerAvg, schedulingCount := b.schedulingCount)
    else
      a1.(timerAvg := CombineAverages(a.timerAvg, a.schedulingCount, b.timerAvg, b.schedulingCount),
          schedulingCount := a.schedulingCount + b.schedulingCount)
  }

  function MergeBuffers(a: Metrics, b: Metrics): Metrics {
    var a1 := a.(
      overrunsMax := if b.overrunsMax < 0 then a.overrunsMax else Max(a.overrunsMax, b.overrunsMax),
      overrunsTotal := if b.overrunsTotal < 0 then a.overrunsTotal else Max(0, a.overrunsTotal) + b.overrunsTotal);
    if b.underrunsAvg < 0.0 || b.underrunsCount < 0 then a1
    else if a.underrunsAvg < 0.0 || a.underrunsCount < 0 then
      a1.(underrunsAvg := b.underrunsAvg, underrunsCount := b.underrunsCount)
    else
      a1.(underrunsAvg := CombineRealAverages(a.underrunsAvg, a.underrunsCount, b.underrunsAvg, b.underrunsCount),
          underrunsCount := a.underrunsCount + b.underrunsCount)
  }

  /** The whole of Update, on values. */
  function Merge(a: Metrics, b: Metrics): Metrics {
    MergeBuffers(MergeTimers(a, b), b).(
      audioDuration := if b.audioDuration < 0 then a.audioDuration else Max(0, a.audioDuration) + b.audioDuration,
      codecIndex := if a.codecIndex < 0 then b.codecIndex else a.codecIndex,
      offload := a.offload || b.offload)
  }

  /** The timer and buffer figures are merged apart from the other fields. */
  lemma MergeIgnores(a: Metrics, b: Metrics, duration: int)
    ensures var m := MergeBuffers(MergeTimers(a, b), b);
            && MergeBuffers(MergeTimers(a.(audioDuration := duration), b), b) == m.(audioDuration := duration)
            && m.codecIndex == a.codecIndex && m.offload == a.offload
  {
    hide MergeTimers, MergeBuffers;
    TimersIgnore(a, b, duration);
    BuffersIgnore(MergeTimers(a, b), b, duration);
  }

  lemma TimersIgnore(a: Metrics, b: Metrics, duration: int)
    ensures var m := MergeTimers(a, b);
            && MergeTimers(a.(audioDuration := duration), b) == m.(audioDuration := duration)
            && m.codecIndex == a.codecIndex && m.offload == a.offload
  {
  }

  lemma BuffersIgnore(a: Metrics, b: Metrics, duration: int)
    ensures var m := MergeBuffers(a, b);
            && MergeBuffers(a.(audioDuration := duration), b) == m.(audioDuration := duration)
            && m.codecIndex == a.codecIndex && m.offload == a.offload
  {
  }

  class SessionMetrics {
    var m: Metrics

    constructor ()
      ensures m == UNSET
    {
      m := UNSET;
    }

    method Update(metrics: Metrics)
      modifies this
      ensures m == Merge(old(m), metrics)
    {
      hide MergeTimers, MergeBuffers;
      if metrics.audioDuration >= 0 {
        m := m.(audioDuration := Max(0, m.audioDuration));
        m := m.(audioDuration := m.audioDuration + metrics.audioDuration);
      }
      MergeIgnores(old(m), metrics, m.audioDuration);
      UpdateTimers(metrics);
      UpdateBuffers(metrics);
      if m.codecIndex < 0 {
        m := m.(codecIndex := metrics.codecIndex);
      }
      if !m.offload {
        m := m.(offload := metrics.offload);
      }
    }

    method UpdateTimers(metrics: Metrics)
      modifies this
      ensures m == MergeTimers(old(m), metrics)
    {
      if metrics.timerMin >= 0 {
        if m.timerMin < 0 {
          m := m.(timerMin := metrics.timerMin);
        } else {
          m := m.(timerMin := Min(m.timerMin, metrics.timerMin));
        }
      }
      if metrics.timerMax >= 0 {
        m := m.(timerMax := Max(m.timerMax, metrics.timerMax));
      }
      if metrics.timerAvg >= 0 && metrics.schedulingCount >= 0 {
        if m.timerAvg < 0 || m.schedulingCount < 0 {
          m := m.(timerAvg := metrics.timerAvg);
          m := m.(schedulingCount := metrics.schedulingCount);
        } else {
          m := m.(timerAvg := CombineAverages(m.timerAvg, m.schedulingCount,
                                              metrics.timerAvg, metrics.schedulingCount));
          m := m.(schedulingCount := m.schedulingCount + metrics.schedulingCount);
        }
      }
    }

    method UpdateBuffers(metrics: Metrics)
      modifies this
      ensures m == MergeBuffers(old(m), metrics)
    {
      if metrics.overrunsMax >= 0 {
        m := m.(overrunsMax := Max(m.overrunsMax, metrics.overrunsMax));
      }
      if metrics.overrunsTotal >= 0 {
        m := m.(overrunsTotal := Max(0, m.overrunsTotal));
        m := m.(overrunsTotal := m.overrunsTotal + metrics.overrunsTotal);
      }
      if metrics.underrunsAvg >= 0.0 && metrics.underrunsCount >= 0 {
        if m.underrunsAvg < 0.0 || m.underrunsCount < 0 {
          m := m.(underrunsAvg := metrics.underrunsAvg);
          m := m.(underrunsCount := metrics.underrunsCount);
        } else {
          m := m.(underrunsAvg := CombineRealAverages(m.underrunsAvg, m.underrunsCount,
                                                      metrics.underrunsAvg, metrics.underrunsCount));
          m := m.(underrunsCount := m.underrunsCount + metrics.underrunsCount);
        }
      }
    }
  }

  // ----- what a sequence of updates amounts to

  function MergeAll(updates: seq<Metrics>): Metrics {
    if updates == [] then UNSET else Merge(MergeAll(updates[..|updates| - 1]), updates[|updates| - 1])
  }

  lemma MergeSnoc(updates: seq<Metrics>, m: Metrics)
    ensures MergeAll(updates + [m]) == Merge(MergeAll(updates), m)
  {
    assert (updates + [m])[..|updates|] == updates;
  }

  /** An update with all its timer figures, in order. */
  predicate Complete(m: Metrics) {
    0 <= m.timerMin <= m.timerAvg <= m.timerMax && 0 <= m.schedulingCount
  }

  ghost predicate AllComplete(updates: seq<Metrics>) {
    forall i :: 0 <= i < |updates| ==> Complete(updates[i])
  }

  function TotalCount(updates: seq<Metrics>): int {
    if updates == [] then 0 else TotalCount(updates[..|updates| - 1]) + updates[|updates| - 1].schedulingCount
  }

  /** The numerator of the true weighted mean. */
  function TotalWeight(updates: seq<Metrics>): int {
    if updates == [] then 0
    else
      var last := updates[|updates| - 1];
      TotalWeight(updates[..|updates| - 1]) + last.timerAvg * last.schedulingCount
  }

  lemma TruncDivBounds(a: int, b: int)
    requires a >= 0 && b > 0
    ensures var q := TruncDiv(a, b);
            0 <= q && q * b <= a <= q * b + (b - 1)
  {
    FloorDiv(a, b);
  }

  /** The combined average lies between the two and loses less than one from their weighted mean. */
  lemma CombineBounds(a: int, ctA: int, b: int, ctB: int)
    requires a >= 0 && b >= 0 && ctA > 0 && ctB > 0
    ensures var c := CombineAverages(a, ctA, b, ctB);
            && Min(a, b) <= c <= Max(a, b)
            && c * (ctA + ctB) <= a * ctA + b * ctB <= c * (ctA + ctB) + (ctA + ctB - 1)
  {
    var s := a * ctA + b * ctB;
    var n := ctA + ctB;
    assert a * ctA >= 0 && b * ctB >= 0;
    TruncDivBounds(s, n);
    var c := CombineAverages(a, ctA, b, ctB);
    WeightedBetween(a, ctA, b, ctB, Min(a, b), Max(a, b));
    MeanBetween(c, n, s, Min(a, b), Max(a, b));
  }

  lemma WeightedBetween(a: int, ctA: int, b: int, ctB: int, lo: int, hi: int)
    requires lo <= a <= hi && lo <= b <= hi && ctA > 0 && ctB > 0
    ensures lo * (ctA + ctB) <= a * ctA + b * ctB <= hi * (ctA + ctB)
  {
    MulMono(lo, a, ctA);
    MulMono(lo, b, ctB);
    MulMono(a, hi, ctA);
    MulMono(b, hi, ctB);
    assert lo * (ctA + ctB) == lo * ctA + lo * ctB;
    assert hi * (ctA + ctB) == hi * ctA + hi * ctB;
  }

  /** An integer quotient of something between lo * n and hi * n is between lo and hi. */
  lemma MeanBetween(c: int, n: int, s: int, lo: int, hi: int)
    requires n > 0 && c * n <= s <= c * n + (n - 1) && lo * n <= s <= hi * n
    ensures lo <= c <= hi
  {
    assert (c + 1) * n == c * n + n && (hi + 1) * n == hi * n + n;
    if c < lo {
      MulMono(c + 1, lo, n);
    }
    if c > hi {
      MulMono(hi + 1, c, n);
    }
  }

  lemma MergeFirst(u: Metrics)
    requires Complete(u)
    ensures var m := Merge(UNSET, u);
            Complete(m) && m.timerMin == u.timerMin && m.timerMax == u.timerMax &&
            m.timerAvg == u.timerAvg && m.schedulingCount == u.schedulingCount
  {
  }

  lemma MergeNext(m: Metrics, u: Metrics)
    requires Complete(m) && Complete(u)
    ensures var r := Merge(m, u);
            && r.timerMin == Min(m.timerMin, u.timerMin) && r.timerMax == Max(m.timerMax, u.timerMax)
            && r.schedulingCount == m.schedulingCount + u.schedulingCount
            && r.timerAvg == CombineAverages(m.timerAvg, m.schedulingCount, u.timerAvg, u.schedulingCount)
  {
  }

  lemma CombineStays(m: Metrics, u: Metrics)
    requires Complete(m) && Complete(u)
    ensures Complete(Merge(m, u))
  {
    hide CombineAverages, Merge;
    MergeNext(m, u);
    if m.schedulingCount > 0 && u.schedulingCount > 0 {
      CombineBounds(m.timerAvg, m.schedulingCount, u.timerAvg, u.schedulingCount);
    } else {
      CombineDegenerate(m.timerAvg, m.schedulingCount, u.timerAvg, u.schedulingCount);
    }
  }

  lemma CombineDegenerate(a: int, ctA: int, b: int, ctB: int)
    requires ctA <= 0 || ctB <= 0
    ensures CombineAverages(a, ctA, b, ctB) == if ctB > 0 then b else a
  {
  }

  /** How far rounding has pushed the stored average below the true weighted mean, scaled by the
      count, after `n` updates. */
  ghost predicate RoundingBounded(avg: int, count: int, weight: int, n: int) {
    && avg * count <= weight
    && (count == 0 ==> weight == 0)
    && (count > 0 ==> weight - avg * count <= (n - 1) * (count - 1))
  }

  lemma RoundingStep(avg: int, count: int, weight: int, n: int, b: int, ctB: int)
    requires n >= 1 && avg >= 0 && b >= 0 && count >= 0 && ctB >= 0
    requires RoundingBounded(avg, count, weight, n)
    ensures RoundingBounded(CombineAverages(avg, count, b, ctB), count + ctB, weight + b * ctB, n + 1)
  {
    if count > 0 && ctB > 0 {
      hide CombineAverages;
      CombineBounds(avg, count, b, ctB);
      MulMono(count - 1, count + ctB - 1, n - 1);
      var c := CombineAverages(avg, count, b, ctB);
      assert weight + b * ctB - c * (count + ctB) <= (count - 1) * (n - 1) + (count + ctB - 1);
      assert (count + ctB - 1) * (n - 1) + (count + ctB - 1) == n * (count + ctB - 1);
    } else if ctB > 0 {
      assert n * (ctB - 1) >= 0;
    } else if count > 0 {
      MulMono(n - 1, n, count - 1);
    }
  }

  /** After any number of complete updates the record is still complete, its count is the sum of the
      counts, and its average is the weighted mean rounded down by less than one per merge. */
  lemma {:induction false} MergedTimers(updates: seq<Metrics>)
    requires updates != [] && AllComplete(updates)
    ensures var m := MergeAll(updates);
            && Complete(m)
            && m.schedulingCount == TotalCount(updates)
            && RoundingBounded(m.timerAvg, m.schedulingCount, TotalWeight(updates), |updates|)
  {
    var n := |updates| - 1;
    var front, u := updates[..n], updates[n];
    assert Complete(u);
    hide Merge, CombineAverages, RoundingBounded;
    if n == 0 {
      assert front == [];
      MergeFirst(u);
      RoundingFirst(u.timerAvg, u.schedulingCount);
      assert TotalWeight(updates) == u.timerAvg * u.schedulingCount;
    } else {
      MergedTimers(front);
      var m := MergeAll(front);
      MergeNext(m, u);
      CombineStays(m, u);
      RoundingStep(m.timerAvg, m.schedulingCount, TotalWeight(front), n, u.timerAvg, u.schedulingCount);
    }
  }

  lemma RoundingFirst(avg: int, count: int)
    ensures count >= 0 ==> RoundingBounded(avg, count, avg * count, 1)
  {
  }

  /** The stored average is at most the true weighted mean, TotalWeight / TotalCount, and below it by
      less than the number of updates. */
  lemma AverageNearMean(updates: seq<Metrics>)
    requires AllComplete(updates) && TotalCount(updates) > 0
    ensures var avg, n, w := MergeAll(updates).timerAvg, TotalCount(updates), TotalWeight(updates);
            avg * n <= w < (avg + |updates|) * n
  {
    hide Merge, MergeAll, TotalWeight, RoundingBounded;
    MergedTimers(updates);
    BelowMeanBy(MergeAll(updates).timerAvg, TotalCount(updates), TotalWeight(updates), |updates|);
  }

  lemma BelowMeanBy(avg: int, n: int, w: int, k: int)
    requires RoundingBounded(avg, n, w, k) && n > 0 && k >= 1
    ensures avg * n <= w < (avg + k) * n
  {
    MulMono(n - 1, n, k - 1);
    assert (avg + k) * n == avg * n + (k - 1) * n + n;
  }

  ghost predicate IsMin(x: int, updates: seq<Metrics>) {
    && (forall i :: 0 <= i < |updates| ==> x <= updates[i].timerMin)
    && exists i :: 0 <= i < |updates| && x == updates[i].timerMin
  }

  ghost predicate IsMax(x: int, updates: seq<Metrics>) {
    && (forall i :: 0 <= i < |updates| ==> updates[i].timerMax <= x)
    && exists i :: 0 <= i < |updates| && x == updates[i].timerMax
  }

  lemma MinNext(x: int, updates: seq<Metrics>, u: Metrics)
    requires IsMin(x, updates)
    ensures IsMin(Min(x, u.timerMin), updates + [u])
  {
    var s := updates + [u];
    var i :| 0 <= i < |updates| && x == updates[i].timerMin;
    assert s[i] == updates[i] && s[|updates|] == u;
  }

  lemma MaxNext(x: int, updates: seq<Metrics>, u: Metrics)
    requires IsMax(x, updates)
    ensures IsMax(Max(x, u.timerMax), updates + [u])
  {
    var s := updates + [u];
    var i :| 0 <= i < |updates| && x == updates[i].timerMax;
    assert s[i] == updates[i] && s[|updates|] == u;
  }

  /** The stored minimum and maximum are those of the updates. */
  lemma {:induction false} MergedExtremes(updates: seq<Metrics>)
    requires updates != [] && AllComplete(updates)
    ensures IsMin(MergeAll(updates).timerMin, updates) && IsMax(MergeAll(updates).timerMax, updates)
  {
    hide Merge, RoundingBounded;
    var n := |updates| - 1;
    var front, u := updates[..n], updates[n];
    if n == 0 {
      assert front == [];
      MergeFirst(u);
    } else {
      MergedTimers(front);
      MergedExtremes(front);
      MergeNext(MergeAll(front), u);
      MinNext(MergeAll(front).timerMin, front, u);
      MaxNext(MergeAll(front).timerMax, front, u);
      assert front + [u] == updates;
    }
  }

  /** An update with all its other figures. */
  predicate Counted(m: Metrics) {
    && 0 <= m.audioDuration && 0 <= m.overrunsTotal && 0 <= m.overrunsMax
    && 0.0 <= m.underrunsAvg && 0 <= m.underrunsCount
  }

  datatype Totals = Totals(duration: int, overruns: int, underruns: int, underrunWeight: real)

  function Sum(updates: seq<Metrics>): Totals {
    if updates == [] then Totals(0, 0, 0, 0.0)
    else Add(Sum(updates[..|updates| - 1]), updates[|updates| - 1])
  }

  ghost predicate Matches(m: Metrics, t: Totals) {
    && Counted(m)
    && m.audioDuration == t.duration && m.overrunsTotal == t.overruns && m.underrunsCount == t.underruns
    && m.underrunsAvg * m.underrunsCount as real == t.underrunWeight
  }

  function Add(t: Totals, u: Metrics): Totals {
    Totals(t.duration + u.audioDuration, t.overruns + u.overrunsTotal, t.underruns + u.underrunsCount,
           t.underrunWeight + u.underrunsAvg * u.underrunsCount as real)
  }

  lemma MatchesFirst(u: Metrics)
    requires Counted(u)
    ensures Matches(Merge(UNSET, u), Add(Totals(0, 0, 0, 0.0), u))
  {
  }

  lemma MatchesNext(m: Metrics, t: Totals, u: Metrics)
    requires Matches(m, t) && Counted(u)
    ensures Matches(Merge(m, u), Add(t, u))
  {
    hide Merge, CombineRealAverages;
    MergeCounted(m, u);
    RealMean(m.underrunsAvg, m.underrunsCount, u.underrunsAvg, u.underrunsCount);
  }

  /** Durations, overruns and underruns add up, and the underrun average, computed without rounding,
      is the exact weighted mean. */
  lemma {:induction false} MergedTotals(updates: seq<Metrics>)
    requires updates != [] && forall i :: 0 <= i < |updates| ==> Counted(updates[i])
    ensures Matches(MergeAll(updates), Sum(updates))
  {
    hide Matches, Merge, Add, Counted;
    var n := |updates| - 1;
    var front, u := updates[..n], updates[n];
    assert Counted(u);
    if n == 0 {
      assert front == [];
      MatchesFirst(u);
    } else {
      MergedTotals(front);
      MatchesNext(MergeAll(front), Sum(front), u);
    }
  }

  lemma MergeCounted(m: Metrics, u: Metrics)
    requires Counted(m) && Counted(u)
    ensures var r := Merge(m, u);
            && r.audioDuration == m.audioDuration + u.audioDuration
            && r.overrunsTotal == m.overrunsTotal + u.overrunsTotal
            && r.overrunsMax == Max(m.overrunsMax, u.overrunsMax)
            && r.underrunsCount == m.underrunsCount + u.underrunsCount
            && r.underrunsAvg == CombineRealAverages(m.underrunsAvg, m.underrunsCount, u.underrunsAvg, u.underrunsCount)
  {
  }

  lemma RealMean(a: real, ctA: int, b: real, ctB: int)
    requires a >= 0.0 && b >= 0.0 && ctA >= 0 && ctB >= 0
    ensures var c := CombineRealAverages(a, ctA, b, ctB);
            c >= 0.0 && c * (ctA + ctB) as real == a * ctA as real + b * ctB as real
  {
    if ctA > 0 && ctB > 0 {
      var s, n := a * ctA as real + b * ctB as real, (ctA + ctB) as real;
      assert a * ctA as real >= 0.0 && b * ctB as real >= 0.0;
      assert s / n * n == s;
    }
  }

  /** The codec is that of the first update that names one, and the session counts as offloaded when
      any update says so. */
  lemma {:induction false} MergedCodecAndOffload(updates: seq<Metrics>, i: nat)
    requires i < |updates| && updates[i].codecIndex >= 0
    requires forall j :: 0 <= j < i ==> updates[j].codecIndex < 0
    ensures MergeAll(updates).codecIndex == updates[i].codecIndex
    ensures MergeAll(updates).offload <==> exists j :: 0 <= j < |updates| && updates[j].offload
  {
    var n := |updates| - 1;
    MergedOffload(updates);
    if i < n {
      MergedCodecAndOffload(updates[..n], i);
    } else {
      CodecStillUnset(updates[..n]);
    }
  }

  lemma {:induction false} MergedOffload(updates: seq<Metrics>)
    ensures MergeAll(updates).offload <==> exists j :: 0 <= j < |updates| && updates[j].offload
  {
    if updates != [] {
      var n := |updates| - 1;
      MergedOffload(updates[..n]);
      if j :| 0 <= j < |updates| && updates[j].offload {
        assert j < n ==> updates[..n][j].offload;
      }
      if j :| 0 <= j < n && updates[..n][j].offload {
        assert updates[j].offload;
      }
    }
  }

  lemma {:induction false} CodecStillUnset(updates: seq<Metrics>)
    requires forall j :: 0 <= j < |updates| ==> updates[j].codecIndex < 0
    ensures MergeAll(updates).codecIndex < 0
  {
    if updates != [] {
      CodecStillUnset(updates[..|updates| - 1]);
    }
  }
}
