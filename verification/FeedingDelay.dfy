/** Latency and presentation position of an output stream: out_calculate_feeding_delay_ms
    (system/audio_bluetooth_hw/stream_apis.cc) and FrameCount (system/audio_bluetooth_hw/utils.cc).
    What the Bluetooth stack reports is a parameter. 64-bit overflow is not modelled. */
module FeedingDelay {
  import opened Arithmetic

  const MINIMUM_DELAY_MS := 50
  const MAXIMUM_DELAY_MS := 1000
  const EXTRA_AUDIO_SYNC_MS := 200

  /** The answer of GetPresentationPosition. */
  datatype Report = Report(ok: bool, delayNs: nat, absorbedBytes: nat)

  function FrameCount(microseconds: nat, sampleRate: nat): nat {
    microseconds * sampleRate / 1000000
  }

  /** The latency that the stream falls back on. */
  function LegacyDelayMs(framesCount: nat, sampleRate: nat): nat
    requires sampleRate > 0
  {
    framesCount * 1000 / sampleRate + EXTRA_AUDIO_SYNC_MS
  }

  /** A reported delay counts only strictly between the two limits. */
  function DelayMs(report: Report, framesCount: nat, sampleRate: nat): nat
    requires sampleRate > 0
  {
    var ms := report.delayNs / 1000000;
    if report.ok && MINIMUM_DELAY_MS < ms < MAXIMUM_DELAY_MS then ms else LegacyDelayMs(framesCount, sampleRate)
  }

  function LatencyFrames(delayMs: nat, sampleRate: nat): nat {
    delayMs * sampleRate / 1000
  }

  /** `q` is `a` divided by `b`, rounded down. */
  predicate IsQuotient(q: nat, a: nat, b: nat) {
    q * b <= a < q * b + b
  }

  /** The latency is the reported delay in whole milliseconds when the report is good and strictly
      between the limits, and else that of the buffer plus the extra delay. With `latency` the frames
      it stands for, the position always lies between the frames presented less twice and once the
      latency, whatever the stack reports; it comes from the stack's counter when that is at most the
      frames presented and at most the latency behind them, and from our own counter otherwise. */
  method CalculateFeedingDelay(presented: nat, framesCount: nat, sampleRate: nat, frameSize: nat, report: Report)
    returns (latencyMs: nat, frames: nat)
    requires sampleRate > 0 && frameSize > 0
    ensures latencyMs == DelayMs(report, framesCount, sampleRate)
    ensures if report.ok && (MINIMUM_DELAY_MS + 1) * 1000000 <= report.delayNs < MAXIMUM_DELAY_MS * 1000000
            then IsQuotient(latencyMs, report.delayNs, 1000000)
            else latencyMs >= EXTRA_AUDIO_SYNC_MS &&
                 IsQuotient(latencyMs - EXTRA_AUDIO_SYNC_MS, framesCount * 1000, sampleRate)
    ensures var latency, absorbed := LatencyFrames(latencyMs, sampleRate), report.absorbedBytes / frameSize;
            && IsQuotient(latency, latencyMs * sampleRate, 1000)
            && IsQuotient(absorbed, report.absorbedBytes, frameSize)
            && presented - 2 * latency <= frames && (frames == 0 || frames <= presented - latency)
            && var counted := if absorbed <= presented <= absorbed + latency then absorbed else presented;
               frames == if counted > latency then counted - latency else 0
  {
    hide DelayMs;
    latencyMs := Latency(framesCount, sampleRate, report);
    var latency := latencyMs * sampleRate / 1000;
    frames := Position(presented, latency, frameSize, report.absorbedBytes);
  }

  /** The part that determines the latency. */
  method Latency(framesCount: nat, sampleRate: nat, report: Report) returns (latencyMs: nat)
    requires sampleRate > 0
    ensures latencyMs == DelayMs(report, framesCount, sampleRate)
    ensures if report.ok && (MINIMUM_DELAY_MS + 1) * 1000000 <= report.delayNs < MAXIMUM_DELAY_MS * 1000000
            then IsQuotient(latencyMs, report.delayNs, 1000000)
            else latencyMs >= EXTRA_AUDIO_SYNC_MS &&
                 IsQuotient(latencyMs - EXTRA_AUDIO_SYNC_MS, framesCount * 1000, sampleRate)
  {
    var fetched := false;
    latencyMs := 0;
    if report.ok {
      latencyMs := report.delayNs / 1000000;
      if latencyMs > MINIMUM_DELAY_MS && latencyMs < MAXIMUM_DELAY_MS {
        fetched := true;
      }
    }
    if !fetched {
      FloorDiv(framesCount * 1000, sampleRate);
      latencyMs := framesCount * 1000 / sampleRate + EXTRA_AUDIO_SYNC_MS;
    }
  }

  /** The part that turns the latency into a position. */
  method Position(presented: nat, latency: nat, frameSize: nat, absorbedBytes: nat) returns (frames: nat)
    requires frameSize > 0
    ensures IsQuotient(absorbedBytes / frameSize, absorbedBytes, frameSize)
    ensures presented - 2 * latency <= frames && (frames == 0 || frames <= presented - latency)
    ensures var absorbed := absorbedBytes / frameSize;
            var counted := if absorbed <= presented <= absorbed + latency then absorbed else presented;
            frames == if counted > latency then counted - latency else 0
  {
    FloorDiv(absorbedBytes, frameSize);
    frames := absorbedBytes / frameSize;
    if presented < frames {
      frames := presented;
    } else if presented - frames > latency {
      frames := presented;
    }
    if frames > latency {
      frames := frames - latency;
    } else {
      frames := 0;
    }
  }

  // ----- the fallback latency through two truncations

  /** Rounding an interval down to whole frames and those back to milliseconds never overstates it
      and understates it by at most 1 + 998 / rate milliseconds. */
  lemma RoundTripMs(us: nat, rate: nat)
    requires rate > 0
    ensures var r := FrameCount(us, rate) * 1000 / rate;
            us / 1000 - 1 - 998 / rate <= r <= us / 1000
  {
    var fc := FrameCount(us, rate);
    var r, u := fc * 1000 / rate, us / 1000;
    FloorDiv(us * rate, 1000000);
    FloorDiv(fc * 1000, rate);
    FloorDiv(us, 1000);
    Upper(us, rate, fc, r);
    Lower(us, rate, fc, r, u);
  }

  lemma Upper(us: int, rate: int, fc: int, r: int)
    requires rate > 0 && fc * 1000000 <= us * rate && r * rate <= fc * 1000
    ensures r <= us / 1000
  {
    assert (r * 1000) * rate <= us * rate by {
      assert (r * 1000) * rate == (r * rate) * 1000;
    }
    MulCancel(r * 1000, us, rate);
  }

  lemma Lower(us: int, rate: int, fc: int, r: int, u: int)
    requires rate > 0 && us * rate < fc * 1000000 + 1000000 && fc * 1000 < r * rate + rate && u * 1000 <= us
    ensures u - 1 - 998 / rate <= r
  {
    MulMono(u * 1000, us, rate);
    assert (u * 1000) * rate == (u * rate) * 1000;
    LowerLinear(u * rate, r * rate, us * rate, fc, rate);
    assert (u - r - 1) * rate == u * rate - r * rate - rate;
    DivBound(u - r - 1, rate, 998);
  }

  lemma LowerLinear(x: int, y: int, w: int, fc: int, rate: int)
    requires x * 1000 <= w < fc * 1000000 + 1000000 && fc * 1000 < y + rate
    ensures x - y - rate <= 998
  {
  }

  lemma DivBound(k: int, rate: int, n: int)
    requires rate > 0 && k * rate <= n
    ensures k <= n / rate
  {
    var q := n / rate;
    FloorDiv(n, rate);
    assert (q + 1) * rate == q * rate + rate;
    if k > q {
      MulMono(q + 1, k, rate);
    }
  }

  /** For sample rates from 1000 Hz, unchanged since the stream was opened with this interval, the
      fallback latency is the interval in whole milliseconds plus 200, or one millisecond less. */
  lemma LegacyDelayNearInterval(us: nat, rate: nat)
    requires rate >= 1000
    ensures var ms := LegacyDelayMs(FrameCount(us, rate), rate);
            ms == us / 1000 + EXTRA_AUDIO_SYNC_MS || ms == us / 1000 + EXTRA_AUDIO_SYNC_MS - 1
  {
    RoundTripMs(us, rate);
    DivSmall(rate);
  }

  lemma DivSmall(rate: int)
    requires rate >= 1000
    ensures 998 / rate == 0
  {
    FloorDiv(998, rate);
    if 998 / rate > 0 {
      MulMono(1, 998 / rate, rate);
    }
    if 998 / rate < 0 {
      MulMono(998 / rate, -1, rate);
    }
  }

  /** Both values occur: 10 ms at 44100 Hz is exact, 10 ms at 22050 Hz loses one. */
  lemma LegacyDelayBothOccur()
    ensures LegacyDelayMs(FrameCount(10000, 44100), 44100) == 210
    ensures LegacyDelayMs(FrameCount(10000, 22050), 22050) == 209
  {
  }
}
