/** The mouth-energy track derived from a PCM16 WAV (`wav_envelope_track`): windows, RMS,
    gate and smoothing, with `sqrt` over the reals. */
module WavEnvelope {
  import opened Basics
  import opened Numbers
  import opened SpeechTracks

  /** What the WAV reader returns. */
  datatype Wav = Wav(channels: int, sampleRate: int, sampleWidth: int, frameCount: int, uncompressed: bool, samples: seq<int>)

  /** A response header: absent, not a number, or its value. */
  datatype Header<T> = NoHeader | NotANumber | Declared(value: T)

  datatype EnvelopeError =
    | NoUtterance | EmptyWav | BadFrameLength | InvalidWav | BadGeometry | NotPcm16 | Truncated
    | BadRateHeader | RateDisagrees | BadDurationHeader | DurationDisagrees

  // ----- windows -----

  /** Sample frames per window. */
  function WindowFrames(sampleRate: int, frameMs: int): (n: int)
    requires sampleRate > 0 && frameMs > 0
    ensures n >= 1
  {
    if sampleRate * frameMs / 1000 >= 1 then sampleRate * frameMs / 1000 else 1
  }

  /** The end of the window that starts at `start`. */
  function WindowEnd(start: nat, window: nat, total: nat): nat {
    if start + window <= total then start + window else total
  }

  /** The windows from `start` on. */
  function Windows(samples: seq<int>, start: nat, window: nat, total: nat): seq<seq<int>>
    requires window >= 1 && total <= |samples|
    decreases total - start
  {
    if start >= total then []
    else [samples[start..WindowEnd(start, window, total)]] + Windows(samples, start + window, window, total)
  }

  lemma NextMultiple(i: int, n: int)
    ensures n + (i - 1) * n == i * n
  {
  }

  /** Window `i` holds the samples from `i` windows behind the start on. */
  lemma {:induction false} WindowAt(samples: seq<int>, start: nat, window: nat, total: nat, i: nat)
    requires window >= 1 && total <= |samples| && i < |Windows(samples, start, window, total)|
    ensures 0 <= i * window && start + i * window < total
    ensures Windows(samples, start, window, total)[i] ==
            samples[start + i * window..WindowEnd(start + i * window, window, total)]
    decreases i
  {
    if i > 0 {
      WindowAt(samples, start + window, window, total, i - 1);
      NextMultiple(i, window);
    }
  }

  lemma {:induction false} WindowsReachEnd(samples: seq<int>, start: nat, window: nat, total: nat)
    requires window >= 1 && total <= |samples|
    ensures start + |Windows(samples, start, window, total)| * window >= total
    decreases total - start
  {
    if start < total {
      WindowsReachEnd(samples, start + window, window, total);
      NextMultiple(|Windows(samples, start, window, total)|, window);
    }
  }

  lemma {:induction false} WindowsGlue(samples: seq<int>, start: nat, window: nat, total: nat)
    requires window >= 1 && start <= total <= |samples|
    ensures Flatten(Windows(samples, start, window, total)) == samples[start..total]
    decreases total - start
  {
    if start < total {
      var next := WindowEnd(start, window, total);
      var all, rest := Windows(samples, start, window, total), Windows(samples, start + window, window, total);
      assert all[1..] == rest;
      if start + window <= total { WindowsGlue(samples, start + window, window, total); } else { assert rest == []; }
      assert samples[start..total] == samples[start..next] + samples[next..total];
    }
  }

  /** The windows partition the declared samples: glued together they are exactly those,
      and none is empty. */
  lemma WindowsPartition(samples: seq<int>, window: nat, total: nat)
    requires window >= 1 && total <= |samples|
    ensures var ws := Windows(samples, 0, window, total);
            && Flatten(ws) == samples[..total]
            && (forall w | w in ws :: w != [])
            && |ws| * window >= total
            && (|ws| > 0 ==> (|ws| - 1) * window < total)
  {
    WindowsGlue(samples, 0, window, total);
    assert samples[0..total] == samples[..total];
    WindowsReachEnd(samples, 0, window, total);
    var ws := Windows(samples, 0, window, total);
    forall i | 0 <= i < |ws| ensures ws[i] != [] && i * window < total { WindowAt(samples, 0, window, total, i); }
  }

  // ----- energy -----

  function Energy(chunk: seq<int>): real {
    if chunk == [] then 0.0
    else Energy(chunk[..|chunk| - 1]) + (chunk[|chunk| - 1] as real) * (chunk[|chunk| - 1] as real)
  }

  lemma {:induction false} EnergyIsNonNegative(chunk: seq<int>)
    ensures Energy(chunk) >= 0.0
  {
    if chunk != [] { EnergyIsNonNegative(chunk[..|chunk| - 1]); }
  }

  /** Energy is the sum of squares: that of one sample is its square, and pieces add up. */
  lemma {:induction false} EnergyAdds(a: seq<int>, b: seq<int>, x: int)
    ensures Energy(a + b) == Energy(a) + Energy(b)
    ensures Energy([x]) == x as real * x as real
  {
    assert [x][..0] == [] && Energy([]) == 0.0;
    if b == [] {
      assert a + b == a;
    } else {
      var init, all := b[..|b| - 1], a + b;
      EnergyAdds(a, init, x);
      assert all[..|all| - 1] == a + init && all[|all| - 1] == b[|b| - 1];
    }
  }

  /** The root mean square of a window, without naming the root: its square times the number
      of samples is the energy at full scale one. */
  lemma RmsMeaning(sqrt: real -> real, chunk: seq<int>)
    requires IsSqrt(sqrt) && chunk != []
    ensures var r := Rms(sqrt, chunk); r >= 0.0 && (r * 32768.0) * (r * 32768.0) * |chunk| as real == Energy(chunk)
  {
    hide Energy;
    EnergyIsNonNegative(chunk);
    var n, q := |chunk| as real, Energy(chunk) / |chunk| as real;
    QuotientSign(Energy(chunk), n);
    assert q * n == Energy(chunk);
    var root := sqrt(q);
    assert root >= 0.0 && root * root == q;
    QuotientSign(root, 32768.0);
    assert Rms(sqrt, chunk) * 32768.0 == root;
  }

  function Rms(sqrt: real -> real, chunk: seq<int>): real {
    if chunk == [] then 0.0 else sqrt(Energy(chunk) / (|chunk| as real)) / 32768.0
  }

  function Rmses(sqrt: real -> real, windows: seq<seq<int>>): seq<real> {
    seq(|windows|, i requires 0 <= i < |windows| => Rms(sqrt, windows[i]))
  }

  /** `max(values, default=0.0)`. */
  function Peak(values: seq<real>): real {
    if values == [] then 0.0
    else if |values| == 1 then values[0]
    else Max(Peak(values[..|values| - 1]), values[|values| - 1])
  }

  lemma {:induction false} PeakMeaning(values: seq<real>)
    requires values != []
    ensures Peak(values) in values && forall v | v in values :: v <= Peak(values)
  {
    if |values| > 1 {
      PeakMeaning(values[..|values| - 1]);
      assert values == values[..|values| - 1] + [values[|values| - 1]];
    } else {
      assert values == [values[0]];
    }
  }

  // ----- gate and smoothing -----

  function Relative(value: real, peak: real): real {
    if peak <= 0.0 then 0.0 else Min(1.0, value / peak)
  }

  function Gate(relative: real): real {
    Max(0.0, (relative - 0.05) / 0.95)
  }

  /** The smoothed value after window `n - 1`. */
  function Smoothed(values: seq<real>, peak: real, n: nat): real
    requires n <= |values|
  {
    if n == 0 then 0.0
    else 0.72 * Gate(Relative(values[n - 1], peak)) + 0.28 * Smoothed(values, peak, n - 1)
  }

  predicate NonNegative(values: seq<real>) {
    forall v | v in values :: v >= 0.0
  }

  lemma GateIsUnit(value: real, peak: real)
    requires value >= 0.0
    ensures IsUnit(Gate(Relative(value, peak)))
  {
    if peak > 0.0 { assert value / peak >= 0.0; }
  }

  /** The smoothed value never needs its clamp. */
  lemma {:induction false} SmoothedIsUnit(values: seq<real>, peak: real, n: nat)
    requires n <= |values| && NonNegative(values)
    ensures IsUnit(Smoothed(values, peak, n))
  {
    if n > 0 {
      SmoothedIsUnit(values, peak, n - 1);
      assert values[n - 1] in values;
      GateIsUnit(values[n - 1], peak);
    }
  }

  /** In a window at or below five percent of the peak the mouth closes by factor 0.28. */
  lemma QuietWindowsDecay(values: seq<real>, peak: real, n: nat)
    requires n < |values| && peak > 0.0 && values[n] <= 0.05 * peak
    ensures Smoothed(values, peak, n + 1) == 0.28 * Smoothed(values, peak, n)
  {
    assert values[n] / peak <= 0.05;
  }

  /** Between five and a hundred percent of the peak the gate opens in proportion, and the
      mouth is 0.72 of that and 0.28 of what it was. */
  lemma MiddleWindowsFollow(values: seq<real>, peak: real, n: nat)
    requires n < |values| && peak > 0.0 && 0.05 * peak <= values[n] <= peak
    ensures 0.95 * peak * (Smoothed(values, peak, n + 1) - 0.28 * Smoothed(values, peak, n)) == 0.72 * (values[n] - 0.05 * peak)
  {
    var q := values[n] / peak;
    assert q * peak == values[n];
    QuotientOrder(0.05 * peak, values[n], peak);
    QuotientOrder(values[n], peak, peak);
    QuotientIs(0.05 * peak, peak, 0.05);
    QuotientIs(peak, peak, 1.0);
    var gate := (q - 0.05) / 0.95;
    assert gate * 0.95 == q - 0.05;
    assert Smoothed(values, peak, n + 1) == 0.72 * gate + 0.28 * Smoothed(values, peak, n);
    assert 0.95 * peak * (0.72 * gate) == 0.72 * peak * (q - 0.05);
  }

  /** In the loudest window the mouth opens to at least 0.72. */
  lemma LoudestWindowOpens(values: seq<real>, n: nat)
    requires n < |values| && NonNegative(values) && values[n] == Peak(values) && Peak(values) > 0.0
    ensures Smoothed(values, Peak(values), n + 1) >= 0.72
  {
    SmoothedIsUnit(values, Peak(values), n);
    QuotientIs(values[n], Peak(values), 1.0);
  }

  // ----- the whole adapter -----

  function DurationMs(frameCount: int, sampleRate: int): int
    requires sampleRate > 0
  {
    var d := RoundHalfEven((frameCount * 1000) as real / (sampleRate as real));
    if d >= 1 then d else 1
  }

  predicate GeometryOk(wav: Wav) {
    && wav.channels >= 1 && wav.sampleRate > 0 && wav.frameCount > 0
    && wav.sampleWidth == 2 && wav.uncompressed
    && |wav.samples| >= wav.frameCount * wav.channels
  }

  function WindowsOf(wav: Wav, frameMs: int): seq<seq<int>>
    requires GeometryOk(wav) && frameMs > 0
  {
    Windows(wav.samples, 0, WindowFrames(wav.sampleRate, frameMs) * wav.channels, wav.frameCount * wav.channels)
  }

  lemma WindowsOfPartition(wav: Wav, frameMs: int)
    requires GeometryOk(wav) && frameMs > 0
    ensures Flatten(WindowsOf(wav, frameMs)) == wav.samples[..wav.frameCount * wav.channels]
    ensures forall w | w in WindowsOf(wav, frameMs) :: w != []
    ensures WindowsOf(wav, frameMs) != []
  {
    WindowsPartition(wav.samples, WindowFrames(wav.sampleRate, frameMs) * wav.channels, wav.frameCount * wav.channels);
  }

  /** The frames of the envelope. */
  function EnvelopeFrames(values: seq<real>, frameMs: int): seq<SpeechFrame> {
    seq(|values|, i requires 0 <= i < |values| => SpeechFrame(i * frameMs, Smoothed(values, Peak(values), i + 1), []))
  }

  predicate RateHeaderOk(rate: Header<int>, sampleRate: int) {
    rate.NoHeader? || (rate.Declared? && rate.value == sampleRate)
  }

  predicate DurationHeaderOk(duration: Header<real>, durationMs: int, frameMs: int) {
    duration.NoHeader? ||
    (duration.Declared? &&
     var tolerance := if frameMs * 2 > 80 then frameMs * 2 else 80;
     -tolerance <= RoundHalfEven(duration.value * 1000.0) - durationMs <= tolerance)
  }

  lemma ScaleUp(x: int, y: int, k: int)
    requires k >= 0 && x <= y
    ensures k * x <= k * y
  {
  }

  /** What the window loop needs of its next window. */
  lemma NextWindow(samples: seq<int>, window: nat, total: nat, i: nat)
    requires window >= 1 && total <= |samples|
    ensures var ws := Windows(samples, 0, window, total);
            && (i < |ws| <==> i * window < total)
            && (i < |ws| ==> ws[i] == samples[i * window..WindowEnd(i * window, window, total)])
  {
    var ws := Windows(samples, 0, window, total);
    WindowsPartition(samples, window, total);
    if i < |ws| {
      WindowAt(samples, 0, window, total, i);
    } else {
      ScaleUp(|ws|, i, window);
    }
  }

  method WindowEnergies(sqrt: real -> real, samples: seq<int>, window: nat, total: nat) returns (values: seq<real>)
    requires window >= 1 && 0 < total <= |samples|
    ensures values == Rmses(sqrt, Windows(samples, 0, window, total))
  {
    hide Rms, Windows;
    values := [];
    var start := 0;
    ghost var windows := Windows(samples, 0, window, total);
    while start < total
      invariant start == |values| * window && |values| <= |windows|
      invariant forall i | 0 <= i < |values| :: values[i] == Rms(sqrt, windows[i])
      decreases total - start
    {
      NextWindow(samples, window, total, |values|);
      values := values + [Rms(sqrt, samples[start..WindowEnd(start, window, total)])];
      NextMultiple(|values|, window);
      start := start + window;
    }
    NextWindow(samples, window, total, |values|);
  }

  method Largest(values: seq<real>) returns (peak: real)
    ensures peak == Peak(values)
  {
    if values == [] { return 0.0; }
    peak := values[0];
    assert values[..1] == [values[0]];
    for i := 1 to |values|
      invariant peak == Peak(values[..i])
    {
      assert values[..i + 1][..i] == values[..i];
      peak := Max(peak, values[i]);
    }
    assert values[..|values|] == values;
  }

  method Smooth(values: seq<real>, peak: real, frameMs: int) returns (frames: seq<SpeechFrame>)
    requires peak == Peak(values) && NonNegative(values)
    ensures frames == EnvelopeFrames(values, frameMs)
  {
    frames := [];
    var smoothed := 0.0;
    for i := 0 to |values|
      invariant smoothed == Smoothed(values, peak, i)
      invariant frames == EnvelopeFrames(values, frameMs)[..i]
    {
      var relative := if peak <= 0.0 then 0.0 else Min(1.0, values[i] / peak);
      var gated := Max(0.0, (relative - 0.05) / 0.95);
      smoothed := 0.72 * gated + 0.28 * smoothed;
      SmoothedIsUnit(values, peak, i + 1);
      frames := frames + [SpeechFrame(i * frameMs, Min(1.0, Max(0.0, smoothed)), [])];
    }
  }

  lemma RmsesAreNonNegative(sqrt: real -> real, windows: seq<seq<int>>)
    requires IsSqrt(sqrt)
    ensures NonNegative(Rmses(sqrt, windows))
  {
    forall v | v in Rmses(sqrt, windows) ensures v >= 0.0 {
      var i :| 0 <= i < |windows| && Rmses(sqrt, windows)[i] == v;
      EnergyIsNonNegative(windows[i]);
      if windows[i] != [] { QuotientSign(Energy(windows[i]), |windows[i]| as real); }
    }
  }

  /** `wav_envelope_track`; `wav` is None when the bytes are not a WAV. */
  method EnvelopeTrack(sqrt: real -> real, utteranceId: string, bytesPresent: bool, wav: Option<Wav>,
                       rate: Header<int>, duration: Header<real>, frameMs: int)
    returns (r: Result<SpeechTrack, EnvelopeError>)
    requires IsSqrt(sqrt)
    ensures r.Ok? <==> utteranceId != "" && bytesPresent && 10 <= frameMs <= 100 && wav.Some? && GeometryOk(wav.value)
                       && RateHeaderOk(rate, wav.value.sampleRate)
                       && DurationHeaderOk(duration, DurationMs(wav.value.frameCount, wav.value.sampleRate), frameMs)
    ensures r.Ok? ==> r.value == SpeechTrack(utteranceId, AudioEnvelope,
                                                DurationMs(wav.value.frameCount, wav.value.sampleRate), wav.value.sampleRate,
                                                EnvelopeFrames(Rmses(sqrt, WindowsOf(wav.value, frameMs)), frameMs))
  {
    if utteranceId == "" { return Err(NoUtterance); }
    if !bytesPresent { return Err(EmptyWav); }
    if frameMs < 10 || frameMs > 100 { return Err(BadFrameLength); }
    if wav.None? { return Err(InvalidWav); }
    var w := wav.value;
    if w.channels < 1 || w.sampleRate <= 0 || w.frameCount <= 0 { return Err(BadGeometry); }
    if w.sampleWidth != 2 || !w.uncompressed { return Err(NotPcm16); }
    var expected := w.frameCount * w.channels;
    if |w.samples| < expected { return Err(Truncated); }
    WindowsOfPartition(w, frameMs);
    var values := WindowEnergies(sqrt, w.samples, WindowFrames(w.sampleRate, frameMs) * w.channels, expected);
    RmsesAreNonNegative(sqrt, WindowsOf(w, frameMs));
    var peak := Largest(values);
    var frames := Smooth(values, peak, frameMs);
    var durationMs := DurationMs(w.frameCount, w.sampleRate);
    if rate.NotANumber? { return Err(BadRateHeader); }
    if rate.Declared? && rate.value != w.sampleRate { return Err(RateDisagrees); }
    if duration.NotANumber? { return Err(BadDurationHeader); }
    if !DurationHeaderOk(duration, durationMs, frameMs) { return Err(DurationDisagrees); }
    return Ok(SpeechTrack(utteranceId, AudioEnvelope, durationMs, w.sampleRate, frames));
  }

  // ----- what the track promises -----

  /** Every envelope is a track within range, so sampling it always is. */
  lemma EnvelopeTrackOk(values: seq<real>, frameMs: int, utteranceId: string, durationMs: int, sampleRate: int)
    requires NonNegative(values) && frameMs > 0
    ensures TrackOk(SpeechTrack(utteranceId, AudioEnvelope, durationMs, sampleRate, EnvelopeFrames(values, frameMs)))
  {
    var frames := EnvelopeFrames(values, frameMs);
    forall i | 0 <= i < |frames| ensures IsUnit(frames[i].mouthOpen) && 0 <= frames[i].offsetMs && frames[i].visemes == [] {
      SmoothedIsUnit(values, Peak(values), i + 1);
    }
    forall i, j | 0 <= i < j < |frames| ensures frames[i].offsetMs < frames[j].offsetMs {
      assert (j - i) * frameMs > 0;
    }
  }

  /** Frame by frame: the offset is that of the window, there are no visemes, and the mouth
      follows from the one before: it falls by 0.28 in a quiet window, moves towards how far
      the window is above five percent of the peak otherwise, and stays shut in silence. */
  lemma EnvelopeFollows(values: seq<real>, frameMs: int, i: nat)
    requires NonNegative(values) && i < |values|
    ensures var frames, peak := EnvelopeFrames(values, frameMs), Peak(values);
            var before := if i == 0 then 0.0 else frames[i - 1].mouthOpen;
            && |frames| == |values| && frames[i].offsetMs == i * frameMs && frames[i].visemes == []
            && (values[i] <= 0.05 * peak ==> frames[i].mouthOpen == 0.28 * before)
            && (values[i] >= 0.05 * peak > 0.0 ==>
                  0.95 * peak * (frames[i].mouthOpen - 0.28 * before) == 0.72 * (values[i] - 0.05 * peak))
  {
    hide Peak, Smoothed, Rms;
    var peak := Peak(values);
    if peak <= 0.0 {
      SilenceDecays(values, peak, i);
    } else {
      if values[i] <= 0.05 * peak { QuietWindowsDecay(values, peak, i); }
      if values[i] >= 0.05 * peak {
        PeakMeaning(values);
        assert values[i] in values;
        MiddleWindowsFollow(values, peak, i);
      }
    }
    NothingYet(values, peak);
  }

  lemma SilenceDecays(values: seq<real>, peak: real, n: nat)
    requires n < |values| && peak <= 0.0
    ensures Smoothed(values, peak, n + 1) == 0.28 * Smoothed(values, peak, n)
  {
  }

  lemma NothingYet(values: seq<real>, peak: real)
    ensures Smoothed(values, peak, 0) == 0.0
  {
  }

  /** The duration is the exact one rounded to the nearest millisecond, and at least one. */
  lemma DurationMeaning(frameCount: int, sampleRate: int)
    requires frameCount > 0 && sampleRate > 0
    ensures var d := DurationMs(frameCount, sampleRate);
            && d >= 1 && 2 * (frameCount * 1000 - d * sampleRate) <= sampleRate
            && (d > 1 ==> 2 * (d * sampleRate - frameCount * 1000) <= sampleRate)
  {
    var q := (frameCount * 1000) as real / sampleRate as real;
    assert q * sampleRate as real == (frameCount * 1000) as real;
    var r := RoundHalfEven(q);
    var e := r as real - q;
    assert -0.5 <= e <= 0.5;
    ProductSign(sampleRate as real, e + 0.5);
    ProductSign(sampleRate as real, 0.5 - e);
    assert r as real * sampleRate as real == q * sampleRate as real + sampleRate as real * e;
    ProductAsReal(r, sampleRate);
    if r < 1 { assert (1 - r) * sampleRate >= sampleRate; }
  }

  // ----- scaling -----

  predicate ScaledAt(a: seq<real>, b: seq<real>, c: real, i: nat) {
    i < |a| && i < |b| && b[i] == c * a[i]
  }

  predicate Scaled(a: seq<real>, b: seq<real>, c: real) {
    |a| == |b| && forall i | 0 <= i < |a| :: ScaledAt(a, b, c, i)
  }

  function Reals(samples: seq<int>): seq<real> {
    seq(|samples|, i requires 0 <= i < |samples| => samples[i] as real)
  }

  /** Scaling all samples by one positive factor changes no mouth position. */
  lemma ScalingChangesNothing(sqrt: real -> real, a: Wav, b: Wav, c: real, frameMs: int)
    requires IsSqrt(sqrt) && c > 0.0 && frameMs > 0 && GeometryOk(a) && GeometryOk(b)
    requires b == a.(samples := b.samples) && Scaled(Reals(a.samples), Reals(b.samples), c)
    ensures EnvelopeFrames(Rmses(sqrt, WindowsOf(b, frameMs)), frameMs) == EnvelopeFrames(Rmses(sqrt, WindowsOf(a, frameMs)), frameMs)
  {
    var window, total := WindowFrames(a.sampleRate, frameMs) * a.channels, a.frameCount * a.channels;
    var va, vb := Rmses(sqrt, WindowsOf(a, frameMs)), Rmses(sqrt, WindowsOf(b, frameMs));
    RmsesScale(sqrt, a.samples, b.samples, c, window, total);
    SameEnvelope(va, vb, c, frameMs);
  }

  lemma SameEnvelope(a: seq<real>, b: seq<real>, c: real, frameMs: int)
    requires c > 0.0 && Scaled(a, b, c)
    ensures EnvelopeFrames(b, frameMs) == EnvelopeFrames(a, frameMs)
  {
    ScaledPeak(a, b, c);
    forall n | 0 <= n <= |a| ensures Smoothed(b, Peak(b), n) == Smoothed(a, Peak(a), n) {
      ScaledSmooth(a, b, c, Peak(a), Peak(b), n);
    }
  }

  lemma SubsequenceScales(a: seq<int>, b: seq<int>, c: real, lo: nat, hi: nat)
    requires lo <= hi <= |a| && Scaled(Reals(a), Reals(b), c)
    ensures Scaled(Reals(a[lo..hi]), Reals(b[lo..hi]), c)
  {
    forall i | 0 <= i < hi - lo ensures ScaledAt(Reals(a[lo..hi]), Reals(b[lo..hi]), c, i) {
      assert ScaledAt(Reals(a), Reals(b), c, lo + i);
    }
  }

  lemma SameSlice(a: seq<int>, b: seq<int>, window: nat, total: nat, i: nat) returns (lo: nat, hi: nat)
    requires window >= 1 && total <= |a| && |a| == |b|
    requires i < |Windows(a, 0, window, total)| && i < |Windows(b, 0, window, total)|
    ensures lo < hi <= total
    ensures Windows(a, 0, window, total)[i] == a[lo..hi] && Windows(b, 0, window, total)[i] == b[lo..hi]
  {
    WindowAt(a, 0, window, total, i);
    WindowAt(b, 0, window, total, i);
    lo := i * window;
    hi := WindowEnd(lo, window, total);
  }

  lemma RmsesOfScaled(sqrt: real -> real, wa: seq<seq<int>>, wb: seq<seq<int>>, c: real)
    requires IsSqrt(sqrt) && c > 0.0 && |wa| == |wb|
    requires forall i | 0 <= i < |wa| :: wa[i] != [] && Scaled(Reals(wa[i]), Reals(wb[i]), c)
    ensures Scaled(Rmses(sqrt, wa), Rmses(sqrt, wb), c)
  {
    forall i | 0 <= i < |wa| ensures ScaledAt(Rmses(sqrt, wa), Rmses(sqrt, wb), c, i) {
      RmsScales(sqrt, wa[i], wb[i], c);
    }
  }

  lemma RmsesScale(sqrt: real -> real, a: seq<int>, b: seq<int>, c: real, window: nat, total: nat)
    requires IsSqrt(sqrt) && c > 0.0 && window >= 1 && total <= |a| && Scaled(Reals(a), Reals(b), c)
    ensures Scaled(Rmses(sqrt, Windows(a, 0, window, total)), Rmses(sqrt, Windows(b, 0, window, total)), c)
  {
    SameWindowCount(a, b, 0, window, total);
    var wa, wb := Windows(a, 0, window, total), Windows(b, 0, window, total);
    forall i | 0 <= i < |wa| ensures wa[i] != [] && Scaled(Reals(wa[i]), Reals(wb[i]), c) {
      var lo, hi := SameSlice(a, b, window, total, i);
      SubsequenceScales(a, b, c, lo, hi);
    }
    RmsesOfScaled(sqrt, wa, wb, c);
  }

  lemma {:induction false} SameWindowCount(a: seq<int>, b: seq<int>, start: nat, window: nat, total: nat)
    requires window >= 1 && total <= |a| && total <= |b|
    ensures |Windows(a, start, window, total)| == |Windows(b, start, window, total)|
    decreases total - start
  {
    if start < total { SameWindowCount(a, b, start + window, window, total); }
  }

  lemma {:induction false} EnergyScales(a: seq<int>, b: seq<int>, c: real)
    requires Scaled(Reals(a), Reals(b), c)
    ensures Energy(b) == c * c * Energy(a)
  {
    if a != [] {
      var n := |a| - 1;
      SubsequenceScales(a, b, c, 0, n);
      EnergyScales(a[..n], b[..n], c);
      assert ScaledAt(Reals(a), Reals(b), c, n);
      SquareScales(a[n] as real, b[n] as real, c, Energy(a[..n]));
    }
  }

  lemma SquareScales(x: real, y: real, c: real, rest: real)
    requires y == c * x
    ensures c * c * rest + y * y == c * c * (rest + x * x)
  {
    assert y * y == c * c * (x * x);
  }

  lemma RmsScales(sqrt: real -> real, a: seq<int>, b: seq<int>, c: real)
    requires IsSqrt(sqrt) && c > 0.0 && a != [] && Scaled(Reals(a), Reals(b), c)
    ensures Rms(sqrt, b) == c * Rms(sqrt, a)
  {
    EnergyScales(a, b, c);
    EnergyIsNonNegative(a);
    var n, e := |a| as real, Energy(a);
    QuotientSign(e, n);
    QuotientIs(Energy(b), n, c * c * (e / n));
    EnergyIsNonNegative(b);
    QuotientSign(Energy(b), n);
    SqrtScales(sqrt, c, e / n, Energy(b) / n);
    QuotientIs(sqrt(Energy(b) / n), 32768.0, c * (sqrt(e / n) / 32768.0));
  }

  lemma MaxScales(c: real, x: real, y: real)
    requires c > 0.0
    ensures Max(c * x, c * y) == c * Max(x, y)
  {
    ProductOrder(c, x, y);
    ProductOrder(c, y, x);
  }

  lemma {:induction false} ScaledPeak(a: seq<real>, b: seq<real>, c: real)
    requires c > 0.0 && Scaled(a, b, c)
    ensures Peak(b) == c * Peak(a)
  {
    if a != [] {
      var n := |a| - 1;
      assert ScaledAt(a, b, c, n);
      if n > 0 {
        PrefixScales(a, b, c, n);
        ScaledPeak(a[..n], b[..n], c);
        MaxScales(c, Peak(a[..n]), a[n]);
      }
    }
  }

  lemma PrefixScales(a: seq<real>, b: seq<real>, c: real, n: nat)
    requires n <= |a| && Scaled(a, b, c)
    ensures Scaled(a[..n], b[..n], c)
  {
    forall i | 0 <= i < n ensures ScaledAt(a[..n], b[..n], c, i) { assert ScaledAt(a, b, c, i); }
  }

  lemma {:induction false} ScaledSmooth(a: seq<real>, b: seq<real>, c: real, p: real, q: real, n: nat)
    requires c > 0.0 && Scaled(a, b, c) && n <= |a| && q == c * p
    ensures Smoothed(b, q, n) == Smoothed(a, p, n)
  {
    if n > 0 {
      ScaledSmooth(a, b, c, p, q, n - 1);
      assert ScaledAt(a, b, c, n - 1);
      ProductOrder(c, 0.0, p);
      if p > 0.0 { QuotientIs(b[n - 1], q, a[n - 1] / p); }
    }
  }

  // ----- offsets against true time -----

  /** The last window starts before the end, so its label times the rate stays below the
      whole length when a window is no shorter than its label says. */
  lemma LastLabelTimesRate(per: int, last: int, rate: int, frameMs: int, channels: int, frames: int)
    requires rate * frameMs <= per * 1000 && channels >= 1 && last >= 0
    requires last * (per * channels) < frames * channels
    ensures (last * frameMs) * rate <= frames * 1000
  {
    assert last * (per * channels) == (last * per) * channels;
    ScaleDown(last * per, frames, channels);
    ScaleUp(rate * frameMs, per * 1000, last);
    assert (last * frameMs) * rate == last * (rate * frameMs);
    assert last * (per * 1000) == (last * per) * 1000;
  }

  lemma ScaleDown(x: int, y: int, k: int)
    requires k >= 1 && x * k < y * k
    ensures x < y
  {
    assert (y - x) * k > 0;
  }

  /** The label of the last window. */
  function LastOffset(wav: Wav, frameMs: int): int
    requires GeometryOk(wav) && frameMs > 0
  {
    (|WindowsOf(wav, frameMs)| - 1) * frameMs
  }

  /** When a window is a whole number of sample frames, or a single one for want of a
      whole one, the last offset lies within the duration. */
  lemma LastOffsetWithinDuration(wav: Wav, frameMs: int)
    requires GeometryOk(wav) && frameMs > 0
    requires wav.sampleRate * frameMs < 1000 || wav.sampleRate * frameMs % 1000 == 0
    ensures LastOffset(wav, frameMs) <= DurationMs(wav.frameCount, wav.sampleRate)
  {
    var per, rate, last := WindowFrames(wav.sampleRate, frameMs), wav.sampleRate, |WindowsOf(wav, frameMs)| - 1;
    WindowsOfPartition(wav, frameMs);
    WindowsPartition(wav.samples, per * wav.channels, wav.frameCount * wav.channels);
    LastLabelTimesRate(per, last, rate, frameMs, wav.channels, wav.frameCount);
    OffsetBelowQuotient(last * frameMs, rate, wav.frameCount * 1000);
  }

  lemma OffsetBelowQuotient(offset: int, rate: int, length: int)
    requires rate > 0 && offset * rate <= length
    ensures offset <= RoundHalfEven(length as real / (rate as real))
  {
    var r := rate as real;
    ProductAsReal(offset, rate);
    QuotientIs((offset * rate) as real, r, offset as real);
    QuotientOrder((offset * rate) as real, length as real, r);
    RoundKeepsBounds(length as real / r, offset);
  }

  lemma QuotientBelowOffset(offset: int, rate: int, length: int)
    requires rate > 0 && length <= offset * rate
    ensures RoundHalfEven(length as real / (rate as real)) <= offset
  {
    var r := rate as real;
    ProductAsReal(offset, rate);
    QuotientIs((offset * rate) as real, r, offset as real);
    QuotientOrder(length as real, (offset * rate) as real, r);
    RoundKeepsBounds(length as real / r, offset);
  }

  /** Mono audio that starts one more window after 1000 + rate whole ones. */
  function LongWav(rate: int, frameMs: int): Wav
    requires rate > 0 && frameMs > 0
  {
    var count := (1000 + rate) * WindowFrames(rate, frameMs) + 1;
    Wav(1, rate, 2, count, true, seq(if count < 0 then 0 else count, _ => 0))
  }

  lemma WindowCount(k: int, per: int, n: int)
    requires per >= 1 && n * per >= k * per + 1 && (n - 1) * per < k * per + 1
    ensures n == k + 1
  {
    assert (n - k) * per >= 1 && (n - 1 - k) * per < 1;
    if n - k <= 0 { ScaleUp(n - k, 0, per); }
    if n - 1 - k >= 1 { ScaleUp(1, n - 1 - k, per); }
  }

  /** Every window shorter than its label puts the labels further ahead, by one whole
      millisecond at the latest after 1000 + rate of them. */
  lemma LabelsGetAhead(per: int, rate: int, frameMs: int)
    requires per >= 1 && rate > 0 && per * 1000 + 1 <= rate * frameMs
    ensures ((1000 + rate) * per + 1) * 1000 <= ((1000 + rate) * frameMs - 1) * rate
  {
    ScaleUp(per * 1000 + 1, rate * frameMs, 1000 + rate);
    assert (1000 + rate) * (per * 1000 + 1) == ((1000 + rate) * per) * 1000 + 1000 + rate;
    assert (1000 + rate) * (rate * frameMs) == ((1000 + rate) * frameMs) * rate;
    assert ((1000 + rate) * frameMs - 1) * rate == ((1000 + rate) * frameMs) * rate - rate;
  }

  /** When a window holds whole sample frames but is shorter than its label says, long
      audio outlives its declared duration. */
  lemma LongWavExceeds(rate: int, frameMs: int)
    requires rate > 0 && frameMs > 0 && rate * frameMs >= 1000 && rate * frameMs % 1000 != 0
    ensures var wav := LongWav(rate, frameMs);
            GeometryOk(wav) && LastOffset(wav, frameMs) > DurationMs(wav.frameCount, wav.sampleRate)
  {
    var wav, per, k := LongWav(rate, frameMs), WindowFrames(rate, frameMs), 1000 + rate;
    ScaleUp(1, per, k);
    assert GeometryOk(wav);
    WindowsOfPartition(wav, frameMs);
    WindowsPartition(wav.samples, per, wav.frameCount);
    WindowCount(k, per, |WindowsOf(wav, frameMs)|);
    LabelsGetAhead(per, rate, frameMs);
    ScaleUp(1, frameMs, k);
    QuotientBelowOffset(k * frameMs - 1, rate, wav.frameCount * 1000);
  }

  /** No audio of this rate gets labels beyond its duration. */
  ghost predicate AlwaysWithin(rate: int, frameMs: int)
    requires frameMs > 0
  {
    forall wav | GeometryOk(wav) && wav.sampleRate == rate :: LastOffset(wav, frameMs) <= DurationMs(wav.frameCount, rate)
  }

  /** The last offset never exceeds the duration exactly for the rates at which a window is
      a whole number of sample frames, or shorter than one. */
  lemma LastOffsetExactly(rate: int, frameMs: int)
    requires rate > 0 && frameMs > 0
    ensures AlwaysWithin(rate, frameMs) <==> rate * frameMs < 1000 || rate * frameMs % 1000 == 0
  {
    if rate * frameMs < 1000 || rate * frameMs % 1000 == 0 {
      forall wav | GeometryOk(wav) && wav.sampleRate == rate
        ensures LastOffset(wav, frameMs) <= DurationMs(wav.frameCount, rate)
      {
        LastOffsetWithinDuration(wav, frameMs);
      }
    } else {
      LongWavExceeds(rate, frameMs);
    }
  }

  /** For one, at 11025 Hz and 20 ms the fifteenth window of 3081 sample frames is labelled
      280 ms in a track of 279 ms. */
  lemma LastOffsetCanExceedDuration()
    ensures var wav := Wav(1, 11025, 2, 3081, true, seq(3081, _ => 0));
            && GeometryOk(wav)
            && |WindowsOf(wav, 20)| == 15
            && LastOffset(wav, 20) > DurationMs(wav.frameCount, wav.sampleRate)
  {
    var wav := Wav(1, 11025, 2, 3081, true, seq(3081, _ => 0));
    assert WindowFrames(11025, 20) == 220;
    WindowsPartition(wav.samples, 220, 3081);
    RoundKeepsBounds(3081000.0 / 11025.0 - 0.46, 279);
  }

  /** Offset `i` never lags behind true time, and leads it by less than `i` sample
      frames, once a window holds at least one whole sample frame. */
  lemma OffsetLead(sampleRate: int, frameMs: int, i: nat)
    requires sampleRate > 0 && frameMs > 0 && sampleRate * frameMs >= 1000 && i > 0
    ensures var trueTime := (i * WindowFrames(sampleRate, frameMs) * 1000) as real / (sampleRate as real);
            var lead := (i * frameMs) as real - trueTime;
            0.0 <= lead < (i * 1000) as real / (sampleRate as real)
  {
    var per, r := WindowFrames(sampleRate, frameMs), sampleRate as real;
    WindowShortfall(per, sampleRate, frameMs, i);
    var named, truth := (i * frameMs) * sampleRate, i * per * 1000;
    ProductAsReal(i * frameMs, sampleRate);
    QuotientIs(named as real, r, (i * frameMs) as real);
    QuotientOfDifference(named as real, truth as real, r);
    QuotientSign(named as real - truth as real, r);
    QuotientOrder(named as real - truth as real, (i * 1000) as real, r);
  }

  /** What rounding the window down to whole sample frames costs after `i` windows. */
  lemma WindowShortfall(per: int, rate: int, frameMs: int, i: nat)
    requires per * 1000 <= rate * frameMs < per * 1000 + 1000 && i > 0
    ensures 0 <= (i * frameMs) * rate - i * per * 1000 < i * 1000
  {
    var gap := rate * frameMs - per * 1000;
    assert (i * frameMs) * rate - i * per * 1000 == i * gap;
    assert 0 <= i * gap;
    assert i * (1000 - gap) > 0;
  }
}
