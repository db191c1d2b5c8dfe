/** Speech tracks: sampling one at an instant, and building one from supplied timing. */
module SpeechTracks {
  import opened Basics
  import opened Numbers

  datatype TimingMode = Timed | AudioEnvelope

  datatype SpeechFrame = SpeechFrame(offsetMs: int, mouthOpen: real, visemes: seq<(string, real)>)

  datatype SpeechTrack = SpeechTrack(
    utteranceId: string, mode: TimingMode, durationMs: int, sampleRate: int, frames: seq<SpeechFrame>)

  datatype TrackError =
    | NegativeOffset | MissingUtterance | BadDuration | BadSampleRate | BadOffset | OffsetOutside
    | OffsetNotIncreasing | BadVisemes | BadViseme | BadMouth | NoFrames

  predicate Increasing(frames: seq<SpeechFrame>) {
    forall i, j | 0 <= i < j < |frames| :: frames[i].offsetMs < frames[j].offsetMs
  }

  // ----- sampling -----

  /** The linear-scan reference: the last frame at or before `t`. */
  function LastAtOrBefore(frames: seq<SpeechFrame>, t: int): Option<SpeechFrame> {
    if frames == [] then None
    else if frames[|frames| - 1].offsetMs <= t then Some(frames[|frames| - 1])
    else LastAtOrBefore(frames[..|frames| - 1], t)
  }

  function Closed(t: int): SpeechFrame {
    SpeechFrame(t, 0.0, [])
  }

  /** What a track shows at offset `t`: nothing before its first frame and after its
      duration, the latest frame in between. */
  function SampleAt(track: SpeechTrack, t: int): SpeechFrame {
    if t > track.durationMs || LastAtOrBefore(track.frames, t).None? then Closed(t)
    else LastAtOrBefore(track.frames, t).value
  }

  /** `bisect_right`: where `t` would be inserted behind its equals. */
  method BisectRight(offsets: seq<int>, t: int) returns (at: nat)
    requires forall i, j | 0 <= i < j < |offsets| :: offsets[i] <= offsets[j]
    ensures at <= |offsets|
    ensures forall i | 0 <= i < at :: offsets[i] <= t
    ensures forall i | at <= i < |offsets| :: t < offsets[i]
  {
    var lo, hi := 0, |offsets|;
    while lo < hi
      invariant 0 <= lo <= hi <= |offsets|
      invariant forall i | 0 <= i < lo :: offsets[i] <= t
      invariant forall i | hi <= i < |offsets| :: t < offsets[i]
    {
      var mid := (lo + hi) / 2;
      if t < offsets[mid] { hi := mid; } else { lo := mid + 1; }
    }
    return lo;
  }

  lemma {:induction false} LastByIndex(frames: seq<SpeechFrame>, t: int, at: nat)
    requires at <= |frames|
    requires forall i | at <= i < |frames| :: t < frames[i].offsetMs
    requires at > 0 ==> frames[at - 1].offsetMs <= t
    ensures LastAtOrBefore(frames, t) == if at == 0 then None else Some(frames[at - 1])
  {
    if at < |frames| { LastByIndex(frames[..|frames| - 1], t, at); }
  }

  /** `SpeechTrack.sample`: the binary search refines the linear scan. */
  method Sample(track: SpeechTrack, t: int) returns (r: Result<SpeechFrame, TrackError>)
    requires Increasing(track.frames)
    ensures r == if t < 0 then Err(NegativeOffset) else Ok(SampleAt(track, t))
  {
    if t < 0 { return Err(NegativeOffset); }
    if track.frames == [] || t > track.durationMs { return Ok(Closed(t)); }
    var offsets := seq(|track.frames|, i requires 0 <= i < |track.frames| => track.frames[i].offsetMs);
    var at := BisectRight(offsets, t);
    assert forall i | 0 <= i < |offsets| :: offsets[i] == track.frames[i].offsetMs;
    LastByIndex(track.frames, t, at);
    if at == 0 { return Ok(Closed(t)); }
    return Ok(track.frames[at - 1]);
  }

  lemma EarlierOffsets(init: seq<SpeechFrame>, last: SpeechFrame)
    requires Increasing(init + [last])
    ensures Increasing(init)
    ensures forall f | f in init :: f.offsetMs < last.offsetMs
  {
    var frames := init + [last];
    forall i, j | 0 <= i < j < |init| ensures init[i].offsetMs < init[j].offsetMs {
      assert frames[i].offsetMs < frames[j].offsetMs;
    }
    forall f | f in init ensures f.offsetMs < last.offsetMs {
      var i :| 0 <= i < |init| && init[i] == f;
      assert frames[i].offsetMs < frames[|init|].offsetMs;
    }
  }

  /** The scan in plain words. */
  lemma {:induction false} ScanMeaning(frames: seq<SpeechFrame>, t: int)
    requires Increasing(frames)
    ensures LatestAtOrBefore(frames, t, LastAtOrBefore(frames, t))
  {
    if frames != [] {
      hide LatestAtOrBefore, Increasing;
      var init, last := frames[..|frames| - 1], frames[|frames| - 1];
      assert frames == init + [last];
      EarlierOffsets(init, last);
      ScanMeaning(init, t);
      LatestOfLonger(init, last, t, LastAtOrBefore(init, t));
    }
  }

  /** The frame with the largest offset at or before `t`, or none if all come later. */
  ghost predicate LatestAtOrBefore(frames: seq<SpeechFrame>, t: int, r: Option<SpeechFrame>) {
    && (r.None? <==> forall f | f in frames :: t < f.offsetMs)
    && (r.Some? ==> r.value in frames && r.value.offsetMs <= t
                    && forall f | f in frames && f.offsetMs <= t :: f.offsetMs <= r.value.offsetMs)
  }

  lemma LatestOfLonger(init: seq<SpeechFrame>, last: SpeechFrame, t: int, r: Option<SpeechFrame>)
    requires LatestAtOrBefore(init, t, r)
    requires forall f | f in init :: f.offsetMs < last.offsetMs
    ensures LatestAtOrBefore(init + [last], t, if last.offsetMs <= t then Some(last) else r)
  {
    assert last in init + [last];
  }

  // ----- supplied timing -----

  /** One viseme entry as supplied: the id when it is a string, and its weight. */
  datatype RawViseme = RawViseme(id: Option<string>, weight: Number) | NotAnEntry

  /** `visemes` as supplied. A missing, empty or null value is an empty list. */
  datatype RawVisemes = Entries(entries: seq<RawViseme>) | NotVisemes

  /** A timed frame as supplied: `offset` is None when it does not convert to an
      integer, `mouth` is None when the key is missing. */
  datatype RawFrame = RawFrame(offset: Option<int>, visemes: RawVisemes, mouth: Option<Number>)

  predicate VisemesOk(v: RawVisemes) {
    v.Entries? && forall e | e in v.entries :: e.RawViseme? && e.id.Some? && e.id.value != "" && Unit(e.weight).Some?
  }

  function ParsedVisemes(v: RawVisemes): seq<(string, real)>
    requires VisemesOk(v)
  {
    seq(|v.entries|, i requires 0 <= i < |v.entries| =>
      assert v.entries[i] in v.entries; (v.entries[i].id.value, v.entries[i].weight.value))
  }

  function MaxWeight(visemes: seq<(string, real)>): real {
    if visemes == [] then 0.0 else Max(MaxWeight(visemes[..|visemes| - 1]), visemes[|visemes| - 1].1)
  }

  predicate FrameOk(raw: RawFrame, durationMs: int) {
    && raw.offset.Some? && 0 <= raw.offset.value <= durationMs
    && VisemesOk(raw.visemes)
    && (raw.mouth.Some? ==> Unit(raw.mouth.value).Some?)
  }

  function ParsedFrame(raw: RawFrame, durationMs: int): SpeechFrame
    requires FrameOk(raw, durationMs)
  {
    var visemes := ParsedVisemes(raw.visemes);
    SpeechFrame(raw.offset.value,
                if raw.mouth.Some? then raw.mouth.value.value else MaxWeight(visemes), visemes)
  }

  /** What the supplied frames have to satisfy to become a track. */
  predicate TimingOk(durationMs: int, raws: seq<RawFrame>) {
    && (forall i | 0 <= i < |raws| :: FrameOk(raws[i], durationMs))
    && forall i, j | 0 <= i < j < |raws| :: raws[i].offset.value < raws[j].offset.value
  }

  method ParseVisemes(v: RawVisemes) returns (r: Result<seq<(string, real)>, TrackError>)
    ensures r.Ok? <==> VisemesOk(v)
    ensures r.Ok? ==> r.value == ParsedVisemes(v)
  {
    if v.NotVisemes? || NotAnEntry in v.entries { return Err(BadVisemes); }
    var parsed: seq<(string, real)> := [];
    for i := 0 to |v.entries|
      invariant |parsed| == i
      invariant forall j | 0 <= j < i ::
                  var e := v.entries[j];
                  e.RawViseme? && e.id.Some? && e.id.value != "" && Unit(e.weight).Some? && parsed[j] == (e.id.value, e.weight.value)
    {
      var e := v.entries[i];
      assert e in v.entries;
      if e.id.None? || e.id.value == "" { return Err(BadViseme); }
      var weight := Unit(e.weight);
      if weight.None? { return Err(BadViseme); }
      parsed := parsed + [(e.id.value, weight.value)];
    }
    return Ok(parsed);
  }

  method LargestWeight(visemes: seq<(string, real)>) returns (r: real)
    ensures r == MaxWeight(visemes)
  {
    r := 0.0;
    for i := 0 to |visemes|
      invariant r == MaxWeight(visemes[..i])
    {
      assert visemes[..i + 1][..i] == visemes[..i];
      r := Max(r, visemes[i].1);
    }
    assert visemes[..|visemes|] == visemes;
  }

  /** `timed_track`. */
  method TimedTrack(utteranceId: string, durationMs: int, sampleRate: int, raws: seq<RawFrame>)
    returns (r: Result<SpeechTrack, TrackError>)
    ensures r.Ok? <==> utteranceId != "" && durationMs > 0 && sampleRate > 0 && raws != [] && TimingOk(durationMs, raws)
    ensures r.Ok? ==> r.value == TrackOf(utteranceId, durationMs, sampleRate, raws)
  {
    if utteranceId == "" { return Err(MissingUtterance); }
    if durationMs <= 0 { return Err(BadDuration); }
    if sampleRate <= 0 { return Err(BadSampleRate); }
    var output: seq<SpeechFrame> := [];
    var previous := -1;
    for i := 0 to |raws|
      invariant |output| == i && TimingOk(durationMs, raws[..i])
      invariant previous == if i == 0 then -1 else raws[i - 1].offset.value
      invariant forall j | 0 <= j < i :: output[j] == ParsedFrame(raws[j], durationMs)
    {
      var raw := raws[i];
      if raw.offset.None? { return Err(BadOffset); }
      var offset := raw.offset.value;
      if offset < 0 || offset > durationMs { return Err(OffsetOutside); }
      if offset <= previous { return Err(OffsetNotIncreasing); }
      previous := offset;
      var visemes := ParseVisemes(raw.visemes);
      if visemes.Err? { return Err(visemes.error); }
      var mouth := 0.0;
      if raw.mouth.Some? {
        if Unit(raw.mouth.value).None? { return Err(BadMouth); }
        mouth := raw.mouth.value.value;
      } else {
        mouth := LargestWeight(visemes.value);
      }
      assert forall j | 0 <= j < i :: raws[..i][j] == raws[j];
      output := output + [SpeechFrame(offset, mouth, visemes.value)];
    }
    assert raws[..|raws|] == raws;
    if output == [] { return Err(NoFrames); }
    return Ok(SpeechTrack(utteranceId, Timed, durationMs, sampleRate, output));
  }

  function TrackOf(utteranceId: string, durationMs: int, sampleRate: int, raws: seq<RawFrame>): SpeechTrack
    requires TimingOk(durationMs, raws)
  {
    SpeechTrack(utteranceId, Timed, durationMs, sampleRate,
                seq(|raws|, i requires 0 <= i < |raws| => ParsedFrame(raws[i], durationMs)))
  }

  /** A track every sample of which is within range. */
  predicate TrackOk(track: SpeechTrack) {
    && Increasing(track.frames)
    && forall f | f in track.frames ::
         0 <= f.offsetMs && IsUnit(f.mouthOpen) && forall v | v in f.visemes :: v.0 != "" && IsUnit(v.1)
  }

  lemma {:induction false} MaxWeightIsUnit(visemes: seq<(string, real)>)
    requires forall v | v in visemes :: IsUnit(v.1)
    ensures IsUnit(MaxWeight(visemes))
    ensures forall v | v in visemes :: v.1 <= MaxWeight(visemes)
  {
    if visemes != [] {
      assert visemes == visemes[..|visemes| - 1] + [visemes[|visemes| - 1]];
      MaxWeightIsUnit(visemes[..|visemes| - 1]);
    }
  }

  /** A built track keeps what was supplied: offsets, visemes with their weights, and the
      mouth where it was given; where it was not, the mouth is the largest weight. */
  lemma TrackKeepsTiming(utteranceId: string, durationMs: int, sampleRate: int, raws: seq<RawFrame>, i: nat)
    requires TimingOk(durationMs, raws) && i < |raws|
    ensures var track, raw := TrackOf(utteranceId, durationMs, sampleRate, raws), raws[i];
            && track.utteranceId == utteranceId && track.mode == Timed && track.durationMs == durationMs
            && track.sampleRate == sampleRate && |track.frames| == |raws|
            && var f := track.frames[i];
               && raw.offset == Some(f.offsetMs) && raw.visemes.Entries? && |f.visemes| == |raw.visemes.entries|
               && (forall j | 0 <= j < |f.visemes| ::
                     raw.visemes.entries[j] == RawViseme(Some(f.visemes[j].0), Finite(f.visemes[j].1)))
               && (raw.mouth.Some? ==> raw.mouth.value == Finite(f.mouthOpen))
               && (raw.mouth.None? ==>
                     && (forall v | v in f.visemes :: v.1 <= f.mouthOpen)
                     && (if f.visemes == [] then f.mouthOpen == 0.0 else exists v | v in f.visemes :: v.1 == f.mouthOpen))
  {
    var entries, visemes := raws[i].visemes.entries, ParsedVisemes(raws[i].visemes);
    forall j | 0 <= j < |visemes| ensures IsUnit(visemes[j].1) && entries[j] == RawViseme(Some(visemes[j].0), Finite(visemes[j].1)) {
      assert entries[j] in entries;
    }
    MaxWeightIsUnit(visemes);
    MaxWeightIsOne(visemes);
  }

  lemma {:induction false} MaxWeightIsOne(visemes: seq<(string, real)>)
    requires forall v | v in visemes :: IsUnit(v.1)
    ensures visemes != [] ==> exists v | v in visemes :: v.1 == MaxWeight(visemes)
  {
    if visemes != [] {
      var init, last := visemes[..|visemes| - 1], visemes[|visemes| - 1];
      MaxWeightIsOne(init);
      assert last in visemes && forall v | v in init :: v in visemes;
      MaxWeightIsUnit(init);
    }
  }

  /** Supplied timing only ever makes tracks within range. */
  lemma TimedTrackOk(utteranceId: string, durationMs: int, sampleRate: int, raws: seq<RawFrame>)
    requires TimingOk(durationMs, raws)
    ensures TrackOk(TrackOf(utteranceId, durationMs, sampleRate, raws))
    ensures forall f | f in TrackOf(utteranceId, durationMs, sampleRate, raws).frames :: f.offsetMs <= durationMs
  {
    var track := TrackOf(utteranceId, durationMs, sampleRate, raws);
    forall i | 0 <= i < |raws|
      ensures var f := track.frames[i];
              0 <= f.offsetMs <= durationMs && IsUnit(f.mouthOpen) && forall v | v in f.visemes :: v.0 != "" && IsUnit(v.1)
    {
      var visemes := ParsedVisemes(raws[i].visemes);
      forall v | v in visemes ensures v.0 != "" && IsUnit(v.1) {
        var k :| 0 <= k < |visemes| && visemes[k] == v;
        assert raws[i].visemes.entries[k] in raws[i].visemes.entries;
      }
      MaxWeightIsUnit(visemes);
    }
  }

  lemma SampleOk(track: SpeechTrack, t: int)
    requires TrackOk(track)
    ensures var f := SampleAt(track, t);
            IsUnit(f.mouthOpen) && forall v | v in f.visemes :: v.0 != "" && IsUnit(v.1)
    ensures SampleAt(track, t) == Closed(t) || SampleAt(track, t) in track.frames
  {
    ScanMeaning(track.frames, t);
  }
}
