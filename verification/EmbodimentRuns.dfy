/** The runtime, the scheduler and the wire format together: a cancelled utterance never
    sounds again, and which rendered frames fit the wire. */
module EmbodimentRuns {
  import opened Basics
  import opened Numbers
  import opened Runtime
  import opened RuntimeHistory
  import opened SpeechTracks
  import opened Scheduler
  import opened RenderWire
  import FaceMixer
  import BodyMotion

  // ----- cancelled speech -----

  /** Once the runtime has cancelled an utterance, no frame rendered from any later
      snapshot depends on that utterance's track, even if the scheduler was never told:
      replacing or dropping the track changes no frame. */
  lemma CancelledNeverSounds(o: Outside, c: Config, m: Machine, h: seq<Event>, i: nat, n: nat, u: string,
                             tracks: Attached, other: Attached, cancelled: set<string>, t: int)
    requires ConfigOk(c) && InRange(m) && i <= n <= |h| && u in After(m, h, i).cancelled
    requires tracks - {u} == other - {u}
    ensures Rendered(o, c, tracks, cancelled, After(m, h, n).snapshot, t) ==
            Rendered(o, c, other, cancelled, After(m, h, n).snapshot, t)
  {
    EveryRunInRange(m, h, i, n);
    var s := After(m, h, n).snapshot;
    if s.active.Some? {
      var id := s.active.value;
      assert id != u;
      assert id in tracks <==> id in tracks - {u};
      assert id in other <==> id in other - {u};
      if id in tracks { assert tracks[id] == (tracks - {u})[id] == (other - {u})[id]; }
    }
    assert MouthAt(tracks, cancelled, s, t) == MouthAt(other, cancelled, s, t);
  }

  /** The snapshot's active utterance has an attached track that has begun. */
  predicate Sounding(tracks: Attached, cancelled: set<string>, s: Snapshot, t: int) {
    && s.state.Speaking? && s.active.Some? && s.active.value != ""
    && s.active.value in tracks && s.active.value !in cancelled && t >= tracks[s.active.value].1
  }

  /** What the mouth does `elapsed` milliseconds into a track: closed when no frame has come
      or the track is over, else the frame with the largest offset so far. */
  ghost predicate MouthOfTrack(track: SpeechTrack, elapsed: int, mouth: Mouth) {
    if elapsed > track.durationMs || forall f | f in track.frames :: elapsed < f.offsetMs
    then mouth.open == 0.0 && mouth.visemes == []
    else exists f | f in track.frames ::
           && f.offsetMs <= elapsed && mouth.open == f.mouthOpen && mouth.visemes == f.visemes
           && forall g | g in track.frames && g.offsetMs <= elapsed :: g.offsetMs <= f.offsetMs
  }

  /** The mouth is shut exactly while nothing sounds. Otherwise it is the latest frame of
      the active track at or before the elapsed time, closed before the first frame and
      after the duration. */
  lemma MouthFollowsTrack(tracks: Attached, cancelled: set<string>, s: Snapshot, t: int)
    requires forall id | id in tracks :: Increasing(tracks[id].0.frames)
    ensures var mouth := MouthAt(tracks, cancelled, s, t);
            && (mouth == SHUT <==> !Sounding(tracks, cancelled, s, t))
            && (Sounding(tracks, cancelled, s, t) ==>
                  var (track, start) := tracks[s.active.value];
                  mouth.mode == Some(track.mode) && MouthOfTrack(track, t - start, mouth))
  {
    if Sounding(tracks, cancelled, s, t) {
      var (track, start) := tracks[s.active.value];
      ScanMeaning(track.frames, t - start);
    }
  }

  // ----- what a frame repeats and what it follows -----

  /** A frame repeats the snapshot's fields, the mouth of the instant and what the profiles
      fix. */
  lemma FrameRepeats(o: Outside, c: Config, tracks: Attached, cancelled: set<string>, s: Snapshot, t: int)
    requires ConfigOk(c) && Rendered(o, c, tracks, cancelled, s, t).Ok?
    ensures var f, mouth := Rendered(o, c, tracks, cancelled, s, t).value, MouthAt(tracks, cancelled, s, t);
            && f.timestampMs == t && f.state == s.state && f.gesture == s.gesture && f.gazeTarget == s.gaze
            && f.emotion == s.emotion && f.emotionIntensity == s.emotionIntensity && f.energy == s.energy
            && f.mouthOpen == mouth.open && f.visemes == mouth.visemes && f.timingMode == mouth.mode
            && f.faceProfileId == (if c.face.Some? then c.face.value.profileId else None)
            && f.gazeStrength == GazeStrength(c, s, t)
            && (c.body.None? ==>
                  && f.headYaw == Yaw(o, c, s, t) && f.headPitch == Pitch(o, c, s, t) && f.breath == Breath(o, c, t)
                  && f.bodyProfileId == None && f.headScale == 1.0 && f.microScale == 1.0 && f.lean == 0.0)
            && (c.body.Some? ==>
                  var b := c.body.value;
                  && f.headYaw == Yaw(o, c, s, t) * b.headScale && f.headPitch == Pitch(o, c, s, t) * b.headScale
                  && f.breath == Calm(Breath(o, c, t), b.microScale)
                  && f.bodyProfileId == b.profileId && f.headScale == b.headScale && f.microScale == b.microScale
                  && f.lean == b.lean && f.dominantSide == b.dominantSide && f.frequency == b.frequency)
  {
    hide MouthAt, GazeStrength, Yaw, Pitch, Breath, Calm, FaceMixer.Channels, BodyMotion.Resolve;
  }

  /** The frame shows the eye that is further closed, and the face under its channels. */
  lemma FrameShowsTheFace(o: Outside, c: Config, tracks: Attached, cancelled: set<string>, s: Snapshot, t: int)
    requires ConfigOk(c) && c.face.Some? && Rendered(o, c, tracks, cancelled, s, t).Ok?
    ensures var f := Rendered(o, c, tracks, cancelled, s, t).value;
            var channels := FaceMixer.Channels(c.face.value, s, o.fold(s.emotion), t, MouthAt(tracks, cancelled, s, t).open);
            && |f.faceChannels| == |f.faceSources| == |channels| == 7
            && (forall i | 0 <= i < 7 ::
                  && f.faceChannels[i] == (channels[i].name, channels[i].value)
                  && f.faceSources[i] == (channels[i].name, channels[i].source))
            && f.blink >= channels[0].value && f.blink >= channels[1].value
            && f.blink in {channels[0].value, channels[1].value}
  {
    hide MouthAt, GazeStrength, Yaw, Pitch, Breath, Calm, BodyMotion.Resolve, FaceMixer.Eye, FaceMixer.Personalize;
  }

  /** How far a wave has turned at an instant: once round every `seconds`, from its phase. */
  function Turns(o: Outside, t: int, seconds: real, phase: real): real
    requires seconds > 0.0
  {
    2.0 * o.pi * (t as real / 1000.0 / seconds) + 2.0 * o.pi * phase
  }

  lemma AngleTurns(o: Outside, t: int, seconds: real, phase: real)
    requires seconds > 0.0
    ensures Angle(o, t, seconds, phase) == Turns(o, t, seconds, phase)
  {
    var a, b := t as real / 1000.0 / seconds, 2.0 * o.pi;
    assert b * (a + phase) == b * a + b * phase;
  }

  function Liveliness(s: Snapshot): real {
    StateScale(s.state) * (0.55 + 0.9 * s.energy)
  }

  /** Head sway is that of an idle body at half energy times how lively the snapshot is: the
      more energy, the more sway, and the states from error up to idle in that order. At half
      energy an idle head sways by the two waves alone. */
  lemma SwayFollows(o: Outside, c: Config, s: Snapshot, t: int)
    ensures var calm := s.(state := Idle, energy := 0.5);
            && Yaw(o, c, s, t) == Yaw(o, c, calm, t) * Liveliness(s)
            && Pitch(o, c, s, t) == Pitch(o, c, calm, t) * Liveliness(s)
            && Yaw(o, c, calm, t) == 0.05 * o.sin(Turns(o, t, 6.7, c.phaseB))
            && Pitch(o, c, calm, t) == 0.035 * o.sin(Turns(o, t, 5.1, c.phaseA * 0.7))
    ensures 0.0 < StateScale(BodyState.Error) < StateScale(Interrupted) < StateScale(Speaking) < StateScale(Listening)
              < StateScale(WaitingForTool) < StateScale(Thinking) < StateScale(Idle) == 1.0
    ensures forall e: real | e > s.energy :: Liveliness(s.(energy := e)) > Liveliness(s)
  {
    hide Angle, Turns;
    AngleTurns(o, t, 6.7, c.phaseB);
    AngleTurns(o, t, 5.1, c.phaseA * 0.7);
    SwayScales(0.05, StateScale(s.state), s.energy, o.sin(Angle(o, t, 6.7, c.phaseB)));
    SwayScales(0.035, StateScale(s.state), s.energy, o.sin(Angle(o, t, 5.1, c.phaseA * 0.7)));
    assert StateScale(s.state) > 0.0;
    forall e: real | e > s.energy ensures Liveliness(s.(energy := e)) > Liveliness(s) {
      ProductOrder(StateScale(s.state), 0.55 + 0.9 * s.energy, 0.55 + 0.9 * e);
    }
  }

  lemma SwayScales(amplitude: real, scale: real, energy: real, wave: real)
    ensures Sway(amplitude, scale, energy, wave) == amplitude * wave * (scale * (0.55 + 0.9 * energy))
    ensures Sway(amplitude, 1.0, 0.5, wave) == amplitude * wave
  {
    var g := 0.55 + 0.9 * energy;
    assert amplitude * scale * g * wave == amplitude * wave * (scale * g);
  }

  /** Gaze is off without a target or with the target "none"; on any other target it is 0.9,
      but for 360 of every 7100 milliseconds, in which it rises from 0.35. */
  lemma GazeFollows(c: Config, s: Snapshot, t: int)
    ensures var g, cycle := GazeStrength(c, s, t), (t + (c.phaseB * 7100.0).Floor) % 7100;
            if s.gaze == None || s.gaze == Some("none") then g == 0.0
            else (cycle >= 360 ==> g == 0.9) && (cycle < 360 ==> 0.35 <= g < 0.9 && (g - 0.35) * 360.0 == 0.55 * cycle as real)
  {
    var cycle := (t + (c.phaseB * 7100.0).Floor) % 7100;
    if cycle < 360 {
      var q := cycle as real / 360.0;
      assert q * 360.0 == cycle as real;
      QuotientSign(cycle as real, 360.0);
      QuotientOrder(cycle as real, 360.0, 360.0);
      QuotientIs(360.0, 360.0, 1.0);
    }
  }

  // ----- ranges of the procedural hints -----

  lemma ProductRange(a: real, x: real, bound: real)
    requires 0.0 <= a <= bound && -1.0 <= x <= 1.0
    ensures -bound <= a * x <= bound
  {
    ProductSign(a, 1.0 - x);
    ProductSign(a, 1.0 + x);
    assert a * (1.0 - x) == a - a * x && a * (1.0 + x) == a + a * x;
  }

  lemma SwayRange(scale: real, energy: real, amplitude: real, x: real)
    requires 0.15 <= scale <= 1.0 && IsUnit(energy) && 0.0 <= amplitude <= 0.05 && -1.0 <= x <= 1.0
    ensures -0.0725 <= Sway(amplitude, scale, energy, x) <= 0.0725
  {
    var k, gain := amplitude * scale, 0.55 + 0.9 * energy;
    ProductSign(amplitude, scale);
    ProductRange(amplitude, scale, 0.05);
    ProductSign(k, gain);
    ProductSign(0.05 - k, gain);
    assert (0.05 - k) * gain == 0.05 * gain - k * gain;
    ProductRange(k * gain, x, 0.0725);
  }

  lemma CalmIsUnit(breath: real, scale: real)
    ensures IsUnit(Calm(breath, scale))
  {
  }

  lemma GazeIsUnit(c: Config, s: Snapshot, t: int)
    ensures IsUnit(GazeStrength(c, s, t))
  {
    var cycle := (t + (c.phaseB * 7100.0).Floor) % 7100;
    if cycle < 360 {
      QuotientSign(cycle as real, 360.0);
      QuotientOrder(cycle as real, 360.0, 360.0);
      QuotientIs(360.0, 360.0, 1.0);
    }
  }

  lemma PlainBlinkIsUnit(phase: real, period: int, t: int)
    requires period > 0
    ensures IsUnit(FaceMixer.PlainBlink(phase, period, t))
  {
  }

  lemma ScaledHintRange(x: real, scale: real)
    requires -0.0725 <= x <= 0.0725 && 0.55 <= scale <= 1.45
    ensures -1.0 <= x * scale <= 1.0
  {
    ProductRange(scale, x / 0.0725, 1.45);
    assert x * scale == (scale * (x / 0.0725)) * 0.0725;
  }

  // ----- which frames fit the wire -----

  /** The snapshot's strings are within the wire limits. */
  predicate SnapshotFits(s: Snapshot) {
    && |s.emotion| <= 160
    && (s.gesture.Some? ==> |s.gesture.value| <= 160)
    && (s.gaze.Some? ==> |s.gaze.value| <= 160)
  }

  /** The profiles' ids are wire-legal and the observed gesture frequency is at most 600. */
  predicate ConfigFits(c: Config) {
    && (c.face.Some? ==> OptionalOk(c.face.value.profileId, IsId))
    && (c.body.Some? ==> OptionalOk(c.body.value.profileId, IsId)
                         && (c.body.value.frequency.Some? ==> Within(c.body.value.frequency.value, 0.0, 600.0)))
  }

  /** The sounding visemes are at most 32, with distinct wire-legal ids. */
  predicate VisemesFit(visemes: seq<(string, real)>) {
    && |visemes| <= 32
    && (forall i | 0 <= i < |visemes| :: IsId(visemes[i].0))
    && forall i, k | 0 <= i < k < |visemes| :: visemes[i].0 != visemes[k].0
  }

  /** Extracted gesture ids, as the fingerprint makes them. */
  predicate GestureIdsOk(c: Config) {
    c.body.Some? ==> forall id | id in c.body.value.gestures :: |id| == 24
  }

  lemma MouthRange(tracks: Attached, cancelled: set<string>, s: Snapshot, t: int)
    requires forall id | id in tracks :: TrackOk(tracks[id].0)
    ensures var mouth := MouthAt(tracks, cancelled, s, t);
            IsUnit(mouth.open) && forall v | v in mouth.visemes :: IsUnit(v.1)
  {
    if MouthAt(tracks, cancelled, s, t) != SHUT {
      var (track, start) := tracks[s.active.value];
      SampleOk(track, t - start);
    }
  }

  lemma YawRange(o: Outside, c: Config, s: Snapshot, t: int)
    requires OutsideOk(o) && SnapshotOk(s)
    ensures -0.0725 <= Yaw(o, c, s, t) <= 0.0725
  {
    SwayRange(StateScale(s.state), s.energy, 0.05, o.sin(Angle(o, t, 6.7, c.phaseB)));
  }

  lemma PitchRange(o: Outside, c: Config, s: Snapshot, t: int)
    requires OutsideOk(o) && SnapshotOk(s)
    ensures -0.0725 <= Pitch(o, c, s, t) <= 0.0725
  {
    SwayRange(StateScale(s.state), s.energy, 0.035, o.sin(Angle(o, t, 5.1, c.phaseA * 0.7)));
  }

  lemma BreathIsUnit(o: Outside, c: Config, t: int)
    requires OutsideOk(o)
    ensures IsUnit(Breath(o, c, t))
  {
    var x := o.sin(Angle(o, t, 4.2, c.phaseA));
    assert -1.0 <= x <= 1.0;
  }

  /** What the body mixer is given: legal numbers, and sway small enough to be scaled. */
  predicate Steady(f: RenderFrame) {
    && LegalNumbers(f) && -0.0725 <= f.headYaw <= 0.0725 && -0.0725 <= f.headPitch <= 0.0725
    && f.frequency == None
  }

  lemma PlainNumbers(o: Outside, c: Config, mouth: Mouth, s: Snapshot, t: int)
    requires OutsideOk(o) && ConfigOk(c) && SnapshotOk(s) && IsUnit(mouth.open)
    ensures Steady(PlainFrame(o, c, mouth, s, t))
  {
    GazeIsUnit(c, s, t);
    PlainBlinkIsUnit(c.phaseA, c.blinkPeriod, t);
    YawRange(o, c, s, t);
    PitchRange(o, c, s, t);
    BreathIsUnit(o, c, t);
  }

  lemma FaceFits(o: Outside, m: FaceMixer.Mixer, s: Snapshot, t: int, f: RenderFrame)
    requires FaceMixer.MixerOk(m) && Steady(f)
    ensures var g := WithFace(o, m, s, t, f);
            && Steady(g)
            && PairsOk(g.faceChannels, IsSemanticId, IsUnit) && PairsOk(g.faceSources, IsSemanticId, IsSemanticId)
            && SameIds(g.faceChannels, g.faceSources)
  {
    var name := o.fold(s.emotion);
    FaceMixer.ChannelsOk(m, s, name, t, f.mouthOpen);
    var channels := FaceMixer.Channels(m, s, name, t, f.mouthOpen);
    NamesAreLegal(channels);
  }

  lemma NamesAreLegal(channels: seq<FaceMixer.Channel>)
    requires |channels| == |FaceMixer.CHANNEL_NAMES|
    requires forall i | 0 <= i < |channels| ::
               channels[i].name == FaceMixer.CHANNEL_NAMES[i] && channels[i].source in FaceMixer.CHANNEL_SOURCES
    ensures forall i | 0 <= i < |channels| :: IsSemanticId(channels[i].name) && IsSemanticId(channels[i].source)
    ensures forall i, k | 0 <= i < k < |channels| :: channels[i].name != channels[k].name
  {
    forall i | 0 <= i < |channels| ensures IsSemanticId(channels[i].name) && IsSemanticId(channels[i].source) {
      SourceNamesLegal(channels[i].source);
      ChannelNameLegal(i);
    }
    forall i, k | 0 <= i < k < |channels| ensures channels[i].name != channels[k].name {
      ChannelNamesDiffer(i, k);
    }
  }

  lemma ChannelNameLegal(i: nat)
    requires i < |FaceMixer.CHANNEL_NAMES|
    ensures IsSemanticId(FaceMixer.CHANNEL_NAMES[i])
  {
  }

  lemma ChannelNamesDiffer(i: nat, k: nat)
    requires i < k < |FaceMixer.CHANNEL_NAMES|
    ensures FaceMixer.CHANNEL_NAMES[i] != FaceMixer.CHANNEL_NAMES[k]
  {
    var a, b := FaceMixer.CHANNEL_NAMES[i], FaceMixer.CHANNEL_NAMES[k];
    assert |a| != |b| || a[0] != b[0];
  }

  lemma SourceNamesLegal(source: string)
    requires source in FaceMixer.CHANNEL_SOURCES
    ensures IsSemanticId(source)
  {
  }

  lemma ReplayFits(c: Config, s: Snapshot, pick: string -> nat)
    requires c.body.Some? && GestureIdsOk(c) && BodyMotion.Resolve(c.body.value, s.gesture, pick).Some?
    ensures var r := BodyMotion.Resolve(c.body.value, s.gesture, pick).value;
            OptionalOk(r.replay, Anything) && r.source in GESTURE_SOURCES
  {
    BodyMotion.ResolutionOk(c.body.value, s.gesture, pick);
  }

  /** A frame rendered from a snapshot the runtime can be in fits the wire exactly when the
      snapshot's strings, the sounding visemes and the profiles do; every computed field
      always does. */
  lemma FrameFitsExactly(o: Outside, c: Config, tracks: Attached, cancelled: set<string>, s: Snapshot, t: int)
    requires OutsideOk(o) && ConfigOk(c) && GestureIdsOk(c) && SnapshotOk(s)
    requires forall id | id in tracks :: TrackOk(tracks[id].0)
    requires Rendered(o, c, tracks, cancelled, s, t).Ok?
    ensures WireLegal(Rendered(o, c, tracks, cancelled, s, t).value) <==>
            SnapshotFits(s) && ConfigFits(c) && VisemesFit(MouthAt(tracks, cancelled, s, t).visemes)
  {
    var mouth := MouthAt(tracks, cancelled, s, t);
    MouthRange(tracks, cancelled, s, t);
    FacedFits(o, c, mouth, s, t);
    var faced := Faced(o, c, mouth, s, t);
    if c.body.Some? {
      var r := BodyMotion.Resolve(c.body.value, s.gesture, o.pick).value;
      ReplayFits(c, s, o.pick);
      BodyFits(c.body.value, r, faced);
      BodyNamesFit(c, s, r, faced);
    } else {
      NamesFit(c, s, faced);
    }
  }

  lemma BodyNamesFit(c: Config, s: Snapshot, r: BodyMotion.Resolution, faced: RenderFrame)
    requires c.body.Some? && BodyMotion.MixerOk(c.body.value) && SnapshotOk(s) && faced.timestampMs >= 0
    requires faced.gesture == s.gesture && faced.gazeTarget == s.gaze && faced.emotion == s.emotion
    requires faced.faceProfileId == if c.face.Some? then c.face.value.profileId else None
    requires OptionalOk(r.replay, Anything) && r.source in GESTURE_SOURCES
    ensures LegalNames(WithBody(c.body.value, r, faced)) <==>
            SnapshotFits(s) && (c.face.Some? ==> OptionalOk(c.face.value.profileId, IsId))
            && OptionalOk(c.body.value.profileId, IsId)
  {
    NamesFit(c, s, WithBody(c.body.value, r, faced));
  }

  lemma FacedFits(o: Outside, c: Config, mouth: Mouth, s: Snapshot, t: int)
    requires OutsideOk(o) && ConfigOk(c) && SnapshotOk(s) && t >= 0
    requires IsUnit(mouth.open) && forall v | v in mouth.visemes :: IsUnit(v.1)
    ensures var f := Faced(o, c, mouth, s, t);
            && Steady(f) && (LegalLists(f) <==> VisemesFit(mouth.visemes))
            && f.timestampMs == t && f.gesture == s.gesture && f.gazeTarget == s.gaze && f.emotion == s.emotion
            && f.faceProfileId == (if c.face.Some? then c.face.value.profileId else None)
            && f.bodyProfileId == None && f.resolvedGesture == None && f.dominantSide == None
            && f.bodySource == "generic" && f.postureSource == "generic" && f.gestureSource in {"none", "semantic"}
  {
    var plain := PlainFrame(o, c, mouth, s, t);
    PlainNumbers(o, c, mouth, s, t);
    if c.face.Some? { FaceFits(o, c.face.value, s, t, plain); }
    ListsFit(Faced(o, c, mouth, s, t), mouth.visemes);
  }

  lemma ListsFit(faced: RenderFrame, visemes: seq<(string, real)>)
    requires faced.visemes == visemes && forall v | v in visemes :: IsUnit(v.1)
    requires PairsOk(faced.faceChannels, IsSemanticId, IsUnit) && PairsOk(faced.faceSources, IsSemanticId, IsSemanticId)
    requires SameIds(faced.faceChannels, faced.faceSources)
    ensures LegalLists(faced) <==> VisemesFit(visemes)
  {
    assert forall i | 0 <= i < |visemes| :: visemes[i] in visemes;
  }

  lemma BodyFits(m: BodyMotion.Mixer, r: BodyMotion.Resolution, faced: RenderFrame)
    requires BodyMotion.MixerOk(m) && Steady(faced)
    ensures var f := WithBody(m, r, faced);
            && (LegalNumbers(f) <==> (m.frequency.Some? ==> Within(m.frequency.value, 0.0, 600.0)))
            && (LegalLists(f) <==> LegalLists(faced))
  {
    ScaledHintRange(faced.headYaw, m.headScale);
    ScaledHintRange(faced.headPitch, m.headScale);
    CalmIsUnit(faced.breath, m.microScale);
  }

  lemma NamesFit(c: Config, s: Snapshot, frame: RenderFrame)
    requires SnapshotOk(s) && frame.timestampMs >= 0
    requires frame.gesture == s.gesture && frame.gazeTarget == s.gaze && frame.emotion == s.emotion
    requires frame.faceProfileId == if c.face.Some? then c.face.value.profileId else None
    requires frame.bodyProfileId == if c.body.Some? then c.body.value.profileId else None
    requires OptionalOk(frame.resolvedGesture, Anything) && frame.gestureSource in GESTURE_SOURCES
    requires frame.bodySource in PROFILE_SOURCES && frame.postureSource in PROFILE_SOURCES
    requires frame.dominantSide.Some? ==> frame.dominantSide.value in BodyMotion.DOMINANT_SIDES
    ensures LegalNames(frame) <==>
            SnapshotFits(s) && (c.face.Some? ==> OptionalOk(c.face.value.profileId, IsId))
            && (c.body.Some? ==> OptionalOk(c.body.value.profileId, IsId))
  {
  }

  /** From any run of the runtime, with any attached tracks: a frame that renders and whose
      inputs are within the wire limits is accepted by the encoder, and decoding the
      payload gives back the same frame. */
  lemma RunsFitTheWire(o: Outside, c: Config, floatOf: string -> Option<real>, h: seq<Event>, n: nat,
                       tracks: Attached, cancelled: set<string>, t: int)
    requires OutsideOk(o) && ConfigOk(c) && GestureIdsOk(c) && ConfigFits(c) && n <= |h|
    requires forall id | id in tracks :: TrackOk(tracks[id].0)
    requires var s := After(Initial(c.sessionId, c.bodyprintId), h, n).snapshot;
             SnapshotFits(s) && VisemesFit(MouthAt(tracks, cancelled, s, t).visemes)
             && Rendered(o, c, tracks, cancelled, s, t).Ok?
    ensures var f := Rendered(o, c, tracks, cancelled, After(Initial(c.sessionId, c.bodyprintId), h, n).snapshot, t).value;
            PayloadOk(floatOf, Fields(Encoded(f))) && Decoded(floatOf, Encoded(f)) == f
  {
    var m := Initial(c.sessionId, c.bodyprintId);
    EveryRunInRange(m, h, 0, n);
    var s := After(m, h, n).snapshot;
    FrameFitsExactly(o, c, tracks, cancelled, s, t);
    LegalExactly(floatOf, Rendered(o, c, tracks, cancelled, s, t).value);
  }

  /** Rendering fails, for this session and a proper instant, only over an explicit replay
      cue that names no gesture of the package. */
  lemma RenderFailsExactly(o: Outside, c: Config, tracks: Attached, cancelled: set<string>, s: Snapshot, t: int)
    requires ConfigOk(c) && SnapshotOk(s) && t >= 0 && s.sessionId == c.sessionId && s.bodyprintId == c.bodyprintId
    requires forall id | id in tracks :: TrackOk(tracks[id].0)
    ensures Rendered(o, c, tracks, cancelled, s, t).Err? <==>
            c.body.Some? && s.gesture.Some? &&
            exists id :: s.gesture.value == BodyMotion.REPLAY_PREFIX + id && id !in c.body.value.gestures
  {
    MouthRange(tracks, cancelled, s, t);
    if c.body.Some? && s.gesture.Some? { BodyMotion.RefusedExactly(c.body.value, s.gesture.value, o.pick); }
  }

  // ----- the frequency range of the package is wider than the wire's -----

  lemma RoundedFrequency(x: real)
    ensures Round6(x) <= 600.0 <==> x <= 600.0000005
  {
    var k := RoundHalfEven(x * 1000000.0);
    assert Round6(x) * 1000000.0 == k as real;
  }

  lemma RoundedFrequencySign(x: real)
    requires x >= 0.0
    ensures Round6(x) >= 0.0
  {
    Round6KeepsBounds(x, 0);
  }

  /** With a validated package, and everything else within the wire limits, a rendered frame
      fits the wire exactly when the package is not used for motion or its gesture frequency
      does not round above 600; the package validator admits up to 1000. */
  lemma PackageFitsExactly(o: Outside, c: Config, p: BodyMotion.Package, tracks: Attached, cancelled: set<string>,
                           s: Snapshot, t: int)
    requires OutsideOk(o) && ConfigOk(c) && GestureIdsOk(c) && SnapshotOk(s)
    requires BodyMotion.MetricsOk(p) && IsId(p.id)
    requires c.body == BodyMotion.NewMixer(c.bodyprintId, p) && c.body.Some?
    requires forall id | id in tracks :: TrackOk(tracks[id].0)
    requires c.face.Some? ==> OptionalOk(c.face.value.profileId, IsId)
    requires SnapshotFits(s) && VisemesFit(MouthAt(tracks, cancelled, s, t).visemes)
    requires Rendered(o, c, tracks, cancelled, s, t).Ok?
    ensures WireLegal(Rendered(o, c, tracks, cancelled, s, t).value) <==>
            !BodyMotion.Usable(p) || p.frequency <= 600.0000005
  {
    hide Rendered, WireLegal, MouthAt, Round6;
    FrameFitsExactly(o, c, tracks, cancelled, s, t);
    RoundedFrequency(p.frequency);
    RoundedFrequencySign(p.frequency);
  }

  /** A package with good evidence, no motion and 700 gestures a minute. */
  function BusyPackage(id: string): BodyMotion.Package {
    BodyMotion.Package(id, 1.0, 1.0, 0.0, 0.0, 0.0, 0.0, 700.0, "balanced", [])
  }

  function BusyConfig(sessionId: string, id: string): Config {
    Config(sessionId, id, 0.0, 0.0, 3300, None, BodyMotion.NewMixer(id, BusyPackage(id)))
  }

  lemma BusyConfigOk(sessionId: string, id: string)
    ensures BodyMotion.MetricsOk(BusyPackage(id)) && BodyMotion.Usable(BusyPackage(id))
    ensures var c := BusyConfig(sessionId, id);
            c.body.Some? && c.body.value.gestures == [] && ConfigOk(c)
  {
    hide BodyMotion.ActivityScale, BodyMotion.PostureHint, Round6;
    BodyMotion.NewMixerOk(id, BusyPackage(id));
  }

  lemma FirstSnapshotFits(sessionId: string, id: string, t: int)
    ensures var s := Initial(sessionId, id).snapshot;
            SnapshotOk(s) && SnapshotFits(s) && MouthAt(map[], {}, s, t) == SHUT
  {
  }

  /** That package is valid, its first frame renders, and the frame cannot be encoded. */
  lemma BusyPackageIsRefused(o: Outside, sessionId: string, id: string)
    requires OutsideOk(o) && IsId(id)
    ensures BodyMotion.MetricsOk(BusyPackage(id)) && BusyConfig(sessionId, id).body.Some? && ConfigOk(BusyConfig(sessionId, id))
    ensures var frame := Rendered(o, BusyConfig(sessionId, id), map[], {}, Initial(sessionId, id).snapshot, 0);
            frame.Ok? && !WireLegal(frame.value)
  {
    hide WireLegal, Rendered, ConfigOk, BodyMotion.NewMixer, MouthAt, SnapshotOk, SnapshotFits;
    BusyConfigOk(sessionId, id);
    FirstSnapshotFits(sessionId, id, 0);
    RenderFailsExactly(o, BusyConfig(sessionId, id), map[], {}, Initial(sessionId, id).snapshot, 0);
    PackageFitsExactly(o, BusyConfig(sessionId, id), BusyPackage(id), map[], {}, Initial(sessionId, id).snapshot, 0);
  }
}
