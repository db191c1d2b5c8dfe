/** The embodiment scheduler: which track sounds, the procedural hints, and the frame that
    is rendered from a runtime snapshot. */
module Scheduler {
  import opened Basics
  import opened Numbers
  import opened Runtime
  import opened SpeechTracks
  import FaceMixer
  import BodyMotion

  /** One instant as handed to a renderer. */
  datatype RenderFrame = RenderFrame(
    timestampMs: int, state: BodyState, gesture: Option<string>, gazeTarget: Option<string>, gazeStrength: real,
    emotion: string, emotionIntensity: real, energy: real, mouthOpen: real, visemes: seq<(string, real)>,
    timingMode: Option<TimingMode>, blink: real, breath: real, headYaw: real, headPitch: real,
    faceProfileId: Option<string>, faceChannels: seq<(string, real)>, faceSources: seq<(string, string)>,
    bodyProfileId: Option<string>, bodySource: string, headScale: real, microScale: real, lean: real,
    postureSource: string, resolvedGesture: Option<string>, gestureSource: string,
    dominantSide: Option<string>, frequency: Option<real>)

  /** The parts of the program that are only assumed: the sine, pi, case folding of emotion
      names, and the number drawn for a gesture cue. */
  datatype Outside = Outside(sin: real -> real, pi: real, fold: string -> string, pick: string -> nat)

  ghost predicate OutsideOk(o: Outside) {
    forall x :: -1.0 <= o.sin(x) <= 1.0
  }

  /** What a scheduler is constructed with. */
  datatype Config = Config(
    sessionId: string, bodyprintId: string, phaseA: real, phaseB: real, blinkPeriod: int,
    face: Option<FaceMixer.Mixer>, body: Option<BodyMotion.Mixer>)

  predicate ConfigOk(c: Config) {
    && 0.0 <= c.phaseA < 1.0 && 0.0 <= c.phaseB < 1.0 && 3300 <= c.blinkPeriod <= 5199
    && (c.face.Some? ==> FaceMixer.MixerOk(c.face.value))
    && (c.body.Some? ==> BodyMotion.MixerOk(c.body.value))
  }

  function NewConfig(sha: string -> seq<int>, sessionId: string, bodyprintId: string,
                     face: Option<FaceMixer.Mixer>, body: Option<BodyMotion.Mixer>): Config
    requires FaceMixer.IsDigest(sha)
  {
    var d := sha(sessionId + ":" + bodyprintId);
    Config(sessionId, bodyprintId, FaceMixer.Phase(d, 0), FaceMixer.Phase(d, 4), FaceMixer.GenericPeriod(d), face, body)
  }

  lemma NewConfigOk(sha: string -> seq<int>, sessionId: string, bodyprintId: string,
                    face: Option<FaceMixer.Mixer>, body: Option<BodyMotion.Mixer>)
    requires FaceMixer.IsDigest(sha)
    requires face.Some? ==> FaceMixer.MixerOk(face.value)
    requires body.Some? ==> BodyMotion.MixerOk(body.value)
    ensures ConfigOk(NewConfig(sha, sessionId, bodyprintId, face, body))
  {
    FaceMixer.DigestRanges(sha, sessionId + ":" + bodyprintId, 0);
    FaceMixer.DigestRanges(sha, sessionId + ":" + bodyprintId, 4);
  }

  datatype SchedulerError =
    | NegativeStart | CancelledUtterance | MissingUtterance | NegativeTimestamp | OtherSession | OtherBodyprint
    | FaceRejected | UnknownGesture

  type Attached = map<string, (SpeechTrack, int)>

  // ----- the mouth -----

  datatype Mouth = Mouth(open: real, visemes: seq<(string, real)>, mode: Option<TimingMode>)

  const SHUT := Mouth(0.0, [], None)

  /** The mouth at an instant: only the active utterance of a speaking body, only if it is
      attached and not cancelled here, and only from its start on. */
  function MouthAt(tracks: Attached, cancelled: set<string>, s: Snapshot, t: int): Mouth {
    if s.state.Speaking? && s.active.Some? && s.active.value != "" && s.active.value in tracks
       && s.active.value !in cancelled && t >= tracks[s.active.value].1
    then
      var (track, start) := tracks[s.active.value];
      var f := SampleAt(track, t - start);
      Mouth(f.mouthOpen, f.visemes, Some(track.mode))
    else SHUT
  }

  // ----- procedural hints -----

  function StateScale(state: BodyState): real {
    match state
    case Idle => 1.0
    case Listening => 0.65
    case Thinking => 0.85
    case Speaking => 0.55
    case WaitingForTool => 0.75
    case Interrupted => 0.35
    case Error => 0.15
  }

  /** A sinusoidal hint scaled by state and energy. */
  function Sway(amplitude: real, scale: real, energy: real, wave: real): real {
    amplitude * scale * (0.55 + 0.9 * energy) * wave
  }

  function Angle(o: Outside, t: int, seconds: real, phase: real): real
    requires seconds > 0.0
  {
    2.0 * o.pi * (t as real / 1000.0 / seconds + phase)
  }

  function Breath(o: Outside, c: Config, t: int): real {
    0.5 + 0.5 * o.sin(Angle(o, t, 4.2, c.phaseA))
  }

  function Yaw(o: Outside, c: Config, s: Snapshot, t: int): real {
    Sway(0.05, StateScale(s.state), s.energy, o.sin(Angle(o, t, 6.7, c.phaseB)))
  }

  function Pitch(o: Outside, c: Config, s: Snapshot, t: int): real {
    Sway(0.035, StateScale(s.state), s.energy, o.sin(Angle(o, t, 5.1, c.phaseA * 0.7)))
  }

  /** Direct gaze, softened on a fixed cadence. */
  function GazeStrength(c: Config, s: Snapshot, t: int): real {
    if s.gaze.None? || s.gaze.value == "none" then 0.0
    else
      var cycle := (t + (c.phaseB * 7100.0).Floor) % 7100;
      if cycle < 360 then 0.35 + 0.55 * (cycle as real / 360.0) else 0.9
  }

  function Calm(breath: real, scale: real): real {
    Max(0.0, Min(1.0, 0.5 + (breath - 0.5) * scale))
  }

  // ----- rendering -----

  function Pairs(channels: seq<FaceMixer.Channel>): seq<(string, real)> {
    seq(|channels|, i requires 0 <= i < |channels| => (channels[i].name, channels[i].value))
  }

  function Sources(channels: seq<FaceMixer.Channel>): seq<(string, string)> {
    seq(|channels|, i requires 0 <= i < |channels| => (channels[i].name, channels[i].source))
  }

  /** The frame without any profile. */
  function PlainFrame(o: Outside, c: Config, m: Mouth, s: Snapshot, t: int): RenderFrame
    requires ConfigOk(c)
  {
    RenderFrame(
      t, s.state, s.gesture, s.gaze, GazeStrength(c, s, t), s.emotion, s.emotionIntensity, s.energy,
      m.open, m.visemes, m.mode, FaceMixer.PlainBlink(c.phaseA, c.blinkPeriod, t), Breath(o, c, t),
      Yaw(o, c, s, t), Pitch(o, c, s, t),
      None, [], [], None, "generic", 1.0, 1.0, 0.0, "generic", None,
      if s.gesture.Some? then "semantic" else "none", None, None)
  }

  lemma PlainMouth(o: Outside, c: Config, m: Mouth, s: Snapshot, t: int)
    requires ConfigOk(c)
    ensures PlainFrame(o, c, m, s, t).mouthOpen == m.open
  {
  }

  function WithFace(o: Outside, m: FaceMixer.Mixer, s: Snapshot, t: int, f: RenderFrame): RenderFrame
    requires FaceMixer.MixerOk(m)
  {
    var channels := FaceMixer.Channels(m, s, o.fold(s.emotion), t, f.mouthOpen);
    f.(faceProfileId := m.profileId, faceChannels := Pairs(channels), faceSources := Sources(channels),
       blink := Max(channels[0].value, channels[1].value))
  }

  function WithBody(m: BodyMotion.Mixer, r: BodyMotion.Resolution, f: RenderFrame): RenderFrame {
    f.(bodyProfileId := m.profileId, bodySource := m.source, headScale := m.headScale, microScale := m.microScale,
       lean := m.lean, postureSource := m.postureSource, resolvedGesture := r.replay, gestureSource := r.source,
       dominantSide := m.dominantSide, frequency := m.frequency,
       headYaw := f.headYaw * m.headScale, headPitch := f.headPitch * m.headScale, breath := Calm(f.breath, m.microScale))
  }

  /** The frame with the face profile, if there is one, but not yet the body profile. */
  function Faced(o: Outside, c: Config, mouth: Mouth, s: Snapshot, t: int): RenderFrame
    requires ConfigOk(c)
  {
    var plain := PlainFrame(o, c, mouth, s, t);
    if c.face.Some? then WithFace(o, c.face.value, s, t, plain) else plain
  }

  function Rendered(o: Outside, c: Config, tracks: Attached, cancelled: set<string>, s: Snapshot, t: int)
    : Result<RenderFrame, SchedulerError>
    requires ConfigOk(c)
  {
    if t < 0 then Err(NegativeTimestamp)
    else if s.sessionId != c.sessionId then Err(OtherSession)
    else if s.bodyprintId != c.bodyprintId then Err(OtherBodyprint)
    else
      var mouth := MouthAt(tracks, cancelled, s, t);
      if c.face.Some? && (!IsUnit(mouth.open) || !IsUnit(s.emotionIntensity)) then Err(FaceRejected)
      else if c.body.None? then Ok(Faced(o, c, mouth, s, t))
      else
        var r := BodyMotion.Resolve(c.body.value, s.gesture, o.pick);
        if r.None? then Err(UnknownGesture) else Ok(WithBody(c.body.value, r.value, Faced(o, c, mouth, s, t)))
  }

  /** For one session and bodyprint, the mixer and the scheduler draw the same phase and
      period: an eye without blink evidence shows exactly the scheduler's own blink, and a
      face without any evidence changes nothing about the frame's blink. */
  lemma GenericEyeIsPlain(sha: string -> seq<int>, hex: string -> string, o: Outside, sessionId: string, bodyprintId: string,
                          p: FaceMixer.FaceProfile, body: Option<BodyMotion.Mixer>, mouth: Mouth, s: Snapshot, t: int)
    requires FaceMixer.IsDigest(sha)
    requires FaceMixer.NewMixer(sha, hex, sessionId, bodyprintId, p).Some?
    requires body.Some? ==> BodyMotion.MixerOk(body.value)
    ensures var m := FaceMixer.NewMixer(sha, hex, sessionId, bodyprintId, p);
            var c := NewConfig(sha, sessionId, bodyprintId, m, body);
            && FaceMixer.MixerOk(m.value) && ConfigOk(c)
            && var eyes := FaceMixer.Channels(m.value, s, o.fold(s.emotion), t, mouth.open);
            && (p.left.samples < 2 ==> eyes[0].value == FaceMixer.PlainBlink(c.phaseA, c.blinkPeriod, t))
            && (p.right.samples < 2 ==> eyes[1].value == FaceMixer.PlainBlink(c.phaseA, c.blinkPeriod, t))
            && (p.left.samples < 2 && p.right.samples < 2 ==>
                  Faced(o, c, mouth, s, t).blink == Faced(o, c.(face := None), mouth, s, t).blink)
  {
    var m := FaceMixer.NewMixer(sha, hex, sessionId, bodyprintId, p);
    FaceMixer.NewMixerOk(sha, hex, sessionId, bodyprintId, p);
    NewConfigOk(sha, sessionId, bodyprintId, m, body);
    var c := NewConfig(sha, sessionId, bodyprintId, m, body);
    FaceMixer.GenericBlinkIsPlain(c.phaseA, c.blinkPeriod, t);
  }

  class EmbodimentScheduler {
    const config: Config
    var tracks: Attached
    var cancelled: set<string>

    constructor (config: Config)
      requires ConfigOk(config)
      ensures this.config == config && tracks == map[] && cancelled == {}
    {
      this.config := config;
      tracks, cancelled := map[], {};
    }

    /** `attach_speech`. */
    method AttachSpeech(track: SpeechTrack, startedAtMs: int) returns (r: Result<(), SchedulerError>)
      modifies this`tracks
      ensures r == if startedAtMs < 0 then Err(NegativeStart)
                   else if track.utteranceId in cancelled then Err(SchedulerError.CancelledUtterance) else Ok(())
      ensures tracks == if r.Ok? then old(tracks)[track.utteranceId := (track, startedAtMs)] else old(tracks)
    {
      if startedAtMs < 0 { return Err(NegativeStart); }
      if track.utteranceId in cancelled { return Err(SchedulerError.CancelledUtterance); }
      tracks := tracks[track.utteranceId := (track, startedAtMs)];
      return Ok(());
    }

    /** `cancel_utterance`. */
    method CancelUtterance(id: string) returns (r: Result<(), SchedulerError>)
      modifies this`tracks, this`cancelled
      ensures r == if id == "" then Err(SchedulerError.MissingUtterance) else Ok(())
      ensures r.Err? ==> tracks == old(tracks) && cancelled == old(cancelled)
      ensures r.Ok? ==> tracks == old(tracks) - {id} && cancelled == old(cancelled) + {id}
    {
      if id == "" { return Err(SchedulerError.MissingUtterance); }
      cancelled := cancelled + {id};
      tracks := tracks - {id};
      return Ok(());
    }

    /** The speech part of `render`. */
    method SpeechMouth(s: Snapshot, t: int) returns (mouth: Mouth)
      requires forall id | id in tracks :: Increasing(tracks[id].0.frames)
      ensures mouth == MouthAt(tracks, cancelled, s, t)
    {
      mouth := SHUT;
      if s.state == Speaking && s.active.Some? && s.active.value != "" {
        var id := s.active.value;
        if id !in cancelled && id in tracks {
          var (track, start) := tracks[id];
          var offset := t - start;
          if offset >= 0 {
            var speech := Sample(track, offset);
            mouth := Mouth(speech.value.mouthOpen, speech.value.visemes, Some(track.mode));
          }
        }
      }
    }

    /** `render`. */
    method Render(o: Outside, s: Snapshot, t: int) returns (r: Result<RenderFrame, SchedulerError>)
      requires ConfigOk(config)
      requires forall id | id in tracks :: Increasing(tracks[id].0.frames)
      ensures r == Rendered(o, config, tracks, cancelled, s, t)
    {
      hide MouthAt, PlainFrame, WithBody, Pairs, Sources;
      if t < 0 { return Err(NegativeTimestamp); }
      if s.sessionId != config.sessionId { return Err(OtherSession); }
      if s.bodyprintId != config.bodyprintId { return Err(OtherBodyprint); }
      var mouth := SpeechMouth(s, t);
      PlainMouth(o, config, mouth, s, t);
      var frame := PlainFrame(o, config, mouth, s, t);
      if config.face.Some? {
        if !IsUnit(mouth.open) || !IsUnit(s.emotionIntensity) { return Err(FaceRejected); }
        var channels := FaceMixer.RenderFace(config.face.value, s, o.fold(s.emotion), t, mouth.open);
        frame := frame.(faceProfileId := config.face.value.profileId, faceChannels := Pairs(channels),
                        faceSources := Sources(channels), blink := Max(channels[0].value, channels[1].value));
      }
      if config.body.Some? {
        var body := config.body.value;
        var motion := BodyMotion.Resolve(body, s.gesture, o.pick);
        if motion.None? { return Err(UnknownGesture); }
        frame := WithBody(body, motion.value, frame);
      }
      return Ok(frame);
    }
  }

  // ----- attached and cancelled utterances -----

  datatype TrackOp = Attach(track: SpeechTrack, startedAtMs: int) | CancelTrack(id: string)

  /** The tracks and the cancelled set after one call. */
  function AfterOp(tracks: Attached, cancelled: set<string>, op: TrackOp): (Attached, set<string>) {
    match op
    case Attach(track, start) =>
      if start < 0 || track.utteranceId in cancelled then (tracks, cancelled)
      else (tracks[track.utteranceId := (track, start)], cancelled)
    case CancelTrack(id) => if id == "" then (tracks, cancelled) else (tracks - {id}, cancelled + {id})
  }

  function AfterOps(ops: seq<TrackOp>): (Attached, set<string>) {
    if ops == [] then (map[], {})
    else
      var (tracks, cancelled) := AfterOps(ops[..|ops| - 1]);
      AfterOp(tracks, cancelled, ops[|ops| - 1])
  }

  predicate Attaches(op: TrackOp, id: string) {
    op.Attach? && op.track.utteranceId == id && op.startedAtMs >= 0
  }

  predicate LastAttach(ops: seq<TrackOp>, id: string, i: nat)
    requires i < |ops|
  {
    Attaches(ops[i], id) && forall j | i < j < |ops| :: !Attaches(ops[j], id)
  }

  /** Which track an utterance has after any calls: the one attached last, unless the
      utterance was ever cancelled; a cancelled one can never come back. */
  lemma {:induction false} AttachedMeaning(ops: seq<TrackOp>, id: string)
    ensures var (tracks, cancelled) := AfterOps(ops);
            && (id in cancelled <==> id != "" && CancelTrack(id) in ops)
            && !(id in cancelled && id in tracks)
            && (id in tracks ==> exists i | 0 <= i < |ops| :: LastAttach(ops, id, i) && ops[i] == Attach(tracks[id].0, tracks[id].1))
            && (id !in cancelled && id !in tracks ==> forall op | op in ops :: !Attaches(op, id))
  {
    if ops != [] {
      var init, last := ops[..|ops| - 1], ops[|ops| - 1];
      AttachedMeaning(init, id);
      assert ops == init + [last];
      var before, tracks := AfterOps(init).0, AfterOps(ops).0;
      if id in tracks {
        if Attaches(last, id) {
          assert LastAttach(ops, id, |init|);
        } else {
          var i :| 0 <= i < |init| && LastAttach(init, id, i) && init[i] == Attach(before[id].0, before[id].1);
          assert LastAttach(ops, id, i);
        }
      }
    }
  }
}
