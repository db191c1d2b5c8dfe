/** Personalized body motion: bounded scales and hints, and how a semantic gesture is
    resolved to an extracted one. */
module BodyMotion {
  import opened Basics
  import opened Numbers

  const REPLAY_PREFIX := "bodyprint:"
  const DOMINANT_SIDES: set<string> := {"left", "right", "balanced"}

  /** `_activity_scale`. */
  function ActivityScale(activity: real): real {
    var v := Max(0.0, activity);
    Round6(0.55 + 0.90 * (v / (1.0 + v)))
  }

  /** `_posture_hint`. */
  function PostureHint(lean: real): real {
    Round6(Max(-1.0, Min(1.0, lean)))
  }

  lemma ActivityScaleRange(activity: real)
    ensures 0.55 <= ActivityScale(activity) <= 1.45
  {
    var v := Max(0.0, activity);
    QuotientSign(v, 1.0 + v);
    QuotientOrder(v, 1.0 + v, 1.0 + v);
    QuotientIs(1.0 + v, 1.0 + v, 1.0);
    Round6KeepsBounds(0.55 + 0.90 * (v / (1.0 + v)), 550000);
    Round6KeepsBounds(0.55 + 0.90 * (v / (1.0 + v)), 1450000);
  }

  lemma PostureHintRange(lean: real)
    ensures -1.0 <= PostureHint(lean) <= 1.0
    ensures -1.0 <= lean <= 1.0 && Round6(lean) == lean ==> PostureHint(lean) == lean
  {
    Round6KeepsBounds(Max(-1.0, Min(1.0, lean)), -1000000);
    Round6KeepsBounds(Max(-1.0, Min(1.0, lean)), 1000000);
  }

  /** More activity never makes a smaller scale. */
  lemma ActivityScaleGrows(a: real, b: real)
    requires a <= b
    ensures ActivityScale(a) <= ActivityScale(b)
  {
    var v, w := Max(0.0, a), Max(0.0, b);
    ShareGrows(v, w);
    RoundGrows((0.55 + 0.90 * (v / (1.0 + v))) * 1000000.0, (0.55 + 0.90 * (w / (1.0 + w))) * 1000000.0);
  }

  /** No activity at all gives 0.55, one unit gives 1. */
  lemma ActivityScaleValues()
    ensures ActivityScale(0.0) == 0.55 && ActivityScale(1.0) == 1.0
  {
    QuotientIs(0.0, 1.0, 0.0);
    QuotientIs(1.0, 2.0, 0.5);
    Round6KeepsBounds(0.55, 550000);
    Round6KeepsBounds(1.0, 1000000);
  }

  lemma ShareGrows(v: real, w: real)
    requires 0.0 <= v <= w
    ensures v / (1.0 + v) <= w / (1.0 + w)
  {
    var p, q := v / (1.0 + v), w / (1.0 + w);
    assert p * (1.0 + v) == v && q * (1.0 + w) == w;
    QuotientSign(1.0, 1.0 + v);
    assert (1.0 - p) * (1.0 + v) == 1.0;
    QuotientIs(1.0, 1.0 + v, 1.0 - p);
    ProductSign(1.0 - p, w - v);
    assert (1.0 - p) * (w - v) == w - p * (1.0 + w);
    ProductOrder(1.0 + w, p, q);
  }

  lemma RoundGrows(x: real, y: real)
    requires x <= y
    ensures RoundHalfEven(x) <= RoundHalfEven(y)
  {
  }

  /** What the mixer reads of a validated bodyprint package. */
  datatype Package = Package(
    id: string, motionConfidence: real, bodyCoverage: real,
    headActivity: real, handActivity: real, gestureRange: real, posture: real, frequency: real,
    dominantSide: string, gestures: seq<string>)

  /** The mixer after construction; nothing changes it later. */
  datatype Mixer = Mixer(
    profileId: Option<string>, source: string, headScale: real, microScale: real, lean: real,
    postureSource: string, dominantSide: Option<string>, frequency: Option<real>, gestures: seq<string>, usable: bool)

  predicate UpTo1000(x: real) {
    0.0 <= x <= 1000.0
  }

  /** The metric ranges of `validate_bodyprint_package`. */
  predicate MetricsOk(p: Package) {
    && UpTo1000(p.headActivity) && UpTo1000(p.handActivity) && UpTo1000(p.gestureRange) && UpTo1000(p.frequency)
    && -10.0 <= p.posture <= 10.0
  }

  predicate Usable(p: Package) {
    p.motionConfidence >= 0.20 && p.bodyCoverage >= 0.20
  }

  /** The constructor: None where it raises. */
  function NewMixer(bodyprintId: string, p: Package): Option<Mixer> {
    if p.id != bodyprintId || !IsUnit(p.motionConfidence) || !IsUnit(p.bodyCoverage) then None
    else if !Usable(p) then Some(Mixer(Some(p.id), "generic", 1.0, 1.0, 0.0, "generic", None, None, [], false))
    else if p.dominantSide !in DOMINANT_SIDES then None
    else
      var micro := Max(0.0, p.handActivity) * 0.65 + Max(0.0, p.gestureRange) * 0.35;
      Some(Mixer(Some(p.id), "profile", ActivityScale(p.headActivity), ActivityScale(micro), PostureHint(p.posture),
                 "profile", Some(p.dominantSide), Some(Round6(p.frequency)), p.gestures, true))
  }

  predicate MixerOk(m: Mixer) {
    && m.source in {"generic", "profile"} && m.postureSource in {"generic", "profile"}
    && 0.55 <= m.headScale <= 1.45 && 0.55 <= m.microScale <= 1.45 && -1.0 <= m.lean <= 1.0
    && (m.dominantSide.Some? ==> m.dominantSide.value in DOMINANT_SIDES)
    && (!m.usable ==> m.gestures == [])
  }

  lemma NewMixerOk(bodyprintId: string, p: Package)
    requires NewMixer(bodyprintId, p).Some?
    ensures MixerOk(NewMixer(bodyprintId, p).value)
  {
    ActivityScaleRange(p.headActivity);
    ActivityScaleRange(Max(0.0, p.handActivity) * 0.65 + Max(0.0, p.gestureRange) * 0.35);
    PostureHintRange(p.posture);
  }

  /** What a semantic gesture resolves to, and where that came from. */
  datatype Resolution = Resolution(replay: Option<string>, source: string)

  /** `_resolve_gesture`; None where it raises. `pick` is the number drawn from the digest
      of the selection seed and the cue. */
  function Resolve(m: Mixer, semantic: Option<string>, pick: string -> nat): Option<Resolution> {
    match semantic
    case None => Some(Resolution(None, "none"))
    case Some(cue) =>
      if cue == "" then None
      else if REPLAY_PREFIX <= cue then
        if cue[|REPLAY_PREFIX|..] !in m.gestures || !m.usable then None else Some(Resolution(Some(cue), "explicit_profile"))
      else if !m.usable || m.gestures == [] then Some(Resolution(None, "semantic"))
      else Some(Resolution(Some(REPLAY_PREFIX + m.gestures[pick(cue) % |m.gestures|]), "profile_replay"))
  }

  /** A gesture is never invented, and whatever is replayed was extracted from the package
      that the mixer was built on. */
  lemma ResolutionOk(m: Mixer, semantic: Option<string>, pick: string -> nat)
    requires Resolve(m, semantic, pick).Some?
    ensures var r := Resolve(m, semantic, pick).value;
            && r.source in {"none", "semantic", "explicit_profile", "profile_replay"}
            && (semantic.None? ==> r.replay.None?)
            && (r.replay.Some? ==> exists id | id in m.gestures :: r.replay.value == REPLAY_PREFIX + id)
  {
    if semantic.Some? && REPLAY_PREFIX <= semantic.value {
      assert semantic.value == REPLAY_PREFIX + semantic.value[|REPLAY_PREFIX|..];
    }
  }

  /** An explicit replay cue is refused exactly when it names no gesture of a usable
      package; any other non-empty cue always resolves. */
  lemma RefusedExactly(m: Mixer, cue: string, pick: string -> nat)
    requires MixerOk(m) && cue != ""
    ensures Resolve(m, Some(cue), pick).None? <==>
            exists id :: cue == REPLAY_PREFIX + id && id !in m.gestures
  {
    if REPLAY_PREFIX <= cue {
      assert cue == REPLAY_PREFIX + cue[|REPLAY_PREFIX|..];
      forall id | cue == REPLAY_PREFIX + id ensures id == cue[|REPLAY_PREFIX|..] {
        assert id == (REPLAY_PREFIX + id)[|REPLAY_PREFIX|..];
      }
    }
  }

  /** Where each number of a usable package goes: head activity to the head, hands and gesture
      range 65 to 35 to the small motions, the lean as far as it is within one, the frequency
      rounded; of a package that is not usable nothing is taken. */
  lemma MixerTells(bodyprintId: string, p: Package)
    requires NewMixer(bodyprintId, p).Some?
    ensures var m := NewMixer(bodyprintId, p).value;
            && m.profileId == Some(bodyprintId)
            && if p.motionConfidence >= 0.20 && p.bodyCoverage >= 0.20
               then && m.source == "profile" && m.postureSource == "profile" && m.dominantSide == Some(p.dominantSide)
                    && m.headScale == ActivityScale(p.headActivity)
                    && (p.handActivity >= 0.0 && p.gestureRange >= 0.0 ==>
                          m.microScale == ActivityScale((13.0 * p.handActivity + 7.0 * p.gestureRange) / 20.0))
                    && (-1.0 <= p.posture <= 1.0 ==> m.lean == Round6(p.posture))
                    && (p.posture > 1.0 ==> m.lean == 1.0) && (p.posture < -1.0 ==> m.lean == -1.0)
                    && m.frequency == Some(Round6(p.frequency)) && m.gestures == p.gestures
               else && m.source == "generic" && m.postureSource == "generic" && m.headScale == 1.0 && m.microScale == 1.0
                    && m.lean == 0.0 && m.dominantSide == None && m.frequency == None && m.gestures == []
  {
    hide ActivityScale;
    if p.handActivity >= 0.0 && p.gestureRange >= 0.0 {
      assert p.handActivity * 0.65 + p.gestureRange * 0.35 == (13.0 * p.handActivity + 7.0 * p.gestureRange) / 20.0;
    }
    Round6KeepsBounds(1.0, 1000000);
    Round6KeepsBounds(-1.0, -1000000);
  }

  /** What is replayed: an explicit cue as it is, for any other cue of a usable package with
      gestures the one that was drawn, and otherwise nothing. */
  lemma ResolutionFollows(m: Mixer, cue: string, id: string, pick: string -> nat)
    requires MixerOk(m) && cue != ""
    ensures Resolve(m, None, pick) == Some(Resolution(None, "none"))
    ensures id in m.gestures ==> Resolve(m, Some("bodyprint:" + id), pick) == Some(Resolution(Some("bodyprint:" + id), "explicit_profile"))
    ensures !("bodyprint:" <= cue) ==>
              Resolve(m, Some(cue), pick) ==
              if m.gestures == [] then Some(Resolution(None, "semantic"))
              else Some(Resolution(Some("bodyprint:" + m.gestures[pick(cue) % |m.gestures|]), "profile_replay"))
  {
    var explicit := "bodyprint:" + id;
    assert explicit[|REPLAY_PREFIX|..] == id && REPLAY_PREFIX <= explicit;
  }
}
