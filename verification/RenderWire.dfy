/** The renderer wire format: encoding a frame, decoding a payload, and exactly which
    frames survive the trip. */
module RenderWire {
  import opened Basics
  import opened Numbers
  import opened Runtime
  import opened SpeechTracks
  import opened Scheduler
  import BodyMotion

  datatype Json =
    | Null | Bool(truth: bool) | Whole(n: int) | Fraction(x: real) | NonFinite
    | Text(text: string) | Array(items: seq<Json>) | Dict(fields: map<string, Json>)

  /** A payload with exactly the 30 expected keys. */
  datatype Wire = Wire(
    kind: Json, version: Json, timestampMs: Json, state: Json, gesture: Json, gazeTarget: Json, gazeStrength: Json,
    emotion: Json, emotionIntensity: Json, energy: Json, mouthOpen: Json, visemes: Json, timingMode: Json,
    blink: Json, breath: Json, headYaw: Json, headPitch: Json, faceProfileId: Json, faceChannels: Json, faceSources: Json,
    bodyProfileId: Json, bodySource: Json, headScale: Json, microScale: Json, lean: Json, postureSource: Json,
    resolvedGesture: Json, gestureSource: Json, dominantSide: Json, frequency: Json)

  /** Anything else: not an object, or with missing or extra keys. */
  datatype Payload = Fields(wire: Wire) | Misshapen

  const TYPE := "bodyrig.render_frame"
  const VERSION := "0.1"
  const PROFILE_SOURCES: set<string> := {"generic", "profile"}
  const GESTURE_SOURCES: set<string> := {"none", "semantic", "explicit_profile", "profile_replay"}

  // ----- lexical rules -----

  predicate IsId(s: string) {
    1 <= |s| <= 160 && forall i | 0 <= i < |s| ::
      'a' <= s[i] <= 'z' || 'A' <= s[i] <= 'Z' || '0' <= s[i] <= '9' || s[i] in "._:+-"
  }

  predicate IsSemanticId(s: string) {
    1 <= |s| <= 64 && forall i | 0 <= i < |s| :: 'a' <= s[i] <= 'z' || '0' <= s[i] <= '9' || s[i] == '_'
  }

  predicate Bounded(s: string) {
    1 <= |s| <= 160
  }

  predicate Within(x: real, lo: real, hi: real) {
    lo <= x <= hi
  }

  // ----- single fields -----

  /** `_number`. `floatOf` is how numeric text converts. */
  function NumberIn(floatOf: string -> Option<real>, j: Json, lo: real, hi: real): Option<real> {
    var x := match j
      case Whole(n) => Some(n as real)
      case Fraction(x) => Some(x)
      case Text(s) => floatOf(s)
      case _ => None;
    if x.Some? && Within(x.value, lo, hi) then x else None
  }

  /** `_optional_string`: None where it raises, otherwise the string or null. */
  function OptionalString(j: Json, ok: string -> bool): Option<Option<string>> {
    match j
    case Null => Some(None)
    case Text(s) => if Bounded(s) && ok(s) then Some(Some(s)) else None
    case _ => None
  }

  /** `_required_enum`. */
  function OneOf(j: Json, allowed: set<string>): Option<string> {
    if j.Text? && j.text in allowed then Some(j.text) else None
  }

  function ModeName(m: TimingMode): string {
    match m case Timed => "timed" case AudioEnvelope => "audio_envelope"
  }

  function ModeOf(j: Json): Option<Option<TimingMode>> {
    match j
    case Null => Some(None)
    case Text(s) => if s == "timed" then Some(Some(Timed)) else if s == "audio_envelope" then Some(Some(AudioEnvelope)) else None
    case _ => None
  }

  lemma StateNamesRoundTrip(s: BodyState)
    ensures StateNamed(StateName(s)) == Some(s)
  {
  }

  /** `_optional_frequency`. */
  function FrequencyOf(floatOf: string -> Option<real>, j: Json): Option<Option<real>> {
    if !j.Dict? || j.fields.Keys != {"present", "value"} || !j.fields["present"].Bool? then None
    else
      var x := NumberIn(floatOf, j.fields["value"], 0.0, 600.0);
      if x.None? then None
      else if j.fields["present"].truth then Some(x)
      else if x.value != 0.0 then None else Some(None)
  }

  function FrequencyJson(f: Option<real>): Json {
    Dict(map["present" := Bool(f.Some?), "value" := Fraction(if f.Some? then f.value else 0.0)])
  }

  lemma FrequencyRoundTrip(floatOf: string -> Option<real>, f: Option<real>)
    ensures FrequencyOf(floatOf, FrequencyJson(f)) ==
            if f.Some? && !Within(f.value, 0.0, 600.0) then None else Some(f)
  {
  }

  // ----- lists of id and value -----

  /** An entry with exactly the keys id and `key`, a legal id and a legal value. */
  predicate EntryOk(j: Json, key: string, idOk: string -> bool, valueOk: Json -> bool) {
    && j.Dict? && j.fields.Keys == {"id", key}
    && j.fields["id"].Text? && idOk(j.fields["id"].text) && valueOk(j.fields[key])
  }

  /** The id of an entry. */
  function IdText(j: Json): string {
    if j.Dict? && "id" in j.fields && j.fields["id"].Text? then j.fields["id"].text else ""
  }

  predicate ListOk(j: Json, key: string, idOk: string -> bool, valueOk: Json -> bool) {
    && j.Array? && |j.items| <= 32
    && (forall i | 0 <= i < |j.items| :: EntryOk(j.items[i], key, idOk, valueOk))
    && forall i, k | 0 <= i < k < |j.items| :: IdText(j.items[i]) != IdText(j.items[k])
  }

  /** The loop of `_face_channels`, `_face_sources` and the visemes: the entries of a legal
      list as pairs, None where it raises. */
  method ParseList<T>(j: Json, key: string, idOk: string -> bool, valueOk: Json -> bool, valueOf: Json -> T)
    returns (r: Option<seq<(string, T)>>)
    ensures r.Some? <==> ListOk(j, key, idOk, valueOk)
    ensures r.Some? ==> r.value == PairsOf(j.items, key, valueOf)
  {
    hide EntryOk, IdText, PairOf, EntryPair;
    if !j.Array? || |j.items| > 32 { return None; }
    var result: seq<(string, T)> := [];
    var seen: set<string> := {};
    for i := 0 to |j.items|
      invariant forall k | 0 <= k < i :: EntryOk(j.items[k], key, idOk, valueOk)
      invariant forall k, l | 0 <= k < l < i :: IdText(j.items[k]) != IdText(j.items[l])
      invariant forall s :: s in seen <==> exists k | 0 <= k < i :: IdText(j.items[k]) == s
      invariant |result| == i && forall k | 0 <= k < i :: result[k] == PairOf(j.items[k], key, valueOf)
    {
      var item := j.items[i];
      if !EntryOk(item, key, idOk, valueOk) { return None; }
      var id := IdText(item);
      if id in seen { return None; }
      seen := seen + {id};
      result := result + [EntryPair(item, key, idOk, valueOk, valueOf)];
    }
    return Some(result);
  }

  /** The pair of a legal entry. */
  function EntryPair<T>(j: Json, key: string, idOk: string -> bool, valueOk: Json -> bool, valueOf: Json -> T): (pair: (string, T))
    requires EntryOk(j, key, idOk, valueOk)
    ensures pair == PairOf(j, key, valueOf) && pair.0 == IdText(j)
  {
    (j.fields["id"].text, valueOf(j.fields[key]))
  }

  function PairOf<T>(j: Json, key: string, valueOf: Json -> T): (string, T) {
    if j.Dict? && {"id", key} <= j.fields.Keys && j.fields["id"].Text? then (j.fields["id"].text, valueOf(j.fields[key]))
    else ("", valueOf(Null))
  }

  function PairsOf<T>(items: seq<Json>, key: string, valueOf: Json -> T): seq<(string, T)> {
    seq(|items|, i requires 0 <= i < |items| => PairOf(items[i], key, valueOf))
  }

  function ListJson<T>(pairs: seq<(string, T)>, key: string, json: T -> Json): Json {
    Array(seq(|pairs|, i requires 0 <= i < |pairs| => Dict(map["id" := Text(pairs[i].0), key := json(pairs[i].1)])))
  }

  predicate PairsOk<T>(pairs: seq<(string, T)>, idOk: string -> bool, ok: T -> bool) {
    && |pairs| <= 32
    && (forall i | 0 <= i < |pairs| :: idOk(pairs[i].0) && ok(pairs[i].1))
    && forall i, k | 0 <= i < k < |pairs| :: pairs[i].0 != pairs[k].0
  }

  /** An encoded list is accepted exactly when its pairs are legal, and then decodes to
      them. */
  lemma ListRoundTrip<T>(pairs: seq<(string, T)>, key: string, idOk: string -> bool, ok: T -> bool,
                         json: T -> Json, valueOk: Json -> bool, valueOf: Json -> T)
    requires key != "id"
    requires forall v :: (valueOk(json(v)) <==> ok(v)) && valueOf(json(v)) == v
    ensures ListOk(ListJson(pairs, key, json), key, idOk, valueOk) <==> PairsOk(pairs, idOk, ok)
    ensures PairsOf(ListJson(pairs, key, json).items, key, valueOf) == pairs
  {
    var j := ListJson(pairs, key, json);
    forall i | 0 <= i < |pairs|
      ensures EntryOk(j.items[i], key, idOk, valueOk) <==> idOk(pairs[i].0) && ok(pairs[i].1)
      ensures j.items[i].Dict? && j.items[i].fields.Keys == {"id", key} && j.items[i].fields["id"] == Text(pairs[i].0)
      ensures PairOf(j.items[i], key, valueOf) == pairs[i]
    {
      assert j.items[i].fields.Keys == {"id", key};
    }
  }

  // ----- decoding -----

  predicate IsUnitJson(floatOf: string -> Option<real>, j: Json) {
    NumberIn(floatOf, j, 0.0, 1.0).Some?
  }

  function RealOf(floatOf: string -> Option<real>, j: Json): real {
    var x := match j
      case Whole(n) => Some(n as real)
      case Fraction(x) => Some(x)
      case Text(s) => floatOf(s)
      case _ => None;
    if x.Some? then x.value else 0.0
  }

  function TextOf(j: Json): string {
    if j.Text? then j.text else ""
  }

  predicate IsSource(j: Json) {
    j.Text? && IsSemanticId(j.text)
  }

  predicate VisemesOk(floatOf: string -> Option<real>, j: Json) {
    ListOk(j, "weight", IsId, v => IsUnitJson(floatOf, v))
  }

  predicate ChannelsOk(floatOf: string -> Option<real>, j: Json) {
    ListOk(j, "value", IsSemanticId, v => IsUnitJson(floatOf, v))
  }

  predicate SourcesOk(j: Json) {
    ListOk(j, "source", IsSemanticId, IsSource)
  }

  function VisemesOf(floatOf: string -> Option<real>, j: Json): seq<(string, real)> {
    if j.Array? then PairsOf(j.items, "weight", v => RealOf(floatOf, v)) else []
  }

  function ChannelsOf(floatOf: string -> Option<real>, j: Json): seq<(string, real)> {
    if j.Array? then PairsOf(j.items, "value", v => RealOf(floatOf, v)) else []
  }

  function SourcesOf(j: Json): seq<(string, string)> {
    if j.Array? then PairsOf(j.items, "source", TextOf) else []
  }

  predicate SameIds(channels: seq<(string, real)>, sources: seq<(string, string)>) {
    |channels| == |sources| && forall i | 0 <= i < |channels| :: channels[i].0 == sources[i].0
  }

  predicate Anything(s: string) { true }

  predicate NumbersOk(floatOf: string -> Option<real>, w: Wire) {
    && IsUnitJson(floatOf, w.gazeStrength) && IsUnitJson(floatOf, w.emotionIntensity) && IsUnitJson(floatOf, w.energy)
    && IsUnitJson(floatOf, w.mouthOpen) && IsUnitJson(floatOf, w.blink) && IsUnitJson(floatOf, w.breath)
    && NumberIn(floatOf, w.headYaw, -1.0, 1.0).Some? && NumberIn(floatOf, w.headPitch, -1.0, 1.0).Some?
    && NumberIn(floatOf, w.headScale, 0.0, 2.0).Some? && NumberIn(floatOf, w.microScale, 0.0, 2.0).Some?
    && NumberIn(floatOf, w.lean, -1.0, 1.0).Some? && FrequencyOf(floatOf, w.frequency).Some?
  }

  predicate NamesOk(w: Wire) {
    && w.kind == Text(TYPE) && w.version == Text(VERSION)
    && w.timestampMs.Whole? && w.timestampMs.n >= 0
    && w.state.Text? && StateNamed(w.state.text).Some?
    && OptionalString(w.gesture, Anything).Some? && OptionalString(w.gazeTarget, Anything).Some?
    && w.emotion.Text? && Bounded(w.emotion.text)
    && ModeOf(w.timingMode).Some?
    && OptionalString(w.faceProfileId, IsId).Some? && OptionalString(w.bodyProfileId, IsId).Some?
    && OneOf(w.bodySource, PROFILE_SOURCES).Some? && OneOf(w.postureSource, PROFILE_SOURCES).Some?
    && OptionalString(w.resolvedGesture, Anything).Some? && OneOf(w.gestureSource, GESTURE_SOURCES).Some?
    && (w.dominantSide.Null? || OneOf(w.dominantSide, BodyMotion.DOMINANT_SIDES).Some?)
  }

  predicate ListsOk(floatOf: string -> Option<real>, w: Wire) {
    && VisemesOk(floatOf, w.visemes) && ChannelsOk(floatOf, w.faceChannels) && SourcesOk(w.faceSources)
    && SameIds(ChannelsOf(floatOf, w.faceChannels), SourcesOf(w.faceSources))
  }

  /** The frame a legal payload stands for. */
  function Decoded(floatOf: string -> Option<real>, w: Wire): RenderFrame
    requires NumbersOk(floatOf, w) && NamesOk(w)
  {
    RenderFrame(
      w.timestampMs.n, StateNamed(w.state.text).value, OptionalString(w.gesture, Anything).value,
      OptionalString(w.gazeTarget, Anything).value, RealOf(floatOf, w.gazeStrength), w.emotion.text,
      RealOf(floatOf, w.emotionIntensity), RealOf(floatOf, w.energy), RealOf(floatOf, w.mouthOpen),
      VisemesOf(floatOf, w.visemes), ModeOf(w.timingMode).value, RealOf(floatOf, w.blink), RealOf(floatOf, w.breath),
      RealOf(floatOf, w.headYaw), RealOf(floatOf, w.headPitch), OptionalString(w.faceProfileId, IsId).value,
      ChannelsOf(floatOf, w.faceChannels), SourcesOf(w.faceSources), OptionalString(w.bodyProfileId, IsId).value,
      w.bodySource.text, RealOf(floatOf, w.headScale), RealOf(floatOf, w.microScale), RealOf(floatOf, w.lean),
      w.postureSource.text, OptionalString(w.resolvedGesture, Anything).value, w.gestureSource.text,
      if w.dominantSide.Null? then None else Some(w.dominantSide.text), FrequencyOf(floatOf, w.frequency).value)
  }

  predicate PayloadOk(floatOf: string -> Option<real>, p: Payload) {
    p.Fields? && NumbersOk(floatOf, p.wire) && NamesOk(p.wire) && ListsOk(floatOf, p.wire)
  }

  /** `render_frame_from_mapping`; None where it raises. */
  method FromMapping(floatOf: string -> Option<real>, p: Payload) returns (r: Option<RenderFrame>)
    ensures r.Some? <==> PayloadOk(floatOf, p)
    ensures r.Some? ==> r.value == Decoded(floatOf, p.wire)
  {
    if p.Misshapen? { return None; }
    var w := p.wire;
    if !NamesOk(w) { return None; }
    var visemes := ParseList(w.visemes, "weight", IsId, v => IsUnitJson(floatOf, v), v => RealOf(floatOf, v));
    if visemes.None? { return None; }
    var channels := ParseList(w.faceChannels, "value", IsSemanticId, v => IsUnitJson(floatOf, v), v => RealOf(floatOf, v));
    if channels.None? { return None; }
    var sources := ParseList(w.faceSources, "source", IsSemanticId, IsSource, TextOf);
    if sources.None? { return None; }
    if !SameIds(channels.value, sources.value) { return None; }
    if !NumbersOk(floatOf, w) { return None; }
    return Some(Decoded(floatOf, w).(visemes := visemes.value, faceChannels := channels.value, faceSources := sources.value));
  }

  // ----- encoding -----

  function StringJson(s: Option<string>): Json {
    if s.Some? then Text(s.value) else Null
  }

  function RealJson(x: real): Json {
    Fraction(x)
  }

  function TextJson(s: string): Json {
    Text(s)
  }

  /** The payload `render_frame_to_mapping` builds before it checks the round trip. */
  function Encoded(f: RenderFrame): Wire {
    Wire(
      Text(TYPE), Text(VERSION), Whole(f.timestampMs), Text(StateName(f.state)), StringJson(f.gesture),
      StringJson(f.gazeTarget), Fraction(f.gazeStrength), Text(f.emotion), Fraction(f.emotionIntensity), Fraction(f.energy),
      Fraction(f.mouthOpen), ListJson(f.visemes, "weight", RealJson),
      StringJson(if f.timingMode.Some? then Some(ModeName(f.timingMode.value)) else None),
      Fraction(f.blink), Fraction(f.breath), Fraction(f.headYaw), Fraction(f.headPitch), StringJson(f.faceProfileId),
      ListJson(f.faceChannels, "value", RealJson), ListJson(f.faceSources, "source", TextJson),
      StringJson(f.bodyProfileId), Text(f.bodySource), Fraction(f.headScale), Fraction(f.microScale), Fraction(f.lean),
      Text(f.postureSource), StringJson(f.resolvedGesture), Text(f.gestureSource), StringJson(f.dominantSide),
      FrequencyJson(f.frequency))
  }

  /** `render_frame_to_mapping`; None where it raises. */
  method ToMapping(floatOf: string -> Option<real>, f: RenderFrame) returns (r: Option<Wire>)
    ensures r == if WireLegal(f) then Some(Encoded(f)) else None
  {
    var payload := Encoded(f);
    var parsed := FromMapping(floatOf, Fields(payload));
    LegalExactly(floatOf, f);
    if parsed != Some(f) { return None; }
    return Some(payload);
  }

  // ----- which frames are legal -----

  predicate OptionalOk(s: Option<string>, ok: string -> bool) {
    s.Some? ==> Bounded(s.value) && ok(s.value)
  }

  predicate LegalNumbers(f: RenderFrame) {
    && IsUnit(f.gazeStrength) && IsUnit(f.emotionIntensity) && IsUnit(f.energy) && IsUnit(f.mouthOpen)
    && IsUnit(f.blink) && IsUnit(f.breath) && Within(f.headYaw, -1.0, 1.0) && Within(f.headPitch, -1.0, 1.0)
    && Within(f.headScale, 0.0, 2.0) && Within(f.microScale, 0.0, 2.0) && Within(f.lean, -1.0, 1.0)
    && (f.frequency.Some? ==> Within(f.frequency.value, 0.0, 600.0))
  }

  predicate LegalNames(f: RenderFrame) {
    && f.timestampMs >= 0 && Bounded(f.emotion)
    && OptionalOk(f.gesture, Anything) && OptionalOk(f.gazeTarget, Anything) && OptionalOk(f.resolvedGesture, Anything)
    && OptionalOk(f.faceProfileId, IsId) && OptionalOk(f.bodyProfileId, IsId)
    && f.bodySource in PROFILE_SOURCES && f.postureSource in PROFILE_SOURCES && f.gestureSource in GESTURE_SOURCES
    && (f.dominantSide.Some? ==> f.dominantSide.value in BodyMotion.DOMINANT_SIDES)
  }

  predicate LegalLists(f: RenderFrame) {
    && PairsOk(f.visemes, IsId, IsUnit)
    && PairsOk(f.faceChannels, IsSemanticId, IsUnit)
    && PairsOk(f.faceSources, IsSemanticId, IsSemanticId)
    && SameIds(f.faceChannels, f.faceSources)
  }

  predicate WireLegal(f: RenderFrame) {
    LegalNumbers(f) && LegalNames(f) && LegalLists(f)
  }

  lemma ListsRoundTrip(floatOf: string -> Option<real>, f: RenderFrame)
    ensures var w := Encoded(f);
            && (ListsOk(floatOf, w) <==> LegalLists(f))
            && VisemesOf(floatOf, w.visemes) == f.visemes
            && ChannelsOf(floatOf, w.faceChannels) == f.faceChannels
            && SourcesOf(w.faceSources) == f.faceSources
  {
    ListRoundTrip(f.visemes, "weight", IsId, IsUnit, RealJson, v => IsUnitJson(floatOf, v), v => RealOf(floatOf, v));
    ListRoundTrip(f.faceChannels, "value", IsSemanticId, IsUnit, RealJson, v => IsUnitJson(floatOf, v), v => RealOf(floatOf, v));
    ListRoundTrip(f.faceSources, "source", IsSemanticId, IsSemanticId, TextJson, IsSource, TextOf);
  }

  lemma NamesRoundTrip(f: RenderFrame)
    ensures NamesOk(Encoded(f)) <==> LegalNames(f)
  {
    StateNamesRoundTrip(f.state);
  }

  lemma NumbersRoundTrip(floatOf: string -> Option<real>, f: RenderFrame)
    ensures NumbersOk(floatOf, Encoded(f)) <==> LegalNumbers(f)
  {
    FrequencyRoundTrip(floatOf, f.frequency);
  }

  /** A frame's encoding is accepted exactly when the frame is legal, and then decodes to
      the very same frame. */
  lemma LegalExactly(floatOf: string -> Option<real>, f: RenderFrame)
    ensures PayloadOk(floatOf, Fields(Encoded(f))) <==> WireLegal(f)
    ensures WireLegal(f) ==> Decoded(floatOf, Encoded(f)) == f
  {
    ListsRoundTrip(floatOf, f);
    NamesRoundTrip(f);
    NumbersRoundTrip(floatOf, f);
    if WireLegal(f) {
      StateNamesRoundTrip(f.state);
      FrequencyRoundTrip(floatOf, f.frequency);
    }
  }

  /** Whatever payload is accepted, the frame it decodes to is legal, so it can be encoded
      again and the canonical payload means the same. */
  lemma AcceptedIsLegal(floatOf: string -> Option<real>, p: Payload)
    requires PayloadOk(floatOf, p)
    ensures WireLegal(Decoded(floatOf, p.wire))
    ensures PayloadOk(floatOf, Fields(Encoded(Decoded(floatOf, p.wire))))
    ensures Decoded(floatOf, Encoded(Decoded(floatOf, p.wire))) == Decoded(floatOf, p.wire)
  {
    var w, f := p.wire, Decoded(floatOf, p.wire);
    DecodedListLegal(w.visemes, "weight", IsId, v => IsUnitJson(floatOf, v), v => RealOf(floatOf, v), IsUnit);
    DecodedListLegal(w.faceChannels, "value", IsSemanticId, v => IsUnitJson(floatOf, v), v => RealOf(floatOf, v), IsUnit);
    DecodedListLegal(w.faceSources, "source", IsSemanticId, IsSource, TextOf, IsSemanticId);
    DecodedNumbersLegal(floatOf, w);
    LegalExactly(floatOf, f);
  }

  lemma DecodedNumbersLegal(floatOf: string -> Option<real>, w: Wire)
    requires NumbersOk(floatOf, w) && NamesOk(w)
    ensures LegalNumbers(Decoded(floatOf, w)) && LegalNames(Decoded(floatOf, w))
  {
    hide LegalNames, VisemesOf, ChannelsOf, SourcesOf, OptionalString, OneOf, ModeOf, StateNamed;
    DecodedNamesLegal(floatOf, w);
  }

  lemma DecodedNamesLegal(floatOf: string -> Option<real>, w: Wire)
    requires NumbersOk(floatOf, w) && NamesOk(w)
    ensures LegalNames(Decoded(floatOf, w))
  {
    hide NumbersOk, RealOf, FrequencyOf, VisemesOf, ChannelsOf, SourcesOf;
  }

  lemma DecodedListLegal<T>(j: Json, key: string, idOk: string -> bool, valueOk: Json -> bool, valueOf: Json -> T, ok: T -> bool)
    requires key != "id" && ListOk(j, key, idOk, valueOk)
    requires forall v :: valueOk(v) ==> ok(valueOf(v))
    ensures PairsOk(PairsOf(j.items, key, valueOf), idOk, ok)
  {
    forall i | 0 <= i < |j.items|
      ensures PairOf(j.items[i], key, valueOf) == (j.items[i].fields["id"].text, valueOf(j.items[i].fields[key]))
    {
      assert EntryOk(j.items[i], key, idOk, valueOk);
    }
  }

  // ----- key by key -----

  // A field of a wire payload is what stands under its key: `headYaw` under head_yaw_hint,
  // `lean` under posture_lean_x, and so on.

  predicate NumbersUnderKeys(floatOf: string -> Option<real>, w: Wire, f: RenderFrame) {
    && RealOf(floatOf, w.gazeStrength) == f.gazeStrength
    && RealOf(floatOf, w.emotionIntensity) == f.emotionIntensity
    && RealOf(floatOf, w.energy) == f.energy && RealOf(floatOf, w.mouthOpen) == f.mouthOpen
    && RealOf(floatOf, w.blink) == f.blink && RealOf(floatOf, w.breath) == f.breath
    && RealOf(floatOf, w.headYaw) == f.headYaw && RealOf(floatOf, w.headPitch) == f.headPitch
    && RealOf(floatOf, w.headScale) == f.headScale
    && RealOf(floatOf, w.microScale) == f.microScale
    && RealOf(floatOf, w.lean) == f.lean
    && FrequencyOf(floatOf, w.frequency) == Some(f.frequency)
  }

  predicate NamesUnderKeys(w: Wire, f: RenderFrame) {
    && w.kind == Text("bodyrig.render_frame") && w.version == Text("0.1")
    && w.timestampMs == Whole(f.timestampMs) && w.state == Text(StateName(f.state))
    && w.gesture == StringJson(f.gesture) && w.gazeTarget == StringJson(f.gazeTarget)
    && w.emotion == Text(f.emotion)
    && w.timingMode ==
       (match f.timingMode case None => Null case Some(Timed) => Text("timed") case Some(AudioEnvelope) => Text("audio_envelope"))
    && w.faceProfileId == StringJson(f.faceProfileId)
    && w.bodyProfileId == StringJson(f.bodyProfileId)
    && w.bodySource == Text(f.bodySource) && w.postureSource == Text(f.postureSource)
    && w.resolvedGesture == StringJson(f.resolvedGesture)
    && w.gestureSource == Text(f.gestureSource)
    && w.dominantSide == StringJson(f.dominantSide)
  }

  predicate ListsUnderKeys(floatOf: string -> Option<real>, w: Wire, f: RenderFrame) {
    && VisemesOf(floatOf, w.visemes) == f.visemes
    && ChannelsOf(floatOf, w.faceChannels) == f.faceChannels
    && SourcesOf(w.faceSources) == f.faceSources
  }

  /** Every key of an encoding carries its own field of the frame. */
  lemma EncodedKeyByKey(floatOf: string -> Option<real>, f: RenderFrame)
    requires WireLegal(f)
    ensures var w := Encoded(f);
            NumbersUnderKeys(floatOf, w, f) && NamesUnderKeys(w, f) && ListsUnderKeys(floatOf, w, f)
  {
    ListsRoundTrip(floatOf, f);
    FrequencyRoundTrip(floatOf, f.frequency);
  }

  lemma StateNameOf(name: string)
    requires StateNamed(name).Some?
    ensures StateName(StateNamed(name).value) == name
  {
  }

  /** And every field of the frame a payload is decoded to comes from its own key. */
  lemma DecodedKeyByKey(floatOf: string -> Option<real>, p: Payload)
    requires PayloadOk(floatOf, p)
    ensures var w, f := p.wire, Decoded(floatOf, p.wire);
            NumbersUnderKeys(floatOf, w, f) && NamesUnderKeys(w, f) && ListsUnderKeys(floatOf, w, f)
  {
    hide ListsOk, StateNamed;
    StateNameOf(p.wire.state.text);
  }
}
