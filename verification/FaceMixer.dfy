/** Facial hints: the deterministic blink and the personalized semantic face. */
module FaceMixer {
  import opened Basics
  import opened Numbers
  import opened Runtime

  /** SHA-256 of a text, as bytes. */
  ghost predicate IsDigest(sha: string -> seq<int>) {
    forall s :: |sha(s)| == 32 && forall i | 0 <= i < 32 :: 0 <= sha(s)[i] < 256
  }

  /** Four digest bytes, big-endian, as a fraction of 2**32. */
  function Phase(d: seq<int>, at: nat): real
    requires at + 4 <= |d|
  {
    (d[at] * 0x1000000 + d[at + 1] * 0x10000 + d[at + 2] * 0x100 + d[at + 3]) as real / 4294967296.0
  }

  function GenericPeriod(d: seq<int>): int
    requires |d| >= 10
  {
    3300 + (d[8] * 256 + d[9]) % 1900
  }

  lemma DigestRanges(sha: string -> seq<int>, text: string, at: nat)
    requires IsDigest(sha) && at + 4 <= 32
    ensures |sha(text)| == 32
    ensures 0.0 <= Phase(sha(text), at) < 1.0
    ensures 3300 <= GenericPeriod(sha(text)) <= 5199
  {
    var d := sha(text);
    assert forall i | 0 <= i < 32 :: 0 <= d[i] < 256;
    var n := d[at] * 0x1000000 + d[at + 1] * 0x10000 + d[at + 2] * 0x100 + d[at + 3];
    QuotientSign(n as real, 4294967296.0);
    QuotientOrder(n as real, 4294967296.0, 4294967296.0);
    QuotientIs(4294967296.0, 4294967296.0, 1.0);
  }

  // ----- blinking -----

  function Bounded(x: real): real {
    Round6(Max(0.0, Min(1.0, x)))
  }

  lemma BoundedIsUnit(x: real)
    ensures IsUnit(Bounded(x))
  {
    Round6KeepsBounds(Max(0.0, Min(1.0, x)), 0);
    Round6KeepsBounds(Max(0.0, Min(1.0, x)), 1000000);
  }

  function Clamp(lo: int, x: int, hi: int): int {
    if x < lo then lo else if x > hi then hi else x
  }

  /** `blink_period_ms`: the generic period without an observed rate, none for an observed
      rate of zero, otherwise the observed cadence kept within 500 ms and 15 s. */
  function BlinkPeriod(rate: Option<real>, generic: int): Option<int> {
    match rate
    case None => Some(generic)
    case Some(r) => if r == 0.0 then None else Some(Clamp(500, RoundHalfEven(60000.0 / r), 15000))
  }

  function PulseMs(period: int): int {
    Clamp(80, period / 4, 160)
  }

  /** How far into its cycle an eye is at instant zero. */
  function Start(phase: real, period: int): int {
    (phase * period as real).Floor
  }

  /** Where in the blink cycle an instant falls. */
  function Position(phase: real, period: int, t: int): int
    requires period > 0
  {
    (t + Start(phase, period)) % period
  }

  /** `FaceBehaviorMixer._blink` for one eye. */
  function Blink(phase: real, period: Option<int>, t: int): real
    requires period.Some? ==> period.value > 0
  {
    if period.None? then 0.0
    else
      var position := Position(phase, period.value, t);
      var pulse := PulseMs(period.value);
      var half := pulse as real / 2.0;
      if position >= pulse then 0.0
      else if position as real <= half then Bounded(position as real / half)
      else Bounded((pulse - position) as real / half)
  }

  /** The scheduler's own blink, used when there is no face profile. */
  function PlainBlink(phase: real, period: int, t: int): real
    requires period > 0
  {
    var position := Position(phase, period, t);
    if position >= 160 then 0.0
    else if position <= 80 then position as real / 80.0
    else (160 - position) as real / 80.0
  }

  lemma BlinkIsUnit(phase: real, period: Option<int>, t: int)
    requires period.Some? ==> period.value > 0
    ensures IsUnit(Blink(phase, period, t))
  {
    if period.Some? {
      var pulse, position := PulseMs(period.value), Position(phase, period.value, t);
      BoundedIsUnit(position as real / (pulse as real / 2.0));
      BoundedIsUnit((pulse - position) as real / (pulse as real / 2.0));
    }
  }

  /** An eye is not fully open exactly strictly inside the pulse. */
  lemma LitInsidePulse(phase: real, period: int, t: int)
    requires period > 0
    ensures Blink(phase, Some(period), t) > 0.0 <==> 0 < Position(phase, period, t) < PulseMs(period)
  {
    var pulse, position := PulseMs(period), Position(phase, period, t);
    var half := pulse as real / 2.0;
    if position < pulse {
      var rise := if position as real <= half then position else pulse - position;
      assert 40.0 <= half <= 80.0 && 0 <= rise;
      QuotientSign(rise as real, half);
      QuotientOrder(rise as real, half, half);
      QuotientIs(half, half, 1.0);
      if rise == 0 {
        QuotientIs(0.0, half, 0.0);
        Round6KeepsBounds(0.0, 0);
      } else {
        QuotientIs(half / 80.0, half, 1.0 / 80.0);
        QuotientOrder(half / 80.0, rise as real, half);
        Round6KeepsBounds(rise as real / half, 12500);
      }
    }
  }

  predicate Lit(phase: real, period: int, t: int)
    requires period > 0
  {
    0 < Position(phase, period, t) < PulseMs(period)
  }

  lemma PositionAdvances(phase: real, period: int, t: int)
    requires period > 0
    ensures Position(phase, period, t + 1) == (if Position(phase, period, t) + 1 == period then 0 else Position(phase, period, t) + 1)
    ensures Position(phase, period, t + period) == Position(phase, period, t)
  {
    hide Start;
    var x := t + Start(phase, period);
    NextRemainder(x, period);
    WholeTurn(x, period);
  }

  lemma ProductAtLeast(d: int, p: int)
    requires d >= 1 && p > 0
    ensures d * p >= p
  {
    assert (d - 1) * p >= 0;
  }

  lemma NoMultipleBetween(d: int, p: int)
    requires p > 0 && -p < d * p < p
    ensures d == 0
  {
    if d >= 1 { ProductAtLeast(d, p); }
    if d <= -1 { ProductAtLeast(-d, p); }
  }

  lemma RemainderIs(x: int, p: int, q: int, r: int)
    requires p > 0 && x == q * p + r && 0 <= r < p
    ensures x % p == r
  {
    assert (q - x / p) * p == x % p - r;
    NoMultipleBetween(q - x / p, p);
  }

  lemma EqualRemaindersApart(x: int, y: int, p: int)
    requires p > 0 && x < y && x % p == y % p
    ensures y - x >= p
  {
    assert (y / p - x / p) * p == y - x;
    if y - x < p { NoMultipleBetween(y / p - x / p, p); }
  }

  lemma NextRemainder(x: int, p: int)
    requires p > 0
    ensures (x + 1) % p == if x % p + 1 == p then 0 else x % p + 1
  {
    if x % p + 1 == p { RemainderIs(x + 1, p, x / p + 1, 0); } else { RemainderIs(x + 1, p, x / p, x % p + 1); }
  }

  lemma WholeTurn(x: int, p: int)
    requires p > 0
    ensures (x + p) % p == x % p
  {
    RemainderIs(x + p, p, x / p + 1, x % p);
  }

  /** The lit milliseconds among the `n` from `t` on. */
  function LitCount(phase: real, period: int, t: int, n: nat): nat
    requires period > 0
    decreases n
  {
    if n == 0 then 0 else (if Lit(phase, period, t) then 1 else 0) + LitCount(phase, period, t + 1, n - 1)
  }

  lemma {:induction false} LitCountSnoc(phase: real, period: int, t: int, n: nat)
    requires period > 0
    ensures LitCount(phase, period, t, n + 1) == LitCount(phase, period, t, n) + if Lit(phase, period, t + n) then 1 else 0
    decreases n
  {
    if n > 0 { LitCountSnoc(phase, period, t + 1, n - 1); }
  }

  /** From the start of a cycle the first `n` milliseconds contain the pulse so far. */
  lemma {:induction false} LitFromStart(phase: real, period: int, t: int, n: nat)
    requires period >= 160 && Position(phase, period, t) == 0 && n <= period
    ensures LitCount(phase, period, t, n) == if n == 0 then 0 else if n <= PulseMs(period) then n - 1 else PulseMs(period) - 1
    ensures n < period ==> Position(phase, period, t + n) == n
  {
    if n > 0 {
      LitFromStart(phase, period, t, n - 1);
      LitCountSnoc(phase, period, t, n - 1);
      PositionAdvances(phase, period, t + n - 1);
    }
  }

  /** Sliding a window of one whole period changes nothing. */
  lemma SlideWindow(phase: real, period: int, t: int)
    requires period > 0
    ensures LitCount(phase, period, t + 1, period) == LitCount(phase, period, t, period)
  {
    LitCountSnoc(phase, period, t + 1, period - 1);
    PositionAdvances(phase, period, t);
  }

  lemma {:induction false} SlideBack(phase: real, period: int, t: int, k: nat)
    requires period > 0
    ensures LitCount(phase, period, t, period) == LitCount(phase, period, t + k, period)
  {
    if k > 0 {
      SlideBack(phase, period, t, k - 1);
      SlideWindow(phase, period, t + k - 1);
    }
  }

  lemma {:induction false} StepsToStart(phase: real, period: int, t: int, k: nat)
    requires period > 0 && k == period - Position(phase, period, t)
    ensures Position(phase, period, t + k) == 0
    decreases k
  {
    PositionAdvances(phase, period, t);
    if k > 1 { StepsToStart(phase, period, t + 1, k - 1); }
  }

  /** Any window of one period holds one pulse: exactly `PulseMs - 1` of its milliseconds
      are non-zero, and they are the cyclically consecutive positions 1, 2, ... of the
      cycle. */
  lemma OnePulsePerPeriod(phase: real, period: int, t: int)
    requires period >= 500
    ensures LitCount(phase, period, t, period) == PulseMs(period) - 1
    ensures forall u: int :: Blink(phase, Some(period), u) > 0.0 <==> Lit(phase, period, u)
  {
    var k := period - Position(phase, period, t);
    StepsToStart(phase, period, t, k);
    SlideBack(phase, period, t, k);
    LitFromStart(phase, period, t + k, period);
    forall u: int ensures Blink(phase, Some(period), u) > 0.0 <==> Lit(phase, period, u) {
      LitInsidePulse(phase, period, u);
    }
  }

  /** No cadence exceeds two blinks per second: equal positions are a period apart, and a
      period lasts at least half a second whatever rate was observed. */
  lemma AtMostTwoPerSecond(phase: real, rate: Option<real>, generic: int, t: int, u: int)
    requires 3300 <= generic <= 5199
    requires var period := BlinkPeriod(rate, generic);
             period.Some? && t < u && Position(phase, period.value, t) == Position(phase, period.value, u)
    ensures u - t >= 500
  {
    var p := BlinkPeriod(rate, generic).value;
    hide Start;
    var x, y := t + Start(phase, p), u + Start(phase, p);
    EqualRemaindersApart(x, y, p);
  }

  /** Without a profile the mixer blinks exactly like the scheduler. */
  lemma GenericBlinkIsPlain(phase: real, period: int, t: int)
    requires period >= 3300
    ensures Blink(phase, Some(period), t) == PlainBlink(phase, period, t)
  {
    var position := Position(phase, period, t);
    if position < 160 {
      var rise := if position <= 80 then position else 160 - position;
      assert rise as real / 80.0 == (rise * 12500) as real / 1000000.0;
      Round6KeepsBounds(rise as real / 80.0, rise * 12500);
    }
  }

  // ----- the face -----

  const POSITIVE: set<string> := {"happy", "joy", "joyful", "amused", "excited", "pleased", "warm"}
  const SAD: set<string> := {"sad", "concerned", "disappointed", "worried"}
  const ANGRY: set<string> := {"angry", "frustrated", "annoyed"}
  const SURPRISED: set<string> := {"surprised", "astonished"}
  const THOUGHTFUL: set<string> := {"thoughtful", "curious", "thinking"}

  datatype Face = Face(jawOpen: real, smile: real, frown: real, browInnerUp: real, browDown: real)

  /** `_semantic_face`, for an emotion name already stripped and lowered. */
  function SemanticFace(name: string, intensity: real): Face {
    if name in POSITIVE then Face(0.0, 0.85 * intensity, 0.0, 0.12 * intensity, 0.0)
    else if name in SAD then Face(0.0, 0.0, 0.72 * intensity, 0.55 * intensity, 0.0)
    else if name in ANGRY then Face(0.0, 0.0, 0.52 * intensity, 0.0, 0.85 * intensity)
    else if name in SURPRISED then Face(0.55 * intensity, 0.0, 0.0, 0.92 * intensity, 0.0)
    else if name in THOUGHTFUL then Face(0.0, 0.0, 0.0, 0.28 * intensity, 0.08 * intensity)
    else Face(0.0, 0.0, 0.0, 0.0, 0.0)
  }

  /** An observed mean and how much of the source covers it. */
  datatype Prior = Prior(mean: real, coverage: real)

  datatype Priors = Priors(
    jawOpen: Option<Prior>, smile: Option<Prior>, frown: Option<Prior>, browInnerUp: Option<Prior>, browDown: Option<Prior>)

  datatype Channel = Channel(name: string, value: real, source: string)

  /** A value under an observed mean and its coverage. */
  function Shifted(p: Prior, semantic: real): real {
    semantic * (1.0 + (p.mean - 0.5) * 0.6 * p.coverage)
  }

  /** `_personalize`. */
  function Personalize(name: string, prior: Option<Prior>, semantic: real): Channel {
    match prior
    case None => Channel(name, Bounded(semantic), "semantic")
    case Some(p) => Channel(name, Bounded(Shifted(p, semantic)), "profile_semantic")
  }

  /** The mixer after construction; nothing changes it later. */
  datatype Mixer = Mixer(
    sessionId: string, bodyprintId: string, profileId: Option<string>, priors: Priors,
    leftRate: Option<real>, rightRate: Option<real>,
    profilePhase: real, genericPhase: real, genericPeriod: int)

  predicate MixerOk(m: Mixer) {
    && 3300 <= m.genericPeriod <= 5199
    && (m.leftRate.Some? ==> 0.0 <= m.leftRate.value <= 600.0)
    && (m.rightRate.Some? ==> 0.0 <= m.rightRate.value <= 600.0)
  }

  /** One side of the blink evidence in a validated face profile. */
  datatype BlinkEvidence = BlinkEvidence(samples: int, perMinute: Option<real>)

  datatype PriorEvidence = PriorEvidence(samples: int, mean: real, coverage: real)

  datatype FaceProfile = FaceProfile(
    id: string, canonical: string, jawOpen: PriorEvidence, smile: PriorEvidence, frown: PriorEvidence,
    browInnerUp: PriorEvidence, browDown: PriorEvidence, left: BlinkEvidence, right: BlinkEvidence)

  function PriorOf(e: PriorEvidence): Option<Prior> {
    if e.samples > 0 then Some(Prior(e.mean, e.coverage)) else None
  }

  predicate PriorEvidenceOk(e: PriorEvidence) {
    e.samples > 0 ==> IsUnit(e.mean) && IsUnit(e.coverage)
  }

  function RateOf(e: BlinkEvidence): Option<real> {
    if e.samples >= 2 then e.perMinute else None
  }

  predicate RateOk(e: BlinkEvidence) {
    RateOf(e).Some? ==> 0.0 <= RateOf(e).value <= 600.0
  }

  predicate ProfileOk(p: FaceProfile) {
    && PriorEvidenceOk(p.jawOpen) && PriorEvidenceOk(p.smile) && PriorEvidenceOk(p.frown)
    && PriorEvidenceOk(p.browInnerUp) && PriorEvidenceOk(p.browDown) && RateOk(p.left) && RateOk(p.right)
  }

  /** The constructor: None where it raises. `hex` renders a digest as text. */
  function NewMixer(sha: string -> seq<int>, hex: string -> string, sessionId: string, bodyprintId: string, p: FaceProfile): Option<Mixer>
    requires IsDigest(sha)
  {
    if sessionId == "" || bodyprintId == "" || !ProfileOk(p) then None
    else
      var text := sessionId + ":" + bodyprintId;
      var mine, generic := sha(text + ":" + hex(p.canonical)), sha(text);
      Some(Mixer(sessionId, bodyprintId, Some(p.id),
                 Priors(PriorOf(p.jawOpen), PriorOf(p.smile), PriorOf(p.frown), PriorOf(p.browInnerUp), PriorOf(p.browDown)),
                 RateOf(p.left), RateOf(p.right),
                 Phase(mine, 0), Phase(generic, 0), GenericPeriod(generic)))
  }

  lemma NewMixerOk(sha: string -> seq<int>, hex: string -> string, sessionId: string, bodyprintId: string, p: FaceProfile)
    requires IsDigest(sha) && NewMixer(sha, hex, sessionId, bodyprintId, p).Some?
    ensures MixerOk(NewMixer(sha, hex, sessionId, bodyprintId, p).value)
  {
    DigestRanges(sha, sessionId + ":" + bodyprintId, 0);
  }

  function EyePhase(m: Mixer, rate: Option<real>): real {
    if rate.Some? then m.profilePhase else m.genericPhase
  }

  function Eye(m: Mixer, rate: Option<real>, t: int): real
    requires MixerOk(m)
  {
    Blink(EyePhase(m, rate), BlinkPeriod(rate, m.genericPeriod), t)
  }

  function RateSource(rate: Option<real>): string {
    if rate.Some? then "profile" else "generic"
  }

  /** `FaceBehaviorMixer.render`, for a snapshot of this session whose numbers are in
      range. `name` is the emotion stripped and lowered. */
  function Channels(m: Mixer, s: Snapshot, name: string, t: int, mouth: real): seq<Channel>
    requires MixerOk(m)
  {
    var face := SemanticFace(name, s.emotionIntensity);
    [Channel("blink_left", Eye(m, m.leftRate, t), RateSource(m.leftRate)),
     Channel("blink_right", Eye(m, m.rightRate, t), RateSource(m.rightRate)),
     if s.state.Speaking? then Channel("jaw_open", mouth, "speech") else Personalize("jaw_open", m.priors.jawOpen, face.jawOpen),
     Personalize("smile", m.priors.smile, face.smile),
     Personalize("frown", m.priors.frown, face.frown),
     Personalize("brow_inner_up", m.priors.browInnerUp, face.browInnerUp),
     Personalize("brow_down", m.priors.browDown, face.browDown)]
  }

  /** `FaceBehaviorMixer.render` as the program builds it: two eyes, the jaw, then the rest
      of the face in order. */
  method RenderFace(m: Mixer, s: Snapshot, name: string, t: int, mouth: real) returns (channels: seq<Channel>)
    requires MixerOk(m)
    ensures channels == Channels(m, s, name, t, mouth)
  {
    var face := SemanticFace(name, s.emotionIntensity);
    channels := [Channel("blink_left", Eye(m, m.leftRate, t), RateSource(m.leftRate)),
                 Channel("blink_right", Eye(m, m.rightRate, t), RateSource(m.rightRate))];
    if s.state == Speaking {
      channels := channels + [Channel("jaw_open", mouth, "speech")];
    } else {
      channels := channels + [Personalize("jaw_open", m.priors.jawOpen, face.jawOpen)];
    }
    var rest := [("smile", m.priors.smile, face.smile), ("frown", m.priors.frown, face.frown),
                 ("brow_inner_up", m.priors.browInnerUp, face.browInnerUp), ("brow_down", m.priors.browDown, face.browDown)];
    ghost var expected := Channels(m, s, name, t, mouth);
    for i := 0 to |rest|
      invariant channels == expected[..3 + i]
    {
      channels := channels + [Personalize(rest[i].0, rest[i].1, rest[i].2)];
      assert expected[3 + i] == Personalize(rest[i].0, rest[i].1, rest[i].2);
    }
    assert expected[..7] == expected;
  }

  lemma PersonalizeIsUnit(name: string, prior: Option<Prior>, semantic: real)
    ensures IsUnit(Personalize(name, prior, semantic).value)
    ensures Personalize(name, prior, semantic).name == name
    ensures Personalize(name, prior, semantic).source in {"semantic", "profile_semantic"}
  {
    BoundedIsUnit(semantic);
    if prior.Some? { BoundedIsUnit(Shifted(prior.value, semantic)); }
  }

  // ----- what a profile gives -----

  /** Where the evidence of a profile goes: each expression's mean and coverage if it was seen
      at all, each eye's rate if at least two blinks were, and the profile's own id. */
  lemma ProfileTells(sha: string -> seq<int>, hex: string -> string, sessionId: string, bodyprintId: string, p: FaceProfile)
    requires IsDigest(sha) && NewMixer(sha, hex, sessionId, bodyprintId, p).Some?
    ensures var m := NewMixer(sha, hex, sessionId, bodyprintId, p).value;
            && m.profileId == Some(p.id) && m.sessionId == sessionId && m.bodyprintId == bodyprintId
            && SeenAs(p.jawOpen, m.priors.jawOpen) && SeenAs(p.smile, m.priors.smile) && SeenAs(p.frown, m.priors.frown)
            && SeenAs(p.browInnerUp, m.priors.browInnerUp) && SeenAs(p.browDown, m.priors.browDown)
            && m.leftRate == (if p.left.samples >= 2 then p.left.perMinute else None)
            && m.rightRate == (if p.right.samples >= 2 then p.right.perMinute else None)
  {
  }

  predicate SeenAs(e: PriorEvidence, p: Option<Prior>) {
    if e.samples > 0 then p == Some(Prior(e.mean, e.coverage)) else p == None
  }

  /** An eye blinks at its observed rate: a minute holds that many periods, to within half a
      millisecond a period, as long as a period lasts from 500 ms to 15 s; a rate of zero
      never blinks, and without evidence the generic period applies. */
  lemma CadenceFollowsRate(rate: real, generic: int)
    requires rate > 0.0
    ensures BlinkPeriod(None, generic) == Some(generic) && BlinkPeriod(Some(0.0), generic) == None
    ensures BlinkPeriod(Some(rate), generic).Some? && 500 <= BlinkPeriod(Some(rate), generic).value <= 15000
    ensures var period := BlinkPeriod(Some(rate), generic).value;
            4.0 <= rate <= 120.0 ==> -rate <= 2.0 * (period as real * rate - 60000.0) <= rate
    ensures rate >= 120.0 ==> BlinkPeriod(Some(rate), generic) == Some(500)
    ensures rate <= 4.0 ==> BlinkPeriod(Some(rate), generic) == Some(15000)
  {
    var q := 60000.0 / rate;
    assert q * rate == 60000.0;
    QuotientIs(120.0 * 500.0, 120.0, 500.0);
    RateBounds(rate);
    RoundKeepsBounds(q, 500);
    RoundKeepsBounds(q, 15000);
    var e := RoundHalfEven(q) as real - q;
    assert -0.5 <= e <= 0.5;
    ProductSign(rate, e + 0.5);
    ProductSign(rate, 0.5 - e);
    assert RoundHalfEven(q) as real * rate == q * rate + rate * e;
  }

  lemma RateBounds(rate: real)
    requires rate > 0.0
    ensures rate >= 120.0 ==> 60000.0 / rate <= 500.0
    ensures rate <= 120.0 ==> 60000.0 / rate >= 500.0
    ensures rate >= 4.0 ==> 60000.0 / rate <= 15000.0
    ensures rate <= 4.0 ==> 60000.0 / rate >= 15000.0
  {
    var q := 60000.0 / rate;
    assert q * rate == 60000.0;
    QuotientIs(500.0 * rate, rate, 500.0);
    QuotientIs(15000.0 * rate, rate, 15000.0);
    QuotientOrder(60000.0, 500.0 * rate, rate);
    QuotientOrder(500.0 * rate, 60000.0, rate);
    QuotientOrder(60000.0, 15000.0 * rate, rate);
    QuotientOrder(15000.0 * rate, 60000.0, rate);
  }

  // ----- what a face shows -----

  /** Each emotion moves its own features, in proportion to its intensity: the glad ones
      smile, the sad and the angry frown, the angry lower their brows more than anyone, the
      surprised open the jaw and raise their brows most, and an unknown name shows nothing. */
  lemma EmotionShows(name: string, intensity: real)
    requires intensity > 0.0
    ensures var face := SemanticFace(name, intensity);
            && (face.smile > 0.0 <==> name in {"happy", "joy", "joyful", "amused", "excited", "pleased", "warm"})
            && (face.jawOpen > 0.0 <==> name in {"surprised", "astonished"})
            && (face.frown > 0.0 <==>
                  name in {"sad", "concerned", "disappointed", "worried"} || name in {"angry", "frustrated", "annoyed"})
            && (face.browDown > 0.0 <==>
                  name in {"angry", "frustrated", "annoyed"} || name in {"thoughtful", "curious", "thinking"})
            && (face.browInnerUp > 0.0 <==> face != Face(0.0, 0.0, 0.0, 0.0, 0.0) && name !in {"angry", "frustrated", "annoyed"})
    ensures var unit, face := SemanticFace(name, 1.0), SemanticFace(name, intensity);
            face == Face(unit.jawOpen * intensity, unit.smile * intensity, unit.frown * intensity,
                         unit.browInnerUp * intensity, unit.browDown * intensity)
    ensures SemanticFace("joy", 1.0) == Face(0.0, 0.85, 0.0, 0.12, 0.0) && SemanticFace("sad", 1.0) == Face(0.0, 0.0, 0.72, 0.55, 0.0)
    ensures SemanticFace("angry", 1.0) == Face(0.0, 0.0, 0.52, 0.0, 0.85)
    ensures SemanticFace("surprised", 1.0) == Face(0.55, 0.0, 0.0, 0.92, 0.0)
    ensures SemanticFace("curious", 1.0) == Face(0.0, 0.0, 0.0, 0.28, 0.08)
  {
    GroupsApart(name);
  }

  lemma GroupsApart(name: string)
    ensures name in POSITIVE ==> name !in SAD && name !in ANGRY && name !in SURPRISED && name !in THOUGHTFUL
    ensures name in SAD ==> name !in ANGRY && name !in SURPRISED && name !in THOUGHTFUL
    ensures name in ANGRY ==> name !in SURPRISED && name !in THOUGHTFUL
    ensures name in SURPRISED ==> name !in THOUGHTFUL
  {
  }

  /** An observed mean above one half makes a feature stronger, one below weaker, by at most
      30 percent and in proportion to the coverage; a mean of one half or no coverage leaves
      it as it is. */
  lemma PriorsShift(name: string, p: Prior, semantic: real)
    requires IsUnit(p.mean) && IsUnit(p.coverage) && IsUnit(semantic)
    ensures var plain, mine := Personalize(name, None, semantic).value, Personalize(name, Some(p), semantic).value;
            && plain == Round6(semantic)
            && (p.mean >= 0.5 ==> mine >= plain) && (p.mean <= 0.5 ==> mine <= plain)
            && Round6(Max(0.0, Min(1.0, 0.7 * semantic))) <= mine <= Round6(Max(0.0, Min(1.0, 1.3 * semantic)))
            && (p.mean == 0.5 || p.coverage == 0.0 ==> mine == plain)
    ensures Personalize(name, Some(Prior(1.0, 1.0)), semantic).value == Round6(Min(1.0, 1.3 * semantic))
  {
    hide Bounded, Shifted;
    var x := Shifted(p, semantic);
    ShiftedValue(p, semantic);
    BoundedGrows(0.7 * semantic, x);
    BoundedGrows(x, 1.3 * semantic);
    if p.mean >= 0.5 { BoundedGrows(semantic, x); }
    if p.mean <= 0.5 { BoundedGrows(x, semantic); }
    BoundedParts(semantic);
    BoundedParts(0.7 * semantic);
    BoundedParts(1.3 * semantic);
    ShiftedMost(semantic);
  }

  lemma ShiftedMost(semantic: real)
    ensures Shifted(Prior(1.0, 1.0), semantic) == 1.3 * semantic
  {
  }

  lemma BoundedParts(x: real)
    ensures Bounded(x) == Round6(Max(0.0, Min(1.0, x)))
    ensures x >= 0.0 ==> Bounded(x) == Round6(Min(1.0, x))
    ensures IsUnit(x) ==> Bounded(x) == Round6(x)
  {
  }

  lemma ShiftedValue(p: Prior, semantic: real)
    requires IsUnit(p.mean) && IsUnit(p.coverage) && IsUnit(semantic)
    ensures var x := Shifted(p, semantic);
            && 0.7 * semantic <= x <= 1.3 * semantic && (p.mean >= 0.5 ==> x >= semantic) && (p.mean <= 0.5 ==> x <= semantic)
            && (p.mean == 0.5 || p.coverage == 0.0 ==> x == semantic)
  {
    var shift := (p.mean - 0.5) * 0.6 * p.coverage;
    ShiftRange(p.mean, p.coverage);
    assert semantic * (1.0 + shift) == semantic + semantic * shift;
    if p.mean >= 0.5 { ProductSign(semantic, shift); }
    if p.mean <= 0.5 { ProductSign(semantic, -shift); }
    ProductSign(semantic, shift + 0.3);
    ProductSign(semantic, 0.3 - shift);
  }

  lemma ShiftRange(mean: real, coverage: real)
    requires IsUnit(mean) && IsUnit(coverage)
    ensures var shift := (mean - 0.5) * 0.6 * coverage;
            && -0.3 <= shift <= 0.3 && (mean >= 0.5 ==> shift >= 0.0) && (mean <= 0.5 ==> shift <= 0.0)
            && (mean == 0.5 || coverage == 0.0 ==> shift == 0.0)
  {
    var a := (mean - 0.5) * 0.6;
    assert -0.3 <= a <= 0.3;
    if a >= 0.0 {
      ProductSign(a, coverage);
      ProductSign(a, 1.0 - coverage);
    } else {
      ProductSign(-a, coverage);
      ProductSign(-a, 1.0 - coverage);
    }
    assert a * coverage + a * (1.0 - coverage) == a;
  }

  lemma BoundedGrows(x: real, y: real)
    requires x <= y
    ensures Bounded(x) <= Bounded(y)
  {
    var u, v := Max(0.0, Min(1.0, x)) * 1000000.0, Max(0.0, Min(1.0, y)) * 1000000.0;
    assert RoundHalfEven(u) <= RoundHalfEven(v);
  }

  /** A blink closes and opens the same way, and is complete in the middle of its pulse. */
  lemma BlinkIsSymmetric(phase: real, period: int, t: int, u: int)
    requires period >= 500
    requires 0 <= Position(phase, period, t) <= PulseMs(period)
    requires Position(phase, period, u) == PulseMs(period) - Position(phase, period, t)
    ensures Blink(phase, Some(period), t) == Blink(phase, Some(period), u)
    ensures 2 * Position(phase, period, t) == PulseMs(period) ==> Blink(phase, Some(period), t) == 1.0
  {
    var pulse, p := PulseMs(period), Position(phase, period, t);
    var half := pulse as real / 2.0;
    QuotientIs(half, half, 1.0);
    QuotientIs(0.0, half, 0.0);
    Round6KeepsBounds(1.0, 1000000);
    Round6KeepsBounds(0.0, 0);
  }

  // ----- when the eyes agree -----

  /** The two eyes blink with one period, rounding and clamping included, and stand at one
      place of the cycle at instant zero. */
  predicate SameCadence(m: Mixer)
    requires MixerOk(m)
  {
    var left, right := BlinkPeriod(m.leftRate, m.genericPeriod), BlinkPeriod(m.rightRate, m.genericPeriod);
    && left == right
    && (left.Some? ==>
          Position(EyePhase(m, m.leftRate), left.value, 0) == Position(EyePhase(m, m.rightRate), left.value, 0))
  }

  lemma SameShift(x: int, y: int, t: int, p: int)
    requires p > 0 && x % p == y % p
    ensures (t + x) % p == (t + y) % p
  {
    var turns := (t + y) / p + x / p - y / p;
    assert turns * p == (t + y) / p * p + x / p * p - y / p * p;
    RemainderIs(t + x, p, turns, (t + y) % p);
  }

  /** Two eyes of one period that once stand at one place always do. */
  lemma PositionsStay(a: real, b: real, p: int, t: int, u: int)
    requires p > 0 && Position(a, p, t) == Position(b, p, t)
    ensures Position(a, p, u) == Position(b, p, u)
  {
    hide Start;
    var x, y := Start(a, p), Start(b, p);
    SameShift(t + x, t + y, u - t, p);
    assert u - t + (t + x) == u + x && u - t + (t + y) == u + y;
  }

  /** The position just before a lit instant, if not itself lit, starts the cycle. */
  lemma LitAfterDark(phase: real, p: int, t: int)
    requires p >= 500 && !Lit(phase, p, t)
    ensures Lit(phase, p, t + 1) <==> Position(phase, p, t) == 0
  {
    PositionAdvances(phase, p, t);
  }

  /** Of two cycles that start together, the shorter is lit again while the longer is dark. */
  lemma ShorterIsFirst(a: real, p: int, b: real, q: int, t: int)
    requires 500 <= p < q && Position(a, p, t) == 0 && Position(b, q, t) == 0
    ensures Lit(a, p, t + p + 1) && !Lit(b, q, t + p + 1)
  {
    PositionAdvances(a, p, t);
    LitAfterDark(a, p, t + p);
    LitFromStart(b, q, t, p);
    PositionAdvances(b, q, t + p);
  }

  /** Two eyes of different cadence are somewhere lit and dark at once. */
  lemma CadencesDiffer(a: real, p: int, b: real, q: int) returns (t: nat)
    requires p >= 500 && q >= 500 && (p == q ==> Position(a, p, 0) != Position(b, q, 0))
    ensures Lit(a, p, t) != Lit(b, q, t)
  {
    t := q - Position(b, q, 0);
    StepsToStart(b, q, 0, t);
    if !Lit(a, p, t) {
      LitAfterDark(a, p, t);
      LitAfterDark(b, q, t);
      if Position(a, p, t) != 0 {
        t := t + 1;
      } else if p < q {
        ShorterIsFirst(a, p, b, q, t);
        t := t + p + 1;
      } else if q < p {
        ShorterIsFirst(b, q, a, p, t);
        t := t + q + 1;
      } else {
        PositionsStay(a, b, p, t, 0);
      }
    }
  }

  lemma EyesDiffer(m: Mixer) returns (t: nat)
    requires MixerOk(m) && !SameCadence(m)
    ensures Eye(m, m.leftRate, t) != Eye(m, m.rightRate, t)
  {
    hide Position, PulseMs;
    var left, right := BlinkPeriod(m.leftRate, m.genericPeriod), BlinkPeriod(m.rightRate, m.genericPeriod);
    var a, b := EyePhase(m, m.leftRate), EyePhase(m, m.rightRate);
    if left.None? {
      t := SomeLit(b, right.value);
    } else if right.None? {
      t := SomeLit(a, left.value);
    } else {
      t := CadencesDiffer(a, left.value, b, right.value);
      LitInsidePulse(a, left.value, t);
      LitInsidePulse(b, right.value, t);
    }
  }

  lemma SomeLit(phase: real, p: int) returns (t: nat)
    requires p >= 500
    ensures Blink(phase, Some(p), t) > 0.0
  {
    t := p - Position(phase, p, 0);
    StepsToStart(phase, p, 0, t);
    LitAfterDark(phase, p, t);
    t := t + 1;
    LitInsidePulse(phase, p, t);
  }

  /** The rendered eyes show the same value for ever exactly when their cadences are the
      same; evidence of one rate for both is enough, and so are two rates that round or
      clamp to one period. */
  lemma EyesAgree(m: Mixer, s: Snapshot, name: string, mouth: real)
    requires MixerOk(m)
    ensures (forall t: nat :: Channels(m, s, name, t, mouth)[0].value == Channels(m, s, name, t, mouth)[1].value) <==>
            SameCadence(m)
    ensures m.leftRate == m.rightRate ==> SameCadence(m)
    ensures m.leftRate.Some? && m.rightRate.Some? ==>
            (SameCadence(m) <==> BlinkPeriod(m.leftRate, m.genericPeriod) == BlinkPeriod(m.rightRate, m.genericPeriod))
  {
    if SameCadence(m) {
      forall t: nat ensures Channels(m, s, name, t, mouth)[0].value == Channels(m, s, name, t, mouth)[1].value {
        EyesStayTogether(m, t);
      }
    } else {
      var t := EyesDiffer(m);
      assert Channels(m, s, name, t, mouth)[0].value != Channels(m, s, name, t, mouth)[1].value;
    }
  }

  lemma EyesStayTogether(m: Mixer, t: int)
    requires MixerOk(m) && SameCadence(m)
    ensures Eye(m, m.leftRate, t) == Eye(m, m.rightRate, t)
  {
    var period := BlinkPeriod(m.leftRate, m.genericPeriod);
    if period.Some? { PositionsStay(EyePhase(m, m.leftRate), EyePhase(m, m.rightRate), period.value, 0, t); }
  }

  const CHANNEL_NAMES: seq<string> := ["blink_left", "blink_right", "jaw_open", "smile", "frown", "brow_inner_up", "brow_down"]

  const CHANNEL_SOURCES: set<string> := {"generic", "profile", "speech", "semantic", "profile_semantic"}

  /** Every rendered face has the seven channels in order, all within 0..1. */
  lemma ChannelsOk(m: Mixer, s: Snapshot, name: string, t: int, mouth: real)
    requires MixerOk(m) && IsUnit(mouth)
    ensures var c := Channels(m, s, name, t, mouth);
            |c| == |CHANNEL_NAMES| && forall i | 0 <= i < |c| ::
              c[i].name == CHANNEL_NAMES[i] && IsUnit(c[i].value) && c[i].source in CHANNEL_SOURCES
  {
    var face := SemanticFace(name, s.emotionIntensity);
    BlinkIsUnit(EyePhase(m, m.leftRate), BlinkPeriod(m.leftRate, m.genericPeriod), t);
    BlinkIsUnit(EyePhase(m, m.rightRate), BlinkPeriod(m.rightRate, m.genericPeriod), t);
    PersonalizeIsUnit("jaw_open", m.priors.jawOpen, face.jawOpen);
    PersonalizeIsUnit("smile", m.priors.smile, face.smile);
    PersonalizeIsUnit("frown", m.priors.frown, face.frown);
    PersonalizeIsUnit("brow_inner_up", m.priors.browInnerUp, face.browInnerUp);
    PersonalizeIsUnit("brow_down", m.priors.browDown, face.browDown);
  }
}
