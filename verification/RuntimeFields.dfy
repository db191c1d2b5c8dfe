/** Every field of the runtime in terms of the calls it has received: which call in order
    last wrote it, and what it wrote. Rejected expression plans count as far as they got. */
module RuntimeFields {
  import opened Basics
  import opened Numbers
  import opened Runtime
  import opened RuntimeHistory

  // ----- names -----

  /** A name is read as the one state that has it as its text. */
  lemma StateNamesExactly(name: string, s: BodyState)
    ensures StateNamed(name) == Some(s) <==> name == StateName(s)
    ensures StateName(Idle) == "idle" && StateName(Listening) == "listening" && StateName(Thinking) == "thinking"
    ensures StateName(Speaking) == "speaking" && StateName(WaitingForTool) == "waiting_for_tool"
    ensures StateName(Interrupted) == "interrupted" && StateName(BodyState.Error) == "error"
  {
  }

  // ----- what a plan writes -----

  predicate WithinUnit(n: Option<Number>) {
    n.None? || (n.value.Finite? && 0.0 <= n.value.value <= 1.0)
  }

  predicate HasName(c: Cue) {
    c.Cue? && c.name.Some? && c.name.value != ""
  }

  predicate CueFits(c: Cue) {
    HasName(c) && WithinUnit(c.intensity)
  }

  /** The cue is missing or proper, so that the plan goes on behind it. */
  predicate GoesOn(c: Cue) {
    c == NoCue || CueFits(c)
  }

  function PlanState(p: Plan): Option<BodyState> {
    if p.state.Some? then StateNamed(p.state.value) else None
  }

  function PlanGesture(p: Plan): Option<Option<string>> {
    if PlanState(p).Some? && GoesOn(p.gesture) then Some(if p.gesture == NoCue then None else p.gesture.name) else None
  }

  function PlanGaze(p: Plan): Option<Option<string>> {
    if PlanGesture(p).Some? && GoesOn(p.gaze) then Some(if p.gaze == NoCue then None else p.gaze.name) else None
  }

  /** The name is written even where the intensity is then refused. */
  function PlanEmotion(p: Plan): Option<string> {
    if PlanGaze(p).None? then None
    else if p.emotion == NoCue then Some("neutral")
    else if HasName(p.emotion) then p.emotion.name
    else None
  }

  function PlanIntensity(p: Plan): Option<real> {
    if PlanEmotion(p).None? then None
    else if p.emotion == NoCue then Some(0.0)
    else if p.emotion.intensity.None? then Some(0.5)
    else if WithinUnit(p.emotion.intensity) then Some(p.emotion.intensity.value.value)
    else None
  }

  function PlanEnergy(p: Plan): Option<real> {
    if PlanIntensity(p).Some? && p.energy.Some? && WithinUnit(p.energy) then Some(p.energy.value.value) else None
  }

  predicate PlanAccepted(p: Plan) {
    PlanIntensity(p).Some? && WithinUnit(p.energy)
  }

  function Updated<T>(write: Option<T>, before: T): T {
    if write.Some? then write.value else before
  }

  lemma EmotionWrites(s: Snapshot, p: Plan)
    requires PlanGaze(p).Some?
    ensures var (t, ok) := ExpressEmotion(s, p.emotion);
            && t == s.(emotion := Updated(PlanEmotion(p), s.emotion), emotionIntensity := Updated(PlanIntensity(p), s.emotionIntensity))
            && (ok <==> PlanIntensity(p).Some?)
  {
  }

  lemma CueChecks(c: Cue, default: real)
    requires IsUnit(default)
    ensures CueOk(c, default) <==> CueFits(c)
  {
  }

  lemma PlanWrites(s: Snapshot, p: Plan)
    requires IsUnit(s.energy)
    ensures var (t, reason) := Express(s, p);
            && (reason.None? <==> PlanAccepted(p))
            && t == s.(state := Updated(PlanState(p), s.state), gesture := Updated(PlanGesture(p), s.gesture),
                       gaze := Updated(PlanGaze(p), s.gaze), emotion := Updated(PlanEmotion(p), s.emotion),
                       emotionIntensity := Updated(PlanIntensity(p), s.emotionIntensity),
                       energy := Updated(PlanEnergy(p), s.energy))
  {
    hide StateNamed, ExpressEmotion, CueOk, CueFits;
    CueChecks(p.gesture, 0.5);
    CueChecks(p.gaze, 1.0);
    if PlanGaze(p).Some? {
      EmotionWrites(s.(state := PlanState(p).value, gesture := PlanGesture(p).value, gaze := PlanGaze(p).value), p);
    }
  }

  // ----- what a call writes, from the history alone -----

  /** Utterance `u` has the floor before call `i`. */
  predicate Held(h: seq<Event>, i: nat, u: string)
    requires i <= |h|
  {
    exists k | 0 <= k < i :: HeldSince(h, k, i, u)
  }

  /** Call `i` is in order and ends the utterance that has the floor. */
  predicate Ends(h: seq<Event>, i: nat)
    requires i < |h|
  {
    Fresh(h, i) && h[i].EndSpeech? && Held(h, i, h[i].id)
  }

  /** Call `i` is in order and cancels everything, or the utterance that has the floor. */
  predicate Interrupts(h: seq<Event>, i: nat)
    requires i < |h|
  {
    && Fresh(h, i) && h[i].Cancel?
    && (h[i].scope == "all" || (h[i].scope == "utterance" && h[i].target.Some? && h[i].target.value != "" && Held(h, i, h[i].target.value)))
  }

  function StateWrite(h: seq<Event>, i: nat): Option<BodyState>
    requires i < |h|
  {
    if !Fresh(h, i) then None
    else if h[i].ApplyState? then StateNamed(h[i].state)
    else if h[i].ApplyPlan? then PlanState(h[i].plan)
    else if h[i].StartSpeech? && Starts(h, i, h[i].id) then Some(Speaking)
    else if Ends(h, i) then Some(Idle)
    else if Interrupts(h, i) then Some(Interrupted)
    else if h[i].SetHealth? && h[i].health == "error" then Some(BodyState.Error)
    else None
  }

  function GestureWrite(h: seq<Event>, i: nat): Option<Option<string>>
    requires i < |h|
  {
    if !Fresh(h, i) then None
    else if h[i].ApplyState? then (if StateNamed(h[i].state).Some? && h[i].state != "speaking" then Some(None) else None)
    else if h[i].ApplyPlan? then PlanGesture(h[i].plan)
    else if Ends(h, i) || Interrupts(h, i) || (h[i].Cancel? && h[i].scope == "gesture") then Some(None)
    else None
  }

  function GazeWrite(h: seq<Event>, i: nat): Option<Option<string>>
    requires i < |h|
  {
    if Fresh(h, i) && h[i].ApplyPlan? then PlanGaze(h[i].plan) else None
  }

  function EmotionWrite(h: seq<Event>, i: nat): Option<string>
    requires i < |h|
  {
    if Fresh(h, i) && h[i].ApplyPlan? then PlanEmotion(h[i].plan) else None
  }

  function IntensityWrite(h: seq<Event>, i: nat): Option<real>
    requires i < |h|
  {
    if Fresh(h, i) && h[i].ApplyPlan? then PlanIntensity(h[i].plan) else None
  }

  function EnergyWrite(h: seq<Event>, i: nat): Option<real>
    requires i < |h|
  {
    if Fresh(h, i) && h[i].ApplyPlan? then PlanEnergy(h[i].plan) else None
  }

  function HealthWrite(h: seq<Event>, i: nat): Option<string>
    requires i < |h|
  {
    if Fresh(h, i) && h[i].SetHealth? && h[i].health in {"ok", "degraded", "error"} then Some(h[i].health) else None
  }

  /** Call `i` is answered without an error. */
  predicate IsAccepted(h: seq<Event>, i: nat)
    requires i < |h|
  {
    && Fresh(h, i)
    && match h[i]
       case ApplyState(_, name) => StateNamed(name).Some?
       case ApplyPlan(_, plan) => PlanAccepted(plan)
       case StartSpeech(_, u) => Starts(h, i, u)
       case SpeechFrame(_, _) => true
       case EndSpeech(_, u) => Held(h, i, u) || exists j | 0 <= j < i :: Silences(h, j, u)
       case Cancel(_, scope, target) =>
         scope == "gesture" || scope == "all" || (scope == "utterance" && target.Some? && target.value != "")
       case SetHealth(_, health) => health in {"ok", "degraded", "error"}
  }

  // ----- one call -----

  /** The machine agrees with the history so far. */
  ghost predicate Follows(m: Machine, h: seq<Event>, n: nat)
    requires n <= |h|
  {
    && InRange(m)
    && (n < |h| ==> (Fresh(h, n) <==> h[n].sequence > m.snapshot.sequence && h[n].sequence >= 0))
    && (forall u :: m.snapshot.active == Some(u) <==> Held(h, n, u))
    && (forall u :: u in m.cancelled <==> exists j | 0 <= j < n :: Silences(h, j, u))
  }

  lemma RunsFollow(m: Machine, h: seq<Event>, n: nat)
    requires n <= |h| && InRange(m)
    requires m.snapshot.sequence == -1 && m.snapshot.active == None && m.cancelled == {}
    ensures Follows(After(m, h, n), h, n)
  {
    hide HeldSince, Silences, InRange, Fresh;
    EveryRunInRange(m, h, 0, n);
    SequenceIsRecord(m, h, n);
    RuntimeFollowsHistory(m, h, n);
    forall u
      ensures After(m, h, n).snapshot.active == Some(u) <==> Held(h, n, u)
      ensures u in After(m, h, n).cancelled <==> exists j | 0 <= j < n :: Silences(h, j, u)
    {
      ActiveByMeaning(h, n, u);
      CancelledByMeaning(h, n, u);
    }
    FreshIsNotNegative(h, n, After(m, h, n).snapshot.sequence);
  }

  lemma FreshIsNotNegative(h: seq<Event>, n: nat, last: int)
    requires n <= |h| && last >= -1
    ensures n < |h| && Fresh(h, n) ==> h[n].sequence >= 0
  {
  }

  lemma StartsExactly(m: Machine, h: seq<Event>, n: nat, u: string)
    requires n < |h| && Follows(m, h, n) && h[n].StartSpeech? && h[n].id == u
    ensures Starts(h, n, u) <==> Fresh(h, n) && u != "" && u !in m.cancelled
  {
    hide Silences;
    CancelledByMeaning(h, n, u);
  }

  /** What one more call does to each field. */
  lemma CallWrites(m: Machine, h: seq<Event>, n: nat)
    requires n < |h| && Follows(m, h, n)
    ensures var s, t := m.snapshot, Apply(m, h[n]).0.snapshot;
            && t.state == Updated(StateWrite(h, n), s.state) && t.gesture == Updated(GestureWrite(h, n), s.gesture)
            && t.gaze == Updated(GazeWrite(h, n), s.gaze) && t.emotion == Updated(EmotionWrite(h, n), s.emotion)
            && t.emotionIntensity == Updated(IntensityWrite(h, n), s.emotionIntensity)
            && t.energy == Updated(EnergyWrite(h, n), s.energy) && t.health == Updated(HealthWrite(h, n), s.health)
    ensures Apply(m, h[n]).1.Rejected? <==> !IsAccepted(h, n)
    ensures Apply(m, h[n]).1.FrameVerdict? <==> Fresh(h, n) && h[n].SpeechFrame?
    ensures Apply(m, h[n]).1.FrameVerdict? ==> (Apply(m, h[n]).1.live <==> Held(h, n, h[n].id))
  {
    hide HeldSince, Silences, Fresh, Starts, Express, PlanState, PlanGesture, PlanGaze, PlanEmotion, PlanIntensity, PlanEnergy,
         PlanAccepted, Held;
    if Fresh(h, n) {
      match h[n] {
        case ApplyState(_, name) => StateNamesExactly(name, Speaking);
        case ApplyPlan(_, plan) =>
          PlanWrites(m.snapshot.(sequence := h[n].sequence), plan);
          assert Express(m.snapshot.(sequence := h[n].sequence), plan).1.None? <==> PlanAccepted(plan);
          assert Apply(m, h[n]) == Dispatch(m.(snapshot := m.snapshot.(sequence := h[n].sequence)), h[n]);
          assert Apply(m, h[n]).1.Rejected? <==> !PlanAccepted(plan);
          assert IsAccepted(h, n) <==> PlanAccepted(plan);
        case StartSpeech(_, u) => StartsExactly(m, h, n, u);
        case _ =>
      }
    } else {
      assert Apply(m, h[n]).0 == m;
    }
  }

  // ----- whole histories -----

  /** The value is what the last of the first `n` writes wrote, or the default without one. */
  predicate IsLatest<T(==)>(writes: seq<Option<T>>, n: nat, default: T, value: T)
    requires n <= |writes|
  {
    || (value == default && forall i | 0 <= i < n :: writes[i].None?)
    || exists i | 0 <= i < n :: writes[i] == Some(value) && forall k | i < k < n :: writes[k].None?
  }

  lemma LatestSnoc<T>(writes: seq<Option<T>>, n: nat, default: T, value: T)
    requires n < |writes| && IsLatest(writes, n, default, value)
    ensures IsLatest(writes, n + 1, default, Updated(writes[n], value))
  {
    if writes[n].None? && !(value == default && forall i | 0 <= i < n :: writes[i].None?) {
      var i :| 0 <= i < n && writes[i] == Some(value) && forall k | i < k < n :: writes[k].None?;
      assert forall k | i < k < n + 1 :: writes[k].None?;
    }
  }

  function Writes<T>(h: seq<Event>, write: (seq<Event>, nat) --> Option<T>): seq<Option<T>>
    requires forall i: nat | i < |h| :: write.requires(h, i)
  {
    seq(|h|, i requires 0 <= i < |h| => write(h, i))
  }

  /** After any calls whatever, every field holds what the last call in order that wrote it
      wrote. */
  ghost predicate FieldsSay(h: seq<Event>, n: nat, s: Snapshot)
    requires n <= |h|
  {
    && IsLatest(Writes(h, StateWrite), n, Idle, s.state)
    && IsLatest(Writes(h, GestureWrite), n, None, s.gesture)
    && IsLatest(Writes(h, GazeWrite), n, None, s.gaze)
    && IsLatest(Writes(h, EmotionWrite), n, "neutral", s.emotion)
    && IsLatest(Writes(h, IntensityWrite), n, 0.0, s.emotionIntensity)
    && IsLatest(Writes(h, EnergyWrite), n, 0.3, s.energy)
    && IsLatest(Writes(h, HealthWrite), n, "ok", s.health)
  }

  lemma {:induction false} FieldTheorem(sessionId: string, bodyprintId: string, h: seq<Event>, n: nat)
    requires n <= |h|
    ensures FieldsSay(h, n, After(Initial(sessionId, bodyprintId), h, n).snapshot)
  {
    hide Apply, Follows, IsLatest, StateWrite, GestureWrite, GazeWrite, EmotionWrite, IntensityWrite, EnergyWrite, HealthWrite;
    var m := Initial(sessionId, bodyprintId);
    if n == 0 {
      NothingWritten(h, m.snapshot);
    } else {
      FieldTheorem(sessionId, bodyprintId, h, n - 1);
      RunsFollow(m, h, n - 1);
      var before := After(m, h, n - 1);
      CallWrites(before, h, n - 1);
      LatestSnoc(Writes(h, StateWrite), n - 1, Idle, before.snapshot.state);
      LatestSnoc(Writes(h, GestureWrite), n - 1, None, before.snapshot.gesture);
      LatestSnoc(Writes(h, GazeWrite), n - 1, None, before.snapshot.gaze);
      LatestSnoc(Writes(h, EmotionWrite), n - 1, "neutral", before.snapshot.emotion);
      LatestSnoc(Writes(h, IntensityWrite), n - 1, 0.0, before.snapshot.emotionIntensity);
      LatestSnoc(Writes(h, EnergyWrite), n - 1, 0.3, before.snapshot.energy);
      LatestSnoc(Writes(h, HealthWrite), n - 1, "ok", before.snapshot.health);
    }
  }

  lemma NothingWritten(h: seq<Event>, s: Snapshot)
    requires s.state == Idle && s.gesture == None && s.gaze == None && s.emotion == "neutral" && s.emotionIntensity == 0.0
    requires s.energy == 0.3 && s.health == "ok"
    ensures FieldsSay(h, 0, s)
  {
  }

  /** And which calls are answered with an error, and which speech frames are live, follows
      from the calls alone. */
  lemma OutcomeTheorem(sessionId: string, bodyprintId: string, h: seq<Event>, n: nat)
    requires n < |h|
    ensures var outcome := Apply(After(Initial(sessionId, bodyprintId), h, n), h[n]).1;
            && (outcome.Rejected? <==> !IsAccepted(h, n))
            && (outcome.FrameVerdict? <==> Fresh(h, n) && h[n].SpeechFrame?)
            && (outcome.FrameVerdict? ==> (outcome.live <==> Held(h, n, h[n].id)))
  {
    hide Apply, Follows, IsAccepted;
    RunsFollow(Initial(sessionId, bodyprintId), h, n);
    CallWrites(After(Initial(sessionId, bodyprintId), h, n), h, n);
  }
}
