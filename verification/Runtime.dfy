/** The embodiment runtime: an ordered event machine whose rejected calls still consume a
    sequence number and may leave part of their update behind. */
module Runtime {
  import opened Basics
  import opened Numbers

  datatype BodyState = Idle | Listening | Thinking | Speaking | WaitingForTool | Interrupted | Error

  datatype CancelScope = ScopeUtterance | ScopeGesture | ScopeAll

  /** An optional object of an expression plan. `name` is None when the key is missing or
      not a string; `intensity` is None when the key is missing. */
  datatype Cue = NoCue | NotAnObject | Cue(name: Option<string>, intensity: Option<Number>)

  /** An expression plan. `state` is None when the key is missing; `energy` likewise. */
  datatype Plan = Plan(state: Option<string>, gesture: Cue, gaze: Cue, emotion: Cue, energy: Option<Number>)

  datatype Snapshot = Snapshot(
    sessionId: string, bodyprintId: string, sequence: int, state: BodyState,
    active: Option<string>, gesture: Option<string>, gaze: Option<string>,
    emotion: string, emotionIntensity: real, energy: real, health: string)

  datatype Rejection =
    | NegativeSequence | StaleSequence | UnsupportedState | BadGesture | BadGaze | BadEmotion
    | BadEnergy | MissingUtterance | CancelledUtterance | NotActive | UnsupportedScope | UnsupportedHealth

  const HEALTH_VALUES: set<string> := {"ok", "degraded", "error"}

  function StateNamed(name: string): Option<BodyState> {
    if name == "idle" then Some(Idle)
    else if name == "listening" then Some(Listening)
    else if name == "thinking" then Some(Thinking)
    else if name == "speaking" then Some(Speaking)
    else if name == "waiting_for_tool" then Some(WaitingForTool)
    else if name == "interrupted" then Some(Interrupted)
    else if name == "error" then Some(BodyState.Error)
    else None
  }

  /** The text of a state. */
  function StateName(s: BodyState): string {
    match s
    case Idle => "idle" case Listening => "listening" case Thinking => "thinking" case Speaking => "speaking"
    case WaitingForTool => "waiting_for_tool" case Interrupted => "interrupted" case Error => "error"
  }

  function ScopeNamed(name: string): Option<CancelScope> {
    if name == "utterance" then Some(ScopeUtterance)
    else if name == "gesture" then Some(ScopeGesture)
    else if name == "all" then Some(ScopeAll)
    else None
  }

  function OrDefault(n: Option<Number>, x: real): Number {
    if n.Some? then n.value else Finite(x)
  }

  /** A non-empty name and an intensity within range. */
  predicate CueOk(c: Cue, default: real) {
    c.Cue? && c.name.Some? && c.name.value != "" && Unit(OrDefault(c.intensity, default)).Some?
  }

  // ----- the runtime as a value -----

  datatype Machine = Machine(snapshot: Snapshot, cancelled: set<string>)

  datatype Event =
    | ApplyState(sequence: int, state: string)
    | ApplyPlan(sequence: int, plan: Plan)
    | StartSpeech(sequence: int, id: string)
    | SpeechFrame(sequence: int, id: string)
    | EndSpeech(sequence: int, id: string)
    | Cancel(sequence: int, scope: string, target: Option<string>)
    | SetHealth(sequence: int, health: string)

  /** What the caller sees: the snapshot, a yes or no for a speech frame, or an error. */
  datatype Outcome = Accepted(snapshot: Snapshot) | FrameVerdict(live: bool) | Rejected(reason: Rejection)

  function Initial(sessionId: string, bodyprintId: string): Machine {
    Machine(Snapshot(sessionId, bodyprintId, -1, Idle, None, None, None, "neutral", 0.0, 0.3, "ok"), {})
  }

  function Apply(m: Machine, e: Event): (Machine, Outcome) {
    if e.sequence < 0 then (m, Rejected(NegativeSequence))
    else if e.sequence <= m.snapshot.sequence then (m, Rejected(StaleSequence))
    else Dispatch(m.(snapshot := m.snapshot.(sequence := e.sequence)), e)
  }

  function Done(m: Machine): (Machine, Outcome) {
    (m, Accepted(m.snapshot))
  }

  function Dispatch(m: Machine, e: Event): (Machine, Outcome) {
    var s := m.snapshot;
    match e
    case ApplyState(_, name) =>
      if StateNamed(name).None? then (m, Rejected(UnsupportedState))
      else
        var state := StateNamed(name).value;
        Done(m.(snapshot := s.(state := state, gesture := if state.Speaking? then s.gesture else None)))
    case ApplyPlan(_, plan) =>
      var (s1, reason) := Express(s, plan);
      if reason.Some? then (m.(snapshot := s1), Rejected(reason.value)) else Done(m.(snapshot := s1))
    case StartSpeech(_, id) =>
      if id == "" then (m, Rejected(MissingUtterance))
      else if id in m.cancelled then (m, Rejected(CancelledUtterance))
      else Done(m.(snapshot := s.(active := Some(id), state := Speaking)))
    case SpeechFrame(_, id) => (m, FrameVerdict(id !in m.cancelled && s.active == Some(id)))
    case EndSpeech(_, id) =>
      if id in m.cancelled then Done(m)
      else if s.active != Some(id) then (m, Rejected(NotActive))
      else Done(m.(snapshot := s.(active := None, gesture := None, state := Idle)))
    case Cancel(_, name, target) =>
      var interrupted := s.(active := None, gesture := None, state := Interrupted);
      (match ScopeNamed(name)
       case None => (m, Rejected(UnsupportedScope))
       case Some(ScopeUtterance) =>
         if target.None? || target.value == "" then (m, Rejected(MissingUtterance))
         else Done(Machine(if s.active == target then interrupted else s, m.cancelled + {target.value}))
       case Some(ScopeGesture) => Done(m.(snapshot := s.(gesture := None)))
       case Some(ScopeAll) =>
         Done(Machine(interrupted, if s.active.Some? then m.cancelled + {s.active.value} else m.cancelled)))
    case SetHealth(_, health) =>
      if health !in HEALTH_VALUES then (m, Rejected(UnsupportedHealth))
      else Done(m.(snapshot := s.(health := health, state := if health == "error" then BodyState.Error else s.state)))
  }

  /** An expression plan takes effect field by field and stops at the first bad one. */
  function Express(s: Snapshot, plan: Plan): (Snapshot, Option<Rejection>) {
    if plan.state.None? || StateNamed(plan.state.value).None? then (s, Some(UnsupportedState))
    else
      var s1 := s.(state := StateNamed(plan.state.value).value);
      if plan.gesture != NoCue && !CueOk(plan.gesture, 0.5) then (s1, Some(BadGesture))
      else
        var s2 := s1.(gesture := if plan.gesture.NoCue? then None else plan.gesture.name);
        if plan.gaze != NoCue && !CueOk(plan.gaze, 1.0) then (s2, Some(BadGaze))
        else
          var s3 := s2.(gaze := if plan.gaze.NoCue? then None else plan.gaze.name);
          var (s4, ok) := ExpressEmotion(s3, plan.emotion);
          if !ok then (s4, Some(BadEmotion))
          else
            var energy := Unit(OrDefault(plan.energy, s4.energy));
            if energy.None? then (s4, Some(BadEnergy)) else (s4.(energy := energy.value), None)
  }

  /** The emotion's name is stored before its intensity is checked. */
  function ExpressEmotion(s: Snapshot, c: Cue): (Snapshot, bool) {
    match c
    case NoCue => (s.(emotion := "neutral", emotionIntensity := 0.0), true)
    case NotAnObject => (s, false)
    case Cue(name, intensity) =>
      if name.None? || name.value == "" then (s, false)
      else
        var strength := Unit(OrDefault(intensity, 0.5));
        if strength.None? then (s.(emotion := name.value), false)
        else (s.(emotion := name.value, emotionIntensity := strength.value), true)
  }

  // ----- the runtime as an object -----

  class BodyRigRuntime {
    const sessionId: string
    const bodyprintId: string
    var lastSequence: int
    var state: BodyState
    var active: Option<string>
    var gesture: Option<string>
    var cancelled: set<string>
    var gaze: Option<string>
    var emotion: string
    var emotionIntensity: real
    var energy: real
    var health: string

    constructor (sessionId: string, bodyprintId: string)
      requires sessionId != "" && bodyprintId != ""
      ensures View() == Initial(sessionId, bodyprintId)
    {
      this.sessionId, this.bodyprintId := sessionId, bodyprintId;
      lastSequence, state, active, gesture, cancelled := -1, Idle, None, None, {};
      gaze, emotion, emotionIntensity, energy, health := None, "neutral", 0.0, 0.3, "ok";
    }

    function TakeSnapshot(): Snapshot
      reads this
    {
      Snapshot(sessionId, bodyprintId, lastSequence, state, active, gesture, gaze, emotion, emotionIntensity, energy, health)
    }

    function View(): Machine
      reads this
    {
      Machine(TakeSnapshot(), cancelled)
    }

    /** `_accept_sequence`. */
    method AcceptSequence(sequence: int) returns (r: Option<Rejection>)
      modifies this`lastSequence
      ensures r == if sequence < 0 then Some(NegativeSequence)
                   else if sequence <= old(lastSequence) then Some(StaleSequence) else None
      ensures lastSequence == if r.None? then sequence else old(lastSequence)
    {
      if sequence < 0 { return Some(NegativeSequence); }
      if sequence <= lastSequence { return Some(StaleSequence); }
      lastSequence := sequence;
      return None;
    }

    method ApplyState(sequence: int, name: string) returns (r: Outcome)
      modifies this
      ensures (View(), r) == Apply(old(View()), Event.ApplyState(sequence, name))
    {
      var stale := AcceptSequence(sequence);
      if stale.Some? { return Rejected(stale.value); }
      var parsed := StateNamed(name);
      if parsed.None? { return Rejected(UnsupportedState); }
      state := parsed.value;
      if state != Speaking { gesture := None; }
      return Accepted(TakeSnapshot());
    }

    /** The emotion part of `apply_expression_plan`. */
    method ApplyEmotion(cue: Cue) returns (ok: bool)
      modifies this`emotion, this`emotionIntensity
      ensures (TakeSnapshot(), ok) == ExpressEmotion(old(TakeSnapshot()), cue)
    {
      if cue.NoCue? {
        emotion, emotionIntensity := "neutral", 0.0;
      } else {
        if cue.NotAnObject? || cue.name.None? || cue.name.value == "" { return false; }
        emotion := cue.name.value;
        var strength := Unit(OrDefault(cue.intensity, 0.5));
        if strength.None? { return false; }
        emotionIntensity := strength.value;
      }
      return true;
    }

    method ApplyExpressionPlan(sequence: int, plan: Plan) returns (r: Outcome)
      modifies this
      ensures (View(), r) == Apply(old(View()), ApplyPlan(sequence, plan))
    {
      hide StateNamed, Unit, ExpressEmotion;
      var stale := AcceptSequence(sequence);
      if stale.Some? { return Rejected(stale.value); }
      if plan.state.None? || StateNamed(plan.state.value).None? { return Rejected(UnsupportedState); }
      state := StateNamed(plan.state.value).value;
      if plan.gesture.NoCue? {
        gesture := None;
      } else {
        if !CueOk(plan.gesture, 0.5) { return Rejected(BadGesture); }
        gesture := plan.gesture.name;
      }
      if plan.gaze.NoCue? {
        gaze := None;
      } else {
        if !CueOk(plan.gaze, 1.0) { return Rejected(BadGaze); }
        gaze := plan.gaze.name;
      }
      var felt := ApplyEmotion(plan.emotion);
      if !felt { return Rejected(BadEmotion); }
      var newEnergy := Unit(OrDefault(plan.energy, energy));
      if newEnergy.None? { return Rejected(BadEnergy); }
      energy := newEnergy.value;
      return Accepted(TakeSnapshot());
    }

    method StartSpeech(sequence: int, id: string) returns (r: Outcome)
      modifies this
      ensures (View(), r) == Apply(old(View()), Event.StartSpeech(sequence, id))
    {
      var stale := AcceptSequence(sequence);
      if stale.Some? { return Rejected(stale.value); }
      if id == "" { return Rejected(MissingUtterance); }
      if id in cancelled { return Rejected(CancelledUtterance); }
      active, state := Some(id), Speaking;
      return Accepted(TakeSnapshot());
    }

    method AcceptSpeechFrame(sequence: int, id: string) returns (r: Outcome)
      modifies this
      ensures (View(), r) == Apply(old(View()), SpeechFrame(sequence, id))
    {
      var stale := AcceptSequence(sequence);
      if stale.Some? { return Rejected(stale.value); }
      if id in cancelled { return FrameVerdict(false); }
      return FrameVerdict(active == Some(id));
    }

    method EndSpeech(sequence: int, id: string) returns (r: Outcome)
      modifies this
      ensures (View(), r) == Apply(old(View()), Event.EndSpeech(sequence, id))
    {
      var stale := AcceptSequence(sequence);
      if stale.Some? { return Rejected(stale.value); }
      if id in cancelled { return Accepted(TakeSnapshot()); }
      if active != Some(id) { return Rejected(NotActive); }
      active, gesture, state := None, None, Idle;
      return Accepted(TakeSnapshot());
    }

    method Cancel(sequence: int, name: string, target: Option<string>) returns (r: Outcome)
      modifies this
      ensures (View(), r) == Apply(old(View()), Event.Cancel(sequence, name, target))
    {
      var stale := AcceptSequence(sequence);
      if stale.Some? { return Rejected(stale.value); }
      var scope := ScopeNamed(name);
      if scope.None? { return Rejected(UnsupportedScope); }
      if scope.value == ScopeUtterance {
        if target.None? || target.value == "" { return Rejected(MissingUtterance); }
        cancelled := cancelled + {target.value};
        if active == target {
          active, gesture, state := None, None, Interrupted;
        }
      } else if scope.value == ScopeGesture {
        gesture := None;
      } else {
        if active.Some? { cancelled := cancelled + {active.value}; }
        active, gesture, state := None, None, Interrupted;
      }
      return Accepted(TakeSnapshot());
    }

    method SetHealth(sequence: int, value: string) returns (r: Outcome)
      modifies this
      ensures (View(), r) == Apply(old(View()), Event.SetHealth(sequence, value))
    {
      var stale := AcceptSequence(sequence);
      if stale.Some? { return Rejected(stale.value); }
      if value !in HEALTH_VALUES { return Rejected(UnsupportedHealth); }
      health := value;
      if value == "error" { state := BodyState.Error; }
      return Accepted(TakeSnapshot());
    }
  }
}
