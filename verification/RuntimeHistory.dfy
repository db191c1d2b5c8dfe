/** What the runtime's state means in terms of the calls it has received: theorems over
    every run, rejected calls included. */
module RuntimeHistory {
  import opened Basics
  import opened Numbers
  import opened Runtime

  /** The machine after the first `n` calls of a history. */
  function After(m: Machine, h: seq<Event>, n: nat): Machine
    requires n <= |h|
  {
    if n == 0 then m else Apply(After(m, h, n - 1), h[n - 1]).0
  }

  // ----- what the history itself says -----

  /** The sequence number is a new record: what the ordering rule accepts. */
  predicate Fresh(h: seq<Event>, i: nat)
    requires i < |h|
  {
    h[i].sequence >= 0 && forall j | 0 <= j < i :: h[j].sequence < h[i].sequence
  }

  /** Call `i` starts utterance `u`: it is in order and `u` was not cancelled before. */
  predicate Starts(h: seq<Event>, i: nat, u: string)
    requires i < |h|
    decreases i, 1
  {
    Fresh(h, i) && h[i].StartSpeech? && h[i].id == u && u != "" && !CancelledBy(h, i, u)
  }

  /** Call `k` would take the floor away from `u`. */
  predicate Ousts(h: seq<Event>, k: nat, u: string)
    requires k < |h|
    decreases k, 2
  {
    Fresh(h, k) &&
    match h[k]
    case StartSpeech(_, v) => Starts(h, k, v)
    case EndSpeech(_, v) => v == u
    case Cancel(_, scope, target) => scope == "all" || (scope == "utterance" && target == Some(u))
    case _ => false
  }

  /** Call `j` cancels `u`, by name or by cancelling everything while `u` has the floor. */
  predicate Cancels(h: seq<Event>, j: nat, u: string)
    requires j < |h|
    decreases j, 1
  {
    && Fresh(h, j) && h[j].Cancel? && u != ""
    && ((h[j].scope == "utterance" && h[j].target == Some(u)) || (h[j].scope == "all" && ActiveBy(h, j, u)))
  }

  /** Reading the first `n` calls backwards: the floor is `u`'s if the last call started
      it, or if it was `u`'s before and the last call did not take it away. */
  predicate ActiveBy(h: seq<Event>, n: nat, u: string)
    requires n <= |h|
    decreases n, 0
  {
    n > 0 && (Starts(h, n - 1, u) || (ActiveBy(h, n - 1, u) && !Ousts(h, n - 1, u)))
  }

  predicate CancelledBy(h: seq<Event>, n: nat, u: string)
    requires n <= |h|
    decreases n, 0
  {
    n > 0 && (CancelledBy(h, n - 1, u) || Cancels(h, n - 1, u))
  }

  /** Call `i` started `u`, and no end, cancel or other start before call `n` took effect. */
  predicate HeldSince(h: seq<Event>, i: nat, n: nat, u: string)
    requires i < n <= |h|
  {
    Starts(h, i, u) && forall k | i < k < n :: !Ousts(h, k, u)
  }

  /** Call `j` is in order and silences `u`: it cancels `u` by name, or everything while
      some earlier start of `u` still holds. */
  predicate Silences(h: seq<Event>, j: nat, u: string)
    requires j < |h|
  {
    && Fresh(h, j) && h[j].Cancel? && u != ""
    && ((h[j].scope == "utterance" && h[j].target == Some(u))
        || (h[j].scope == "all" && exists i | 0 <= i < j :: HeldSince(h, i, j, u)))
  }

  lemma {:induction false} ActiveByMeaning(h: seq<Event>, n: nat, u: string)
    requires n <= |h|
    ensures ActiveBy(h, n, u) <==> exists i | 0 <= i < n :: HeldSince(h, i, n, u)
  {
    if n > 0 {
      ActiveByMeaning(h, n - 1, u);
      if Starts(h, n - 1, u) {
        assert HeldSince(h, n - 1, n, u);
      } else if ActiveBy(h, n - 1, u) && !Ousts(h, n - 1, u) {
        var i :| 0 <= i < n - 1 && HeldSince(h, i, n - 1, u);
        assert HeldSince(h, i, n, u);
      } else if exists i | 0 <= i < n :: HeldSince(h, i, n, u) {
        var i :| 0 <= i < n && HeldSince(h, i, n, u);
        assert HeldSince(h, i, n - 1, u);
      }
    }
  }

  lemma {:induction false} CancelledByMeaning(h: seq<Event>, n: nat, u: string)
    requires n <= |h|
    ensures CancelledBy(h, n, u) <==> exists j | 0 <= j < n :: Silences(h, j, u)
  {
    if n > 0 {
      CancelledByMeaning(h, n - 1, u);
      ActiveByMeaning(h, n - 1, u);
      assert Silences(h, n - 1, u) <==> Cancels(h, n - 1, u);
    }
  }

  // ----- ordering -----

  /** The last sequence number is the largest one ever offered, or -1; so a call passes
      the ordering check exactly when its number is a new record. */
  lemma {:induction false} SequenceIsRecord(m: Machine, h: seq<Event>, n: nat)
    requires n <= |h| && m.snapshot.sequence == -1
    ensures var last := After(m, h, n).snapshot.sequence;
            && last >= -1
            && (forall j | 0 <= j < n :: h[j].sequence <= last)
            && (last >= 0 ==> exists j | 0 <= j < n :: h[j].sequence == last)
    ensures n < |h| ==> (Fresh(h, n) <==> h[n].sequence > After(m, h, n).snapshot.sequence)
  {
    if n > 0 { SequenceIsRecord(m, h, n - 1); }
  }

  /** A stale or negative number changes nothing at all; any other is consumed even when
      the call is then rejected. */
  lemma OrderingRule(m: Machine, e: Event)
    requires m.snapshot.sequence >= -1
    ensures var (next, outcome) := Apply(m, e);
            if e.sequence > m.snapshot.sequence then next.snapshot.sequence == e.sequence
            else next == m && outcome.Rejected?
  {
  }

  // ----- invariants -----

  predicate Named(name: Option<string>) {
    name.Some? ==> name.value != ""
  }

  predicate InRange(m: Machine) {
    SnapshotOk(m.snapshot) && (m.snapshot.active.Some? ==> m.snapshot.active.value !in m.cancelled)
  }

  predicate SnapshotOk(s: Snapshot) {
    && s.sequence >= -1
    && Named(s.active) && Named(s.gesture) && Named(s.gaze) && s.emotion != ""
    && IsUnit(s.emotionIntensity) && IsUnit(s.energy) && s.health in HEALTH_VALUES
  }

  lemma EmotionKeepsRange(s: Snapshot, c: Cue)
    requires SnapshotOk(s)
    ensures SnapshotOk(ExpressEmotion(s, c).0)
    ensures ExpressEmotion(s, c).0 == s.(emotion := ExpressEmotion(s, c).0.emotion,
                                         emotionIntensity := ExpressEmotion(s, c).0.emotionIntensity)
  {
  }

  lemma ExpressKeepsRange(s: Snapshot, plan: Plan)
    requires SnapshotOk(s)
    ensures SnapshotOk(Express(s, plan).0)
    ensures Express(s, plan).0.active == s.active
    ensures Express(s, plan).0.sessionId == s.sessionId && Express(s, plan).0.bodyprintId == s.bodyprintId
  {
    if plan.state.Some? && StateNamed(plan.state.value).Some? {
      var s1 := s.(state := StateNamed(plan.state.value).value);
      if plan.gesture == NoCue || CueOk(plan.gesture, 0.5) {
        var s2 := s1.(gesture := if plan.gesture.NoCue? then None else plan.gesture.name);
        if plan.gaze == NoCue || CueOk(plan.gaze, 1.0) {
          EmotionKeepsRange(s2.(gaze := if plan.gaze.NoCue? then None else plan.gaze.name), plan.emotion);
        }
      }
    }
  }

  lemma ApplyKeepsRange(m: Machine, e: Event)
    requires InRange(m)
    ensures InRange(Apply(m, e).0) && m.cancelled <= Apply(m, e).0.cancelled
    ensures Apply(m, e).0.snapshot.sessionId == m.snapshot.sessionId
    ensures Apply(m, e).0.snapshot.bodyprintId == m.snapshot.bodyprintId
  {
    if e.ApplyPlan? && e.sequence > m.snapshot.sequence {
      ExpressKeepsRange(m.snapshot.(sequence := e.sequence), e.plan);
    }
  }

  /** Over every run all fields stay in range, also after a plan that was rejected half
      way; the cancelled set only grows and never holds the active utterance. */
  lemma {:induction false} EveryRunInRange(m: Machine, h: seq<Event>, i: nat, n: nat)
    requires InRange(m) && i <= n <= |h|
    ensures InRange(After(m, h, n)) && After(m, h, i).cancelled <= After(m, h, n).cancelled
    ensures After(m, h, n).snapshot.sessionId == m.snapshot.sessionId
    ensures After(m, h, n).snapshot.bodyprintId == m.snapshot.bodyprintId
    decreases n
  {
    if n > 0 {
      EveryRunInRange(m, h, if i < n then i else n - 1, n - 1);
      ApplyKeepsRange(After(m, h, n - 1), h[n - 1]);
    }
  }

  /** What a rejected call in proper order can leave behind: nothing but its number,
      unless it was an expression plan, which never touches speech, health or energy. */
  lemma RejectionFootprint(m: Machine, e: Event)
    requires e.sequence > m.snapshot.sequence >= -1 && Apply(m, e).1.Rejected?
    ensures var (next, s) := (Apply(m, e).0, m.snapshot.(sequence := e.sequence));
            && next.cancelled == m.cancelled
            && (!e.ApplyPlan? ==> next.snapshot == s)
            && (e.ApplyPlan? ==>
                  next.snapshot == s.(state := next.snapshot.state, gesture := next.snapshot.gesture,
                                      gaze := next.snapshot.gaze, emotion := next.snapshot.emotion,
                                      emotionIntensity := next.snapshot.emotionIntensity))
  {
  }

  // ----- the trace theorem -----

  lemma HistoryStep(m: Machine, h: seq<Event>, n: nat, u: string)
    requires n < |h| && InRange(After(m, h, n))
    requires Fresh(h, n) <==> h[n].sequence > After(m, h, n).snapshot.sequence
    requires forall v :: v in After(m, h, n).cancelled <==> CancelledBy(h, n, v)
    requires forall v :: After(m, h, n).snapshot.active == Some(v) <==> ActiveBy(h, n, v)
    ensures After(m, h, n + 1).snapshot.active == Some(u) <==> ActiveBy(h, n + 1, u)
    ensures u in After(m, h, n + 1).cancelled <==> CancelledBy(h, n + 1, u)
  {
    var before, after := After(m, h, n), Apply(After(m, h, n), h[n]).0;
    assert After(m, h, n + 1) == after;
    assert ActiveBy(h, n + 1, u) <==> Starts(h, n, u) || (ActiveBy(h, n, u) && !Ousts(h, n, u));
    assert CancelledBy(h, n + 1, u) <==> CancelledBy(h, n, u) || Cancels(h, n, u);
    assert before.snapshot.active == Some(u) <==> ActiveBy(h, n, u);
    if Fresh(h, n) {
      match h[n] {
        case StartSpeech(_, v) =>
          assert v in before.cancelled <==> CancelledBy(h, n, v);
          assert Starts(h, n, v) <==> v != "" && v !in before.cancelled;
        case ApplyPlan(_, plan) => ExpressKeepsRange(before.snapshot.(sequence := h[n].sequence), plan);
        case _ =>
      }
    } else {
      assert after == before;
    }
  }

  lemma {:induction false} RuntimeFollowsHistory(m: Machine, h: seq<Event>, n: nat)
    requires n <= |h| && InRange(m)
    requires m.snapshot.sequence == -1 && m.snapshot.active == None && m.cancelled == {}
    ensures forall u :: After(m, h, n).snapshot.active == Some(u) <==> ActiveBy(h, n, u)
    ensures forall u :: u in After(m, h, n).cancelled <==> CancelledBy(h, n, u)
  {
    if n > 0 {
      RuntimeFollowsHistory(m, h, n - 1);
      EveryRunInRange(m, h, 0, n - 1);
      SequenceIsRecord(m, h, n - 1);
      forall u
        ensures After(m, h, n).snapshot.active == Some(u) <==> ActiveBy(h, n, u)
        ensures u in After(m, h, n).cancelled <==> CancelledBy(h, n, u)
      {
        HistoryStep(m, h, n - 1, u);
      }
    }
  }

  /** After any calls whatever, the active utterance is the one whose accepted start was
      not followed by an effective end, cancel or other start; and an utterance is
      cancelled exactly when some call in order cancelled it. */
  lemma TraceTheorem(sessionId: string, bodyprintId: string, h: seq<Event>, n: nat, u: string)
    requires n <= |h|
    ensures var m := After(Initial(sessionId, bodyprintId), h, n);
            && (m.snapshot.active == Some(u) <==> exists i | 0 <= i < n :: HeldSince(h, i, n, u))
            && (u in m.cancelled <==> exists j | 0 <= j < n :: Silences(h, j, u))
  {
    RuntimeFollowsHistory(Initial(sessionId, bodyprintId), h, n);
    ActiveByMeaning(h, n, u);
    CancelledByMeaning(h, n, u);
  }
}
