/** What holds of every journal that a series of recorder calls can produce, and exactly
    when a call that was checked early may still be appended late. */
module JournalRuns {
  import opened Basics
  import opened JournalStore
  import opened JournalCases
  import opened Manifest
  import opened CaseRecorder

  // ----- the invariant -----

  predicate IsText(v: Option<Value>, ok: string -> bool) {
    v.Some? && v.value.Str? && ok(v.value.text)
  }

  predicate IsCount(v: Option<Value>) {
    v.Some? && v.value.Num? && v.value.number >= 0
  }

  function Markers(m: Manifest): set<string> {
    set run | run in m.runs :: run.marker
  }

  predicate StartOk(m: Manifest, p: Payload) {
    && IsText(Get(p, "name"), n => n in NEGATIVE_CASES)
    && IsText(Get(p, "marker"), t => !Blank(t))
    && (Get(p, "name").value.text in POSITIVE_CASES ==> Get(p, "marker").value.text in Markers(m))
    && IsCount(Get(p, "note_count_before")) && IsCount(Get(p, "approval_use_count_before"))
  }

  predicate ObservationOk(p: Payload) {
    && Get(p, "status").Some? && Get(p, "status").value.Num?
    && IsText(Get(p, "response_sha256"), t => IsHex(t, 64))
    && IsText(Get(p, "run_id"), IsOpaqueId)
  }

  predicate FinishOk(p: Payload) {
    IsCount(Get(p, "note_count_after")) && IsCount(Get(p, "approval_use_count_after"))
  }

  predicate RecordOk(m: Manifest, r: Record) {
    && (r.kind == STARTED ==> StartOk(m, r.payload))
    && (r.kind == OBSERVED ==> ObservationOk(r.payload))
    && (r.kind == FINISHED ==> FinishOk(r.payload))
  }

  /** At most one case per name. */
  ghost predicate UniqueNames(cases: map<string, Case>) {
    forall a, b | a in cases && b in cases && a != b && cases[a].begin.Some? && cases[b].begin.Some? ::
      Get(cases[a].begin.value.payload, "name") != Get(cases[b].begin.value.payload, "name")
  }

  /** A journal as the recorder leaves it, bound to manifest `m` read from `raw`. */
  ghost predicate Recorded(c: Codec, f: Files, m: Manifest, raw: string, table: seq<Row>) {
    && BoundTo(c, f, table, m, raw)
    && UniqueNames(CasesOf(Body(c, table)))
    && forall r | r in Body(c, table) :: RecordOk(m, r)
  }

  // ----- one call -----

  lemma BodyOfExtension(c: Codec, table: seq<Row>, q: Request)
    requires Faithful(c) && Intact(c, table)
    ensures var next := Extend(c, table, q);
            && Intact(c, next) && table <= next
            && RecordsOf(c, next)[0] == RecordsOf(c, table)[0]
            && Body(c, next) == Body(c, table) + [RecordOf(c, next[|table|])]
            && RecordOf(c, next[|table|]).kind == q.kind
            && RecordOf(c, next[|table|]).caseId == q.caseId
            && RecordOf(c, next[|table|]).payload == q.payload
            && RecordOf(c, next[|table|]).seqNo == |table| + 1
  {
    AppendKeepsLinks(c, table, q.kind, q.caseId, q.payload, q.now);
    var next := Extend(c, table, q);
    assert RecordsOf(c, next) == RecordsOf(c, table) + [RecordOf(c, next[|table|])];
  }

  /** The exact condition for an append to leave a readable journal readable: the case
      it names accepts an event of that kind at that moment. */
  lemma LateAppend(c: Codec, table: seq<Row>, q: Request)
    requires Faithful(c) && Readable(c, table)
    ensures Readable(c, Extend(c, table, q)) <==>
            q.caseId.Some? && IsHex(q.caseId.value, 32)
            && Fits(CaseOf(Project(Body(c, table), q.caseId.value)), q.kind)
  {
    BodyOfExtension(c, table, q);
    BodyStep(Body(c, table), RecordOf(c, Extend(c, table, q)[|table|]));
  }

  lemma CaseByProjection(body: seq<Record>, id: string)
    ensures CaseOf(Project(body, id)) == if id in CaseIds(body) then CasesOf(body)[id] else EMPTY_CASE
  {
    ProjectMembers(body, id);
  }

  lemma EntryIsSound(f: Files, k: Clock, m: Manifest, call: Call)
    requires ShaShaped(f)
    requires call.Begin? ==> f.load(call.raw) == Some(m) && ManifestOk(k, m, false) && OrdinalOk(m, call.name, call.ordinal)
                             && call.name in NEGATIVE_CASES && call.notes >= 0 && call.approvals >= 0
    requires call.Observe? ==> IsOpaqueId(call.runId)
    requires call.Finish? ==> call.notes >= 0 && call.approvals >= 0
    ensures call.Begin? ==> StartOk(m, Entry(f, call).payload) && Get(Entry(f, call).payload, "name") == Some(Str(call.name))
    ensures call.Observe? ==> ObservationOk(Entry(f, call).payload)
    ensures call.Finish? ==> FinishOk(Entry(f, call).payload)
  {
    if call.Begin? {
      var marker := MarkerFor(m, call.name, call.ordinal, call.token);
      if call.name in POSITIVE_CASES {
        var i := call.ordinal.value - 1;
        assert RunOk(k, m.header.markerPrefix, i + 1, m.runs[i], false);
        assert MarkerStart(m.header.markerPrefix, i + 1)[0] == 'K';
        assert m.runs[i] in m.runs;
      }
      assert marker[0] == 'K';
    }
  }

  /** Ids drawn for a new case are well formed and new, and no other manifest the caller
      reads collides with the bound one. */
  ghost predicate CallOk(c: Codec, f: Files, raw: string, table: seq<Row>, call: Call)
    requires table != []
  {
    call.Begin? ==>
      && IsHex(call.freshId, 32) && call.freshId !in CaseIds(Body(c, table))
      && (f.sha(call.raw) == f.sha(raw) ==> call.raw == raw)
  }

  lemma BeginKeepsNamesUnique(body: seq<Record>, r: Record)
    requires LifecyclesOk(body) && UniqueNames(CasesOf(body))
    requires r.kind == STARTED && r.caseId.Some? && r.caseId.value !in CaseIds(body)
    requires Get(r.payload, "name") !in StartedNames(CasesOf(body))
    ensures UniqueNames(CasesOf(body + [r]))
  {
    CaseByProjection(body, r.caseId.value);
    StepCases(body, r);
  }

  lemma OtherEventsKeepNames(body: seq<Record>, r: Record)
    requires LifecyclesOk(body) && UniqueNames(CasesOf(body))
    requires r.kind != STARTED && r.caseId.Some? && Fits(CaseOf(Project(body, r.caseId.value)), r.kind)
    ensures UniqueNames(CasesOf(body + [r]))
  {
    CaseByProjection(body, r.caseId.value);
    StepCases(body, r);
  }

  lemma AcceptedCallFits(c: Codec, f: Files, raw: string, table: seq<Row>, call: Call)
    requires Faithful(c) && Enabled(c, f, table, call) && CallOk(c, f, raw, table, call)
    ensures var q := Entry(f, call);
            && q.caseId.Some?
            && Fits(CaseOf(Project(Body(c, table), q.caseId.value)), q.kind)
            && Readable(c, Extend(c, table, q))
            && (call.Begin? <==> q.kind == STARTED)
  {
    var body, q := Body(c, table), Entry(f, call);
    CaseByProjection(body, q.caseId.value);
    if !call.Begin? { IdOfKnownCase(body, q.caseId.value); }
    LateAppend(c, table, q);
  }

  lemma AcceptedCallKeepsNames(c: Codec, f: Files, m: Manifest, raw: string, table: seq<Row>, call: Call, r: Record)
    requires Faithful(c) && ShaShaped(f) && f.load(raw) == Some(m)
    requires Recorded(c, f, m, raw, table) && Enabled(c, f, table, call) && CallOk(c, f, raw, table, call)
    requires var q := Entry(f, call); r.kind == q.kind && r.caseId == q.caseId && r.payload == q.payload
    ensures UniqueNames(CasesOf(Body(c, table) + [r])) && RecordOk(m, r)
  {
    EntryIsSound(f, c.clock, m, call);
    AcceptedCallFits(c, f, raw, table, call);
    if call.Begin? { BeginKeepsNamesUnique(Body(c, table), r); } else { OtherEventsKeepNames(Body(c, table), r); }
  }

  lemma StepKeepsRecorded(c: Codec, f: Files, m: Manifest, raw: string, table: seq<Row>, call: Call)
    requires Faithful(c) && ShaShaped(f) && f.load(raw) == Some(m)
    requires Recorded(c, f, m, raw, table) && CallOk(c, f, raw, table, call)
    ensures var next := Step(c, f, table, call);
            && Recorded(c, f, m, raw, next)
            && table <= next
            && |next| == |table| + (if Appends(c, f, table, call) then 1 else 0)
            && CaseIds(Body(c, next)) <= CaseIds(Body(c, table)) + if call.Begin? then {call.freshId} else {}
  {
    hide Project, Lifecycle, CaseOf, CaseIds, HashTaken;
    if Appends(c, f, table, call) {
      var q := Entry(f, call);
      var r := RecordOf(c, Extend(c, table, q)[|table|]);
      BodyOfExtension(c, table, q);
      AcceptedCallFits(c, f, raw, table, call);
      AcceptedCallKeepsNames(c, f, m, raw, table, call, r);
      CaseIdsSnoc(Body(c, table), r);
      CaseByProjection(Body(c, table), q.caseId.value);
    }
  }

  lemma IdOfKnownCase(body: seq<Record>, id: string)
    requires IdsOk(body) && id in CaseIds(body)
    ensures IsHex(id, 32)
  {
  }

  // ----- any run -----

  ghost function RunCalls(c: Codec, f: Files, table: seq<Row>, calls: seq<Call>): seq<Row> {
    if calls == [] then table
    else Step(c, f, RunCalls(c, f, table, calls[..|calls| - 1]), calls[|calls| - 1])
  }

  predicate DistinctIds(calls: seq<Call>) {
    && (forall i | 0 <= i < |calls| && calls[i].Begin? :: IsHex(calls[i].freshId, 32))
    && forall i, j | 0 <= i < j < |calls| && calls[i].Begin? && calls[j].Begin? :: calls[i].freshId != calls[j].freshId
  }

  predicate SameTextAsBound(f: Files, raw: string, calls: seq<Call>) {
    forall i | 0 <= i < |calls| && calls[i].Begin? && f.sha(calls[i].raw) == f.sha(raw) :: calls[i].raw == raw
  }

  function DrawnIds(calls: seq<Call>): set<string> {
    set call | call in calls && call.Begin? :: call.freshId
  }

  /** Any serial mix of accepted and rejected calls from a new journal leaves a journal
      that reads back, folds, and has at most one case per name; nothing recorded
      earlier ever changes. */
  lemma {:induction false} AnyRunIsRecorded(c: Codec, f: Files, m: Manifest, raw: string, table: seq<Row>, calls: seq<Call>)
    requires Faithful(c) && ShaShaped(f) && f.load(raw) == Some(m)
    requires Recorded(c, f, m, raw, table) && CaseIds(Body(c, table)) == {}
    requires DistinctIds(calls) && SameTextAsBound(f, raw, calls)
    ensures var after := RunCalls(c, f, table, calls);
            && Recorded(c, f, m, raw, after)
            && table <= after
            && CaseIds(Body(c, after)) <= DrawnIds(calls)
            && forall n | 0 <= n <= |calls| :: RunCalls(c, f, table, calls[..n]) <= after
  {
    hide Recorded, Step, Appends, Faithful;
    if calls != [] {
      var init, last := calls[..|calls| - 1], calls[|calls| - 1];
      var before := RunCalls(c, f, table, init);
      AnyRunIsRecorded(c, f, m, raw, table, init);
      assert calls == init + [last];
      StepKeepsRecorded(c, f, m, raw, before, last);
      var after := RunCalls(c, f, table, calls);
      forall n | 0 <= n <= |calls| ensures RunCalls(c, f, table, calls[..n]) <= after {
        if n < |calls| {
          assert calls[..n] == init[..n];
        } else {
          assert calls[..n] == calls;
        }
      }
    } else {
      assert calls[..0] == calls;
    }
  }

  /** A journal `_init` has just written is where such a run starts. */
  lemma NewJournalIsRecorded(c: Codec, f: Files, m: Manifest, raw: string, table: seq<Row>)
    requires Intact(c, table) && |table| == 1
    requires RecordsOf(c, table)[0].kind == "journal_initialized" && RecordsOf(c, table)[0].caseId == None
    requires PayloadOf(c, table[0]) == InitPayload(m.header.pilotId, f.sha(raw))
    ensures Recorded(c, f, m, raw, table) && CaseIds(Body(c, table)) == {}
  {
    assert Body(c, table) == [];
  }

  // ----- overlapping calls -----

  /** The check and the append of a call are separate transactions. When two finish calls
      for one ready case are both checked before either is appended, both are accepted,
      and from then on no append can make the journal readable again. */
  lemma OverlappingFinishesPoison(c: Codec, f: Files, table: seq<Row>, one: Call, two: Call, later: seq<Request>)
    requires Faithful(c)
    requires one.Finish? && two.Finish? && one.caseId == two.caseId
    requires Enabled(c, f, table, one) && Enabled(c, f, table, two)
    ensures Readable(c, Extend(c, table, Entry(f, one)))
    ensures !Readable(c, AppendAll(c, Extend(c, Extend(c, table, Entry(f, one)), Entry(f, two)), later))
  {
    var body, id := Body(c, table), one.caseId;
    IdOfKnownCase(body, id);
    CaseByProjection(body, id);
    LateAppend(c, table, Entry(f, one));
    var first := Extend(c, table, Entry(f, one));
    BodyOfExtension(c, table, Entry(f, one));
    LifecycleStep(Project(body, id), RecordOf(c, first[|table|]));
    ProjectSnoc(body, RecordOf(c, first[|table|]), id);
    LateAppend(c, first, Entry(f, two));
    BodyOfExtension(c, first, Entry(f, two));
    UnreadableForever(c, Extend(c, first, Entry(f, two)), later);
  }

  /** Reading fails for good: the state of a journal is checked from its first record. */
  lemma {:induction false} UnreadableForever(c: Codec, table: seq<Row>, later: seq<Request>)
    requires Faithful(c) && Intact(c, table) && !Readable(c, table)
    ensures !Readable(c, AppendAll(c, table, later))
    decreases |later|
  {
    if later != [] {
      var q := later[0];
      BodyOfExtension(c, table, q);
      var next := Extend(c, table, q);
      var body := Body(c, table);
      if Readable(c, next) {
        assert Body(c, next)[..|body|] == body;
        forall id ensures Lifecycle(Project(body, id)) {
          ProjectPrefix(Body(c, next), |body|, id);
          assert Lifecycle(Project(Body(c, next), id));
        }
        assert IdsOk(body) by {
          assert forall i | 0 <= i < |body| :: body[i] == Body(c, next)[i];
        }
        assert false;
      }
      UnreadableForever(c, next, later[1..]);
    }
  }
}
