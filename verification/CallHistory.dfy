/** From the recorder's calls to the finalized document: what every accepted call leaves in
    the journal, and what a whole run's document says, in terms of the values that were
    passed in and nothing else. */
module CallHistory {
  import opened Basics
  import opened JournalStore
  import opened JournalCases
  import opened Manifest
  import opened CaseRecorder
  import opened JournalRuns
  import opened NegativeEvidence
  import opened Finalization
  import opened OperatorContracts

  // ----- what a record says about a call -----

  /** The marker of a new case: that of the run with the given ordinal, or a new one. */
  predicate MarkerSays(m: Manifest, call: Call, marker: string)
    requires call.Begin?
  {
    if call.name == "replay" || call.name == "stop_retry_replan"
    then call.ordinal.Some? && 1 <= call.ordinal.value <= |m.runs| && marker == m.runs[call.ordinal.value - 1].marker
    else marker == "KALIV-T022:" + m.header.pilotId + ":N:" + call.name + ":" + call.token
  }

  function IdOf(call: Call): string {
    match call
    case Begin(_, _, _, _, _, id, _, _) => id
    case Observe(id, _, _, _, _) => id
    case Finish(id, _, _, _) => id
  }

  predicate BeginSays(f: Files, call: Call, p: Payload)
    requires call.Begin?
  {
    && f.load(call.raw).Some?
    && Get(p, "marker").Some? && Get(p, "marker").value.Str?
    && MarkerSays(f.load(call.raw).value, call, Get(p, "marker").value.text)
    && Get(p, "name") == Some(Str(call.name))
    && Get(p, "note_count_before") == Some(Num(call.notes))
    && Get(p, "approval_use_count_before") == Some(Num(call.approvals))
  }

  /** The record holds what the call was given. */
  ghost predicate Says(f: Files, call: Call, r: Record) {
    && r.caseId == Some(IdOf(call))
    && match call
       case Begin(_, _, _, _, _, _, _, _) => r.kind == "case_started" && BeginSays(f, call, r.payload)
       case Observe(_, status, body, runId, _) =>
         && r.kind == "request_observed"
         && Get(r.payload, "status") == Some(Num(status)) && Get(r.payload, "response_sha256") == Some(Str(f.sha(body)))
         && Get(r.payload, "response_bytes") == Some(Num(|body|)) && Get(r.payload, "run_id") == Some(Str(runId))
       case Finish(_, notes, approvals, _) =>
         && r.kind == "case_finished"
         && Get(r.payload, "note_count_after") == Some(Num(notes))
         && Get(r.payload, "approval_use_count_after") == Some(Num(approvals))
  }

  /** The cases after one more record of a call: only the case it names moves on. */
  predicate Advanced(before: map<string, Case>, after: map<string, Case>, call: Call, r: Record) {
    match call
    case Begin(_, _, _, _, _, id, _, _) => id !in before && after == before[id := Case(Some(r), [], None)]
    case Observe(id, _, _, _, _) =>
      id in before && after == before[id := before[id].(observations := before[id].observations + [r])]
    case Finish(id, _, _, _) => id in before && after == before[id := before[id].(finish := Some(r))]
  }

  /** Which calls are accepted: a begin of one of the seven names that has not been begun, with
      an ordinal exactly where the case replays a positive run; an observation of a response
      of legal status, size and run id for a case that is begun and not finished; a finish of
      such a case that has been observed. Counts are never negative, the journal reads back,
      and the new row's hash is not taken. */
  lemma AcceptedCallRules(c: Codec, f: Files, table: seq<Row>, call: Call)
    requires Appends(c, f, table, call)
    ensures Readable(c, table) && !HashTaken(c, table, Entry(f, call))
    ensures var cases := CasesOf(Body(c, table));
            match call
            case Begin(raw, name, notes, approvals, ordinal, _, _, _) =>
              && name in {"deny", "timeout", "changed_args", "stale_revision", "replay", "concurrent_approval", "stop_retry_replan"}
              && notes >= 0 && approvals >= 0
              && (ordinal.Some? <==> name == "replay" || name == "stop_retry_replan")
              && (forall id | id in cases && cases[id].begin.Some? :: Get(cases[id].begin.value.payload, "name") != Some(Str(name)))
              && f.load(raw).Some? && Get(PayloadOf(c, table[0]), "manifest_sha256") == Some(Str(f.sha(raw)))
              && Get(PayloadOf(c, table[0]), "pilot_id") == Some(Str(f.load(raw).value.header.pilotId))
            case Observe(id, status, body, runId, _) =>
              && 100 <= status <= 599 && |body| <= 1048576 && IsOpaqueId(runId)
              && id in cases && cases[id].begin.Some? && cases[id].finish.None?
            case Finish(id, notes, approvals, _) =>
              && notes >= 0 && approvals >= 0
              && id in cases && cases[id].begin.Some? && cases[id].finish.None? && cases[id].observations != []
  {
    hide CasesOf, ManifestOk, HashTaken, StateOk, IsOpaqueId;
  }

  lemma EntrySays(c: Codec, f: Files, table: seq<Row>, call: Call, r: Record)
    requires Enabled(c, f, table, call)
    requires var q := Entry(f, call); r.kind == q.kind && r.caseId == q.caseId && r.payload == q.payload
    ensures Says(f, call, r)
  {
    hide CasesOf, ManifestOk, BoundTo, Open;
    if call.Begin? {
      var m := f.load(call.raw).value;
      var marker := MarkerFor(m, call.name, call.ordinal, call.token);
      assert MarkerSays(m, call, marker);
    }
  }

  /** After an accepted call the case it names is what it was before, advanced by a record
      that says what the call was given; every other case is unchanged. */
  lemma AcceptedIsRecorded(c: Codec, f: Files, raw: string, table: seq<Row>, call: Call) returns (r: Record)
    requires Faithful(c) && Appends(c, f, table, call) && CallOk(c, f, raw, table, call)
    ensures var next := Step(c, f, table, call);
            && Readable(c, next) && Says(f, call, r)
            && Body(c, next) == Body(c, table) + [r]
            && Advanced(CasesOf(Body(c, table)), CasesOf(Body(c, next)), call, r)
  {
    hide Faithful, CasesOf, CaseOf, Says, ManifestOk;
    var q := Entry(f, call);
    AcceptedCallFits(c, f, raw, table, call);
    BodyOfExtension(c, table, q);
    r := RecordOf(c, Extend(c, table, q)[|table|]);
    EntrySays(c, f, table, call, r);
    AdvanceCases(f, Body(c, table), call, r);
  }

  lemma SaysKind(f: Files, call: Call, r: Record)
    requires Says(f, call, r)
    ensures r.caseId == Some(IdOf(call))
    ensures (call.Begin? <==> r.kind == STARTED) && (call.Observe? <==> r.kind == OBSERVED) && (call.Finish? <==> r.kind == FINISHED)
  {
  }

  lemma AdvanceCases(f: Files, body: seq<Record>, call: Call, r: Record)
    requires LifecyclesOk(body) && Says(f, call, r) && Fits(CaseOf(Project(body, IdOf(call))), r.kind)
    ensures Advanced(CasesOf(body), CasesOf(body + [r]), call, r)
  {
    hide LifecyclesOk, Says;
    SaysKind(f, call, r);
    StepCases(body, r);
    CaseByProjection(body, IdOf(call));
    ProjectMembers(body, IdOf(call));
  }

  // ----- whole runs -----

  /** The calls of a run that were accepted, in order. */
  ghost function Taken(c: Codec, f: Files, table: seq<Row>, calls: seq<Call>): seq<Call> {
    if calls == [] then []
    else
      var init, last := calls[..|calls| - 1], calls[|calls| - 1];
      Taken(c, f, table, init) + if Appends(c, f, RunCalls(c, f, table, init), last) then [last] else []
  }

  /** The calls about one case. */
  function About(calls: seq<Call>, id: string): seq<Call> {
    if calls == [] then []
    else
      var last := calls[|calls| - 1];
      About(calls[..|calls| - 1], id) + if IdOf(last) == id then [last] else []
  }

  function Ids(calls: seq<Call>): set<string> {
    set call | call in calls :: IdOf(call)
  }

  /** Record by record, the log says what the calls were given. */
  ghost predicate Mirrors(f: Files, calls: seq<Call>, body: seq<Record>) {
    |calls| == |body| && forall i | 0 <= i < |calls| :: Says(f, calls[i], body[i])
  }

  /** A run's body mirrors its accepted calls. */
  lemma {:induction false} RunMirrors(c: Codec, f: Files, m: Manifest, raw: string, table: seq<Row>, calls: seq<Call>)
    requires Faithful(c) && ShaShaped(f) && f.load(raw) == Some(m)
    requires Recorded(c, f, m, raw, table) && Body(c, table) == []
    requires DistinctIds(calls) && SameTextAsBound(f, raw, calls)
    ensures Recorded(c, f, m, raw, RunCalls(c, f, table, calls))
    ensures Mirrors(f, Taken(c, f, table, calls), Body(c, RunCalls(c, f, table, calls)))
  {
    hide Recorded, Appends, Faithful, Body, Says, Step;
    RecordedFolds(c, f, m, raw, table);
    EmptyBody(c, table);
    AnyRunIsRecorded(c, f, m, raw, table, calls);
    if calls != [] {
      var init, last := calls[..|calls| - 1], calls[|calls| - 1];
      assert calls == init + [last];
      RunMirrors(c, f, m, raw, table, init);
      AnyRunIsRecorded(c, f, m, raw, table, init);
      StepMirrors(c, f, m, raw, RunCalls(c, f, table, init), init, last, Taken(c, f, table, init));
    }
    RecordedFolds(c, f, m, raw, RunCalls(c, f, table, calls));
  }

  lemma StepMirrors(c: Codec, f: Files, m: Manifest, raw: string, before: seq<Row>, init: seq<Call>, last: Call, taken: seq<Call>)
    requires Faithful(c) && Recorded(c, f, m, raw, before) && before != []
    requires DistinctIds(init + [last]) && SameTextAsBound(f, raw, init + [last])
    requires CaseIds(Body(c, before)) <= DrawnIds(init) && Mirrors(f, taken, Body(c, before))
    ensures var after := Step(c, f, before, last);
            after != [] && Mirrors(f, taken + (if Appends(c, f, before, last) then [last] else []), Body(c, after))
  {
    hide Recorded, Appends, Faithful, Body, Says;
    IdIsFresh(c, f, raw, before, init, last);
    if Appends(c, f, before, last) {
      var r := AcceptedIsRecorded(c, f, raw, before, last);
      ReadableIsNotEmpty(c, Step(c, f, before, last));
    } else {
      assert taken + [] == taken;
    }
  }

  lemma ReadableIsNotEmpty(c: Codec, table: seq<Row>)
    requires Readable(c, table)
    ensures table != []
  {
  }

  lemma EmptyBody(c: Codec, table: seq<Row>)
    requires table != [] && Body(c, table) == []
    ensures CaseIds(Body(c, table)) == {}
  {
  }

  lemma IdIsFresh(c: Codec, f: Files, raw: string, table: seq<Row>, init: seq<Call>, last: Call)
    requires table != [] && CaseIds(Body(c, table)) <= DrawnIds(init)
    requires DistinctIds(init + [last]) && SameTextAsBound(f, raw, init + [last])
    ensures CallOk(c, f, raw, table, last)
  {
    var calls := init + [last];
    assert calls[|init|] == last;
    if last.Begin? {
      forall id | id in DrawnIds(init) ensures id != last.freshId {
        var call :| call in init && call.Begin? && call.freshId == id;
        var i :| 0 <= i < |init| && init[i] == call;
        assert calls[i] == call;
      }
    }
  }

  // ----- case by case -----

  lemma {:induction false} ProjectionMirrors(f: Files, calls: seq<Call>, body: seq<Record>, id: string)
    requires Mirrors(f, calls, body)
    ensures Mirrors(f, About(calls, id), Project(body, id))
  {
    hide Says;
    if calls != [] {
      var n := |calls| - 1;
      ProjectionMirrors(f, calls[..n], body[..n], id);
      SaysKind(f, calls[n], body[n]);
    }
  }

  lemma SameIds(f: Files, calls: seq<Call>, body: seq<Record>)
    requires Mirrors(f, calls, body)
    ensures Ids(calls) == CaseIds(body)
  {
    hide Says;
    forall i | 0 <= i < |calls| ensures body[i].caseId == Some(IdOf(calls[i])) { SaysKind(f, calls[i], body[i]); }
    forall id ensures id in Ids(calls) <==> id in CaseIds(body) {
      if id in Ids(calls) {
        var i :| 0 <= i < |calls| && IdOf(calls[i]) == id;
        assert body[i] in body;
      }
      if id in CaseIds(body) {
        var i :| 0 <= i < |body| && body[i].caseId == Some(id);
        assert calls[i] in calls;
      }
    }
  }

  /** All calls of a case but its first and last. */
  function Middle(calls: seq<Call>): seq<Call> {
    if |calls| < 2 then [] else calls[1..|calls| - 1]
  }

  /** The calls of one case run from a begin over observations to a finish. */
  predicate Ended(calls: seq<Call>) {
    && |calls| >= 3 && calls[0].Begin? && calls[|calls| - 1].Finish?
    && forall i | 0 <= i < |Middle(calls)| :: Middle(calls)[i].Observe?
  }

  lemma EndedExactly(f: Files, calls: seq<Call>, p: seq<Record>)
    requires Mirrors(f, calls, p) && Lifecycle(p)
    ensures CaseOf(p).finish.Some? <==> Ended(calls)
    ensures Ended(calls) ==> CaseOf(p) == Case(Some(p[0]), p[1..|p| - 1], Some(p[|p| - 1]))
    ensures p != [] ==> calls[0].Begin? && CaseOf(p).begin == Some(p[0])
  {
    hide Says;
    forall i | 0 <= i < |p|
      ensures (calls[i].Begin? <==> p[i].kind == STARTED) && (calls[i].Observe? <==> p[i].kind == OBSERVED)
      ensures calls[i].Finish? <==> p[i].kind == FINISHED
    {
      SaysKind(f, calls[i], p[i]);
    }
  }

  /** The entry carries what the calls of its case were given. */
  ghost predicate EntryTells(f: Files, calls: seq<Call>, d: CompiledCase)
    requires Ended(calls)
  {
    EndsTell(f, calls[0], calls[|calls| - 1], d) && SeenTells(f, Middle(calls), d)
  }

  predicate EndsTell(f: Files, b: Call, e: Call, d: CompiledCase)
    requires b.Begin? && e.Finish?
  {
    && d.name == Str(b.name)
    && d.marker.Str? && f.load(b.raw).Some? && MarkerSays(f.load(b.raw).value, b, d.marker.text)
    && d.noteBefore == Num(b.notes) && d.approvalBefore == Num(b.approvals)
    && d.noteAfter == Num(e.notes) && d.approvalAfter == Num(e.approvals)
  }

  ghost predicate SeenTells(f: Files, seen: seq<Call>, d: CompiledCase)
    requires forall i | 0 <= i < |seen| :: seen[i].Observe?
  {
    && |d.statuses| == |d.hashes| == |seen|
    && (forall i | 0 <= i < |seen| :: d.statuses[i] == Num(seen[i].status) && d.hashes[i] == Str(f.sha(seen[i].body)))
    && RunIdsTell(seen, d.runIds)
  }

  /** Exactly the run ids of the observations. */
  ghost predicate RunIdsTell(seen: seq<Call>, ids: seq<Value>)
    requires forall i | 0 <= i < |seen| :: seen[i].Observe?
  {
    && (forall v | v in ids :: exists i | 0 <= i < |seen| :: v == Str(seen[i].runId))
    && forall i | 0 <= i < |seen| :: Str(seen[i].runId) in ids
  }

  lemma ReportTells(f: Files, calls: seq<Call>, p: seq<Record>, d: CompiledCase)
    requires Mirrors(f, calls, p) && Ended(calls) && Reports(d, p)
    ensures EntryTells(f, calls, d)
  {
    hide Says, EndsTell, SeenTells, Reports;
    EndsOfReport(f, calls, p, d);
    SeenOfReport(f, calls, p, d);
  }

  lemma EndsOfReport(f: Files, calls: seq<Call>, p: seq<Record>, d: CompiledCase)
    requires Mirrors(f, calls, p) && Ended(calls) && Reports(d, p)
    ensures EndsTell(f, calls[0], calls[|calls| - 1], d)
  {
    hide Says, Reports, EndsTell;
    ReportedEnds(d, p);
    ToldEnds(f, calls[0], calls[|calls| - 1], p[0], p[|p| - 1], d);
  }

  lemma ReportedEnds(d: CompiledCase, p: seq<Record>)
    requires Reports(d, p)
    ensures |p| >= 3 && EndsHold(d, p[0].payload, p[|p| - 1].payload)
  {
    hide InFirstOrder, Get;
  }

  /** The entry holds what the first and the last payload hold. */
  predicate EndsHold(d: CompiledCase, first: Payload, last: Payload) {
    && Get(first, "name") == Some(d.name) && Get(first, "marker") == Some(d.marker)
    && Get(first, "note_count_before") == Some(d.noteBefore) && Get(first, "approval_use_count_before") == Some(d.approvalBefore)
    && Get(last, "note_count_after") == Some(d.noteAfter) && Get(last, "approval_use_count_after") == Some(d.approvalAfter)
  }

  lemma ToldEnds(f: Files, b: Call, e: Call, first: Record, last: Record, d: CompiledCase)
    requires b.Begin? && e.Finish? && Says(f, b, first) && Says(f, e, last) && EndsHold(d, first.payload, last.payload)
    ensures EndsTell(f, b, e, d)
  {
    hide Says, MarkerSays, Get;
    BeginPayload(f, b, first);
    FinishPayloadSays(f, e, last);
  }

  lemma SeenOfReport(f: Files, calls: seq<Call>, p: seq<Record>, d: CompiledCase)
    requires Mirrors(f, calls, p) && Ended(calls) && Reports(d, p)
    ensures SeenTells(f, Middle(calls), d)
  {
    hide Says, InFirstOrder, Get, RunIdsTell;
    var observed, seen := p[1..|p| - 1], Middle(calls);
    forall i | 0 <= i < |seen|
      ensures d.statuses[i] == Num(seen[i].status) && d.hashes[i] == Str(f.sha(seen[i].body))
      ensures Says(f, seen[i], observed[i])
    {
      ObservePayloadSays(f, seen[i], observed[i]);
    }
    RunIdsOfReport(f, seen, observed, d.runIds);
  }

  lemma RunIdsOfReport(f: Files, seen: seq<Call>, observed: seq<Record>, ids: seq<Value>)
    requires |seen| == |observed| && forall i | 0 <= i < |seen| :: seen[i].Observe? && Says(f, seen[i], observed[i])
    requires forall v :: v in ids <==> exists k | 0 <= k < |observed| :: Get(observed[k].payload, "run_id") == Some(v)
    ensures RunIdsTell(seen, ids)
  {
    hide Says;
    forall i | 0 <= i < |seen| ensures Get(observed[i].payload, "run_id") == Some(Str(seen[i].runId)) {
      ObservePayloadSays(f, seen[i], observed[i]);
    }
  }

  lemma BeginPayload(f: Files, call: Call, r: Record)
    requires Says(f, call, r) && call.Begin?
    ensures f.load(call.raw).Some? && Get(r.payload, "marker").Some? && Get(r.payload, "marker").value.Str?
    ensures MarkerSays(f.load(call.raw).value, call, Get(r.payload, "marker").value.text)
    ensures Get(r.payload, "name") == Some(Str(call.name))
    ensures Get(r.payload, "note_count_before") == Some(Num(call.notes))
    ensures Get(r.payload, "approval_use_count_before") == Some(Num(call.approvals))
  {
  }

  lemma ObservePayloadSays(f: Files, call: Call, r: Record)
    requires Says(f, call, r) && call.Observe?
    ensures Get(r.payload, "status") == Some(Num(call.status))
    ensures Get(r.payload, "response_sha256") == Some(Str(f.sha(call.body)))
    ensures Get(r.payload, "run_id") == Some(Str(call.runId))
  {
  }

  lemma FinishPayloadSays(f: Files, call: Call, r: Record)
    requires Says(f, call, r) && call.Finish?
    ensures Get(r.payload, "note_count_after") == Some(Num(call.notes))
    ensures Get(r.payload, "approval_use_count_after") == Some(Num(call.approvals))
  {
  }

  // ----- finalizing -----

  function StatusesPassed(calls: seq<Call>): seq<int>
    requires Ended(calls)
  {
    seq(|Middle(calls)|, i requires 0 <= i < |Middle(calls)| => Middle(calls)[i].status)
  }

  /** The case was ended, and what its calls were given meets the rules for its name. */
  predicate CallsMet(calls: seq<Call>) {
    && Ended(calls)
    && var b, e := calls[0], calls[|calls| - 1];
       StatusesOk(b.name, StatusesPassed(calls)) && DeltasOk(b.name, b.notes, e.notes, b.approvals, e.approvals)
  }

  /** Every one of the seven names was begun, and all begun cases meet their rules. */
  predicate CallsComplete(calls: seq<Call>) {
    && (forall name | name in NEGATIVE_CASES :: exists call | call in calls :: call.Begin? && call.name == name)
    && forall id | id in Ids(calls) :: CallsMet(About(calls, id))
  }

  lemma MetExactly(f: Files, calls: seq<Call>, p: seq<Record>)
    requires Mirrors(f, calls, p) && Lifecycle(p) && p != []
    ensures ContractMet(CaseOf(p)) <==> CallsMet(calls)
  {
    hide StatusesOk, DeltasOk, Lifecycle, CaseOf;
    EndedExactly(f, calls, p);
    hide Says;
    if Ended(calls) {
      BeginPayload(f, calls[0], p[0]);
      FinishPayloadSays(f, calls[|calls| - 1], p[|p| - 1]);
      StatusesAgree(f, calls, p);
    }
  }

  lemma StatusesAgree(f: Files, calls: seq<Call>, p: seq<Record>)
    requires Mirrors(f, calls, p) && Ended(calls)
    ensures Statuses(p[1..|p| - 1]) == StatusesPassed(calls)
  {
    hide Says;
    var observed, seen := p[1..|p| - 1], Middle(calls);
    forall i | 0 <= i < |seen| ensures Statuses(observed)[i] == seen[i].status {
      ObservePayloadSays(f, seen[i], observed[i]);
    }
  }

  lemma BegunNames(f: Files, calls: seq<Call>, body: seq<Record>, name: string)
    requires Mirrors(f, calls, body) && LifecyclesOk(body)
    ensures Some(Str(name)) in StartedNames(CasesOf(body)) <==> exists call | call in calls :: call.Begin? && call.name == name
  {
    hide Says, Lifecycle, CaseOf;
    SameIds(f, calls, body);
    if Some(Str(name)) in StartedNames(CasesOf(body)) {
      var id :| id in CaseIds(body) && CaseOf(Project(body, id)).begin.Some?
                && Get(CaseOf(Project(body, id)).begin.value.payload, "name") == Some(Str(name));
      FirstCall(f, calls, body, id);
      var b := About(calls, id)[0];
      AboutMembers(calls, id);
      assert b in calls && b.Begin? && b.name == name;
    }
    if call :| call in calls && call.Begin? && call.name == name {
      var id := IdOf(call);
      assert id in Ids(calls);
      FirstCall(f, calls, body, id);
      OnlyBegin(f, calls, body, call);
      assert CasesOf(body)[id].begin.Some?;
    }
  }

  lemma {:induction false} AboutMembers(calls: seq<Call>, id: string)
    ensures forall call :: call in About(calls, id) <==> call in calls && IdOf(call) == id
  {
    if calls != [] {
      AboutMembers(calls[..|calls| - 1], id);
      assert calls == calls[..|calls| - 1] + [calls[|calls| - 1]];
    }
  }

  /** A known case was begun by its first call. */
  lemma FirstCall(f: Files, calls: seq<Call>, body: seq<Record>, id: string)
    requires Mirrors(f, calls, body) && LifecyclesOk(body) && id in CaseIds(body)
    ensures About(calls, id) != [] && About(calls, id)[0].Begin? && Project(body, id) != []
    ensures CaseOf(Project(body, id)).begin.Some?
    ensures Get(CaseOf(Project(body, id)).begin.value.payload, "name") == Some(Str(About(calls, id)[0].name))
  {
    var mine, p := About(calls, id), Project(body, id);
    ProjectionMirrors(f, calls, body, id);
    ProjectMembers(body, id);
    EndedExactly(f, mine, p);
    assert Says(f, mine[0], p[0]);
  }

  /** And by no other. */
  lemma OnlyBegin(f: Files, calls: seq<Call>, body: seq<Record>, call: Call)
    requires Mirrors(f, calls, body) && LifecyclesOk(body) && call in calls && call.Begin?
    ensures About(calls, IdOf(call)) != [] && About(calls, IdOf(call))[0] == call
  {
    hide Says;
    var mine, p := About(calls, IdOf(call)), Project(body, IdOf(call));
    ProjectionMirrors(f, calls, body, IdOf(call));
    AboutMembers(calls, IdOf(call));
    var i :| 0 <= i < |mine| && mine[i] == call;
    SaysKind(f, mine[i], p[i]);
    assert Lifecycle(p);
  }

  lemma CompleteExactly(f: Files, calls: seq<Call>, body: seq<Record>)
    requires Mirrors(f, calls, body) && LifecyclesOk(body)
    ensures Complete(CasesOf(body)) <==> CallsComplete(calls)
  {
    hide Says, Lifecycle, CaseOf, ContractMet, CallsMet, Mirrors, StartedNames, Project, About;
    SameIds(f, calls, body);
    forall name ensures Some(Str(name)) in StartedNames(CasesOf(body)) <==> exists call | call in calls :: call.Begin? && call.name == name {
      BegunNames(f, calls, body, name);
    }
    forall id | id in CaseIds(body) ensures ContractMet(CasesOf(body)[id]) <==> CallsMet(About(calls, id)) {
      ProjectionMirrors(f, calls, body, id);
      ProjectMembers(body, id);
      assert Lifecycle(Project(body, id));
      MetExactly(f, About(calls, id), Project(body, id));
    }
  }

  /** After any run from a new journal, finalizing succeeds if and only if the accepted
      calls began all seven cases, ended each, and were given statuses and counts that
      meet the rules. */
  lemma FinalizeByCalls(c: Codec, f: Files, m: Manifest, raw: string, table: seq<Row>, calls: seq<Call>)
    requires Faithful(c) && ShaShaped(f) && f.load(raw) == Some(m) && ManifestOk(c.clock, m, false)
    requires Recorded(c, f, m, raw, table) && Body(c, table) == []
    requires DistinctIds(calls) && SameTextAsBound(f, raw, calls)
    ensures FinalizeOk(c, f, RunCalls(c, f, table, calls), raw) <==> CallsComplete(Taken(c, f, table, calls))
  {
    hide Faithful, Recorded, Mirrors, CallsComplete, Complete, FinalizeOk, ManifestOk, Lifecycle, Body;
    var after := RunCalls(c, f, table, calls);
    RunMirrors(c, f, m, raw, table, calls);
    RecordedFolds(c, f, m, raw, after);
    FinalizeExactly(c, f, m, raw, after);
    CompleteExactly(f, Taken(c, f, table, calls), Body(c, after));
  }

  lemma RecordedFolds(c: Codec, f: Files, m: Manifest, raw: string, table: seq<Row>)
    requires Recorded(c, f, m, raw, table)
    ensures table != [] && LifecyclesOk(Body(c, table))
    ensures RecordsOf(c, table) != [] && RecordsOf(c, table)[1..] == Body(c, table)
    ensures StateOk(RecordsOf(c, table)) && SeqIncreasing(RecordsOf(c, table))
  {
    IntactIsIncreasing(c, table);
  }

  /** And then the document has one entry for each begun case, in the order of the begin
      calls, that carries exactly what the calls of that case were given. */
  lemma DocumentTellsCalls(c: Codec, f: Files, m: Manifest, raw: string, table: seq<Row>, calls: seq<Call>)
    requires Faithful(c) && ShaShaped(f) && f.load(raw) == Some(m) && ManifestOk(c.clock, m, false)
    requires Recorded(c, f, m, raw, table) && Body(c, table) == []
    requires DistinctIds(calls) && SameTextAsBound(f, raw, calls)
    requires FinalizeOk(c, f, RunCalls(c, f, table, calls), raw)
    ensures var taken, after := Taken(c, f, table, calls), RunCalls(c, f, table, calls);
            var entries, order := Document(RecordsOf(c, after), m).cases, BeginIds(taken);
            && Document(RecordsOf(c, after), m).pilotId == m.header.pilotId
            && |entries| == |order| && (forall id :: id in order <==> id in Ids(taken))
            && forall i | 0 <= i < |order| ::
                 Ended(About(taken, order[i])) && EntryTells(f, About(taken, order[i]), entries[i])
  {
    hide Faithful, Recorded, Mirrors, CompileOk, ManifestOk, Lifecycle, Body, Reports, EntryTells, Says, CaseOf;
    var taken, after := Taken(c, f, table, calls), RunCalls(c, f, table, calls);
    RunMirrors(c, f, m, raw, table, calls);
    RecordedFolds(c, f, m, raw, after);
    var rows, body := RecordsOf(c, after), Body(c, after);
    CompiledIsCompilable(c.clock, rows, m);
    DocumentIsFaithful(rows, m);
    SameIds(f, taken, body);
    SameOrder(f, taken, body);
    forall i | 0 <= i < |BeginOrder(body)|
      ensures var mine := About(taken, BeginOrder(body)[i]);
              Ended(mine) && EntryTells(f, mine, Document(rows, m).cases[i])
    {
      EntryOfCase(f, taken, body, BeginOrder(body)[i], Document(rows, m).cases[i]);
    }
  }

  lemma CompiledIsCompilable(k: Clock, rows: seq<Record>, m: Manifest)
    requires rows != [] && CompileOk(k, rows, m)
    ensures Compilable(rows)
  {
  }

  lemma EntryOfCase(f: Files, calls: seq<Call>, body: seq<Record>, id: string, d: CompiledCase)
    requires Mirrors(f, calls, body) && LifecyclesOk(body) && Reports(d, Project(body, id))
    ensures Ended(About(calls, id)) && EntryTells(f, About(calls, id), d)
  {
    hide Says, EntryTells;
    var p := Project(body, id);
    ProjectionMirrors(f, calls, body, id);
    assert Lifecycle(p);
    EndedExactly(f, About(calls, id), p);
    ReportTells(f, About(calls, id), p, d);
  }

  /** The ids of the begun cases, in the order of the begin calls. */
  function BeginIds(calls: seq<Call>): seq<string> {
    if calls == [] then []
    else
      var last := calls[|calls| - 1];
      BeginIds(calls[..|calls| - 1]) + if last.Begin? then [last.freshId] else []
  }

  lemma {:induction false} SameOrder(f: Files, calls: seq<Call>, body: seq<Record>)
    requires Mirrors(f, calls, body)
    ensures BeginIds(calls) == BeginOrder(body)
  {
    hide Says;
    if calls != [] {
      var n := |calls| - 1;
      SameOrder(f, calls[..n], body[..n]);
      SaysKind(f, calls[n], body[n]);
    }
  }
}
