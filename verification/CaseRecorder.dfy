/** The recorder's calls begin_case, observe_request and finish_case, each a check of the
    whole journal followed by one append, and what holds of every journal they produce. */
module CaseRecorder {
  import opened Basics
  import opened JournalStore
  import opened JournalCases
  import opened Manifest

  const NEGATIVE_CASES: set<string> :=
    {"deny", "timeout", "changed_args", "stale_revision", "replay", "concurrent_approval", "stop_retry_replan"}
  const POSITIVE_CASES: set<string> := {"replay", "stop_retry_replan"}
  const MAX_RESPONSE_BYTES := 1_048_576

  /** The digest of a file's bytes, and the manifest those bytes hold, if any. */
  datatype Files = Files(sha: string -> Digest, load: string -> Option<Manifest>)

  /** What the digests of response bodies look like. */
  ghost predicate ShaShaped(f: Files) {
    forall raw :: IsHex(f.sha(raw), 64)
  }

  datatype CaseError =
    | Unreadable(journal: JournalError) | Unfoldable(state: StateError) | ManifestInvalid | OtherManifest
    | UnsupportedCase | NegativeCount | AlreadyStarted | OrdinalRule | InvalidStatus | InvalidRunId
    | ResponseTooLarge | CaseNotOpen | CaseNotReady | EvidenceRejected

  // ----- payloads -----

  function StartPayload(name: string, marker: string, notes: int, approvals: int): Payload {
    map["name" := Str(name), "marker" := Str(marker),
        "note_count_before" := Num(notes), "approval_use_count_before" := Num(approvals)]
  }

  function ObservePayload(f: Files, status: int, body: string, runId: string): Payload {
    map["status" := Num(status), "response_sha256" := Str(f.sha(body)),
        "response_bytes" := Num(|body|), "run_id" := Str(runId)]
  }

  function FinishPayload(notes: int, approvals: int): Payload {
    map["note_count_after" := Num(notes), "approval_use_count_after" := Num(approvals)]
  }

  // ----- reading the journal -----

  function Body(c: Codec, table: seq<Row>): seq<Record>
    requires table != []
  {
    RecordsOf(c, table)[1..]
  }

  /** The journal reads back and folds into cases. */
  ghost predicate Readable(c: Codec, table: seq<Row>) {
    Intact(c, table) && StateOk(RecordsOf(c, table))
  }

  ghost predicate BoundTo(c: Codec, f: Files, table: seq<Row>, m: Manifest, raw: string) {
    && Readable(c, table)
    && Get(PayloadOf(c, table[0]), "pilot_id") == Some(Str(m.header.pilotId))
    && Get(PayloadOf(c, table[0]), "manifest_sha256") == Some(Str(f.sha(raw)))
  }

  function StartedNames(cases: map<string, Case>): set<Option<Value>> {
    set id | id in cases && cases[id].begin.Some? :: Get(cases[id].begin.value.payload, "name")
  }

  /** `verify_journal` followed by `_state`. */
  method ReadCases(c: Codec, table: seq<Row>)
    returns (r: Result<(seq<Record>, Payload, map<string, Case>), CaseError>)
    ensures r.Ok? <==> Readable(c, table)
    ensures r.Ok? ==> r.value == (RecordsOf(c, table), PayloadOf(c, table[0]), CasesOf(Body(c, table)))
  {
    var rows := Rows(c, table);
    if rows.Err? { return Err(Unreadable(rows.error)); }
    var state := State(rows.value);
    if state.Err? { return Err(Unfoldable(state.error)); }
    return Ok((rows.value, state.value.0, state.value.1));
  }

  /** `verify_journal_binding`. */
  method VerifyJournalBinding(c: Codec, f: Files, table: seq<Row>, m: Manifest, raw: string)
    returns (r: Result<(seq<Record>, map<string, Case>), CaseError>)
    ensures r.Ok? <==> BoundTo(c, f, table, m, raw)
    ensures r.Ok? ==> r.value == (RecordsOf(c, table), CasesOf(Body(c, table)))
  {
    var read := ReadCases(c, table);
    if read.Err? { return Err(read.error); }
    var (rows, meta, cases) := read.value;
    if Get(meta, "pilot_id") != Some(Str(m.header.pilotId)) || Get(meta, "manifest_sha256") != Some(Str(f.sha(raw))) {
      return Err(OtherManifest);
    }
    return Ok((rows, cases));
  }

  // ----- the calls -----

  datatype Call =
    | Begin(raw: string, name: string, notes: int, approvals: int, ordinal: Option<int>, freshId: string, token: string, now: int)
    | Observe(caseId: string, status: int, body: string, runId: string, now: int)
    | Finish(caseId: string, notes: int, approvals: int, now: int)

  function MarkerFor(m: Manifest, name: string, ordinal: Option<int>, token: string): string
    requires name in POSITIVE_CASES ==> ordinal.Some? && 1 <= ordinal.value <= |m.runs|
  {
    if name in POSITIVE_CASES then m.runs[ordinal.value - 1].marker
    else "KALIV-T022:" + m.header.pilotId + ":N:" + name + ":" + token
  }

  predicate OrdinalOk(m: Manifest, name: string, ordinal: Option<int>) {
    if name in POSITIVE_CASES then ordinal.Some? && 1 <= ordinal.value <= |m.runs| else ordinal.None?
  }

  /** The case is open for observations. */
  ghost predicate Open(c: Codec, table: seq<Row>, id: string) {
    && Readable(c, table)
    && var cases := CasesOf(Body(c, table));
       id in cases && cases[id].begin.Some? && cases[id].finish.None?
  }

  ghost predicate Enabled(c: Codec, f: Files, table: seq<Row>, call: Call) {
    match call
    case Begin(raw, name, notes, approvals, ordinal, _, _, _) =>
      && name in NEGATIVE_CASES && notes >= 0 && approvals >= 0
      && f.load(raw).Some?
      && var m := f.load(raw).value;
         && ManifestOk(c.clock, m, false)
         && BoundTo(c, f, table, m, raw)
         && Some(Str(name)) !in StartedNames(CasesOf(Body(c, table)))
         && OrdinalOk(m, name, ordinal)
    case Observe(id, status, body, runId, _) =>
      && 100 <= status <= 599 && IsOpaqueId(runId) && |body| <= MAX_RESPONSE_BYTES
      && Open(c, table, id)
    case Finish(id, notes, approvals, _) =>
      && notes >= 0 && approvals >= 0
      && Open(c, table, id) && CasesOf(Body(c, table))[id].observations != []
  }

  /** What an accepted call appends. */
  function Entry(f: Files, call: Call): Request
    requires call.Begin? ==> f.load(call.raw).Some? && OrdinalOk(f.load(call.raw).value, call.name, call.ordinal)
  {
    match call
    case Begin(raw, name, notes, approvals, ordinal, freshId, token, now) =>
      Request(STARTED, Some(freshId), StartPayload(name, MarkerFor(f.load(raw).value, name, ordinal, token), notes, approvals), now)
    case Observe(id, status, body, runId, now) => Request(OBSERVED, Some(id), ObservePayload(f, status, body, runId), now)
    case Finish(id, notes, approvals, now) => Request(FINISHED, Some(id), FinishPayload(notes, approvals), now)
  }

  function Extend(c: Codec, table: seq<Row>, q: Request): seq<Row> {
    table + [NextRow(c, table, q.kind, q.caseId, q.payload, q.now)]
  }

  /** The new row's hash is already that of another record. */
  predicate HashTaken(c: Codec, table: seq<Row>, q: Request) {
    Collides(c, table, NextPreimage(c, table, q.kind, q.caseId, q.payload, q.now))
  }

  ghost predicate Appends(c: Codec, f: Files, table: seq<Row>, call: Call) {
    Enabled(c, f, table, call) && !HashTaken(c, table, Entry(f, call))
  }

  ghost function Step(c: Codec, f: Files, table: seq<Row>, call: Call): seq<Row> {
    if Appends(c, f, table, call) then Extend(c, table, Entry(f, call)) else table
  }

  /** `begin_case`: returns the case id and its marker. */
  method BeginCase(j: Journal, f: Files, raw: string, name: string, notes: int, approvals: int,
                   ordinal: Option<int>, freshId: string, token: string, now: int)
    returns (r: Result<(string, string), CaseError>)
    modifies j`table
    ensures var call := Begin(raw, name, notes, approvals, ordinal, freshId, token, now);
            && (r.Ok? <==> Appends(j.codec, f, old(j.table), call))
            && j.table == Step(j.codec, f, old(j.table), call)
            && (r.Ok? ==> r.value == (freshId, MarkerFor(f.load(raw).value, name, ordinal, token)))
  {
    if name !in NEGATIVE_CASES { return Err(UnsupportedCase); }
    if notes < 0 || approvals < 0 { return Err(NegativeCount); }
    var loaded := f.load(raw);
    if loaded.None? { return Err(ManifestInvalid); }
    var m := loaded.value;
    var errors := ValidateManifest(j.codec.clock, m, false);
    if errors != [] { return Err(ManifestInvalid); }
    var bound := VerifyJournalBinding(j.codec, f, j.table, m, raw);
    if bound.Err? { return Err(bound.error); }
    var (_, cases) := bound.value;
    if Some(Str(name)) in StartedNames(cases) { return Err(AlreadyStarted); }
    var marker: string;
    if name in POSITIVE_CASES {
      if ordinal.None? || ordinal.value < 1 || ordinal.value > |m.runs| { return Err(OrdinalRule); }
      marker := m.runs[ordinal.value - 1].marker;
    } else {
      if ordinal.Some? { return Err(OrdinalRule); }
      marker := "KALIV-T022:" + m.header.pilotId + ":N:" + name + ":" + token;
    }
    r := AppendEntry(j, STARTED, freshId, StartPayload(name, marker, notes, approvals), now, (freshId, marker));
  }

  /** `observe_request`: returns the new record's hash. */
  method ObserveRequest(j: Journal, f: Files, caseId: string, status: int, body: string, runId: string, now: int)
    returns (r: Result<Digest, CaseError>)
    modifies j`table
    ensures var call := Observe(caseId, status, body, runId, now);
            && (r.Ok? <==> Appends(j.codec, f, old(j.table), call))
            && j.table == Step(j.codec, f, old(j.table), call)
            && (r.Ok? ==> j.table != [] && r.value == j.table[|j.table| - 1].hash)
  {
    if status < 100 || status > 599 { return Err(InvalidStatus); }
    if !IsOpaqueId(runId) { return Err(CaseError.InvalidRunId); }
    if |body| > MAX_RESPONSE_BYTES { return Err(ResponseTooLarge); }
    var read := ReadCases(j.codec, j.table);
    if read.Err? { return Err(read.error); }
    var (_, _, cases) := read.value;
    if caseId !in cases || cases[caseId].begin.None? || cases[caseId].finish.Some? { return Err(CaseNotOpen); }
    var payload := ObservePayload(f, status, body, runId);
    var digest := NextRow(j.codec, j.table, OBSERVED, Some(caseId), payload, now).hash;
    r := AppendEntry(j, OBSERVED, caseId, payload, now, digest);
  }

  /** `finish_case`: returns the new record's hash. */
  method FinishCase(j: Journal, f: Files, caseId: string, notes: int, approvals: int, now: int)
    returns (r: Result<Digest, CaseError>)
    modifies j`table
    ensures var call := Finish(caseId, notes, approvals, now);
            && (r.Ok? <==> Appends(j.codec, f, old(j.table), call))
            && j.table == Step(j.codec, f, old(j.table), call)
            && (r.Ok? ==> j.table != [] && r.value == j.table[|j.table| - 1].hash)
  {
    if notes < 0 || approvals < 0 { return Err(NegativeCount); }
    var read := ReadCases(j.codec, j.table);
    if read.Err? { return Err(read.error); }
    var (_, _, cases) := read.value;
    if caseId !in cases || cases[caseId].begin.None? || cases[caseId].observations == [] || cases[caseId].finish.Some? {
      return Err(CaseNotReady);
    }
    var payload := FinishPayload(notes, approvals);
    var digest := NextRow(j.codec, j.table, FINISHED, Some(caseId), payload, now).hash;
    r := AppendEntry(j, FINISHED, caseId, payload, now, digest);
  }

  /** The append that ends every accepted call. */
  method AppendEntry<T>(j: Journal, kind: string, caseId: string, payload: Payload, now: int, result: T)
    returns (r: Result<T, CaseError>)
    requires Intact(j.codec, j.table)
    modifies j`table
    ensures r.Err? ==> j.table == old(j.table)
    ensures r.Ok? ==> j.table == Extend(j.codec, old(j.table), Request(kind, Some(caseId), payload, now)) && r.value == result
    ensures r.Ok? <==> !HashTaken(j.codec, old(j.table), Request(kind, Some(caseId), payload, now))
  {
    NextHashIsFresh(j.codec, j.table, kind, Some(caseId), payload, now);
    var appended := j.Append(kind, Some(caseId), payload, now);
    if appended.Err? { return Err(Unreadable(appended.error)); }
    return Ok(result);
  }
}
