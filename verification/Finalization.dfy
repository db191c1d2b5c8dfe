/** From log to document: `compile_negative` and `finalize`, what the document says, and
    exactly when the operator's own contracts make finalizing succeed. */
module Finalization {
  import opened Basics
  import opened JournalStore
  import opened JournalCases
  import opened Manifest
  import opened CaseRecorder
  import opened JournalRuns
  import opened NegativeEvidence

  // ----- compiling -----

  predicate AllFinished(cases: map<string, Case>) {
    forall id | id in cases :: cases[id].finish.Some?
  }

  ghost predicate Compilable(rows: seq<Record>)
    requires rows != []
  {
    && StateOk(rows)
    && AllFinished(CasesOf(rows[1..]))
    && forall id | id in CasesOf(rows[1..]) :: Whole(CasesOf(rows[1..])[id])
  }

  /** The compiled form of a whole case. */
  function CompiledOf(c: Case): CompiledCase
    requires Whole(c)
  {
    Compiled(c.begin.value, c.observations, c.finish.value)
  }

  /** The compiled cases, in the given order, of cases known to be whole. */
  function CompiledCases(cases: map<string, Case>, order: seq<string>): seq<CompiledCase> {
    seq(|order|, i requires 0 <= i < |order| => CompileOr(cases, order[i]))
  }

  function CompileOr(cases: map<string, Case>, id: string): CompiledCase {
    if id in cases && Whole(cases[id]) then CompiledOf(cases[id])
    else CompiledCase(Other(""), "", Other(""), [], [], Other(""), Other(""), Other(""), Other(""), [])
  }

  /** The document for a compilable log. */
  function Document(rows: seq<Record>, m: Manifest): Negative
    requires rows != []
  {
    Negative(NEGATIVE_SCHEMA, m.header.pilotId, rows[|rows| - 1].recordedAt,
             CompiledCases(CasesOf(rows[1..]), BeginOrder(rows[1..])))
  }

  /** The first case named replay targets one of the positive markers. */
  predicate ReplayOk(m: Manifest, cases: seq<CompiledCase>) {
    exists i | 0 <= i < |cases| ::
      && Named(cases[i], "replay") && cases[i].marker.Str? && cases[i].marker.text in Markers(m)
      && forall j | 0 <= j < i :: !Named(cases[j], "replay")
  }

  lemma OrderOfCompilable(rows: seq<Record>)
    requires rows != [] && Compilable(rows) && SeqIncreasing(rows)
    ensures forall id :: id in BeginOrder(rows[1..]) <==> id in CasesOf(rows[1..])
    ensures forall id | id in BeginOrder(rows[1..]) :: Whole(CasesOf(rows[1..])[id])
    ensures Ascending(CasesOf(rows[1..]), BeginOrder(rows[1..]))
  {
    var body := rows[1..];
    assert SeqIncreasing(body) by {
      assert forall i, j | 0 <= i < j < |body| :: body[i] == rows[i + 1] && body[j] == rows[j + 1];
    }
    BeginOrderIsAscending(body);
  }

  lemma BegunApart(rows: seq<Record>)
    requires rows != [] && StateOk(rows) && SeqIncreasing(rows)
    ensures var cases := CasesOf(rows[1..]);
            forall a, b | a in cases && b in cases && a != b :: BegunAt(cases, a) != BegunAt(cases, b)
  {
    hide BegunAt, Lifecycle, Project, CaseOf;
    var body := rows[1..];
    assert SeqIncreasing(body) by {
      assert forall i, j | 0 <= i < j < |body| :: body[i] == rows[i + 1] && body[j] == rows[j + 1];
    }
    BeginOrderIsAscending(body);
    var cases, order := CasesOf(body), BeginOrder(body);
    forall a, b | a in cases && b in cases && a != b ensures BegunAt(cases, a) != BegunAt(cases, b) {
      assert a in order && b in order;
      var i :| 0 <= i < |order| && order[i] == a;
      var j :| 0 <= j < |order| && order[j] == b;
      assert i < j || j < i;
    }
  }

  ghost predicate CompileOk(k: Clock, rows: seq<Record>, m: Manifest)
    requires rows != []
  {
    Compilable(rows) && NegativeOk(k, Document(rows, m), m) && ReplayOk(m, Document(rows, m).cases)
  }

  /** `compile_negative`. */
  method CompileNegative(k: Clock, rows: seq<Record>, m: Manifest) returns (r: Result<Negative, CompileError>)
    requires rows != [] && SeqIncreasing(rows)
    ensures r.Ok? <==> CompileOk(k, rows, m)
    ensures r.Ok? ==> r.value == Document(rows, m)
  {
    var state := State(rows);
    if state.Err? { return Err(NotFoldable(state.error)); }
    var (_, cases) := state.value;
    if Compilable(rows) { OrderOfCompilable(rows); }
    if !AllFinished(cases) { return Err(Unfinished); }
    BegunApart(rows);
    var order := SortByBegin(cases);
    if Compilable(rows) { AscendingIsUnique(cases, order, BeginOrder(rows[1..])); }
    var compiled := CompileAll(cases, order);
    if compiled.None? { return Err(MissingKey); }
    var doc := Negative(NEGATIVE_SCHEMA, m.header.pilotId, rows[|rows| - 1].recordedAt, compiled.value);
    var errors := ValidateNegative(k, doc, m);
    if errors != [] { return Err(InvalidEvidence(errors)); }
    var replayed := ReplaysPositive(m, doc.cases);
    if !replayed { return Err(ReplayTarget); }
    return Ok(doc);
  }

  method CompileAll(cases: map<string, Case>, order: seq<string>) returns (r: Option<seq<CompiledCase>>)
    requires forall id :: id in order <==> id in cases
    ensures r.Some? <==> forall id | id in cases :: Whole(cases[id])
    ensures r.Some? ==> r.value == CompiledCases(cases, order)
  {
    hide CompiledOf, Whole;
    var compiled: seq<CompiledCase> := [];
    for i := 0 to |order|
      invariant forall j | 0 <= j < i :: Whole(cases[order[j]])
      invariant |compiled| == i && forall j | 0 <= j < i :: compiled[j] == CompileOr(cases, order[j])
    {
      assert order[i] in order;
      var c := cases[order[i]];
      if !Whole(c) { return None; }
      compiled := compiled + [CompiledOf(c)];
    }
    return Some(compiled);
  }

  method ReplaysPositive(m: Manifest, cases: seq<CompiledCase>) returns (ok: bool)
    ensures ok <==> ReplayOk(m, cases)
  {
    for i := 0 to |cases|
      invariant forall j | 0 <= j < i :: !Named(cases[j], "replay")
    {
      if Named(cases[i], "replay") {
        return cases[i].marker.Str? && cases[i].marker.text in Markers(m);
      }
    }
    return false;
  }

  /** `finalize`. */
  method Finalize(j: Journal, f: Files, raw: string) returns (r: Result<Negative, CaseError>)
    ensures r.Ok? <==> FinalizeOk(j.codec, f, j.table, raw)
    ensures r.Ok? ==> r.value == Document(RecordsOf(j.codec, j.table), f.load(raw).value)
  {
    var loaded := f.load(raw);
    if loaded.None? { return Err(ManifestInvalid); }
    var m := loaded.value;
    var errors := ValidateManifest(j.codec.clock, m, false);
    if errors != [] { return Err(ManifestInvalid); }
    var bound := VerifyJournalBinding(j.codec, f, j.table, m, raw);
    if bound.Err? { return Err(bound.error); }
    var (rows, _) := bound.value;
    IntactIsIncreasing(j.codec, j.table);
    var compiled := CompileNegative(j.codec.clock, rows, m);
    if compiled.Err? { return Err(EvidenceRejected); }
    return Ok(compiled.value);
  }

  ghost predicate FinalizeOk(c: Codec, f: Files, table: seq<Row>, raw: string) {
    && f.load(raw).Some?
    && ManifestOk(c.clock, f.load(raw).value, false)
    && BoundTo(c, f, table, f.load(raw).value, raw)
    && CompileOk(c.clock, RecordsOf(c, table), f.load(raw).value)
  }

  lemma IntactIsIncreasing(c: Codec, table: seq<Row>)
    requires Intact(c, table)
    ensures SeqIncreasing(RecordsOf(c, table))
  {
    forall i, j | 0 <= i < j < |table| ensures RecordsOf(c, table)[i].seqNo < RecordsOf(c, table)[j].seqNo {
      assert LinkOk(c, table, i) && LinkOk(c, table, j);
    }
  }

  // ----- what the document says -----

  /** Case by case, in begin order and each once, the document carries what the log
      recorded: one status and one hash per observation, aligned, and the run ids in
      the order of their first observation. */
  lemma DocumentIsFaithful(rows: seq<Record>, m: Manifest)
    requires rows != [] && Compilable(rows) && SeqIncreasing(rows)
    ensures var order := BeginOrder(rows[1..]);
            && (forall id :: id in order <==> id in CaseIds(rows[1..]))
            && Ascending(CasesOf(rows[1..]), order)
            && |Document(rows, m).cases| == |order|
    ensures forall i | 0 <= i < |BeginOrder(rows[1..])| ::
              Reports(Document(rows, m).cases[i], Project(rows[1..], BeginOrder(rows[1..])[i]))
  {
    var body := rows[1..];
    OrderOfCompilable(rows);
    var order, cases := BeginOrder(body), CasesOf(body);
    forall i | 0 <= i < |order| ensures Reports(Document(rows, m).cases[i], Project(body, order[i])) {
      assert order[i] in order;
      CompiledReports(cases[order[i]], Project(body, order[i]));
    }
  }

  /** Some observation carries run id `u` before any carries `v`. */
  predicate SeenBefore(observed: seq<Record>, u: Value, v: Value) {
    exists k | 0 <= k < |observed| :: SeenFirst(observed, u, v, k)
  }

  predicate SeenFirst(observed: seq<Record>, u: Value, v: Value, k: nat)
    requires k < |observed|
  {
    && Get(observed[k].payload, "run_id") == Some(u)
    && forall l | 0 <= l <= k :: Get(observed[l].payload, "run_id") != Some(v)
  }

  lemma FirstAppearance(observed: seq<Record>, u: Value, v: Value)
    requires forall k | 0 <= k < |observed| :: "run_id" in observed[k].payload
    requires var ids := Values(observed, "run_id"); u in ids && v in ids && FirstAt(ids, u) < FirstAt(ids, v)
    ensures SeenBefore(observed, u, v)
  {
    var ids := Values(observed, "run_id");
    assert forall k | 0 <= k < |observed| :: Get(observed[k].payload, "run_id") == Some(ids[k]);
    assert SeenFirst(observed, u, v, FirstAt(ids, u));
  }

  /** Each run id once, in the order in which they were first observed. */
  ghost predicate InFirstOrder(ids: seq<Value>, observed: seq<Record>) {
    forall i, j | 0 <= i < j < |ids| :: ids[i] != ids[j] && SeenBefore(observed, ids[i], ids[j])
  }

  lemma DedupInFirstOrder(observed: seq<Record>)
    requires forall k | 0 <= k < |observed| :: "run_id" in observed[k].payload
    ensures InFirstOrder(Dedup(Values(observed, "run_id")), observed)
  {
    hide Dedup, Values, SeenBefore;
    var once := Dedup(Values(observed, "run_id"));
    DedupMeaning(Values(observed, "run_id"));
    forall i, j | 0 <= i < j < |once| ensures once[i] != once[j] && SeenBefore(observed, once[i], once[j]) {
      assert once[i] in once && once[j] in once;
      FirstAppearance(observed, once[i], once[j]);
    }
  }

  /** The compiled case says what the case's own records say. */
  ghost predicate Reports(c: CompiledCase, p: seq<Record>) {
    && |p| >= 3
    && var first, last, observed := p[0], p[|p| - 1], p[1..|p| - 1];
       && first.kind == STARTED && last.kind == FINISHED
       && Get(first.payload, "name") == Some(c.name) && Get(first.payload, "marker") == Some(c.marker)
       && Get(first.payload, "note_count_before") == Some(c.noteBefore)
       && Get(first.payload, "approval_use_count_before") == Some(c.approvalBefore)
       && Get(last.payload, "note_count_after") == Some(c.noteAfter)
       && Get(last.payload, "approval_use_count_after") == Some(c.approvalAfter)
       && c.observedAt == last.recordedAt
       && |c.statuses| == |c.hashes| == |observed|
       && (forall k | 0 <= k < |observed| ::
             && observed[k].kind == OBSERVED
             && Get(observed[k].payload, "status") == Some(c.statuses[k])
             && Get(observed[k].payload, "response_sha256") == Some(c.hashes[k]))
       && (forall v :: v in c.runIds <==> exists k | 0 <= k < |observed| :: Get(observed[k].payload, "run_id") == Some(v))
       && InFirstOrder(c.runIds, observed)
  }

  lemma CompiledReports(c: Case, p: seq<Record>)
    requires Lifecycle(p) && c == CaseOf(p) && Whole(c)
    ensures Reports(CompiledOf(c), p)
  {
    hide InFirstOrder, Dedup;
    var observed := p[1..|p| - 1];
    assert p[|p| - 1].kind == FINISHED && |p| >= 3;
    assert c == Case(Some(p[0]), observed, Some(p[|p| - 1]));
    forall k | 0 <= k < |observed|
      ensures observed[k].kind == OBSERVED && {"status", "response_sha256", "run_id"} <= observed[k].payload.Keys
    {
      assert observed[k] == p[k + 1];
      assert observed[k] in c.observations;
    }
    var ids := Values(observed, "run_id");
    DedupMeaning(ids);
    assert forall k | 0 <= k < |observed| :: Get(observed[k].payload, "run_id") == Some(ids[k]);
    DedupInFirstOrder(observed);
  }
}
