/** Compiling the journal into the strict negative evidence document (`compile_negative`,
    `finalize`), the document's own validator, and when the two together succeed. */
module NegativeEvidence {
  import opened Basics
  import opened JournalStore
  import opened JournalCases
  import opened Manifest
  import opened CaseRecorder
  import opened JournalRuns

  const NEGATIVE_SCHEMA := "kaliv-agent3-write-pilot-negative/v1"

  datatype CompiledCase = CompiledCase(
    name: Value, observedAt: string, marker: Value, statuses: seq<Value>, hashes: seq<Value>,
    noteBefore: Value, noteAfter: Value, approvalBefore: Value, approvalAfter: Value, runIds: seq<Value>)

  datatype Negative = Negative(schema: string, pilotId: string, generatedAt: string, cases: seq<CompiledCase>)

  datatype CompileError = NotFoldable(state: StateError) | Unfinished | MissingKey | InvalidEvidence(errors: seq<string>) | ReplayTarget

  // ----- one case -----

  /** The value under a key that is known to be there. */
  function At(p: Payload, key: string): Value {
    if key in p then p[key] else Other("missing")
  }

  function Values(observations: seq<Record>, key: string): seq<Value> {
    seq(|observations|, i requires 0 <= i < |observations| => At(observations[i].payload, key))
  }

  /** Every value once, in the order of first appearance. */
  function Dedup(vs: seq<Value>): seq<Value> {
    if vs == [] then []
    else
      var init, last := Dedup(vs[..|vs| - 1]), vs[|vs| - 1];
      if last in init then init else init + [last]
  }

  function FirstAt(vs: seq<Value>, v: Value): nat
    requires v in vs
    ensures FirstAt(vs, v) < |vs| && vs[FirstAt(vs, v)] == v
    ensures forall i | 0 <= i < FirstAt(vs, v) :: vs[i] != v
  {
    if vs[0] == v then 0 else 1 + FirstAt(vs[1..], v)
  }

  lemma {:induction false} DedupMeaning(vs: seq<Value>)
    ensures forall v :: v in Dedup(vs) <==> v in vs
    ensures forall i, j | 0 <= i < j < |Dedup(vs)| ::
              Dedup(vs)[i] != Dedup(vs)[j] && FirstAt(vs, Dedup(vs)[i]) < FirstAt(vs, Dedup(vs)[j])
  {
    if vs != [] {
      var rest, last := vs[..|vs| - 1], vs[|vs| - 1];
      DedupMeaning(rest);
      assert vs == rest + [last];
      forall v | v in rest ensures FirstAt(vs, v) == FirstAt(rest, v) {
        var i, j := FirstAt(vs, v), FirstAt(rest, v);
        assert vs[j] == v;
        assert i < |rest| ==> rest[i] == v;
      }
      if last !in rest {
        assert forall i | 0 <= i < |rest| :: vs[i] != last;
      }
    }
  }

  /** Begun, finished, and with every key the compiler reads. */
  predicate Whole(c: Case) {
    && c.begin.Some? && c.finish.Some?
    && {"name", "marker", "note_count_before", "approval_use_count_before"} <= c.begin.value.payload.Keys
    && {"note_count_after", "approval_use_count_after"} <= c.finish.value.payload.Keys
    && forall r | r in c.observations :: {"status", "response_sha256", "run_id"} <= r.payload.Keys
  }

  function Compiled(begin: Record, observations: seq<Record>, finish: Record): CompiledCase {
    CompiledCase(
      At(begin.payload, "name"), finish.recordedAt, At(begin.payload, "marker"),
      Values(observations, "status"), Values(observations, "response_sha256"),
      At(begin.payload, "note_count_before"), At(finish.payload, "note_count_after"),
      At(begin.payload, "approval_use_count_before"), At(finish.payload, "approval_use_count_after"),
      Dedup(Values(observations, "run_id")))
  }

  // ----- the order of cases -----

  /** The case ids in the order in which the cases were started. */
  function BeginOrder(body: seq<Record>): seq<string> {
    if body == [] then []
    else
      var last := body[|body| - 1];
      BeginOrder(body[..|body| - 1]) + if last.kind == STARTED && last.caseId.Some? then [last.caseId.value] else []
  }

  /** The sequence number a case was started with. */
  function BegunAt(cases: map<string, Case>, id: string): int {
    if id in cases && cases[id].begin.Some? then cases[id].begin.value.seqNo else 0
  }

  predicate Ascending(cases: map<string, Case>, order: seq<string>) {
    forall i, j | 0 <= i < j < |order| :: BegunAt(cases, order[i]) < BegunAt(cases, order[j])
  }

  predicate SeqIncreasing(rows: seq<Record>) {
    forall i, j | 0 <= i < j < |rows| :: rows[i].seqNo < rows[j].seqNo
  }

  lemma LifecyclesOfPrefix(body: seq<Record>, n: nat)
    requires n <= |body| && IdsOk(body) && LifecyclesOk(body)
    ensures IdsOk(body[..n]) && LifecyclesOk(body[..n])
  {
    var p := body[..n];
    forall id ensures Lifecycle(Project(p, id)) {
      ProjectPrefix(body, n, id);
      assert Lifecycle(Project(body, id));
    }
  }

  lemma BeginIsFromBody(body: seq<Record>, id: string)
    requires LifecyclesOk(body) && id in CaseIds(body)
    ensures CasesOf(body)[id].begin.Some? && CasesOf(body)[id].begin.value in body
    ensures CasesOf(body)[id].begin.value.kind == STARTED
  {
    ProjectMembers(body, id);
    assert Lifecycle(Project(body, id));
    assert Project(body, id)[0] in Project(body, id);
  }

  lemma BegunBefore(rest: seq<Record>, last: Record, id: string)
    requires LifecyclesOk(rest) && SeqIncreasing(rest + [last]) && id in CaseIds(rest)
    ensures BegunAt(CasesOf(rest), id) < last.seqNo
  {
    BeginIsFromBody(rest, id);
    var body := rest + [last];
    var i :| 0 <= i < |rest| && rest[i] == CasesOf(rest)[id].begin.value;
    assert body[i].seqNo < body[|rest|].seqNo;
  }

  /** When a new record arrives, earlier cases keep their start, and a start record
      starts a new case last of all. */
  lemma BegunAtStep(rest: seq<Record>, last: Record)
    requires IdsOk(rest + [last]) && LifecyclesOk(rest + [last]) && IdsOk(rest) && LifecyclesOk(rest)
    requires last.caseId.Some?
    ensures forall id | id in CaseIds(rest) :: BegunAt(CasesOf(rest + [last]), id) == BegunAt(CasesOf(rest), id)
    ensures last.kind == STARTED ==>
              last.caseId.value !in CaseIds(rest) && BegunAt(CasesOf(rest + [last]), last.caseId.value) == last.seqNo
    ensures last.kind != STARTED ==> last.caseId.value in CaseIds(rest)
    ensures CaseIds(rest + [last]) == CaseIds(rest) + {last.caseId.value}
  {
    assert (rest + [last])[|rest|] == last;
    BodyStep(rest, last);
    StepCases(rest, last);
    CaseIdsSnoc(rest, last);
    CaseByProjection(rest, last.caseId.value);
    if last.caseId.value in CaseIds(rest) { BeginIsFromBody(rest, last.caseId.value); }
  }

  /** The begin order lists every case once, by the sequence number of its start. */
  lemma {:induction false} BeginOrderIsAscending(body: seq<Record>)
    requires IdsOk(body) && LifecyclesOk(body) && SeqIncreasing(body)
    ensures forall id :: id in BeginOrder(body) <==> id in CaseIds(body)
    ensures Ascending(CasesOf(body), BeginOrder(body))
  {
    hide Project, Lifecycle, CaseOf, BegunAt;
    if body != [] {
      var rest, last := body[..|body| - 1], body[|body| - 1];
      assert body == rest + [last];
      LifecyclesOfPrefix(body, |rest|);
      BeginOrderIsAscending(rest);
      BegunAtStep(rest, last);
      forall id | id in CaseIds(rest) ensures BegunAt(CasesOf(rest), id) < last.seqNo {
        BegunBefore(rest, last, id);
      }
      var order, before := BeginOrder(body), BeginOrder(rest);
      forall i, j | 0 <= i < j < |order|
        ensures BegunAt(CasesOf(body), order[i]) < BegunAt(CasesOf(body), order[j])
      {
        assert order[i] == before[i] && before[i] in before;
        if j < |before| { assert before[j] in before; }
      }
    }
  }

  lemma {:induction false} AscendingIsUnique(cases: map<string, Case>, a: seq<string>, b: seq<string>)
    requires Ascending(cases, a) && Ascending(cases, b)
    requires forall id :: id in a <==> id in b
    ensures a == b
    decreases |a|
  {
    if a != [] && b != [] {
      assert a[0] in b && b[0] in a;
      var i :| 0 <= i < |b| && b[i] == a[0];
      var j :| 0 <= j < |a| && a[j] == b[0];
      assert i == 0 && j == 0;
      forall id ensures id in a[1..] <==> id in b[1..] {
        assert id in a[1..] ==> id in a && id != a[0];
        assert id in b[1..] ==> id in b && id != b[0];
        assert id in a && id != a[0] ==> id in a[1..];
        assert id in b && id != b[0] ==> id in b[1..];
      }
      AscendingIsUnique(cases, a[1..], b[1..]);
    } else if a != b {
      HeadIsMember(if a != [] then a else b);
      assert false;
    }
  }

  lemma HeadIsMember(s: seq<string>)
    requires s != []
    ensures s[0] in s
  {
  }

  ghost predicate IsLeast(cases: map<string, Case>, ids: set<string>, id: string) {
    id in ids && forall o | o in ids :: BegunAt(cases, id) <= BegunAt(cases, o)
  }

  lemma {:induction false} LeastExists(cases: map<string, Case>, ids: set<string>)
    requires ids != {}
    ensures exists id | id in ids :: IsLeast(cases, ids, id)
    decreases |ids|
  {
    var some :| some in ids;
    var rest := ids - {some};
    if rest == {} {
      assert ids == {some};
      assert IsLeast(cases, ids, some);
    } else {
      LeastExists(cases, rest);
      var id :| id in rest && IsLeast(cases, rest, id);
      var least := if BegunAt(cases, some) <= BegunAt(cases, id) then some else id;
      assert forall o | o in ids :: o in rest || o == some;
      assert IsLeast(cases, ids, least);
    }
  }

  method PickLeast(cases: map<string, Case>, ids: set<string>) returns (id: string)
    requires ids != {}
    ensures IsLeast(cases, ids, id)
  {
    LeastExists(cases, ids);
    id :| id in ids && forall o | o in ids :: BegunAt(cases, id) <= BegunAt(cases, o);
  }

  /** `sorted(cases.items(), key=begin seq)`. */
  method SortByBegin(cases: map<string, Case>) returns (order: seq<string>)
    requires forall a, b | a in cases && b in cases && a != b :: BegunAt(cases, a) != BegunAt(cases, b)
    ensures Ascending(cases, order)
    ensures forall id :: id in order <==> id in cases
  {
    var remaining := cases.Keys;
    order := [];
    while remaining != {}
      invariant remaining <= cases.Keys
      invariant forall id :: id in order <==> id in cases.Keys - remaining
      invariant Ascending(cases, order)
      invariant forall i, o | 0 <= i < |order| && o in remaining :: BegunAt(cases, order[i]) < BegunAt(cases, o)
      decreases |remaining|
    {
      var id := PickLeast(cases, remaining);
      order := order + [id];
      remaining := remaining - {id};
    }
  }

  // ----- the document's validator -----

  const TEN_TO_63: int := 1000000000000000000000000000000000000000000000000000000000000000

  /** 64 hexadecimal digits once rendered as text; an integer of 64 digits qualifies. */
  predicate IsShaValue(v: Value) {
    match v
    case Str(s) => IsHex(s, 64)
    case Num(n) => TEN_TO_63 <= n < 10 * TEN_TO_63
    case Other(_) => false
  }

  predicate IsCountValue(v: Value) {
    v.Num? && v.number >= 0
  }

  predicate FieldsOk(k: Clock, c: CompiledCase) {
    && k.validTime(c.observedAt)
    && c.marker.Str? && !Blank(c.marker.text)
    && c.statuses != [] && (forall s | s in c.statuses :: s.Num?)
    && |c.hashes| == |c.statuses| && (forall h | h in c.hashes :: IsShaValue(h))
    && IsCountValue(c.noteBefore) && IsCountValue(c.noteAfter)
    && IsCountValue(c.approvalBefore) && IsCountValue(c.approvalAfter)
    && c.runIds != [] && (forall id | id in c.runIds :: id.Str? && IsOpaqueId(id.text))
  }

  predicate Delta(before: Value, after: Value, d: int) {
    before.Num? && after.Num? && after.number - before.number == d
  }

  predicate StatusRule(name: string, statuses: seq<Value>) {
    if name == "deny" then statuses == [Num(200)]
    else if name in {"timeout", "changed_args", "stale_revision", "replay"} then statuses == [Num(409)]
    else if name == "concurrent_approval" then multiset(statuses) == multiset{Num(200), Num(409)}
    else |statuses| >= 3 && forall s | s in statuses :: s in {Num(200), Num(202), Num(409)}
  }

  predicate DeltaRule(name: string, c: CompiledCase) {
    if name == "concurrent_approval" then
      Delta(c.noteBefore, c.noteAfter, 1) && Delta(c.approvalBefore, c.approvalAfter, 1)
    else if name == "stop_retry_replan" then
      c.noteAfter == c.noteBefore && c.approvalAfter == c.approvalBefore
    else
      Delta(c.noteBefore, c.noteAfter, 0) && Delta(c.approvalBefore, c.approvalAfter, 0)
  }

  predicate TargetRule(m: Manifest, name: string, c: CompiledCase) {
    name == "stop_retry_replan" ==> c.marker.Str? && c.marker.text in Markers(m)
  }

  /** The rules of the validator for one of the seven names. */
  predicate RuleOk(m: Manifest, name: string, c: CompiledCase) {
    StatusRule(name, c.statuses) && DeltaRule(name, c) && TargetRule(m, name, c)
  }

  predicate Named(c: CompiledCase, name: string) {
    c.name == Str(name)
  }

  predicate CaseOk(k: Clock, c: CompiledCase) {
    c.name.Str? && c.name.text in NEGATIVE_CASES && FieldsOk(k, c)
  }

  predicate CasesOk(k: Clock, cases: seq<CompiledCase>) {
    forall i | 0 <= i < |cases| :: CaseOk(k, cases[i])
  }

  predicate NamesDistinct(cases: seq<CompiledCase>) {
    forall i, j | 0 <= i < j < |cases| :: cases[i].name != cases[j].name
  }

  predicate AllPresent(cases: seq<CompiledCase>) {
    forall name | name in NEGATIVE_CASES :: exists i | 0 <= i < |cases| :: Named(cases[i], name)
  }

  predicate RulesOk(m: Manifest, cases: seq<CompiledCase>) {
    forall i | 0 <= i < |cases| :: cases[i].name.Str? && RuleOk(m, cases[i].name.text, cases[i])
  }

  predicate DocumentOk(k: Clock, doc: Negative, m: Manifest) {
    doc.schema == NEGATIVE_SCHEMA && doc.pilotId == m.header.pilotId && k.validTime(doc.generatedAt)
  }

  /** What an accepted document looks like. */
  predicate NegativeOk(k: Clock, doc: Negative, m: Manifest) {
    && DocumentOk(k, doc, m) && CasesOk(k, doc.cases) && NamesDistinct(doc.cases)
    && AllPresent(doc.cases) && RulesOk(m, doc.cases)
  }

  /** What an accepted document cannot lack: each of the seven cases is there exactly once, with
      counts that are not negative, one well-formed hash for each numeric status, well-formed
      run ids, and the statuses and changes of its kind. */
  lemma AcceptedDocument(k: Clock, doc: Negative, m: Manifest, name: string)
    requires NegativeOk(k, doc, m)
    requires name in {"deny", "timeout", "changed_args", "stale_revision", "replay", "concurrent_approval", "stop_retry_replan"}
    ensures doc.schema == "kaliv-agent3-write-pilot-negative/v1" && doc.pilotId == m.header.pilotId
    ensures k.validTime(doc.generatedAt)
    ensures exists i | 0 <= i < |doc.cases| :: IsAcceptedCase(k, m, name, doc.cases[i])
              && forall j | 0 <= j < |doc.cases| && doc.cases[j].name == Str(name) :: j == i
  {
    hide IsHex, IsOpaqueId, Blank;
    var i :| 0 <= i < |doc.cases| && Named(doc.cases[i], name);
    assert CaseOk(k, doc.cases[i]) && RuleOk(m, name, doc.cases[i]);
    AcceptedCase(k, m, name, doc.cases[i]);
    forall j | 0 <= j < |doc.cases| && doc.cases[j].name == Str(name) ensures j == i {
      assert doc.cases[j].name == doc.cases[i].name;
    }
  }

  predicate IsAcceptedCase(k: Clock, m: Manifest, name: string, c: CompiledCase) {
    && c.name == Str(name) && k.validTime(c.observedAt) && c.marker.Str? && !Blank(c.marker.text)
    && c.noteBefore.Num? && c.noteAfter.Num? && c.approvalBefore.Num? && c.approvalAfter.Num?
    && c.noteBefore.number >= 0 && c.noteAfter.number >= 0 && c.approvalBefore.number >= 0 && c.approvalAfter.number >= 0
    && |c.hashes| == |c.statuses| && (forall h | h in c.hashes && h.Str? :: IsHex(h.text, 64))
    && c.runIds != [] && (forall id | id in c.runIds :: id.Str? && IsOpaqueId(id.text))
    && (var changes := (c.noteAfter.number - c.noteBefore.number, c.approvalAfter.number - c.approvalBefore.number);
        if name == "concurrent_approval"
        then changes == (1, 1) && (c.statuses == [Num(200), Num(409)] || c.statuses == [Num(409), Num(200)])
        else changes == (0, 0)
             && (name == "deny" ==> c.statuses == [Num(200)])
             && (name in {"timeout", "changed_args", "stale_revision", "replay"} ==> c.statuses == [Num(409)])
             && (name == "stop_retry_replan" ==>
                   |c.statuses| >= 3 && (forall s | s in c.statuses :: s in {Num(200), Num(202), Num(409)})
                   && exists run | run in m.runs :: c.marker.text == run.marker))
  }

  lemma AcceptedCase(k: Clock, m: Manifest, name: string, c: CompiledCase)
    requires name in {"deny", "timeout", "changed_args", "stale_revision", "replay", "concurrent_approval", "stop_retry_replan"}
    requires c.name == Str(name) && CaseOk(k, c) && RuleOk(m, name, c)
    ensures IsAcceptedCase(k, m, name, c)
  {
    hide IsHex, IsOpaqueId, Blank;
    if name == "concurrent_approval" { TwoStatuses(c.statuses); }
  }

  lemma TwoStatuses(vs: seq<Value>)
    requires multiset(vs) == multiset{Num(200), Num(409)}
    ensures vs == [Num(200), Num(409)] || vs == [Num(409), Num(200)]
  {
    assert |multiset(vs)| == 2;
    assert vs == [vs[0], vs[1]];
    assert Num(200) in multiset(vs) && Num(409) in multiset(vs);
    assert vs[0] in multiset(vs) && vs[1] in multiset(vs);
  }

  /** The index of cases by name, the last one of a name winning. */
  ghost predicate Indexes(byName: map<string, CompiledCase>, cases: seq<CompiledCase>) {
    && (forall name | name in byName :: byName[name] in cases && Named(byName[name], name))
    && forall c | c in cases :: c.name.Str? && c.name.text in byName
  }

  /** `validate_negative_evidence`: the collected errors. */
  method ValidateNegative(k: Clock, doc: Negative, m: Manifest) returns (errors: seq<string>)
    ensures errors == [] <==> NegativeOk(k, doc, m)
  {
    errors := Unless(DocumentOk(k, doc, m), "schema, pilot_id or generated_at");
    var caseErrors, byName := IndexCases(k, doc.cases);
    if caseErrors == [] { IndexDecides(k, m, doc.cases, byName); }
    var missing := MissingErrors(byName);
    var ruleErrors := RuleErrors(m, byName);
    errors := errors + caseErrors + missing + ruleErrors;
  }

  method CaseErrors(k: Clock, c: CompiledCase) returns (errors: seq<string>)
    ensures errors == [] <==> CaseOk(k, c)
  {
    if !c.name.Str? || c.name.text !in NEGATIVE_CASES { return ["unknown name"]; }
    errors := Unless(k.validTime(c.observedAt), "observed_at");
    errors := errors + Unless(c.marker.Str? && !Blank(c.marker.text), "marker");
    errors := errors + Unless(c.statuses != [] && (forall s | s in c.statuses :: s.Num?), "request_statuses");
    errors := errors + Unless(|c.hashes| == |c.statuses| && (forall h | h in c.hashes :: IsShaValue(h)), "response hashes");
    errors := errors + Unless(IsCountValue(c.noteBefore), "note_count_before");
    errors := errors + Unless(IsCountValue(c.noteAfter), "note_count_after");
    errors := errors + Unless(IsCountValue(c.approvalBefore), "approval_use_count_before");
    errors := errors + Unless(IsCountValue(c.approvalAfter), "approval_use_count_after");
    errors := errors + Unless(c.runIds != [] && (forall id | id in c.runIds :: id.Str? && IsOpaqueId(id.text)), "run_ids");
  }

  method IndexCases(k: Clock, cases: seq<CompiledCase>) returns (errors: seq<string>, byName: map<string, CompiledCase>)
    ensures errors == [] <==> CasesOk(k, cases) && NamesDistinct(cases)
    ensures errors == [] ==> Indexes(byName, cases)
  {
    errors, byName := [], map[];
    for i := 0 to |cases|
      invariant errors == [] <==> CasesOk(k, cases[..i]) && NamesDistinct(cases[..i])
      invariant errors == [] ==> Indexes(byName, cases[..i])
    {
      var c := cases[i];
      CasesOkSnoc(k, cases[..i], c);
      NamesDistinctSnoc(cases[..i], c);
      if c.name.Str? && errors == [] { IndexSnoc(cases[..i], c, byName); }
      assert cases[..i + 1] == cases[..i] + [c];
      var found := CaseErrors(k, c);
      if c.name.Str? {
        errors := errors + Unless(c.name.text !in byName, "duplicate");
        byName := byName[c.name.text := c];
      }
      errors := errors + found;
    }
    assert cases[..|cases|] == cases;
  }

  lemma CasesOkSnoc(k: Clock, init: seq<CompiledCase>, c: CompiledCase)
    ensures CasesOk(k, init + [c]) <==> CasesOk(k, init) && CaseOk(k, c)
  {
    assert (init + [c])[|init|] == c;
    if CasesOk(k, init + [c]) {
      forall i | 0 <= i < |init| ensures CaseOk(k, init[i]) { assert CaseOk(k, (init + [c])[i]); }
    }
  }

  lemma IndexSnoc(init: seq<CompiledCase>, c: CompiledCase, byName: map<string, CompiledCase>)
    requires c.name.Str? && Indexes(byName, init)
    ensures c.name.text in byName <==> exists i | 0 <= i < |init| :: init[i].name == c.name
    ensures Indexes(byName[c.name.text := c], init + [c])
  {
    if c.name.text in byName {
      var i :| 0 <= i < |init| && init[i] == byName[c.name.text];
      assert Named(init[i], c.name.text);
    } else {
      forall i | 0 <= i < |init| ensures init[i].name != c.name { assert init[i] in init; }
    }
    assert forall x :: x in init + [c] <==> x in init || x == c;
    assert Named(c, c.name.text);
  }

  method MissingErrors(byName: map<string, CompiledCase>) returns (errors: seq<string>)
    ensures errors == [] <==> forall name | name in NEGATIVE_CASES :: name in byName
  {
    var missing := NEGATIVE_CASES - byName.Keys;
    errors := Unless(missing == {}, "missing cases");
    if missing == {} {
      forall name | name in NEGATIVE_CASES ensures name in byName {
        assert name in byName || name in missing;
      }
    }
  }

  lemma NamesDistinctSnoc(init: seq<CompiledCase>, c: CompiledCase)
    ensures NamesDistinct(init + [c]) <==> NamesDistinct(init) && forall i | 0 <= i < |init| :: init[i].name != c.name
  {
    var s := init + [c];
    assert s[|init|] == c;
    if NamesDistinct(s) {
      forall i, j | 0 <= i < j < |init| ensures init[i].name != init[j].name { assert s[i].name != s[j].name; }
      forall i | 0 <= i < |init| ensures init[i].name != c.name { assert s[i].name != s[|init|].name; }
    }
  }

  method RuleErrors(m: Manifest, byName: map<string, CompiledCase>) returns (errors: seq<string>)
    ensures errors == [] <==> forall name | name in byName && name in NEGATIVE_CASES :: RuleOk(m, name, byName[name])
  {
    errors := [];
    var names := NEGATIVE_CASES;
    while names != {}
      invariant names <= NEGATIVE_CASES
      invariant errors == [] <==> forall name | name in byName && name in NEGATIVE_CASES - names :: RuleOk(m, name, byName[name])
    {
      var name :| name in names;
      names := names - {name};
      if name in byName { errors := errors + Unless(RuleOk(m, name, byName[name]), name); }
    }
  }

  lemma IndexDecides(k: Clock, m: Manifest, cases: seq<CompiledCase>, byName: map<string, CompiledCase>)
    requires CasesOk(k, cases) && NamesDistinct(cases) && Indexes(byName, cases)
    ensures (forall name | name in NEGATIVE_CASES :: name in byName) <==> AllPresent(cases)
    ensures (forall name | name in byName && name in NEGATIVE_CASES :: RuleOk(m, name, byName[name])) <==> RulesOk(m, cases)
  {
    forall name ensures name in byName <==> exists i | 0 <= i < |cases| :: Named(cases[i], name) {
      if name in byName {
        var i :| 0 <= i < |cases| && cases[i] == byName[name];
        assert Named(cases[i], name);
      }
    }
    forall i | 0 <= i < |cases| ensures cases[i].name.text in byName && byName[cases[i].name.text] == cases[i] {
      var name := cases[i].name.text;
      assert cases[i] in cases;
      var j :| 0 <= j < |cases| && cases[j] == byName[name];
      assert Named(byName[name], name);
      assert i == j;
    }
    forall name | name in byName ensures exists i | 0 <= i < |cases| :: cases[i] == byName[name] && cases[i].name == Str(name) {
      var i :| 0 <= i < |cases| && cases[i] == byName[name];
      assert Named(byName[name], name);
    }
    assert forall i | 0 <= i < |cases| :: CaseOk(k, cases[i]);
  }
}
