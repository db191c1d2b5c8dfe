/** The contracts the operator wizard checks before it finishes a case, and the proof that
    meeting them is exactly what the strict document validator demands later. */
module OperatorContracts {
  import opened Basics
  import opened JournalStore
  import opened JournalCases
  import opened Manifest
  import opened CaseRecorder
  import opened JournalRuns
  import opened NegativeEvidence
  import opened Finalization

  /** `validate_statuses`. */
  predicate StatusesOk(name: string, statuses: seq<int>) {
    && (name == "deny" ==> statuses == [200])
    && (name in {"timeout", "changed_args", "stale_revision", "replay"} ==> statuses == [409])
    && (name == "concurrent_approval" ==> statuses == [200, 409] || statuses == [409, 200])
    && (name == "stop_retry_replan" ==> |statuses| >= 3 && forall s | s in statuses :: s in {200, 202, 409})
  }

  /** `validate_deltas`. */
  predicate DeltasOk(name: string, noteBefore: int, noteAfter: int, approvalBefore: int, approvalAfter: int) {
    var expected := if name == "concurrent_approval" then (1, 1) else (0, 0);
    (noteAfter - noteBefore, approvalAfter - approvalBefore) == expected
  }

  function Number(v: Value): int {
    if v.Num? then v.number else 0
  }

  function Text(v: Value): string {
    if v.Str? then v.text else ""
  }

  function Statuses(observations: seq<Record>): seq<int> {
    seq(|observations|, i requires 0 <= i < |observations| => Number(At(observations[i].payload, "status")))
  }

  /** A finished case that passed both checks of the wizard. */
  predicate ContractMet(c: Case) {
    && c.begin.Some? && c.finish.Some?
    && var b, e := c.begin.value.payload, c.finish.value.payload;
       && StatusesOk(Text(At(b, "name")), Statuses(c.observations))
       && DeltasOk(Text(At(b, "name")),
                   Number(At(b, "note_count_before")), Number(At(e, "note_count_after")),
                   Number(At(b, "approval_use_count_before")), Number(At(e, "approval_use_count_after")))
  }

  predicate AllStarted(cases: map<string, Case>) {
    forall name | name in NEGATIVE_CASES :: Some(Str(name)) in StartedNames(cases)
  }

  predicate AllMet(cases: map<string, Case>) {
    forall id | id in cases :: ContractMet(cases[id])
  }

  /** All seven cases were started, every started case is finished, and each met its
      contract. */
  predicate Complete(cases: map<string, Case>) {
    AllStarted(cases) && AllMet(cases)
  }

  // ----- recorded cases -----

  /** A finished case as the recorder writes it. */
  predicate RecordedCase(k: Clock, m: Manifest, c: Case) {
    && c.begin.Some? && StartOk(m, c.begin.value.payload)
    && c.observations != [] && (forall r | r in c.observations :: ObservationOk(r.payload))
    && c.finish.Some? && FinishOk(c.finish.value.payload) && k.validTime(c.finish.value.recordedAt)
  }

  lemma BodyTimesAreValid(c: Codec, table: seq<Row>, r: Record)
    requires Intact(c, table) && r in Body(c, table)
    ensures c.clock.validTime(r.recordedAt)
  {
    var i :| 0 <= i < |Body(c, table)| && Body(c, table)[i] == r;
    assert LinkOk(c, table, i + 1);
    assert RecordsOf(c, table)[i + 1] == r;
  }

  lemma ProjectionIsRecorded(c: Codec, f: Files, m: Manifest, raw: string, table: seq<Row>, id: string)
    requires Recorded(c, f, m, raw, table)
    ensures forall r | r in Project(Body(c, table), id) :: RecordOk(m, r) && c.clock.validTime(r.recordedAt)
  {
    ProjectMembers(Body(c, table), id);
    forall r | r in Project(Body(c, table), id) ensures c.clock.validTime(r.recordedAt) {
      BodyTimesAreValid(c, table, r);
    }
  }

  lemma RecordedLifecycle(k: Clock, m: Manifest, p: seq<Record>)
    requires Lifecycle(p) && p != []
    requires forall r | r in p :: RecordOk(m, r) && k.validTime(r.recordedAt)
    ensures CaseOf(p).begin.Some? && StartOk(m, CaseOf(p).begin.value.payload)
    ensures CaseOf(p).finish.Some? ==> RecordedCase(k, m, CaseOf(p))
  {
    assert p[0] in p && p[0].kind == STARTED;
    if CaseOf(p).finish.Some? {
      var e, observations := p[|p| - 1], CaseOf(p).observations;
      assert e in p && |p| >= 3;
      forall r | r in observations ensures ObservationOk(r.payload) {
        var j :| 0 <= j < |observations| && observations[j] == r;
        assert r == p[j + 1] && p[j + 1].kind == OBSERVED;
        assert p[j + 1] in p;
      }
    }
  }

  lemma CasesAreRecorded(c: Codec, f: Files, m: Manifest, raw: string, table: seq<Row>, id: string)
    requires Recorded(c, f, m, raw, table) && id in CasesOf(Body(c, table))
    ensures var cs := CasesOf(Body(c, table))[id];
            && cs.begin.Some? && StartOk(m, cs.begin.value.payload)
            && (cs.finish.Some? ==> RecordedCase(c.clock, m, cs))
  {
    ProjectionIsRecorded(c, f, m, raw, table, id);
    ProjectMembers(Body(c, table), id);
    assert Lifecycle(Project(Body(c, table), id));
    RecordedLifecycle(c.clock, m, Project(Body(c, table), id));
  }

  lemma RecordedCompiles(k: Clock, m: Manifest, c: Case)
    requires RecordedCase(k, m, c)
    ensures Whole(c) && CaseOk(k, CompiledOf(c))
    ensures CompiledOf(c).name.text in POSITIVE_CASES ==> CompiledOf(c).marker.Str? && CompiledOf(c).marker.text in Markers(m)
  {
    var d := CompiledOf(c);
    var ids, statuses := Values(c.observations, "run_id"), Values(c.observations, "status");
    var hashes := Values(c.observations, "response_sha256");
    DedupMeaning(ids);
    forall i | 0 <= i < |c.observations|
      ensures statuses[i].Num? && IsShaValue(hashes[i]) && ids[i].Str? && IsOpaqueId(ids[i].text)
    {
      assert c.observations[i] in c.observations;
    }
    assert ids[0] in Dedup(ids);
  }

  /** The validator's rule for a case is the wizard's contract for it. */
  lemma RuleIsContract(k: Clock, m: Manifest, c: Case)
    requires RecordedCase(k, m, c)
    ensures Whole(c) && CompiledOf(c).name.Str?
    ensures RuleOk(m, CompiledOf(c).name.text, CompiledOf(c)) <==> ContractMet(c)
  {
    RecordedCompiles(k, m, c);
    var d, ints := CompiledOf(c), Statuses(c.observations);
    forall i | 0 <= i < |ints| ensures d.statuses[i] == Num(ints[i]) {
      assert c.observations[i] in c.observations;
    }
    StatusRuleIsContract(d.name.text, d.statuses, ints);
    DeltaRuleIsContract(d.name.text, d);
    assert "stop_retry_replan" in POSITIVE_CASES;
  }

  lemma DeltaRuleIsContract(name: string, d: CompiledCase)
    requires d.noteBefore.Num? && d.noteAfter.Num? && d.approvalBefore.Num? && d.approvalAfter.Num?
    ensures DeltaRule(name, d) <==>
            DeltasOk(name, d.noteBefore.number, d.noteAfter.number, d.approvalBefore.number, d.approvalAfter.number)
  {
  }

  lemma StatusRuleIsContract(name: string, vs: seq<Value>, ints: seq<int>)
    requires name in NEGATIVE_CASES
    requires |vs| == |ints| && forall i | 0 <= i < |vs| :: vs[i] == Num(ints[i])
    ensures StatusRule(name, vs) <==> StatusesOk(name, ints)
  {
    if name == "concurrent_approval" {
      PairAgrees(vs, ints);
    } else if name == "stop_retry_replan" {
      MembersAgree(vs, ints);
    }
  }

  lemma PairAgrees(vs: seq<Value>, ints: seq<int>)
    requires |vs| == |ints| && forall i | 0 <= i < |vs| :: vs[i] == Num(ints[i])
    ensures multiset(vs) == multiset{Num(200), Num(409)} <==> ints == [200, 409] || ints == [409, 200]
  {
    if multiset(vs) == multiset{Num(200), Num(409)} {
      assert |multiset(vs)| == 2;
      assert vs == [vs[0], vs[1]];
      assert Num(200) in multiset(vs) && Num(409) in multiset(vs);
      assert vs[0] in multiset(vs) && vs[1] in multiset(vs);
    }
    if ints == [200, 409] { assert vs == [Num(200), Num(409)]; }
    if ints == [409, 200] { assert vs == [Num(409), Num(200)]; }
  }

  lemma MembersAgree(vs: seq<Value>, ints: seq<int>)
    requires |vs| == |ints| && forall i | 0 <= i < |vs| :: vs[i] == Num(ints[i])
    ensures (forall v | v in vs :: v in {Num(200), Num(202), Num(409)}) <==> (forall n | n in ints :: n in {200, 202, 409})
  {
    forall n | n in ints ensures Num(n) in vs {
      var i :| 0 <= i < |ints| && ints[i] == n;
      assert vs[i] == Num(n);
    }
    forall v | v in vs ensures v.Num? && v.number in ints {
      var i :| 0 <= i < |vs| && vs[i] == v;
    }
  }

  // ----- the whole document -----

  /** All cases of a finished journal, as the recorder writes them. */
  ghost predicate AllRecorded(k: Clock, m: Manifest, cases: map<string, Case>) {
    forall id | id in cases :: RecordedCase(k, m, cases[id])
  }

  predicate Covers(cases: map<string, Case>, order: seq<string>) {
    && (forall i | 0 <= i < |order| :: order[i] in cases)
    && forall id | id in cases :: id in order
  }

  lemma CompiledAt(k: Clock, m: Manifest, cases: map<string, Case>, order: seq<string>, i: nat)
    requires AllRecorded(k, m, cases) && Covers(cases, order) && i < |order|
    ensures var d := CompiledCases(cases, order)[i];
            && Whole(cases[order[i]]) && d == CompiledOf(cases[order[i]]) && CaseOk(k, d)
            && Get(cases[order[i]].begin.value.payload, "name") == Some(d.name)
  {
    RecordedCompiles(k, m, cases[order[i]]);
  }

  lemma ListIsWellFormed(k: Clock, m: Manifest, cases: map<string, Case>, order: seq<string>)
    requires AllRecorded(k, m, cases) && Covers(cases, order)
    requires Ascending(cases, order) && UniqueNames(cases)
    ensures CasesOk(k, CompiledCases(cases, order)) && NamesDistinct(CompiledCases(cases, order))
  {
    var list := CompiledCases(cases, order);
    forall i | 0 <= i < |order| ensures CaseOk(k, list[i]) {
      CompiledAt(k, m, cases, order, i);
    }
    forall i, j | 0 <= i < j < |list| ensures list[i].name != list[j].name {
      CompiledAt(k, m, cases, order, i);
      CompiledAt(k, m, cases, order, j);
      assert BegunAt(cases, order[i]) < BegunAt(cases, order[j]);
    }
  }

  lemma RulesAreContracts(k: Clock, m: Manifest, cases: map<string, Case>, order: seq<string>)
    requires AllRecorded(k, m, cases) && Covers(cases, order)
    ensures RulesOk(m, CompiledCases(cases, order)) <==> AllMet(cases)
  {
    var list := CompiledCases(cases, order);
    forall i | 0 <= i < |order|
      ensures list[i].name.Str?
      ensures RuleOk(m, list[i].name.text, list[i]) <==> ContractMet(cases[order[i]])
    {
      CompiledAt(k, m, cases, order, i);
      RuleIsContract(k, m, cases[order[i]]);
    }
    if RulesOk(m, list) {
      forall id | id in cases ensures ContractMet(cases[id]) {
        var i :| 0 <= i < |order| && order[i] == id;
        assert RuleOk(m, list[i].name.text, list[i]);
      }
    }
  }

  lemma PresenceIsStarted(k: Clock, m: Manifest, cases: map<string, Case>, order: seq<string>)
    requires AllRecorded(k, m, cases) && Covers(cases, order)
    ensures AllPresent(CompiledCases(cases, order)) <==> AllStarted(cases)
  {
    var list := CompiledCases(cases, order);
    forall name ensures Some(Str(name)) in StartedNames(cases) <==> exists i | 0 <= i < |list| :: Named(list[i], name) {
      if Some(Str(name)) in StartedNames(cases) {
        var id :| id in cases && cases[id].begin.Some? && Get(cases[id].begin.value.payload, "name") == Some(Str(name));
        var i :| 0 <= i < |order| && order[i] == id;
        CompiledAt(k, m, cases, order, i);
        assert Named(list[i], name);
      } else if exists i | 0 <= i < |list| :: Named(list[i], name) {
        var i :| 0 <= i < |list| && Named(list[i], name);
        CompiledAt(k, m, cases, order, i);
      }
    }
  }

  lemma ReplayIsPositive(k: Clock, m: Manifest, cases: map<string, Case>, order: seq<string>)
    requires AllRecorded(k, m, cases) && Covers(cases, order)
    requires AllPresent(CompiledCases(cases, order)) && NamesDistinct(CompiledCases(cases, order))
    ensures ReplayOk(m, CompiledCases(cases, order))
  {
    var list := CompiledCases(cases, order);
    assert "replay" in NEGATIVE_CASES && "replay" in POSITIVE_CASES;
    var i :| 0 <= i < |list| && Named(list[i], "replay");
    CompiledAt(k, m, cases, order, i);
    RecordedCompiles(k, m, cases[order[i]]);
    forall j | 0 <= j < i ensures !Named(list[j], "replay") {
      assert list[j].name != list[i].name;
    }
  }

  lemma ListOkExactly(k: Clock, m: Manifest, cases: map<string, Case>, order: seq<string>)
    requires AllRecorded(k, m, cases) && Covers(cases, order)
    requires Ascending(cases, order) && UniqueNames(cases)
    ensures var list := CompiledCases(cases, order);
            CasesOk(k, list) && NamesDistinct(list) && AllPresent(list) && RulesOk(m, list) && ReplayOk(m, list)
            <==> Complete(cases)
  {
    ListIsWellFormed(k, m, cases, order);
    RulesAreContracts(k, m, cases, order);
    PresenceIsStarted(k, m, cases, order);
    if AllPresent(CompiledCases(cases, order)) { ReplayIsPositive(k, m, cases, order); }
  }

  /** For cases that are all recorded, the document passes every check of the validator
      exactly when the cases are complete. */
  lemma DocumentOkExactly(k: Clock, m: Manifest, rows: seq<Record>)
    requires rows != [] && Compilable(rows) && SeqIncreasing(rows)
    requires k.validTime(rows[|rows| - 1].recordedAt)
    requires AllRecorded(k, m, CasesOf(rows[1..])) && UniqueNames(CasesOf(rows[1..]))
    ensures CompileOk(k, rows, m) <==> Complete(CasesOf(rows[1..]))
  {
    var cases, order, doc := CasesOf(rows[1..]), BeginOrder(rows[1..]), Document(rows, m);
    OrderOfCompilable(rows);
    OrderCovers(cases, order);
    ListOkExactly(k, m, cases, order);
    assert doc.cases == CompiledCases(cases, order) && DocumentOk(k, doc, m);
  }

  lemma OrderCovers(cases: map<string, Case>, order: seq<string>)
    requires forall id :: id in order <==> id in cases
    ensures Covers(cases, order)
  {
    forall i | 0 <= i < |order| ensures order[i] in cases { assert order[i] in order; }
  }

  /** For every journal the recorder can produce, finalizing succeeds if and only if all
      seven cases are there, all are finished, and each passed the wizard's checks. */
  lemma FinalizeExactly(c: Codec, f: Files, m: Manifest, raw: string, table: seq<Row>)
    requires f.load(raw) == Some(m) && ManifestOk(c.clock, m, false)
    requires Recorded(c, f, m, raw, table)
    ensures FinalizeOk(c, f, table, raw) <==> Complete(CasesOf(Body(c, table)))
  {
    hide CasesOf, RecordedCase, Whole, NegativeOk, ReplayOk, Document, RecordOk, LinkOk, ManifestOk, StateOk;
    var rows, cases := RecordsOf(c, table), CasesOf(Body(c, table));
    assert Complete(cases) ==> AllFinished(cases);
    if AllFinished(cases) {
      FinishedIsRecorded(c, f, m, raw, table);
      TipIsTimed(c, f, m, raw, table);
      DocumentOkExactly(c.clock, m, rows);
    }
  }

  lemma TipIsTimed(c: Codec, f: Files, m: Manifest, raw: string, table: seq<Row>)
    requires Recorded(c, f, m, raw, table)
    ensures var rows := RecordsOf(c, table);
            rows != [] && SeqIncreasing(rows) && c.clock.validTime(rows[|rows| - 1].recordedAt)
  {
    IntactIsIncreasing(c, table);
    assert LinkOk(c, table, |table| - 1);
  }

  lemma FinishedIsRecorded(c: Codec, f: Files, m: Manifest, raw: string, table: seq<Row>)
    requires Recorded(c, f, m, raw, table) && AllFinished(CasesOf(Body(c, table)))
    ensures AllRecorded(c.clock, m, CasesOf(Body(c, table))) && Compilable(RecordsOf(c, table))
  {
    var cases := CasesOf(Body(c, table));
    forall id | id in cases ensures RecordedCase(c.clock, m, cases[id]) && Whole(cases[id]) {
      CasesAreRecorded(c, f, m, raw, table, id);
      RecordedCompiles(c.clock, m, cases[id]);
    }
  }
}
