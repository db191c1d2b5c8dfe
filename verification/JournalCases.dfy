/** Folding one log into interleaved cases (`_state`) and proving that the fold is, case
    by case, the life cycle started, observed+, finished. */
module JournalCases {
  import opened Basics
  import opened JournalStore

  const STARTED := "case_started"
  const OBSERVED := "request_observed"
  const FINISHED := "case_finished"

  datatype Case = Case(begin: Option<Record>, observations: seq<Record>, finish: Option<Record>)

  const EMPTY_CASE := Case(None, [], None)

  datatype StateError = NoInitialization | SchemaMismatch | InvalidCaseId | OutOfOrder | UnknownKind

  function Get(p: Payload, key: string): Option<Value> {
    if key in p then Some(p[key]) else None
  }

  // ----- what a log means, case by case -----

  /** The records of one case, in log order. */
  function Project(body: seq<Record>, id: string): seq<Record> {
    if body == [] then []
    else
      var last := body[|body| - 1];
      Project(body[..|body| - 1], id) + if last.caseId == Some(id) then [last] else []
  }

  /** A prefix of started, observed+, finished. */
  predicate Lifecycle(p: seq<Record>) {
    forall i | 0 <= i < |p| ::
      if i == 0 then p[i].kind == STARTED
      else p[i].kind == OBSERVED || (p[i].kind == FINISHED && i >= 2 && i == |p| - 1)
  }

  /** The case a life cycle amounts to. */
  function CaseOf(p: seq<Record>): Case {
    if p == [] then EMPTY_CASE
    else if |p| >= 2 && p[|p| - 1].kind == FINISHED then Case(Some(p[0]), p[1..|p| - 1], Some(p[|p| - 1]))
    else Case(Some(p[0]), p[1..], None)
  }

  function CaseIds(body: seq<Record>): set<string> {
    set r | r in body && r.caseId.Some? :: r.caseId.value
  }

  predicate InitOk(init: Record) {
    && init.kind == "journal_initialized" && init.caseId == None
    && Get(init.payload, "schema") == Some(Str(JOURNAL_SCHEMA))
  }

  predicate IdsOk(body: seq<Record>) {
    forall i | 0 <= i < |body| :: body[i].caseId.Some? && IsHex(body[i].caseId.value, 32)
  }

  ghost predicate LifecyclesOk(body: seq<Record>) {
    forall id :: Lifecycle(Project(body, id))
  }

  ghost predicate StateOk(rows: seq<Record>)
    requires rows != []
  {
    InitOk(rows[0]) && IdsOk(rows[1..]) && LifecyclesOk(rows[1..])
  }

  function CasesOf(body: seq<Record>): map<string, Case> {
    map id | id in CaseIds(body) :: CaseOf(Project(body, id))
  }

  // ----- facts about projections -----

  lemma ProjectSnoc(body: seq<Record>, r: Record, id: string)
    ensures Project(body + [r], id) == Project(body, id) + if r.caseId == Some(id) then [r] else []
  {
    assert (body + [r])[..|body|] == body;
  }

  lemma {:induction false} ProjectPrefix(body: seq<Record>, n: nat, id: string)
    requires n <= |body|
    ensures Project(body[..n], id) <= Project(body, id)
    decreases |body| - n
  {
    if n < |body| {
      ProjectPrefix(body, n + 1, id);
      assert body[..n + 1] == body[..n] + [body[n]];
      ProjectSnoc(body[..n], body[n], id);
    } else {
      assert body[..n] == body;
    }
  }

  lemma {:induction false} ProjectMembers(body: seq<Record>, id: string)
    ensures forall r :: r in Project(body, id) <==> r in body && r.caseId == Some(id)
    ensures Project(body, id) != [] <==> id in CaseIds(body)
  {
    if body != [] {
      var rest, last := body[..|body| - 1], body[|body| - 1];
      ProjectMembers(rest, id);
      assert body == rest + [last];
      assert CaseIds(body) == CaseIds(rest) + if last.caseId.Some? then {last.caseId.value} else {};
    }
  }

  /** The events a case still accepts. */
  predicate Fits(c: Case, kind: string) {
    if kind == STARTED then c == EMPTY_CASE
    else if kind == OBSERVED then c.begin.Some? && c.finish.None?
    else if kind == FINISHED then c.begin.Some? && c.observations != [] && c.finish.None?
    else false
  }

  function Advance(c: Case, r: Record): Case {
    if r.kind == STARTED then c.(begin := Some(r))
    else if r.kind == OBSERVED then c.(observations := c.observations + [r])
    else c.(finish := Some(r))
  }

  /** One more record keeps a life cycle exactly when the case accepts it. */
  lemma LifecycleStep(p: seq<Record>, r: Record)
    requires Lifecycle(p)
    ensures Lifecycle(p + [r]) <==> Fits(CaseOf(p), r.kind)
    ensures Fits(CaseOf(p), r.kind) ==> CaseOf(p + [r]) == Advance(CaseOf(p), r)
  {
    var q := p + [r];
    assert q[|p|] == r;
    if p != [] {
      assert p[0].kind == STARTED;
      assert p[|p| - 1].kind == FINISHED ==> |p| >= 3;
      if Lifecycle(q) {
        assert q[|p| - 1].kind != FINISHED;
      }
      if Fits(CaseOf(p), r.kind) {
        assert p[|p| - 1].kind != FINISHED;
        assert forall i | 0 <= i < |p| :: q[i] == p[i];
        assert q[1..] == p[1..] + [r];
        assert q[1..|q| - 1] == p[1..];
      }
    }
  }

  /** The log after one more record. */
  lemma BodyStep(body: seq<Record>, r: Record)
    requires IdsOk(body) && LifecyclesOk(body)
    ensures var next := body + [r];
            (IdsOk(next) && LifecyclesOk(next)) <==>
            (r.caseId.Some? && IsHex(r.caseId.value, 32) && Fits(CaseOf(Project(body, r.caseId.value)), r.kind))
  {
    var next := body + [r];
    assert next[|body|] == r;
    forall id ensures Project(next, id) == Project(body, id) + if r.caseId == Some(id) then [r] else [] {
      ProjectSnoc(body, r, id);
    }
    if r.caseId.Some? {
      LifecycleStep(Project(body, r.caseId.value), r);
    }
  }

  /** `_state`. */
  method State(rows: seq<Record>) returns (r: Result<(Payload, map<string, Case>), StateError>)
    requires rows != []
    ensures r.Ok? <==> StateOk(rows)
    ensures r.Ok? ==> r.value == (rows[0].payload, CasesOf(rows[1..]))
  {
    var init := rows[0];
    if init.kind != "journal_initialized" || init.caseId.Some? { return Err(NoInitialization); }
    if Get(init.payload, "schema") != Some(Str(JOURNAL_SCHEMA)) { return Err(SchemaMismatch); }
    var body := rows[1..];
    var cases: map<string, Case> := map[];
    for i := 0 to |body|
      invariant IdsOk(body[..i]) && LifecyclesOk(body[..i])
      invariant cases == CasesOf(body[..i])
    {
      var row := body[i];
      BodyLoopStep(body, i);
      if row.caseId.None? || !IsHex(row.caseId.value, 32) { return Err(InvalidCaseId); }
      var id := row.caseId.value;
      var c := if id in cases then cases[id] else EMPTY_CASE;
      ProjectMembers(body[..i], id);
      if row.kind == STARTED {
        if c.begin.Some? || c.observations != [] || c.finish.Some? { return Err(OutOfOrder); }
        c := c.(begin := Some(row));
      } else if row.kind == OBSERVED {
        if c.begin.None? || c.finish.Some? { return Err(OutOfOrder); }
        c := c.(observations := c.observations + [row]);
      } else if row.kind == FINISHED {
        if c.begin.None? || c.observations == [] || c.finish.Some? { return Err(OutOfOrder); }
        c := c.(finish := Some(row));
      } else {
        return Err(UnknownKind);
      }
      cases := cases[id := c];
    }
    assert body[..|body|] == body;
    return Ok((init.payload, cases));
  }

  /** What the loop needs to know about its next row. */
  lemma BodyLoopStep(body: seq<Record>, i: nat)
    requires i < |body| && IdsOk(body[..i]) && LifecyclesOk(body[..i])
    ensures var row := body[i];
            var fits := row.caseId.Some? && IsHex(row.caseId.value, 32)
                        && Fits(CaseOf(Project(body[..i], row.caseId.value)), row.kind);
            && (IdsOk(body[..i + 1]) && LifecyclesOk(body[..i + 1]) <==> fits)
            && (IdsOk(body) && LifecyclesOk(body) ==> fits)
            && (fits ==> CasesOf(body[..i + 1]) ==
                         CasesOf(body[..i])[row.caseId.value := Advance(CaseOf(Project(body[..i], row.caseId.value)), row)])
  {
    var row, before, next := body[i], body[..i], body[..i + 1];
    assert next == before + [row];
    BodyStep(before, row);
    if IdsOk(body) && LifecyclesOk(body) {
      forall id ensures Lifecycle(Project(next, id)) {
        ProjectPrefix(body, i + 1, id);
        assert Lifecycle(Project(body, id));
      }
      assert IdsOk(next);
    }
    if row.caseId.Some? && IsHex(row.caseId.value, 32) && Fits(CaseOf(Project(before, row.caseId.value)), row.kind) {
      StepCases(before, row);
    }
  }

  lemma StepCases(body: seq<Record>, r: Record)
    requires LifecyclesOk(body) && r.caseId.Some? && Fits(CaseOf(Project(body, r.caseId.value)), r.kind)
    ensures CasesOf(body + [r]) == CasesOf(body)[r.caseId.value := Advance(CaseOf(Project(body, r.caseId.value)), r)]
  {
    var id := r.caseId.value;
    LifecycleStep(Project(body, id), r);
    CasesSnoc(body, r);
  }

  lemma CaseIdsSnoc(body: seq<Record>, r: Record)
    requires r.caseId.Some?
    ensures CaseIds(body + [r]) == CaseIds(body) + {r.caseId.value}
  {
    var next := body + [r];
    assert forall x :: x in next <==> x in body || x == r;
  }

  /** A record only touches the case it names. */
  lemma CasesSnoc(body: seq<Record>, r: Record)
    requires r.caseId.Some?
    ensures CasesOf(body + [r]) == CasesOf(body)[r.caseId.value := CaseOf(Project(body, r.caseId.value) + [r])]
  {
    hide Project, CaseOf, CaseIds;
    var next, id := body + [r], r.caseId.value;
    CaseIdsSnoc(body, r);
    forall other ensures Project(next, other) == if other == id then Project(body, other) + [r] else Project(body, other) {
      ProjectSnoc(body, r, other);
    }
    assert CasesOf(next).Keys == CasesOf(body).Keys + {id};
  }

  /** Projecting twice changes nothing: a log holding only one case's records is that
      case's own projection. */
  lemma {:induction false} FoldIsPerCase(body: seq<Record>, id: string)
    ensures Project(Project(body, id), id) == Project(body, id)
    ensures forall other | other != id :: Project(Project(body, id), other) == []
  {
    if body != [] {
      var rest, last := body[..|body| - 1], body[|body| - 1];
      FoldIsPerCase(rest, id);
      if last.caseId == Some(id) {
        var p := Project(rest, id);
        assert Project(body, id) == p + [last];
        ProjectSnoc(p, last, id);
        forall other | other != id ensures Project(p + [last], other) == [] {
          ProjectSnoc(p, last, other);
        }
      } else {
        assert Project(body, id) == Project(rest, id);
      }
    }
  }

  /** Folding only one case's records gives that case exactly as the whole log does. */
  lemma CaseRunsAlone(body: seq<Record>, id: string)
    requires id in CaseIds(body)
    ensures CasesOf(Project(body, id)) == map[id := CasesOf(body)[id]]
  {
    hide Project, CaseOf;
    var alone := Project(body, id);
    FoldIsPerCase(body, id);
    ProjectMembers(body, id);
    assert CaseIds(alone) == {id} by {
      assert alone[0] in alone;
    }
  }
}
