/** `case_index`: the operator's view of a journal by case name. */
module CaseIndex {
  import opened Basics
  import opened JournalStore
  import opened JournalCases
  import opened Manifest
  import opened CaseRecorder
  import opened JournalRuns

  function NameIn(c: Case): Option<string> {
    if c.begin.None? then None
    else
      var name := Get(c.begin.value.payload, "name");
      if name.Some? && name.value.Str? then Some(name.value.text) else None
  }

  /** No two cases have the same name. */
  predicate NamesApart(cases: map<string, Case>) {
    forall a, b | a in cases && b in cases && a != b && NameIn(cases[a]).Some? :: NameIn(cases[a]) != NameIn(cases[b])
  }

  /** Every named case is found under its name, and nothing else is. */
  predicate IndexesByName(index: map<string, (string, Case)>, cases: map<string, Case>) {
    && (forall name | name in index ::
          index[name].0 in cases && index[name].1 == cases[index[name].0] && NameIn(index[name].1) == Some(name))
    && forall id | id in cases && NameIn(cases[id]).Some? ::
         NameIn(cases[id]).value in index && index[NameIn(cases[id]).value].0 == id
  }

  /** `case_index`: an index exactly when names are unambiguous. */
  method Index(cases: map<string, Case>) returns (r: Option<map<string, (string, Case)>>)
    ensures r.Some? <==> NamesApart(cases)
    ensures r.Some? ==> IndexesByName(r.value, cases)
  {
    hide NameIn;
    var todo := cases.Keys;
    var index: map<string, (string, Case)> := map[];
    while todo != {}
      invariant todo <= cases.Keys
      invariant forall name | name in index ::
                  && index[name].0 in cases.Keys - todo
                  && index[name].1 == cases[index[name].0] && NameIn(index[name].1) == Some(name)
      invariant forall id | id in cases && id !in todo && NameIn(cases[id]).Some? ::
                  NameIn(cases[id]).value in index && index[NameIn(cases[id]).value].0 == id
      decreases |todo|
    {
      var id :| id in todo;
      todo := todo - {id};
      var name := NameIn(cases[id]);
      if name.Some? {
        if name.value in index {
          assert index[name.value].0 != id && NameIn(cases[index[name.value].0]) == name;
          return None;
        }
        index := index[name.value := (id, cases[id])];
      }
    }
    return Some(index);
  }

  /** Whatever the recorder has done, its journal can be indexed. */
  lemma RecordedIsIndexable(c: Codec, f: Files, m: Manifest, raw: string, table: seq<Row>)
    requires Recorded(c, f, m, raw, table)
    ensures NamesApart(CasesOf(Body(c, table)))
  {
    hide RecordOk, CasesOf;
    var cases := CasesOf(Body(c, table));
    forall a, b | a in cases && b in cases && a != b && NameIn(cases[a]).Some? ensures NameIn(cases[a]) != NameIn(cases[b]) {
      assert NameIn(cases[b]).Some? ==> Get(cases[a].begin.value.payload, "name") != Get(cases[b].begin.value.payload, "name");
    }
  }

  // ----- late begins -----

  /** Two cases of the journal share a name, so that it cannot be indexed. */
  ghost predicate Ambiguous(c: Codec, table: seq<Row>) {
    table != [] && !NamesApart(CasesOf(Body(c, table)))
  }

  /** What a case was begun with never changes. */
  lemma BeginStays(body: seq<Record>, r: Record, id: string)
    requires id in CaseIds(body)
    ensures id in CaseIds(body + [r]) && CasesOf(body + [r])[id].begin == CasesOf(body)[id].begin
  {
    ProjectMembers(body, id);
    ProjectSnoc(body, r, id);
    assert forall x | x in body :: x in body + [r];
  }

  lemma NamesStayApart(body: seq<Record>, r: Record)
    requires NamesApart(CasesOf(body + [r]))
    ensures NamesApart(CasesOf(body))
  {
    hide CaseOf, CaseIds;
    forall id | id in CaseIds(body) ensures id in CaseIds(body + [r]) && CasesOf(body + [r])[id].begin == CasesOf(body)[id].begin {
      BeginStays(body, r, id);
    }
  }

  lemma AppendFirst(c: Codec, table: seq<Row>, later: seq<Request>)
    requires Faithful(c) && Intact(c, table) && later != []
    ensures AppendAll(c, table, later) == AppendAll(c, Extend(c, table, later[0]), later[1..])
  {
    hide Faithful, Intact;
  }

  lemma AmbiguousNext(c: Codec, table: seq<Row>, q: Request)
    requires Faithful(c) && Intact(c, table) && Ambiguous(c, table)
    ensures Intact(c, Extend(c, table, q)) && Ambiguous(c, Extend(c, table, q))
  {
    hide NamesApart, CasesOf;
    var next := Extend(c, table, q);
    BodyOfExtension(c, table, q);
    if NamesApart(CasesOf(Body(c, next))) { NamesStayApart(Body(c, table), RecordOf(c, next[|table|])); }
  }

  /** A name that became ambiguous stays so whatever is appended. */
  lemma {:induction false} AmbiguousForever(c: Codec, table: seq<Row>, later: seq<Request>)
    requires Faithful(c) && Intact(c, table) && Ambiguous(c, table)
    ensures Ambiguous(c, AppendAll(c, table, later))
    decreases |later|
  {
    hide Ambiguous, Faithful, Intact;
    if later != [] {
      var next := Extend(c, table, later[0]);
      AppendFirst(c, table, later);
      AmbiguousNext(c, table, later[0]);
      AmbiguousForever(c, next, later[1..]);
    }
  }

  /** A begin record under a new id names its case. */
  lemma BegunCase(body: seq<Record>, r: Record)
    requires LifecyclesOk(body) && r.kind == STARTED && r.caseId.Some? && r.caseId.value !in CaseIds(body)
    ensures CasesOf(body + [r]) == CasesOf(body)[r.caseId.value := Case(Some(r), [], None)]
  {
    CaseByProjection(body, r.caseId.value);
    StepCases(body, r);
  }

  /** One more named case keeps the names apart exactly when its name is new. */
  lemma OneMoreName(cases: map<string, Case>, id: string, r: Record, name: string)
    requires id !in cases && NamesApart(cases) && Get(r.payload, "name") == Some(Str(name))
    ensures NamesApart(cases[id := Case(Some(r), [], None)]) <==> Some(Str(name)) !in StartedNames(cases)
  {
    var next := cases[id := Case(Some(r), [], None)];
    assert NameIn(next[id]) == Some(name);
    if Some(Str(name)) in StartedNames(cases) {
      var other :| other in cases && cases[other].begin.Some? && Get(cases[other].begin.value.payload, "name") == Some(Str(name));
      assert other in next && NameIn(next[other]) == Some(name);
    }
  }

  /** The exact condition for a begin that was checked early to leave a journal that can be
      indexed: no case of its name has been begun meanwhile. The journal reads back either
      way. */
  lemma LateBegin(c: Codec, table: seq<Row>, q: Request, name: string)
    requires Faithful(c) && Readable(c, table) && NamesApart(CasesOf(Body(c, table)))
    requires q.kind == STARTED && Get(q.payload, "name") == Some(Str(name))
    requires q.caseId.Some? && IsHex(q.caseId.value, 32) && q.caseId.value !in CaseIds(Body(c, table))
    ensures var next := Extend(c, table, q);
            && Readable(c, next) && CaseIds(Body(c, next)) == CaseIds(Body(c, table)) + {q.caseId.value}
            && (NamesApart(CasesOf(Body(c, next))) <==> Some(Str(name)) !in StartedNames(CasesOf(Body(c, table))))
            && StartedNames(CasesOf(Body(c, next))) == StartedNames(CasesOf(Body(c, table))) + {Some(Str(name))}
  {
    hide NamesApart;
    var r := RecordOf(c, Extend(c, table, q)[|table|]);
    BodyOfExtension(c, table, q);
    CaseByProjection(Body(c, table), q.caseId.value);
    LateAppend(c, table, q);
    CaseIdsSnoc(Body(c, table), r);
    BegunCase(Body(c, table), r);
    OneMoreName(CasesOf(Body(c, table)), q.caseId.value, r, name);
    NamesGrow(CasesOf(Body(c, table)), q.caseId.value, r);
  }

  lemma NamesGrow(cases: map<string, Case>, id: string, r: Record)
    requires id !in cases
    ensures StartedNames(cases[id := Case(Some(r), [], None)]) == StartedNames(cases) + {Get(r.payload, "name")}
  {
    var next := cases[id := Case(Some(r), [], None)];
    assert next[id].begin == Some(r);
    assert forall other | other in cases :: next[other] == cases[other];
  }

  lemma BeginEntry(c: Codec, f: Files, table: seq<Row>, call: Call)
    requires call.Begin? && Enabled(c, f, table, call)
    ensures f.load(call.raw).Some? && OrdinalOk(f.load(call.raw).value, call.name, call.ordinal)
    ensures Readable(c, table) && Some(Str(call.name)) !in StartedNames(CasesOf(Body(c, table)))
    ensures var q := Entry(f, call);
            q.kind == STARTED && q.caseId == Some(call.freshId) && Get(q.payload, "name") == Some(Str(call.name))
  {
    hide CasesOf, StartedNames, ManifestOk;
  }

  /** Two begin calls that are both checked before either is appended leave a readable
      journal; it can be indexed exactly when they begin different cases, and if not, then
      never again. */
  lemma OverlappingBegins(c: Codec, f: Files, table: seq<Row>, one: Call, two: Call, later: seq<Request>)
    requires Faithful(c) && table != [] && !Ambiguous(c, table)
    requires one.Begin? && two.Begin? && Enabled(c, f, table, one) && Enabled(c, f, table, two)
    requires IsHex(one.freshId, 32) && IsHex(two.freshId, 32) && one.freshId != two.freshId
    requires one.freshId !in CaseIds(Body(c, table)) && two.freshId !in CaseIds(Body(c, table))
    ensures var both := Extend(c, Extend(c, table, Entry(f, one)), Entry(f, two));
            && Readable(c, both)
            && (Ambiguous(c, both) <==> one.name == two.name)
            && (one.name == two.name ==> Ambiguous(c, AppendAll(c, both, later)))
  {
    hide NamesApart, Faithful, CasesOf, CaseIds, StartedNames, Entry, Enabled, Intact, StateOk;
    BeginEntry(c, f, table, one);
    BeginEntry(c, f, table, two);
    LateBegin(c, table, Entry(f, one), one.name);
    var first := Extend(c, table, Entry(f, one));
    LateBegin(c, first, Entry(f, two), two.name);
    if one.name == two.name { AmbiguousForever(c, Extend(c, first, Entry(f, two)), later); }
  }
}
