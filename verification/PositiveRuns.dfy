/** The positive ceremony: each run is bound in the manifest file and then attested in the
    observations file. The process may die before any of its file replacements. */
module PositiveRuns {
  import opened Basics
  import opened Manifest

  const OBSERVATIONS_SCHEMA := "kaliv-agent3-write-pilot-positive-observations/v1"

  datatype Identity = Identity(version: string, gitSha: string, codeSha: string, identitySource: string)

  datatype Observations = Observations(
    schema: string, pilotId: string, candidate: Identity, activated: bool, ordinals: seq<int>)

  datatype Report = Report(success: bool, pilotId: string, activated: bool)

  /** The three files that survive a crash. */
  datatype Disk = Disk(manifest: Option<Manifest>, observations: Option<Observations>, report: Option<Report>)

  /** What a running process holds in memory. */
  datatype Session = Session(manifest: Manifest, observations: Observations)

  datatype OperatorError = Died | UnsafeManifest | PreflightRed | StaleObservations | MissingFiles
                         | PreflightUnusable | ResumeRefused | AlreadyBound | BindRejected

  function CandidateOf(t: Target): Identity {
    Identity(t.version, t.gitSha, t.codeSha, t.identitySource)
  }

  function Observed(o: Observations): set<int> {
    set ordinal | ordinal in o.ordinals
  }

  function NewObservations(m: Manifest, who: Identity): Observations {
    Observations(OBSERVATIONS_SCHEMA, m.header.pilotId, who, false, [])
  }

  /** `validate_resume` reports no error. */
  predicate Resumable(o: Observations, m: Manifest, who: Identity) {
    && o.schema == OBSERVATIONS_SCHEMA && o.pilotId == m.header.pilotId && !o.activated
    && o.candidate == who && Observed(o) == BoundOrdinals(m.runs)
  }

  /** What a new preflight writes: its verdict, under the manifest's pilot. */
  function PreflightReport(m: Manifest, green: bool): Report {
    Report(green, m.header.pilotId, false)
  }

  class Ceremony {
    var manifest: Option<Manifest>
    var observations: Option<Observations>
    var report: Option<Report>
    /** How many more file replacements happen before the process dies. */
    var budget: nat

    constructor (disk: Disk, budget: nat)
      ensures OnDisk() == disk && this.budget == budget
    {
      manifest, observations, report := disk.manifest, disk.observations, disk.report;
      this.budget := budget;
    }

    function OnDisk(): Disk
      reads this
    {
      Disk(manifest, observations, report)
    }

    /** `prepare_or_resume`. `prepared` is what `prepare_manifest` would return,
        `green` the verdict a new preflight would reach. */
    method PrepareOrResume(k: Clock, who: Identity, prepared: Manifest, green: bool)
      returns (r: Result<Session, OperatorError>)
      modifies this
      ensures (OnDisk(), r) == Started(k, old(OnDisk()), who, prepared, green, old(budget))
    {
      if manifest.None? {
        if budget == 0 { return Err(Died); }
        manifest, budget := Some(prepared), budget - 1;
      }
      var m := manifest.value;
      var errors := ValidateManifest(k, m, false);
      if errors != [] || CandidateOf(m.header.target) != who { return Err(UnsafeManifest); }
      var bound := BoundOrdinals(m.runs);
      if bound == {} {
        if budget == 0 { return Err(Died); }
        report, budget := Some(PreflightReport(m, green)), budget - 1;
        if !green { return Err(PreflightRed); }
        if observations.Some? { return Err(StaleObservations); }
        if budget == 0 { return Err(Died); }
        var o := NewObservations(m, who);
        observations, budget := Some(o), budget - 1;
        return Ok(Session(m, o));
      }
      if report.None? || observations.None? { return Err(MissingFiles); }
      if !report.value.success || report.value.pilotId != m.header.pilotId || report.value.activated {
        return Err(PreflightUnusable);
      }
      if !Resumable(observations.value, m, who) { return Err(ResumeRefused); }
      return Ok(Session(m, observations.value));
    }

    /** `record_run`: bind in memory, attest in memory, then replace both files. An error
        or a death ends the process. */
    method RecordRun(k: Clock, session: Session, ordinal: int, runId: string, now: int)
      returns (r: Result<Session, OperatorError>)
      modifies this
      ensures (OnDisk(), r) == Recorded(k, old(OnDisk()), session, ordinal, runId, now, old(budget))
    {
      var live := new LiveManifest(session.manifest);
      var bound := live.BindRun(k, ordinal, runId, now);
      if bound.Err? { return Err(BindRejected); }
      var o := session.observations;
      o := o.(ordinals := o.ordinals + [ordinal]);
      if budget == 0 { return Err(Died); }
      manifest, budget := Some(live.View()), budget - 1;
      if budget == 0 { return Err(Died); }
      observations, budget := Some(o), budget - 1;
      return Ok(Session(live.View(), o));
    }
  }

  // ----- the same operations on values -----

  function Started(k: Clock, d: Disk, who: Identity, prepared: Manifest, green: bool, budget: nat)
    : (Disk, Result<Session, OperatorError>)
  {
    if d.manifest.None? then
      if budget == 0 then (d, Err(Died))
      else Continued(k, d.(manifest := Some(prepared)), prepared, who, green, budget - 1)
    else Continued(k, d, d.manifest.value, who, green, budget)
  }

  function Continued(k: Clock, d: Disk, m: Manifest, who: Identity, green: bool, budget: nat)
    : (Disk, Result<Session, OperatorError>)
  {
    if !ManifestOk(k, m, false) || CandidateOf(m.header.target) != who then (d, Err(UnsafeManifest))
    else if BoundOrdinals(m.runs) == {} then
      if budget == 0 then (d, Err(Died))
      else
        var d1 := d.(report := Some(PreflightReport(m, green)));
        if !green then (d1, Err(PreflightRed))
        else if d.observations.Some? then (d1, Err(StaleObservations))
        else if budget == 1 then (d1, Err(Died))
        else (d1.(observations := Some(NewObservations(m, who))), Ok(Session(m, NewObservations(m, who))))
    else if d.report.None? || d.observations.None? then (d, Err(MissingFiles))
    else if !ReportUsable(d.report.value, m) then (d, Err(PreflightUnusable))
    else if !Resumable(d.observations.value, m, who) then (d, Err(ResumeRefused))
    else (d, Ok(Session(m, d.observations.value)))
  }

  predicate ReportUsable(r: Report, m: Manifest) {
    r.success && r.pilotId == m.header.pilotId && !r.activated
  }

  function Recorded(k: Clock, d: Disk, s: Session, ordinal: int, runId: string, now: int, budget: nat)
    : (Disk, Result<Session, OperatorError>)
  {
    if !CanBind(k, s.manifest, ordinal, runId) then (d, Err(BindRejected))
    else
      var m := Bound(k, s.manifest, ordinal, runId, now);
      var o := s.observations.(ordinals := s.observations.ordinals + [ordinal]);
      if budget == 0 then (d, Err(Died))
      else if budget == 1 then (d.(manifest := Some(m)), Err(Died))
      else (d.(manifest := Some(m), observations := Some(o)), Ok(Session(m, o)))
  }

  // ----- ceremonies with crashes -----

  datatype Op =
    | Start(who: Identity, prepared: Manifest, green: bool, budget: nat)
    | Record(ordinal: int, runId: string, now: int, budget: nat)

  /** The disk, and the process if one is running. */
  datatype World = World(disk: Disk, session: Option<Session>)

  function Step(k: Clock, w: World, op: Op): World {
    match op
    case Start(who, prepared, green, budget) =>
      var (d, r) := Started(k, w.disk, who, prepared, green, budget);
      World(d, if r.Ok? then Some(r.value) else None)
    case Record(ordinal, runId, now, budget) =>
      if w.session.None? then w
      else
        var (d, r) := Recorded(k, w.disk, w.session.value, ordinal, runId, now, budget);
        World(d, if r.Ok? then Some(r.value) else None)
  }

  function Run(k: Clock, w: World, ops: seq<Op>): World {
    if ops == [] then w else Step(k, Run(k, w, ops[..|ops| - 1]), ops[|ops| - 1])
  }

  /** A freshly prepared manifest is valid and has nothing bound. */
  predicate OpOk(k: Clock, op: Op) {
    op.Start? ==> ManifestOk(k, op.prepared, false) && BoundOrdinals(op.prepared.runs) == {}
  }

  /** The runs that are bound but were never attested. */
  function Unattested(d: Disk): set<int> {
    if d.manifest.None? then {}
    else BoundOrdinals(d.manifest.value.runs) - (if d.observations.Some? then Observed(d.observations.value) else {})
  }

  /** The observations were started for this manifest and its candidate. */
  predicate BelongsTo(o: Observations, m: Manifest) {
    && o.schema == OBSERVATIONS_SCHEMA && o.pilotId == m.header.pilotId && !o.activated
    && o.candidate == CandidateOf(m.header.target)
    && Observed(o) <= BoundOrdinals(m.runs)
  }

  ghost predicate DiskOk(k: Clock, d: Disk) {
    match d.manifest
    case None => d.observations.None?
    case Some(m) =>
      && ManifestOk(k, m, false)
      && (d.observations.None? ==> BoundOrdinals(m.runs) == {})
      && (d.observations.Some? ==> BelongsTo(d.observations.value, m))
      && |Unattested(d)| <= 1
  }

  ghost predicate WorldOk(k: Clock, w: World) {
    && DiskOk(k, w.disk)
    && (w.session.Some? ==>
          && w.disk.manifest == Some(w.session.value.manifest)
          && w.disk.observations == Some(w.session.value.observations)
          && Unattested(w.disk) == {})
  }

  /** The report on disk is a green one for the manifest's pilot. */
  predicate IsGreen(d: Disk) {
    && d.manifest.Some? && d.report.Some?
    && d.report.value.success && d.report.value.pilotId == d.manifest.value.header.pilotId && !d.report.value.activated
  }

  /** A green report is on disk while a process runs, and from the first bound run on. */
  predicate ReportKept(w: World) {
    && (w.session.Some? ==> IsGreen(w.disk))
    && (w.disk.manifest.Some? && BoundOrdinals(w.disk.manifest.value.runs) != {} ==> IsGreen(w.disk))
  }

  lemma StepKeepsReport(k: Clock, w: World, op: Op)
    requires ClockOk(k) && WorldOk(k, w) && ReportKept(w) && OpOk(k, op)
    ensures ReportKept(Step(k, w, op))
  {
    hide ManifestOk, CanBind, BoundOrdinals, Bound, Resumable;
    if op.Record? && w.session.Some? && CanBind(k, w.session.value.manifest, op.ordinal, op.runId) {
      BindKeepsValid(k, w.session.value.manifest, Binding(op.ordinal, op.runId, op.now));
    }
  }

  lemma RecordKeepsOk(k: Clock, w: World, op: Op)
    requires ClockOk(k) && WorldOk(k, w) && op.Record? && w.session.Some?
    ensures WorldOk(k, Step(k, w, op))
    ensures var d := Step(k, w, op).disk;
            Unattested(d) == if CanBind(k, w.session.value.manifest, op.ordinal, op.runId) && op.budget == 1
                             then {op.ordinal} else {}
  {
    hide Started, ManifestOk, CanBind, BoundOrdinals, Bound;
    var s := w.session.value;
    if CanBind(k, s.manifest, op.ordinal, op.runId) {
      var b := Binding(op.ordinal, op.runId, op.now);
      BindKeepsValid(k, s.manifest, b);
      var o := s.observations.(ordinals := s.observations.ordinals + [op.ordinal]);
      assert Observed(o) == Observed(s.observations) + {op.ordinal};
      assert BoundOrdinals(s.manifest.runs) == Observed(s.observations);
      assert Unattested(Disk(Some(BindOne(k, s.manifest, b)), w.disk.observations, w.disk.report)) == {op.ordinal};
    }
  }

  lemma GapOfSubset(observed: set<int>, bound: set<int>)
    requires observed <= bound
    ensures bound - observed == {} <==> observed == bound
  {
    if bound - observed == {} {
      forall x | x in bound ensures x in observed { assert x in bound - observed || x in observed; }
    }
  }

  lemma ContinuedKeepsOk(k: Clock, d: Disk, m: Manifest, who: Identity, green: bool, budget: nat)
    requires d.manifest == Some(m)
    requires d.observations.None? ==> BoundOrdinals(m.runs) == {}
    requires d.observations.Some? ==> BelongsTo(d.observations.value, m)
    ensures var (d1, r) := Continued(k, d, m, who, green, budget);
            && d1.manifest == d.manifest && Unattested(d1) == Unattested(d)
            && (d1.observations.Some? ==> BelongsTo(d1.observations.value, m))
            && (d1.observations.None? ==> d.observations.None?)
            && (r.Ok? ==> r.value.manifest == m && d1.observations == Some(r.value.observations) && Unattested(d1) == {})
  {
    if d.observations.Some? { GapOfSubset(Observed(d.observations.value), BoundOrdinals(m.runs)); }
    assert Observed(NewObservations(m, who)) == {};
  }

  lemma StartKeepsOk(k: Clock, w: World, op: Op)
    requires WorldOk(k, w) && op.Start? && OpOk(k, op)
    ensures WorldOk(k, Step(k, w, op))
  {
    hide ManifestOk, BoundOrdinals, BelongsTo, Continued;
    if w.disk.manifest.Some? {
      ContinuedKeepsOk(k, w.disk, w.disk.manifest.value, op.who, op.green, op.budget);
    } else if op.budget > 0 {
      var d := w.disk.(manifest := Some(op.prepared));
      assert Unattested(d) == {};
      ContinuedKeepsOk(k, d, op.prepared, op.who, op.green, op.budget - 1);
    }
  }

  /** Whatever is started, recorded or killed, every observed run is bound, and at most
      one bound run is missing from the observations. */
  lemma {:induction false} AnyCeremony(k: Clock, ops: seq<Op>)
    requires ClockOk(k) && forall i | 0 <= i < |ops| :: OpOk(k, ops[i])
    ensures var d := Run(k, World(Disk(None, None, None), None), ops).disk;
            && (d.observations.Some? ==>
                  d.manifest.Some? && Observed(d.observations.value) <= BoundOrdinals(d.manifest.value.runs))
            && |Unattested(d)| <= 1
    ensures WorldOk(k, Run(k, World(Disk(None, None, None), None), ops))
    ensures ReportKept(Run(k, World(Disk(None, None, None), None), ops))
  {
    if ops != [] {
      hide ReportKept, ManifestOk;
      var init := ops[..|ops| - 1];
      AnyCeremony(k, init);
      var w, op := Run(k, World(Disk(None, None, None), None), init), ops[|ops| - 1];
      StepKeepsReport(k, w, op);
      if op.Start? { StartKeepsOk(k, w, op); } else if w.session.Some? { RecordKeepsOk(k, w, op); }
    }
  }

  /** When a process can pick up the files left behind: with nothing bound, only if the
      new preflight is green and no observations exist; with something bound, only if
      the kept preflight was green for this pilot and exactly the bound runs are
      attested. */
  lemma ResumeExactly(k: Clock, d: Disk, who: Identity, prepared: Manifest, green: bool, budget: nat)
    requires DiskOk(k, d) && d.manifest.Some? && budget >= 2
    ensures var m := d.manifest.value;
            Started(k, d, who, prepared, green, budget).1.Ok? <==>
            && CandidateOf(m.header.target) == who
            && if BoundOrdinals(m.runs) == {} then green && d.observations.None?
               else d.report.Some? && d.report.value.success && d.report.value.pilotId == m.header.pilotId
                    && !d.report.value.activated && Unattested(d) == {}
  {
    if d.observations.Some? {
      GapOfSubset(Observed(d.observations.value), BoundOrdinals(d.manifest.value.runs));
    }
  }

  /** A run that was bound but not attested blocks the ceremony for good: nothing resumes
      and no file changes any more. */
  lemma {:induction false} LostAttestationIsFinal(k: Clock, d: Disk, ops: seq<Op>)
    requires DiskOk(k, d) && Unattested(d) != {}
    ensures Run(k, World(d, None), ops) == World(d, None)
  {
    if ops != [] {
      LostAttestationIsFinal(k, d, ops[..|ops| - 1]);
      var op := ops[|ops| - 1];
      if op.Start? { GapRefusesResume(k, d, op.who, op.green, op.budget); }
    }
  }

  lemma GapRefusesResume(k: Clock, d: Disk, who: Identity, green: bool, budget: nat)
    requires d.manifest.Some? && Unattested(d) != {}
    requires d.observations.None? ==> BoundOrdinals(d.manifest.value.runs) == {}
    ensures var (d1, r) := Continued(k, d, d.manifest.value, who, green, budget); d1 == d && r.Err?
  {
    assert BoundOrdinals(d.manifest.value.runs) != {};
    assert d.observations.Some? ==> Observed(d.observations.value) != BoundOrdinals(d.manifest.value.runs);
  }

  // ----- starting again -----

  /** A process that is killed between two steps of its ceremony can be started again for
      its own candidate exactly when a run has been bound; the new process then holds what
      the old one held, and no file changes. */
  lemma RestartExactly(k: Clock, ops: seq<Op>, prepared: Manifest, green: bool, budget: nat)
    requires ClockOk(k) && forall i | 0 <= i < |ops| :: OpOk(k, ops[i])
    requires Run(k, World(Disk(None, None, None), None), ops).session.Some?
    ensures var w := Run(k, World(Disk(None, None, None), None), ops);
            var m := w.session.value.manifest;
            var (d, r) := Started(k, w.disk, CandidateOf(m.header.target), prepared, green, budget);
            && (r.Ok? <==> BoundOrdinals(m.runs) != {})
            && (r.Ok? ==> d == w.disk && r.value == w.session.value)
  {
    hide ManifestOk, BoundOrdinals, Run;
    AnyCeremony(k, ops);
    var d := Run(k, World(Disk(None, None, None), None), ops).disk;
    GapOfSubset(Observed(d.observations.value), BoundOrdinals(d.manifest.value.runs));
  }

  lemma CanBindIsValid(k: Clock, m: Manifest, ordinal: int, runId: string)
    requires CanBind(k, m, ordinal, runId)
    ensures ManifestOk(k, m, false)
  {
  }

  function Recording(ops: seq<Op>): set<int> {
    set op | op in ops && op.Record? :: op.ordinal
  }

  /** What a green start and any records that all succeed leave behind. */
  lemma {:induction false} UndisturbedCeremony(k: Clock, start: Op, records: seq<Op>)
    requires ClockOk(k) && start.Start? && OpOk(k, start) && CandidateOf(start.prepared.header.target) == start.who
    requires start.green && start.budget >= 3
    requires forall i | 0 <= i < |records| :: records[i].Record?
    requires Run(k, World(Disk(None, None, None), None), [start] + records).session.Some?
    ensures var w := Run(k, World(Disk(None, None, None), None), [start] + records);
            && w.session.value.manifest.header == start.prepared.header
            && BoundOrdinals(w.session.value.manifest.runs) == Recording(records)
            && w.disk == Disk(Some(w.session.value.manifest), Some(w.session.value.observations),
                              Some(Report(true, start.prepared.header.pilotId, false)))
  {
    hide ManifestOk, CanBind, BoundOrdinals, Bound;
    var empty := World(Disk(None, None, None), None);
    if records == [] {
      assert [start] + records == [start] && [start][..0] == [];
    } else {
      var n := |records| - 1;
      var ops := [start] + records;
      assert ops[..|ops| - 1] == [start] + records[..n] && ops[|ops| - 1] == records[n];
      var before := Run(k, empty, [start] + records[..n]);
      assert before.session.Some?;
      UndisturbedCeremony(k, start, records[..n]);
      CanBindIsValid(k, before.session.value.manifest, records[n].ordinal, records[n].runId);
      BindKeepsValid(k, before.session.value.manifest, Binding(records[n].ordinal, records[n].runId, records[n].now));
      assert records == records[..n] + [records[n]];
    }
  }

  /** From empty files, a green start and any records that all succeed: a new start for the
      same candidate succeeds exactly if there was a record, and continues with exactly what
      was left. */
  lemma CeremonyContinues(k: Clock, start: Op, records: seq<Op>, again: Op)
    requires ClockOk(k) && start.Start? && OpOk(k, start) && CandidateOf(start.prepared.header.target) == start.who
    requires start.green && start.budget >= 3
    requires forall i | 0 <= i < |records| :: records[i].Record?
    requires Run(k, World(Disk(None, None, None), None), [start] + records).session.Some?
    requires again.Start? && again.who == start.who
    ensures var w := Run(k, World(Disk(None, None, None), None), [start] + records);
            && (Step(k, w, again).session.Some? <==> records != [])
            && (records != [] ==> Step(k, w, again) == w)
  {
    hide ManifestOk, BoundOrdinals, Run, Started;
    UndisturbedCeremony(k, start, records);
    RestartExactly(k, [start] + records, again.prepared, again.green, again.budget);
    if records != [] { assert records[0].ordinal in Recording(records); } else { assert Recording(records) == {}; }
  }
}
