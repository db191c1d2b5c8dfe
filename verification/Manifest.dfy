/** The prepared pilot manifest: 20 unpredictable markers, each bound at most once to
    the run id that executed it (`validate_manifest`, `prepare_manifest`, `bind_run`). */
module Manifest {
  import opened Basics

  const RUN_COUNT := 20
  const MANIFEST_SCHEMA := "kaliv-agent3-write-pilot-manifest/v1"
  const IDENTITY_SOURCES: set<string> := {"git", "frozen-candidate-attestation"}

  datatype Target = Target(
    version: string, gitSha: string, codeSha: string, identitySource: string, rigReportSha: string)

  datatype Run = Run(ordinal: int, marker: string, runId: Option<string>, boundAt: Option<string>)

  datatype Header = Header(
    schema: string, pilotId: string, createdAt: string, operator: string, target: Target, markerPrefix: string)

  datatype Manifest = Manifest(header: Header, runs: seq<Run>)

  // ----- lexical rules -----

  predicate IsOpaqueId(s: string) {
    1 <= |s| <= 200 &&
    forall i | 0 <= i < |s| ::
      'a' <= s[i] <= 'z' || 'A' <= s[i] <= 'Z' || '0' <= s[i] <= '9' || s[i] == '_' || s[i] == '-'
  }

  predicate IsSpace(c: char) {
    c in " \t\n\r"
  }

  predicate Blank(s: string) {
    forall i | 0 <= i < |s| :: IsSpace(s[i])
  }

  function Strip(s: string): string
    decreases |s|
  {
    if s == "" then ""
    else if IsSpace(s[0]) then Strip(s[1..])
    else if IsSpace(s[|s| - 1]) then Strip(s[..|s| - 1])
    else s
  }

  lemma {:induction false} StripKeepsContent(s: string)
    ensures Blank(Strip(s)) <==> Blank(s)
    decreases |s|
  {
    if s != "" {
      if IsSpace(s[0]) {
        StripKeepsContent(s[1..]);
        assert forall i | 1 <= i < |s| :: s[i] == s[1..][i - 1];
      } else if IsSpace(s[|s| - 1]) {
        StripKeepsContent(s[..|s| - 1]);
      }
    }
  }

  function TwoDigits(n: nat): string
    requires n < 100
  {
    ['0' + (n / 10) as char, '0' + (n % 10) as char]
  }

  function Prefix(pilotId: string): string {
    "KALIV-T022:" + pilotId + ":P:"
  }

  /** How the marker of run `ordinal` has to begin. */
  function MarkerStart(prefix: string, ordinal: nat): string
    requires ordinal < 100
  {
    prefix + TwoDigits(ordinal) + ":"
  }

  predicate MarkerOk(prefix: string, ordinal: nat, marker: string)
    requires ordinal < 100
  {
    MarkerStart(prefix, ordinal) <= marker && |marker| == |MarkerStart(prefix, ordinal)| + 32
  }

  // ----- validity -----

  predicate TargetOk(t: Target) {
    && !Blank(t.version) && IsHex(t.gitSha, 40) && IsHex(t.codeSha, 64)
    && IsHex(t.rigReportSha, 64) && t.identitySource in IDENTITY_SOURCES
  }

  predicate HeaderOk(k: Clock, h: Header) {
    && h.schema == MANIFEST_SCHEMA && IsHex(h.pilotId, 32) && k.validTime(h.createdAt)
    && !Blank(h.operator) && h.markerPrefix == Prefix(h.pilotId) && TargetOk(h.target)
  }

  predicate RunOk(k: Clock, prefix: string, ordinal: nat, run: Run, requireBound: bool)
    requires ordinal < 100
  {
    && run.ordinal == ordinal
    && MarkerOk(prefix, ordinal, run.marker)
    && match run.runId
       case None => !requireBound && run.boundAt == None
       case Some(id) => IsOpaqueId(id) && run.boundAt.Some? && k.validTime(run.boundAt.value)
  }

  /** The first `n` runs are well formed. */
  predicate RunsOk(k: Clock, m: Manifest, n: nat, requireBound: bool)
    requires n <= |m.runs| && n <= RUN_COUNT
  {
    forall i | 0 <= i < n :: RunOk(k, m.header.markerPrefix, i + 1, m.runs[i], requireBound)
  }

  /** No run id is bound to two markers. */
  predicate Unambiguous(runs: seq<Run>) {
    forall i, j | 0 <= i < j < |runs| ::
      runs[i].runId.Some? && runs[j].runId.Some? ==> runs[i].runId != runs[j].runId
  }

  predicate ManifestOk(k: Clock, m: Manifest, requireBound: bool) {
    && HeaderOk(k, m.header)
    && |m.runs| == RUN_COUNT
    && RunsOk(k, m, RUN_COUNT, requireBound)
    && Unambiguous(m.runs)
  }

  /** The ordinal inside a marker separates it from every other marker, so the
      uniqueness check of the validator can never be the one that fails. */
  lemma MarkersDiffer(prefix: string, i: nat, j: nat, a: string, b: string)
    requires i < j < 100 && MarkerOk(prefix, i, a) && MarkerOk(prefix, j, b)
    ensures a != b
  {
    var n := |prefix|;
    assert MarkerStart(prefix, i)[n..n + 2] == TwoDigits(i);
    assert MarkerStart(prefix, j)[n..n + 2] == TwoDigits(j);
    assert a[n..n + 2] == MarkerStart(prefix, i)[n..n + 2];
    assert b[n..n + 2] == MarkerStart(prefix, j)[n..n + 2];
    assert TwoDigits(i)[0] != TwoDigits(j)[0] || TwoDigits(i)[1] != TwoDigits(j)[1];
  }

  function Unless(ok: bool, text: string): (errors: seq<string>)
    ensures errors == [] <==> ok
  {
    if ok then [] else [text]
  }

  method HeaderErrors(k: Clock, h: Header) returns (errors: seq<string>)
    ensures errors == [] <==> HeaderOk(k, h)
  {
    errors := Unless(h.schema == MANIFEST_SCHEMA, "schema");
    errors := errors + Unless(IsHex(h.pilotId, 32), "pilot_id");
    errors := errors + Unless(k.validTime(h.createdAt), "created_at");
    errors := errors + Unless(!Blank(h.operator), "operator");
    errors := errors + Unless(h.markerPrefix == Prefix(h.pilotId), "marker_prefix");
    errors := errors + Unless(!Blank(h.target.version), "target version");
    errors := errors + Unless(IsHex(h.target.gitSha, 40), "target git_sha");
    errors := errors + Unless(IsHex(h.target.codeSha, 64), "target code_sha256");
    errors := errors + Unless(IsHex(h.target.rigReportSha, 64), "target rig_validation_report_sha256");
    errors := errors + Unless(h.target.identitySource in IDENTITY_SOURCES, "target identity_source");
  }

  method RunErrors(k: Clock, prefix: string, ordinal: nat, run: Run, requireBound: bool) returns (errors: seq<string>)
    requires ordinal < 100
    ensures errors == [] <==> RunOk(k, prefix, ordinal, run, requireBound)
  {
    errors := Unless(run.ordinal == ordinal, "ordinal");
    errors := errors + Unless(MarkerOk(prefix, ordinal, run.marker), "marker");
    match run.runId {
      case None =>
        errors := errors + Unless(!requireBound, "unbound");
        errors := errors + Unless(run.boundAt.None?, "bound_at without run_id");
      case Some(id) =>
        errors := errors + Unless(IsOpaqueId(id), "run_id");
        errors := errors + Unless(run.boundAt.Some? && k.validTime(run.boundAt.value), "bound_at");
    }
  }

  /** The well-formed run ids, in order. */
  function WellFormedIds(runs: seq<Run>): seq<string> {
    if runs == [] then []
    else
      var id := runs[|runs| - 1].runId;
      WellFormedIds(runs[..|runs| - 1]) + if id.Some? && IsOpaqueId(id.value) then [id.value] else []
  }

  /** The well-formed markers, in order. */
  function WellFormedMarkers(prefix: string, runs: seq<Run>): seq<string>
    requires |runs| < 100
  {
    if runs == [] then []
    else
      var marker := runs[|runs| - 1].marker;
      WellFormedMarkers(prefix, runs[..|runs| - 1]) + if MarkerOk(prefix, |runs|, marker) then [marker] else []
  }

  /** The loop over the runs: the errors, and the markers and run ids that were
      well formed. */
  method RunsErrors(k: Clock, m: Manifest, requireBound: bool)
    returns (errors: seq<string>, markers: seq<string>, runIds: seq<string>)
    requires |m.runs| == RUN_COUNT
    ensures errors == [] <==> RunsOk(k, m, RUN_COUNT, requireBound)
    ensures markers == WellFormedMarkers(m.header.markerPrefix, m.runs)
    ensures runIds == WellFormedIds(m.runs)
  {
    hide RunOk, MarkerOk, IsOpaqueId;
    var prefix := m.header.markerPrefix;
    errors, markers, runIds := [], [], [];
    for index := 0 to |m.runs|
      invariant markers == WellFormedMarkers(prefix, m.runs[..index])
      invariant runIds == WellFormedIds(m.runs[..index])
      invariant errors == [] <==> RunsOk(k, m, index, requireBound)
    {
      var item := m.runs[index];
      assert m.runs[..index + 1][..index] == m.runs[..index];
      var found := RunErrors(k, prefix, index + 1, item, requireBound);
      errors := errors + found;
      if MarkerOk(prefix, index + 1, item.marker) {
        markers := markers + [item.marker];
      }
      if item.runId.Some? && IsOpaqueId(item.runId.value) {
        runIds := runIds + [item.runId.value];
      }
    }
    assert m.runs[..|m.runs|] == m.runs;
  }

  /** `validate_manifest`: the collected errors, one text each. */
  method ValidateManifest(k: Clock, m: Manifest, requireBound: bool) returns (errors: seq<string>)
    ensures errors == [] <==> ManifestOk(k, m, requireBound)
  {
    errors := HeaderErrors(k, m.header);
    if |m.runs| != RUN_COUNT {
      return errors + ["run count"];
    }
    var found, markers, runIds := RunsErrors(k, m, requireBound);
    errors := errors + found;
    MarkersAreDistinct(m.header.markerPrefix, m.runs);
    if found == [] { WellFormedIdsDecide(k, m, requireBound); }
    SetSizeTellsDistinct(markers);
    SetSizeTellsDistinct(runIds);
    errors := errors + Unless(|markers| == |set x | x in markers|, "markers not unique");
    errors := errors + Unless(|runIds| == |set x | x in runIds|, "run ids not unique");
  }

  lemma WellFormedIdsDecide(k: Clock, m: Manifest, requireBound: bool)
    requires |m.runs| == RUN_COUNT && RunsOk(k, m, RUN_COUNT, requireBound)
    ensures Distinct(WellFormedIds(m.runs)) <==> Unambiguous(m.runs)
  {
    forall i | 0 <= i < |m.runs| && m.runs[i].runId.Some? ensures IsOpaqueId(m.runs[i].runId.value) {
      assert RunOk(k, m.header.markerPrefix, i + 1, m.runs[i], requireBound);
    }
    IdsDecideAmbiguity(m.runs);
  }

  lemma {:induction false} MarkersAreDistinct(prefix: string, runs: seq<Run>)
    requires |runs| < 100
    ensures Distinct(WellFormedMarkers(prefix, runs))
    ensures forall m | m in WellFormedMarkers(prefix, runs) ::
              exists i | 1 <= i <= |runs| :: MarkerOk(prefix, i, m)
  {
    if runs != [] {
      var n, rest := |runs|, runs[..|runs| - 1];
      MarkersAreDistinct(prefix, rest);
      var init, marker := WellFormedMarkers(prefix, rest), runs[n - 1].marker;
      if MarkerOk(prefix, n, marker) {
        forall m | m in init ensures m != marker {
          var i :| 1 <= i <= n - 1 && MarkerOk(prefix, i, m);
          MarkersDiffer(prefix, i, n, m, marker);
        }
        DistinctSnoc(init, marker);
      }
    }
  }

  lemma UnambiguousSnoc(init: seq<Run>, last: Run)
    ensures Unambiguous(init + [last]) <==>
            Unambiguous(init) && (last.runId.None? || forall i | 0 <= i < |init| :: init[i].runId != last.runId)
  {
    var runs := init + [last];
    assert runs[|init|] == last;
    if Unambiguous(runs) {
      forall i, j | 0 <= i < j < |init| && init[i].runId.Some? && init[j].runId.Some?
        ensures init[i].runId != init[j].runId
      {
        assert runs[i].runId != runs[j].runId;
      }
      forall i | 0 <= i < |init| && last.runId.Some? ensures init[i].runId != last.runId {
        assert runs[i].runId.None? || runs[i].runId != runs[|init|].runId;
      }
    }
  }

  lemma {:induction false} IdsDecideAmbiguity(runs: seq<Run>)
    requires forall i | 0 <= i < |runs| && runs[i].runId.Some? :: IsOpaqueId(runs[i].runId.value)
    ensures forall id :: id in WellFormedIds(runs) <==> exists i | 0 <= i < |runs| :: runs[i].runId == Some(id)
    ensures Distinct(WellFormedIds(runs)) <==> Unambiguous(runs)
  {
    hide IsOpaqueId, Distinct, Unambiguous;
    if runs != [] {
      var rest, last := runs[..|runs| - 1], runs[|runs| - 1];
      IdsDecideAmbiguity(rest);
      assert runs == rest + [last];
      UnambiguousSnoc(rest, last);
      if last.runId.Some? {
        DistinctSnoc(WellFormedIds(rest), last.runId.value);
      } else {
        assert WellFormedIds(runs) == WellFormedIds(rest);
      }
      forall id ensures id in WellFormedIds(runs) <==> exists i | 0 <= i < |runs| :: runs[i].runId == Some(id) {
        if exists i | 0 <= i < |runs| :: runs[i].runId == Some(id) {
          var i :| 0 <= i < |runs| && runs[i].runId == Some(id);
          assert i < |rest| ==> rest[i].runId == Some(id);
        }
      }
    } else {
      NothingAmbiguous();
    }
  }

  lemma NothingAmbiguous()
    ensures Distinct<string>([]) && Unambiguous([])
  {
  }

  // ----- preparing and binding -----

  /** `prepare_manifest`, given the checked candidate, a fresh pilot id and the random
      part of every marker. */
  function Prepare(k: Clock, operator: string, target: Target, pilotId: string, tokens: seq<string>, now: int): Manifest
    requires |tokens| == RUN_COUNT
  {
    Manifest(
      Header(MANIFEST_SCHEMA, pilotId, k.iso(now), Strip(operator), target, Prefix(pilotId)),
      seq(RUN_COUNT, i requires 0 <= i < RUN_COUNT =>
        Run(i + 1, MarkerStart(Prefix(pilotId), i + 1) + tokens[i], None, None)))
  }

  lemma PreparedIsValid(k: Clock, operator: string, target: Target, pilotId: string, tokens: seq<string>, now: int)
    requires ClockOk(k) && !Blank(operator) && TargetOk(target) && IsHex(pilotId, 32)
    requires |tokens| == RUN_COUNT && forall i | 0 <= i < RUN_COUNT :: |tokens[i]| == 32
    ensures ManifestOk(k, Prepare(k, operator, target, pilotId, tokens, now), false)
    ensures BoundOrdinals(Prepare(k, operator, target, pilotId, tokens, now).runs) == {}
  {
    StripKeepsContent(operator);
  }

  /** What a prepared manifest says: the candidate, operator and pilot it was given, and twenty
      unbound runs in order, each with its own random part. */
  lemma PreparedSays(k: Clock, operator: string, target: Target, pilotId: string, tokens: seq<string>, now: int, i: nat)
    requires |tokens| == RUN_COUNT && i < RUN_COUNT
    ensures var m := Prepare(k, operator, target, pilotId, tokens, now);
            && m.header.pilotId == pilotId && m.header.createdAt == k.iso(now) && m.header.operator == Strip(operator)
            && m.header.target == target && m.header.markerPrefix == "KALIV-T022:" + pilotId + ":P:"
            && |m.runs| == 20 && m.runs[i].ordinal == i + 1 && m.runs[i].runId == None && m.runs[i].boundAt == None
            && m.runs[i].marker[|m.runs[i].marker| - |tokens[i]|..] == tokens[i]
  {
  }

  /** What an accepted manifest cannot contain: fewer or more than twenty runs, a run out of
      place, a marker of another pilot or ordinal, two equal markers, two equal run ids, or a
      run with only one of run id and binding time. */
  lemma AcceptedManifest(k: Clock, m: Manifest, requireBound: bool)
    requires ManifestOk(k, m, requireBound)
    ensures |m.runs| == 20 && IsHex(m.header.pilotId, 32) && !Blank(m.header.operator)
    ensures IsHex(m.header.target.gitSha, 40) && IsHex(m.header.target.codeSha, 64) && IsHex(m.header.target.rigReportSha, 64)
    ensures k.validTime(m.header.createdAt)
    ensures forall i | 0 <= i < 20 ::
              var run := m.runs[i];
              && run.ordinal == i + 1 && "KALIV-T022:" + m.header.pilotId + ":P:" <= run.marker
              && (run.runId.Some? <==> run.boundAt.Some?) && (requireBound ==> run.runId.Some?)
              && (run.runId.Some? ==> IsOpaqueId(run.runId.value) && k.validTime(run.boundAt.value))
    ensures forall i, j | 0 <= i < j < 20 ::
              m.runs[i].marker != m.runs[j].marker && (m.runs[i].runId.Some? ==> m.runs[i].runId != m.runs[j].runId)
  {
    hide IsHex, IsOpaqueId, Blank, MarkerOk;
    var prefix := m.header.markerPrefix;
    forall i | 0 <= i < 20 ensures RunOk(k, prefix, i + 1, m.runs[i], requireBound) && prefix <= m.runs[i].marker {
      MarkerPrefix(prefix, i + 1, m.runs[i].marker);
    }
    forall i, j | 0 <= i < j < 20 ensures m.runs[i].marker != m.runs[j].marker {
      MarkersDiffer(prefix, i + 1, j + 1, m.runs[i].marker, m.runs[j].marker);
    }
  }

  lemma MarkerPrefix(prefix: string, ordinal: nat, marker: string)
    requires ordinal < 100 && MarkerOk(prefix, ordinal, marker)
    ensures prefix <= marker
  {
    assert prefix <= MarkerStart(prefix, ordinal);
  }

  /** The ordinals that already carry a run id (`manifest_progress`). */
  function BoundOrdinals(runs: seq<Run>): set<int> {
    set run | run in runs && run.runId.Some? :: run.ordinal
  }

  lemma BoundOrdinalsByIndex(k: Clock, m: Manifest, requireBound: bool)
    requires |m.runs| == RUN_COUNT && RunsOk(k, m, RUN_COUNT, requireBound)
    ensures forall o :: o in BoundOrdinals(m.runs) <==> 1 <= o <= RUN_COUNT && m.runs[o - 1].runId.Some?
  {
    forall o ensures o in BoundOrdinals(m.runs) <==> 1 <= o <= RUN_COUNT && m.runs[o - 1].runId.Some? {
      if o in BoundOrdinals(m.runs) {
        var i :| 0 <= i < RUN_COUNT && m.runs[i].runId.Some? && m.runs[i].ordinal == o;
        assert RunOk(k, m.header.markerPrefix, i + 1, m.runs[i], requireBound);
      } else if 1 <= o <= RUN_COUNT {
        assert RunOk(k, m.header.markerPrefix, o - 1 + 1, m.runs[o - 1], requireBound);
        assert m.runs[o - 1] in m.runs;
      }
    }
  }

  datatype BindError = InvalidManifest | OrdinalOutOfRange | InvalidRunId | OrdinalAlreadyBound | RunIdAlreadyBound

  predicate CanBind(k: Clock, m: Manifest, ordinal: int, runId: string) {
    && ManifestOk(k, m, false)
    && 1 <= ordinal <= RUN_COUNT
    && IsOpaqueId(runId)
    && m.runs[ordinal - 1].runId == None
    && forall i | 0 <= i < RUN_COUNT :: m.runs[i].runId != Some(runId)
  }

  /** The manifest after an accepted binding. */
  function Bound(k: Clock, m: Manifest, ordinal: int, runId: string, now: int): Manifest
    requires 1 <= ordinal <= |m.runs|
  {
    var run := m.runs[ordinal - 1];
    m.(runs := m.runs[ordinal - 1 := run.(runId := Some(runId), boundAt := Some(k.iso(now)))])
  }

  class LiveManifest {
    const header: Header
    var runs: seq<Run>

    constructor (m: Manifest)
      ensures View() == m
    {
      header, runs := m.header, m.runs;
    }

    function View(): Manifest
      reads this`runs
    {
      Manifest(header, runs)
    }

    /** `bind_run`. */
    method BindRun(k: Clock, ordinal: int, runId: string, now: int) returns (r: Result<(), BindError>)
      modifies this`runs
      ensures r.Ok? <==> CanBind(k, old(View()), ordinal, runId)
      ensures View() == if r.Ok? then Bound(k, old(View()), ordinal, runId, now) else old(View())
    {
      var errors := ValidateManifest(k, View(), false);
      if errors != [] { return Err(InvalidManifest); }
      if ordinal < 1 || ordinal > RUN_COUNT { return Err(OrdinalOutOfRange); }
      if !IsOpaqueId(runId) { return Err(InvalidRunId); }
      var existing := set item | item in runs && item.runId.Some? && item.runId.value != "" :: item.runId.value;
      var target := runs[ordinal - 1];
      if target.runId.Some? { return Err(OrdinalAlreadyBound); }
      if runId in existing { return Err(RunIdAlreadyBound); }
      assert forall i | 0 <= i < RUN_COUNT :: runs[i] in runs && runs[i].runId != Some(runId);
      runs := runs[ordinal - 1 := target.(runId := Some(runId), boundAt := Some(k.iso(now)))];
      return Ok(());
    }
  }

  // ----- runs of bind calls -----

  datatype Binding = Binding(ordinal: int, runId: string, now: int)

  function BindOne(k: Clock, m: Manifest, b: Binding): Manifest {
    if CanBind(k, m, b.ordinal, b.runId) then Bound(k, m, b.ordinal, b.runId, b.now) else m
  }

  function BindAll(k: Clock, m: Manifest, calls: seq<Binding>): Manifest {
    if calls == [] then m else BindOne(k, BindAll(k, m, calls[..|calls| - 1]), calls[|calls| - 1])
  }

  /** How many of the calls were accepted. */
  function Accepted(k: Clock, m: Manifest, calls: seq<Binding>): nat {
    if calls == [] then 0
    else
      var before := BindAll(k, m, calls[..|calls| - 1]);
      var last := calls[|calls| - 1];
      Accepted(k, m, calls[..|calls| - 1]) + if CanBind(k, before, last.ordinal, last.runId) then 1 else 0
  }

  lemma BindKeepsValid(k: Clock, m: Manifest, b: Binding)
    requires ClockOk(k) && ManifestOk(k, m, false)
    ensures ManifestOk(k, BindOne(k, m, b), false)
    ensures BindOne(k, m, b).header == m.header
    ensures forall i | 0 <= i < RUN_COUNT && m.runs[i].runId.Some? :: BindOne(k, m, b).runs[i] == m.runs[i]
    ensures forall i | 0 <= i < RUN_COUNT :: BindOne(k, m, b).runs[i].marker == m.runs[i].marker
    ensures BoundOrdinals(BindOne(k, m, b).runs) ==
            BoundOrdinals(m.runs) + if CanBind(k, m, b.ordinal, b.runId) then {b.ordinal} else {}
    ensures CanBind(k, m, b.ordinal, b.runId) ==> b.ordinal !in BoundOrdinals(m.runs)
    ensures CanBind(k, m, b.ordinal, b.runId) ==>
              var run := BindOne(k, m, b).runs[b.ordinal - 1];
              run.ordinal == b.ordinal && run.runId == Some(b.runId) && run.boundAt == Some(k.iso(b.now))
  {
    hide MarkerOk, IsOpaqueId, HeaderOk;
    var next := BindOne(k, m, b);
    BoundOrdinalsByIndex(k, m, false);
    if CanBind(k, m, b.ordinal, b.runId) {
      assert forall i | 0 <= i < RUN_COUNT :: i != b.ordinal - 1 ==> next.runs[i] == m.runs[i];
      forall i | 0 <= i < RUN_COUNT ensures RunOk(k, m.header.markerPrefix, i + 1, next.runs[i], false) {
        assert RunOk(k, m.header.markerPrefix, i + 1, m.runs[i], false);
      }
      BoundOrdinalsByIndex(k, next, false);
    }
  }

  /** Whatever is called, the manifest stays valid, what was bound stays bound as it
      was, every accepted call binds one more ordinal, and the twentieth makes the
      manifest fully bound. */
  lemma {:induction false} AnyBindingRun(k: Clock, m: Manifest, calls: seq<Binding>)
    requires ClockOk(k) && ManifestOk(k, m, false)
    ensures var after := BindAll(k, m, calls);
            && ManifestOk(k, after, false)
            && after.header == m.header
            && (forall i | 0 <= i < RUN_COUNT :: after.runs[i].marker == m.runs[i].marker)
            && (forall i | 0 <= i < RUN_COUNT && m.runs[i].runId.Some? :: after.runs[i] == m.runs[i])
            && |BoundOrdinals(after.runs)| == |BoundOrdinals(m.runs)| + Accepted(k, m, calls)
            && |BoundOrdinals(after.runs)| <= RUN_COUNT
            && (ManifestOk(k, after, true) <==> |BoundOrdinals(m.runs)| + Accepted(k, m, calls) == RUN_COUNT)
  {
    var after := BindAll(k, m, calls);
    if calls != [] {
      AnyBindingRun(k, m, calls[..|calls| - 1]);
      BindKeepsValid(k, BindAll(k, m, calls[..|calls| - 1]), calls[|calls| - 1]);
    }
    FullyBoundByCount(k, after);
  }

  lemma FullyBoundByCount(k: Clock, m: Manifest)
    requires ManifestOk(k, m, false)
    ensures |BoundOrdinals(m.runs)| <= RUN_COUNT
    ensures |BoundOrdinals(m.runs)| == RUN_COUNT <==> ManifestOk(k, m, true)
  {
    BoundOrdinalsByIndex(k, m, false);
    CountTo(BoundOrdinals(m.runs), RUN_COUNT);
    if |BoundOrdinals(m.runs)| == RUN_COUNT {
      forall i | 0 <= i < RUN_COUNT ensures RunOk(k, m.header.markerPrefix, i + 1, m.runs[i], true) {
        assert RunOk(k, m.header.markerPrefix, i + 1, m.runs[i], false);
        assert i + 1 in BoundOrdinals(m.runs);
      }
    }
    if ManifestOk(k, m, true) {
      forall o | 1 <= o <= RUN_COUNT ensures o in BoundOrdinals(m.runs) {
        assert RunOk(k, m.header.markerPrefix, o - 1 + 1, m.runs[o - 1], true);
      }
    }
  }

  lemma {:induction false} CountTo(s: set<int>, n: nat)
    requires forall o | o in s :: 1 <= o <= n
    ensures |s| <= n
    ensures |s| == n <==> forall o | 1 <= o <= n :: o in s
  {
    if n == 0 {
      assert forall o :: o !in s;
    } else {
      CountTo(s - {n}, n - 1);
      if n in s {
        assert |s| == |s - {n}| + 1;
        assert forall o | 1 <= o <= n - 1 :: o in s - {n} <==> o in s;
      } else {
        assert s - {n} == s;
      }
    }
  }
}
