# ModelRig: verified models of the evidence journal and the body runtime

ModelRig keeps two kinds of promises. Its write-pilot scripts collect evidence that a human
operator can later hand over as proof: a manifest of twenty marked runs, a hash-chained
journal of seven negative cases, and a forensic check of the run ledger. Its `bodyrig`
package turns tracked video into a reusable body: gestures cut out of wrist motion, a
`.mrbody` package that is built, validated, stored, selected and handed to a renderer, and a
runtime that drives a mouth, a face and a body from ordered events.

This project models that logic in Dafny and proves what it promises. Each module follows one
source component:

- `JournalStore`, `JournalCases`, `CaseRecorder`, `JournalRuns`, `CaseIndex`: the journal,
  its fold into cases, the three recording calls, and every run of them.
- `Manifest`, `PositiveRuns`: the twenty runs, their binding, and crash and resume.
- `NegativeEvidence`, `Finalization`, `OperatorContracts`, `CallHistory`: the strict document,
  its compilation, why the operator's own checks are exactly what it demands, and what it says
  about the values passed to the recording calls.
- `Forensics`: ordered-event matching with exactly-once counts.
- `Runtime`, `RuntimeHistory`, `RuntimeFields`: the event machine, and what its state means in
  terms of its history alone.
- `SpeechTracks`, `WavEnvelope`, `FaceMixer`, `BodyMotion`, `Scheduler`, `RenderWire`,
  `EmbodimentRuns`: from speech tracks and profiles to a frame, and when that fits the wire.
- `Landmarks`, `Gestures`, `Segmentation`, `GestureFacts`, `GestureMeaning`, `GestureList`:
  torso-relative landmarks, wrist speeds, gesture candidates, what they say about the recording,
  and the package validator's gesture clauses.
- `Bytes`, `Png`, `Glb`: the two byte-level chunk parsers and the grammars they decide.
- `Package`, `PackageValidator`, `PackageBuilder`, `PackageRuns`: the `.mrbody` package.
- `ProfileStore`, `CurrentSelection`, `RendererHandoff`, `StoreRuns`: staged writes, the
  pinned selection, renderer staging, and any interleaving of them.
- `Assumptions`: what is assumed of digests and readers can be met.
- `Basics`, `Numbers`: what they share.

`dafny verify dfyconfig.toml` checks the whole project.

## How the program is modelled

An object whose methods update its fields is a class (`Journal`, `LiveManifest`, `Ceremony`,
`BodyRigRuntime`, `EmbodimentScheduler`, `Stream`, `Store`, `CurrentStore`, `Handoff`); its
methods are tied to a function of the old state, and the properties are proved about that
function over whole runs. A loop that updates variables is a method with invariants. Where
several processes or objects interleave, each operation is a sequence of atomic steps and the
theorems quantify over every sequence of steps.

Some things are parameters, each with an assumption that the theorems name where they need it:

- SHA-256: a function whose results have the right shape (`ShaShaped`, `IsDigest`,
  `FormatsOk`). No theorem assumes that it never collides. Where a collision would matter, the
  theorem asks for none among the finitely many byte strings, rows or gestures it is about
  (`NoCollisions`, `NoCollision`, `NoCollisionIn`, `SameTextAsBound`), or its condition names
  the collision (`HashTaken`). `Assumptions.HypothesesCanBeMet` gives such a digest for the
  byte strings of any run.
- JSON: what is written reads back (`Faithful`, `RoundTrips`, `ReaderOk`). The marker file's
  canonical text is written out in full.
- ZIP: what is packed comes out again (`ZipOk`); an archive is the list of its entries.
- CRC-32: an arbitrary function.
- `sqrt`: the square root over the reals (`IsSqrt`); `sin`: some function within -1..1.
- Clocks, random tokens, fresh ids, failures and short reads are arguments.

## Where the code falls short of the obvious claim

- A journal entry checked against an older copy of the log can make the journal unreadable
  for good: `JournalRuns.LateAppend` gives the exact condition, and
  `JournalRuns.OverlappingFinishesPoison` the run in which two processes finish one case.
- After a death between the two writes of one recorded run, the ceremony can never be
  resumed: `PositiveRuns.LostAttestationIsFinal`.
- A ceremony that was stopped after its green start and before its first run cannot be started
  again until its observations are moved away: `PositiveRuns.CeremonyContinues`.
- Two overlapping calls that begin one case leave a readable journal that the operator's
  index refuses for good: `CaseIndex.OverlappingBegins`; `CaseIndex.LateBegin` gives the exact
  condition.
- The last offset of an audio envelope can lie beyond its duration:
  `WavEnvelope.LastOffsetCanExceedDuration`. It never does for a sample rate and window length
  in milliseconds if and only if their product is below 1000 or a multiple of 1000:
  `WavEnvelope.LastOffsetExactly`.
- A package with an observed gesture frequency above 600 (up to 1000) passes the package
  validator and renders, but its frames cannot be encoded: `EmbodimentRuns.BusyPackageIsRefused`
  is such a package, `EmbodimentRuns.PackageFitsExactly` the exact condition.
- Moving the camera can change normalized coordinates when the shoulder and hip widths cross
  the 1e-6 cut: `Landmarks.NarrowBodyStrays` is such a body and view,
  `Landmarks.TorsoIsInvariant` the exact condition.
- A staged file that is changed after its last check and before its renaming is committed as
  changed: `ProfileStore.InstallCommitsExactly`, `RendererHandoff.HandoverCommitsExactly`. Even
  then a load delivers only the pinned package (`StoreRuns.DeliveredIsPinned`), and
  `StoreRuns.StagingIsWriteOnce` says which avatar files are affected.

## Model

| member | source | states |
|---|---|---|
| JournalStore.Rows | scripts/agent3_write_pilot_journal_store.py:120-165 | reading succeeds exactly when every row carries the next sequence number, its predecessor's hash, a JSON object, a valid time and its own hash; on failure the error is the first broken row's |
| JournalStore.SharedHashSharedHistory | scripts/agent3_write_pilot_journal_store.py:46-66 | two sound chains without a collision between them that contain one record hash in common have it at the same place and agree on every record up to it |
| JournalStore.SameTipSameJournal | scripts/agent3_write_pilot_journal_store.py:120-165 | two journals that pass verification, do not collide and end in the same hash are equal record by record, payloads compared as parsed |
| JournalStore.AppendKeepsLinks | scripts/agent3_write_pilot_journal_store.py:192-235 | appending the next row keeps the chain sound, leaves every earlier record, and reads back as exactly the record asked for |
| JournalStore.NextHashIsFresh | scripts/agent3_write_pilot_journal_store.py:192-235 | the unique-hash rule refuses a new row exactly when an earlier row of different contents has its hash: the new contents themselves are always different |
| JournalStore.Journal.constructor | scripts/agent3_write_pilot_journal_store.py:238-273 | a new journal is one sound initialization record with the pilot id and the manifest digest |
| JournalStore.Journal.Append | scripts/agent3_write_pilot_journal_store.py:192-235 | an append re-verifies the chain, adds exactly one linked row or changes nothing, and says when each happens |
| JournalStore.SerializedAppends | scripts/agent3_write_pilot_journal_store.py:192-235 | any number of appends from any number of writers keeps the chain sound and every earlier row, and records every request in order |
| JournalCases.State | scripts/agent3_write_pilot_journal_store.py:276-303 | the fold succeeds exactly when the log starts with the right initialization record, every case id is 32 hex digits and every case's own records are a prefix of started, observed (one or more), finished; it returns those cases |
| JournalCases.LifecycleStep | scripts/agent3_write_pilot_journal_store.py:287-302 | one more record keeps a life cycle exactly when the case's state accepts its kind, and then advances the case by it |
| JournalCases.BodyStep | scripts/agent3_write_pilot_journal_store.py:284-302 | one more record keeps the whole interleaved log foldable exactly when the one case it names accepts it |
| JournalCases.ProjectPrefix | scripts/agent3_write_pilot_journal_store.py:276-303 | a prefix of the log projects to a prefix of each case |
| JournalCases.CasesSnoc | scripts/agent3_write_pilot_journal_store.py:276-303 | a record changes only the case it names |
| JournalCases.FoldIsPerCase | scripts/agent3_write_pilot_journal_store.py:276-303 | the projection of a case holds nothing of any other case |
| JournalCases.CaseRunsAlone | scripts/agent3_write_pilot_journal_store.py:276-303 | folding only one case's records gives that case exactly as the interleaved log does |
| CaseRecorder.ReadCases | scripts/agent3_write_pilot_journal_store.py:276-303 | a journal is readable exactly when its chain verifies and its records fold |
| CaseRecorder.VerifyJournalBinding | scripts/agent3_write_pilot_journal_store.py:177-189 | binding succeeds exactly when the journal is readable and names this pilot and this manifest text |
| CaseRecorder.BeginCase | scripts/agent3_write_pilot_journal_cases.py:20-69 | a case begins exactly when the listed rules allow it and the new row's hash is not that of other contents; then exactly one started record is added, otherwise nothing changes |
| CaseRecorder.ObserveRequest | scripts/agent3_write_pilot_journal_cases.py:72-107 | an observation is added exactly when the case is open and the new row's hash is not that of other contents, otherwise nothing changes |
| CaseRecorder.FinishCase | scripts/agent3_write_pilot_journal_cases.py:110-134 | a case is finished exactly when it is open and observed and the new row's hash is not that of other contents, otherwise nothing changes |
| CaseRecorder.AppendEntry | scripts/agent3_write_pilot_journal_cases.py:57-69 | on a sound journal the final append fails exactly on a collision with an earlier row |
| JournalRuns.LateAppend | scripts/agent3_write_pilot_journal_store.py:192-235 | a record checked against an older log keeps the journal readable exactly when the case it names still accepts it |
| JournalRuns.StepKeepsRecorded | scripts/agent3_write_pilot_journal_cases.py:20-134 | every accepted or rejected call keeps the journal bound, foldable, at most one case a name, and only ever extends it |
| JournalRuns.AnyRunIsRecorded | scripts/agent3_write_pilot_journal_cases.py:20-134 | any sequence of calls with fresh case ids from a new journal leaves an accepted journal with at most one case a name, never rewriting a row |
| JournalRuns.NewJournalIsRecorded | scripts/agent3_write_pilot_journal_store.py:238-273 | a freshly initialized journal is where such a run starts |
| JournalRuns.OverlappingFinishesPoison | scripts/agent3_write_pilot_journal_cases.py:110-134 | if two processes both check before either appends, two finishes of one case leave a journal that can never be read again |
| JournalRuns.UnreadableForever | scripts/agent3_write_pilot_journal_store.py:276-303 | an append never repairs a journal that no longer folds |
| CaseIndex.Index | scripts/agent3_write_pilot_negative_one_click.py:223-236 | an index by name is built exactly when names are unambiguous, and holds every named case and nothing else |
| CaseIndex.RecordedIsIndexable | scripts/agent3_write_pilot_negative_one_click.py:223-236 | whatever the recorder did, its journal can be indexed |
| CaseIndex.LateBegin | scripts/agent3_write_pilot_journal_cases.py:57-69 | a begin record checked against an older log leaves the journal readable, and indexable exactly when no case of its name has been begun meanwhile |
| CaseIndex.OverlappingBegins | scripts/agent3_write_pilot_journal_cases.py:20-69 | if two processes both check before either appends, two begins leave a readable journal that can be indexed exactly when their names differ; if not, it never can be again |
| CaseIndex.AmbiguousForever | scripts/agent3_write_pilot_negative_one_click.py:223-236 | an append never makes an ambiguous name unambiguous |
| Manifest.ValidateManifest | scripts/agent3_write_pilot_common.py:182-263 | no error exactly when header, all twenty runs, markers and run ids are as the format demands |
| Manifest.AcceptedManifest | scripts/agent3_write_pilot_common.py:182-263 | an accepted manifest has twenty runs in order, with the pilot's markers, all different, no run id twice, and a run id exactly where a binding time is |
| Manifest.RunsErrors | scripts/agent3_write_pilot_common.py:229-258 | the loop's errors, markers and run ids are those of the well-formed runs |
| Manifest.IdsDecideAmbiguity | scripts/agent3_write_pilot_common.py:261-262 | comparing the number of collected ids with the size of their set decides whether two runs share an id |
| Manifest.MarkersDiffer | scripts/agent3_write_pilot_common.py:237-242 | markers of different ordinals are never equal, whatever their random part |
| Basics.SetSizeTellsDistinct | scripts/agent3_write_pilot_common.py:259-262 | a list is as long as its set exactly when it has no duplicates |
| Manifest.PreparedIsValid | scripts/agent3_write_pilot_common.py:266-304 | a freshly prepared manifest is valid with nothing bound |
| Manifest.PreparedSays | scripts/agent3_write_pilot_common.py:266-304 | a prepared manifest carries the pilot, operator, candidate and random parts it was given |
| Manifest.LiveManifest.BindRun | scripts/agent3_write_pilot_common.py:307-322 | binding succeeds exactly when manifest, ordinal and run id allow it, and then changes only that run |
| Manifest.BindKeepsValid | scripts/agent3_write_pilot_common.py:307-322 | a binding keeps the manifest valid, every bound run and every marker, and binds exactly one more ordinal, to the given run id at the given time |
| Manifest.AnyBindingRun | scripts/agent3_write_pilot_common.py:307-322 | any calls, accepted or not, keep the manifest valid and what was bound; it becomes fully bound exactly at the twentieth accepted one |
| Manifest.FullyBoundByCount | scripts/agent3_write_pilot_common.py:242-258 | a valid manifest is fully bound exactly when twenty ordinals are |
| NegativeEvidence.DedupMeaning | scripts/agent3_write_pilot_journal_cases.py:151-155 | the de-duplicated run ids are the same ids, once each, in order of first appearance |
| NegativeEvidence.SortByBegin | scripts/agent3_write_pilot_journal_cases.py:145-147 | cases are put in the order of their start records |
| NegativeEvidence.BeginOrderIsAscending | scripts/agent3_write_pilot_journal_cases.py:145-147 | the order in which the log starts cases is that order, and lists each case once |
| NegativeEvidence.AscendingIsUnique | scripts/agent3_write_pilot_journal_cases.py:145-147 | there is only one such order |
| NegativeEvidence.ValidateNegative | scripts/agent3_write_pilot_common.py:325-441 | no error exactly when the document is well formed, its seven cases are present, and each meets its rule |
| NegativeEvidence.AcceptedDocument | scripts/agent3_write_pilot_common.py:325-441 | an accepted document has each of the seven cases exactly once, with legal fields and the statuses and changes of its kind |
| NegativeEvidence.IndexCases | scripts/agent3_write_pilot_common.py:340-391 | the case loop reports nothing exactly when every case is well formed and names are distinct, and then indexes them |
| NegativeEvidence.IndexDecides | scripts/agent3_write_pilot_common.py:393-440 | checking the index by name is checking the list of cases |
| Finalization.CompileNegative | scripts/agent3_write_pilot_journal_cases.py:137-199 | compilation succeeds exactly when all cases are finished and complete and the document validates, and returns that document |
| Finalization.DocumentIsFaithful | scripts/agent3_write_pilot_journal_cases.py:137-199 | the document lists each finished case once in begin order, each entry reporting that case's own records, its run ids in the order of first observation |
| Finalization.CompiledReports | scripts/agent3_write_pilot_journal_cases.py:148-178 | a compiled entry's statuses and hashes are those of the observations, aligned, and its run ids are the observed ones, each once, in the order of their first observation |
| Finalization.Finalize | scripts/agent3_write_pilot_journal_cases.py:202-208 | finalizing succeeds exactly when manifest, binding and compilation do |
| OperatorContracts.RuleIsContract | scripts/agent3_write_pilot_negative_one_click.py:287-315 | for a recorded case the document rule holds exactly when the wizard's status and delta checks passed |
| OperatorContracts.StatusRuleIsContract | scripts/agent3_write_pilot_negative_one_click.py:287-297 | the status rule of the document and the status check of the wizard agree on every list of statuses |
| OperatorContracts.DocumentOkExactly | scripts/agent3_write_pilot_common.py:325-441 | for recorded cases the whole document is valid exactly when all seven were started and each met its contract |
| OperatorContracts.FinalizeExactly | scripts/agent3_write_pilot_journal_cases.py:202-208 | for every journal the recorder can produce, finalize succeeds if and only if all seven cases are finished and each passed the wizard's checks |
| CallHistory.AcceptedCallRules | scripts/agent3_write_pilot_journal_cases.py:20-134 | what holds of every accepted begin, observation and finish: names, ordinals, ranges, manifest and the state of the case |
| CallHistory.AcceptedIsRecorded | scripts/agent3_write_pilot_journal_cases.py:57-134 | an accepted call moves on only its own case, by a record with exactly that call's name, marker (for a replayed case that of the given ordinal), counts, status, body digest and run id under their keys |
| CallHistory.RunMirrors | scripts/agent3_write_pilot_journal_cases.py:20-134 | after any run the log says, record by record, what the accepted calls were given |
| CallHistory.DocumentTellsCalls | scripts/agent3_write_pilot_journal_cases.py:137-208 | over any run, the finalized document has one entry for each begun case, in the order of the begin calls, with exactly the counts, statuses in order, body digests, run ids and marker that were passed to its calls |
| CallHistory.FinalizeByCalls | scripts/agent3_write_pilot_journal_cases.py:202-208 | after any run, finalize succeeds if and only if the accepted calls began all seven cases, ended each, and were given statuses and counts that meet the rules |
| PositiveRuns.Ceremony.PrepareOrResume | scripts/agent3_write_pilot_positive_one_click.py:432-481 | starting or resuming, with death possible before each file is replaced, does to the files and returns what the decision table says |
| PositiveRuns.Ceremony.RecordRun | scripts/agent3_write_pilot_positive_one_click.py:484-528 | recording a run replaces manifest, then observations; a death in between leaves only the first |
| PositiveRuns.AnyCeremony | scripts/agent3_write_pilot_positive_one_click.py:432-528 | over any starts, records and deaths, observed runs are bound, at most one bound run is missing from the observations, and while a session runs or a run is bound a green report for the manifest's pilot is on disk |
| PositiveRuns.RecordKeepsOk | scripts/agent3_write_pilot_positive_one_click.py:484-528 | a gap opens exactly when the process dies between the two writes |
| PositiveRuns.StartKeepsOk | scripts/agent3_write_pilot_positive_one_click.py:432-481 | starting or resuming keeps the files consistent |
| PositiveRuns.ResumeExactly | scripts/agent3_write_pilot_positive_one_click.py:376-402 | files can be picked up exactly when the candidate matches and, with nothing bound, the new preflight is green and no observations exist, or else the kept report is green for this pilot and exactly the bound runs are attested |
| PositiveRuns.StepKeepsReport | scripts/agent3_write_pilot_preflight.py:416-437 | no start or record loses the green report of a running or bound ceremony |
| PositiveRuns.RestartExactly | scripts/agent3_write_pilot_positive_one_click.py:432-481 | in any reachable situation a new start for the running session's candidate succeeds exactly if a run is bound, and then returns that session and changes no file |
| PositiveRuns.UndisturbedCeremony | scripts/agent3_write_pilot_positive_one_click.py:432-528 | a green start and records that all succeed leave the manifest with exactly those ordinals bound, its observations and a green report |
| PositiveRuns.CeremonyContinues | scripts/agent3_write_pilot_positive_one_click.py:432-528 | from empty files, after a green start and records that all succeed, a new start continues with exactly what was left if there was a record, and is refused if there was none |
| PositiveRuns.LostAttestationIsFinal | scripts/agent3_write_pilot_positive_one_click.py:329-337 | once a bound run was not attested, nothing resumes and no file changes again |
| Forensics.OrderedContains | scripts/agent3_write_pilot_forensics.py:107-114 | true exactly when the required list is a subsequence |
| Forensics.IndexFrom | scripts/agent3_write_pilot_forensics.py:107-114 | the first position at or after the start, if any |
| Forensics.GreedyStep | scripts/agent3_write_pilot_forensics.py:107-114 | taking the first match never overtakes any other embedding |
| Forensics.EventErrors | scripts/agent3_write_pilot_forensics.py:189-208 | no error exactly when the chain is contained, no forbidden event occurs and the five events occur once |
| Forensics.EventOneExactly | scripts/agent3_write_pilot_forensics.py:144-148 | an event is found exactly when it is the only one of its kind and has a payload |
| Forensics.AcceptedRunIsOrdered | scripts/agent3_write_pilot_forensics.py:189-208 | an accepted run has its five events once each in that order, with a policy decision between approval and step start, after creation, a policy decision and the request for confirmation, and none of denial, expiry, cancellation, late completion or failure |
| Runtime.BodyRigRuntime.constructor | bodyrig/runtime.py:62-79 | a new runtime is idle with sequence -1 and nothing cancelled |
| Runtime.BodyRigRuntime.AcceptSequence | bodyrig/runtime.py:96-103 | a number is taken exactly when it is larger than the last; otherwise nothing changes |
| Runtime.BodyRigRuntime.ApplyState | bodyrig/runtime.py:105-113 | with a fresh number a known state is stored, any state but speaking clears the gesture, and the snapshot is returned; otherwise nothing but the number changes |
| Runtime.BodyRigRuntime.ApplyExpressionPlan | bodyrig/runtime.py:115-164 | state, gesture, gaze, emotion and energy are stored in that order up to the first bad one; what was stored before it stays |
| Runtime.BodyRigRuntime.StartSpeech | bodyrig/runtime.py:166-174 | a non-empty utterance that was never cancelled becomes active and speaking; any other is rejected |
| Runtime.BodyRigRuntime.AcceptSpeechFrame | bodyrig/runtime.py:176-187 | a speech frame is live exactly when its utterance is active and not cancelled; nothing but the number changes |
| Runtime.BodyRigRuntime.EndSpeech | bodyrig/runtime.py:189-198 | ending the active utterance makes the runtime idle, ending a cancelled one changes nothing, ending any other is rejected |
| Runtime.BodyRigRuntime.Cancel | bodyrig/runtime.py:200-229 | each scope cancels what it covers: the named utterance, the gesture, or everything that is active; an unknown scope is rejected |
| Runtime.BodyRigRuntime.SetHealth | bodyrig/runtime.py:231-238 | a known health value is stored, and the value error also sets the error state; any other is rejected |
| RuntimeHistory.SequenceIsRecord | bodyrig/runtime.py:96-103 | the stored number is the largest accepted so far, and an event is fresh exactly when it exceeds it |
| RuntimeHistory.OrderingRule | bodyrig/runtime.py:96-103 | a stale or negative number changes nothing and is rejected; any other is stored even if its call is rejected |
| RuntimeHistory.EveryRunInRange | bodyrig/runtime.py:96-238 | over every run all fields stay in range, the cancelled set only grows and never contains the active utterance |
| RuntimeHistory.RejectionFootprint | bodyrig/runtime.py:115-164 | a rejected call changes only the sequence number, except a plan, which may change only its own fields |
| RuntimeHistory.ActiveByMeaning | bodyrig/runtime.py:166-229 | the step-by-step history of the active utterance means: some fresh start not ended, cancelled or replaced since |
| RuntimeHistory.CancelledByMeaning | bodyrig/runtime.py:200-229 | an utterance is cancelled exactly when some fresh cancel named it or covered it while active |
| RuntimeHistory.TraceTheorem | bodyrig/runtime.py:96-238 | for every history the active utterance and the cancelled set are what the history alone determines |
| RuntimeFields.StateNamesExactly | bodyrig/runtime.py:13-20 | each state is read from exactly its own name |
| RuntimeFields.PlanWrites | bodyrig/runtime.py:115-164 | what an expression plan writes to each field before its first bad part, and when it is accepted |
| RuntimeFields.FieldTheorem | bodyrig/runtime.py:105-238 | over every history, state, gesture, gaze, emotion, intensity, energy and health are each what the last call in order that wrote them wrote, rejected plans as far as they got; the writes are stated from the calls alone |
| RuntimeFields.OutcomeTheorem | bodyrig/runtime.py:96-238 | over every history, which call is rejected and which speech frame is live follows from the calls alone |
| SpeechTracks.BisectRight | bodyrig/voicerig_adapter.py:40-49 | splits sorted offsets into those at or before the instant and those after |
| SpeechTracks.Sample | bodyrig/voicerig_adapter.py:40-49 | the binary search returns what a linear scan does: closed before the first frame and after the end, otherwise the latest frame |
| SpeechTracks.ScanMeaning | bodyrig/voicerig_adapter.py:40-49 | the scan returns the frame with the largest offset at or before the instant |
| SpeechTracks.TimedTrack | bodyrig/voicerig_adapter.py:68-141 | a timed track is built exactly from frames with strictly increasing offsets inside the duration and legal weights, and holds them |
| SpeechTracks.TimedTrackOk | bodyrig/voicerig_adapter.py:68-141 | such a track has increasing offsets, mouth values and weights within 0..1 and no offset beyond the duration |
| SpeechTracks.TrackKeepsTiming | bodyrig/voicerig_adapter.py:84-141 | a built track keeps the supplied offsets, visemes, weights and mouth values; a missing mouth value is the largest weight |
| SpeechTracks.MaxWeightIsUnit | bodyrig/voicerig_adapter.py:116-124 | a mouth value taken from the weights is their largest and within 0..1 |
| SpeechTracks.SampleOk | bodyrig/voicerig_adapter.py:40-49 | every sample is a frame of the track or closed, and within range |
| WavEnvelope.WindowsPartition | bodyrig/voicerig_adapter.py:190-195 | the windows, glued together, are exactly the declared samples; none is empty |
| WavEnvelope.EnvelopeTrack | bodyrig/voicerig_adapter.py:144-245 | an envelope is built exactly for accepted audio and headers, from the smoothed energies of all windows |
| WavEnvelope.SmoothedIsUnit | bodyrig/voicerig_adapter.py:199-211 | the smoothed value lies in 0..1 before its clamp |
| WavEnvelope.EnergyAdds | bodyrig/voicerig_adapter.py:190-198 | energy is the sum of squares: x*x of one sample, and additive over pieces |
| WavEnvelope.RmsMeaning | bodyrig/voicerig_adapter.py:190-198 | the root mean square, squared and times the number of samples, is the energy |
| WavEnvelope.MiddleWindowsFollow | bodyrig/voicerig_adapter.py:199-211 | between five and a hundred percent of the peak the gate opens in proportion, and the mouth is 0.72 of it and 0.28 of what it was |
| WavEnvelope.QuietWindowsDecay | bodyrig/voicerig_adapter.py:203-205 | at or below five percent of the peak the value falls by the factor 0.28 |
| WavEnvelope.LoudestWindowOpens | bodyrig/voicerig_adapter.py:203-205 | in the loudest window the value reaches at least 0.72 |
| WavEnvelope.ScalingChangesNothing | bodyrig/voicerig_adapter.py:190-211 | scaling all samples by a positive factor leaves every frame as it was |
| WavEnvelope.EnvelopeTrackOk | bodyrig/voicerig_adapter.py:199-245 | an envelope is a legal track |
| WavEnvelope.EnvelopeFollows | bodyrig/voicerig_adapter.py:199-213 | frame by frame the offset is that of the window, and the mouth follows from the one before by how loud the window is |
| WavEnvelope.DurationMeaning | bodyrig/voicerig_adapter.py:213-216 | the duration is the exact one rounded to the nearest millisecond and at least one |
| WavEnvelope.LastOffsetWithinDuration | bodyrig/voicerig_adapter.py:190-213 | if a window is a whole number of sample frames, or shorter than one, the last offset is within the duration |
| WavEnvelope.LastOffsetExactly | bodyrig/voicerig_adapter.py:190-213 | for a sample rate and window length the last offset of every WAV is within its duration if and only if rate*window is below 1000 or a multiple of 1000 |
| WavEnvelope.LastOffsetCanExceedDuration | bodyrig/voicerig_adapter.py:190-213 | an accepted WAV for which it is not: 3081 frames at 11025 Hz with 20 ms windows |
| WavEnvelope.OffsetLead | bodyrig/voicerig_adapter.py:190-213 | offset i runs ahead of the true time by less than i*1000/rate milliseconds |
| FaceMixer.BlinkIsUnit | bodyrig/face_mixer.py:202-220 | a blink value lies in 0..1 |
| FaceMixer.LitInsidePulse | bodyrig/face_mixer.py:202-220 | the eye moves exactly strictly inside the pulse |
| FaceMixer.OnePulsePerPeriod | bodyrig/face_mixer.py:202-220 | any window of one period has exactly pulse-1 non-zero milliseconds, wherever it starts |
| FaceMixer.LitFromStart | bodyrig/face_mixer.py:202-220 | from the start of a period these are the first pulse-1 milliseconds after its start: one pulse |
| FaceMixer.AtMostTwoPerSecond | bodyrig/face_mixer.py:183-195 | the same point of two blinks is at least half a second apart, for every rate |
| FaceMixer.EyesAgree | bodyrig/face_mixer.py:183-220 | the two rendered eye channels are equal at every instant if and only if the two cadences have one period, after rounding and clamping, and one place in it at instant zero; otherwise some instant tells them apart |
| FaceMixer.ChannelsOk | bodyrig/face_mixer.py:232-271 | the rendered channels are the fixed names in order, with values in 0..1 and known sources |
| FaceMixer.RenderFace | bodyrig/face_mixer.py:232-271 | the loop builds exactly those channels |
| FaceMixer.NewMixerOk | bodyrig/face_mixer.py:118-177 | a mixer that is built has positive rates and legal priors |
| FaceMixer.ProfileTells | bodyrig/face_mixer.py:140-166 | each expression's mean and coverage and each eye's rate come from their own evidence, if there is enough of it |
| FaceMixer.CadenceFollowsRate | bodyrig/face_mixer.py:183-195 | an eye blinks at its observed rate to within half a millisecond a period, between 500 ms and 15 s; never at rate zero, at the generic period without evidence |
| FaceMixer.EmotionShows | bodyrig/face_mixer.py:82-112 | each emotion moves its own features in proportion to its intensity, unknown ones none |
| FaceMixer.PriorsShift | bodyrig/face_mixer.py:222-230 | a mean above one half strengthens a feature, one below weakens it, by at most 30 percent; one half or no coverage changes nothing |
| FaceMixer.BlinkIsSymmetric | bodyrig/face_mixer.py:202-220 | a blink opens as it closed and is complete in the middle of its pulse |
| FaceMixer.DigestRanges | bodyrig/scheduler.py:70-75 | phases lie in 0..1 and the generic period in 3300..5199 ms for every session |
| BodyMotion.ActivityScaleRange | bodyrig/body_motion_mixer.py:61-66 | activity scales lie in 0.55..1.45 |
| BodyMotion.ActivityScaleGrows | bodyrig/body_motion_mixer.py:61-66 | more activity never makes a smaller scale |
| BodyMotion.ActivityScaleValues | bodyrig/body_motion_mixer.py:61-66 | no activity gives 0.55 and one unit gives 1 |
| BodyMotion.PostureHintRange | bodyrig/body_motion_mixer.py:69-72 | posture hints lie in -1..1 and keep what is already there |
| BodyMotion.NewMixerOk | bodyrig/body_motion_mixer.py:78-153 | a mixer that is built has scales and hints in range |
| BodyMotion.MixerTells | bodyrig/body_motion_mixer.py:120-153 | where each number of a usable package goes, and that nothing is taken of one that is not |
| BodyMotion.ResolutionOk | bodyrig/body_motion_mixer.py:163-186 | a resolved gesture is one of the package's, from a known source |
| BodyMotion.RefusedExactly | bodyrig/body_motion_mixer.py:163-186 | a cue is refused exactly when it names a replay the package does not have |
| BodyMotion.ResolutionFollows | bodyrig/body_motion_mixer.py:163-186 | an explicit cue is replayed as it is, any other cue of a usable package by the gesture drawn for it, and otherwise nothing is replayed |
| Scheduler.GenericEyeIsPlain | bodyrig/scheduler.py:125-134 | for one session and bodyprint, mixer and scheduler draw the same phase and period, an eye without evidence shows exactly the scheduler's own blink at every instant, and a face without evidence leaves the blink of the frame as it was |
| Scheduler.EmbodimentScheduler.AttachSpeech | bodyrig/scheduler.py:106-111 | a track is attached unless its start is negative or its utterance was cancelled |
| Scheduler.EmbodimentScheduler.CancelUtterance | bodyrig/scheduler.py:113-117 | cancelling forgets the track and remembers the utterance |
| Scheduler.EmbodimentScheduler.Render | bodyrig/scheduler.py:169-270 | rendering returns the frame, or the error, that snapshot, instant and attached tracks determine |
| Scheduler.NewConfigOk | bodyrig/scheduler.py:63-104 | a scheduler that is built has usable phases and mixers |
| Scheduler.AttachedMeaning | bodyrig/scheduler.py:106-117 | after any calls an utterance has the track attached last, unless it was ever cancelled; a cancelled one has none |
| RenderWire.ParseList | bodyrig/render_frame.py:76-126 | a list is accepted exactly when it has at most 32 legal entries with distinct ids, and decodes to them |
| RenderWire.FromMapping | bodyrig/render_frame.py:214-395 | a payload is accepted exactly when every field is legal, and decodes field by field |
| RenderWire.ToMapping | bodyrig/render_frame.py:153-211 | a frame is encoded exactly when it is legal |
| RenderWire.ListRoundTrip | bodyrig/render_frame.py:76-126 | an encoded list is accepted exactly when its pairs are legal, and decodes to them |
| RenderWire.LegalExactly | bodyrig/render_frame.py:153-395 | an encoded frame is accepted exactly when the frame is legal, and then decodes to the same frame |
| RenderWire.EncodedKeyByKey | bodyrig/render_frame.py:153-207 | every key of an encoding carries its own field of the frame |
| RenderWire.DecodedKeyByKey | bodyrig/render_frame.py:210-395 | every field of a decoded frame comes from its own key |
| RenderWire.AcceptedIsLegal | bodyrig/render_frame.py:214-395 | whatever is accepted decodes to a legal frame, which survives another trip |
| EmbodimentRuns.CancelledNeverSounds | bodyrig/scheduler.py:169-190 | once the runtime cancelled an utterance, no later frame depends on that utterance's track, even if the scheduler was not told |
| EmbodimentRuns.MouthFollowsTrack | bodyrig/scheduler.py:169-190 | the mouth is shut exactly while no attached, uncancelled track of the active utterance of a speaking body has begun; otherwise it is the latest frame of that track at that offset, closed before the first and after the duration |
| EmbodimentRuns.FrameRepeats | bodyrig/scheduler.py:169-270 | a frame repeats the snapshot's state, gesture, gaze target, emotion, intensity and energy, the mouth of the instant and the profiles' values |
| EmbodimentRuns.FrameShowsTheFace | bodyrig/scheduler.py:205-225 | with a face profile the frame carries its seven channels in order and blinks with the eye that is further closed |
| EmbodimentRuns.SwayFollows | bodyrig/scheduler.py:136-156 | head sway is two fixed waves times how lively the snapshot is: more energy, more sway, and the states in order from error up to idle |
| EmbodimentRuns.GazeFollows | bodyrig/scheduler.py:158-167 | gaze is off without a target, otherwise 0.9 but for 360 of every 7100 milliseconds in which it rises from 0.35 |
| EmbodimentRuns.FrameFitsExactly | bodyrig/scheduler.py:136-270 | a rendered frame is wire-legal exactly when strings, profile ids, frequency and sounding visemes are within the wire's limits |
| EmbodimentRuns.PackageFitsExactly | bodyrig/_fingerprint_impl.py:652-658 | with a validated package and all else within the limits, a rendered frame is wire-legal if and only if the package is unusable for motion or its gesture frequency is at most 600.0000005, though the validator admits 1000 |
| EmbodimentRuns.BusyPackageIsRefused | bodyrig/body_motion_mixer.py:78-153 | a package of 700 gestures a minute passes the metric ranges, renders, and its frame cannot be encoded |
| EmbodimentRuns.RunsFitTheWire | bodyrig/render_frame.py:153-395 | after any history of runtime events such a frame encodes, is accepted and decodes to itself |
| EmbodimentRuns.RenderFailsExactly | bodyrig/scheduler.py:169-270 | for a matching snapshot rendering fails exactly on a replay cue the package does not have |
| Landmarks.NormalizedFrames | bodyrig/_fingerprint_impl.py:274-295 | the loop keeps exactly the frames with a usable torso, normalized by it |
| Landmarks.CenterMeaning | bodyrig/_fingerprint_impl.py:224-234 | the centre is halfway between the hips, else halfway between the shoulders, else the mean of all landmarks |
| Landmarks.SpanMeaning | bodyrig/_fingerprint_impl.py:241-246 | the span is the largest difference of two landmarks along either image axis |
| Landmarks.ScaleMeaning | bodyrig/_fingerprint_impl.py:235-250 | the scale is the larger known width over a millionth, else the span, and a torso needs one over a millionth |
| Landmarks.NormalizedMeaning | bodyrig/_fingerprint_impl.py:254-271 | a normalized coordinate is the distance from the centre in torso lengths, to within half a millionth |
| Landmarks.CenterMoves | bodyrig/_fingerprint_impl.py:224-234 | the torso centre follows a translation and zoom of all landmarks, whichever fallback applies |
| Landmarks.ScaleMovesExactly | bodyrig/_fingerprint_impl.py:235-251 | the torso scale follows the zoom exactly when the pair distance stays on its side of the cut, or equals the span |
| Landmarks.TorsoIsInvariant | bodyrig/_fingerprint_impl.py:224-271 | torso-relative coordinates are unchanged by moving and zooming exactly under that condition (the centre itself never changes) |
| Landmarks.NarrowBodyStrays | bodyrig/_fingerprint_impl.py:235-251 | a body with shoulders two millionths apart, zoomed to a quarter, changes its scale rule, and every point off the centre gets other relative coordinates |
| Landmarks.TimelineIsInvariant | bodyrig/_fingerprint_impl.py:274-295 | a timeline in which every frame is moved and zoomed on its own normalizes to the same frames but for the recorded scale |
| Gestures.NormalizedIsTimeline | bodyrig/_fingerprint_impl.py:274-295 | normalized frames of validated tracking have increasing timestamps and confidences in 0..1 |
| Gestures.SeriesSpeed | bodyrig/_fingerprint_impl.py:298-320 | a speed is produced exactly for a frame that is tracked and directly follows a tracked frame, with that distance over that time |
| Gestures.ActiveMeaning | bodyrig/_fingerprint_impl.py:401-403 | active instants ascend, and each is a tracked frame right after a tracked frame |
| Gestures.GroupByGap | bodyrig/_fingerprint_impl.py:406-411 | the loop cuts the instants into connected groups that no two neighbours could join |
| Gestures.PartitionIsUnique | bodyrig/_fingerprint_impl.py:406-411 | there is only one such partition |
| Segmentation.SegmentSide | bodyrig/_fingerprint_impl.py:396-442 | one wrist yields the candidates of all its groups, in order |
| Segmentation.StartIsPrecedingFrame | bodyrig/_fingerprint_impl.py:414-415 | the start of a group is the frame right before its first instant; there always is one |
| Segmentation.TrajectoryMeaning | bodyrig/_fingerprint_impl.py:418-424 | a trajectory holds the samples of exactly the frames within its bounds, in order |
| Segmentation.TrajectorySpans | bodyrig/_fingerprint_impl.py:418-426 | between two frames with a wrist it has at least two samples and runs from the one to the other |
| GestureFacts.CandidateIsGesture | bodyrig/_fingerprint_impl.py:412-426 | for every group of active instants the fallback start and the short-trajectory check never apply: only the minimum duration decides, and what results runs from one tracked frame to a later one, with at least two samples in order and its own content id |
| GestureFacts.SideGesturesOk | bodyrig/_fingerprint_impl.py:396-442 | gestures of one wrist start and end at tracked frames and never overlap |
| GestureFacts.SideDurationsFit | bodyrig/_fingerprint_impl.py:396-442 | together they last no longer than the timeline |
| GestureMeaning.ActiveExactly | bodyrig/_fingerprint_impl.py:298-403 | an instant is active exactly when it is the stamp of a frame whose wrist, like that of the frame before, is tracked, and which it reached at the threshold speed or faster: distance times 1000000 is at least threshold times elapsed microseconds |
| GestureMeaning.BurstIsGroup | bodyrig/_fingerprint_impl.py:404-411 | the groups are exactly the bursts: instants with no pause beyond the gap inside and none within the gap outside |
| GestureMeaning.SideGesturesExactly | bodyrig/_fingerprint_impl.py:396-442 | the gestures of a wrist are exactly one for each burst that, counted from the frame before, lasts the minimum: with its start, end, samples in order, mean confidence and id |
| GestureMeaning.FastIsCovered | bodyrig/_fingerprint_impl.py:396-442 | every fast frame lies in a gesture of its side, unless its burst counted from the frame before is shorter than the minimum |
| GestureList.SegmentGestures | bodyrig/_fingerprint_impl.py:392-443 | the result is sorted by start, side and id, and holds exactly one gesture for each long enough burst of fast movement of either wrist |
| GestureList.ListTells | bodyrig/_fingerprint_impl.py:392-443 | any list of both wrists' gestures is exactly one gesture for each long enough burst, in frames, distances and times |
| GestureList.SortedIsUnique | bodyrig/_fingerprint_impl.py:443 | there is only one such order |
| GestureList.SameSideFollows | bodyrig/_fingerprint_impl.py:392-443 | in the result, of two gestures of one side the first ends before the second starts |
| GestureList.IdsDistinct | bodyrig/_fingerprint_impl.py:379-389 | two segmented gestures have different ids exactly when the digests of their contents differ |
| GestureList.ContentsDiffer | bodyrig/_fingerprint_impl.py:379-443 | in a segmented list contents always differ, so all ids differ exactly if no two different contents in it share a digest |
| GestureList.CheckGestures | bodyrig/_fingerprint_impl.py:663-708 | the validator's loop accepts exactly the lists its clauses describe |
| GestureList.SegmentedIsValidExactly | bodyrig/_fingerprint_impl.py:663-708 | a segmented list is accepted exactly when every coordinate is within 20 torso lengths and no two different contents in it share a digest |
| GestureList.GesturesIgnoreTheCamera | bodyrig/_fingerprint_impl.py:298-443 | moving and zooming every frame on its own changes neither wrist speeds nor gestures |
| Bytes.BigEndianRoundTrip | bodyrig/mrbody.py:356-362 | four bytes and a 32-bit number determine each other, most significant byte first |
| Bytes.LittleEndianRoundTrip | bodyrig/mrbody.py:295-304 | the same, least significant byte first |
| Png.ValidatePng | bodyrig/mrbody.py:343-382 | the loop ends, stays inside the data, and accepts exactly signature, one 13-byte header with dimensions 1..8192, other chunks and an empty final end, all with right checksums, within the size cap |
| Png.AcceptsExactly | bodyrig/mrbody.py:350-382 | what the loop accepts is exactly that grammar |
| Png.ChunksAreUnique | bodyrig/mrbody.py:351-379 | bytes decompose into chunks in at most one way |
| Glb.ParseGlb | bodyrig/mrbody.py:292-326 | the document of the first chunk is returned exactly for a header with the true length, one JSON chunk, then binary chunks |
| Glb.AcceptsExactly | bodyrig/mrbody.py:298-319 | what the loop accepts is exactly that framing |
| Glb.FramingIsUnique | bodyrig/mrbody.py:298-319 | a file is framed in at most one way |
| Glb.ValidateVrm1 | bodyrig/mrbody.py:329-340 | accepted exactly when framed, within the cap, glTF 2.0 and declared VRM 1.0 |
| Package.ReadEntryBounded | bodyrig/mrbody.py:633-651 | the whole entry is returned exactly when it fits its cap and its declared size; never more than one byte past the cap is held, however short the reads |
| Package.IdentityIsBodyId | bodyrig/mrbody.py:482-498 | an identity read from provenance is a canonical body id named by an identity stage |
| Package.NamesArePaths | bodyrig/mrbody.py:33-50 | the twelve allowed entry names and their roles determine each other |
| PackageValidator.ValidateChecksums | bodyrig/mrbody.py:274-289 | accepted exactly when count, paths, coverage and digests are right |
| PackageValidator.CoverageIsEnough | bodyrig/mrbody.py:274-289 | where all required entries are present, exact coverage and well-formed digests imply the other three checks |
| PackageValidator.ReadContents | bodyrig/mrbody.py:686-693 | contents are read exactly when every entry expands to its declared size; the running total can never exceed the cap |
| PackageValidator.FilesMeaning | bodyrig/mrbody.py:671-693 | with distinct names each path has the contents of its one entry |
| PackageValidator.ValidatePackage | bodyrig/mrbody.py:654-732 | archive bytes are accepted exactly when container, directory, contents, metadata, checksums, assets and identity are right; the verdict does not depend on how reads fall |
| PackageValidator.PackageContains | bodyrig/mrbody.py:604-693 | an accepted archive holds six to twelve plain entries under different allowed names within their caps, no directory, link, device or encrypted entry, the six required ones, a VRM 1.0 avatar and a PNG thumbnail |
| PackageValidator.ChecksumsPin | bodyrig/mrbody.py:694-720 | one checksums file fixes the payload paths and the digest of every payload |
| PackageValidator.CarriedIsBodyId | bodyrig/mrbody.py:654-732 | the inspection is what the files say, and a carried identity is the body id |
| PackageBuilder.ProvenanceCarriesIdentity | bodyrig/mrbody.py:450-498 | the provenance written for an identity carries exactly that identity |
| PackageBuilder.PackedReadsBack | bodyrig/mrbody.py:590-594 | what is packed is a well-formed directory and reads back as the same files |
| PackageBuilder.ChecksumsCover | bodyrig/mrbody.py:549-557 | the checksums written cover and match the payloads |
| PackageBuilder.BuildThenValidate | bodyrig/mrbody.py:514-601 | whatever passes the builder's own checks and caps passes the validator, with the identity, name and metadata that went in |
| PackageRuns.BuildPackage | bodyrig/mrbody.py:514-601 | a package is built exactly when arguments and caps allow it; the self-validation at the end never fails |
| PackageRuns.MotionOrderIsIrrelevant | bodyrig/mrbody.py:537-594 | verdict and bytes do not depend on the order of the motions |
| PackageRuns.BindPayloads | bodyrig/profile_selection.py:336-345 | the payloads handed over are those of the entries, motions in the fixed order |
| PackageRuns.BuildThenBind | bodyrig/profile_selection.py:330-361 | binding a built package hands out exactly the avatar, thumbnail and motions put in, and the encoded bodyprint |
| PackageRuns.PresentInOrder | bodyrig/profile_selection.py:340-345 | the motions that are handed out are in the fixed order |
| ProfileStore.Store.Install | bodyrig/profile_store.py:167-240 | an install succeeds exactly under the stated conditions; on failure no visible file changes, on success exactly one does |
| ProfileStore.Store.Load | bodyrig/profile_store.py:257-273 | a load returns the installed bytes with their receipt exactly when they validate for that body id |
| ProfileStore.InstallCommitsExactly | bodyrig/profile_store.py:204-222 | a successful install re-read the very bytes it was given, and a load then returns their digest exactly when the staged file was not given other bytes between its check and its renaming |
| ProfileStore.InstallThenLoad | bodyrig/profile_store.py:167-273 | what was installed loads again with the same bytes, digest, size, body id and name |
| CurrentSelection.ParseExactly | bodyrig/profile_selection.py:103-155 | a marker is accepted exactly when it is the canonical text of a well-formed marker |
| CurrentSelection.CanonicalIsInjective | bodyrig/profile_selection.py:87-100 | different markers have different texts |
| CurrentSelection.CurrentStore.Select | bodyrig/profile_selection.py:241-305 | selecting writes the loaded package's marker exactly under the stated conditions, otherwise the marker file is as before |
| CurrentSelection.CurrentStore.LoadCurrent | bodyrig/profile_selection.py:307-328 | loading resolves the marker against the store as specified |
| CurrentSelection.CurrentStore.BindCurrentRuntime | bodyrig/profile_selection.py:330-361 | binding succeeds exactly when loading does and hands out the payloads of the loaded package; BuildInstallBind says which they are |
| CurrentSelection.BuildInstallBind | bodyrig/profile_selection.py:307-361 | while a built package is installed and pinned, binding succeeds with its id, name and digest and hands out exactly the avatar, thumbnail, written bodyprint and motions, in the fixed order, that it was built from |
| CurrentSelection.PinnedExactly | bodyrig/profile_selection.py:307-328 | a marker pinning package b loads exactly while b itself is installed, and then with those bytes |
| CurrentSelection.ResolvedExactly | bodyrig/profile_selection.py:307-328 | a marker with the digest of package b resolves exactly while b itself is installed under its body id, and then to b |
| CurrentSelection.SelectThenLoad | bodyrig/profile_selection.py:241-328 | the marker a selection writes loads the package that was selected |
| RendererHandoff.Handoff.PrepareCurrent | bodyrig/renderer_handoff.py:190-295 | a handover changes at most the one file named after the package, and only by a checked, staged write |
| RendererHandoff.NameIsInjective | bodyrig/renderer_handoff.py:205-207 | a staged file's name determines body id and package digest |
| RendererHandoff.HandoverCommitsExactly | bodyrig/renderer_handoff.py:240-280 | a handover adds one name and changes no other file; every later handover of that package succeeds and changes nothing, unless other bytes were written into a new staged file behind its check, and then each is refused as a conflict |
| RendererHandoff.DescriptorTells | bodyrig/renderer_handoff.py:190-240 | a descriptor carries the body id, the package digest, the digest of the avatar and the name of a file that is then there |
| RendererHandoff.BuiltAvatarIsStaged | bodyrig/renderer_handoff.py:190-295 | while a built package is installed and pinned, an undisturbed handover leaves the very avatar it was built from under its name |
| RendererHandoff.BindingIsSound | bodyrig/renderer_handoff.py:190-219 | the avatar of a resolved package is the package's own and passes the checks made on it |
| StoreRuns.OnlyCommitsAreVisible | bodyrig/profile_store.py:204-240 | in any interleaving only a commit changes a visible file, and only its own; a failure changes none |
| StoreRuns.LoadStepExactly | bodyrig/profile_selection.py:307-328 | over every interleaving a load whose marker names the digest of package b delivers exactly if b itself is installed at that moment, and then delivers b; anything put in its place is refused |
| StoreRuns.LoadReadsTheFile | bodyrig/profile_selection.py:307-311 | a load uses the marker that is in the file |
| StoreRuns.DeliveredIsPinned | bodyrig/profile_selection.py:241-328 | over every interleaving, writes into staged files at any moment included, a delivered package is valid, was installed under the pinned body id and is the only one given to the store with the pinned digest |
| StoreRuns.VisibleWasGiven | bodyrig/profile_store.py:167-240 | every package that was ever visible was given to some install or written into its staged file |
| StoreRuns.StagingIsWriteOnce | bodyrig/renderer_handoff.py:190-295 | however many handovers race, a visible avatar file stays visible; it is the avatar of the package named in it, with the same bytes at all such instants, exactly when no other bytes were written behind the check of the staged file it came from |
| StoreRuns.QuietStagingIsWriteOnce | bodyrig/renderer_handoff.py:190-295 | in a run in which no staged avatar is written to behind its check, every visible avatar file keeps its bytes for ever, those of the package named in it |
| Assumptions.HypothesesCanBeMet | bodyrig/profile_store.py:204-240 | for the byte strings of any run there is a digest of 64 hexadecimal digits that the theorems about runs apply to |

## Left out

- Floating point: numbers are reals; Python's `round` is modelled exactly, rounding of single operations is not.
- JSON type confusion: a payload with exactly the expected keys is a record type, anything else is one `Misshapen` or `None` value; `True` as a number, duplicate keys and encodings are part of the reader parameters.
- Exception texts and which of several errors comes first, except where a result type names the error.
- Field-by-field schema checks of provenance strings, bodyprint sections and timestamps are predicates given as parameters.
- Unicode case folding and whitespace beyond ASCII (`casefold`, `strip`): parameters or ASCII only.
- SQLite, ZIP, `wave`, CRC-32 and SHA-256 internals.
- Symlink and file-type checks, directory fsync, and a temporary file that cannot be unlinked.
- Network clients, subprocesses, ADB, screenshots, clipboard, prompts and console output of the operator scripts, and `run_case`, which is a sequence of them.
- Hands and expressions of a tracked frame, posture lean, gesture range and the other profile metrics: means of the quantities modelled here.
- `portable_bodyprint_from_identity` and `validate_identity_bundle`: their results are fields of `PackageBuilder.Source`.
- `shape.py`, `face_behavior.py`, `identity.py` and `tracking.py`: aggregation and content ids, which would add easier members only.
- Physical gates, final gates, the readiness page and validation harnesses: long conjunctions of equality checks.
- `MRBodyProfileStore.install_file`: a bounded read followed by `install`.
- PackageValidator.ValidatePackage: payload sizes are a map by path, not a sorted tuple.
- PackageValidator.CompareChecksums: digests are compared in no particular order.
- CaseIndex.Index: cases are visited in no particular order.
