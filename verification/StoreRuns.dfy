/** Any interleaving of installs, selections, loads and handovers, by any number of objects
    with locks of their own: each operation is a few atomic steps, may stop between any two
    of them, and may find other bytes written into its staged file at any time until it is
    renamed. */
module StoreRuns {
  import opened Basics
  import opened Bytes
  import opened Package
  import opened PackageValidator
  import opened ProfileStore
  import opened CurrentSelection
  import opened RendererHandoff

  datatype Env = Env(f: Formats, z: Zip, read: Reader)

  ghost predicate EnvOk(e: Env) {
    FormatsOk(e.f) && ReaderOk(e.read)
  }

  /** An operation in progress. `staged` and `text` are what its temporary file holds; once
      an avatar has been checked, `late` is what was last written into the file since. */
  datatype Proc =
    | Installing(id: string, archive: Bytes, staged: Bytes) | InstallReady(id: string, staged: Bytes)
    | Selecting(marker: Marker) | MarkerStaged(marker: Marker, text: string) | MarkerReady(marker: Marker, text: string)
    | Loading(marker: Marker) | Delivered(marker: Marker, package: Bytes)
    | Preparing(marker: Marker) | Binding(marker: Marker, avatar: Bytes)
    | AvatarStaged(marker: Marker, avatar: Bytes, staged: Bytes)
    | AvatarReady(marker: Marker, avatar: Bytes, staged: Bytes, late: Option<Bytes>)
    | Done | Failed

  /** The visible files and the operations; also which packages were ever visible, and the
      names of the avatars that were renamed after other bytes had been written into them
      behind their check. */
  datatype World = World(
    profiles: map<string, Bytes>, file: Option<string>, assets: map<string, Bytes>, procs: map<nat, Proc>,
    ghost ever: set<(string, Bytes)>, ghost foreign: set<string>)

  datatype Action =
    | Install(pid: nat, archive: Bytes, expected: Option<string>) | Select(pid: nat, id: string)
    | Load(pid: nat) | Prepare(pid: nat)
    | Advance(pid: nat) | Stop(pid: nat) | WriteBytes(pid: nat, data: Bytes) | WriteText(pid: nat, text: string)

  ghost const EMPTY: World := World(map[], None, map[], map[], {}, {})

  function MarkerIn(e: Env, file: Option<string>): Option<Marker> {
    if file.None? || |file.value| > MAX_MARKER then None else Parse(e.read, file.value)
  }

  /** The first step of a new operation. */
  ghost function Begun(e: Env, w: World, a: Action): Proc {
    match a
    case Install(_, archive, expected) =>
      if Acceptable(e.f, e.z, archive, expected)
      then Installing(InspectionOf(e.f, e.z, archive, expected).bodyId, archive, archive)
      else Failed
    case Select(_, id) =>
      if Loaded(e.f, e.z, w.profiles, id).Ok? then Selecting(MarkerOf(Loaded(e.f, e.z, w.profiles, id).value)) else Failed
    case Load(_) => if MarkerIn(e, w.file).Some? then Loading(MarkerIn(e, w.file).value) else Failed
    case Prepare(_) => if MarkerIn(e, w.file).Some? then Preparing(MarkerIn(e, w.file).value) else Failed
    case _ => Failed
  }

  /** The next step of an operation, as far as it changes no visible file. */
  ghost function Moved(e: Env, w: World, p: Proc): Proc {
    match p
    case Installing(id, archive, staged) =>
      if StagedOk(e.f, e.z, id, archive, staged) then InstallReady(id, staged) else Failed
    case Selecting(m) => MarkerStaged(m, Canonical(m))
    case MarkerStaged(m, text) => if MarkerStagedOk(e.read, m, text) then MarkerReady(m, text) else Failed
    case Loading(m) =>
      var c := Resolved(e.f, e.z, w.profiles, m);
      if c.Ok? then Delivered(m, c.value.stored.archive) else Failed
    case Preparing(m) => Bound(e, w, m)
    case Binding(m, avatar) =>
      var name := FileName(m.bodyId, m.sha);
      if name !in w.assets then AvatarStaged(m, avatar, avatar)
      else if AvatarOk(e.f, avatar, w.assets[name]) then Done else Failed
    case AvatarStaged(m, avatar, staged) => if AvatarOk(e.f, avatar, staged) then AvatarReady(m, avatar, staged, None) else Failed
    case InstallReady(_, _) => Done
    case MarkerReady(_, _) => Done
    case AvatarReady(_, _, _, _) => Done
    case _ => p
  }

  ghost function Bound(e: Env, w: World, m: Marker): Proc {
    var c := Resolved(e.f, e.z, w.profiles, m);
    if c.Ok? && PackageOk(e.f, e.z, c.value.stored.archive, None) then Binding(m, BindingOf(e.f, e.z, c.value).payloads.avatar)
    else Failed
  }

  /** A commit: the one step of an operation that others can see. */
  ghost function Committing(w: World, p: Proc): World {
    match p
    case InstallReady(id, staged) => w.(profiles := w.profiles[id := staged], ever := w.ever + {(id, staged)})
    case MarkerReady(_, text) => w.(file := Some(text))
    case AvatarReady(m, avatar, staged, late) =>
      var name := FileName(m.bodyId, m.sha);
      w.(assets := w.assets[name := staged],
         foreign := if late.Some? && late.value != avatar then w.foreign + {name} else w.foreign - {name})
    case _ => w
  }

  predicate IsBegin(a: Action) {
    a.Install? || a.Select? || a.Load? || a.Prepare?
  }

  /** A write into the temporary file, before or after its check. */
  function Written(p: Proc, a: Action): Proc {
    match p
    case Installing(id, archive, _) => if a.WriteBytes? then Installing(id, archive, a.data) else p
    case InstallReady(id, _) => if a.WriteBytes? then InstallReady(id, a.data) else p
    case AvatarStaged(m, avatar, _) => if a.WriteBytes? then AvatarStaged(m, avatar, a.data) else p
    case AvatarReady(m, avatar, _, _) => if a.WriteBytes? then AvatarReady(m, avatar, a.data, Some(a.data)) else p
    case MarkerStaged(m, _) => if a.WriteText? then MarkerStaged(m, a.text) else p
    case MarkerReady(m, _) => if a.WriteText? then MarkerReady(m, a.text) else p
    case _ => p
  }

  predicate Ended(p: Proc) {
    p.Delivered? || p.Done? || p.Failed?
  }

  ghost function Step(e: Env, w: World, a: Action): World {
    if IsBegin(a) then (if a.pid in w.procs then w else w.(procs := w.procs[a.pid := Begun(e, w, a)]))
    else if a.pid !in w.procs then w
    else
      var p := w.procs[a.pid];
      match a
      case Advance(pid) => Committing(w.(procs := w.procs[pid := Moved(e, w, p)]), p)
      case Stop(pid) => if Ended(p) then w else w.(procs := w.procs[pid := Failed])
      case _ => w.(procs := w.procs[a.pid := Written(p, a)])
  }

  ghost function Run(e: Env, w: World, actions: seq<Action>): World {
    if actions == [] then w else Step(e, Run(e, w, actions[..|actions| - 1]), actions[|actions| - 1])
  }

  /** The archives that installs were given, and what was written into staged files. */
  function Given(actions: seq<Action>): set<Bytes> {
    set a | a in actions && (a.Install? || a.WriteBytes?) :: if a.Install? then a.archive else a.data
  }

  // ----- what every reachable world satisfies -----

  /** The marker names the digest of `b`, a package that was visible under its body id. */
  ghost predicate Pins(e: Env, ever: set<(string, Bytes)>, m: Marker, b: Bytes) {
    (m.bodyId, b) in ever && m.sha == e.f.digest(b)
  }

  /** The bytes are the avatar of the package the marker names. */
  ghost predicate AvatarOf(e: Env, ever: set<(string, Bytes)>, m: Marker, avatar: Bytes) {
    exists b :: Pins(e, ever, m, b) && PackageOk(e.f, e.z, b, None) && avatar == AvatarIn(e.f, e.z, b)
  }

  ghost predicate ProcOk(e: Env, given: set<Bytes>, ever: set<(string, Bytes)>, p: Proc) {
    match p
    case Installing(_, archive, staged) => archive in given && staged in given
    case InstallReady(_, staged) => staged in given
    case Delivered(m, package) => Pins(e, ever, m, package) && PackageOk(e.f, e.z, package, Some(m.bodyId))
    case Binding(m, avatar) => MarkerOk(m) && AvatarOf(e, ever, m, avatar)
    case AvatarStaged(m, avatar, _) => MarkerOk(m) && AvatarOf(e, ever, m, avatar)
    case AvatarReady(m, avatar, staged, late) =>
      MarkerOk(m) && AvatarOf(e, ever, m, avatar) && staged == if late.Some? then late.value else avatar
    case _ => true
  }

  /** The file under this name is the avatar of the package named in it. */
  ghost predicate AssetOk(e: Env, ever: set<(string, Bytes)>, name: string, data: Bytes) {
    exists m :: MarkerOk(m) && name == FileName(m.bodyId, m.sha) && AvatarOf(e, ever, m, data)
  }

  /** Some avatar belongs under this name, and the file holds it unless it is foreign. */
  ghost predicate AssetMarked(e: Env, ever: set<(string, Bytes)>, name: string, data: Bytes, foreign: bool) {
    exists avatar :: AssetOk(e, ever, name, avatar) && (foreign <==> data != avatar)
  }

  ghost predicate WorldOk(e: Env, given: set<Bytes>, w: World) {
    && (forall x | x in w.ever :: x.1 in given)
    && (forall id | id in w.profiles :: (id, w.profiles[id]) in w.ever)
    && (forall name | name in w.assets :: AssetMarked(e, w.ever, name, w.assets[name], name in w.foreign))
    && forall pid | pid in w.procs :: ProcOk(e, given, w.ever, w.procs[pid])
  }

  lemma AvatarStays(e: Env, ever: set<(string, Bytes)>, more: set<(string, Bytes)>, m: Marker, avatar: Bytes)
    requires ever <= more && AvatarOf(e, ever, m, avatar)
    ensures AvatarOf(e, more, m, avatar)
  {
    hide PackageOk, AvatarIn;
    var b :| Pins(e, ever, m, b) && PackageOk(e.f, e.z, b, None) && avatar == AvatarIn(e.f, e.z, b);
    assert Pins(e, more, m, b);
  }

  lemma AssetStays(e: Env, ever: set<(string, Bytes)>, more: set<(string, Bytes)>, name: string, data: Bytes)
    requires ever <= more && AssetOk(e, ever, name, data)
    ensures AssetOk(e, more, name, data)
  {
    hide AvatarOf, MarkerOk, FileName;
    var m :| MarkerOk(m) && name == FileName(m.bodyId, m.sha) && AvatarOf(e, ever, m, data);
    AvatarStays(e, ever, more, m, data);
  }

  lemma MarkedStays(e: Env, ever: set<(string, Bytes)>, more: set<(string, Bytes)>, name: string, data: Bytes, foreign: bool)
    requires ever <= more && AssetMarked(e, ever, name, data, foreign)
    ensures AssetMarked(e, more, name, data, foreign)
  {
    hide AssetOk;
    var avatar :| AssetOk(e, ever, name, avatar) && (foreign <==> data != avatar);
    AssetStays(e, ever, more, name, avatar);
  }

  lemma ProcStaysOk(e: Env, given: set<Bytes>, ever: set<(string, Bytes)>, more: set<(string, Bytes)>, p: Proc)
    requires ever <= more && ProcOk(e, given, ever, p)
    ensures ProcOk(e, given, more, p)
  {
    hide PackageOk, MarkerOk, AvatarOf;
    if p.Binding? || p.AvatarStaged? || p.AvatarReady? { AvatarStays(e, ever, more, p.marker, p.avatar); }
  }

  lemma BegunOk(e: Env, given: set<Bytes>, w: World, a: Action)
    requires IsBegin(a) && (a.Install? ==> a.archive in given)
    ensures ProcOk(e, given, w.ever, Begun(e, w, a))
  {
    hide Acceptable, Loaded, Parse;
  }

  lemma WrittenOk(e: Env, given: set<Bytes>, ever: set<(string, Bytes)>, p: Proc, a: Action)
    requires ProcOk(e, given, ever, p) && (a.WriteBytes? ==> a.data in given)
    ensures ProcOk(e, given, ever, Written(p, a)) && ProcOk(e, given, ever, Failed)
  {
    hide PackageOk, AvatarOf, MarkerOk, Pins;
  }

  lemma ResolvedPins(e: Env, w: World, m: Marker)
    requires EnvOk(e) && Resolved(e.f, e.z, w.profiles, m).Ok?
    requires forall id | id in w.profiles :: (id, w.profiles[id]) in w.ever
    ensures var c := Resolved(e.f, e.z, w.profiles, m).value;
            && m.bodyId in w.profiles && c.stored.archive == w.profiles[m.bodyId] && Pins(e, w.ever, m, c.stored.archive)
            && MarkerOk(m) && PackageOk(e.f, e.z, c.stored.archive, None)
            && PackageOk(e.f, e.z, c.stored.archive, Some(m.bodyId))
            && AvatarOf(e, w.ever, m, BindingOf(e.f, e.z, c).payloads.avatar)
  {
    hide PackageOk, Inspected, PackageFiles, IsBodyId, MarkerOk, BindingOf, AvatarIn;
    BindingIsSound(e.f, e.z, w.profiles, m);
    LoadedIsPackage(e.f, e.z, w.profiles, m.bodyId);
    var c := Resolved(e.f, e.z, w.profiles, m).value;
    assert Pins(e, w.ever, m, c.stored.archive);
  }

  lemma MovedOk(e: Env, given: set<Bytes>, w: World, p: Proc)
    requires EnvOk(e) && WorldOk(e, given, w) && ProcOk(e, given, w.ever, p)
    ensures ProcOk(e, given, w.ever, Moved(e, w, p))
  {
    hide PackageOk, Inspected, PackageFiles, IsBodyId, MarkerOk, BindingOf, AvatarIn, Canonical, Parse, Resolved, AvatarOf, EnvOk;
    if (p.Loading? || p.Preparing?) && Resolved(e.f, e.z, w.profiles, p.marker).Ok? {
      ResolvedPins(e, w, p.marker);
    }
  }

  lemma ReadyAsset(e: Env, given: set<Bytes>, ever: set<(string, Bytes)>, p: Proc)
    requires p.AvatarReady? && ProcOk(e, given, ever, p)
    ensures AssetMarked(e, ever, FileName(p.marker.bodyId, p.marker.sha), p.staged, p.late.Some? && p.late.value != p.avatar)
  {
    hide MarkerOk, AvatarOf, FileName;
    assert AssetOk(e, ever, FileName(p.marker.bodyId, p.marker.sha), p.avatar);
  }

  lemma CommitOk(e: Env, given: set<Bytes>, w: World, p: Proc)
    requires WorldOk(e, given, w) && ProcOk(e, given, w.ever, p)
    ensures WorldOk(e, given, Committing(w, p))
  {
    hide PackageOk, FileName, AssetMarked, AvatarOf, MarkerOk;
    var next := Committing(w, p);
    forall pid | pid in w.procs ensures ProcOk(e, given, next.ever, w.procs[pid]) {
      ProcStaysOk(e, given, w.ever, next.ever, w.procs[pid]);
    }
    if p.AvatarReady? { ReadyAsset(e, given, w.ever, p); }
    forall name | name in w.assets ensures AssetMarked(e, next.ever, name, w.assets[name], name in w.foreign) {
      MarkedStays(e, w.ever, next.ever, name, w.assets[name], name in w.foreign);
    }
  }

  lemma StepOk(e: Env, given: set<Bytes>, w: World, a: Action)
    requires EnvOk(e) && WorldOk(e, given, w)
    requires (a.Install? ==> a.archive in given) && (a.WriteBytes? ==> a.data in given)
    ensures WorldOk(e, given, Step(e, w, a))
  {
    hide ProcOk, AssetMarked, Begun, Moved, EnvOk, Committing, Written;
    if IsBegin(a) {
      BegunOk(e, given, w, a);
    } else if a.pid in w.procs {
      var p := w.procs[a.pid];
      if a.Advance? {
        MovedOk(e, given, w, p);
        CommitOk(e, given, w.(procs := w.procs[a.pid := Moved(e, w, p)]), p);
      } else {
        WrittenOk(e, given, w.ever, p, a);
      }
    }
  }

  lemma {:induction false} RunOk(e: Env, given: set<Bytes>, actions: seq<Action>)
    requires EnvOk(e) && Given(actions) <= given
    ensures WorldOk(e, given, Run(e, EMPTY, actions))
  {
    hide Step, EnvOk;
    if actions != [] {
      var init, last := actions[..|actions| - 1], actions[|actions| - 1];
      assert actions == init + [last];
      GivenSnoc(init, last);
      RunOk(e, given, init);
      StepOk(e, given, Run(e, EMPTY, init), last);
    }
  }

  lemma GivenSnoc(init: seq<Action>, last: Action)
    ensures Given(init) <= Given(init + [last])
    ensures last.Install? ==> last.archive in Given(init + [last])
    ensures last.WriteBytes? ==> last.data in Given(init + [last])
  {
    var actions := init + [last];
    assert last in actions;
    forall b | b in Given(init) ensures b in Given(actions) {
      var a :| a in init && (a.Install? || a.WriteBytes?) && b == if a.Install? then a.archive else a.data;
      assert a in actions;
    }
  }

  // ----- visible files -----

  /** Only a commit changes a visible file, and only the one it is for; everything else,
      a failure anywhere included, leaves all visible files as they were. */
  lemma OnlyCommitsAreVisible(e: Env, w: World, a: Action)
    ensures var next := Step(e, w, a);
            var p := if a.Advance? && a.pid in w.procs then w.procs[a.pid] else Failed;
            && next.profiles == (if p.InstallReady? then w.profiles[p.id := p.staged] else w.profiles)
            && next.file == (if p.MarkerReady? then Some(p.text) else w.file)
            && next.assets == (if p.AvatarReady? then w.assets[FileName(p.marker.bodyId, p.marker.sha) := p.staged] else w.assets)
  {
    hide Begun, Moved, FileName, Written;
  }

  /** Every package that was ever visible was given to an install or written into the
      staged file of one. */
  lemma VisibleWasGiven(e: Env, actions: seq<Action>)
    requires EnvOk(e)
    ensures var w := Run(e, EMPTY, actions);
            && (forall x | x in w.ever :: x.1 in Given(actions))
            && (forall id | id in w.profiles :: w.profiles[id] in Given(actions))
  {
    hide Step, AssetMarked, ProcOk, EnvOk;
    RunOk(e, Given(actions), actions);
    var w := Run(e, EMPTY, actions);
    forall id | id in w.profiles ensures w.profiles[id] in Given(actions) {
      assert (id, w.profiles[id]) in w.ever;
    }
  }

  // ----- loads -----

  /** A load reads the marker that is in the file. */
  lemma LoadReadsTheFile(e: Env, w: World, pid: nat, m: Marker)
    requires ReaderOk(e.read) && pid !in w.procs
    ensures Step(e, w, Load(pid)).procs[pid] == Loading(m) <==> MarkerOk(m) && w.file == Some(Canonical(m))
  {
    hide Canonical, Parse, MarkerOk;
    if w.file.Some? {
      ParseExactly(e.read, w.file.value, m);
      if MarkerOk(m) { MarkerIsShort(m); }
    }
  }

  /** When a load has read a marker that names the digest of package `b`, it delivers
      exactly if `b` itself is installed at that moment, and then delivers `b`; whatever
      has been put in its place in between is refused. */
  lemma LoadStepExactly(e: Env, actions: seq<Action>, pid: nat, m: Marker, b: Bytes)
    requires EnvOk(e) && NoCollisions(e.f.digest, Given(actions) + {b})
    requires var w := Run(e, EMPTY, actions); pid in w.procs && w.procs[pid] == Loading(m)
    requires PackageOk(e.f, e.z, b, Some(m.bodyId)) && m.sha == e.f.digest(b)
    ensures var w := Run(e, EMPTY, actions);
            Step(e, w, Advance(pid)) ==
            w.(procs := w.procs[pid := if m.bodyId in w.profiles && w.profiles[m.bodyId] == b then Delivered(m, b) else Failed])
  {
    hide PackageOk, Resolved, EnvOk, Given, Run;
    VisibleWasGiven(e, actions);
    ResolvedExactly(e.f, e.z, Run(e, EMPTY, actions).profiles, m, b);
  }

  /** Whatever interleaves, and whatever is written into staged files, a delivered package
      is valid for the marker's body id, was installed under it, and is the only one given
      to the store that has the pinned digest. */
  lemma DeliveredIsPinned(e: Env, actions: seq<Action>, pid: nat, b: Bytes)
    requires EnvOk(e) && NoCollisions(e.f.digest, Given(actions))
    requires var w := Run(e, EMPTY, actions); pid in w.procs && w.procs[pid].Delivered?
    ensures var w := Run(e, EMPTY, actions);
            var p := w.procs[pid];
            && (p.marker.bodyId, p.package) in w.ever && PackageOk(e.f, e.z, p.package, Some(p.marker.bodyId))
            && (Pins(e, w.ever, p.marker, b) <==> b == p.package)
            && (b in Given(actions) ==> (e.f.digest(b) == p.marker.sha <==> b == p.package))
  {
    hide Step, PackageOk, AssetMarked, EnvOk;
    RunOk(e, Given(actions), actions);
    var w := Run(e, EMPTY, actions);
    assert ProcOk(e, Given(actions), w.ever, w.procs[pid]);
    var x := (w.procs[pid].marker.bodyId, w.procs[pid].package);
    assert x in w.ever && x.1 in Given(actions);
    if Pins(e, w.ever, w.procs[pid].marker, b) {
      var y := (w.procs[pid].marker.bodyId, b);
      assert y in w.ever && y.1 in Given(actions);
    }
  }

  // ----- renderer staging -----

  /** Only one avatar belongs under a name. */
  lemma NameFixesBytes(e: Env, given: set<Bytes>, ever: set<(string, Bytes)>, name: string, a: Bytes, b: Bytes)
    requires NoCollisions(e.f.digest, given) && forall x | x in ever :: x.1 in given
    requires AssetOk(e, ever, name, a) && AssetOk(e, ever, name, b)
    ensures a == b
  {
    hide PackageOk, MarkerOk, FileName, AvatarIn;
    var m :| MarkerOk(m) && name == FileName(m.bodyId, m.sha) && AvatarOf(e, ever, m, a);
    var n :| MarkerOk(n) && name == FileName(n.bodyId, n.sha) && AvatarOf(e, ever, n, b);
    NameIsInjective(m, n);
    var p :| Pins(e, ever, m, p) && PackageOk(e.f, e.z, p, None) && a == AvatarIn(e.f, e.z, p);
    var q :| Pins(e, ever, n, q) && PackageOk(e.f, e.z, q, None) && b == AvatarIn(e.f, e.z, q);
    assert (m.bodyId, p) in ever && (n.bodyId, q) in ever;
    assert (m.bodyId, p).1 in given && (n.bodyId, q).1 in given;
    assert p == q;
  }

  /** A visible avatar file is the avatar of the package named in it exactly when no other
      bytes were written behind the check of the staged file it was renamed from. */
  lemma AvatarExactly(e: Env, given: set<Bytes>, w: World, name: string)
    requires WorldOk(e, given, w) && NoCollisions(e.f.digest, given) && name in w.assets
    ensures AssetOk(e, w.ever, name, w.assets[name]) <==> name !in w.foreign
  {
    hide AssetOk, ProcOk;
    assert AssetMarked(e, w.ever, name, w.assets[name], name in w.foreign);
    var avatar :| AssetOk(e, w.ever, name, avatar) && (name in w.foreign <==> w.assets[name] != avatar);
    if AssetOk(e, w.ever, name, w.assets[name]) { NameFixesBytes(e, given, w.ever, name, avatar, w.assets[name]); }
  }

  lemma {:induction false} NamesStay(e: Env, actions: seq<Action>, n: nat)
    requires n <= |actions|
    ensures var early, late := Run(e, EMPTY, actions[..n]), Run(e, EMPTY, actions);
            early.ever <= late.ever && early.assets.Keys <= late.assets.Keys
    decreases |actions|
  {
    hide Begun, Moved, FileName, Written;
    if n < |actions| {
      var init := actions[..|actions| - 1];
      assert init[..n] == actions[..n];
      NamesStay(e, init, n);
      OnlyCommitsAreVisible(e, Run(e, EMPTY, init), actions[|actions| - 1]);
    } else {
      assert actions[..n] == actions;
    }
  }

  /** Renderer staging is write-once: however many handovers race, a visible avatar file
      stays visible, and between any two instants at which it is not foreign it has the
      same bytes, those of the package named in it; it has them at no other instant. */
  lemma StagingIsWriteOnce(e: Env, actions: seq<Action>, n: nat, name: string)
    requires EnvOk(e) && NoCollisions(e.f.digest, Given(actions)) && n <= |actions|
    requires name in Run(e, EMPTY, actions[..n]).assets
    ensures var early, late := Run(e, EMPTY, actions[..n]), Run(e, EMPTY, actions);
            && name in late.assets
            && (AssetOk(e, late.ever, name, late.assets[name]) <==> name !in late.foreign)
            && (name !in early.foreign ==> (late.assets[name] == early.assets[name] <==> name !in late.foreign))
  {
    hide Step, EnvOk, AssetOk, WorldOk;
    var given, early, late := Given(actions), Run(e, EMPTY, actions[..n]), Run(e, EMPTY, actions);
    NamesStay(e, actions, n);
    RunOk(e, given, actions);
    GivenPrefix(actions, n);
    RunOk(e, given, actions[..n]);
    AvatarExactly(e, given, late, name);
    AvatarExactly(e, given, early, name);
    if name !in early.foreign {
      AssetStays(e, early.ever, late.ever, name, early.assets[name]);
      EverIsGiven(e, given, late);
      if name !in late.foreign { NameFixesBytes(e, given, late.ever, name, early.assets[name], late.assets[name]); }
    }
  }

  lemma EverIsGiven(e: Env, given: set<Bytes>, w: World)
    requires WorldOk(e, given, w)
    ensures forall x | x in w.ever :: x.1 in given
  {
  }

  lemma GivenPrefix(actions: seq<Action>, n: nat)
    requires n <= |actions|
    ensures Given(actions[..n]) <= Given(actions)
  {
    forall b | b in Given(actions[..n]) ensures b in Given(actions) {
      var a :| a in actions[..n] && (a.Install? || a.WriteBytes?) && b == if a.Install? then a.archive else a.data;
      assert a in actions;
    }
  }

  /** Action `k` writes into a staged avatar behind its check. */
  ghost predicate WritesLate(e: Env, actions: seq<Action>, k: nat)
    requires k < |actions|
  {
    var w := Run(e, EMPTY, actions[..k]);
    actions[k].WriteBytes? && actions[k].pid in w.procs && w.procs[actions[k].pid].AvatarReady?
  }

  /** No avatar was written to behind its check. */
  ghost predicate Quiet(w: World) {
    w.foreign == {} && forall pid | pid in w.procs && w.procs[pid].AvatarReady? :: w.procs[pid].late.None?
  }

  lemma NewlyReady(e: Env, w: World, a: Action, p: Proc)
    ensures Moved(e, w, p).AvatarReady? ==> Moved(e, w, p).late.None?
    ensures !Begun(e, w, a).AvatarReady?
  {
    hide Acceptable, Loaded, MarkerIn, StagedOk, MarkerStagedOk, Resolved, AvatarOk, FileName, Canonical, PackageOk, BindingOf;
  }

  lemma QuietStep(e: Env, w: World, a: Action)
    requires Quiet(w) && !(a.WriteBytes? && a.pid in w.procs && w.procs[a.pid].AvatarReady?)
    ensures Quiet(Step(e, w, a))
  {
    hide Begun, Moved, FileName;
    NewlyReady(e, w, a, if a.pid in w.procs then w.procs[a.pid] else Failed);
  }

  /** Without such a write no file is ever foreign. */
  lemma {:induction false} QuietRun(e: Env, actions: seq<Action>)
    requires forall k | 0 <= k < |actions| :: !WritesLate(e, actions, k)
    ensures Quiet(Run(e, EMPTY, actions))
  {
    hide Step;
    if actions != [] {
      var n := |actions| - 1;
      var init := actions[..n];
      forall k | 0 <= k < n ensures !WritesLate(e, init, k) {
        assert init[..k] == actions[..k];
        assert !WritesLate(e, actions, k);
      }
      QuietRun(e, init);
      assert !WritesLate(e, actions, n);
      QuietStep(e, Run(e, EMPTY, init), actions[n]);
    }
  }

  /** So without such a write every avatar file that becomes visible keeps its bytes for
      ever. */
  lemma QuietStagingIsWriteOnce(e: Env, actions: seq<Action>, n: nat, name: string)
    requires EnvOk(e) && NoCollisions(e.f.digest, Given(actions)) && n <= |actions|
    requires forall k | 0 <= k < |actions| :: !WritesLate(e, actions, k)
    requires name in Run(e, EMPTY, actions[..n]).assets
    ensures var early, late := Run(e, EMPTY, actions[..n]), Run(e, EMPTY, actions);
            && name in late.assets && late.assets[name] == early.assets[name]
            && AssetOk(e, late.ever, name, late.assets[name])
  {
    hide Step, EnvOk, AssetOk, Given;
    forall k | 0 <= k < n ensures !WritesLate(e, actions[..n], k) {
      assert actions[..n][..k] == actions[..k];
      assert !WritesLate(e, actions, k);
    }
    QuietRun(e, actions[..n]);
    QuietRun(e, actions);
    StagingIsWriteOnce(e, actions, n, name);
  }
}
