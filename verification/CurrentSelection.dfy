/** `MRBodyCurrentProfileStore`: the marker file that pins one installed package by its
    digest, and what can be read through it. */
module CurrentSelection {
  import opened Basics
  import opened Bytes
  import opened Package
  import opened PackageValidator
  import opened PackageBuilder
  import opened PackageRuns
  import opened ProfileStore

  // ----- the marker file -----

  datatype Marker = Marker(bodyId: string, sha: string)

  predicate MarkerOk(m: Marker) {
    IsBodyId(m.bodyId) && IsHex(m.sha, 64)
  }

  const FORMAT := "bodyrig.current_profile"
  const MAX_MARKER := 4096
  const BEFORE_ID := "{\"body_id\":\""
  const BEFORE_SHA := "\",\"format\":\"bodyrig.current_profile\",\"package_sha256\":\""
  const AFTER_SHA := "\",\"version\":1}"

  /** `_canonical_marker_bytes`. The text is plain ASCII, one byte a character. */
  function Canonical(m: Marker): string {
    BEFORE_ID + m.bodyId + BEFORE_SHA + m.sha + AFTER_SHA
  }

  /** A marker read as JSON with exactly the four keys. */
  datatype MarkerJson = MarkerJson(format: string, version: int, bodyId: string, sha: string)

  type Reader = string -> Option<MarkerJson>

  /** The reader reads canonical markers. */
  ghost predicate ReaderOk(read: Reader) {
    forall m: Marker | MarkerOk(m) :: read(Canonical(m)) == Some(MarkerJson(FORMAT, 1, m.bodyId, m.sha))
  }

  /** `_parse_marker_bytes`. */
  function Parse(read: Reader, data: string): Option<Marker> {
    if data == "" || |data| > MAX_MARKER || read(data).None? then None
    else
      var v := read(data).value;
      var m := Marker(v.bodyId, v.sha);
      if v.format != FORMAT || v.version != 1 || !MarkerOk(m) || data != Canonical(m) then None else Some(m)
  }

  /** The parser accepts exactly the canonical texts of well-formed markers. */
  lemma ParseExactly(read: Reader, data: string, m: Marker)
    requires ReaderOk(read)
    ensures Parse(read, data) == Some(m) <==> MarkerOk(m) && data == Canonical(m)
  {
    hide IsBodyId, IsHex;
    if MarkerOk(m) && data == Canonical(m) {
      assert |data| == |BEFORE_ID| + |m.bodyId| + |BEFORE_SHA| + |m.sha| + |AFTER_SHA|;
      MarkerSizes(m);
    }
  }

  lemma MarkerSizes(m: Marker)
    requires MarkerOk(m)
    ensures |m.bodyId| == 31 && |m.sha| == 64
  {
  }

  /** Different markers have different texts. */
  lemma CanonicalIsInjective(a: Marker, b: Marker)
    requires MarkerOk(a) && MarkerOk(b) && Canonical(a) == Canonical(b)
    ensures a == b
  {
    hide MarkerOk;
    MarkerSizes(a);
    MarkerSizes(b);
    var p, q := |BEFORE_ID|, |BEFORE_ID| + 31 + |BEFORE_SHA|;
    assert Canonical(a)[p..p + 31] == a.bodyId && Canonical(b)[p..p + 31] == b.bodyId;
    assert Canonical(a)[q..q + 64] == a.sha && Canonical(b)[q..q + 64] == b.sha;
  }

  // ----- selecting and loading -----

  datatype CurrentError = NotSelected | BadMarker | Stale | LoadFailed(cause: StoreError) | Interrupted | StagedDiffers | ReplaceFailed

  datatype Current = Current(marker: Marker, stored: Stored)

  /** The check on the staged marker before it is committed. */
  predicate MarkerStagedOk(read: Reader, m: Marker, temp: string) {
    |temp| <= MAX_MARKER && Parse(read, temp) == Some(m) && temp == Canonical(m)
  }

  /** What `load_current` returns. */
  ghost function CurrentOf(f: Formats, z: Zip, read: Reader, profiles: map<string, Bytes>, file: Option<string>)
    : Result<Current, CurrentError>
  {
    if file.None? then Err(NotSelected)
    else if |file.value| > MAX_MARKER || Parse(read, file.value).None? then Err(BadMarker)
    else Resolved(f, z, profiles, Parse(read, file.value).value)
  }

  /** The second half of `load_current`: the marker against the store. */
  ghost function Resolved(f: Formats, z: Zip, profiles: map<string, Bytes>, m: Marker): Result<Current, CurrentError> {
    var loaded := Loaded(f, z, profiles, m.bodyId);
    if loaded.Err? then Err(if loaded.error.NotInstalled? then Stale else LoadFailed(loaded.error))
    else if loaded.value.receipt.sha != m.sha then Err(Stale)
    else Ok(Current(m, loaded.value))
  }

  /** A selection succeeds: the package loads, nothing fails, and the staged marker reads
      back as written. */
  ghost predicate SelectOk(f: Formats, z: Zip, read: Reader, profiles: map<string, Bytes>, id: string, faults: Faults<string>) {
    && Loaded(f, z, profiles, id).Ok?
    && !faults.staging && !faults.afterStage.Raise?
    && (var m := MarkerOf(Loaded(f, z, profiles, id).value);
        MarkerStagedOk(read, m, TempAfter(faults.afterStage, Canonical(m))))
    && !faults.afterCheck.Raise? && !faults.replacing
  }

  function MarkerOf(s: Stored): Marker {
    Marker(s.receipt.bodyId, s.receipt.sha)
  }

  /** A renderer-neutral handover of the current package. */
  datatype RuntimeBinding = RuntimeBinding(bodyId: string, name: string, sha: string, payloads: Handed)

  ghost function BindingOf(f: Formats, z: Zip, c: Current): RuntimeBinding
    requires PackageOk(f, z, c.stored.archive, None)
  {
    var files := PackageFiles(f, z, c.stored.archive);
    RuntimeBinding(c.marker.bodyId, c.stored.inspection.name, c.marker.sha,
                   Handed(files[AvatarVrm], files[BodyprintJson], files[ThumbnailPng], PresentMotions(files, MOTIONS)))
  }

  /** What `bind_current_runtime` returns. */
  ghost function BoundOf(f: Formats, z: Zip, read: Reader, profiles: map<string, Bytes>, file: Option<string>)
    : Result<RuntimeBinding, CurrentError>
  {
    var c := CurrentOf(f, z, read, profiles, file);
    if c.Err? then Err(c.error)
    else if !PackageOk(f, z, c.value.stored.archive, None) then Err(LoadFailed(InvalidPackage))
    else Ok(BindingOf(f, z, c.value))
  }

  lemma LoadedIsPackage(f: Formats, z: Zip, profiles: map<string, Bytes>, id: string)
    requires Loaded(f, z, profiles, id).Ok?
    ensures var s := Loaded(f, z, profiles, id).value;
            && id in profiles && s.archive == profiles[id] && PackageOk(f, z, s.archive, Some(id)) && PackageOk(f, z, s.archive, None)
            && s.receipt.bodyId == id && s.receipt.sha == f.digest(s.archive) && IsBodyId(id)
  {
    hide PackageOk, Inspected, IsBodyId, PackageFiles;
    ExpectedIsBodyId(f, z, profiles[id], id);
  }

  class CurrentStore {
    const store: Store
    const read: Reader
    /** The visible marker file and its staged sibling. */
    var file: Option<string>
    var temp: Option<string>

    constructor (store: Store, read: Reader)
      ensures this.store == store && this.read == read && file == None && temp == None
    {
      this.store, this.read, file, temp := store, read, None, None;
    }

    /** `select`. */
    method Select(id: string, faults: Faults<string>) returns (r: Result<Marker, CurrentError>)
      modifies this
      ensures temp == None
      ensures r.Ok? <==> SelectOk(store.f, store.z, read, store.profiles, id, faults)
      ensures r.Err? ==> file == old(file)
      ensures r.Ok? ==>
                && r.value == MarkerOf(Loaded(store.f, store.z, store.profiles, id).value)
                && file == Some(Committed(Canonical(r.value), faults))
    {
      hide Loaded, Canonical, Parse;
      temp := None;
      var loaded := store.Load(id);
      if loaded.Err? { return Err(LoadFailed(loaded.error)); }
      var marker := MarkerOf(loaded.value);
      var desired := Canonical(marker);
      if faults.staging { return Err(CurrentError.Interrupted); }
      temp := Some(desired);
      if faults.afterStage.Tamper? { temp := Some(faults.afterStage.data); }
      if faults.afterStage.Raise? {
        temp := None;
        return Err(CurrentError.Interrupted);
      }
      var staged := temp.value;
      if |staged| > MAX_MARKER || Parse(read, staged) != Some(marker) || staged != desired {
        temp := None;
        return Err(CurrentError.StagedDiffers);
      }
      if faults.afterCheck.Tamper? { temp := Some(faults.afterCheck.data); }
      if faults.afterCheck.Raise? {
        temp := None;
        return Err(CurrentError.Interrupted);
      }
      if faults.replacing {
        temp := None;
        return Err(CurrentError.ReplaceFailed);
      }
      file, temp := temp, None;
      return Ok(marker);
    }

    /** `load_current`. */
    method LoadCurrent() returns (r: Result<Current, CurrentError>)
      ensures r == CurrentOf(store.f, store.z, read, store.profiles, file)
    {
      hide Parse, PackageOk, Inspected, PackageFiles, IsBodyId;
      if file.None? { return Err(NotSelected); }
      if |file.value| > MAX_MARKER { return Err(BadMarker); }
      var marker := Parse(read, file.value);
      if marker.None? { return Err(BadMarker); }
      var loaded := store.Load(marker.value.bodyId);
      if loaded.Err? {
        return Err(if loaded.error.NotInstalled? then Stale else LoadFailed(loaded.error));
      }
      LoadedIsPackage(store.f, store.z, store.profiles, marker.value.bodyId);
      if loaded.value.receipt.bodyId != marker.value.bodyId { return Err(LoadFailed(InvalidPackage)); }
      if loaded.value.receipt.sha != marker.value.sha { return Err(Stale); }
      return Ok(Current(marker.value, loaded.value));
    }

    /** `bind_current_runtime`: reading the payloads of a loaded package cannot fail. */
    method BindCurrentRuntime() returns (r: Result<RuntimeBinding, CurrentError>)
      ensures var c := CurrentOf(store.f, store.z, read, store.profiles, file);
              && (c.Err? ==> r == Err(c.error))
              && (c.Ok? ==> PackageOk(store.f, store.z, c.value.stored.archive, None)
                            && r == Ok(BindingOf(store.f, store.z, c.value)))
      ensures r == BoundOf(store.f, store.z, read, store.profiles, file)
    {
      hide Parse, Inspected, IsBodyId, FilesOk, DirectoryOk, ContentsOk;
      var current := LoadCurrent();
      if current.Err? { return Err(current.error); }
      LoadedIsPackage(store.f, store.z, store.profiles, current.value.marker.bodyId);
      var listing := store.z.unpack(current.value.stored.archive);
      DirectoryFacts(listing.value);
      ContentsFacts(listing.value);
      var files := FilesOf(listing.value);
      RequiredPresent(listing.value);
      var payloads := BindPayloads(files);
      return Ok(RuntimeBinding(current.value.marker.bodyId, current.value.stored.inspection.name, current.value.marker.sha, payloads));
    }
  }

  lemma ContentsFacts(es: seq<Entry>)
    requires ContentsOk(es)
    ensures forall i | 0 <= i < |es| :: es[i].content.Some?
  {
  }

  /** A marker with the digest of package `b` resolves exactly while `b` itself is
      installed. */
  lemma ResolvedExactly(f: Formats, z: Zip, profiles: map<string, Bytes>, m: Marker, b: Bytes)
    requires PackageOk(f, z, b, Some(m.bodyId)) && m.sha == f.digest(b)
    requires m.bodyId in profiles ==> NoCollisions(f.digest, {b, profiles[m.bodyId]})
    ensures var r := Resolved(f, z, profiles, m);
            && (r.Ok? <==> m.bodyId in profiles && profiles[m.bodyId] == b)
            && (r.Ok? ==> r.value.marker == m && r.value.stored.archive == b)
  {
    hide PackageOk, Inspected, PackageFiles, IsBodyId;
    ExpectedIsBodyId(f, z, b, m.bodyId);
    PackageIsSmall(f, z, b, m.bodyId);
    if Loaded(f, z, profiles, m.bodyId).Ok? { LoadedIsPackage(f, z, profiles, m.bodyId); }
  }

  /** A marker that pins package `b` loads exactly while `b` itself is installed: never
      after it was replaced, removed or damaged, and then with those very bytes. */
  lemma PinnedExactly(f: Formats, z: Zip, read: Reader, profiles: map<string, Bytes>, id: string, b: Bytes)
    requires FormatsOk(f) && ReaderOk(read) && PackageOk(f, z, b, Some(id))
    requires id in profiles ==> NoCollisions(f.digest, {b, profiles[id]})
    ensures var r := CurrentOf(f, z, read, profiles, Some(Canonical(Marker(id, f.digest(b)))));
            && (r.Ok? <==> id in profiles && profiles[id] == b)
            && (r.Ok? ==> r.value.marker == Marker(id, f.digest(b)) && r.value.stored.archive == b)
  {
    hide Parse, PackageOk, Resolved, IsBodyId, Canonical, IsHex;
    var m := Marker(id, f.digest(b));
    ExpectedIsBodyId(f, z, b, id);
    ParseExactly(read, Canonical(m), m);
    MarkerIsShort(m);
    ResolvedExactly(f, z, profiles, m, b);
  }

  lemma MarkerIsShort(m: Marker)
    requires MarkerOk(m)
    ensures |Canonical(m)| <= MAX_MARKER
  {
    MarkerSizes(m);
  }

  lemma PackageIsSmall(f: Formats, z: Zip, b: Bytes, id: string)
    requires PackageOk(f, z, b, Some(id))
    ensures |b| <= MAX_ARCHIVE
  {
  }

  /** Selecting pins the installed package: the marker written loads it again. */
  lemma SelectThenLoad(f: Formats, z: Zip, read: Reader, profiles: map<string, Bytes>, id: string, faults: Faults<string>)
    requires FormatsOk(f) && ReaderOk(read)
    requires SelectOk(f, z, read, profiles, id, faults) && !faults.afterCheck.Tamper?
    ensures var m := MarkerOf(Loaded(f, z, profiles, id).value);
            var r := CurrentOf(f, z, read, profiles, Some(Committed(Canonical(m), faults)));
            r.Ok? && r.value.stored.archive == profiles[id]
  {
    hide Parse, PackageOk, Inspected, PackageFiles, IsBodyId, Canonical, Loaded;
    LoadedIsPackage(f, z, profiles, id);
    PinnedExactly(f, z, read, profiles, id, profiles[id]);
  }

  // ----- from the builder to the renderer -----

  /** The binding hands out what the package was built from. */
  ghost predicate HandsOut(f: Formats, x: Inputs, archive: Bytes, b: RuntimeBinding)
    requires x.source.portable.Some?
  {
    && b.bodyId == x.source.id && b.name == x.displayName && b.sha == f.digest(archive)
    && b.payloads.avatar == x.avatar && b.payloads.thumbnail == x.thumbnail
    && Some(b.payloads.bodyprint) == f.bodyprint.write(x.source.portable.value)
    && (forall item :: item in b.payloads.motions <==> item in x.motions)
    && InOrderOf(b.payloads.motions, MOTION_NAMES)
  }

  lemma BuiltIsPackage(f: Formats, z: Zip, x: Inputs)
    requires FormatsOk(f) && ZipOk(z) && InputsOk(x) && BuildOk(f, z, x)
    ensures x.source.portable.Some? && IsBodyId(x.source.id) && MotionsOk(x.motions) && EncodedFiles(f, x).Some?
    ensures var b := Built(f, z, x);
            && PackageOk(f, z, b, Some(x.source.id)) && PackageOk(f, z, b, None)
            && Inspected(f, PackageFiles(f, z, b)).name == x.displayName
  {
    hide ArgumentsOk, EncodedFiles, WithinCaps, FormatsOk, FilesOk, DirectoryOk, ContentsOk, MetadataOk, Inspected, IsBodyId, MotionsOk;
    ArgumentsShape(f, x);
    BuildThenValidate(f, z, x);
    ExpectedIsBodyId(f, z, Built(f, z, x), x.source.id);
  }

  lemma BuiltIsHandedOut(f: Formats, z: Zip, x: Inputs, c: Current)
    requires FormatsOk(f) && ZipOk(z) && InputsOk(x) && BuildOk(f, z, x)
    requires c.stored.archive == Built(f, z, x) && c.stored.inspection.name == x.displayName
    requires c.marker == Marker(x.source.id, f.digest(Built(f, z, x)))
    ensures x.source.portable.Some? && PackageOk(f, z, c.stored.archive, None)
    ensures HandsOut(f, x, Built(f, z, x), BindingOf(f, z, c))
  {
    hide BuildOk, FormatsOk, ZipOk, InputsOk, Built, DirectoryOk, ContentsOk, FilesOk, PackageFiles, Inspected, InOrderOf, IsBodyId,
         MotionsOk, EncodedFiles;
    BuiltIsPackage(f, z, x);
    BuildThenBind(f, z, x, ("", []));
    var files := PackageFiles(f, z, Built(f, z, x));
    forall item ensures item in PresentMotions(files, MOTIONS) <==> item in x.motions { BuildThenBind(f, z, x, item); }
    MotionNames();
    PresentInOrder(files, MOTIONS);
  }

  /** The round trip of the whole system: while a built package is installed and pinned,
      binding succeeds and hands out the avatar, thumbnail, bodyprint and motions it was
      built from, under its id, name and digest. */
  lemma BuildInstallBind(f: Formats, z: Zip, read: Reader, profiles: map<string, Bytes>, x: Inputs)
    requires FormatsOk(f) && ZipOk(z) && ReaderOk(read) && InputsOk(x) && BuildOk(f, z, x)
    requires x.source.id in profiles && profiles[x.source.id] == Built(f, z, x)
    ensures x.source.portable.Some?
    ensures var b := Built(f, z, x);
            var r := BoundOf(f, z, read, profiles, Some(Canonical(Marker(x.source.id, f.digest(b)))));
            r.Ok? && HandsOut(f, x, b, r.value)
  {
    hide BuildOk, FormatsOk, ZipOk, ReaderOk, InputsOk, Built, PackageOk, PackageFiles, Inspected, IsBodyId, HandsOut, Canonical, BindingOf, MotionsOk, EncodedFiles;
    BuiltIsPackage(f, z, x);
    var id, b := x.source.id, Built(f, z, x);
    PinnedExactly(f, z, read, profiles, id, b);
    var c := CurrentOf(f, z, read, profiles, Some(Canonical(Marker(id, f.digest(b)))));
    InspectionOfCurrent(f, z, read, profiles, Some(Canonical(Marker(id, f.digest(b)))));
    BuiltIsHandedOut(f, z, x, c.value);
  }

  lemma InspectionOfCurrent(f: Formats, z: Zip, read: Reader, profiles: map<string, Bytes>, file: Option<string>)
    requires CurrentOf(f, z, read, profiles, file).Ok?
    ensures var s := CurrentOf(f, z, read, profiles, file).value.stored;
            PackageOk(f, z, s.archive, None) && s.inspection == Inspected(f, PackageFiles(f, z, s.archive))
  {
    hide PackageOk, PackageFiles, Inspected, IsBodyId, Parse;
    LoadedIsPackage(f, z, profiles, Parse(read, file.value).value.bodyId);
  }
}
