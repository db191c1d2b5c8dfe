/** `MRBodyRendererHandoff`: staging the current avatar under a name made from the package
    digest. */
module RendererHandoff {
  import opened Basics
  import opened Bytes
  import opened Package
  import opened PackageValidator
  import opened PackageBuilder
  import opened PackageRuns
  import opened ProfileStore
  import opened CurrentSelection
  import Glb

  datatype Descriptor = Descriptor(bodyId: string, sha: string, avatarSha: string, filename: string)

  datatype HandoffError = NoCurrent(cause: CurrentError) | BadDescriptor | Conflict | Interrupted | StagedDiffers | ReplaceFailed

  const SUFFIX := ".avatar.vrm"

  function FileName(id: string, sha: string): string {
    id + "." + sha + SUFFIX
  }

  /** The name determines body id and package digest. */
  lemma NameIsInjective(a: Marker, b: Marker)
    requires MarkerOk(a) && MarkerOk(b) && FileName(a.bodyId, a.sha) == FileName(b.bodyId, b.sha)
    ensures a == b
  {
    hide MarkerOk;
    MarkerSizes(a);
    MarkerSizes(b);
    var n, m := FileName(a.bodyId, a.sha), FileName(b.bodyId, b.sha);
    assert n[..31] == a.bodyId && m[..31] == b.bodyId;
    assert n[32..96] == a.sha && m[32..96] == b.sha;
  }

  /** The checks of `to_mapping`. */
  predicate DescriptorOk(d: Descriptor) {
    IsBodyId(d.bodyId) && IsHex(d.sha, 64) && IsHex(d.avatarSha, 64) && d.filename == FileName(d.bodyId, d.sha)
  }

  function DescriptorOf(f: Formats, b: RuntimeBinding): Descriptor {
    Descriptor(b.bodyId, b.sha, f.digest(b.payloads.avatar), FileName(b.bodyId, b.sha))
  }

  /** The check on a file that should hold `avatar`, already there or just staged. */
  ghost predicate AvatarOk(f: Formats, avatar: Bytes, data: Bytes) {
    |data| <= Glb.AVATAR_LIMIT && data == avatar && f.digest(data) == f.digest(avatar) && Glb.IsVrm1(f.gltf, data)
  }

  /** What the handover does with a binding, the visible files and the faults. */
  ghost function Prepared(f: Formats, assets: map<string, Bytes>, b: RuntimeBinding, faults: Faults<Bytes>)
    : (map<string, Bytes>, Result<Descriptor, HandoffError>)
  {
    var d, avatar := DescriptorOf(f, b), b.payloads.avatar;
    if !DescriptorOk(d) then (assets, Err(BadDescriptor))
    else if d.filename in assets then
      (assets, if AvatarOk(f, avatar, assets[d.filename]) then Ok(d) else Err(Conflict))
    else if faults.staging || faults.afterStage.Raise? then (assets, Err(HandoffError.Interrupted))
    else if !AvatarOk(f, avatar, TempAfter(faults.afterStage, avatar)) then (assets, Err(HandoffError.StagedDiffers))
    else if faults.afterCheck.Raise? then (assets, Err(HandoffError.Interrupted))
    else if faults.replacing then (assets, Err(HandoffError.ReplaceFailed))
    else (assets[d.filename := Committed(avatar, faults)], Ok(d))
  }

  class Handoff {
    const current: CurrentStore
    /** The visible staged avatars, by file name, and the temporary sibling. */
    var assets: map<string, Bytes>
    var temp: Option<Bytes>

    constructor (current: CurrentStore)
      ensures this.current == current && assets == map[] && temp == None
    {
      this.current, assets, temp := current, map[], None;
    }

    /** `prepare_current`. */
    method PrepareCurrent(faults: Faults<Bytes>) returns (r: Result<Descriptor, HandoffError>)
      modifies this
      ensures temp == None
      ensures var c := CurrentOf(current.store.f, current.store.z, current.read, current.store.profiles, current.file);
              && (c.Err? ==> r == Err(NoCurrent(c.error)) && assets == old(assets))
              && (c.Ok? ==> PackageOk(current.store.f, current.store.z, c.value.stored.archive, None)
                            && (assets, r) == Prepared(current.store.f, old(assets),
                                                       BindingOf(current.store.f, current.store.z, c.value), faults))
    {
      hide CurrentOf, PackageOk, BindingOf, DescriptorOk, FileName;
      temp := None;
      var f := current.store.f;
      var bound := current.BindCurrentRuntime();
      if bound.Err? { return Err(NoCurrent(bound.error)); }
      var avatar := bound.value.payloads.avatar;
      var d := Descriptor(bound.value.bodyId, bound.value.sha, f.digest(avatar), FileName(bound.value.bodyId, bound.value.sha));
      if !DescriptorOk(d) { return Err(BadDescriptor); }
      if d.filename in assets {
        var existing := assets[d.filename];
        if |existing| > Glb.AVATAR_LIMIT { return Err(Conflict); }
        if existing != avatar || f.digest(existing) != d.avatarSha { return Err(Conflict); }
        var fine := Glb.ValidateVrm1(f.gltf, existing);
        return if fine then Ok(d) else Err(Conflict);
      }
      if faults.staging { return Err(HandoffError.Interrupted); }
      temp := Some(avatar);
      if faults.afterStage.Tamper? { temp := Some(faults.afterStage.data); }
      if faults.afterStage.Raise? {
        temp := None;
        return Err(HandoffError.Interrupted);
      }
      var staged := temp.value;
      if |staged| > Glb.AVATAR_LIMIT || staged != avatar || f.digest(staged) != d.avatarSha {
        temp := None;
        return Err(HandoffError.StagedDiffers);
      }
      var fine := Glb.ValidateVrm1(f.gltf, staged);
      if !fine {
        temp := None;
        return Err(HandoffError.StagedDiffers);
      }
      if faults.afterCheck.Tamper? { temp := Some(faults.afterCheck.data); }
      if faults.afterCheck.Raise? {
        temp := None;
        return Err(HandoffError.Interrupted);
      }
      if faults.replacing {
        temp := None;
        return Err(HandoffError.ReplaceFailed);
      }
      assets, temp := assets[d.filename := temp.value], None;
      return Ok(d);
    }
  }

  /** A handover that succeeds changes no other file. If other bytes are written into the
      staged file after its check, they become visible; but then every later handover of
      the same package is refused and changes nothing, and it succeeds whenever they are
      not. */
  lemma HandoverCommitsExactly(f: Formats, assets: map<string, Bytes>, b: RuntimeBinding, faults: Faults<Bytes>,
                               again: Faults<Bytes>)
    requires Prepared(f, assets, b, faults).1.Ok?
    ensures var (after, name) := (Prepared(f, assets, b, faults).0, FileName(b.bodyId, b.sha));
            && after.Keys == assets.Keys + {name}
            && (forall other | other in assets :: after[other] == assets[other])
            && Prepared(f, after, b, again) ==
               (after, if name !in assets && faults.afterCheck.Tamper? && faults.afterCheck.data != b.payloads.avatar
                       then Err(Conflict) else Ok(DescriptorOf(f, b)))
  {
    hide FileName, IsBodyId, IsHex;
    var after := Prepared(f, assets, b, faults).0;
    assert AvatarOk(f, b.payloads.avatar, b.payloads.avatar);
    assert FileName(b.bodyId, b.sha) in after;
  }

  /** The avatar inside a package. */
  ghost function AvatarIn(f: Formats, z: Zip, archive: Bytes): Bytes
    requires PackageOk(f, z, archive, None)
  {
    PackageFiles(f, z, archive)[AvatarVrm]
  }

  /** The binding of a resolved package: its marker is well formed, and its avatar is the
      package's and valid. */
  lemma BindingIsSound(f: Formats, z: Zip, profiles: map<string, Bytes>, m: Marker)
    requires FormatsOk(f) && Resolved(f, z, profiles, m).Ok?
    ensures var c := Resolved(f, z, profiles, m).value;
            && PackageOk(f, z, c.stored.archive, Some(m.bodyId)) && PackageOk(f, z, c.stored.archive, None)
            && c.stored.archive == profiles[m.bodyId] && f.digest(c.stored.archive) == m.sha
            && MarkerOk(m)
            && var b := BindingOf(f, z, c);
               b.bodyId == m.bodyId && b.sha == m.sha && b.payloads.avatar == AvatarIn(f, z, c.stored.archive)
               && DescriptorOk(DescriptorOf(f, b)) && AvatarOk(f, b.payloads.avatar, b.payloads.avatar)
  {
    hide Inspected, DirectoryOk, ContentsOk, MetadataOk, ChecksumsMatch, IdentityOk, IsBodyId, IsHex, PresentMotions;
    LoadedIsPackage(f, z, profiles, m.bodyId);
    HexDigests(f, profiles[m.bodyId]);
    var c := Resolved(f, z, profiles, m).value;
    HexDigests(f, BindingOf(f, z, c).payloads.avatar);
  }

  lemma HexDigests(f: Formats, data: Bytes)
    requires FormatsOk(f)
    ensures IsHex(f.digest(data), 64)
  {
  }

  /** What a handover's descriptor says: body id and package digest, the digest of the avatar
      handed out, and the name of a file that is then there. */
  lemma DescriptorTells(f: Formats, assets: map<string, Bytes>, b: RuntimeBinding, faults: Faults<Bytes>)
    requires Prepared(f, assets, b, faults).1.Ok?
    ensures var (after, d) := (Prepared(f, assets, b, faults).0, Prepared(f, assets, b, faults).1.value);
            && d.bodyId == b.bodyId && d.sha == b.sha && d.avatarSha == f.digest(b.payloads.avatar)
            && d.filename == b.bodyId + "." + b.sha + ".avatar.vrm" && d.filename in after
            && (d.filename in assets ==> after == assets && after[d.filename] == b.payloads.avatar)
  {
  }

  lemma UntouchedIsStaged(f: Formats, assets: map<string, Bytes>, b: RuntimeBinding, faults: Faults<Bytes>)
    requires Prepared(f, assets, b, faults).1.Ok? && !faults.afterCheck.Tamper?
    ensures var name := b.bodyId + "." + b.sha + ".avatar.vrm";
            name in Prepared(f, assets, b, faults).0 && Prepared(f, assets, b, faults).0[name] == b.payloads.avatar
  {
  }

  /** From the builder to the staged file: while a built package is installed and pinned, a
      handover that nothing interferes with leaves the avatar it was built from. */
  lemma BuiltAvatarIsStaged(f: Formats, z: Zip, read: Reader, profiles: map<string, Bytes>, x: Inputs, assets: map<string, Bytes>,
                            faults: Faults<Bytes>)
    requires FormatsOk(f) && ZipOk(z) && ReaderOk(read) && InputsOk(x) && BuildOk(f, z, x)
    requires x.source.id in profiles && profiles[x.source.id] == Built(f, z, x)
    requires !faults.afterCheck.Tamper?
    ensures var b := Built(f, z, x);
            var bound := BoundOf(f, z, read, profiles, Some(Canonical(Marker(x.source.id, f.digest(b)))));
            && bound.Ok?
            && var (after, r) := Prepared(f, assets, bound.value, faults);
               r.Ok? ==> x.source.id + "." + f.digest(b) + ".avatar.vrm" in after
                         && after[x.source.id + "." + f.digest(b) + ".avatar.vrm"] == x.avatar
  {
    hide BuildOk, FormatsOk, ZipOk, ReaderOk, InputsOk, Built, BoundOf, Canonical, IsBodyId, MotionsOk, EncodedFiles, Prepared,
         PackageOk, PackageFiles, Inspected, InOrderOf;
    BuildInstallBind(f, z, read, profiles, x);
    BuiltIsPackage(f, z, x);
    var bound := BoundOf(f, z, read, profiles, Some(Canonical(Marker(x.source.id, f.digest(Built(f, z, x))))));
    if Prepared(f, assets, bound.value, faults).1.Ok? { UntouchedIsStaged(f, assets, bound.value, faults); }
  }
}
