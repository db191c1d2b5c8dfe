/** Building, validating and binding undo each other. */
module PackageRuns {
  import opened Basics
  import opened Bytes
  import opened Package
  import opened PackageValidator
  import opened PackageBuilder
  import Glb
  import Png

  // ----- the builder as a program -----

  /** The loop over the given motions. */
  method CollectMotions(items: seq<(string, Bytes)>) returns (r: Option<map<Motion, Bytes>>)
    ensures r.Some? <==> MotionsOk(items)
    ensures r.Some? ==> r.value == MotionMap(items)
  {
    hide PathOf, Limit;
    var motions: map<Motion, Bytes> := map[];
    for i := 0 to |items|
      invariant MotionsOk(items[..i]) && motions == MotionMap(items[..i])
    {
      assert items[..i + 1][..i] == items[..i];
      var (name, data) := items[i];
      if PathOf(name).None? || !PathOf(name).value.MotionVrma? { return None; }
      if data == [] || |data| > Limit(PathOf(name).value) { return None; }
      assert MotionItemOk(items[i]);
      motions := motions[PathOf(name).value.motion := data];
    }
    assert items[..|items|] == items;
    return Some(motions);
  }

  /** The encoding steps of the builder. */
  method EncodeFiles(f: Formats, x: Inputs, motions: map<Motion, Bytes>) returns (files: Option<map<Path, Bytes>>)
    requires IsBodyId(x.source.id) && MotionsOk(x.motions) && x.source.portable.Some? && motions == MotionMap(x.motions)
    ensures files == EncodedFiles(f, x)
  {
    hide IsBodyId, MotionsOk, MotionMap, ProvenanceOf, ChecksumsFor;
    var bodyprint := f.bodyprint.write(x.source.portable.value);
    var provenance := f.provenance.write(ProvenanceOf(x.source));
    if bodyprint.None? || provenance.None? { return None; }
    var payloads := Payloads(x.avatar, x.thumbnail, bodyprint.value, provenance.value, motions);
    var checksums := f.checksums.write(ChecksumsFor(f, payloads));
    var manifest := f.manifest.write(Manifest(x.source.id, x.displayName, BUILDER_VERSION, x.revision));
    if checksums.None? || manifest.None? { return None; }
    return Some(payloads[ChecksumsJson := checksums.value][ManifestJson := manifest.value]);
  }

  /** The caps, the packing and the validation at the end of the builder. */
  method PackFiles(f: Formats, z: Zip, x: Inputs, files: map<Path, Bytes>, motions: map<Motion, Bytes>, grab: (nat, nat) -> nat)
    returns (r: Option<Bytes>)
    requires FormatsOk(f) && ZipOk(z) && ArgumentsOk(f, x)
    requires motions == MotionMap(x.motions) && EncodedFiles(f, x) == Some(files)
    ensures r.Some? <==> BuildOk(f, z, x)
    ensures r.Some? ==> r.value == Built(f, z, x)
  {
    hide IsBodyId, MotionsOk, MotionMap, ProvenanceOk, FormatsOk, ZipOk, PackageOk, Inspected, EntryOrder, PackList, IsHex,
         EncodedFiles, ArgumentsOk, PackageFiles, Limit;
    ArgumentsShape(f, x);
    var list := PackList(files, EntryOrder(motions));
    if |files| > MAX_ENTRIES || TotalSize(list) > MAX_TOTAL { return None; }
    if exists p | p in files :: |files[p]| > Limit(p) { return None; }
    var archive := z.pack(list);
    if |archive| > MAX_ARCHIVE { return None; }
    BuildThenValidate(f, z, x);
    var inspection := ValidatePackage(f, z, archive, Some(x.source.id), grab);
    if inspection.None? { return None; }
    if inspection.value.bodyId != x.source.id { return None; }
    return Some(archive);
  }

  /** `build_mrbody`: succeeds exactly when the arguments are sound and the caps are kept;
      the validation at its end never fails. */
  method BuildPackage(f: Formats, z: Zip, x: Inputs, grab: (nat, nat) -> nat) returns (r: Option<Bytes>)
    requires FormatsOk(f) && ZipOk(z) && InputsOk(x)
    ensures r.Some? <==> BuildOk(f, z, x)
    ensures r.Some? ==> r.value == Built(f, z, x)
  {
    hide IsBodyId, MotionsOk, MotionMap, ProvenanceOf, ProvenanceOk, FormatsOk, ZipOk, EncodedFiles, WithinCaps, IsHex, IsName;
    if !x.source.valid || !IsBodyId(x.source.id) || !IsName(x.displayName) { return None; }
    var avatarOk := Glb.ValidateVrm1(f.gltf, x.avatar);
    var thumbnailOk := Png.ValidatePng(f.crc, x.thumbnail);
    if !avatarOk || !thumbnailOk { return None; }
    var motions := CollectMotions(x.motions);
    if motions.None? { return None; }
    if x.source.portable.None? || !f.bodyprintOk(x.source.portable.value) { return None; }
    var provenance := ProvenanceOf(x.source);
    if !ProvenanceOk(f, provenance) { return None; }
    if x.revision.Some? && !IsHex(x.revision.value, 40) { return None; }
    var files := EncodeFiles(f, x, motions.value);
    if files.None? { return None; }
    r := PackFiles(f, z, x, files.value, motions.value, grab);
  }

  // ----- the order of the motions -----

  ghost predicate SameMotions(x: Inputs, y: Inputs) {
    && y == x.(motions := y.motions)
    && forall item :: item in x.motions <==> item in y.motions
  }

  lemma SameMotionMap(x: Inputs, y: Inputs)
    requires InputsOk(x) && InputsOk(y) && SameMotions(x, y)
    ensures MotionsOk(x.motions) <==> MotionsOk(y.motions)
    ensures MotionsOk(x.motions) ==> MotionMap(x.motions) == MotionMap(y.motions)
  {
    hide MotionItemOk, MotionMap, NameOf;
    assert forall i | 0 <= i < |x.motions| :: x.motions[i] in y.motions;
    assert forall i | 0 <= i < |y.motions| :: y.motions[i] in x.motions;
    if MotionsOk(x.motions) {
      assert MotionsOk(y.motions);
      forall m: Motion
        ensures m in MotionMap(x.motions) <==> m in MotionMap(y.motions)
        ensures m in MotionMap(x.motions) ==> MotionMap(x.motions)[m] == MotionMap(y.motions)[m]
      {
        if m in MotionMap(x.motions) { MotionInOther(x.motions, y.motions, m); }
        if m in MotionMap(y.motions) { MotionInOther(y.motions, x.motions, m); }
      }
    }
  }

  lemma MotionInOther(a: seq<(string, Bytes)>, b: seq<(string, Bytes)>, m: Motion)
    requires MotionsOk(a) && MotionsOk(b)
    requires forall i, j | 0 <= i < j < |a| :: a[i].0 != a[j].0
    requires forall i, j | 0 <= i < j < |b| :: b[i].0 != b[j].0
    requires m in MotionMap(a) && forall item | item in a :: item in b
    ensures m in MotionMap(b) && MotionMap(b)[m] == MotionMap(a)[m]
  {
    hide NameOf, MotionsOk, MotionMap;
    MotionMapMeaning(a, m, MotionMap(a)[m]);
    MotionMapMeaning(b, m, MotionMap(a)[m]);
  }

  /** The package does not depend on the order in which motions are given. */
  lemma MotionOrderIsIrrelevant(f: Formats, z: Zip, x: Inputs, y: Inputs)
    requires InputsOk(x) && InputsOk(y) && SameMotions(x, y)
    ensures BuildOk(f, z, x) <==> BuildOk(f, z, y)
    ensures BuildOk(f, z, x) ==> Built(f, z, x) == Built(f, z, y)
  {
    hide IsBodyId, MotionsOk, MotionMap, ProvenanceOf, ProvenanceOk, EntryOrder, PackList, Payloads, ChecksumsFor, IsName;
    SameMotionMap(x, y);
    assert BuiltManifest(x) == BuiltManifest(y);
    if ArgumentsOk(f, x) {
      assert EncodedPayloads(f, x) == EncodedPayloads(f, y);
      assert EncodedFiles(f, x) == EncodedFiles(f, y);
    }
  }

  // ----- binding -----

  /** The payloads handed to a renderer. */
  datatype Handed = Handed(avatar: Bytes, bodyprint: Bytes, thumbnail: Bytes, motions: seq<(string, Bytes)>)

  function PresentMotions(files: map<Path, Bytes>, order: seq<Motion>): seq<(string, Bytes)> {
    if order == [] then []
    else
      var path := MotionVrma(order[|order| - 1]);
      PresentMotions(files, order[..|order| - 1]) + if path in files then [(NameOf(path), files[path])] else []
  }

  /** The reads of `bind_current_runtime` from a validated archive. */
  method BindPayloads(files: map<Path, Bytes>) returns (h: Handed)
    requires AvatarVrm in files && BodyprintJson in files && ThumbnailPng in files
    ensures h == Handed(files[AvatarVrm], files[BodyprintJson], files[ThumbnailPng], PresentMotions(files, MOTIONS))
  {
    hide NameOf;
    var motions: seq<(string, Bytes)> := [];
    var order := MOTIONS;
    for i := 0 to |order|
      invariant motions == PresentMotions(files, order[..i])
    {
      assert order[..i + 1][..i] == order[..i];
      var path := MotionVrma(order[i]);
      if path in files { motions := motions + [(NameOf(path), files[path])]; }
    }
    assert order[..|order|] == order;
    return Handed(files[AvatarVrm], files[BodyprintJson], files[ThumbnailPng], motions);
  }

  lemma MotionsComplete(m: Motion)
    ensures m in MOTIONS
  {
    var s := MOTIONS;
    match m
    case Idle => assert s[0] == m;
    case Walk => assert s[1] == m;
    case Talk => assert s[2] == m;
    case Gesture1 => assert s[3] == m;
    case Gesture2 => assert s[4] == m;
    case Gesture3 => assert s[5] == m;
  }

  lemma {:induction false} PresentMotionsMeaning(files: map<Path, Bytes>, order: seq<Motion>, item: (string, Bytes))
    ensures item in PresentMotions(files, order) <==>
            exists m | m in order :: MotionVrma(m) in files && item == (NameOf(MotionVrma(m)), files[MotionVrma(m)])
  {
    hide NameOf;
    if order != [] {
      var init, last := order[..|order| - 1], order[|order| - 1];
      PresentMotionsMeaning(files, init, item);
      assert order == init + [last];
    }
  }

  const MOTION_NAMES: seq<string> :=
    ["motions/idle.vrma", "motions/walk.vrma", "motions/talk.vrma",
     "motions/gesture_01.vrma", "motions/gesture_02.vrma", "motions/gesture_03.vrma"]

  /** The names occur in the list, and in its order. */
  ghost predicate InOrderOf(items: seq<(string, Bytes)>, names: seq<string>) {
    && (forall i | 0 <= i < |items| :: items[i].0 in names)
    && forall i, j | 0 <= i < j < |items| :: Precedes(names, items[i].0, items[j].0)
  }

  predicate Precedes(names: seq<string>, u: string, v: string) {
    exists a, b | 0 <= a < b < |names| :: names[a] == u && names[b] == v
  }

  lemma PrecedesSnoc(names: seq<string>, u: string, v: string)
    ensures Precedes(names, u, v) ==> forall name :: Precedes(names + [name], u, v)
    ensures u in names ==> Precedes(names + [v], u, v)
  {
    if Precedes(names, u, v) {
      var a, b :| 0 <= a < b < |names| && names[a] == u && names[b] == v;
      forall name ensures Precedes(names + [name], u, v) {
        assert (names + [name])[a] == u && (names + [name])[b] == v;
      }
    }
    if u in names {
      var a :| 0 <= a < |names| && names[a] == u;
      assert (names + [v])[a] == u && (names + [v])[|names|] == v;
    }
  }

  function NamesOf(order: seq<Motion>): seq<string> {
    seq(|order|, i requires 0 <= i < |order| => NameOf(MotionVrma(order[i])))
  }

  lemma {:induction false} PresentInOrder(files: map<Path, Bytes>, order: seq<Motion>)
    ensures InOrderOf(PresentMotions(files, order), NamesOf(order))
  {
    hide NameOf;
    if order != [] {
      var n := |order| - 1;
      PresentInOrder(files, order[..n]);
      var path, init := MotionVrma(order[n]), PresentMotions(files, order[..n]);
      assert NamesOf(order) == NamesOf(order[..n]) + [NameOf(path)];
      InOrderSnoc(init, NamesOf(order[..n]), NameOf(path), if path in files then files[path] else []);
      if path !in files { assert init + [] == init; }
    }
  }

  lemma InOrderSnoc(items: seq<(string, Bytes)>, names: seq<string>, name: string, data: Bytes)
    requires InOrderOf(items, names)
    ensures InOrderOf(items, names + [name]) && InOrderOf(items + [(name, data)], names + [name])
  {
    hide Precedes;
    forall u, v ensures Precedes(names, u, v) ==> Precedes(names + [name], u, v) { PrecedesSnoc(names, u, v); }
    forall i | 0 <= i < |items| ensures Precedes(names + [name], items[i].0, name) { PrecedesSnoc(names, items[i].0, name); }
  }

  lemma MotionNames()
    ensures NamesOf(MOTIONS) == MOTION_NAMES
  {
  }

  /** Binding a built package hands out exactly the avatar, thumbnail and motions that were
      built in, and the encoded bodyprint. */
  lemma BuildThenBind(f: Formats, z: Zip, x: Inputs, item: (string, Bytes))
    requires FormatsOk(f) && ZipOk(z) && InputsOk(x) && BuildOk(f, z, x)
    ensures PackageOk(f, z, Built(f, z, x), None)
    ensures var files := PackageFiles(f, z, Built(f, z, x));
            && AvatarVrm in files && files[AvatarVrm] == x.avatar
            && ThumbnailPng in files && files[ThumbnailPng] == x.thumbnail
            && BodyprintJson in files && Some(files[BodyprintJson]) == f.bodyprint.write(x.source.portable.value)
            && (item in PresentMotions(files, MOTIONS) <==> item in x.motions)
  {
    hide ArgumentsOk, WithinCaps, FormatsOk, ZipOk, DirectoryOk, ContentsOk, MetadataOk, MotionsOk, MotionMap, NameOf, AssetsOk,
         ChecksumsMatch, IsBodyId, Built, IdentityFrom, Inspected;
    ArgumentsShape(f, x);
    BuildThenValidate(f, z, x);
    BuiltMetadata(f, x);
    BuiltBodyprint(f, x);
    FilesOfInputs(f, x);
    var files := EncodedFiles(f, x).value;
    PresentMotionsMeaning(files, MOTIONS, item);
    MotionsInAndOut(f, x, item);
  }

  lemma BuiltBodyprint(f: Formats, x: Inputs)
    requires IsBodyId(x.source.id) && MotionsOk(x.motions) && x.source.portable.Some? && EncodedFiles(f, x).Some?
    ensures BodyprintJson in EncodedFiles(f, x).value
    ensures Some(EncodedFiles(f, x).value[BodyprintJson]) == f.bodyprint.write(x.source.portable.value)
  {
    hide IsBodyId, MotionsOk, MotionMap, ProvenanceOf, ChecksumsFor;
  }

  lemma MotionsInAndOut(f: Formats, x: Inputs, item: (string, Bytes))
    requires FormatsOk(f) && InputsOk(x)
    requires IsBodyId(x.source.id) && MotionsOk(x.motions) && x.source.portable.Some? && EncodedFiles(f, x).Some?
    ensures var files := EncodedFiles(f, x).value;
            (exists m | m in MOTIONS :: MotionVrma(m) in files && item == (NameOf(MotionVrma(m)), files[MotionVrma(m)]))
            <==> item in x.motions
  {
    hide IsBodyId, MotionMap, EncodedFiles, NameOf, PathOf, FormatsOk, ChecksumsFor, Limit;
    BuiltMetadata(f, x);
    FilesOfInputs(f, x);
    RequiredAreNoMotions();
    var files := EncodedFiles(f, x).value;
    if m: Motion :| m in MOTIONS && MotionVrma(m) in files && item == (NameOf(MotionVrma(m)), files[MotionVrma(m)]) {
      MotionMapMeaning(x.motions, m, item.1);
    }
    if item in x.motions {
      var i :| 0 <= i < |x.motions| && x.motions[i] == item;
      assert MotionItemOk(item);
      var m := PathOf(item.0).value.motion;
      NamesArePaths(MotionVrma(m), item.0);
      MotionsComplete(m);
      MotionMapMeaning(x.motions, m, item.1);
    }
  }
}
