/** `build_mrbody`, and why what it builds always passes `validate_mrbody`. */
module PackageBuilder {
  import opened Basics
  import opened Bytes
  import opened Package
  import opened PackageValidator
  import Glb
  import Png

  const BUILDER_VERSION := "0.1.0"

  /** An identity bundle as far as the builder reads it. `valid` is the verdict of
      `validate_identity_bundle`, `portable` the result of
      `portable_bodyprint_from_identity`, None where that raises. */
  datatype Source = Source(
    id: string, valid: bool, createdAt: string, backendId: string, backendRevision: string, portable: Option<Bodyprint>)

  /** The arguments of `build_mrbody`. */
  datatype Inputs = Inputs(
    source: Source, displayName: string, avatar: Bytes, thumbnail: Bytes,
    motions: seq<(string, Bytes)>, revision: Option<string>)

  /** `motions` is a dictionary: no name appears twice. */
  predicate InputsOk(x: Inputs) {
    forall i, j | 0 <= i < j < |x.motions| :: x.motions[i].0 != x.motions[j].0
  }

  // ----- the parts -----

  /** `provenance_from_identity`. */
  function ProvenanceOf(s: Source): Provenance
    requires IsBodyId(s.id)
  {
    Provenance(s.createdAt, 1, [Stage("tracking", s.backendId, s.backendRevision),
                                Stage(IDENTITY_STAGE, BUNDLE_AUTHORITY, s.id[7..]),
                                Stage("mrbody_builder", "bodyrig", BUILDER_VERSION)])
  }

  /** The provenance of an identity carries exactly that identity. */
  lemma ProvenanceCarriesIdentity(s: Source)
    requires IsBodyId(s.id)
    ensures IdentityFrom(ProvenanceOf(s)) == Identity(s.id)
  {
    var pipeline := ProvenanceOf(s).pipeline;
    var carried := pipeline[1];
    assert "tracking" != IDENTITY_STAGE && "mrbody_builder" != IDENTITY_STAGE by {
      assert |"tracking"| != |IDENTITY_STAGE| && |"mrbody_builder"| != |IDENTITY_STAGE|;
    }
    assert IdentityStages(pipeline[3..]) == [];
    assert pipeline[2..][0] == pipeline[2] && pipeline[2..][1..] == pipeline[3..];
    assert IdentityStages(pipeline[2..]) == [];
    assert pipeline[1..][0] == carried && pipeline[1..][1..] == pipeline[2..];
    assert IdentityStages(pipeline[1..]) == [carried];
    assert IdentityStages(pipeline) == [carried];
    assert s.id == s.id[..7] + s.id[7..];
  }

  predicate MotionItemOk(item: (string, Bytes)) {
    && PathOf(item.0).Some? && PathOf(item.0).value.MotionVrma?
    && 0 < |item.1| <= Limit(PathOf(item.0).value)
  }

  predicate MotionsOk(items: seq<(string, Bytes)>) {
    forall i | 0 <= i < |items| :: MotionItemOk(items[i])
  }

  /** `motion_payloads`. */
  function MotionMap(items: seq<(string, Bytes)>): map<Motion, Bytes>
    requires MotionsOk(items)
  {
    if items == [] then map[]
    else
      var last := items[|items| - 1];
      assert MotionItemOk(last);
      MotionMap(items[..|items| - 1])[PathOf(last.0).value.motion := last.1]
  }

  /** With distinct names, the map holds exactly the given items. */
  lemma {:induction false} MotionMapMeaning(items: seq<(string, Bytes)>, m: Motion, data: Bytes)
    requires MotionsOk(items)
    requires forall i, j | 0 <= i < j < |items| :: items[i].0 != items[j].0
    ensures m in MotionMap(items) && MotionMap(items)[m] == data <==> (NameOf(MotionVrma(m)), data) in items
    ensures m in MotionMap(items) <==> exists i | 0 <= i < |items| :: items[i].0 == NameOf(MotionVrma(m))
  {
    hide NameOf, PathOf, Limit;
    if items != [] {
      var n := |items| - 1;
      var init, last := items[..n], items[n];
      assert items == init + [last];
      assert MotionItemOk(last);
      NamesArePaths(MotionVrma(m), last.0);
      MotionMapMeaning(init, m, data);
      assert PathOf(last.0).value == MotionVrma(PathOf(last.0).value.motion);
      assert forall i | 0 <= i < n :: init[i].0 != last.0;
    }
  }

  function MotionFiles(motions: map<Motion, Bytes>): map<Path, Bytes> {
    map m | m in motions :: MotionVrma(m) := motions[m]
  }

  function Payloads(avatar: Bytes, thumbnail: Bytes, bodyprint: Bytes, provenance: Bytes, motions: map<Motion, Bytes>)
    : map<Path, Bytes>
  {
    MotionFiles(motions) + map[AvatarVrm := avatar, BodyprintJson := bodyprint, ProvenanceJson := provenance, ThumbnailPng := thumbnail]
  }

  function DataAt(files: map<Path, Bytes>, name: string): Bytes {
    if PathOf(name).Some? && PathOf(name).value in files then files[PathOf(name).value] else []
  }

  function ChecksumsFor(f: Formats, payloads: map<Path, Bytes>): RawChecksums {
    map name | name in PayloadNames(payloads.Keys) :: Some(f.digest(DataAt(payloads, name)))
  }

  function BuiltManifest(x: Inputs): Manifest {
    Manifest(x.source.id, x.displayName, BUILDER_VERSION, x.revision)
  }

  function MotionPaths(motions: map<Motion, Bytes>, order: seq<Motion>): seq<Path> {
    if order == [] then []
    else (if order[0] in motions then [MotionVrma(order[0])] else []) + MotionPaths(motions, order[1..])
  }

  /** The order in which entries are written: the required ones, then the motions by path. */
  function EntryOrder(motions: map<Motion, Bytes>): seq<Path> {
    REQUIRED + MotionPaths(motions, SORTED_MOTIONS)
  }

  function PackList(files: map<Path, Bytes>, order: seq<Path>): seq<(string, Bytes)> {
    seq(|order|, i requires 0 <= i < |order| => (NameOf(order[i]), if order[i] in files then files[order[i]] else []))
  }

  function TotalSize(list: seq<(string, Bytes)>): nat {
    if list == [] then 0 else TotalSize(list[..|list| - 1]) + |list[|list| - 1].1|
  }

  // ----- building -----

  /** The checks before anything is encoded. */
  ghost predicate ArgumentsOk(f: Formats, x: Inputs) {
    && x.source.valid && IsBodyId(x.source.id) && IsName(x.displayName)
    && Glb.IsVrm1(f.gltf, x.avatar) && |x.thumbnail| <= Png.THUMBNAIL_LIMIT && Png.IsPng(f.crc, x.thumbnail)
    && MotionsOk(x.motions)
    && x.source.portable.Some? && f.bodyprintOk(x.source.portable.value) && ProvenanceOk(f, ProvenanceOf(x.source))
    && (x.revision.Some? ==> IsHex(x.revision.value, 40))
  }

  function EncodedPayloads(f: Formats, x: Inputs): Option<map<Path, Bytes>>
    requires IsBodyId(x.source.id) && MotionsOk(x.motions) && x.source.portable.Some?
  {
    var bodyprint, provenance := f.bodyprint.write(x.source.portable.value), f.provenance.write(ProvenanceOf(x.source));
    if bodyprint.None? || provenance.None? then None
    else Some(Payloads(x.avatar, x.thumbnail, bodyprint.value, provenance.value, MotionMap(x.motions)))
  }

  /** All entries, or None where something has no JSON form. */
  function EncodedFiles(f: Formats, x: Inputs): Option<map<Path, Bytes>>
    requires IsBodyId(x.source.id) && MotionsOk(x.motions) && x.source.portable.Some?
  {
    var payloads := EncodedPayloads(f, x);
    if payloads.None? then None
    else
      var checksums, manifest := f.checksums.write(ChecksumsFor(f, payloads.value)), f.manifest.write(BuiltManifest(x));
      if checksums.None? || manifest.None? then None
      else Some(payloads.value[ChecksumsJson := checksums.value][ManifestJson := manifest.value])
  }

  predicate WithinCaps(files: map<Path, Bytes>, list: seq<(string, Bytes)>) {
    && |files| <= MAX_ENTRIES && TotalSize(list) <= MAX_TOTAL
    && forall p | p in files :: |files[p]| <= Limit(p)
  }

  /** The builder's own checks and caps. */
  ghost predicate BuildOk(f: Formats, z: Zip, x: Inputs) {
    && ArgumentsOk(f, x)
    && EncodedFiles(f, x).Some?
    && WithinCaps(EncodedFiles(f, x).value, PackList(EncodedFiles(f, x).value, EntryOrder(MotionMap(x.motions))))
    && |Built(f, z, x)| <= MAX_ARCHIVE
  }

  function Built(f: Formats, z: Zip, x: Inputs): Bytes
    requires IsBodyId(x.source.id) && MotionsOk(x.motions) && x.source.portable.Some? && EncodedFiles(f, x).Some?
  {
    z.pack(PackList(EncodedFiles(f, x).value, EntryOrder(MotionMap(x.motions))))
  }

  // ----- the entries that are written -----

  lemma {:induction false} MotionPathsMeaning(motions: map<Motion, Bytes>, order: seq<Motion>)
    requires Distinct(order)
    ensures Distinct(MotionPaths(motions, order)) && |MotionPaths(motions, order)| <= |order|
    ensures forall p :: p in MotionPaths(motions, order) <==> p.MotionVrma? && p.motion in order && p.motion in motions
  {
    if order != [] {
      var rest := order[1..];
      assert forall i, j | 0 <= i < j < |rest| :: rest[i] == order[i + 1] && rest[j] == order[j + 1];
      MotionPathsMeaning(motions, rest);
      assert order == [order[0]] + rest;
      assert order[0] !in rest;
    }
  }

  lemma SortedMotionsComplete(m: Motion)
    ensures m in SORTED_MOTIONS && Distinct(SORTED_MOTIONS) && |SORTED_MOTIONS| == 6
  {
    var s := SORTED_MOTIONS;
    match m
    case Gesture1 => assert s[0] == m;
    case Gesture2 => assert s[1] == m;
    case Gesture3 => assert s[2] == m;
    case Idle => assert s[3] == m;
    case Talk => assert s[4] == m;
    case Walk => assert s[5] == m;
  }

  /** The order lists every entry once. */
  lemma OrderIsComplete(motions: map<Motion, Bytes>, files: map<Path, Bytes>)
    requires forall p :: p in files <==> p in REQUIRED || (p.MotionVrma? && p.motion in motions)
    ensures Distinct(EntryOrder(motions)) && 1 <= |EntryOrder(motions)| <= MAX_ENTRIES
    ensures forall p :: p in EntryOrder(motions) <==> p in files
    ensures forall i | 0 <= i < |REQUIRED| :: REQUIRED[i] in EntryOrder(motions)
  {
    var order, required, more := EntryOrder(motions), REQUIRED, MotionPaths(motions, SORTED_MOTIONS);
    SortedMotionsComplete(Idle);
    MotionPathsMeaning(motions, SORTED_MOTIONS);
    forall m: Motion ensures m in SORTED_MOTIONS { SortedMotionsComplete(m); }
    RequiredAreNoMotions();
    assert forall p :: p in order <==> p in required || p in more;
    forall i, j | 0 <= i < j < |order| ensures order[i] != order[j] {
      if i < |required| && j >= |required| {
        assert order[i] in required && order[j] in more;
      }
    }
  }

  lemma RequiredAreNoMotions()
    ensures Distinct(REQUIRED) && forall p | p in REQUIRED :: !p.MotionVrma?
    ensures forall p: Path | !p.MotionVrma? :: p in REQUIRED
  {
    var s := REQUIRED;
    forall p: Path | !p.MotionVrma? ensures p in s {
      match p
      case ManifestJson => assert s[0] == p;
      case ChecksumsJson => assert s[1] == p;
      case AvatarVrm => assert s[2] == p;
      case BodyprintJson => assert s[3] == p;
      case ProvenanceJson => assert s[4] == p;
      case ThumbnailPng => assert s[5] == p;
    }
  }

  lemma {:induction false} TotalIsDeclared(list: seq<(string, Bytes)>)
    ensures DeclaredTotal(StoredAll(list)) == TotalSize(list)
  {
    if list != [] {
      TotalIsDeclared(list[..|list| - 1]);
      assert StoredAll(list)[..|list| - 1] == StoredAll(list[..|list| - 1]);
    }
  }

  lemma PackedEntry(files: map<Path, Bytes>, order: seq<Path>, i: nat)
    requires i < |order| && order[i] in files && |files[order[i]]| <= Limit(order[i])
    ensures var e := StoredAll(PackList(files, order))[i];
            && e == Stored(NameOf(order[i]), files[order[i]]) && InfoOk(e.info) && PathOf(e.info.name) == Some(order[i])
            && e.content.Some? && |e.content.value| == e.info.fileSize
  {
    hide NameOf, PathOf, Limit;
    NamesArePaths(order[i], NameOf(order[i]));
  }

  lemma PackedNames(files: map<Path, Bytes>, order: seq<Path>)
    requires Distinct(order)
    ensures var names := Names(StoredAll(PackList(files, order)));
            Distinct(names) && |names| == |order| && forall i | 0 <= i < |order| :: names[i] == NameOf(order[i])
  {
    hide NameOf, PathOf;
    var names := Names(StoredAll(PackList(files, order)));
    forall i, j | 0 <= i < j < |names| ensures names[i] != names[j] {
      NamesArePaths(order[i], NameOf(order[i]));
      NamesArePaths(order[j], NameOf(order[j]));
    }
  }

  /** `es` are the entries of `files`, in `order`. */
  predicate Lists(es: seq<Entry>, order: seq<Path>, files: map<Path, Bytes>) {
    && |es| == |order| && Distinct(Names(es))
    && forall i | 0 <= i < |es| ::
         && order[i] in files && es[i] == Stored(NameOf(order[i]), files[order[i]])
         && InfoOk(es[i].info) && PathOf(es[i].info.name) == Some(order[i])
  }

  lemma PackedLists(files: map<Path, Bytes>, order: seq<Path>)
    requires Distinct(order) && (forall p | p in order :: p in files) && forall p | p in files :: |files[p]| <= Limit(p)
    ensures Lists(StoredAll(PackList(files, order)), order, files)
  {
    hide NameOf, PathOf, Limit, InfoOk;
    PackedNames(files, order);
    var es := StoredAll(PackList(files, order));
    forall i | 0 <= i < |order|
      ensures order[i] in files && es[i] == Stored(NameOf(order[i]), files[order[i]])
      ensures InfoOk(es[i].info) && PathOf(es[i].info.name) == Some(order[i])
    {
      assert order[i] in order;
      PackedEntry(files, order, i);
    }
  }

  lemma ListedDirectory(es: seq<Entry>, order: seq<Path>, files: map<Path, Bytes>)
    requires Lists(es, order, files) && 1 <= |order| <= MAX_ENTRIES && DeclaredTotal(es) <= MAX_TOTAL
    requires forall i | 0 <= i < |REQUIRED| :: REQUIRED[i] in order
    ensures DirectoryOk(es) && ContentsOk(es)
  {
    hide NameOf, PathOf, InfoOk;
    forall i | 0 <= i < |REQUIRED| ensures NameOf(REQUIRED[i]) in Names(es) {
      var k :| 0 <= k < |order| && order[k] == REQUIRED[i];
      assert Names(es)[k] == NameOf(REQUIRED[i]);
    }
  }

  lemma ListedFiles(es: seq<Entry>, order: seq<Path>, files: map<Path, Bytes>)
    requires Lists(es, order, files) && forall p :: p in files <==> p in order
    ensures (forall i | 0 <= i < |es| :: InfoOk(es[i].info) && es[i].content.Some?) && FilesOf(es) == files
  {
    hide NameOf, PathOf, InfoOk;
    FilesMeaning(es);
    KeysAreNames(FilesOf(es), es);
    forall p | p in files ensures p in FilesOf(es) && FilesOf(es)[p] == files[p] {
      var k :| 0 <= k < |order| && order[k] == p;
      assert PathOf(es[k].info.name).value == p;
    }
    forall p | p in FilesOf(es) ensures p in files {
      var k :| 0 <= k < |es| && Names(es)[k] == NameOf(p);
      NamesArePaths(p, es[k].info.name);
      assert order[k] in order;
    }
  }

  /** What is packed is a well-formed directory, and reads back as the same files. */
  lemma PackedReadsBack(files: map<Path, Bytes>, motions: map<Motion, Bytes>)
    requires forall p :: p in files <==> p in REQUIRED || (p.MotionVrma? && p.motion in motions)
    requires WithinCaps(files, PackList(files, EntryOrder(motions)))
    ensures var es := StoredAll(PackList(files, EntryOrder(motions)));
            DirectoryOk(es) && ContentsOk(es) && FilesOf(es) == files
  {
    hide Limit, EntryOrder, Lists, DirectoryOk, ContentsOk, PackList, StoredAll;
    var order := EntryOrder(motions);
    var es := StoredAll(PackList(files, order));
    OrderIsComplete(motions, files);
    PackedLists(files, order);
    TotalIsDeclared(PackList(files, order));
    ListedDirectory(es, order, files);
    ListedFiles(es, order, files);
  }

  // ----- the checksums that are written -----

  lemma FilesOfInputs(f: Formats, x: Inputs)
    requires IsBodyId(x.source.id) && MotionsOk(x.motions) && x.source.portable.Some? && EncodedFiles(f, x).Some?
    ensures var files := EncodedFiles(f, x).value;
            && (forall p :: p in files <==> p in REQUIRED || (p.MotionVrma? && p.motion in MotionMap(x.motions)))
            && (forall p | p in REQUIRED :: p in files)
  {
    hide IsBodyId, MotionsOk, MotionMap;
    RequiredAreNoMotions();
  }

  lemma ChecksumsCover(f: Formats, payloads: map<Path, Bytes>, files: map<Path, Bytes>)
    requires FormatsOk(f)
    requires forall p | IsPayload(p) :: (p in files <==> p in payloads) && (p in files ==> files[p] == payloads[p])
    requires forall p | p in REQUIRED :: p in files
    ensures ChecksumsOk(ChecksumsFor(f, payloads), files.Keys)
    ensures ChecksumsMatch(f, files, ChecksumsFor(f, payloads))
  {
    hide NameOf, PathOf, IsPayload, IsHex, ChecksumsOk;
    var raw := ChecksumsFor(f, payloads);
    assert PayloadNames(payloads.Keys) == PayloadNames(files.Keys);
    CoverageIsEnough(raw, files.Keys);
    forall p | p in files && IsPayload(p) ensures NameOf(p) in raw && raw[NameOf(p)] == Some(f.digest(files[p])) {
      NamesArePaths(p, NameOf(p));
    }
  }

  // ----- building and validating -----

  lemma BuiltManifestOk(x: Inputs)
    requires IsBodyId(x.source.id) && IsName(x.displayName) && (x.revision.Some? ==> IsHex(x.revision.value, 40))
    ensures ManifestOk(BuiltManifest(x))
  {
    BodyIdIsManifestId(x.source.id);
  }

  lemma ArgumentsShape(f: Formats, x: Inputs)
    requires ArgumentsOk(f, x)
    ensures IsBodyId(x.source.id) && MotionsOk(x.motions) && x.source.portable.Some?
  {
  }

  /** What was encoded reads back. */
  lemma BuiltMetadata(f: Formats, x: Inputs)
    requires FormatsOk(f) && IsBodyId(x.source.id) && MotionsOk(x.motions) && x.source.portable.Some? && EncodedFiles(f, x).Some?
    ensures var files, payloads := EncodedFiles(f, x).value, EncodedPayloads(f, x).value;
            && ManifestJson in files && f.manifest.read(files[ManifestJson]) == Some(BuiltManifest(x))
            && BodyprintJson in files && f.bodyprint.read(files[BodyprintJson]) == x.source.portable
            && ProvenanceJson in files && f.provenance.read(files[ProvenanceJson]) == Some(ProvenanceOf(x.source))
            && ChecksumsJson in files && f.checksums.read(files[ChecksumsJson]) == Some(ChecksumsFor(f, payloads))
            && AvatarVrm in files && files[AvatarVrm] == x.avatar
            && ThumbnailPng in files && files[ThumbnailPng] == x.thumbnail
            && forall m | m in MotionMap(x.motions) :: MotionVrma(m) in files && files[MotionVrma(m)] == MotionMap(x.motions)[m]
  {
    hide IsBodyId, MotionsOk, MotionMap, ProvenanceOf, ChecksumsFor, IsHex, BuiltManifest;
  }

  lemma BuiltPayloads(f: Formats, x: Inputs)
    requires IsBodyId(x.source.id) && MotionsOk(x.motions) && x.source.portable.Some? && EncodedFiles(f, x).Some?
    ensures EncodedPayloads(f, x).Some?
    ensures var files, payloads := EncodedFiles(f, x).value, EncodedPayloads(f, x).value;
            forall p | IsPayload(p) :: (p in files <==> p in payloads) && (p in files ==> files[p] == payloads[p])
  {
    hide IsBodyId, MotionsOk, MotionMap, EncodedPayloads, ChecksumsFor, BuiltManifest;
  }

  /** The files the builder encodes pass every check of the validator. */
  lemma BuiltFilesOk(f: Formats, x: Inputs)
    requires FormatsOk(f) && ArgumentsOk(f, x) && EncodedFiles(f, x).Some?
    ensures FilesOk(f, EncodedFiles(f, x).value, Some(x.source.id))
    ensures var i := Inspected(f, EncodedFiles(f, x).value);
            && i.bodyId == x.source.id && i.identity == Some(x.source.id) && i.name == x.displayName
            && i.manifest == BuiltManifest(x) && i.bodyprint == x.source.portable.value && i.provenance == ProvenanceOf(x.source)
  {
    hide IsBodyId, IsName, MotionsOk, MotionMap, ProvenanceOf, IdentityFrom, ManifestOk, ProvenanceOk, FormatsOk,
         ChecksumsOk, ChecksumsMatch, ChecksumsFor, EncodedFiles, EncodedPayloads, Digests, DigestsOk;
    FilesOfInputs(f, x);
    BuiltPayloads(f, x);
    BuiltMetadata(f, x);
    var files, payloads := EncodedFiles(f, x).value, EncodedPayloads(f, x).value;
    ChecksumsCover(f, payloads, files);
    BuiltManifestOk(x);
    ProvenanceCarriesIdentity(x.source);
  }

  /** Whatever passes the builder's own checks passes the validator, with the identity,
      name and metadata that went in. */
  lemma BuildThenValidate(f: Formats, z: Zip, x: Inputs)
    requires FormatsOk(f) && ZipOk(z) && BuildOk(f, z, x)
    ensures PackageOk(f, z, Built(f, z, x), Some(x.source.id))
    ensures PackageFiles(f, z, Built(f, z, x)) == EncodedFiles(f, x).value
    ensures var i := Inspected(f, PackageFiles(f, z, Built(f, z, x)));
            && i.bodyId == x.source.id && i.identity == Some(x.source.id) && i.name == x.displayName
            && i.manifest == BuiltManifest(x) && i.bodyprint == x.source.portable.value && i.provenance == ProvenanceOf(x.source)
  {
    hide ArgumentsOk, EncodedFiles, WithinCaps, FormatsOk, FilesOk, DirectoryOk, ContentsOk, MetadataOk;
    ArgumentsShape(f, x);
    var files, motions := EncodedFiles(f, x).value, MotionMap(x.motions);
    FilesOfInputs(f, x);
    PackedReadsBack(files, motions);
    BuiltFilesOk(f, x);
    assert z.unpack(Built(f, z, x)) == Some(StoredAll(PackList(files, EntryOrder(motions))));
  }
}
