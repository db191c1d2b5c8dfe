/** `validate_mrbody`: what makes archive bytes a package, decided before anything is
    extracted. */
module PackageValidator {
  import opened Basics
  import opened Bytes
  import opened Package
  import Glb
  import Png

  /** The ZIP container: packing stored entries, and listing the entries of an archive. */
  datatype Zip = Zip(pack: seq<(string, Bytes)> -> Bytes, unpack: Bytes -> Option<seq<Entry>>)

  /** An entry as the builder writes it. */
  function Stored(name: string, data: Bytes): Entry {
    Entry(Info(name, false, false, 0, REGULAR, |data|, |data|), Some(data))
  }

  function StoredAll(list: seq<(string, Bytes)>): (es: seq<Entry>)
    ensures |es| == |list|
  {
    seq(|list|, i requires 0 <= i < |list| => Stored(list[i].0, list[i].1))
  }

  /** What is packed comes out again. */
  ghost predicate ZipOk(z: Zip) {
    forall list :: z.pack(list) != [] && z.unpack(z.pack(list)) == Some(StoredAll(list))
  }

  // ----- the directory and the contents -----

  function Names(es: seq<Entry>): seq<string> {
    seq(|es|, i requires 0 <= i < |es| => es[i].info.name)
  }

  function DeclaredTotal(es: seq<Entry>): int {
    if es == [] then 0 else DeclaredTotal(es[..|es| - 1]) + es[|es| - 1].info.fileSize
  }

  predicate DirectoryOk(es: seq<Entry>) {
    && 1 <= |es| <= MAX_ENTRIES
    && Distinct(Names(es))
    && (forall i | 0 <= i < |es| :: InfoOk(es[i].info))
    && (forall i | 0 <= i < |REQUIRED| :: NameOf(REQUIRED[i]) in Names(es))
    && DeclaredTotal(es) <= MAX_TOTAL
  }

  /** Every entry expands to exactly its declared size. */
  predicate ContentsOk(es: seq<Entry>) {
    forall i | 0 <= i < |es| :: es[i].content.Some? && |es[i].content.value| == es[i].info.fileSize
  }

  /** The contents by path. */
  function FilesOf(es: seq<Entry>): map<Path, Bytes>
    requires forall i | 0 <= i < |es| :: InfoOk(es[i].info) && es[i].content.Some?
  {
    if es == [] then map[]
    else
      var last := es[|es| - 1];
      assert InfoOk(last.info);
      FilesOf(es[..|es| - 1])[PathOf(last.info.name).value := last.content.value]
  }

  /** Each path has the contents of its one entry. */
  predicate HoldsContents(files: map<Path, Bytes>, es: seq<Entry>)
    requires forall i | 0 <= i < |es| :: PathOf(es[i].info.name).Some? && es[i].content.Some?
  {
    && (forall p | p in files :: NameOf(p) in Names(es))
    && forall i | 0 <= i < |es| ::
         PathOf(es[i].info.name).value in files && files[PathOf(es[i].info.name).value] == es[i].content.value
  }

  lemma AddEntry(files: map<Path, Bytes>, init: seq<Entry>, last: Entry)
    requires forall i | 0 <= i < |init| :: PathOf(init[i].info.name).Some? && init[i].content.Some?
    requires PathOf(last.info.name).Some? && last.content.Some? && last.info.name !in Names(init)
    requires HoldsContents(files, init)
    ensures HoldsContents(files[PathOf(last.info.name).value := last.content.value], init + [last])
  {
    hide NameOf, PathOf;
    var es, path := init + [last], PathOf(last.info.name).value;
    assert Names(es) == Names(init) + [last.info.name];
    NamesArePaths(path, last.info.name);
    forall i | 0 <= i < |init| ensures PathOf(init[i].info.name).value != path {
      assert Names(init)[i] == init[i].info.name;
      NamesArePaths(PathOf(init[i].info.name).value, init[i].info.name);
    }
    forall i | 0 <= i < |es| ensures es[i] == if i < |init| then init[i] else last { }
  }

  /** With distinct names, each path has the contents of its one entry. */
  lemma {:induction false} FilesMeaning(es: seq<Entry>)
    requires forall i | 0 <= i < |es| :: InfoOk(es[i].info) && es[i].content.Some?
    requires Distinct(Names(es))
    ensures forall i | 0 <= i < |es| :: PathOf(es[i].info.name).Some?
    ensures HoldsContents(FilesOf(es), es)
  {
    hide HoldsContents, NameOf, PathOf;
    InfoNames(es);
    if es != [] {
      var n := |es| - 1;
      var init, last := es[..n], es[n];
      assert es == init + [last] && Names(es) == Names(init) + [last.info.name];
      DistinctSnoc(Names(init), last.info.name);
      FilesMeaning(init);
      AddEntry(FilesOf(init), init, last);
    } else {
      NoContents(es);
    }
  }

  lemma NoContents(es: seq<Entry>)
    requires es == []
    ensures HoldsContents(map[], es)
  {
  }

  lemma KeysAreNames(files: map<Path, Bytes>, es: seq<Entry>)
    requires forall i | 0 <= i < |es| :: PathOf(es[i].info.name).Some? && es[i].content.Some?
    requires HoldsContents(files, es)
    ensures forall p :: p in files <==> NameOf(p) in Names(es)
  {
    hide NameOf, PathOf;
    forall p | NameOf(p) in Names(es) ensures p in files {
      var i :| 0 <= i < |es| && Names(es)[i] == NameOf(p);
      NamesArePaths(p, es[i].info.name);
    }
  }

  lemma InfoNames(es: seq<Entry>)
    requires forall i | 0 <= i < |es| :: InfoOk(es[i].info)
    ensures forall i | 0 <= i < |es| :: PathOf(es[i].info.name).Some?
  {
  }

  /** The checks on the directory listing. */
  method ValidateDirectory(es: seq<Entry>) returns (valid: bool)
    ensures valid <==> DirectoryOk(es)
  {
    hide InfoOk, NameOf;
    if !(1 <= |es| <= MAX_ENTRIES) { return false; }
    var names := Names(es);
    SetSizeTellsDistinct(names);
    if |names| != |set n | n in names| { return false; }
    for i := 0 to |es|
      invariant forall k | 0 <= k < i :: InfoOk(es[k].info)
    {
      if !InfoOk(es[i].info) { return false; }
    }
    var required := REQUIRED;
    for i := 0 to |required|
      invariant forall k | 0 <= k < i :: NameOf(required[k]) in names
    {
      if NameOf(required[i]) !in names { return false; }
    }
    return DeclaredTotal(es) <= MAX_TOTAL;
  }

  lemma {:induction false} TotalOfPrefix(es: seq<Entry>, n: nat)
    requires n <= |es| && forall i | 0 <= i < |es| :: es[i].info.fileSize >= 0
    ensures DeclaredTotal(es[..n]) <= DeclaredTotal(es)
    decreases |es| - n
  {
    if n == |es| {
      assert es[..n] == es;
    } else {
      TotalOfPrefix(es, n + 1);
      assert es[..n + 1][..n] == es[..n];
    }
  }

  /** The reading loop. The running total can never exceed the cap: every entry is read
      to exactly its declared size. */
  method ReadContents(es: seq<Entry>, grab: (nat, nat) -> nat) returns (r: Option<map<Path, Bytes>>)
    requires DirectoryOk(es)
    ensures r.Some? <==> ContentsOk(es)
    ensures r.Some? ==> r.value == FilesOf(es)
  {
    hide NameOf, PathOf, DirectoryOk, Limit;
    DirectoryFacts(es);
    var files: map<Path, Bytes> := map[];
    var total := 0;
    for i := 0 to |es|
      invariant ContentsOk(es[..i]) && files == FilesOf(es[..i])
      invariant total == DeclaredTotal(es[..i])
    {
      assert es[..i + 1][..i] == es[..i];
      var entry := es[i];
      if entry.content.None? { return None; }
      var stream := new Stream(entry.content.value, grab);
      var path := PathOf(entry.info.name).value;
      var data, _ := ReadEntryBounded(stream, Limit(path), entry.info.fileSize);
      if data.None? { return None; }
      total := total + |data.value|;
      TotalOfPrefix(es, i + 1);
      if total > MAX_TOTAL { return None; }
      files := files[path := data.value];
    }
    assert es[..|es|] == es;
    return Some(files);
  }

  lemma DirectoryFacts(es: seq<Entry>)
    requires DirectoryOk(es)
    ensures DeclaredTotal(es) <= MAX_TOTAL
    ensures forall i | 0 <= i < |es| ::
              InfoOk(es[i].info) && PathOf(es[i].info.name).Some? && 0 <= es[i].info.fileSize <= Limit(PathOf(es[i].info.name).value)
  {
  }

  // ----- checksums -----

  function PayloadNames(present: set<Path>): set<string> {
    set p | p in present && IsPayload(p) :: NameOf(p)
  }

  predicate ChecksumsOk(raw: RawChecksums, present: set<Path>) {
    && 4 <= |raw| <= 10
    && (forall k | k in raw :: PathOf(k).Some? && IsPayload(PathOf(k).value))
    && (forall p | p in REQUIRED && IsPayload(p) :: NameOf(p) in raw)
    && raw.Keys == PayloadNames(present)
    && DigestsOk(raw)
  }

  predicate DigestsOk(raw: RawChecksums) {
    forall k | k in raw :: raw[k].Some? && IsHex(raw[k].value, 64)
  }

  function Digests(raw: RawChecksums): map<string, string>
    requires DigestsOk(raw)
  {
    map k | k in raw :: raw[k].value
  }

  /** Where all required entries are present, exact coverage and well-formed digests imply
      the count, the allowed paths and the required paths. */
  lemma CoverageIsEnough(raw: RawChecksums, present: set<Path>)
    requires forall p | p in REQUIRED :: p in present
    ensures ChecksumsOk(raw, present) <==> raw.Keys == PayloadNames(present) && DigestsOk(raw)
  {
    hide NameOf, PathOf, IsPayload, DigestsOk;
    if raw.Keys == PayloadNames(present) {
      var paths := set p | p in present && IsPayload(p);
      assert raw.Keys == set p | p in paths :: NameOf(p);
      SizeOfNames(paths);
      PayloadCount(paths, present);
      assert |raw| == |raw.Keys|;
      forall k | k in raw ensures PathOf(k).Some? && IsPayload(PathOf(k).value) {
        var p :| p in paths && NameOf(p) == k;
        NamesArePaths(p, k);
      }
    }
  }

  lemma {:induction false} SizeOfNames(paths: set<Path>)
    ensures |set p | p in paths :: NameOf(p)| == |paths|
  {
    hide NameOf, PathOf;
    if paths == {} {
      assert (set p | p in paths :: NameOf(p)) == {};
    } else {
      var q :| q in paths;
      var rest := paths - {q};
      SizeOfNames(rest);
      var names, fewer := set p | p in paths :: NameOf(p), set p | p in rest :: NameOf(p);
      forall p | p in rest ensures NameOf(p) != NameOf(q) {
        NamesArePaths(p, NameOf(p));
        NamesArePaths(q, NameOf(q));
      }
      assert names == fewer + {NameOf(q)};
    }
  }

  lemma PayloadCount(paths: set<Path>, present: set<Path>)
    requires paths == set p | p in present && IsPayload(p)
    requires forall p | p in REQUIRED :: p in present
    ensures 4 <= |paths| <= 10
  {
    var least := {AvatarVrm, BodyprintJson, ProvenanceJson, ThumbnailPng};
    var motions := {MotionVrma(Gesture1), MotionVrma(Gesture2), MotionVrma(Gesture3),
                    MotionVrma(Idle), MotionVrma(Talk), MotionVrma(Walk)};
    assert REQUIRED[2] in REQUIRED && REQUIRED[3] in REQUIRED && REQUIRED[4] in REQUIRED && REQUIRED[5] in REQUIRED;
    SubsetSize(least, paths);
    forall p | p in paths ensures p in least + motions { PayloadCases(p); }
    SubsetSize(paths, least + motions);
  }

  lemma PayloadCases(p: Path)
    requires IsPayload(p)
    ensures p in {AvatarVrm, BodyprintJson, ProvenanceJson, ThumbnailPng} || p.MotionVrma?
    ensures p.MotionVrma? ==> p.motion in {Gesture1, Gesture2, Gesture3, Idle, Talk, Walk}
  {
    if p.MotionVrma? {
      match p.motion
      case Gesture1 =>
      case Gesture2 =>
      case Gesture3 =>
      case Idle =>
      case Talk =>
      case Walk =>
    }
  }

  lemma {:induction false} SubsetSize<T>(a: set<T>, b: set<T>)
    requires a <= b
    ensures |a| <= |b|
  {
    assert b == a + (b - a);
  }

  /** `_validate_checksums`. */
  method ValidateChecksums(raw: RawChecksums, present: set<Path>) returns (r: Option<map<string, string>>)
    ensures r.Some? <==> ChecksumsOk(raw, present)
    ensures r.Some? ==> r.value == Digests(raw)
  {
    hide NameOf, PathOf, IsPayload, IsHex;
    if !(4 <= |raw| <= 10) { return None; }
    if exists k | k in raw :: PathOf(k).None? || !IsPayload(PathOf(k).value) { return None; }
    if exists p | p in REQUIRED :: IsPayload(p) && NameOf(p) !in raw { return None; }
    if raw.Keys != PayloadNames(present) { return None; }
    var todo := raw.Keys;
    var result: map<string, string> := map[];
    while todo != {}
      invariant todo <= raw.Keys && result.Keys == raw.Keys - todo
      invariant forall k | k in result :: raw[k] == Some(result[k]) && IsHex(result[k], 64)
      decreases |todo|
    {
      var path :| path in todo;
      var digest := raw[path];
      if digest.None? || !IsHex(digest.value, 64) { return None; }
      result := result[path := digest.value];
      todo := todo - {path};
    }
    assert result == Digests(raw);
    return Some(result);
  }

  // ----- the whole package -----

  datatype Inspection = Inspection(
    bodyId: string, name: string, identity: Option<string>, manifest: Manifest, bodyprint: Bodyprint,
    provenance: Provenance, checksums: map<string, string>, sizes: map<Path, nat>)

  predicate MetadataOk(f: Formats, files: map<Path, Bytes>)
    requires forall p | p in REQUIRED :: p in files
  {
    assert REQUIRED[0] in REQUIRED && REQUIRED[1] in REQUIRED && REQUIRED[3] in REQUIRED && REQUIRED[4] in REQUIRED;
    var m, b, p, c := f.manifest.read(files[ManifestJson]), f.bodyprint.read(files[BodyprintJson]),
                      f.provenance.read(files[ProvenanceJson]), f.checksums.read(files[ChecksumsJson]);
    && m.Some? && b.Some? && p.Some? && c.Some?
    && ManifestOk(m.value) && f.bodyprintOk(b.value) && ProvenanceOk(f, p.value) && ChecksumsOk(c.value, files.Keys)
  }

  /** The recorded digests are those of the payloads. */
  predicate ChecksumsMatch(f: Formats, files: map<Path, Bytes>, raw: RawChecksums) {
    forall p | p in files && IsPayload(p) :: NameOf(p) in raw && raw[NameOf(p)] == Some(f.digest(files[p]))
  }

  ghost predicate AssetsOk(f: Formats, files: map<Path, Bytes>)
    requires AvatarVrm in files && ThumbnailPng in files
  {
    Glb.IsVrm1(f.gltf, files[AvatarVrm]) && |files[ThumbnailPng]| <= Png.THUMBNAIL_LIMIT && Png.IsPng(f.crc, files[ThumbnailPng])
  }

  predicate IdentityOk(m: Manifest, p: Provenance, expected: Option<string>) {
    var carried := IdentityFrom(p);
    && !carried.Unreadable?
    && (carried.Identity? ==> m.id == carried.id)
    && (expected.Some? ==> IsBodyId(expected.value) && m.id == expected.value && carried == Identity(expected.value))
  }

  ghost predicate FilesOk(f: Formats, files: map<Path, Bytes>, expected: Option<string>) {
    && (forall p | p in REQUIRED :: p in files)
    && AvatarVrm in files && ThumbnailPng in files && ManifestJson in files && ProvenanceJson in files && ChecksumsJson in files
    && MetadataOk(f, files)
    && ChecksumsMatch(f, files, f.checksums.read(files[ChecksumsJson]).value)
    && AssetsOk(f, files)
    && IdentityOk(f.manifest.read(files[ManifestJson]).value, f.provenance.read(files[ProvenanceJson]).value, expected)
  }

  function Inspected(f: Formats, files: map<Path, Bytes>): Inspection
    requires forall p | p in REQUIRED :: p in files
    requires MetadataOk(f, files)
  {
    assert REQUIRED[0] in REQUIRED && REQUIRED[1] in REQUIRED && REQUIRED[3] in REQUIRED && REQUIRED[4] in REQUIRED;
    var m, p := f.manifest.read(files[ManifestJson]).value, f.provenance.read(files[ProvenanceJson]).value;
    var carried := IdentityFrom(p);
    Inspection(m.id, m.name, if carried.Identity? then Some(carried.id) else None, m,
               f.bodyprint.read(files[BodyprintJson]).value, p, Digests(f.checksums.read(files[ChecksumsJson]).value),
               map q | q in files :: |files[q]|)
  }

  ghost predicate PackageOk(f: Formats, z: Zip, archive: Bytes, expected: Option<string>) {
    && 0 < |archive| <= MAX_ARCHIVE
    && z.unpack(archive).Some?
    && DirectoryOk(z.unpack(archive).value) && ContentsOk(z.unpack(archive).value)
    && FilesOk(f, FilesOf(z.unpack(archive).value), expected)
  }

  /** The files of a package. */
  function PackageFiles(f: Formats, z: Zip, archive: Bytes): map<Path, Bytes>
    requires z.unpack(archive).Some? && DirectoryOk(z.unpack(archive).value) && ContentsOk(z.unpack(archive).value)
  {
    FilesOf(z.unpack(archive).value)
  }

  lemma RequiredPresent(es: seq<Entry>)
    requires DirectoryOk(es) && ContentsOk(es)
    ensures var files := FilesOf(es);
            && (forall p | p in REQUIRED :: p in files)
            && ManifestJson in files && ChecksumsJson in files && AvatarVrm in files
            && BodyprintJson in files && ProvenanceJson in files && ThumbnailPng in files
  {
    hide NameOf, InfoOk, PathOf;
    FilesMeaning(es);
    KeysAreNames(FilesOf(es), es);
    forall i | 0 <= i < |REQUIRED| ensures REQUIRED[i] in FilesOf(es) {
    }
    assert REQUIRED[0] in FilesOf(es) && REQUIRED[1] in FilesOf(es) && REQUIRED[2] in FilesOf(es);
    assert REQUIRED[3] in FilesOf(es) && REQUIRED[4] in FilesOf(es) && REQUIRED[5] in FilesOf(es);
  }

  /** One entry of an accepted archive: a regular file, stored or deflated and not encrypted,
      under one of twelve names, and no larger than its name allows. A directory, a symbolic
      link (kind 0xA000) or a device cannot be one. */
  predicate PlainEntry(e: Entry) {
    && !e.info.isDir && !e.info.encrypted && e.info.kind in {0, 0x8000} && e.info.compression in {0, 8}
    && e.content.Some? && |e.content.value| == e.info.fileSize
    && e.info.name in {"manifest.json", "checksums.json", "avatar.vrm", "bodyprint.json", "provenance.json", "thumbnail.png",
                       "motions/idle.vrma", "motions/walk.vrma", "motions/talk.vrma",
                       "motions/gesture_01.vrma", "motions/gesture_02.vrma", "motions/gesture_03.vrma"}
    && e.info.fileSize <= (if e.info.name == "avatar.vrm" then 201326592
                           else if e.info.name == "thumbnail.png" then 8388608
                           else if |e.info.name| > 8 && e.info.name[..8] == "motions/" then 33554432 else 524288)
  }

  lemma EntryIsPlain(e: Entry)
    requires InfoOk(e.info) && e.content.Some? && |e.content.value| == e.info.fileSize
    ensures PlainEntry(e)
  {
  }

  /** What an accepted archive contains: at most twelve plain entries under different names,
      256 MiB together, among them the six required ones, an avatar that is a VRM 1.0 file
      and a thumbnail that is a PNG. */
  lemma PackageContains(f: Formats, z: Zip, archive: Bytes, expected: Option<string>)
    requires PackageOk(f, z, archive, expected)
    ensures z.unpack(archive).Some?
    ensures var es := z.unpack(archive).value;
            && 6 <= |es| <= 12 && Distinct(Names(es)) && DeclaredTotal(es) <= 268435456
            && (forall i | 0 <= i < |es| :: PlainEntry(es[i]))
            && (forall name | name in {"manifest.json", "checksums.json", "avatar.vrm", "bodyprint.json", "provenance.json",
                                       "thumbnail.png"} :: name in Names(es))
            && (forall i | 0 <= i < |es| && es[i].info.name == "avatar.vrm" :: Glb.IsVrm1(f.gltf, es[i].content.value))
            && (forall i | 0 <= i < |es| && es[i].info.name == "thumbnail.png" :: Png.IsPng(f.crc, es[i].content.value))
  {
    hide InfoOk, PlainEntry, MetadataOk, ChecksumsMatch, IdentityOk, NameOf, PathOf;
    var es := z.unpack(archive).value;
    forall i | 0 <= i < |es| ensures PlainEntry(es[i]) { EntryIsPlain(es[i]); }
    FilesMeaning(es);
    RequiredNames(es);
    NamesArePaths(AvatarVrm, "avatar.vrm");
    NamesArePaths(ThumbnailPng, "thumbnail.png");
    LiteralNames();
  }

  lemma LiteralNames()
    ensures NameOf(AvatarVrm) == "avatar.vrm" && NameOf(ThumbnailPng) == "thumbnail.png"
  {
  }

  lemma RequiredNames(es: seq<Entry>)
    requires DirectoryOk(es)
    ensures forall name | name in {"manifest.json", "checksums.json", "avatar.vrm", "bodyprint.json", "provenance.json",
                                   "thumbnail.png"} :: name in Names(es)
    ensures |es| >= 6
  {
    var r := REQUIRED;
    assert NameOf(r[0]) == "manifest.json" && NameOf(r[1]) == "checksums.json" && NameOf(r[2]) == "avatar.vrm";
    assert NameOf(r[3]) == "bodyprint.json" && NameOf(r[4]) == "provenance.json" && NameOf(r[5]) == "thumbnail.png";
    var wanted := {"manifest.json", "checksums.json", "avatar.vrm", "bodyprint.json", "provenance.json", "thumbnail.png"};
    assert wanted <= set name | name in Names(es);
    SixNames(wanted);
    SubsetSize(wanted, set name | name in Names(es));
    SetSizeTellsDistinct(Names(es));
  }

  lemma SixNames(wanted: set<string>)
    requires wanted == {"manifest.json", "checksums.json", "avatar.vrm", "bodyprint.json", "provenance.json", "thumbnail.png"}
    ensures |wanted| == 6
  {
    assert |"manifest.json"| == 13 && |"checksums.json"| == 14 && |"avatar.vrm"| == 10;
    assert "bodyprint.json"[0] == 'b' && |"provenance.json"| == 15 && "thumbnail.png"[0] == 't';
  }

  /** The checksums file determines the payloads: two accepted sets of files with the same
      checksums file have the same payload paths, and under each the same bytes unless two
      different contents share a digest. */
  lemma ChecksumsPin(f: Formats, a: map<Path, Bytes>, b: map<Path, Bytes>, p: Path)
    requires FilesOk(f, a, None) && FilesOk(f, b, None) && a[ChecksumsJson] == b[ChecksumsJson] && IsPayload(p)
    ensures p in a <==> p in b
    ensures p in a ==> f.digest(a[p]) == f.digest(b[p])
  {
    hide NameOf, PathOf, IsHex, ManifestOk, ProvenanceOk, AssetsOk, IdentityOk, DigestsOk;
    var raw := f.checksums.read(a[ChecksumsJson]).value;
    PayloadListed(a.Keys, p);
    PayloadListed(b.Keys, p);
    assert raw.Keys == PayloadNames(a.Keys) == PayloadNames(b.Keys);
  }

  lemma PayloadListed(present: set<Path>, p: Path)
    requires IsPayload(p)
    ensures p in present <==> NameOf(p) in PayloadNames(present)
  {
    hide NameOf, PathOf;
    if NameOf(p) in PayloadNames(present) {
      var q :| q in present && IsPayload(q) && NameOf(q) == NameOf(p);
      NamesArePaths(p, NameOf(p));
      NamesArePaths(q, NameOf(p));
    }
  }

  /** An identity that the provenance carries is the package's body id. */
  lemma CarriedIsBodyId(f: Formats, files: map<Path, Bytes>, expected: Option<string>)
    requires FilesOk(f, files, expected)
    ensures (forall p | p in REQUIRED :: p in files) && MetadataOk(f, files)
    ensures var i := Inspected(f, files);
            && i.bodyId == i.manifest.id && i.name == i.manifest.name && i.name != ""
            && (i.identity.Some? ==> i.identity.value == i.bodyId && IdentityFrom(i.provenance) == Identity(i.bodyId))
            && (expected.Some? ==> i.bodyId == expected.value && i.identity == expected)
            && f.manifest.read(files[ManifestJson]) == Some(i.manifest) && f.bodyprint.read(files[BodyprintJson]) == Some(i.bodyprint)
            && f.provenance.read(files[ProvenanceJson]) == Some(i.provenance)
  {
    hide IsBodyId, IsHex, ChecksumsMatch, AssetsOk, IdentityFrom, ChecksumsOk, ProvenanceOk, IsManifestId, IsVersion;
    assert REQUIRED[0] in REQUIRED && REQUIRED[1] in REQUIRED && REQUIRED[3] in REQUIRED && REQUIRED[4] in REQUIRED;
  }

  /** A covered name belongs to one payload. */
  lemma PayloadOfName(raw: RawChecksums, present: set<Path>, name: string)
    requires ChecksumsOk(raw, present) && name in raw
    ensures PathOf(name).Some? && PathOf(name).value in present && IsPayload(PathOf(name).value)
    ensures forall p | p in present && IsPayload(p) :: NameOf(p) == name <==> p == PathOf(name).value
    ensures raw[name].Some?
  {
    hide NameOf, PathOf, IsPayload, IsHex;
    assert name in PayloadNames(present);
    var q :| q in present && IsPayload(q) && NameOf(q) == name;
    NamesArePaths(q, name);
    forall p | p in present && IsPayload(p) ensures NameOf(p) == name <==> p == q { NamesArePaths(p, name); }
  }

  lemma NamesCovered(raw: RawChecksums, present: set<Path>)
    requires ChecksumsOk(raw, present)
    ensures forall p | p in present && IsPayload(p) :: NameOf(p) in raw
  {
    hide NameOf, PathOf, IsPayload, IsHex;
    assert forall p | p in present && IsPayload(p) :: NameOf(p) in PayloadNames(present);
  }

  /** The loop over the recorded digests. */
  method CompareChecksums(f: Formats, files: map<Path, Bytes>, raw: RawChecksums, checksums: map<string, string>)
    returns (same: bool)
    requires ChecksumsOk(raw, files.Keys) && checksums == Digests(raw)
    ensures same <==> ChecksumsMatch(f, files, raw)
  {
    hide NameOf, PathOf, IsPayload, ChecksumsOk, DigestsOk;
    var todo := checksums.Keys;
    NamesCovered(raw, files.Keys);
    while todo != {}
      invariant todo <= checksums.Keys
      invariant forall p | p in files && IsPayload(p) && NameOf(p) !in todo :: raw[NameOf(p)] == Some(f.digest(files[p]))
      decreases |todo|
    {
      var name :| name in todo;
      PayloadOfName(raw, files.Keys, name);
      var path := PathOf(name).value;
      if f.digest(files[path]) != checksums[name] { return false; }
      todo := todo - {name};
    }
    return true;
  }

  /** The checks after extraction into memory. */
  method ValidateFiles(f: Formats, files: map<Path, Bytes>, expected: Option<string>) returns (r: Option<Inspection>)
    requires forall p | p in REQUIRED :: p in files
    requires ManifestJson in files && ChecksumsJson in files && AvatarVrm in files
    requires BodyprintJson in files && ProvenanceJson in files && ThumbnailPng in files
    ensures r.Some? <==> FilesOk(f, files, expected)
    ensures r.Some? ==> r.value == Inspected(f, files)
  {
    hide ChecksumsOk, ManifestOk, ProvenanceOk, IdentityFrom, IsBodyId, ChecksumsMatch;
    var manifest, bodyprint := f.manifest.read(files[ManifestJson]), f.bodyprint.read(files[BodyprintJson]);
    var provenance, raw := f.provenance.read(files[ProvenanceJson]), f.checksums.read(files[ChecksumsJson]);
    if manifest.None? || bodyprint.None? || provenance.None? || raw.None? { return None; }
    if !ManifestOk(manifest.value) || !f.bodyprintOk(bodyprint.value) || !ProvenanceOk(f, provenance.value) { return None; }
    var checksums := ValidateChecksums(raw.value, files.Keys);
    if checksums.None? { return None; }
    var same := CompareChecksums(f, files, raw.value, checksums.value);
    if !same { return None; }
    var avatarOk := Glb.ValidateVrm1(f.gltf, files[AvatarVrm]);
    if !avatarOk { return None; }
    var thumbnailOk := Png.ValidatePng(f.crc, files[ThumbnailPng]);
    if !thumbnailOk { return None; }
    var carried := IdentityFrom(provenance.value);
    if carried.Unreadable? { return None; }
    if carried.Identity? && manifest.value.id != carried.id { return None; }
    if expected.Some? {
      if !IsBodyId(expected.value) || manifest.value.id != expected.value || carried != Identity(expected.value) { return None; }
    }
    return Some(Inspection(manifest.value.id, manifest.value.name, if carried.Identity? then Some(carried.id) else None,
                           manifest.value, bodyprint.value, provenance.value, checksums.value, map q | q in files :: |files[q]|));
  }

  /** `validate_mrbody`. However short the reads fall, the verdict is the same. */
  method ValidatePackage(f: Formats, z: Zip, archive: Bytes, expected: Option<string>, grab: (nat, nat) -> nat)
    returns (r: Option<Inspection>)
    ensures r.Some? <==> PackageOk(f, z, archive, expected)
    ensures r.Some? ==> r.value == Inspected(f, PackageFiles(f, z, archive))
  {
    hide DirectoryOk, ContentsOk, FilesOk, MetadataOk;
    if archive == [] || |archive| > MAX_ARCHIVE { return None; }
    var listing := z.unpack(archive);
    if listing.None? { return None; }
    var valid := ValidateDirectory(listing.value);
    if !valid { return None; }
    var files := ReadContents(listing.value, grab);
    if files.None? { return None; }
    RequiredPresent(listing.value);
    r := ValidateFiles(f, files.value, expected);
  }
}
