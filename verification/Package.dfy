/** The `.mrbody` package: its entries, its metadata rules and the bounded entry reader. */
module Package {
  import opened Basics
  import opened Bytes
  import Glb
  import Png

  // ----- entry names -----

  /** The optional motions, in the order of their paths. */
  datatype Motion = Gesture1 | Gesture2 | Gesture3 | Idle | Talk | Walk

  datatype Path = ManifestJson | ChecksumsJson | AvatarVrm | BodyprintJson | ProvenanceJson | ThumbnailPng | MotionVrma(motion: Motion)

  const REQUIRED: seq<Path> := [ManifestJson, ChecksumsJson, AvatarVrm, BodyprintJson, ProvenanceJson, ThumbnailPng]
  const SORTED_MOTIONS: seq<Motion> := [Gesture1, Gesture2, Gesture3, Idle, Talk, Walk]
  const MOTIONS: seq<Motion> := [Idle, Walk, Talk, Gesture1, Gesture2, Gesture3]

  const MAX_ENTRIES := 12
  const MAX_TOTAL := 256 * 1024 * 1024
  const MAX_ARCHIVE := 260 * 1024 * 1024

  function NameOf(p: Path): string {
    match p
    case ManifestJson => "manifest.json"
    case ChecksumsJson => "checksums.json"
    case AvatarVrm => "avatar.vrm"
    case BodyprintJson => "bodyprint.json"
    case ProvenanceJson => "provenance.json"
    case ThumbnailPng => "thumbnail.png"
    case MotionVrma(m) =>
      match m
      case Gesture1 => "motions/gesture_01.vrma"
      case Gesture2 => "motions/gesture_02.vrma"
      case Gesture3 => "motions/gesture_03.vrma"
      case Idle => "motions/idle.vrma"
      case Talk => "motions/talk.vrma"
      case Walk => "motions/walk.vrma"
  }

  /** The twelve allowed names. */
  function PathOf(name: string): Option<Path> {
    if name == "manifest.json" then Some(ManifestJson)
    else if name == "checksums.json" then Some(ChecksumsJson)
    else if name == "avatar.vrm" then Some(AvatarVrm)
    else if name == "bodyprint.json" then Some(BodyprintJson)
    else if name == "provenance.json" then Some(ProvenanceJson)
    else if name == "thumbnail.png" then Some(ThumbnailPng)
    else if name == "motions/gesture_01.vrma" then Some(MotionVrma(Gesture1))
    else if name == "motions/gesture_02.vrma" then Some(MotionVrma(Gesture2))
    else if name == "motions/gesture_03.vrma" then Some(MotionVrma(Gesture3))
    else if name == "motions/idle.vrma" then Some(MotionVrma(Idle))
    else if name == "motions/talk.vrma" then Some(MotionVrma(Talk))
    else if name == "motions/walk.vrma" then Some(MotionVrma(Walk))
    else None
  }

  /** Names and paths determine each other. */
  lemma NamesArePaths(p: Path, name: string)
    ensures PathOf(NameOf(p)) == Some(p)
    ensures PathOf(name) == Some(p) <==> name == NameOf(p)
  {
  }

  function Limit(p: Path): nat {
    match p
    case AvatarVrm => Glb.AVATAR_LIMIT
    case ThumbnailPng => Png.THUMBNAIL_LIMIT
    case MotionVrma(_) => 32 * 1024 * 1024
    case _ => 512 * 1024
  }

  predicate IsPayload(p: Path) {
    p != ManifestJson && p != ChecksumsJson
  }

  // ----- metadata -----

  predicate IsBodyId(s: string) {
    |s| == 31 && s[..7] == "bodyid-" && IsHex(s[7..], 24)
  }

  predicate IsManifestId(s: string) {
    1 <= |s| <= 160 && forall i | 0 <= i < |s| ::
      'a' <= s[i] <= 'z' || '0' <= s[i] <= '9' || s[i] in "\U{00E6}\U{00F8}\U{00E5}_-"
  }

  lemma BodyIdIsManifestId(s: string)
    requires IsBodyId(s)
    ensures IsManifestId(s)
  {
    var prefix := "bodyid-";
    forall i | 0 <= i < |s| ensures 'a' <= s[i] <= 'z' || '0' <= s[i] <= '9' || s[i] == '-' {
      if i < 7 {
        assert s[i] == s[..7][i] == prefix[i];
      } else {
        assert s[i] == s[7..][i - 7];
      }
    }
  }

  /** `manifest.json`, once its keys and constant fields are right. */
  datatype Manifest = Manifest(id: string, name: string, builderVersion: string, revision: Option<string>)

  predicate IsVersion(s: string) {
    1 <= |s| <= 64 && forall i | 0 <= i < |s| ::
      'a' <= s[i] <= 'z' || 'A' <= s[i] <= 'Z' || '0' <= s[i] <= '9' || s[i] in ".+_-"
  }

  predicate IsName(s: string) {
    1 <= |s| <= 160
  }

  predicate ManifestOk(m: Manifest) {
    && IsManifestId(m.id) && IsName(m.name) && IsVersion(m.builderVersion)
    && (m.revision.Some? ==> IsHex(m.revision.value, 40))
  }

  datatype Stage = Stage(stage: string, adapter: string, revision: string)

  datatype Provenance = Provenance(createdAt: string, sourceCount: int, pipeline: seq<Stage>)

  /** `bodyprint.json`: sections of named numbers. */
  type Bodyprint = map<string, map<string, real>>

  /** A JSON document on disk: writing can fail on text that has no UTF-8 form, reading
      fails on anything malformed or without the expected keys. */
  datatype Format<!T> = Format(write: T -> Option<Bytes>, read: Bytes -> Option<T>)

  ghost predicate RoundTrips<T(!new)>(f: Format<T>) {
    forall x | f.write(x).Some? :: f.read(f.write(x).value) == Some(x)
  }

  /** `checksums.json`: a value is None where it is not a string. */
  type RawChecksums = map<string, Option<string>>

  datatype Formats = Formats(
    manifest: Format<Manifest>, bodyprint: Format<Bodyprint>, provenance: Format<Provenance>, checksums: Format<RawChecksums>,
    bodyprintOk: Bodyprint -> bool, stageOk: Stage -> bool, timeOk: string -> bool,
    digest: Bytes -> string, crc: Png.Crc, gltf: Glb.Parse)

  ghost predicate FormatsOk(f: Formats) {
    && RoundTrips(f.manifest) && RoundTrips(f.bodyprint) && RoundTrips(f.provenance) && RoundTrips(f.checksums)
    && forall b :: IsHex(f.digest(b), 64)
  }

  predicate ProvenanceOk(f: Formats, p: Provenance) {
    && f.timeOk(p.createdAt) && 1 <= p.sourceCount <= 10 && 1 <= |p.pipeline| <= 32
    && forall i | 0 <= i < |p.pipeline| :: f.stageOk(p.pipeline[i])
  }

  // ----- the identity a package carries -----

  const IDENTITY_STAGE := "identity_content"
  const BUNDLE_AUTHORITY := "modelrig.bodyrig.identity_bundle"
  const PORTABLE_AUTHORITY := "bodyrig.portable_identity"

  /** What the provenance says about the identity. */
  datatype Carried = Unreadable | NoIdentity | Identity(id: string)

  function IdentityStages(pipeline: seq<Stage>): seq<Stage> {
    if pipeline == [] then []
    else (if pipeline[0].stage == IDENTITY_STAGE then [pipeline[0]] else []) + IdentityStages(pipeline[1..])
  }

  /** `_identity_from_provenance`. */
  function IdentityFrom(p: Provenance): Carried {
    var stages := IdentityStages(p.pipeline);
    if stages == [] then NoIdentity
    else if |stages| != 1 then Unreadable
    else if stages[0].adapter != BUNDLE_AUTHORITY && stages[0].adapter != PORTABLE_AUTHORITY then NoIdentity
    else if !IsHex(stages[0].revision, 24) then Unreadable
    else Identity("bodyid-" + stages[0].revision)
  }

  /** The identity read is always a canonical body id, and some stage named it. */
  lemma IdentityIsBodyId(p: Provenance)
    requires IdentityFrom(p).Identity?
    ensures IsBodyId(IdentityFrom(p).id)
    ensures exists s | s in p.pipeline :: s.stage == IDENTITY_STAGE && IdentityFrom(p).id == "bodyid-" + s.revision
  {
    var stages := IdentityStages(p.pipeline);
    var id := "bodyid-" + stages[0].revision;
    assert id[..7] == "bodyid-" && id[7..] == stages[0].revision;
    StageIsListed(p.pipeline);
  }

  lemma {:induction false} StageIsListed(pipeline: seq<Stage>)
    ensures forall s | s in IdentityStages(pipeline) :: s in pipeline && s.stage == IDENTITY_STAGE
  {
    if pipeline != [] {
      StageIsListed(pipeline[1..]);
      assert pipeline == [pipeline[0]] + pipeline[1..];
    }
  }

  // ----- entries -----

  /** The directory record of a ZIP entry. */
  datatype Info = Info(name: string, isDir: bool, encrypted: bool, compression: int, kind: int, fileSize: int, compressSize: int)

  /** An entry with what it expands to, or None if reading it fails. */
  datatype Entry = Entry(info: Info, content: Option<Bytes>)

  const REGULAR := 0x8000

  /** `_validate_zip_info`. The path rules reduce to the list of allowed paths. */
  predicate InfoOk(i: Info) {
    && PathOf(i.name).Some? && !i.isDir && !i.encrypted
    && (i.compression == 0 || i.compression == 8)
    && (i.kind == 0 || i.kind == REGULAR)
    && 0 <= i.fileSize <= Limit(PathOf(i.name).value)
    && i.compressSize >= 0
  }

  /** A decompressed entry being read. `grab` decides how short each read falls. */
  class Stream {
    const data: Bytes
    const grab: (nat, nat) -> nat
    var position: nat

    constructor (data: Bytes, grab: (nat, nat) -> nat)
      ensures this.data == data && this.grab == grab && position == 0
    {
      this.data, this.grab, position := data, grab, 0;
    }

    ghost predicate Valid()
      reads this
    {
      position <= |data|
    }

    /** `read`: at most `n` bytes, none only at the end. */
    method Read(n: nat) returns (chunk: Bytes)
      requires Valid()
      modifies this`position
      ensures Valid() && old(position) <= position <= old(position) + n
      ensures chunk == data[old(position)..position]
      ensures n > 0 && old(position) < |data| ==> position > old(position)
    {
      var most := if n <= |data| - position then n else |data| - position;
      var wanted := grab(position, n);
      var count := if wanted > most then most else if wanted == 0 && most > 0 then 1 else wanted;
      chunk := data[position..position + count];
      position := position + count;
    }
  }

  const BLOCK := 64 * 1024

  /** `_read_entry_bounded`: the whole entry if it is no larger than its cap and as large
      as declared; whatever the stream does, no more than one byte past the cap is read. */
  method ReadEntryBounded(stream: Stream, cap: nat, fileSize: int) returns (r: Option<Bytes>, held: nat)
    requires stream.Valid() && stream.position == 0
    modifies stream`position
    ensures r == if |stream.data| <= cap && |stream.data| == fileSize then Some(stream.data) else None
    ensures held == stream.position <= cap + 1
  {
    var output: Bytes := [];
    while true
      invariant stream.Valid() && stream.position <= cap
      invariant output == stream.data[..stream.position]
      decreases |stream.data| - stream.position
    {
      var want := if BLOCK <= cap + 1 - |output| then BLOCK else cap + 1 - |output|;
      var chunk := stream.Read(want);
      if chunk == [] { break; }
      output := output + chunk;
      if |output| > cap { return None, |output|; }
    }
    assert output == stream.data;
    held := |output|;
    if |output| != fileSize { return None, held; }
    return Some(output), held;
  }
}
