/** `MRBodyProfileStore`: validate, stage, re-read and replace, with one commit point. */
module ProfileStore {
  import opened Basics
  import opened Bytes
  import opened Package
  import opened PackageValidator

  datatype StoreError = BadBodyId | InvalidPackage | NotInstalled | TooLarge | Interrupted | StagedDiffers | ReplaceFailed

  /** What can happen at an injection point: nothing, an exception, or other bytes in the
      staged file. */
  datatype Injection<T> = Proceed | Raise | Tamper(data: T)

  /** What goes wrong around one staged write. */
  datatype Faults<T> = Faults(staging: bool, afterStage: Injection<T>, afterCheck: Injection<T>, replacing: bool)

  datatype Receipt = Receipt(bodyId: string, name: string, sha: string, size: nat)

  datatype Stored = Stored(archive: Bytes, inspection: Inspection, receipt: Receipt)

  function TempAfter<T>(i: Injection<T>, data: T): T {
    if i.Tamper? then i.data else data
  }

  /** No two of the given byte strings share a digest. */
  ghost predicate NoCollisions(digest: Bytes -> string, given: set<Bytes>) {
    forall a, b | a in given && b in given && digest(a) == digest(b) :: a == b
  }

  ghost function InspectionOf(f: Formats, z: Zip, archive: Bytes, expected: Option<string>): Inspection
    requires PackageOk(f, z, archive, expected)
  {
    Inspected(f, PackageFiles(f, z, archive))
  }

  /** The archive is a package with a canonical body id. */
  ghost predicate Acceptable(f: Formats, z: Zip, archive: Bytes, expected: Option<string>) {
    PackageOk(f, z, archive, expected) && IsBodyId(InspectionOf(f, z, archive, expected).bodyId)
  }

  /** A package that validates for an identity has that identity as its body id. */
  lemma ExpectedIsBodyId(f: Formats, z: Zip, archive: Bytes, id: string)
    requires PackageOk(f, z, archive, Some(id))
    ensures IsBodyId(id) && InspectionOf(f, z, archive, Some(id)).bodyId == id
    ensures PackageOk(f, z, archive, None) && Acceptable(f, z, archive, Some(id))
  {
    hide DirectoryOk, ContentsOk, MetadataOk, ChecksumsMatch, AssetsOk, IsBodyId, IdentityFrom;
  }

  /** The check on the staged file before it is committed. */
  ghost predicate StagedOk(f: Formats, z: Zip, id: string, archive: Bytes, temp: Bytes) {
    && |temp| <= MAX_ARCHIVE && |temp| == |archive| && f.digest(temp) == f.digest(archive)
    && PackageOk(f, z, temp, Some(id))
  }

  function ReceiptOf(f: Formats, archive: Bytes, i: Inspection): Receipt {
    Receipt(i.bodyId, i.name, f.digest(archive), |archive|)
  }

  /** What `load` returns. */
  ghost function Loaded(f: Formats, z: Zip, profiles: map<string, Bytes>, id: string): Result<Stored, StoreError> {
    if !IsBodyId(id) then Err(BadBodyId)
    else if id !in profiles then Err(NotInstalled)
    else if |profiles[id]| > MAX_ARCHIVE then Err(TooLarge)
    else if !PackageOk(f, z, profiles[id], Some(id)) then Err(InvalidPackage)
    else
      var i := InspectionOf(f, z, profiles[id], Some(id));
      Ok(Stored(profiles[id], i, ReceiptOf(f, profiles[id], i)))
  }

  /** An install succeeds: the input is acceptable, nothing fails, and the staged file is
      found to hold a package with the input's size and digest. */
  ghost predicate InstallOk(f: Formats, z: Zip, archive: Bytes, expected: Option<string>, faults: Faults<Bytes>) {
    && Acceptable(f, z, archive, expected)
    && !faults.staging && !faults.afterStage.Raise?
    && StagedOk(f, z, InspectionOf(f, z, archive, expected).bodyId, archive, TempAfter(faults.afterStage, archive))
    && !faults.afterCheck.Raise? && !faults.replacing
  }

  /** The bytes that are in the staged file when it is renamed. */
  function Committed<T>(data: T, faults: Faults<T>): T {
    TempAfter(faults.afterCheck, TempAfter(faults.afterStage, data))
  }

  class Store {
    const f: Formats
    const z: Zip
    const grab: (nat, nat) -> nat
    /** The visible packages, by body id, and the staged sibling. */
    var profiles: map<string, Bytes>
    var temp: Option<Bytes>

    constructor (f: Formats, z: Zip, grab: (nat, nat) -> nat)
      ensures this.f == f && this.z == z && profiles == map[] && temp == None
    {
      this.f, this.z, this.grab, profiles, temp := f, z, grab, map[], None;
    }

    /** `install`: on failure nothing visible changes; on success exactly the one package
        is replaced. */
    method Install(archive: Bytes, expected: Option<string>, faults: Faults<Bytes>) returns (r: Result<Receipt, StoreError>)
      modifies this
      ensures temp == None
      ensures r.Ok? <==> InstallOk(f, z, archive, expected, faults)
      ensures r.Err? ==> profiles == old(profiles)
      ensures r.Ok? ==>
                var id := InspectionOf(f, z, archive, expected).bodyId;
                && profiles == old(profiles)[id := Committed(archive, faults)]
                && r.value == ReceiptOf(f, TempAfter(faults.afterStage, archive),
                                        InspectionOf(f, z, TempAfter(faults.afterStage, archive), Some(id)))
    {
      hide PackageOk, Inspected, IsBodyId, PackageFiles;
      temp := None;
      var inspection := ValidatePackage(f, z, archive, expected, grab);
      if inspection.None? { return Err(InvalidPackage); }
      var id := inspection.value.bodyId;
      if !IsBodyId(id) { return Err(BadBodyId); }
      if faults.staging { return Err(Interrupted); }
      temp := Some(archive);
      if faults.afterStage.Tamper? { temp := Some(faults.afterStage.data); }
      if faults.afterStage.Raise? {
        temp := None;
        return Err(Interrupted);
      }
      var staged := temp.value;
      if |staged| > MAX_ARCHIVE || |staged| != |archive| || f.digest(staged) != f.digest(archive) {
        temp := None;
        return Err(StagedDiffers);
      }
      var again := ValidatePackage(f, z, staged, Some(id), grab);
      if again.None? || again.value.bodyId != id {
        if again.Some? { ExpectedIsBodyId(f, z, staged, id); }
        temp := None;
        return Err(InvalidPackage);
      }
      if faults.afterCheck.Tamper? { temp := Some(faults.afterCheck.data); }
      if faults.afterCheck.Raise? {
        temp := None;
        return Err(Interrupted);
      }
      if faults.replacing {
        temp := None;
        return Err(ReplaceFailed);
      }
      profiles, temp := profiles[id := temp.value], None;
      return Ok(ReceiptOf(f, staged, again.value));
    }

    /** `load`. */
    method Load(id: string) returns (r: Result<Stored, StoreError>)
      ensures r == Loaded(f, z, profiles, id)
    {
      hide PackageOk, Inspected, IsBodyId, PackageFiles;
      if !IsBodyId(id) { return Err(BadBodyId); }
      if id !in profiles { return Err(NotInstalled); }
      var archive := profiles[id];
      if |archive| > MAX_ARCHIVE { return Err(TooLarge); }
      var inspection := ValidatePackage(f, z, archive, Some(id), grab);
      if inspection.None? { return Err(InvalidPackage); }
      return Ok(Stored(archive, inspection.value, ReceiptOf(f, archive, inspection.value)));
    }
  }

  /** The staged bytes that pass the check are the given ones. If other bytes are written
      into the staged file after that, they become visible; but then a later load does not
      return the digest of the install's receipt, and it does whenever they are not. */
  lemma InstallCommitsExactly(f: Formats, z: Zip, profiles: map<string, Bytes>, archive: Bytes, expected: Option<string>,
                              faults: Faults<Bytes>)
    requires InstallOk(f, z, archive, expected, faults)
    requires NoCollisions(f.digest, {archive, TempAfter(faults.afterStage, archive), Committed(archive, faults)})
    ensures TempAfter(faults.afterStage, archive) == archive
    ensures var id := InspectionOf(f, z, archive, expected).bodyId;
            var r := Loaded(f, z, profiles[id := Committed(archive, faults)], id);
            (r.Ok? && r.value.receipt.sha == f.digest(archive)) <==>
            !(faults.afterCheck.Tamper? && faults.afterCheck.data != archive)
  {
    hide PackageOk, IsBodyId, Inspected, PackageFiles;
    var id := InspectionOf(f, z, archive, expected).bodyId;
    ExpectedIsBodyId(f, z, archive, id);
    if PackageOk(f, z, Committed(archive, faults), Some(id)) { ExpectedIsBodyId(f, z, Committed(archive, faults), id); }
  }

  /** What was installed and left alone can be loaded, with the same receipt. */
  lemma InstallThenLoad(f: Formats, z: Zip, profiles: map<string, Bytes>, archive: Bytes, expected: Option<string>,
                        faults: Faults<Bytes>)
    requires InstallOk(f, z, archive, expected, faults) && !faults.afterCheck.Tamper?
    requires NoCollisions(f.digest, {archive, TempAfter(faults.afterStage, archive)})
    ensures var id := InspectionOf(f, z, archive, expected).bodyId;
            var r := Loaded(f, z, profiles[id := Committed(archive, faults)], id);
            && r.Ok? && r.value.archive == archive && r.value.receipt.sha == f.digest(archive) && r.value.receipt.bodyId == id
            && r.value.receipt.size == |archive| && r.value.receipt.name == InspectionOf(f, z, archive, expected).name
  {
    hide PackageOk, IsBodyId, Inspected, PackageFiles;
    ExpectedIsBodyId(f, z, archive, InspectionOf(f, z, archive, expected).bodyId);
  }
}
