/** The append-only, hash-chained evidence journal: reading a stored table back
    (`_rows`), appending to it (`_append`, `_init`) and what the chain guarantees.

    SHA-256, JSON and timestamps are not defined here. They are the function-valued
    fields of a `Codec`; what a theorem needs of them is one of its preconditions. */
module JournalStore {
  import opened Basics

  type Digest = string

  const JOURNAL_SCHEMA := "kaliv-agent3-write-pilot-journal/v1"
  const GENESIS: Digest := "0000000000000000000000000000000000000000000000000000000000000000"

  /** A JSON value as far as the journal looks into it; `Other` is any list, object,
      boolean, null or fraction. */
  datatype Value = Str(text: string) | Num(number: int) | Other(json: string)

  type Payload = map<string, Value>

  datatype Parsed = Malformed | NotObject | Object(payload: Payload)

  /** What a record hash covers. */
  datatype Preimage = Preimage(
    seqNo: int, recordedAt: string, kind: string, caseId: Option<string>,
    payload: Payload, previous: Digest)

  /** A stored row: the payload is still text. */
  datatype Row = Row(
    seqNo: int, recordedAt: string, kind: string, caseId: Option<string>,
    payloadText: string, previous: Digest, hash: Digest)

  /** A row read back: the payload has been parsed. */
  datatype Record = Record(
    seqNo: int, recordedAt: string, kind: string, caseId: Option<string>,
    payload: Payload, previous: Digest, hash: Digest)

  datatype JournalError =
    | SequenceGap | BrokenChain | InvalidJson | PayloadNotObject | InvalidTimestamp
    | HashMismatch | Empty | DuplicateHash

  datatype Codec = Codec(
    hash: Preimage -> Digest,
    parse: string -> Parsed,
    dump: Payload -> string,
    clock: Clock)

  /** Dumped JSON parses back, and the program's own timestamps are well formed. */
  ghost predicate Faithful(c: Codec) {
    && (forall p :: c.parse(c.dump(p)) == Object(p))
    && ClockOk(c.clock)
  }

  function PayloadOf(c: Codec, row: Row): Payload {
    match c.parse(row.payloadText)
    case Object(p) => p
    case _ => map[]
  }

  function PreimageOf(c: Codec, row: Row): Preimage {
    Preimage(row.seqNo, row.recordedAt, row.kind, row.caseId, PayloadOf(c, row), row.previous)
  }

  /** Some row's hash is also the hash of different contents `p`. */
  predicate Collides(c: Codec, table: seq<Row>, p: Preimage) {
    exists i | 0 <= i < |table| :: c.hash(PreimageOf(c, table[i])) == c.hash(p) && PreimageOf(c, table[i]) != p
  }

  /** No row of `b` collides with one of `a`. */
  predicate NoCollision(c: Codec, a: seq<Row>, b: seq<Row>) {
    forall j | 0 <= j < |b| :: !Collides(c, a, PreimageOf(c, b[j]))
  }

  function RecordOf(c: Codec, row: Row): Record {
    Record(row.seqNo, row.recordedAt, row.kind, row.caseId, PayloadOf(c, row), row.previous, row.hash)
  }

  function RecordsOf(c: Codec, table: seq<Row>): seq<Record> {
    seq(|table|, i requires 0 <= i < |table| => RecordOf(c, table[i]))
  }

  /** The hash that row `i` of the table has to name as its predecessor. */
  function Tip(table: seq<Row>, i: nat): Digest
    requires i <= |table|
  {
    if i == 0 then GENESIS else table[i - 1].hash
  }

  predicate LinkOk(c: Codec, table: seq<Row>, i: nat)
    requires i < |table|
  {
    && table[i].seqNo == i + 1
    && table[i].previous == Tip(table, i)
    && c.parse(table[i].payloadText).Object?
    && c.clock.validTime(table[i].recordedAt)
    && table[i].hash == c.hash(PreimageOf(c, table[i]))
  }

  /** The first `n` rows are linked. */
  predicate LinksTo(c: Codec, table: seq<Row>, n: nat)
    requires n <= |table|
  {
    forall i | 0 <= i < n :: LinkOk(c, table, i)
  }

  predicate Links(c: Codec, table: seq<Row>) {
    LinksTo(c, table, |table|)
  }

  /** A journal that reads back without an error. */
  predicate Intact(c: Codec, table: seq<Row>) {
    table != [] && Links(c, table)
  }

  /** The error a row is reported with, in the order of the checks. */
  function Problem(c: Codec, table: seq<Row>, i: nat): Option<JournalError>
    requires i < |table|
    ensures Problem(c, table, i).None? <==> LinkOk(c, table, i)
  {
    if table[i].seqNo != i + 1 then Some(SequenceGap)
    else if table[i].previous != Tip(table, i) then Some(BrokenChain)
    else if c.parse(table[i].payloadText).Malformed? then Some(InvalidJson)
    else if c.parse(table[i].payloadText).NotObject? then Some(PayloadNotObject)
    else if !c.clock.validTime(table[i].recordedAt) then Some(InvalidTimestamp)
    else if table[i].hash != c.hash(PreimageOf(c, table[i])) then Some(HashMismatch)
    else None
  }

  /** `_rows`. The table arrives ordered by its primary key. */
  method Rows(c: Codec, table: seq<Row>) returns (r: Result<seq<Record>, JournalError>)
    ensures r.Ok? <==> Intact(c, table)
    ensures r.Ok? ==> r.value == RecordsOf(c, table)
    ensures r.Err? && table == [] ==> r.error == Empty
    ensures r.Err? && table != [] ==>
              exists k | 0 <= k < |table| :: LinksTo(c, table, k) && Problem(c, table, k) == Some(r.error)
  {
    var result: seq<Record> := [];
    var previous := GENESIS;
    var expectedSeq := 1;
    for i := 0 to |table|
      invariant expectedSeq == i + 1 && previous == Tip(table, i)
      invariant LinksTo(c, table, i)
      invariant result == RecordsOf(c, table[..i])
    {
      var row := table[i];
      assert Links(c, table) ==> LinkOk(c, table, i);
      if row.seqNo != expectedSeq { return Err(SequenceGap); }
      if row.previous != previous { return Err(BrokenChain); }
      var parsed := c.parse(row.payloadText);
      if parsed.Malformed? { return Err(InvalidJson); }
      if parsed.NotObject? { return Err(PayloadNotObject); }
      if !c.clock.validTime(row.recordedAt) { return Err(InvalidTimestamp); }
      var digest := c.hash(
        Preimage(row.seqNo, row.recordedAt, row.kind, row.caseId, parsed.payload, row.previous));
      if digest != row.hash { return Err(HashMismatch); }
      result := result + [Record(
        row.seqNo, row.recordedAt, row.kind, row.caseId, parsed.payload, row.previous, row.hash)];
      previous := digest;
      expectedSeq := expectedSeq + 1;
    }
    assert table[..|table|] == table;
    if result == [] { return Err(Empty); }
    return Ok(result);
  }

  // ----- what the chain guarantees -----

  /** If some record of journal `b` carries the hash of the last record of `a`, the two
      agree on every record up to there. */
  lemma {:induction false} SharedHashSharedHistory(c: Codec, a: seq<Row>, b: seq<Row>, i: nat, j: nat)
    requires NoCollision(c, a, b) && Links(c, a) && Links(c, b)
    requires i < |a| && j < |b| && a[i].hash == b[j].hash
    ensures i == j
    ensures RecordsOf(c, a[..i + 1]) == RecordsOf(c, b[..j + 1])
  {
    assert LinkOk(c, a, i) && LinkOk(c, b, j);
    assert PreimageOf(c, a[i]) == PreimageOf(c, b[j]);
    if i > 0 {
      SharedHashSharedHistory(c, a, b, i - 1, j - 1);
      assert RecordsOf(c, a[..i + 1]) == RecordsOf(c, a[..i]) + [RecordOf(c, a[i])];
      assert RecordsOf(c, b[..j + 1]) == RecordsOf(c, b[..j]) + [RecordOf(c, b[j])];
    }
  }

  /** Tamper evidence: the last hash determines the whole parsed journal. */
  lemma SameTipSameJournal(c: Codec, a: seq<Row>, b: seq<Row>)
    requires NoCollision(c, a, b) && Intact(c, a) && Intact(c, b)
    requires a[|a| - 1].hash == b[|b| - 1].hash
    ensures RecordsOf(c, a) == RecordsOf(c, b)
  {
    SharedHashSharedHistory(c, a, b, |a| - 1, |b| - 1);
    assert a[..|a|] == a && b[..|b|] == b;
  }

  // ----- appending -----

  /** What the hash of the row behind `table` covers. */
  function NextPreimage(c: Codec, table: seq<Row>, kind: string, caseId: Option<string>, payload: Payload, now: int): Preimage {
    Preimage(|table| + 1, c.clock.iso(now), kind, caseId, payload, Tip(table, |table|))
  }

  /** The row `_append` inserts behind `table`. */
  function NextRow(c: Codec, table: seq<Row>, kind: string, caseId: Option<string>, payload: Payload, now: int): Row {
    var stamp := c.clock.iso(now);
    var previous := Tip(table, |table|);
    Row(|table| + 1, stamp, kind, caseId, c.dump(payload), previous,
        c.hash(NextPreimage(c, table, kind, caseId, payload, now)))
  }

  predicate HasHash(table: seq<Row>, digest: Digest) {
    exists i | 0 <= i < |table| :: table[i].hash == digest
  }

  lemma AppendKeepsLinks(c: Codec, table: seq<Row>, kind: string, caseId: Option<string>, payload: Payload, now: int)
    requires Faithful(c) && Links(c, table)
    ensures var t := table + [NextRow(c, table, kind, caseId, payload, now)];
            && Intact(c, t)
            && RecordsOf(c, t)[..|table|] == RecordsOf(c, table)
            && RecordsOf(c, t)[|table|].kind == kind
            && RecordsOf(c, t)[|table|].caseId == caseId
            && RecordsOf(c, t)[|table|].payload == payload
            && RecordsOf(c, t)[|table|].recordedAt == c.clock.iso(now)
            && RecordsOf(c, t)[|table|].seqNo == |table| + 1
  {
    var t := table + [NextRow(c, table, kind, caseId, payload, now)];
    assert c.parse(t[|table|].payloadText) == Object(payload);
    forall i | 0 <= i < |t| ensures LinkOk(c, t, i) {
      if i < |table| { assert LinkOk(c, table, i); }
    }
  }

  /** The UNIQUE constraint on the hash column fires exactly on a collision: a fresh
      sequence number makes fresh contents. */
  lemma NextHashIsFresh(c: Codec, table: seq<Row>, kind: string, caseId: Option<string>, payload: Payload, now: int)
    requires Links(c, table)
    ensures HasHash(table, NextRow(c, table, kind, caseId, payload, now).hash) <==>
            Collides(c, table, NextPreimage(c, table, kind, caseId, payload, now))
  {
    var p := NextPreimage(c, table, kind, caseId, payload, now);
    forall i | 0 <= i < |table| ensures table[i].hash == c.hash(PreimageOf(c, table[i])) && PreimageOf(c, table[i]) != p {
      assert LinkOk(c, table, i);
    }
  }

  class Journal {
    const codec: Codec
    /** The records table, ordered by its primary key. */
    var table: seq<Row>

    /** `_init`: a new journal with its first record. */
    constructor (codec: Codec, pilotId: string, manifestSha: Digest, now: int)
      requires Faithful(codec)
      ensures this.codec == codec
      ensures Intact(codec, table) && |table| == 1
      ensures var r := RecordsOf(codec, table)[0];
              && r.kind == "journal_initialized" && r.caseId == None
              && r.payload == InitPayload(pilotId, manifestSha)
    {
      this.codec := codec;
      var stamp := codec.clock.iso(now);
      var payload := map["schema" := Str(JOURNAL_SCHEMA), "pilot_id" := Str(pilotId), "manifest_sha256" := Str(manifestSha)];
      var digest := codec.hash(Preimage(1, stamp, "journal_initialized", None, payload, GENESIS));
      this.table := [Row(1, stamp, "journal_initialized", None, codec.dump(payload), GENESIS, digest)];
      AppendKeepsLinks(codec, [], "journal_initialized", None, payload, now);
      assert [] + [NextRow(codec, [], "journal_initialized", None, payload, now)]
          == [Row(1, stamp, "journal_initialized", None, codec.dump(payload), GENESIS, digest)];
    }

    /** `_append`: the whole read-check-insert runs in one immediate transaction, which
        is rolled back on any error. */
    method Append(kind: string, caseId: Option<string>, payload: Payload, now: int) returns (r: Result<Digest, JournalError>)
      modifies this`table
      ensures r.Err? ==> table == old(table)
      ensures r.Ok? <==> Intact(codec, old(table))
                         && !HasHash(old(table), NextRow(codec, old(table), kind, caseId, payload, now).hash)
      ensures r.Ok? ==> table == old(table) + [NextRow(codec, old(table), kind, caseId, payload, now)]
                        && r.value == table[|table| - 1].hash
    {
      var rows := Rows(codec, table);
      if rows.Err? { return Err(rows.error); }
      var last := rows.value[|rows.value| - 1];
      assert LinkOk(codec, table, |table| - 1);
      var seqNo := last.seqNo + 1;
      var stamp := codec.clock.iso(now);
      var previous := last.hash;
      var digest := codec.hash(Preimage(seqNo, stamp, kind, caseId, payload, previous));
      if exists i | 0 <= i < |table| :: table[i].hash == digest {
        return Err(DuplicateHash);
      }
      table := table + [Row(seqNo, stamp, kind, caseId, codec.dump(payload), previous, digest)];
      return Ok(digest);
    }
  }

  function InitPayload(pilotId: string, manifestSha: Digest): Payload {
    map["schema" := Str(JOURNAL_SCHEMA), "pilot_id" := Str(pilotId), "manifest_sha256" := Str(manifestSha)]
  }

  // ----- serialized writers -----

  datatype Request = Request(kind: string, caseId: Option<string>, payload: Payload, now: int)

  /** The table after a series of appends, whoever issued them. */
  function AppendAll(c: Codec, table: seq<Row>, requests: seq<Request>): seq<Row>
    decreases |requests|
  {
    if requests == [] then table
    else
      var q := requests[0];
      AppendAll(c, table + [NextRow(c, table, q.kind, q.caseId, q.payload, q.now)], requests[1..])
  }

  /** Any number of serialized appends keep the chain valid and every earlier row as it
      was, and what they add reads back as the requests in their order. */
  lemma {:induction false} SerializedAppends(c: Codec, table: seq<Row>, requests: seq<Request>)
    requires Faithful(c) && Intact(c, table)
    ensures var t := AppendAll(c, table, requests);
            && Intact(c, t)
            && |t| == |table| + |requests|
            && t[..|table|] == table
            && forall k | 0 <= k < |requests| ::
                 var rec := RecordOf(c, t[|table| + k]);
                 && rec.kind == requests[k].kind && rec.caseId == requests[k].caseId
                 && rec.payload == requests[k].payload && rec.recordedAt == c.clock.iso(requests[k].now)
    decreases |requests|
  {
    if requests != [] {
      var q := requests[0];
      var t1 := table + [NextRow(c, table, q.kind, q.caseId, q.payload, q.now)];
      AppendKeepsLinks(c, table, q.kind, q.caseId, q.payload, q.now);
      SerializedAppends(c, t1, requests[1..]);
      var t := AppendAll(c, table, requests);
      assert t[..|table|] == t[..|t1|][..|table|];
      forall k | 0 <= k < |requests|
        ensures var rec := RecordOf(c, t[|table| + k]);
                && rec.kind == requests[k].kind && rec.caseId == requests[k].caseId
                && rec.payload == requests[k].payload && rec.recordedAt == c.clock.iso(requests[k].now)
      {
        if k == 0 {
          assert t[|table|] == t[..|t1|][|table|] == t1[|table|];
          assert RecordsOf(c, t1)[|table|] == RecordOf(c, t1[|table|]);
        } else {
          assert requests[1..][k - 1] == requests[k];
          assert t[|t1| + (k - 1)] == t[|table| + k];
        }
      }
    }
  }
}
