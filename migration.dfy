/** Loading a database file (magnet-handler.go:352-470) and the one-shot format
    migration (magnet-handler.go:174-231).

    The file text and the JSON decoder are not modelled. A readable file is
    described by what each of the three decoders made of it: the current
    schema (whether it reported an error, and the database it filled in, which
    the legacy branches keep writing into), the flat V0 map and the V1
    added/retry pair. The UUID each `GenerateUUID` call returns is an input,
    one per section and hash. */
module Migration {
  import opened Wrappers
  import opened Store
  import opened Magnet

  /** The UUID that `GenerateUUID` returns for the entry of a hash in a section
      (module `Uuid` models how it is made from the random bytes). */
  type Uuids = (Section, Hash) -> string

  /** Every generated UUID is non-empty, as `GenerateUUID` guarantees
      (`UuidSupply.GeneratedUuidsNonEmpty`). */
  ghost predicate NonEmptyUuids(uuids: Uuids) { forall s, h :: uuids(s, h) != "" }

  /** `MagnetDatabaseV1`. */
  datatype TablesV1 = TablesV1(added: map<Hash, EntryV1>, retry: map<Hash, EntryV1>)

  /** What the three decoders made of a file's bytes. `currentOk` says that the
      current-schema decoder reported no error; `decoded` is the database it
      filled in either way. `v0`/`v1` are `None` when that decoder failed. */
  datatype Contents = Contents(
    size: nat,
    decoded: Database,
    currentOk: bool,
    v0: Option<map<Hash, EntryV0>>,
    v1: Option<TablesV1>)

  /** The database path: absent, unreadable on every attempt, or read. */
  datatype FileState = Missing | Unreadable | Readable(contents: Contents)

  datatype LoadError = ReadFailed | UnrecognizedFormat

  /** The branch of the cascade that takes a file. */
  datatype Format = Current | LegacyV0 | LegacyV1 | Unrecognized

  predicate CurrentAccepts(c: Contents) { c.currentOk && !IsEmpty(c.decoded) }

  predicate V0Accepts(c: Contents) { c.v0.Some? && |c.v0.value| > 0 }

  predicate V1Accepts(c: Contents) { c.v1.Some? && (|c.v1.value.added| > 0 || |c.v1.value.retry| > 0) }

  /** The decoders are tried in order (current, V0, V1) and the first that
      yields at least one entry takes the file. The byte length plays no part. */
  function Classify(c: Contents): (f: Format)
    ensures f == Current <==> CurrentAccepts(c)
    ensures f == LegacyV0 <==> !CurrentAccepts(c) && V0Accepts(c)
    ensures f == LegacyV1 <==> !CurrentAccepts(c) && !V0Accepts(c) && V1Accepts(c)
    ensures f == Unrecognized <==> !CurrentAccepts(c) && !V0Accepts(c) && !V1Accepts(c)
  {
    if CurrentAccepts(c) then Current
    else if V0Accepts(c) then LegacyV0
    else if V1Accepts(c) then LegacyV1
    else Unrecognized
  }

  /** The URI given to a V0 entry that has none. */
  function BareMagnet(hash: Hash): string
  {
    MagnetPrefix + BtihMarker + hash
  }

  /** The current entry a V0 entry becomes, before it is numbered. */
  function FromV0(v: EntryV0, uuid: string): Entry
  {
    Entry(uuid, 0, v.title, v.hash, if v.uri == "" then BareMagnet(v.hash) else v.uri,
          v.firstSeen, v.firstSeen, v.lastAttempt, v.status, v.torrentId, v.addedToDeluge,
          0, v.savePath, v.torrentName)
  }

  /** The current entry a V1 entry becomes, before it is numbered. */
  function FromV1(v: EntryV1, uuid: string): Entry
  {
    Entry(uuid, 0, v.title, v.hash, v.uri, v.addedDate, "", v.lastAttempt, "", "", "",
          v.retryCount, v.savePath, v.torrentName)
  }

  function ConvertV0(v0: map<Hash, EntryV0>, uuids: Uuids): (m: map<Hash, Entry>)
    ensures m.Keys == v0.Keys
    ensures forall h :: h in m ==> m[h].id == 0
  {
    map h | h in v0 :: FromV0(v0[h], uuids(AddedSection, h))
  }

  function ConvertV1(t: map<Hash, EntryV1>, s: Section, uuids: Uuids): (m: map<Hash, Entry>)
    ensures m.Keys == t.Keys
    ensures forall h :: h in m ==> m[h].id == 0
  {
    map h | h in t :: FromV1(t[h], uuids(s, h))
  }

  lemma SameKeysSameSize<A, B>(a: map<Hash, A>, b: map<Hash, B>)
    requires a.Keys == b.Keys
    ensures |a| == |b|
  {
    assert |a| == |a.Keys|;
    assert |b| == |b.Keys|;
  }

  /** The orders in which the `range` loops of the legacy branches visit the
      V0 map and the two V1 maps. Go leaves them unspecified; they are inputs. */
  datatype Visits = Visits(v0: seq<Hash>, added: seq<Hash>, retry: seq<Hash>)

  /** Each order lists the hashes of the map it walks. */
  predicate VisitsFit(o: Visits, c: Contents)
  {
    && (c.v0.Some? ==> IsOrder(o.v0, c.v0.value.Keys))
    && (c.v1.Some? ==> IsOrder(o.added, c.v1.value.added.Keys) && IsOrder(o.retry, c.v1.value.retry.Keys))
  }

  /** The V0 branch: every V0 entry is written, numbered, into `added` of the
      partially decoded database; `retry` is left as decoded. */
  function MigratedV0(base: Database, v0: map<Hash, EntryV0>, uuids: Uuids, order: seq<Hash>, digest: Digest): Database
    requires IsOrder(order, v0.Keys)
  {
    var a := NumberAlong(base.added, ConvertV0(v0, uuids), 1, order);
    Sealed(base.metadata, a.0, base.retry, a.1 - 1, digest)
  }

  /** The V1 branch: added entries are numbered first, then retry entries. */
  function MigratedV1(base: Database, t: TablesV1, uuids: Uuids, oa: seq<Hash>, or: seq<Hash>, digest: Digest): Database
    requires IsOrder(oa, t.added.Keys) && IsOrder(or, t.retry.Keys)
  {
    var a := NumberAlong(base.added, ConvertV1(t.added, AddedSection, uuids), 1, oa);
    var r := NumberAlong(base.retry, ConvertV1(t.retry, RetrySection, uuids), a.1, or);
    Sealed(base.metadata, a.0, r.0, r.1 - 1, digest)
  }

  /** What `LoadJSONDatabase` returns for a file. */
  function Loaded(f: FileState, uuids: Uuids, o: Visits, digest: Digest): Result<Database, LoadError>
    requires f.Readable? ==> VisitsFit(o, f.contents)
  {
    match f
    case Missing => Ok(Empty())
    case Unreadable => Err(ReadFailed)
    case Readable(c) =>
      match Classify(c)
      case Current => Ok(c.decoded)
      case LegacyV0 => Ok(MigratedV0(c.decoded, c.v0.value, uuids, o.v0, digest))
      case LegacyV1 => Ok(MigratedV1(c.decoded, c.v1.value, uuids, o.added, o.retry, digest))
      case Unrecognized => Err(UnrecognizedFormat)
  }

  /** The V0 conversion loop (magnet-handler.go:385-411). */
  method MigrateV0(base: Database, v0: map<Hash, EntryV0>, uuids: Uuids, order: seq<Hash>, digest: Digest)
    returns (db: Database)
    requires IsOrder(order, v0.Keys)
    ensures db == MigratedV0(base, v0, uuids, order, digest)
  {
    var added, nextID := NumberInto(base.added, ConvertV0(v0, uuids), 1, order);
    db := Sealed(base.metadata, added, base.retry, nextID - 1, digest);
  }

  /** The V1 conversion loops (magnet-handler.go:425-442). The guard at
      magnet-handler.go:446 never fires: the branch is only taken when the V1
      tables hold an entry, and every one of them is written. */
  method MigrateV1(base: Database, t: TablesV1, uuids: Uuids, oa: seq<Hash>, or: seq<Hash>, digest: Digest)
    returns (db: Database)
    requires IsOrder(oa, t.added.Keys) && IsOrder(or, t.retry.Keys)
    requires |t.added| > 0 || |t.retry| > 0
    ensures db == MigratedV1(base, t, uuids, oa, or, digest)
    ensures |db.added| + |db.retry| > 0
  {
    var added, nextID := NumberInto(base.added, ConvertV1(t.added, AddedSection, uuids), 1, oa);
    var retry, nextID2 := NumberInto(base.retry, ConvertV1(t.retry, RetrySection, uuids), nextID, or);
    db := Sealed(base.metadata, added, retry, nextID2 - 1, digest);
    assert db == MigratedV1(base, t, uuids, oa, or, digest);
    V1Written(base, t, uuids, oa, or, digest);
  }

  /** Every V1 entry is written, so a V1 load is never empty. */
  lemma V1Written(base: Database, t: TablesV1, uuids: Uuids, oa: seq<Hash>, or: seq<Hash>, digest: Digest)
    requires IsOrder(oa, t.added.Keys) && IsOrder(or, t.retry.Keys)
    requires |t.added| > 0 || |t.retry| > 0
    ensures var db := MigratedV1(base, t, uuids, oa, or, digest);
            |db.added| + |db.retry| > 0
  {
    var db := MigratedV1(base, t, uuids, oa, or, digest);
    V1Keys(base, t, uuids, oa, or, digest);
    if |t.added| > 0 {
      var h :| h in t.added;
      assert h in db.added;
    } else {
      var h :| h in t.retry;
      assert h in db.retry;
    }
  }

  /** `LoadJSONDatabase` over the outcome of reading the path. A file that no
      decoder accepts is rejected whatever its size. */
  method LoadJSONDatabase(f: FileState, uuids: Uuids, o: Visits, digest: Digest)
    returns (r: Result<Database, LoadError>)
    requires f.Readable? ==> VisitsFit(o, f.contents)
    ensures r == Loaded(f, uuids, o, digest)
    ensures r.Err? <==> f.Unreadable? || (f.Readable? && Classify(f.contents) == Unrecognized)
  {
    match f
    case Missing =>
      return Ok(Empty());
    case Unreadable =>
      return Err(ReadFailed);
    case Readable(c) =>
      if c.currentOk && (|c.decoded.added| > 0 || |c.decoded.retry| > 0) {
        return Ok(c.decoded);
      }
      if c.v0.Some? && |c.v0.value| > 0 {
        var db := MigrateV0(c.decoded, c.v0.value, uuids, o.v0, digest);
        return Ok(db);
      }
      if c.v1.Some? && (|c.v1.value.added| > 0 || |c.v1.value.retry| > 0) {
        var db := MigrateV1(c.decoded, c.v1.value, uuids, o.added, o.retry, digest);
        return Ok(db);
      }
      return Err(UnrecognizedFormat);
  }

  // ---------------------------------------------------------------------------
  // What the migrations guarantee
  // ---------------------------------------------------------------------------

  /** V0: `added` holds the decoded hashes and the V0 hashes; `retry` and the
      modification time are kept as decoded. */
  lemma V0Keys(base: Database, v0: map<Hash, EntryV0>, uuids: Uuids, order: seq<Hash>, digest: Digest)
    requires IsOrder(order, v0.Keys)
    ensures var db := MigratedV0(base, v0, uuids, order, digest);
            && db.added.Keys == base.added.Keys + v0.Keys
            && db.retry == base.retry
            && db.metadata.lastModified == base.metadata.lastModified
            && ChecksumOver(db, base.metadata.checksum, digest)
  {
    AlongKeys(base.added, ConvertV0(v0, uuids), 1, order);
  }

  /** V0: the N entries get exactly the IDs 1..N, pairwise distinct, and the
      sequence number is N. */
  lemma V0Numbering(base: Database, v0: map<Hash, EntryV0>, uuids: Uuids, order: seq<Hash>, digest: Digest)
    requires IsOrder(order, v0.Keys)
    ensures var db := MigratedV0(base, v0, uuids, order, digest);
            && IdsOf(db.added, v0.Keys) == Range(1, |v0|)
            && DistinctIds(db.added, v0.Keys)
            && db.metadata.lastSequence == |v0|
  {
    var converted := ConvertV0(v0, uuids);
    AlongFresh(base.added, converted, v0.Keys, 1, order);
    SameKeysSameSize(converted, v0);
  }

  /** V0: an entry carries every field its V0 entry shares with the current
      schema (the V0 `state` and `backfilled` fields are dropped), its URI
      synthesised from the hash when empty, its added date taken from the
      first-seen date, a fresh UUID, no retries, and an ID between 1 and the
      sequence number. */
  lemma V0Entry(base: Database, v0: map<Hash, EntryV0>, uuids: Uuids, order: seq<Hash>, digest: Digest, h: Hash)
    requires IsOrder(order, v0.Keys) && h in v0
    ensures var db := MigratedV0(base, v0, uuids, order, digest);
            && h in db.added
            && db.added[h].uri == (if v0[h].uri == "" then "magnet:?xt=urn:btih:" + v0[h].hash else v0[h].uri)
            && db.added[h].addedDate == v0[h].firstSeen && db.added[h].firstSeen == v0[h].firstSeen
            && db.added[h].hash == v0[h].hash && db.added[h].title == v0[h].title
            && db.added[h].status == v0[h].status && db.added[h].torrentId == v0[h].torrentId
            && db.added[h].lastAttempt == v0[h].lastAttempt && db.added[h].addedToDeluge == v0[h].addedToDeluge
            && db.added[h].savePath == v0[h].savePath && db.added[h].torrentName == v0[h].torrentName
            && db.added[h] == FromV0(v0[h], uuids(AddedSection, h)).(id := db.added[h].id)
            && db.added[h].uuid == uuids(AddedSection, h)
            && db.added[h].retryCount == 0
            && 1 <= db.added[h].id <= db.metadata.lastSequence
  {
    var converted := ConvertV0(v0, uuids);
    AlongEntry(base.added, converted, 1, order, h);
    assert converted[h] == FromV0(v0[h], uuids(AddedSection, h));
  }

  /** V0: an entry of the decoded `added` section whose hash the V0 map lacks
      is kept as decoded. */
  lemma V0KeepsDecoded(base: Database, v0: map<Hash, EntryV0>, uuids: Uuids, order: seq<Hash>, digest: Digest, h: Hash)
    requires IsOrder(order, v0.Keys) && h in base.added && h !in v0
    ensures var db := MigratedV0(base, v0, uuids, order, digest);
            h in db.added && db.added[h] == base.added[h]
  {
    AlongUntouched(base.added, ConvertV0(v0, uuids), 1, order, h);
  }

  /** A V0 file read on its own (nothing else decoded) gives a well-formed store
      whose `added` holds exactly the V0 hashes and whose `retry` is empty. */
  lemma V0FromScratchWellFormed(base: Database, v0: map<Hash, EntryV0>, uuids: Uuids, order: seq<Hash>, digest: Digest)
    requires IsEmpty(base) && IsOrder(order, v0.Keys)
    ensures var db := MigratedV0(base, v0, uuids, order, digest);
            db.added.Keys == v0.Keys && db.retry == map[] && WellFormed(db)
  {
    var db := MigratedV0(base, v0, uuids, order, digest);
    V0Keys(base, v0, uuids, order, digest);
    forall h | h in db.added ensures db.added[h].id <= db.metadata.lastSequence {
      V0Entry(base, v0, uuids, order, digest, h);
    }
  }

  /** V1: each section holds its decoded hashes and the hashes of its V1 table;
      the modification time is kept as decoded. */
  lemma V1Keys(base: Database, t: TablesV1, uuids: Uuids, oa: seq<Hash>, or: seq<Hash>, digest: Digest)
    requires IsOrder(oa, t.added.Keys) && IsOrder(or, t.retry.Keys)
    ensures var db := MigratedV1(base, t, uuids, oa, or, digest);
            && db.added.Keys == base.added.Keys + t.added.Keys
            && db.retry.Keys == base.retry.Keys + t.retry.Keys
            && db.metadata.lastModified == base.metadata.lastModified
            && ChecksumOver(db, base.metadata.checksum, digest)
  {
    var a := NumberAlong(base.added, ConvertV1(t.added, AddedSection, uuids), 1, oa);
    AlongKeys(base.added, ConvertV1(t.added, AddedSection, uuids), 1, oa);
    AlongKeys(base.retry, ConvertV1(t.retry, RetrySection, uuids), a.1, or);
  }

  /** V1: the added entries get exactly the IDs 1..|A|, pairwise distinct. */
  lemma V1AddedIds(base: Database, t: TablesV1, uuids: Uuids, oa: seq<Hash>, or: seq<Hash>, digest: Digest)
    requires IsOrder(oa, t.added.Keys) && IsOrder(or, t.retry.Keys)
    ensures var db := MigratedV1(base, t, uuids, oa, or, digest);
            && IdsOf(db.added, t.added.Keys) == Range(1, |t.added|)
            && DistinctIds(db.added, t.added.Keys)
            && NumberAlong(base.added, ConvertV1(t.added, AddedSection, uuids), 1, oa).1 == |t.added| + 1
  {
    var converted := ConvertV1(t.added, AddedSection, uuids);
    AlongFresh(base.added, converted, t.added.Keys, 1, oa);
    SameKeysSameSize(converted, t.added);
  }

  /** V1: the retry entries get exactly the IDs |A|+1..|A|+|R|, pairwise
      distinct, and the sequence number is |A|+|R|. */
  lemma V1RetryIds(base: Database, t: TablesV1, uuids: Uuids, oa: seq<Hash>, or: seq<Hash>, digest: Digest)
    requires IsOrder(oa, t.added.Keys) && IsOrder(or, t.retry.Keys)
    ensures var db := MigratedV1(base, t, uuids, oa, or, digest);
            && IdsOf(db.retry, t.retry.Keys) == Range(|t.added| + 1, |t.added| + |t.retry|)
            && DistinctIds(db.retry, t.retry.Keys)
            && db.metadata.lastSequence == |t.added| + |t.retry|
  {
    var a := NumberAlong(base.added, ConvertV1(t.added, AddedSection, uuids), 1, oa);
    var converted := ConvertV1(t.retry, RetrySection, uuids);
    assert a.1 == |t.added| + 1 by { V1AddedIds(base, t, uuids, oa, or, digest); }
    SameKeysSameSize(converted, t.retry);
    AlongFreshAt(base.retry, converted, t.retry.Keys, |t.added| + 1, or, |t.added| + |t.retry|);
  }

  /** V1: together the IDs of both tables are exactly 1..|A|+|R|, the sequence
      number, and no ID of one section occurs in the other. */
  lemma V1Numbering(base: Database, t: TablesV1, uuids: Uuids, oa: seq<Hash>, or: seq<Hash>, digest: Digest)
    requires IsOrder(oa, t.added.Keys) && IsOrder(or, t.retry.Keys)
    ensures var db := MigratedV1(base, t, uuids, oa, or, digest);
            && IdsOf(db.added, t.added.Keys) + IdsOf(db.retry, t.retry.Keys) == Range(1, db.metadata.lastSequence)
            && IdsOf(db.added, t.added.Keys) !! IdsOf(db.retry, t.retry.Keys)
  {
    var db := MigratedV1(base, t, uuids, oa, or, digest);
    V1AddedIds(base, t, uuids, oa, or, digest);
    V1RetryIds(base, t, uuids, oa, or, digest);
    IdsJoin(IdsOf(db.added, t.added.Keys), IdsOf(db.retry, t.retry.Keys), |t.added|, |t.retry|, db.metadata.lastSequence);
  }

  lemma IdsJoin(a: set<int>, r: set<int>, na: nat, nr: nat, ls: int)
    requires a == Range(1, na) && r == Range(na + 1, na + nr) && ls == na + nr
    ensures a + r == Range(1, ls) && a !! r
  {
    RangeSplit(1, na, na + nr);
  }

  /** V1: an entry carries the fields of its V1 entry and an ID between 1 and
      the sequence number; the status fields start empty. */
  lemma V1AddedEntry(base: Database, t: TablesV1, uuids: Uuids, oa: seq<Hash>, or: seq<Hash>, digest: Digest, h: Hash)
    requires IsOrder(oa, t.added.Keys) && IsOrder(or, t.retry.Keys) && h in t.added
    ensures var db := MigratedV1(base, t, uuids, oa, or, digest);
            && h in db.added
            && db.added[h] == FromV1(t.added[h], uuids(AddedSection, h)).(id := db.added[h].id)
            && 1 <= db.added[h].id <= db.metadata.lastSequence
  {
    V1RetryIds(base, t, uuids, oa, or, digest);
    V1AddedIds(base, t, uuids, oa, or, digest);
    var converted := ConvertV1(t.added, AddedSection, uuids);
    AlongEntry(base.added, converted, 1, oa, h);
  }

  lemma V1RetryEntry(base: Database, t: TablesV1, uuids: Uuids, oa: seq<Hash>, or: seq<Hash>, digest: Digest, h: Hash)
    requires IsOrder(oa, t.added.Keys) && IsOrder(or, t.retry.Keys) && h in t.retry
    ensures var db := MigratedV1(base, t, uuids, oa, or, digest);
            && h in db.retry
            && db.retry[h] == FromV1(t.retry[h], uuids(RetrySection, h)).(id := db.retry[h].id)
            && 1 <= db.retry[h].id <= db.metadata.lastSequence
  {
    V1RetryIds(base, t, uuids, oa, or, digest);
    V1AddedIds(base, t, uuids, oa, or, digest);
    var converted := ConvertV1(t.retry, RetrySection, uuids);
    AlongEntry(base.retry, converted, |t.added| + 1, or, h);
  }

  /** A V1 file read on its own, with no hash in both tables, gives a
      well-formed store with the sections of the file. */
  lemma V1FromScratchWellFormed(base: Database, t: TablesV1, uuids: Uuids, oa: seq<Hash>, or: seq<Hash>, digest: Digest)
    requires IsEmpty(base) && t.added.Keys !! t.retry.Keys
    requires IsOrder(oa, t.added.Keys) && IsOrder(or, t.retry.Keys)
    ensures var db := MigratedV1(base, t, uuids, oa, or, digest);
            db.added.Keys == t.added.Keys && db.retry.Keys == t.retry.Keys && WellFormed(db)
  {
    V1FromScratchKeys(base, t, uuids, oa, or, digest);
    V1AddedCovered(base, t, uuids, oa, or, digest);
    V1RetryCovered(base, t, uuids, oa, or, digest);
  }

  lemma EmptyUnion(base: Database, a: set<Hash>, r: set<Hash>)
    requires IsEmpty(base)
    ensures base.added.Keys + a == a && base.retry.Keys + r == r
  {
    EmptyKeys(base);
  }

  lemma V1FromScratchKeys(base: Database, t: TablesV1, uuids: Uuids, oa: seq<Hash>, or: seq<Hash>, digest: Digest)
    requires IsEmpty(base) && t.added.Keys !! t.retry.Keys
    requires IsOrder(oa, t.added.Keys) && IsOrder(or, t.retry.Keys)
    ensures var db := MigratedV1(base, t, uuids, oa, or, digest);
            db.added.Keys == t.added.Keys && db.retry.Keys == t.retry.Keys && SectionsDisjoint(db)
  {
    var db := MigratedV1(base, t, uuids, oa, or, digest);
    assert db.added.Keys == base.added.Keys + t.added.Keys && db.retry.Keys == base.retry.Keys + t.retry.Keys by {
      V1Keys(base, t, uuids, oa, or, digest);
    }
    EmptyUnion(base, t.added.Keys, t.retry.Keys);
  }

  lemma V1AddedCovered(base: Database, t: TablesV1, uuids: Uuids, oa: seq<Hash>, or: seq<Hash>, digest: Digest)
    requires IsEmpty(base) && IsOrder(oa, t.added.Keys) && IsOrder(or, t.retry.Keys)
    ensures var db := MigratedV1(base, t, uuids, oa, or, digest);
            forall h :: h in db.added ==> db.added[h].id <= db.metadata.lastSequence
  {
    var db := MigratedV1(base, t, uuids, oa, or, digest);
    V1Keys(base, t, uuids, oa, or, digest);
    forall h | h in db.added ensures db.added[h].id <= db.metadata.lastSequence {
      V1AddedEntry(base, t, uuids, oa, or, digest, h);
    }
  }

  lemma V1RetryCovered(base: Database, t: TablesV1, uuids: Uuids, oa: seq<Hash>, or: seq<Hash>, digest: Digest)
    requires IsEmpty(base) && IsOrder(oa, t.added.Keys) && IsOrder(or, t.retry.Keys)
    ensures var db := MigratedV1(base, t, uuids, oa, or, digest);
            forall h :: h in db.retry ==> db.retry[h].id <= db.metadata.lastSequence
  {
    var db := MigratedV1(base, t, uuids, oa, or, digest);
    V1Keys(base, t, uuids, oa, or, digest);
    forall h | h in db.retry ensures db.retry[h].id <= db.metadata.lastSequence {
      V1RetryEntry(base, t, uuids, oa, or, digest, h);
    }
  }

  // ---------------------------------------------------------------------------
  // Consequences of the cascade order
  // ---------------------------------------------------------------------------

  /** What Go's decoder makes of `{"metadata":{...},"added":{},"retry":{}}` as a
      flat V0 map: three entries, one per top-level key, all fields empty. */
  function EmptyCurrentAsV0(): (m: map<Hash, EntryV0>)
    ensures m.Keys == {"metadata", "added", "retry"} && |m| == 3
    ensures forall h :: h in m ==> m[h] == ZeroEntryV0
  {
    map["metadata" := ZeroEntryV0, "added" := ZeroEntryV0, "retry" := ZeroEntryV0]
  }

  /** The V0 branch run on that map over an empty database: three tracked
      entries, keyed by the top-level names, with the bare prefix as URI. */
  lemma EmptyCurrentMigration(base: Database, uuids: Uuids, order: seq<Hash>, digest: Digest)
    requires IsEmpty(base) && IsOrder(order, EmptyCurrentAsV0().Keys)
    ensures var db := MigratedV0(base, EmptyCurrentAsV0(), uuids, order, digest);
            && db.added.Keys == {"metadata", "added", "retry"}
            && (forall h :: h in db.added ==> db.added[h].uri == "magnet:?xt=urn:btih:" && db.added[h].hash == "")
            && db.metadata.lastSequence == 3
  {
    var db := MigratedV0(base, EmptyCurrentAsV0(), uuids, order, digest);
    assert db.added.Keys == {"metadata", "added", "retry"} by {
      EmptyUnion(base, EmptyCurrentAsV0().Keys, {});
      V0Keys(base, EmptyCurrentAsV0(), uuids, order, digest);
    }
    assert db.metadata.lastSequence == 3 by {
      V0Numbering(base, EmptyCurrentAsV0(), uuids, order, digest);
    }
    EmptyCurrentEntries(base, uuids, order, digest);
  }

  lemma EmptyCurrentEntries(base: Database, uuids: Uuids, order: seq<Hash>, digest: Digest)
    requires IsEmpty(base) && IsOrder(order, EmptyCurrentAsV0().Keys)
    ensures var db := MigratedV0(base, EmptyCurrentAsV0(), uuids, order, digest);
            forall h :: h in db.added ==> db.added[h].uri == "magnet:?xt=urn:btih:" && db.added[h].hash == ""
  {
    var v0 := EmptyCurrentAsV0();
    var db := MigratedV0(base, v0, uuids, order, digest);
    V0Keys(base, v0, uuids, order, digest);
    forall h | h in db.added
      ensures db.added[h].uri == "magnet:?xt=urn:btih:" && db.added[h].hash == ""
    {
      V0Entry(base, v0, uuids, order, digest, h);
    }
  }

  /** A current-format file with empty sections is taken by the V0 branch: the
      three top-level keys become tracked entries with the bare prefix as URI. */
  lemma EmptyCurrentFileLoadsAsV0(c: Contents, uuids: Uuids, o: Visits, digest: Digest)
    requires c.currentOk && IsEmpty(c.decoded) && c.v0 == Some(EmptyCurrentAsV0())
    requires VisitsFit(o, c)
    ensures Classify(c) == LegacyV0
    ensures Loaded(Readable(c), uuids, o, digest) == Ok(MigratedV0(c.decoded, EmptyCurrentAsV0(), uuids, o.v0, digest))
  {
    assert !CurrentAccepts(c) && V0Accepts(c);
  }

  /** A file in which no decoder finds an entry is an error at any size, even
      the two bytes `{}`. */
  lemma NoEntriesRejectedAtAnySize(c: Contents, uuids: Uuids, o: Visits, digest: Digest)
    requires IsEmpty(c.decoded) && VisitsFit(o, c)
    requires c.v0.None? || c.v0.value == map[]
    requires c.v1.None? || (c.v1.value.added == map[] && c.v1.value.retry == map[])
    ensures Loaded(Readable(c), uuids, o, digest) == Err(UnrecognizedFormat)
  {
  }

  /** How the current-schema decoder reads a V1 file. Every V1 field has a
      field of the same name and type in `MagnetEntry`, so the decode succeeds:
      each entry keeps its V1 fields, with ID 0 and no UUID, and the metadata
      stays zero. */
  function V1AsCurrent(t: TablesV1): Database
  {
    var none: Uuids := (s, h) => "";
    Database(Metadata(0, "", ""), ConvertV1(t.added, AddedSection, none), ConvertV1(t.retry, RetrySection, none))
  }

  /** A V1 file with entries is taken by the current-format branch and comes
      back unmigrated, whatever the other two decoders made of it: no entry is
      numbered or given a UUID, and `last_sequence` stays 0. */
  lemma V1FileLoadsUnmigrated(t: TablesV1, c: Contents, uuids: Uuids, o: Visits, digest: Digest)
    requires c.currentOk && c.decoded == V1AsCurrent(t)
    requires |t.added| > 0 || |t.retry| > 0
    requires VisitsFit(o, c)
    ensures Classify(c) == Current
    ensures Loaded(Readable(c), uuids, o, digest) == Ok(c.decoded)
    ensures c.decoded.added.Keys == t.added.Keys && c.decoded.retry.Keys == t.retry.Keys
    ensures c.decoded.metadata.lastSequence == 0
    ensures forall h :: h in c.decoded.added ==> c.decoded.added[h] == FromV1(t.added[h], "")
    ensures forall h :: h in c.decoded.retry ==> c.decoded.retry[h] == FromV1(t.retry[h], "")
  {
    var db := c.decoded;
    SameKeysSameSize(db.added, t.added);
    SameKeysSameSize(db.retry, t.retry);
    assert CurrentAccepts(c);
  }

  // ---------------------------------------------------------------------------
  // MigrateFileFormat (magnet-handler.go:174-231)
  // ---------------------------------------------------------------------------

  /** The entry with a UUID filled in when it had none. */
  function WithUuid(e: Entry, u: string): (r: Entry)
    ensures e.uuid == "" ==> r.uuid == u
    ensures u != "" ==> r.uuid != ""
    ensures e.uuid != "" ==> r == e
    ensures r.(uuid := e.uuid) == e
  {
    if e.uuid == "" then e.(uuid := u) else e
  }

  /** The hashes of `m` whose entry has no UUID. */
  function NoUuidKeys(m: map<Hash, Entry>): set<Hash>
  {
    set h | h in m && m[h].uuid == ""
  }

  /** One UUID back-fill loop (magnet-handler.go:197-203 or 204-210), in any order. The
      count the Go loop keeps is only logged and is not modelled. */
  method FillUuids(m: map<Hash, Entry>, s: Section, uuids: Uuids)
    returns (r: map<Hash, Entry>)
    requires NonEmptyUuids(uuids)
    ensures r.Keys == m.Keys
    ensures forall h :: h in m ==> r[h] == WithUuid(m[h], uuids(s, h))
    ensures forall h :: h in r ==> r[h].uuid != ""
  {
    r := m;
    var todo := m.Keys;
    while todo != {}
      invariant todo <= m.Keys && r.Keys == m.Keys
      invariant forall h :: h in m && h !in todo ==> r[h] == WithUuid(m[h], uuids(s, h))
      invariant forall h :: h in todo ==> r[h] == m[h]
      decreases todo
    {
      var h :| h in todo;
      var entry := r[h];
      if entry.uuid == "" {
        entry := entry.(uuid := uuids(s, h));
        r := r[h := entry];
      }
      todo := todo - {h};
    }
  }

  /** `SaveDatabaseLocal`'s stamping: the time, then the digest of the
      database as it stands, previous checksum included. */
  function Stamp(db: Database, now: string, digest: Digest): (r: Database)
    ensures r.added == db.added && r.retry == db.retry
    ensures r.metadata.lastSequence == db.metadata.lastSequence && r.metadata.lastModified == now
    ensures ChecksumOver(r, db.metadata.checksum, digest)
  {
    var d := db.(metadata := db.metadata.(lastModified := now));
    d.(metadata := d.metadata.(checksum := digest(d)))
  }

  /** Why `MigrateFileFormat` fails: the load, or the write of the migrated file. */
  datatype MigrateError = MigrateLoadFailed(cause: LoadError) | MigrateSaveFailed

  /** `MigrateFileFormat`: load (any format); checksum; back-fill UUIDs in
      `added` then in `retry`; save. `saveOk` is the outcome of the write
      `SaveDatabaseLocal` performs; on success the result is the database
      written. */
  method MigrateFileFormat(f: FileState, loadUuids: Uuids, o: Visits, fillUuids: Uuids, digest: Digest, now: string,
                           saveOk: bool)
    returns (r: Result<Database, MigrateError>)
    requires f.Readable? ==> VisitsFit(o, f.contents)
    requires NonEmptyUuids(fillUuids)
    ensures var loaded := Loaded(f, loadUuids, o, digest);
            && (loaded.Err? ==> r == Err(MigrateLoadFailed(loaded.error)))
            && (loaded.Ok? ==> (r.Err? <==> !saveOk) && (r.Err? ==> r == Err(MigrateSaveFailed)))
            && (loaded.Ok? && r.Ok? ==> r.value.added.Keys == loaded.value.added.Keys
                                        && r.value.retry.Keys == loaded.value.retry.Keys)
            && (loaded.Ok? && r.Ok? ==> forall h :: h in loaded.value.added ==>
                  r.value.added[h] == WithUuid(loaded.value.added[h], fillUuids(AddedSection, h)))
            && (loaded.Ok? && r.Ok? ==> forall h :: h in loaded.value.retry ==>
                  r.value.retry[h] == WithUuid(loaded.value.retry[h], fillUuids(RetrySection, h)))
            && (loaded.Ok? && r.Ok? ==>
                  && r.value.metadata.lastSequence == loaded.value.metadata.lastSequence
                  && r.value.metadata.lastModified == now
                  && ChecksumOver(r.value, digest(loaded.value), digest))
    ensures r.Ok? ==> forall h :: h in Entries(r.value) ==> Entries(r.value)[h].uuid != ""
  {
    var load := LoadJSONDatabase(f, loadUuids, o, digest);
    if load.Err? {
      return Err(MigrateLoadFailed(load.error));
    }
    var db := load.value;
    db := db.(metadata := db.metadata.(checksum := digest(db)));
    var added := FillUuids(db.added, AddedSection, fillUuids);
    var retry := FillUuids(db.retry, RetrySection, fillUuids);
    db := db.(added := added, retry := retry);
    db := Stamp(db, now, digest);
    if !saveOk {
      return Err(MigrateSaveFailed);
    }
    return Ok(db);
  }

  /** Migrating twice generates no further UUIDs: the back-fill leaves a
      section whose entries all carry one unchanged. */
  lemma FillIdempotent(m: map<Hash, Entry>, s: Section, uuids: Uuids)
    requires forall h :: h in m ==> m[h].uuid != ""
    ensures NoUuidKeys(m) == {}
    ensures forall h :: h in m ==> WithUuid(m[h], uuids(s, h)) == m[h]
  {
    assert forall h :: h !in NoUuidKeys(m);
  }
}
