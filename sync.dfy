/** The sync orchestration of magnet-handler.go: `GetRemotePath` (128-133),
    `SyncWithRemote` (559-607), `SaveDatabaseLocal`'s stamping (610-613) and
    `SaveJSONDatabase` (638-704) with its update overlay.

    File digests, load results and write outcomes are inputs: each call of
    `ComputeFileChecksum`, `LoadJSONDatabase` or `os.WriteFile`/`os.Rename`
    in the Go code is one given value here. A load is given separately for
    every call because a legacy file draws fresh UUIDs each time it is read. */
module Sync {
  import opened Wrappers
  import opened Store
  import opened Migration
  import opened Merge

  /** The part of `Config` the store reads. */
  datatype Config = Config(jsonPath: string, remotePath: string)

  /** `GetRemotePath`: the configured remote path, or the platform's default
      (empty on Unix, a fixed network-drive path on Windows) when there is no
      configuration or it names none. */
  function GetRemotePath(config: Option<Config>, platformDefault: string): (p: string)
    ensures config.Some? && config.value.remotePath != "" ==> p == config.value.remotePath
    ensures config.None? || config.value.remotePath == "" ==> p == platformDefault
    ensures p == "" <==> (config.None? || config.value.remotePath == "") && platformDefault == ""
  {
    if config.Some? && config.value.remotePath != "" then config.value.remotePath else platformDefault
  }

  // ---------------------------------------------------------------------------
  // SyncWithRemote
  // ---------------------------------------------------------------------------

  /** The outcome of `ComputeFileChecksum` on a path: the hex digest of its
      bytes, or `None` when the file could not be read. */
  type FileSum = Option<string>

  /** Both files read, their digests equal and at least eight characters long:
      the files are taken to be byte-identical. */
  predicate Identical(localSum: FileSum, remoteSum: FileSum)
  {
    localSum.Some? && remoteSum.Some? && localSum.value == remoteSum.value && |localSum.value| >= 8
  }

  datatype SyncError = LocalLoadFailed(cause: LoadError)

  /** Everything `SyncWithRemote` observes: the two file digests, the two
      loads, the order in which `MergeDatabases` visits the hashes, and the
      time it stamps. */
  datatype SyncInputs = SyncInputs(
    localSum: FileSum,
    remoteSum: FileSum,
    localLoad: Result<Database, LoadError>,
    remoteLoad: Result<Database, LoadError>,
    order: seq<Hash>,
    now: string)

  /** The local database a merge starts from: a failed load becomes an empty one. */
  function LocalOrEmpty(load: Result<Database, LoadError>): Database
  {
    if load.Ok? then load.value else Empty()
  }

  /** The merge order lists the hashes of the two databases that get merged. */
  predicate MergeOrderFits(s: SyncInputs)
  {
    !Identical(s.localSum, s.remoteSum) && s.remoteLoad.Ok? ==>
      IsOrder(s.order, AllHashes(LocalOrEmpty(s.localLoad), s.remoteLoad.value))
  }

  /** What `SyncWithRemote` returns. */
  function Synced(s: SyncInputs, digest: Digest): Result<Database, SyncError>
    requires MergeOrderFits(s)
  {
    if Identical(s.localSum, s.remoteSum) then
      if s.localLoad.Ok? then Ok(s.localLoad.value) else Err(LocalLoadFailed(s.localLoad.error))
    else if s.remoteLoad.Err? then Ok(LocalOrEmpty(s.localLoad))
    else Ok(Merged(LocalOrEmpty(s.localLoad), s.remoteLoad.value, s.order, s.now, digest))
  }

  /** `SyncWithRemote`. Identical files skip the merge and return the local
      load; otherwise a failed local load starts from an empty database, a
      failed remote load returns the local one unmerged, and else the two are
      merged. The only error is a failed local load of identical files. */
  method SyncWithRemote(s: SyncInputs, digest: Digest) returns (r: Result<Database, SyncError>)
    requires MergeOrderFits(s)
    ensures r == Synced(s, digest)
    ensures Identical(s.localSum, s.remoteSum) && s.localLoad.Ok? ==> r == Ok(s.localLoad.value)
    ensures !Identical(s.localSum, s.remoteSum) && s.remoteLoad.Err? ==> r == Ok(LocalOrEmpty(s.localLoad))
    ensures !Identical(s.localSum, s.remoteSum) && s.remoteLoad.Ok? ==>
              r == Ok(Merged(LocalOrEmpty(s.localLoad), s.remoteLoad.value, s.order, s.now, digest))
    ensures r.Err? <==> Identical(s.localSum, s.remoteSum) && s.localLoad.Err?
  {
    if s.localSum.Some? && s.remoteSum.Some? && s.localSum.value == s.remoteSum.value && |s.localSum.value| >= 8 {
      if s.localLoad.Err? {
        return Err(LocalLoadFailed(s.localLoad.error));
      }
      return Ok(s.localLoad.value);
    }
    var local := if s.localLoad.Ok? then s.localLoad.value else Empty();
    if s.remoteLoad.Err? {
      return Ok(local);
    }
    var merged := MergeDatabases(local, s.remoteLoad.value, s.order, s.now, digest);
    return Ok(merged);
  }

  /** When both copies load and differ, the sync result holds every hash of
      both, each in one section, and no other. */
  lemma SyncLossless(s: SyncInputs, digest: Digest)
    requires MergeOrderFits(s)
    requires !Identical(s.localSum, s.remoteSum) && s.localLoad.Ok? && s.remoteLoad.Ok?
    ensures Synced(s, digest).Ok?
    ensures var db := Synced(s, digest).value;
            && (forall h :: (h in db.added || h in db.retry) <==> h in AllHashes(s.localLoad.value, s.remoteLoad.value))
            && WellFormed(db)
  {
    MergeCoverage(s.localLoad.value, s.remoteLoad.value, s.order, s.now, digest);
    MergeWellFormed(s.localLoad.value, s.remoteLoad.value, s.order, s.now, digest);
  }

  /** Identical files: the stored metadata of the local file comes back
      unchanged, `last_sequence` included, since no merge runs. */
  lemma SyncShortCircuitKeepsMetadata(s: SyncInputs, digest: Digest)
    requires MergeOrderFits(s) && Identical(s.localSum, s.remoteSum) && s.localLoad.Ok?
    ensures Synced(s, digest).Ok? && Synced(s, digest).value.metadata == s.localLoad.value.metadata
  {
  }

  /** With no remote path, `ComputeFileChecksum("")` fails and
      `LoadJSONDatabase("")` finds no file, so it returns an empty database.
      The files are then never identical, and the local database is still
      merged with that empty one. */
  lemma SyncWithoutRemoteMerges(s: SyncInputs, digest: Digest)
    requires s.remoteSum.None? && s.remoteLoad == Ok(Empty())
    requires MergeOrderFits(s)
    ensures Synced(s, digest) == Ok(Merged(LocalOrEmpty(s.localLoad), Empty(), s.order, s.now, digest))
  {
  }

  /** So a save without a remote copy renumbers and restamps like any merge:
      a store that had reached `last_sequence` 10 but holds one entry with
      ID 2 comes back with `last_sequence` 2. */
  lemma SyncWithoutRemoteCanLowerSequence(now: string, digest: Digest)
    ensures var local := Database(Metadata(10, "", ""), map["a" := One(2)], map[]);
            var s := SyncInputs(Some("da39a3ee5e6b4b0d"), None, Ok(local), Ok(Empty()), ["a"], now);
            MergeOrderFits(s) && Synced(s, digest).Ok? && Synced(s, digest).value.metadata.lastSequence == 2
  {
    var local := Database(Metadata(10, "", ""), map["a" := One(2)], map[]);
    assert AllHashes(local, Empty()) == {"a"};
    MergeCanLowerSequence(now, digest);
  }

  // ---------------------------------------------------------------------------
  // The database the updates are laid over (magnet-handler.go:642-665)
  // ---------------------------------------------------------------------------

  /** The sync result; on a sync error the local file once more; if that
      fails too, an empty database. */
  function SyncedOrFallback(sync: Result<Database, SyncError>, fallback: Result<Database, LoadError>): (db: Database)
    ensures sync.Ok? ==> db == sync.value
    ensures sync.Err? && fallback.Ok? ==> db == fallback.value
    ensures sync.Err? && fallback.Err? ==> db == Empty()
  {
    if sync.Ok? then sync.value else if fallback.Ok? then fallback.value else Empty()
  }

  /** The safety check: an empty result is replaced by the remote file, read
      once more, when a remote path is configured and that read gives entries. */
  function Reconciled(sync: Result<Database, SyncError>, fallback: Result<Database, LoadError>,
                      remotePath: string, safety: Result<Database, LoadError>): (db: Database)
    ensures !IsEmpty(SyncedOrFallback(sync, fallback)) ==> db == SyncedOrFallback(sync, fallback)
    ensures IsEmpty(SyncedOrFallback(sync, fallback)) && remotePath != "" && safety.Ok? && !IsEmpty(safety.value)
            ==> db == safety.value
    ensures IsEmpty(db) <==> IsEmpty(SyncedOrFallback(sync, fallback))
                             && (remotePath == "" || safety.Err? || IsEmpty(safety.value))
  {
    var m := SyncedOrFallback(sync, fallback);
    if IsEmpty(m) && remotePath != "" && safety.Ok? && !IsEmpty(safety.value) then safety.value else m
  }

  // ---------------------------------------------------------------------------
  // The update overlay (magnet-handler.go:667-685)
  // ---------------------------------------------------------------------------

  /** The hashes listed in a sequence. */
  function Elems(s: seq<Hash>): set<Hash>
  {
    set x | x in s
  }

  /** One more step of a visiting order visits one more hash. */
  lemma ElemsGrow(s: seq<Hash>, i: int)
    requires 0 <= i < |s|
    ensures Elems(s[..i + 1]) == Elems(s[..i]) + {s[i]}
  {
    assert s[..i + 1] == s[..i] + [s[i]];
  }

  /** A visiting order holds exactly the keys it visits. */
  lemma OrderElems(order: seq<Hash>, keys: set<Hash>)
    requires IsOrder(order, keys)
    ensures Elems(order) == keys
  {
  }

  /** The overlay: the added updates are numbered from `last_sequence + 1` and
      written into `added`, each deleted from `retry`; then the retry updates
      are numbered on from there and written into `retry`; `last_sequence` is
      the last ID handed out. */
  function Overlaid(merged: Database, updates: Database, oa: seq<Hash>, or: seq<Hash>): Database
    requires IsOrder(oa, updates.added.Keys) && IsOrder(or, updates.retry.Keys)
  {
    var a := NumberAlong(merged.added, updates.added, merged.metadata.lastSequence + 1, oa);
    var r := NumberAlong(merged.retry - updates.added.Keys, updates.retry, a.1, or);
    Database(merged.metadata.(lastSequence := r.1 - 1), a.0, r.0)
  }

  /** The first overlay loop: every added update, numbered, into `added`, and
      its hash deleted from `retry`. */
  method OverlayAdded(added0: map<Hash, Entry>, retry0: map<Hash, Entry>, src: map<Hash, Entry>,
                      start: int, oa: seq<Hash>)
    returns (added: map<Hash, Entry>, retry: map<Hash, Entry>, nextID: int)
    requires IsOrder(oa, src.Keys)
    ensures (added, nextID) == NumberAlong(added0, src, start, oa)
    ensures retry == retry0 - src.Keys
  {
    added, retry, nextID := added0, retry0, start;
    for i := 0 to |oa|
      invariant (added, nextID) == NumberAlong(added0, src, start, oa[..i])
      invariant retry == retry0 - Elems(oa[..i])
    {
      AlongGrow(added0, src, start, oa, i);
      ElemsGrow(oa, i);
      var h := oa[i];
      var entry := src[h];
      if entry.id == 0 {
        entry := entry.(id := nextID);
        nextID := nextID + 1;
      }
      added := added[h := entry];
      retry := retry - {h};
    }
    assert oa[..|oa|] == oa;
    OrderElems(oa, src.Keys);
  }

  /** The two overlay loops, visiting the update maps in the given orders; the
      second is the plain numbering loop into `retry`. */
  method ApplyUpdates(merged: Database, updates: Database, oa: seq<Hash>, or: seq<Hash>) returns (db: Database)
    requires IsOrder(oa, updates.added.Keys) && IsOrder(or, updates.retry.Keys)
    ensures db == Overlaid(merged, updates, oa, or)
  {
    var added, retry, nextID := OverlayAdded(merged.added, merged.retry, updates.added,
                                             merged.metadata.lastSequence + 1, oa);
    retry, nextID := NumberInto(retry, updates.retry, nextID, or);
    db := Database(merged.metadata.(lastSequence := nextID - 1), added, retry);
  }

  /** Where each hash ends up: every added update in `added`, and in `retry`
      only when it is a retry update too; every retry update in `retry`,
      without being taken out of `added`. */
  lemma OverlayKeys(merged: Database, updates: Database, oa: seq<Hash>, or: seq<Hash>)
    requires IsOrder(oa, updates.added.Keys) && IsOrder(or, updates.retry.Keys)
    ensures var db := Overlaid(merged, updates, oa, or);
            && db.added.Keys == merged.added.Keys + updates.added.Keys
            && db.retry.Keys == (merged.retry.Keys - updates.added.Keys) + updates.retry.Keys
  {
    var a := NumberAlong(merged.added, updates.added, merged.metadata.lastSequence + 1, oa);
    AlongKeys(merged.added, updates.added, merged.metadata.lastSequence + 1, oa);
    AlongKeys(merged.retry - updates.added.Keys, updates.retry, a.1, or);
  }

  /** An update is written with all its fields; a nonzero ID is kept, a
      missing one is replaced by a fresh ID above the old `last_sequence`. */
  lemma OverlayEntry(merged: Database, updates: Database, oa: seq<Hash>, or: seq<Hash>, h: Hash)
    requires IsOrder(oa, updates.added.Keys) && IsOrder(or, updates.retry.Keys)
    ensures var db := Overlaid(merged, updates, oa, or);
            var ls := merged.metadata.lastSequence;
            h in updates.added ==>
              && h in db.added
              && NumberedEntry(db.added[h], updates.added[h], ls + 1, db.metadata.lastSequence + 1)
    ensures var db := Overlaid(merged, updates, oa, or);
            var ls := merged.metadata.lastSequence;
            h in updates.retry ==>
              && h in db.retry
              && NumberedEntry(db.retry[h], updates.retry[h], ls + 1, db.metadata.lastSequence + 1)
  {
    var ls := merged.metadata.lastSequence;
    var a := NumberAlong(merged.added, updates.added, ls + 1, oa);
    var r := NumberAlong(merged.retry - updates.added.Keys, updates.retry, a.1, or);
    OverlaidParts(merged, updates, oa, or);
    assert ls + 1 <= a.1 by { AlongZeroIds(merged.added, updates.added, ls + 1, oa); }
    assert a.1 <= r.1 by { AlongZeroIds(merged.retry - updates.added.Keys, updates.retry, a.1, or); }
    if h in updates.added {
      AlongEntryWithin(merged.added, updates.added, ls + 1, oa, h, ls + 1, r.1);
    }
    if h in updates.retry {
      AlongEntryWithin(merged.retry - updates.added.Keys, updates.retry, a.1, or, h, ls + 1, r.1);
    }
  }

  /** The hashes no update names keep their entries. */
  lemma OverlayUntouched(merged: Database, updates: Database, oa: seq<Hash>, or: seq<Hash>, h: Hash)
    requires IsOrder(oa, updates.added.Keys) && IsOrder(or, updates.retry.Keys)
    ensures var db := Overlaid(merged, updates, oa, or);
            h in merged.added && h !in updates.added ==> h in db.added && db.added[h] == merged.added[h]
    ensures var db := Overlaid(merged, updates, oa, or);
            h in merged.retry && h !in updates.added && h !in updates.retry ==>
              h in db.retry && db.retry[h] == merged.retry[h]
  {
    var ls := merged.metadata.lastSequence;
    var a := NumberAlong(merged.added, updates.added, ls + 1, oa);
    if h in merged.added && h !in updates.added {
      AlongUntouched(merged.added, updates.added, ls + 1, oa, h);
    }
    if h in merged.retry && h !in updates.added && h !in updates.retry {
      AlongUntouched(merged.retry - updates.added.Keys, updates.retry, a.1, or, h);
    }
  }

  /** The added updates without an ID get `ls+1 .. ls+za`, all distinct. */
  lemma OverlayAddedIds(merged: Database, updates: Database, oa: seq<Hash>, or: seq<Hash>)
    requires IsOrder(oa, updates.added.Keys) && IsOrder(or, updates.retry.Keys)
    ensures var db := Overlaid(merged, updates, oa, or);
            var ls := merged.metadata.lastSequence;
            && IdsOf(db.added, ZeroIdKeys(updates.added)) == Range(ls + 1, ls + |ZeroIdKeys(updates.added)|)
            && DistinctIds(db.added, ZeroIdKeys(updates.added))
            && NumberAlong(merged.added, updates.added, ls + 1, oa).1 == ls + 1 + |ZeroIdKeys(updates.added)|
  {
    OverlaidParts(merged, updates, oa, or);
    AlongZeroIds(merged.added, updates.added, merged.metadata.lastSequence + 1, oa);
  }

  /** `Overlaid` spelled out: the two numbering passes and the new sequence number. */
  lemma OverlaidParts(merged: Database, updates: Database, oa: seq<Hash>, or: seq<Hash>)
    requires IsOrder(oa, updates.added.Keys) && IsOrder(or, updates.retry.Keys)
    ensures var a := NumberAlong(merged.added, updates.added, merged.metadata.lastSequence + 1, oa);
            var r := NumberAlong(merged.retry - updates.added.Keys, updates.retry, a.1, or);
            Overlaid(merged, updates, oa, or) == Database(merged.metadata.(lastSequence := r.1 - 1), a.0, r.0)
  {
  }

  /** The retry updates without an ID get `ls+za+1 .. ls+za+zr`, all distinct,
      and `last_sequence` grows by exactly the number of updates without an ID. */
  lemma OverlayRetryIds(merged: Database, updates: Database, oa: seq<Hash>, or: seq<Hash>)
    requires IsOrder(oa, updates.added.Keys) && IsOrder(or, updates.retry.Keys)
    ensures var db := Overlaid(merged, updates, oa, or);
            var ls := merged.metadata.lastSequence;
            var za := |ZeroIdKeys(updates.added)|;
            var zr := |ZeroIdKeys(updates.retry)|;
            && IdsOf(db.retry, ZeroIdKeys(updates.retry)) == Range(ls + za + 1, ls + za + zr)
            && DistinctIds(db.retry, ZeroIdKeys(updates.retry))
            && db.metadata.lastSequence == ls + za + zr
  {
    var ls := merged.metadata.lastSequence;
    var za := |ZeroIdKeys(updates.added)|;
    var zr := |ZeroIdKeys(updates.retry)|;
    var a := NumberAlong(merged.added, updates.added, ls + 1, oa);
    var r := NumberAlong(merged.retry - updates.added.Keys, updates.retry, a.1, or);
    OverlaidParts(merged, updates, oa, or);
    AlongZeroIds(merged.added, updates.added, ls + 1, oa);
    AlongZeroIds(merged.retry - updates.added.Keys, updates.retry, a.1, or);
    assert a.1 == ls + za + 1;
    assert r.1 - 1 == ls + za + zr;
  }

  /** The sequence number never goes down, and stays above every ID when the
      updates bring no ID beyond it. */
  lemma OverlaySequence(merged: Database, updates: Database, oa: seq<Hash>, or: seq<Hash>)
    requires IsOrder(oa, updates.added.Keys) && IsOrder(or, updates.retry.Keys)
    ensures Overlaid(merged, updates, oa, or).metadata.lastSequence >= merged.metadata.lastSequence
    ensures SequenceCoversIds(merged) && SequenceCoversIds(updates.(metadata := merged.metadata))
            ==> SequenceCoversIds(Overlaid(merged, updates, oa, or))
  {
    var db := Overlaid(merged, updates, oa, or);
    OverlayRetryIds(merged, updates, oa, or);
    OverlayKeys(merged, updates, oa, or);
    if SequenceCoversIds(merged) && SequenceCoversIds(updates.(metadata := merged.metadata)) {
      forall h | h in db.added ensures db.added[h].id <= db.metadata.lastSequence {
        OverlayEntry(merged, updates, oa, or, h);
        OverlayUntouched(merged, updates, oa, or, h);
      }
      forall h | h in db.retry ensures db.retry[h].id <= db.metadata.lastSequence {
        OverlayEntry(merged, updates, oa, or, h);
        OverlayUntouched(merged, updates, oa, or, h);
      }
    }
  }

  /** The sections stay disjoint exactly when no retry update names a hash that
      is, or is about to be, in `added`. */
  lemma OverlayDisjoint(merged: Database, updates: Database, oa: seq<Hash>, or: seq<Hash>)
    requires IsOrder(oa, updates.added.Keys) && IsOrder(or, updates.retry.Keys)
    requires SectionsDisjoint(merged)
    ensures SectionsDisjoint(Overlaid(merged, updates, oa, or))
            <==> updates.retry.Keys !! (merged.added.Keys + updates.added.Keys)
  {
    OverlayKeys(merged, updates, oa, or);
    var db := Overlaid(merged, updates, oa, or);
    if !(updates.retry.Keys !! (merged.added.Keys + updates.added.Keys)) {
      var h :| h in updates.retry.Keys && h in merged.added.Keys + updates.added.Keys;
      assert h in db.added.Keys && h in db.retry.Keys;
    }
  }

  /** A hash waiting in `retry` that an update marks as added ends up only in
      `added`, with the update's entry: as given when it carries an ID, and
      numbered otherwise (the entry `AddMagnetToDeluge` builds has none). */
  lemma OverlayPromotesRetry(merged: Database, updates: Database, oa: seq<Hash>, or: seq<Hash>, h: Hash)
    requires IsOrder(oa, updates.added.Keys) && IsOrder(or, updates.retry.Keys)
    requires h in merged.retry && h in updates.added && h !in updates.retry
    ensures var db := Overlaid(merged, updates, oa, or);
            && h in db.added && h !in db.retry
            && db.added[h] == updates.added[h].(id := db.added[h].id)
            && (updates.added[h].id != 0 ==> db.added[h] == updates.added[h])
            && (updates.added[h].id == 0 ==> merged.metadata.lastSequence < db.added[h].id <= db.metadata.lastSequence)
  {
    OverlayKeys(merged, updates, oa, or);
    OverlayEntry(merged, updates, oa, or, h);
  }

  // ---------------------------------------------------------------------------
  // SaveJSONDatabase
  // ---------------------------------------------------------------------------

  /** The contents written: the local file and, when that write went through,
      the remote one. */
  datatype Written = Written(local: Database, remote: Option<Database>)

  datatype SaveError = LocalWriteFailed

  /** What the save step observes besides the sync inputs: the second local
      load (used only when the sync fails), the second remote load (used only
      by the safety check), the two write outcomes and the two save times. */
  datatype SaveInputs = SaveInputs(
    fallbackLoad: Result<Database, LoadError>,
    safetyLoad: Result<Database, LoadError>,
    localWriteOk: bool,
    remoteWriteOk: bool,
    localNow: string,
    remoteNow: string)

  /** The database `SaveJSONDatabase` writes locally, before stamping. */
  function Applied(remotePath: string, s: SyncInputs, v: SaveInputs, updates: Database,
                   oa: seq<Hash>, or: seq<Hash>, digest: Digest): Database
    requires MergeOrderFits(s) && IsOrder(oa, updates.added.Keys) && IsOrder(or, updates.retry.Keys)
  {
    Overlaid(Reconciled(Synced(s, digest), v.fallbackLoad, remotePath, v.safetyLoad), updates, oa, or)
  }

  /** `SaveJSONDatabase`: sync, fall back, apply the safety check, overlay the
      updates, save locally, then save to the remote path best effort. Only a
      failed local write is an error. The remote copy has the same sections
      and sequence number as the local one; its checksum is taken over the
      metadata the local save left, the local checksum included. */
  method SaveJSONDatabase(config: Option<Config>, platformDefault: string, s: SyncInputs, v: SaveInputs,
                          updates: Database, oa: seq<Hash>, or: seq<Hash>, digest: Digest)
    returns (r: Result<Written, SaveError>)
    requires MergeOrderFits(s) && IsOrder(oa, updates.added.Keys) && IsOrder(or, updates.retry.Keys)
    ensures r.Err? <==> !v.localWriteOk
    ensures r.Ok? ==> r.value.local
                      == Stamp(Applied(GetRemotePath(config, platformDefault), s, v, updates, oa, or, digest),
                               v.localNow, digest)
    ensures r.Ok? ==> (r.value.remote.Some? <==> GetRemotePath(config, platformDefault) != "" && v.remoteWriteOk)
    ensures r.Ok? && r.value.remote.Some? ==>
              && r.value.remote.value.added == r.value.local.added
              && r.value.remote.value.retry == r.value.local.retry
              && r.value.remote.value.metadata.lastSequence == r.value.local.metadata.lastSequence
              && r.value.remote.value.metadata.lastModified == v.remoteNow
              && ChecksumOver(r.value.remote.value, r.value.local.metadata.checksum, digest)
  {
    var remotePath := GetRemotePath(config, platformDefault);
    var merged: Database;
    var sync := SyncWithRemote(s, digest);
    if sync.Ok? {
      merged := sync.value;
    } else if v.fallbackLoad.Ok? {
      merged := v.fallbackLoad.value;
    } else {
      merged := Empty();
    }
    assert merged == SyncedOrFallback(sync, v.fallbackLoad);
    if |merged.added| == 0 && |merged.retry| == 0 && remotePath != "" {
      if v.safetyLoad.Ok? && (|v.safetyLoad.value.added| > 0 || |v.safetyLoad.value.retry| > 0) {
        merged := v.safetyLoad.value;
      }
    }
    assert merged == Reconciled(sync, v.fallbackLoad, remotePath, v.safetyLoad);
    merged := ApplyUpdates(merged, updates, oa, or);
    merged := Stamp(merged, v.localNow, digest);
    if !v.localWriteOk {
      return Err(LocalWriteFailed);
    }
    var remote: Option<Database> := None;
    if remotePath != "" {
      var again := Stamp(merged, v.remoteNow, digest);
      if v.remoteWriteOk {
        remote := Some(again);
      }
    }
    return Ok(Written(merged, remote));
  }

  /** Nothing is lost when a copy had entries: a non-empty sync result, or a
      non-empty remote behind an empty one, keeps all its hashes through the
      save. */
  lemma SaveKeepsHashes(remotePath: string, s: SyncInputs, v: SaveInputs, updates: Database,
                        oa: seq<Hash>, or: seq<Hash>, digest: Digest, h: Hash)
    requires MergeOrderFits(s) && IsOrder(oa, updates.added.Keys) && IsOrder(or, updates.retry.Keys)
    ensures var base := Reconciled(Synced(s, digest), v.fallbackLoad, remotePath, v.safetyLoad);
            var db := Applied(remotePath, s, v, updates, oa, or, digest);
            (h in base.added || h in base.retry || h in updates.added || h in updates.retry)
            <==> (h in db.added || h in db.retry)
  {
    var base := Reconciled(Synced(s, digest), v.fallbackLoad, remotePath, v.safetyLoad);
    OverlayKeys(base, updates, oa, or);
  }

  // ---------------------------------------------------------------------------
  // A behaviour worth knowing about
  // ---------------------------------------------------------------------------

  /** A retry update for a hash that is already in `added` leaves it in both
      sections, whatever the IDs: the added entry is kept as it was, and the
      update is stored with its ID or, when that is 0, a fresh one. */
  lemma RetryUpdateKeepsAdded(e: Entry, u: Entry)
    ensures var merged := Database(Metadata(e.id, "", ""), map["h" := e], map[]);
            var updates := Database(Metadata(0, "", ""), map[], map["h" := u]);
            var db := Overlaid(merged, updates, [], ["h"]);
            && "h" in db.added && "h" in db.retry && !SectionsDisjoint(db)
            && db.added["h"] == e
            && db.retry["h"] == u.(id := db.retry["h"].id)
            && (u.id != 0 ==> db.retry["h"] == u)
            && (u.id == 0 ==> db.retry["h"].id > e.id)
  {
    var merged := Database(Metadata(e.id, "", ""), map["h" := e], map[]);
    var updates := Database(Metadata(0, "", ""), map[], map["h" := u]);
    OverlayKeys(merged, updates, [], ["h"]);
    var db := Overlaid(merged, updates, [], ["h"]);
    assert "h" in db.added.Keys && "h" in db.retry.Keys;
    OverlayUntouched(merged, updates, [], ["h"], "h");
    OverlayEntry(merged, updates, [], ["h"], "h");
  }
}
