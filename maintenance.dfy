/** The table edits inside the maintenance commands of magnet-handler.go:
    removing orphaned entries (`SyncWithDeluge`, 1006-1101), back-filling from
    the torrent list (`BackfillFromDeluge`, 1104-1242) and the duplicate-ID
    census at its end. What Deluge reports is an input; the RPC calls that
    fetch it are not modelled. */
module Maintenance {
  import opened Wrappers
  import opened Store
  import opened Migration
  import opened Sync

  /** The torrents Deluge lists under the label: their hashes, and the `name`
      and `save_path` strings it reports for them. */
  datatype Torrents = Torrents(hashes: set<Hash>, names: map<Hash, string>, savePaths: map<Hash, string>)

  /** `torrentData[key].(string)`: the reported string, or "" when it is
      missing (or is not a string). */
  function Field(m: map<Hash, string>, h: Hash): string
  {
    if h in m then m[h] else ""
  }

  datatype CliError = LoadFailed(cause: LoadError) | SaveFailed

  /** `SaveDatabaseLocal` to the local path, then best effort to the remote
      path when one is configured. The local save stamps the database in
      place, so the remote copy is stamped again over the local stamp and
      its checksum covers the local checksum. */
  function SaveBoth(db: Database, remotePath: string, v: SaveInputs, digest: Digest): (r: Result<Written, CliError>)
    ensures r.Err? <==> !v.localWriteOk
    ensures r.Ok? ==> r.value.local.added == db.added && r.value.local.retry == db.retry
                      && r.value.local.metadata.lastSequence == db.metadata.lastSequence
                      && r.value.local.metadata.lastModified == v.localNow
                      && ChecksumOver(r.value.local, db.metadata.checksum, digest)
    ensures r.Ok? ==> (r.value.remote.Some? <==> remotePath != "" && v.remoteWriteOk)
    ensures r.Ok? && r.value.remote.Some? ==>
              && r.value.remote.value.added == r.value.local.added
              && r.value.remote.value.retry == r.value.local.retry
              && r.value.remote.value.metadata.lastSequence == r.value.local.metadata.lastSequence
              && r.value.remote.value.metadata.lastModified == v.remoteNow
              && ChecksumOver(r.value.remote.value, r.value.local.metadata.checksum, digest)
  {
    if !v.localWriteOk then Err(SaveFailed)
    else
      var local := Stamp(db, v.localNow, digest);
      Ok(Written(local, if remotePath != "" && v.remoteWriteOk then Some(Stamp(local, v.remoteNow, digest)) else None))
  }

  // ---------------------------------------------------------------------------
  // Orphan removal (magnet-handler.go:1041-1047, 1069-1072)
  // ---------------------------------------------------------------------------

  /** The loop collecting the added hashes Deluge does not list. */
  method FindOrphans(added: map<Hash, Entry>, torrents: set<Hash>, order: seq<Hash>)
    returns (orphaned: seq<Hash>)
    requires IsOrder(order, added.Keys)
    ensures IsOrder(orphaned, added.Keys - torrents)
  {
    orphaned := [];
    for i := 0 to |order|
      invariant forall j :: 0 <= j < |orphaned| ==> orphaned[j] in order[..i] && orphaned[j] !in torrents
      invariant forall h :: h in order[..i] && h !in torrents ==> h in orphaned
      invariant forall j, k :: 0 <= j < k < |orphaned| ==> orphaned[j] != orphaned[k]
    {
      assert order[..i + 1] == order[..i] + [order[i]];
      var h := order[i];
      assert h !in order[..i];
      if h !in torrents {
        orphaned := orphaned + [h];
      }
    }
    assert order[..|order|] == order;
  }

  /** The loop deleting the orphans from `added`. */
  method DeleteAll(added: map<Hash, Entry>, orphaned: seq<Hash>) returns (r: map<Hash, Entry>)
    ensures r == added - Elems(orphaned)
  {
    r := added;
    for i := 0 to |orphaned|
      invariant r == added - Elems(orphaned[..i])
    {
      ElemsGrow(orphaned, i);
      r := r - {orphaned[i]};
    }
    assert orphaned[..|orphaned|] == orphaned;
  }

  /** The outcome of an orphan sweep: how many orphans were found and what was
      written (nothing in a dry run or when there are none). */
  datatype Sweep = Sweep(orphans: nat, written: Option<Written>)

  /** The in-memory half of `SyncWithDeluge`: a failed load is an error; `retry`
      is never touched; the added hashes Deluge does not list are removed
      unless it is a dry run, and the result is saved only when some were. */
  method SyncWithDeluge(load: Result<Database, LoadError>, torrents: set<Hash>, order: seq<Hash>, dryRun: bool,
                        remotePath: string, v: SaveInputs, digest: Digest)
    returns (r: Result<Sweep, CliError>)
    requires load.Ok? ==> IsOrder(order, load.value.added.Keys)
    ensures load.Err? ==> r == Err(LoadFailed(load.error))
    ensures load.Ok? ==> var db := load.value;
            var kept := db.(added := map h | h in db.added && h in torrents :: db.added[h]);
            && (r.Ok? ==> r.value.orphans == |db.added.Keys - torrents|)
            && (dryRun || db.added.Keys <= torrents ==> r.Ok? && r.value.written.None?)
            && (!dryRun && !(db.added.Keys <= torrents) ==>
                  r == (match SaveBoth(kept, remotePath, v, digest)
                        case Ok(w) => Ok(Sweep(|db.added.Keys - torrents|, Some(w)))
                        case Err(e) => Err(e)))
  {
    if load.Err? {
      return Err(LoadFailed(load.error));
    }
    var db := load.value;
    var orphaned := FindOrphans(db.added, torrents, order);
    OrderSize(orphaned, db.added.Keys - torrents);
    if |orphaned| == 0 || dryRun {
      if |orphaned| == 0 {
        assert db.added.Keys - torrents == {};
        assert forall h :: h in db.added.Keys ==> h in torrents by {
          forall h | h in db.added.Keys ensures h in torrents {
            assert h !in db.added.Keys - torrents;
          }
        }
      }
      return Ok(Sweep(|orphaned|, None));
    }
    assert orphaned[0] in db.added.Keys - torrents;
    var added := DeleteAll(db.added, orphaned);
    assert Elems(orphaned) == db.added.Keys - torrents;
    assert added == map h | h in db.added && h in torrents :: db.added[h];
    db := db.(added := added);
    var saved := SaveBoth(db, remotePath, v, digest);
    if saved.Err? {
      return Err(saved.error);
    }
    return Ok(Sweep(|orphaned|, Some(saved.value)));
  }

  /** An order of a set is as long as the set. */
  lemma {:induction false} OrderSize(order: seq<Hash>, keys: set<Hash>)
    requires IsOrder(order, keys)
    ensures |order| == |keys|
    decreases |order|
  {
    if order != [] {
      var last := order[|order| - 1];
      var p := order[..|order| - 1];
      assert IsOrder(p, keys - {last}) by {
        forall h | h in keys - {last} ensures h in p {
          var i :| 0 <= i < |order| && order[i] == h;
          assert i != |order| - 1;
          assert p[i] == h;
        }
      }
      OrderSize(p, keys - {last});
    } else {
      assert forall h :: h !in keys;
      assert keys == {};
    }
  }

  // ---------------------------------------------------------------------------
  // Back-fill (magnet-handler.go:1145-1190)
  // ---------------------------------------------------------------------------

  /** The entry a torrent unknown to the database becomes. */
  function NewEntry(h: Hash, t: Torrents, uuid: string, id: int, now: string): Entry
  {
    Entry(uuid, id, Field(t.names, h), h, BareMagnet(h), now, "", "", "", "", "", 0,
          Field(t.savePaths, h), Field(t.names, h))
  }

  /** The state of the back-fill loop: both sections and `nextID`. */
  datatype Fill = Fill(added: map<Hash, Entry>, retry: map<Hash, Entry>, next: int)

  /** The back-fill loop after visiting the hashes of `order`: a hash already in
      `added` is skipped, one in `retry` is moved to `added` unchanged, and any
      other gets a new entry with the next ID. UUIDs and times are inputs. */
  function FillAlong(a0: map<Hash, Entry>, r0: map<Hash, Entry>, start: int, t: Torrents,
                     uuids: Hash -> string, times: Hash -> string, order: seq<Hash>): Fill
    decreases |order|
  {
    if order == [] then Fill(a0, r0, start)
    else
      FillStep(FillAlong(a0, r0, start, t, uuids, times, order[..|order| - 1]), order[|order| - 1], t, uuids, times)
  }

  /** One turn of the back-fill loop. */
  function FillStep(p: Fill, h: Hash, t: Torrents, uuids: Hash -> string, times: Hash -> string): Fill
  {
    if h in p.added then p
    else if h in p.retry then Fill(p.added[h := p.retry[h]], p.retry - {h}, p.next)
    else Fill(p.added[h := NewEntry(h, t, uuids(h), p.next, times(h))], p.retry, p.next + 1)
  }

  /** In an order without repeats, the last hash does not occur before. */
  lemma LastNotBefore(order: seq<Hash>)
    requires |order| > 0
    requires forall i, j :: 0 <= i < j < |order| ==> order[i] != order[j]
    ensures order[|order| - 1] !in order[..|order| - 1]
  {
    var p := order[..|order| - 1];
    forall i | 0 <= i < |p| ensures p[i] != order[|order| - 1] {
      assert p[i] == order[i];
    }
  }

  /** The torrents the database knows in neither section. */
  function Unknown(a0: map<Hash, Entry>, r0: map<Hash, Entry>, s: set<Hash>): set<Hash>
  {
    s - a0.Keys - r0.Keys
  }

  /** The back-fill loop itself. */
  method FillLoop(a0: map<Hash, Entry>, r0: map<Hash, Entry>, start: int, t: Torrents,
                  uuids: Hash -> string, times: Hash -> string, order: seq<Hash>)
    returns (f: Fill)
    ensures f == FillAlong(a0, r0, start, t, uuids, times, order)
  {
    var added, retry, nextID := a0, r0, start;
    for i := 0 to |order|
      invariant Fill(added, retry, nextID) == FillAlong(a0, r0, start, t, uuids, times, order[..i])
    {
      assert order[..i + 1][..i] == order[..i];
      var h := order[i];
      if h in added {
        continue;
      }
      if h in retry {
        var entry := retry[h];
        retry := retry - {h};
        added := added[h := entry];
        continue;
      }
      var entry := NewEntry(h, t, uuids(h), nextID, times(h));
      added := added[h := entry];
      nextID := nextID + 1;
    }
    assert order[..|order|] == order;
    f := Fill(added, retry, nextID);
  }

  /** The loop adds the visited hashes to `added` and takes from `retry` those
      it moved. */
  lemma {:induction false} FillKeys(a0: map<Hash, Entry>, r0: map<Hash, Entry>, start: int, t: Torrents,
                                    uuids: Hash -> string, times: Hash -> string, order: seq<Hash>)
    ensures var f := FillAlong(a0, r0, start, t, uuids, times, order);
            f.added.Keys == a0.Keys + Elems(order) && f.retry == r0 - (Elems(order) - a0.Keys)
    decreases |order|
  {
    if order != [] {
      var p := order[..|order| - 1];
      FillKeys(a0, r0, start, t, uuids, times, p);
      assert Elems(order) == Elems(p) + {order[|order| - 1]} by {
        assert order == p + [order[|order| - 1]];
      }
    }
  }

  /** An entry already in `added` is left as it was. */
  lemma {:induction false} FillKeepsAdded(a0: map<Hash, Entry>, r0: map<Hash, Entry>, start: int, t: Torrents,
                                          uuids: Hash -> string, times: Hash -> string, order: seq<Hash>, h: Hash)
    requires h in a0
    ensures var f := FillAlong(a0, r0, start, t, uuids, times, order);
            h in f.added && f.added[h] == a0[h]
    decreases |order|
  {
    if order != [] {
      FillKeepsAdded(a0, r0, start, t, uuids, times, order[..|order| - 1], h);
    }
  }

  /** `nextID` never goes down. */
  lemma {:induction false} FillNext(a0: map<Hash, Entry>, r0: map<Hash, Entry>, start: int, t: Torrents,
                                    uuids: Hash -> string, times: Hash -> string, order: seq<Hash>)
    ensures FillAlong(a0, r0, start, t, uuids, times, order).next >= start
    decreases |order|
  {
    if order != [] {
      FillNext(a0, r0, start, t, uuids, times, order[..|order| - 1]);
    }
  }

  /** A listed hash that only `retry` held is in `added` with its retry entry;
      an unknown one in `added` with a new entry whose ID lies in
      `start .. next - 1`. */
  lemma {:induction false} FillVisited(a0: map<Hash, Entry>, r0: map<Hash, Entry>, start: int, t: Torrents,
                                       uuids: Hash -> string, times: Hash -> string, order: seq<Hash>, h: Hash)
    requires forall i, j :: 0 <= i < j < |order| ==> order[i] != order[j]
    requires h in order && h !in a0
    ensures var f := FillAlong(a0, r0, start, t, uuids, times, order);
            h in r0 ==> h in f.added && f.added[h] == r0[h]
    ensures var f := FillAlong(a0, r0, start, t, uuids, times, order);
            h !in r0 ==> h in f.added && f.added[h] == NewEntry(h, t, uuids(h), f.added[h].id, times(h))
                         && start <= f.added[h].id < f.next
    decreases |order|
  {
    var p := order[..|order| - 1];
    var last := order[|order| - 1];
    FillNext(a0, r0, start, t, uuids, times, order);
    FillNext(a0, r0, start, t, uuids, times, p);
    LastNotBefore(order);
    if h == last {
      FillKeys(a0, r0, start, t, uuids, times, p);
    } else {
      assert h in p by {
        var i :| 0 <= i < |order| && order[i] == h;
        assert p[i] == h;
      }
      FillVisited(a0, r0, start, t, uuids, times, p, h);
    }
  }

  /** One turn keeps the numbering of the unknown hashes consecutive and
      distinct, adding the turn's hash to them when it makes a new entry. */
  lemma FillStepIds(f: Fill, keys: set<Hash>, keys': set<Hash>, h: Hash, t: Torrents, uuids: Hash -> string,
                    times: Hash -> string, start: int)
    requires h !in keys && start <= f.next
    requires keys' == if h !in f.added && h !in f.retry then keys + {h} else keys
    requires IdsOf(f.added, keys) == Range(start, f.next - 1) && DistinctIds(f.added, keys)
    ensures var g := FillStep(f, h, t, uuids, times);
            IdsOf(g.added, keys') == Range(start, g.next - 1) && DistinctIds(g.added, keys') && start <= g.next
  {
    if h in f.added {
    } else if h in f.retry {
      IdsOfUntouched(f.added, keys, h, f.retry[h]);
    } else {
      NumberStep(f.added, keys, h, NewEntry(h, t, uuids(h), f.next, times(h)), start);
    }
  }

  /** The new entries get the IDs `start .. next - 1`, all distinct, one each. */
  lemma {:induction false} FillIds(a0: map<Hash, Entry>, r0: map<Hash, Entry>, start: int, t: Torrents,
                                   uuids: Hash -> string, times: Hash -> string, order: seq<Hash>)
    requires forall i, j :: 0 <= i < j < |order| ==> order[i] != order[j]
    ensures NumberedFill(a0, r0, start, FillAlong(a0, r0, start, t, uuids, times, order), Elems(order))
    decreases |order|
  {
    if order == [] {
      assert Unknown(a0, r0, Elems(order)) == {};
    } else {
      var p := order[..|order| - 1];
      FillIds(a0, r0, start, t, uuids, times, p);
      FillIdsStep(a0, r0, start, t, uuids, times, order);
    }
  }

  /** The hashes of `visited` unknown to `a0` and `r0` carry the IDs
      `start .. f.next - 1` in `f`, all distinct. */
  predicate NumberedFill(a0: map<Hash, Entry>, r0: map<Hash, Entry>, start: int, f: Fill, visited: set<Hash>)
  {
    && IdsOf(f.added, Unknown(a0, r0, visited)) == Range(start, f.next - 1)
    && DistinctIds(f.added, Unknown(a0, r0, visited))
    && start <= f.next
  }

  /** The induction step of `FillIds`. */
  lemma FillIdsStep(a0: map<Hash, Entry>, r0: map<Hash, Entry>, start: int, t: Torrents,
                    uuids: Hash -> string, times: Hash -> string, order: seq<Hash>)
    requires |order| > 0
    requires forall i, j :: 0 <= i < j < |order| ==> order[i] != order[j]
    requires NumberedFill(a0, r0, start, FillAlong(a0, r0, start, t, uuids, times, order[..|order| - 1]),
                          Elems(order[..|order| - 1]))
    ensures NumberedFill(a0, r0, start, FillAlong(a0, r0, start, t, uuids, times, order), Elems(order))
  {
    var p := order[..|order| - 1];
    var h := order[|order| - 1];
    var f := FillAlong(a0, r0, start, t, uuids, times, p);
    var keys := Unknown(a0, r0, Elems(p));
    FillUnknown(a0, r0, start, t, uuids, times, order);
    FillStepIds(f, keys, Unknown(a0, r0, Elems(order)), h, t, uuids, times, start);
  }

  /** The hashes unknown to the database after one more turn of the loop. */
  lemma FillUnknown(a0: map<Hash, Entry>, r0: map<Hash, Entry>, start: int, t: Torrents,
                    uuids: Hash -> string, times: Hash -> string, order: seq<Hash>)
    requires |order| > 0
    requires forall i, j :: 0 <= i < j < |order| ==> order[i] != order[j]
    ensures var p := order[..|order| - 1];
            var h := order[|order| - 1];
            var f := FillAlong(a0, r0, start, t, uuids, times, p);
            && h !in Unknown(a0, r0, Elems(p))
            && Unknown(a0, r0, Elems(order))
               == if h !in f.added && h !in f.retry then Unknown(a0, r0, Elems(p)) + {h} else Unknown(a0, r0, Elems(p))
  {
    var p := order[..|order| - 1];
    var h := order[|order| - 1];
    LastNotBefore(order);
    assert Elems(order) == Elems(p) + {h} by {
      assert order == p + [h];
    }
    FillKeys(a0, r0, start, t, uuids, times, p);
    UnknownStep(a0, r0, FillAlong(a0, r0, start, t, uuids, times, p), Elems(p), h);
  }

  /** Visiting one more hash adds it to the unknown ones exactly when the loop
      makes a new entry for it. */
  lemma UnknownStep(a0: map<Hash, Entry>, r0: map<Hash, Entry>, f: Fill, visited: set<Hash>, h: Hash)
    requires h !in visited
    requires f.added.Keys == a0.Keys + visited && f.retry == r0 - (visited - a0.Keys)
    ensures Unknown(a0, r0, visited + {h})
            == if h !in f.added && h !in f.retry then Unknown(a0, r0, visited) + {h} else Unknown(a0, r0, visited)
  {
  }

  /** Consecutive distinct IDs for a set of hashes: as many IDs as hashes. */
  lemma IdsCount(m: map<Hash, Entry>, keys: set<Hash>, start: int, next: int)
    requires keys <= m.Keys && start <= next
    requires IdsOf(m, keys) == Range(start, next - 1) && DistinctIds(m, keys)
    ensures next - start == |keys|
  {
    DistinctIdsCount(m, keys);
    RangeSize(start, next - 1);
  }

  /** What `BackfillFromDeluge` does to the database it loaded: the loop, then
      `last_sequence = nextID - 1`. */
  function Backfilled(db: Database, t: Torrents, uuids: Hash -> string, times: Hash -> string,
                      order: seq<Hash>): Database
  {
    var f := FillAlong(db.added, db.retry, db.metadata.lastSequence + 1, t, uuids, times, order);
    Database(db.metadata.(lastSequence := f.next - 1), f.added, f.retry)
  }

  /** Back-fill: every listed torrent ends in `added`; `retry` loses exactly
      the listed hashes that were not already added; entries already added are
      untouched, moved ones keep their retry entry, ID included. */
  lemma BackfillPlacement(db: Database, t: Torrents, uuids: Hash -> string, times: Hash -> string,
                          order: seq<Hash>, h: Hash)
    requires IsOrder(order, t.hashes)
    ensures var b := Backfilled(db, t, uuids, times, order);
            && b.added.Keys == db.added.Keys + t.hashes
            && b.retry == db.retry - (t.hashes - db.added.Keys)
            && (h in db.added ==> b.added[h] == db.added[h])
            && (h in t.hashes && h !in db.added && h in db.retry ==> b.added[h] == db.retry[h])
  {
    var start := db.metadata.lastSequence + 1;
    FillKeys(db.added, db.retry, start, t, uuids, times, order);
    assert Elems(order) == t.hashes;
    if h in db.added {
      FillKeepsAdded(db.added, db.retry, start, t, uuids, times, order, h);
    } else if h in t.hashes && h in db.retry {
      FillVisited(db.added, db.retry, start, t, uuids, times, order, h);
    }
  }

  /** Back-fill numbering: the visited torrents unknown to the database get
      exactly the IDs `ls+1 .. ls+n`, one each, and `last_sequence` becomes
      `ls+n`. */
  lemma BackfillNumbering(db: Database, t: Torrents, uuids: Hash -> string, times: Hash -> string,
                          order: seq<Hash>)
    requires IsOrder(order, t.hashes)
    ensures NumberedFrom(Backfilled(db, t, uuids, times, order).added, Unknown(db.added, db.retry, Elems(order)),
                         db.metadata.lastSequence)
    ensures Backfilled(db, t, uuids, times, order).metadata.lastSequence
            == db.metadata.lastSequence + |Unknown(db.added, db.retry, Elems(order))|
  {
    BackfilledParts(db, t, uuids, times, order);
    FillNumbering(db.added, db.retry, db.metadata.lastSequence, t, uuids, times, order, Elems(order));
  }

  /** `Backfilled` is the loop's state with `last_sequence = nextID - 1`. */
  lemma BackfilledParts(db: Database, t: Torrents, uuids: Hash -> string, times: Hash -> string, order: seq<Hash>)
    ensures var f := FillAlong(db.added, db.retry, db.metadata.lastSequence + 1, t, uuids, times, order);
            var b := Backfilled(db, t, uuids, times, order);
            b == Database(db.metadata.(lastSequence := f.next - 1), f.added, f.retry)
  {
  }

  /** The loop started at `ls + 1` numbers the unknown hashes `ls + 1 .. ls + n`. */
  lemma FillNumbering(a0: map<Hash, Entry>, r0: map<Hash, Entry>, ls: int, t: Torrents,
                      uuids: Hash -> string, times: Hash -> string, order: seq<Hash>, visited: set<Hash>)
    requires forall i, j :: 0 <= i < j < |order| ==> order[i] != order[j]
    requires Elems(order) == visited
    ensures var f := FillAlong(a0, r0, ls + 1, t, uuids, times, order);
            && NumberedFrom(f.added, Unknown(a0, r0, visited), ls)
            && f.next - 1 == ls + |Unknown(a0, r0, visited)|
  {
    var keys := Unknown(a0, r0, visited);
    var f := FillAlong(a0, r0, ls + 1, t, uuids, times, order);
    assert keys <= f.added.Keys by {
      FillKeys(a0, r0, ls + 1, t, uuids, times, order);
    }
    FillIds(a0, r0, ls + 1, t, uuids, times, order);
    FillCount(a0, r0, f, Elems(order), ls);
  }

  /** The hashes of `keys` carry the IDs `ls + 1 .. ls + |keys|` in `m`, one each. */
  predicate NumberedFrom(m: map<Hash, Entry>, keys: set<Hash>, ls: int)
  {
    IdsOf(m, keys) == Range(ls + 1, ls + |keys|) && DistinctIds(m, keys)
  }

  /** Consecutive distinct IDs from `ls + 1` for the unknown hashes: they
      are `ls + 1 .. ls + n`, and the next free one is `ls + n + 1`. */
  lemma FillCount(a0: map<Hash, Entry>, r0: map<Hash, Entry>, f: Fill, visited: set<Hash>, ls: int)
    requires Unknown(a0, r0, visited) <= f.added.Keys
    requires NumberedFill(a0, r0, ls + 1, f, visited)
    ensures NumberedFrom(f.added, Unknown(a0, r0, visited), ls)
    ensures f.next - 1 == ls + |Unknown(a0, r0, visited)|
  {
    IdsCount(f.added, Unknown(a0, r0, visited), ls + 1, f.next);
  }

  /** Back-fill: a torrent unknown to the database gets an entry with its
      name, save path and a bare magnet URI, and an ID above the old
      `last_sequence` and at most the new one. */
  lemma BackfillNewEntry(db: Database, t: Torrents, uuids: Hash -> string, times: Hash -> string,
                         order: seq<Hash>, h: Hash)
    requires IsOrder(order, t.hashes) && h in Unknown(db.added, db.retry, t.hashes)
    ensures var b := Backfilled(db, t, uuids, times, order);
            && h in b.added
            && b.added[h] == NewEntry(h, t, uuids(h), b.added[h].id, times(h))
            && b.added[h].uri == "magnet:?xt=urn:btih:" + h
            && db.metadata.lastSequence < b.added[h].id <= b.metadata.lastSequence
  {
    FillVisited(db.added, db.retry, db.metadata.lastSequence + 1, t, uuids, times, order, h);
  }

  /** Back-fill keeps the store's invariants: sections stay disjoint and
      `last_sequence` stays above every ID. */
  lemma BackfillWellFormed(db: Database, t: Torrents, uuids: Hash -> string, times: Hash -> string,
                           order: seq<Hash>)
    requires IsOrder(order, t.hashes) && WellFormed(db)
    ensures WellFormed(Backfilled(db, t, uuids, times, order))
  {
    var b := Backfilled(db, t, uuids, times, order);
    BackfillPlacement(db, t, uuids, times, order, "");
    BackfillNumbering(db, t, uuids, times, order);
    forall h | h in b.added ensures b.added[h].id <= b.metadata.lastSequence {
      BackfillPlacement(db, t, uuids, times, order, h);
      if h in Unknown(db.added, db.retry, t.hashes) {
        BackfillNewEntry(db, t, uuids, times, order, h);
      }
    }
  }

  // ---------------------------------------------------------------------------
  // The duplicate-ID census (magnet-handler.go:1212-1227)
  // ---------------------------------------------------------------------------

  /** The hashes of `order` whose entry in `m` has ID `id`, in visiting order. */
  function Having(m: map<Hash, Entry>, order: seq<Hash>, id: int): (r: seq<Hash>)
    requires forall i :: 0 <= i < |order| ==> order[i] in m
    decreases |order|
  {
    if order == [] then []
    else
      var p := Having(m, order[..|order| - 1], id);
      var h := order[|order| - 1];
      if m[h].id == id then p + [h] else p
  }

  lemma {:induction false} HavingMembers(m: map<Hash, Entry>, order: seq<Hash>, id: int)
    requires forall i :: 0 <= i < |order| ==> order[i] in m
    ensures forall h :: h in Having(m, order, id) <==> h in order && m[h].id == id
    decreases |order|
  {
    if order != [] {
      var p := order[..|order| - 1];
      HavingMembers(m, p, id);
      assert forall h :: h in order <==> h in p || h == order[|order| - 1] by {
        assert order == p + [order[|order| - 1]];
      }
    }
  }

  lemma {:induction false} HavingDistinct(m: map<Hash, Entry>, order: seq<Hash>, id: int)
    requires forall i :: 0 <= i < |order| ==> order[i] in m
    requires forall i, j :: 0 <= i < j < |order| ==> order[i] != order[j]
    ensures forall i, j :: 0 <= i < j < |Having(m, order, id)| ==> Having(m, order, id)[i] != Having(m, order, id)[j]
    decreases |order|
  {
    if order != [] {
      var p := order[..|order| - 1];
      var h := order[|order| - 1];
      LastNotBefore(order);
      HavingDistinct(m, p, id);
      HavingMembers(m, p, id);
      var q := Having(m, p, id);
      var r := Having(m, order, id);
      if m[h].id == id {
        assert r == q + [h];
        forall i, j | 0 <= i < j < |r| ensures r[i] != r[j] {
          assert r[i] == q[i] && q[i] in q;
          if j < |q| {
            assert r[j] == q[j];
          } else {
            assert r[j] == h && h !in q;
          }
        }
      } else {
        assert r == q;
      }
    }
  }

  /** At least two hashes of `m` have ID `id` exactly when the listing holds
      two or more; at least one exactly when it is non-empty. */
  lemma HavingCount(m: map<Hash, Entry>, order: seq<Hash>, id: int)
    requires IsOrder(order, m.Keys)
    ensures |Having(m, order, id)| >= 1 <==> exists h :: h in m && m[h].id == id
    ensures |Having(m, order, id)| >= 2 <==> exists h1, h2 :: h1 in m && h2 in m && h1 != h2 && m[h1].id == id && m[h2].id == id
  {
    var r := Having(m, order, id);
    HavingMembers(m, order, id);
    HavingDistinct(m, order, id);
    if |r| >= 1 {
      assert r[0] in r;
    }
    if |r| >= 2 {
      assert r[0] in r && r[1] in r;
      assert r[0] != r[1];
    }
    if exists h1, h2 :: h1 in m && h2 in m && h1 != h2 && m[h1].id == id && m[h2].id == id {
      var h1, h2 :| h1 in m && h2 in m && h1 != h2 && m[h1].id == id && m[h2].id == id;
      assert h1 in r && h2 in r;
      var i :| 0 <= i < |r| && r[i] == h1;
      var j :| 0 <= j < |r| && r[j] == h2;
      assert i != j;
    }
  }

  /** The hashes listed under an ID: those of `added`, then those of `retry`. */
  function Holders(db: Database, oa: seq<Hash>, or: seq<Hash>, id: int): seq<Hash>
    requires IsOrder(oa, db.added.Keys) && IsOrder(or, db.retry.Keys)
  {
    Having(db.added, oa, id) + Having(db.retry, or, id)
  }

  /** The IDs listed under more than one hash. */
  function Shared(idMap: map<int, seq<Hash>>): set<int>
  {
    set id | id in idMap && |idMap[id]| > 1
  }

  /** `idMap[e.ID] = append(idMap[e.ID], hash)` for the hashes of `order`, in
      that order, starting from `idMap0`. */
  function GroupAlong(idMap0: map<int, seq<Hash>>, m: map<Hash, Entry>, order: seq<Hash>): map<int, seq<Hash>>
    requires forall i :: 0 <= i < |order| ==> order[i] in m
    decreases |order|
  {
    if order == [] then idMap0
    else
      var g := GroupAlong(idMap0, m, order[..|order| - 1]);
      var h := order[|order| - 1];
      var id := m[h].id;
      g[id := (if id in g then g[id] else []) + [h]]
  }

  /** The loop grouping one section's hashes by ID onto `idMap`. */
  method GroupInto(idMap0: map<int, seq<Hash>>, m: map<Hash, Entry>, order: seq<Hash>)
    returns (idMap: map<int, seq<Hash>>)
    requires IsOrder(order, m.Keys)
    ensures idMap == GroupAlong(idMap0, m, order)
  {
    idMap := idMap0;
    for i := 0 to |order|
      invariant idMap == GroupAlong(idMap0, m, order[..i])
    {
      assert order[..i + 1][..i] == order[..i];
      var h := order[i];
      var id := m[h].id;
      var hashes := if id in idMap then idMap[id] else [];
      idMap := idMap[id := hashes + [h]];
    }
    assert order[..|order|] == order;
  }

  /** Grouping lists under each ID the hashes carrying it, after what
      `idMap0` listed there; no other ID gets a list. */
  lemma {:induction false} GroupHaving(idMap0: map<int, seq<Hash>>, m: map<Hash, Entry>, order: seq<Hash>)
    requires forall i :: 0 <= i < |order| ==> order[i] in m
    ensures forall id :: id in GroupAlong(idMap0, m, order) <==> id in idMap0 || Having(m, order, id) != []
    ensures forall id :: id in GroupAlong(idMap0, m, order) ==>
              GroupAlong(idMap0, m, order)[id] == (if id in idMap0 then idMap0[id] else []) + Having(m, order, id)
    decreases |order|
  {
    if order != [] {
      var p := order[..|order| - 1];
      var h := order[|order| - 1];
      GroupHaving(idMap0, m, p);
      var g := GroupAlong(idMap0, m, p);
      forall k ensures Having(m, order, k) == Having(m, p, k) + (if k == m[h].id then [h] else []) {
      }
    }
  }

  /** Some member of a non-empty set of IDs (the two cases give the solver a
      bound to search from). */
  lemma SomeId(s: set<int>) returns (x: int)
    requires s != {}
    ensures x in s
  {
    if exists y :: y in s && y >= 0 {
      x :| x in s && x >= 0;
    } else {
      x :| x in s && x < 0;
    }
  }

  /** The loop counting the IDs listed under more than one hash, in any order. */
  method CountShared(idMap: map<int, seq<Hash>>) returns (n: nat)
    ensures n == |Shared(idMap)|
  {
    n := 0;
    var todo := idMap.Keys;
    while todo != {}
      invariant todo <= idMap.Keys
      invariant n == |set id | id in idMap && id !in todo && |idMap[id]| > 1|
      decreases todo
    {
      ghost var some := SomeId(todo);
      var id :| id in todo;
      ghost var before := set k | k in idMap && k !in todo && |idMap[k]| > 1;
      todo := todo - {id};
      ghost var after := set k | k in idMap && k !in todo && |idMap[k]| > 1;
      if |idMap[id]| > 1 {
        assert after == before + {id};
        n := n + 1;
      } else {
        assert after == before;
      }
    }
    assert (set k | k in idMap && k !in todo && |idMap[k]| > 1) == Shared(idMap);
  }

  /** The census: group both sections' hashes by ID, then count the IDs that
      more than one hash carries. */
  method DuplicateIdCensus(db: Database, oa: seq<Hash>, or: seq<Hash>)
    returns (idMap: map<int, seq<Hash>>, duplicates: nat)
    requires IsOrder(oa, db.added.Keys) && IsOrder(or, db.retry.Keys)
    ensures forall id :: id in idMap <==> Holders(db, oa, or, id) != []
    ensures forall id :: id in idMap ==> idMap[id] == Holders(db, oa, or, id)
    ensures duplicates == |Shared(idMap)|
  {
    var grouped := GroupInto(map[], db.added, oa);
    idMap := GroupInto(grouped, db.retry, or);
    GroupHaving(map[], db.added, oa);
    GroupHaving(grouped, db.retry, or);
    duplicates := CountShared(idMap);
  }

  /** No two entries of the store share an ID: none within a section, none
      across the two (a hash in both sections counts twice). */
  predicate UniqueIds(db: Database)
  {
    && DistinctIds(db.added, db.added.Keys)
    && DistinctIds(db.retry, db.retry.Keys)
    && forall h1, h2 :: h1 in db.added && h2 in db.retry ==> db.added[h1].id != db.retry[h2].id
  }

  /** The census reports no duplicate exactly when no two entries share an ID. */
  lemma CensusZeroIff(db: Database, oa: seq<Hash>, or: seq<Hash>, idMap: map<int, seq<Hash>>)
    requires IsOrder(oa, db.added.Keys) && IsOrder(or, db.retry.Keys)
    requires forall id :: id in idMap <==> Holders(db, oa, or, id) != []
    requires forall id :: id in idMap ==> idMap[id] == Holders(db, oa, or, id)
    ensures Shared(idMap) == {} <==> UniqueIds(db)
  {
    if !UniqueIds(db) {
      CensusSeesClash(db, oa, or, idMap);
    }
    if Shared(idMap) != {} {
      var id := SomeId(Shared(idMap));
      HavingCount(db.added, oa, id);
      HavingCount(db.retry, or, id);
      assert |Having(db.added, oa, id)| >= 2 || |Having(db.retry, or, id)| >= 2
             || (|Having(db.added, oa, id)| >= 1 && |Having(db.retry, or, id)| >= 1);
    }
  }

  /** Two entries sharing an ID put that ID among the shared ones. */
  lemma CensusSeesClash(db: Database, oa: seq<Hash>, or: seq<Hash>, idMap: map<int, seq<Hash>>)
    requires IsOrder(oa, db.added.Keys) && IsOrder(or, db.retry.Keys)
    requires forall id :: id in idMap <==> Holders(db, oa, or, id) != []
    requires forall id :: id in idMap ==> idMap[id] == Holders(db, oa, or, id)
    requires !UniqueIds(db)
    ensures Shared(idMap) != {}
  {
    var id;
    if !DistinctIds(db.added, db.added.Keys) {
      var h1, h2 :| h1 in db.added && h2 in db.added && h1 != h2 && db.added[h1].id == db.added[h2].id;
      id := db.added[h1].id;
      HavingCount(db.added, oa, id);
    } else if !DistinctIds(db.retry, db.retry.Keys) {
      var h1, h2 :| h1 in db.retry && h2 in db.retry && h1 != h2 && db.retry[h1].id == db.retry[h2].id;
      id := db.retry[h1].id;
      HavingCount(db.retry, or, id);
    } else {
      var h1, h2 :| h1 in db.added && h2 in db.retry && db.added[h1].id == db.retry[h2].id;
      id := db.added[h1].id;
      HavingCount(db.added, oa, id);
      HavingCount(db.retry, or, id);
    }
    SharedWhenTwo(db, oa, or, idMap, id);
  }

  /** An ID that two or more listed hashes carry is shared. */
  lemma SharedWhenTwo(db: Database, oa: seq<Hash>, or: seq<Hash>, idMap: map<int, seq<Hash>>, id: int)
    requires IsOrder(oa, db.added.Keys) && IsOrder(or, db.retry.Keys)
    requires forall id :: id in idMap <==> Holders(db, oa, or, id) != []
    requires forall id :: id in idMap ==> idMap[id] == Holders(db, oa, or, id)
    requires |Having(db.added, oa, id)| + |Having(db.retry, or, id)| >= 2
    ensures id in Shared(idMap)
  {
  }

  /** A flat V0 file migrated on its own has no duplicate IDs. */
  lemma V0MigrationUniqueIds(base: Database, v0: map<Hash, EntryV0>, uuids: Uuids, order: seq<Hash>, digest: Digest)
    requires IsEmpty(base) && IsOrder(order, v0.Keys)
    ensures UniqueIds(MigratedV0(base, v0, uuids, order, digest))
  {
    V0Numbering(base, v0, uuids, order, digest);
    V0FromScratchWellFormed(base, v0, uuids, order, digest);
  }

  // ---------------------------------------------------------------------------
  // BackfillFromDeluge
  // ---------------------------------------------------------------------------

  datatype BackfillReport = BackfillReport(written: Written, duplicateIds: nat)

  /** The in-memory half of `BackfillFromDeluge`: load (a failure starts from
      an empty database), back-fill, save, then count duplicate IDs. */
  method BackfillFromDeluge(load: Result<Database, LoadError>, t: Torrents, order: seq<Hash>,
                            uuids: Hash -> string, times: Hash -> string,
                            oa: seq<Hash>, or: seq<Hash>, remotePath: string, v: SaveInputs, digest: Digest)
    returns (r: Result<BackfillReport, CliError>)
    requires IsOrder(order, t.hashes)
    requires var b := Backfilled(if load.Ok? then load.value else Empty(), t, uuids, times, order);
             IsOrder(oa, b.added.Keys) && IsOrder(or, b.retry.Keys)
    ensures var b := Backfilled(if load.Ok? then load.value else Empty(), t, uuids, times, order);
            && (r.Err? <==> !v.localWriteOk)
            && (r.Ok? ==> SaveBoth(b, remotePath, v, digest) == Ok(r.value.written))
            && (r.Ok? ==> (r.value.duplicateIds == 0 <==> UniqueIds(b)))
  {
    var db0 := if load.Ok? then load.value else Empty();
    var f := FillLoop(db0.added, db0.retry, db0.metadata.lastSequence + 1, t, uuids, times, order);
    var db := Database(db0.metadata.(lastSequence := f.next - 1), f.added, f.retry);
    BackfilledParts(db0, t, uuids, times, order);
    var saved := SaveBoth(db, remotePath, v, digest);
    if saved.Err? {
      return Err(saved.error);
    }
    var local := saved.value.local;
    var idMap, duplicates := DuplicateIdCensus(local, oa, or);
    CensusZeroIff(local, oa, or, idMap);
    assert UniqueIds(local) == UniqueIds(db) by {
      assert local.added == db.added && local.retry == db.retry;
    }
    return Ok(BackfillReport(saved.value, duplicates));
  }
}
