/** The in-memory shape of the tracked-magnet store: one entry per content
    hash, in one of two sections (`added` and `retry`), plus metadata. */
module Store {

  /** A content hash, used as the map key (lower-case hex in practice). */
  type Hash = string

  /** The two sections of a database. */
  datatype Section = AddedSection | RetrySection

  /** `MagnetEntry`: one tracked magnet link. `id` is the legacy sequence number
      (0 means "not assigned yet"); `uuid` is the durable identity. */
  datatype Entry = Entry(
    uuid: string,
    id: int,
    title: string,
    hash: Hash,
    uri: string,
    addedDate: string,
    firstSeen: string,
    lastAttempt: string,
    status: string,
    torrentId: string,
    addedToDeluge: string,
    retryCount: int,
    savePath: string,
    torrentName: string)

  /** The zero value of `MagnetEntry`. */
  const ZeroEntry: Entry := Entry("", 0, "", "", "", "", "", "", "", "", "", 0, "", "")

  /** `MagnetEntryV0`, the flat map entry of the oldest schema (its float
      `progress` field is not carried). */
  datatype EntryV0 = EntryV0(
    hash: Hash,
    title: string,
    uri: string,
    torrentName: string,
    savePath: string,
    state: string,
    status: string,
    torrentId: string,
    addedToDeluge: string,
    firstSeen: string,
    lastAttempt: string,
    backfilled: string)

  const ZeroEntryV0: EntryV0 := EntryV0("", "", "", "", "", "", "", "", "", "", "", "")

  /** `MagnetEntryV1`, the entry of the added/retry schema without IDs. */
  datatype EntryV1 = EntryV1(
    title: string,
    hash: Hash,
    uri: string,
    addedDate: string,
    lastAttempt: string,
    retryCount: int,
    savePath: string,
    torrentName: string)

  /** `DatabaseMetadata`. */
  datatype Metadata = Metadata(lastSequence: int, lastModified: string, checksum: string)

  /** `MagnetDatabase`, the current schema. */
  datatype Database = Database(metadata: Metadata, added: map<Hash, Entry>, retry: map<Hash, Entry>)

  /** `ComputeChecksum`: a deterministic digest of the WHOLE database value,
      metadata included (the Go code marshals the complete struct). SHA-1 and
      JSON marshalling are not modelled, so the digest is a parameter. */
  type Digest = Database -> string

  /** `db.Metadata.Checksum = ComputeChecksum(db)` while the field still held
      `prior`: the digest covers the new sequence number and the old checksum. */
  predicate ChecksumOver(db: Database, prior: string, digest: Digest)
  {
    db.metadata.checksum == digest(db.(metadata := db.metadata.(checksum := prior)))
  }

  /** A database resealed after a rewrite (a legacy branch of the loader, or the
      merge): its sections, `last_sequence` set, then
      `db.Metadata.Checksum = ComputeChecksum(db)`. */
  function Sealed(meta: Metadata, added: map<Hash, Entry>, retry: map<Hash, Entry>, ls: int, digest: Digest): (db: Database)
    ensures db.added == added && db.retry == retry
    ensures db.metadata.lastSequence == ls && db.metadata.lastModified == meta.lastModified
    ensures ChecksumOver(db, meta.checksum, digest)
  {
    var d := Database(meta.(lastSequence := ls), added, retry);
    d.(metadata := d.metadata.(checksum := digest(d)))
  }

  /** A freshly made database: zero metadata, two empty sections. */
  function Empty(): (db: Database)
    ensures db.added == map[] && db.retry == map[] && db.metadata.lastSequence == 0
  {
    Database(Metadata(0, "", ""), map[], map[])
  }

  predicate IsEmpty(db: Database) { |db.added| == 0 && |db.retry| == 0 }

  /** An empty database has no keys in either section. */
  lemma EmptyKeys(db: Database)
    requires IsEmpty(db)
    ensures db.added.Keys == {} && db.retry.Keys == {}
  {
  }

  /** Every hash that occurs in either section of either database. */
  function AllHashes(a: Database, b: Database): set<Hash>
  {
    a.added.Keys + a.retry.Keys + b.added.Keys + b.retry.Keys
  }

  /** A hash is in at most one section. */
  predicate SectionsDisjoint(db: Database) { db.added.Keys !! db.retry.Keys }

  /** `last_sequence` is at least every ID present. */
  predicate SequenceCoversIds(db: Database)
  {
    && (forall h :: h in db.added ==> db.added[h].id <= db.metadata.lastSequence)
    && (forall h :: h in db.retry ==> db.retry[h].id <= db.metadata.lastSequence)
  }

  /** The store invariants of the design: disjoint sections, covering sequence. */
  predicate WellFormed(db: Database) { SectionsDisjoint(db) && SequenceCoversIds(db) }

  /** The integers `lo..hi`, both ends included (empty when `hi < lo`). */
  function Range(lo: int, hi: int): (r: set<int>)
    ensures forall i :: i in r <==> lo <= i <= hi
    decreases hi - lo
  {
    if hi < lo then {} else Range(lo, hi - 1) + {hi}
  }

  /** The IDs that `m` gives to the hashes of `keys`. */
  function IdsOf(m: map<Hash, Entry>, keys: set<Hash>): set<int>
  {
    set h | h in keys && h in m :: m[h].id
  }

  /** No two hashes of `keys` carry the same ID in `m`. */
  predicate DistinctIds(m: map<Hash, Entry>, keys: set<Hash>)
  {
    forall h1, h2 :: h1 in keys && h2 in keys && h1 in m && h2 in m && h1 != h2 ==> m[h1].id != m[h2].id
  }

  /** The hashes of `m` whose entry has no ID yet. */
  function ZeroIdKeys(m: map<Hash, Entry>): set<Hash>
  {
    set h | h in m && m[h].id == 0
  }

  lemma RangeSize(lo: int, hi: int)
    requires lo <= hi + 1
    ensures |Range(lo, hi)| == hi - lo + 1
    decreases hi - lo
  {
    if lo <= hi {
      RangeSize(lo, hi - 1);
    }
  }

  /** Every entry of both sections, keyed by hash (a retry entry shadows an added
      one of the same hash; the two never overlap in a well-formed store). */
  function Entries(db: Database): map<Hash, Entry>
  {
    db.added + db.retry
  }

  // ---------------------------------------------------------------------------
  // The numbering loops
  // ---------------------------------------------------------------------------

  /** `order` lists the hashes of `keys`, each once: the order in which a Go
      `range` loop over a map with these keys happens to visit them. */
  predicate IsOrder(order: seq<Hash>, keys: set<Hash>)
  {
    && (forall i :: 0 <= i < |order| ==> order[i] in keys)
    && (forall h :: h in keys ==> h in order)
    && (forall i, j :: 0 <= i < j < |order| ==> order[i] != order[j])
  }

  /** The numbering loop over `src`, started from the map `base` and the next
      free ID `start`, after it has visited the hashes of `order`: each entry
      without an ID takes the next free ID, every entry is written into the
      map, and the result is the map written and the next free ID. */
  function NumberAlong(base: map<Hash, Entry>, src: map<Hash, Entry>, start: int, order: seq<Hash>)
    : (r: (map<Hash, Entry>, int))
    requires forall i :: 0 <= i < |order| ==> order[i] in src
    decreases |order|
  {
    if order == [] then (base, start)
    else
      var p := NumberAlong(base, src, start, order[..|order| - 1]);
      var h := order[|order| - 1];
      if src[h].id == 0 then (p.0[h := src[h].(id := p.1)], p.1 + 1) else (p.0[h := src[h]], p.1)
  }

  /** One more hash of the order: one more entry written. */
  lemma AlongGrow(base: map<Hash, Entry>, src: map<Hash, Entry>, start: int, order: seq<Hash>, i: int)
    requires forall k :: 0 <= k < |order| ==> order[k] in src
    requires 0 <= i < |order|
    ensures var p := NumberAlong(base, src, start, order[..i]);
            var h := order[i];
            NumberAlong(base, src, start, order[..i + 1])
            == if src[h].id == 0 then (p.0[h := src[h].(id := p.1)], p.1 + 1) else (p.0[h := src[h]], p.1)
  {
    assert order[..i + 1][..i] == order[..i];
  }

  /** The numbering loop itself, visiting the hashes in the given order. */
  method NumberInto(base: map<Hash, Entry>, src: map<Hash, Entry>, start: int, order: seq<Hash>)
    returns (m: map<Hash, Entry>, next: int)
    requires forall i :: 0 <= i < |order| ==> order[i] in src
    ensures (m, next) == NumberAlong(base, src, start, order)
  {
    m := base;
    next := start;
    for i := 0 to |order|
      invariant (m, next) == NumberAlong(base, src, start, order[..i])
    {
      assert order[..i + 1][..i] == order[..i];
      var h := order[i];
      var e := src[h];
      if e.id == 0 {
        e := e.(id := next);
        next := next + 1;
      }
      m := m[h := e];
    }
    assert order[..|order|] == order;
  }

  /** `e` is `s` as written by a numbering loop: unchanged when it has an ID,
      otherwise with an ID from `start .. next - 1`. */
  predicate NumberedEntry(e: Entry, s: Entry, start: int, next: int)
  {
    if s.id == 0 then e == s.(id := e.id) && start <= e.id < next else e == s
  }

  /** `m` is `base` with every entry of `src` written over it, the entries of
      `src` without an ID (0) numbered consecutively and distinctly from
      `start` up to `next - 1`, the others keeping their ID. */
  predicate Numbered(base: map<Hash, Entry>, src: map<Hash, Entry>, start: int, next: int, m: map<Hash, Entry>)
  {
    && start <= next
    && m.Keys == base.Keys + src.Keys
    && (forall h :: h in base && h !in src ==> m[h] == base[h])
    && (forall h :: h in src ==> NumberedEntry(m[h], src[h], start, next))
    && IdsOf(m, ZeroIdKeys(src)) == Range(start, next - 1)
    && DistinctIds(m, ZeroIdKeys(src))
  }

  /** The entries of `src` whose hash occurs in `order`. */
  function Visited(src: map<Hash, Entry>, order: seq<Hash>): map<Hash, Entry>
  {
    map h | h in src && h in order :: src[h]
  }

  /** After any prefix of a visiting order, the loop has numbered exactly the
      entries visited so far. */
  lemma {:induction false} NumberAlongVisited(base: map<Hash, Entry>, src: map<Hash, Entry>, start: int, order: seq<Hash>)
    requires forall i :: 0 <= i < |order| ==> order[i] in src
    requires forall i, j :: 0 <= i < j < |order| ==> order[i] != order[j]
    ensures Numbered(base, Visited(src, order), start, NumberAlong(base, src, start, order).1,
                     NumberAlong(base, src, start, order).0)
    decreases |order|
  {
    if order == [] {
      assert Visited(src, order) == map[];
      assert ZeroIdKeys(map[]) == {};
    } else {
      var p := order[..|order| - 1];
      var h := order[|order| - 1];
      NumberAlongVisited(base, src, start, p);
      var r := NumberAlong(base, src, start, p);
      var seen := Visited(src, p);
      assert h !in p;
      assert order == p + [h];
      VisitedStep(src, p, h);
      NumberOne(base, seen, start, r.1, r.0, h, src[h]);
    }
  }

  lemma VisitedStep(src: map<Hash, Entry>, p: seq<Hash>, h: Hash)
    requires h in src && h !in p
    ensures h !in Visited(src, p)
    ensures Visited(src, p + [h]) == Visited(src, p)[h := src[h]]
  {
    assert forall k :: k in p + [h] <==> k in p || k == h;
  }

  /** Along a full visiting order, the loop numbers every entry of `src`. */
  lemma NumberAlongNumbered(base: map<Hash, Entry>, src: map<Hash, Entry>, start: int, order: seq<Hash>)
    requires IsOrder(order, src.Keys)
    ensures Numbered(base, src, start, NumberAlong(base, src, start, order).1,
                     NumberAlong(base, src, start, order).0)
  {
    NumberAlongVisited(base, src, start, order);
    assert Visited(src, order) == src;
  }

  /** One turn of the numbering loop keeps its invariant. */
  lemma NumberOne(base: map<Hash, Entry>, seen: map<Hash, Entry>, start: int, next: int,
                  m: map<Hash, Entry>, h: Hash, e: Entry)
    requires Numbered(base, seen, start, next, m) && h !in seen
    ensures e.id == 0 ==> Numbered(base, seen[h := e], start, next + 1, m[h := e.(id := next)])
    ensures e.id != 0 ==> Numbered(base, seen[h := e], start, next, m[h := e])
  {
    if e.id == 0 {
      NumberFresh(base, seen, start, next, m, h, e);
    } else {
      NumberKept(base, seen, start, next, m, h, e);
    }
  }

  lemma NumberFresh(base: map<Hash, Entry>, seen: map<Hash, Entry>, start: int, next: int,
                    m: map<Hash, Entry>, h: Hash, e: Entry)
    requires Numbered(base, seen, start, next, m) && h !in seen && e.id == 0
    ensures Numbered(base, seen[h := e], start, next + 1, m[h := e.(id := next)])
  {
    var z := ZeroIdKeys(seen);
    ZeroIdKeysInsert(seen, h, e);
    NumberStep(m, z, h, e.(id := next), start);
  }

  /** A new entry joins the entries without an ID exactly when it has none. */
  lemma ZeroIdKeysInsert(seen: map<Hash, Entry>, h: Hash, e: Entry)
    requires h !in seen
    ensures h !in ZeroIdKeys(seen)
    ensures ZeroIdKeys(seen[h := e]) == if e.id == 0 then ZeroIdKeys(seen) + {h} else ZeroIdKeys(seen)
  {
  }

  lemma NumberKept(base: map<Hash, Entry>, seen: map<Hash, Entry>, start: int, next: int,
                   m: map<Hash, Entry>, h: Hash, e: Entry)
    requires Numbered(base, seen, start, next, m) && h !in seen && e.id != 0
    ensures Numbered(base, seen[h := e], start, next, m[h := e])
  {
    var z := ZeroIdKeys(seen);
    ZeroIdKeysInsert(seen, h, e);
    IdsOfUntouched(m, z, h, e);
  }

  lemma IdsOfInsert(m: map<Hash, Entry>, keys: set<Hash>, h: Hash, e: Entry)
    requires h !in keys
    ensures IdsOf(m[h := e], keys + {h}) == IdsOf(m, keys) + {e.id}
  {
    var m' := m[h := e];
    forall x | x in IdsOf(m', keys + {h}) ensures x in IdsOf(m, keys) + {e.id} {
      var k :| k in keys + {h} && k in m' && m'[k].id == x;
      if k != h { assert k in keys && m[k].id == x; }
    }
    forall x | x in IdsOf(m, keys) + {e.id} ensures x in IdsOf(m', keys + {h}) {
      if x == e.id {
        assert m'[h].id == x;
      } else {
        var k :| k in keys && k in m && m[k].id == x;
        assert m'[k].id == x;
      }
    }
  }

  lemma DistinctInsert(m: map<Hash, Entry>, keys: set<Hash>, h: Hash, e: Entry)
    requires h !in keys && DistinctIds(m, keys) && e.id !in IdsOf(m, keys)
    ensures DistinctIds(m[h := e], keys + {h})
  {
    var m' := m[h := e];
    forall h1, h2 | h1 in keys + {h} && h2 in keys + {h} && h1 in m' && h2 in m' && h1 != h2
      ensures m'[h1].id != m'[h2].id
    {
      if h1 == h {
        assert m[h2].id in IdsOf(m, keys);
      } else if h2 == h {
        assert m[h1].id in IdsOf(m, keys);
      }
    }
  }

  /** A fresh ID one past a consecutive, distinct numbering extends it. */
  lemma NumberStep(m: map<Hash, Entry>, keys: set<Hash>, h: Hash, e: Entry, start: int)
    requires h !in keys && DistinctIds(m, keys) && IdsOf(m, keys) == Range(start, e.id - 1)
    requires start <= e.id
    ensures IdsOf(m[h := e], keys + {h}) == Range(start, e.id)
    ensures DistinctIds(m[h := e], keys + {h})
  {
    assert Range(start, e.id) == Range(start, e.id - 1) + {e.id};
    IdsOfInsert(m, keys, h, e);
    DistinctInsert(m, keys, h, e);
  }

  /** Writing an entry for a hash outside `keys` leaves their IDs alone. */
  lemma IdsOfUntouched(m: map<Hash, Entry>, keys: set<Hash>, h: Hash, e: Entry)
    requires h !in keys
    ensures IdsOf(m[h := e], keys) == IdsOf(m, keys)
    ensures DistinctIds(m, keys) ==> DistinctIds(m[h := e], keys)
  {
    assert forall k :: k in keys && k in m ==> m[h := e][k] == m[k];
  }

  /** Distinct IDs: as many IDs as hashes. */
  lemma {:induction false} DistinctIdsCount(m: map<Hash, Entry>, keys: set<Hash>)
    requires keys <= m.Keys && DistinctIds(m, keys)
    ensures |IdsOf(m, keys)| == |keys|
    decreases keys
  {
    if keys != {} {
      var k :| k in keys;
      DistinctIdsCount(m, keys - {k});
      DistinctIdsStep(m, keys, k);
    }
  }

  /** The induction step of `DistinctIdsCount`: taking a hash back adds one ID. */
  lemma DistinctIdsStep(m: map<Hash, Entry>, keys: set<Hash>, k: Hash)
    requires keys <= m.Keys && DistinctIds(m, keys) && k in keys
    requires |IdsOf(m, keys - {k})| == |keys - {k}|
    ensures |IdsOf(m, keys)| == |keys|
  {
    var rest := keys - {k};
    IdsOfInsert(m, rest, k, m[k]);
    assert m[k := m[k]] == m;
    assert rest + {k} == keys;
    assert m[k].id !in IdsOf(m, rest);
  }

  /** Two adjacent ranges make up the range that spans both, without overlap. */
  lemma RangeSplit(lo: int, mid: int, hi: int)
    requires lo - 1 <= mid <= hi
    ensures Range(lo, mid) + Range(mid + 1, hi) == Range(lo, hi)
    ensures Range(lo, mid) !! Range(mid + 1, hi)
  {
  }

  // ---------------------------------------------------------------------------
  // What a numbering loop guarantees, one fact at a time
  // ---------------------------------------------------------------------------

  /** The loop writes exactly the hashes of `base` and of `src`. */
  lemma AlongKeys(base: map<Hash, Entry>, src: map<Hash, Entry>, start: int, order: seq<Hash>)
    requires IsOrder(order, src.Keys)
    ensures NumberAlong(base, src, start, order).0.Keys == base.Keys + src.Keys
  {
    NumberAlongNumbered(base, src, start, order);
  }

  /** A visited entry is written with its fields unchanged; it keeps its ID
      when it had one and otherwise gets one of `start .. next - 1`. */
  lemma AlongEntry(base: map<Hash, Entry>, src: map<Hash, Entry>, start: int, order: seq<Hash>, h: Hash)
    requires IsOrder(order, src.Keys) && h in src
    ensures h in NumberAlong(base, src, start, order).0
    ensures NumberAlong(base, src, start, order).0[h]
            == src[h].(id := NumberAlong(base, src, start, order).0[h].id)
    ensures src[h].id == 0 ==> start <= NumberAlong(base, src, start, order).0[h].id < NumberAlong(base, src, start, order).1
    ensures src[h].id != 0 ==> NumberAlong(base, src, start, order).0[h] == src[h]
  {
    var r := NumberAlong(base, src, start, order);
    NumberAlongNumbered(base, src, start, order);
    assert NumberedEntry(r.0[h], src[h], start, r.1);
  }

  /** An entry of `base` that `src` does not overwrite stays as it was. */
  lemma AlongUntouched(base: map<Hash, Entry>, src: map<Hash, Entry>, start: int, order: seq<Hash>, h: Hash)
    requires IsOrder(order, src.Keys) && h in base && h !in src
    ensures h in NumberAlong(base, src, start, order).0
    ensures NumberAlong(base, src, start, order).0[h] == base[h]
  {
    NumberAlongNumbered(base, src, start, order);
  }

  /** `AlongEntry` with the fresh ID placed within wider bounds. */
  lemma AlongEntryWithin(base: map<Hash, Entry>, src: map<Hash, Entry>, start: int, order: seq<Hash>, h: Hash, lo: int, hi: int)
    requires IsOrder(order, src.Keys) && h in src
    requires lo <= start && NumberAlong(base, src, start, order).1 <= hi
    ensures h in NumberAlong(base, src, start, order).0
    ensures NumberedEntry(NumberAlong(base, src, start, order).0[h], src[h], lo, hi)
  {
    AlongEntry(base, src, start, order, h);
  }

  /** The entries of `src` without an ID get the IDs `start .. next - 1`, all
      different, one per such entry. */
  lemma AlongZeroIds(base: map<Hash, Entry>, src: map<Hash, Entry>, start: int, order: seq<Hash>)
    requires IsOrder(order, src.Keys)
    ensures IdsOf(NumberAlong(base, src, start, order).0, ZeroIdKeys(src))
            == Range(start, NumberAlong(base, src, start, order).1 - 1)
    ensures DistinctIds(NumberAlong(base, src, start, order).0, ZeroIdKeys(src))
    ensures NumberAlong(base, src, start, order).1 - start == |ZeroIdKeys(src)|
  {
    var r := NumberAlong(base, src, start, order);
    NumberAlongNumbered(base, src, start, order);
    NumberedCount(base, src, start, r.1, r.0);
  }

  lemma NumberedCount(base: map<Hash, Entry>, src: map<Hash, Entry>, start: int, next: int, m: map<Hash, Entry>)
    requires Numbered(base, src, start, next, m)
    ensures next - start == |ZeroIdKeys(src)|
  {
    DistinctIdsCount(m, ZeroIdKeys(src));
    RangeSize(start, next - 1);
  }

  /** When no entry of `src` has an ID yet, the loop gives them the IDs
      `start .. next - 1`, all different, one per entry. */
  lemma AlongFresh(base: map<Hash, Entry>, src: map<Hash, Entry>, keys: set<Hash>, start: int, order: seq<Hash>)
    requires IsOrder(order, src.Keys)
    requires src.Keys == keys && forall h :: h in src ==> src[h].id == 0
    ensures IdsOf(NumberAlong(base, src, start, order).0, keys) == Range(start, NumberAlong(base, src, start, order).1 - 1)
    ensures DistinctIds(NumberAlong(base, src, start, order).0, keys)
    ensures NumberAlong(base, src, start, order).1 - start == |src|
  {
    AlongZeroIds(base, src, start, order);
    assert ZeroIdKeys(src) == keys;
    assert |src| == |src.Keys|;
  }

  /** `AlongFresh` with the range given by its bounds. */
  lemma AlongFreshAt(base: map<Hash, Entry>, src: map<Hash, Entry>, keys: set<Hash>, start: int, order: seq<Hash>, hi: int)
    requires IsOrder(order, src.Keys)
    requires src.Keys == keys && forall h :: h in src ==> src[h].id == 0
    requires hi == start + |keys| - 1
    ensures IdsOf(NumberAlong(base, src, start, order).0, keys) == Range(start, hi)
    ensures DistinctIds(NumberAlong(base, src, start, order).0, keys)
    ensures NumberAlong(base, src, start, order).1 == hi + 1
  {
    AlongFresh(base, src, keys, start, order);
    assert |src| == |src.Keys|;
  }
}
