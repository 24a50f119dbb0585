/** `MergeDatabases` (magnet-handler.go:473-556): the union of a local and a
    remote store, one winner per hash, IDs filled from a running counter. */
module Merge {
  import opened Store

  /** One of the four places a hash is looked up in: the entry found there (the
      zero entry when absent), the section it stands for, and whether it is there. */
  datatype Candidate = Candidate(entry: Entry, isAdded: bool, present: bool)

  /** The best candidate so far: `found` says whether there is one. */
  datatype Pick = Pick(found: bool, winner: Entry, inAdded: bool)

  const NoPick: Pick := Pick(false, ZeroEntry, false)

  function Slot(m: map<Hash, Entry>, h: Hash, isAdded: bool): (c: Candidate)
    ensures c.present <==> h in m
    ensures c.isAdded == isAdded
    ensures h in m ==> c.entry == m[h]
  {
    if h in m then Candidate(m[h], isAdded, true) else Candidate(ZeroEntry, isAdded, false)
  }

  /** The candidates of a hash, in the order they are scanned: local added,
      local retry, remote added, remote retry. */
  function Candidates(local: Database, remote: Database, h: Hash): seq<Candidate>
  {
    [Slot(local.added, h, true), Slot(local.retry, h, false),
     Slot(remote.added, h, true), Slot(remote.retry, h, false)]
  }

  /** A present candidate replaces the current pick when there is none yet,
      when it is an added entry and the pick is a retry one, or when its ID is
      strictly greater. Timestamps play no part. */
  predicate Displaces(c: Candidate, p: Pick)
  {
    c.present && (!p.found || (c.isAdded && !p.inAdded) || c.entry.id > p.winner.id)
  }

  function Step(p: Pick, c: Candidate): Pick
  {
    if Displaces(c, p) then Pick(true, c.entry, c.isAdded) else p
  }

  /** The pick after scanning `cs` from the first candidate to the last. */
  function Scan(cs: seq<Candidate>): Pick
    decreases |cs|
  {
    if cs == [] then NoPick else Step(Scan(cs[..|cs| - 1]), cs[|cs| - 1])
  }

  /** The winner for a hash. */
  function Winner(local: Database, remote: Database, h: Hash): Pick
  {
    Scan(Candidates(local, remote, h))
  }

  /** The candidate loop (magnet-handler.go:519-529). */
  method PickWinner(cs: seq<Candidate>) returns (p: Pick)
    ensures p == Scan(cs)
  {
    p := NoPick;
    for i := 0 to |cs|
      invariant p == Scan(cs[..i])
    {
      assert cs[..i + 1][..i] == cs[..i];
      var c := cs[i];
      if c.present && (!p.found || (c.isAdded && !p.inAdded) || c.entry.id > p.winner.id) {
        p := Pick(true, c.entry, c.isAdded);
      }
    }
    assert cs[..|cs|] == cs;
  }

  /** A winner is found exactly when some candidate is present. */
  lemma {:induction false} ScanFound(cs: seq<Candidate>)
    ensures Scan(cs).found <==> exists i :: 0 <= i < |cs| && cs[i].present
    decreases |cs|
  {
    if cs != [] {
      var p := cs[..|cs| - 1];
      ScanFound(p);
      assert forall i :: 0 <= i < |p| ==> p[i] == cs[i];
    }
  }

  /** The winner is one of the present candidates, and no present candidate
      after it has a greater ID or is an added entry beating a retry winner. */
  lemma {:induction false} ScanWinner(cs: seq<Candidate>)
    requires Scan(cs).found
    ensures exists w :: 0 <= w < |cs| && cs[w].present && cs[w].entry == Scan(cs).winner
                        && cs[w].isAdded == Scan(cs).inAdded
                        && forall j :: w < j < |cs| && cs[j].present ==>
                             cs[j].entry.id <= Scan(cs).winner.id && (cs[j].isAdded ==> Scan(cs).inAdded)
    decreases |cs|
  {
    var p := cs[..|cs| - 1];
    var c := cs[|cs| - 1];
    var q := Scan(p);
    assert forall i :: 0 <= i < |p| ==> p[i] == cs[i];
    if Displaces(c, q) {
      assert cs[|cs| - 1].entry == Scan(cs).winner;
    } else {
      ScanWinner(p);
      var w :| 0 <= w < |p| && p[w].present && p[w].entry == q.winner && p[w].isAdded == q.inAdded
               && forall j :: w < j < |p| && p[j].present ==>
                    p[j].entry.id <= q.winner.id && (p[j].isAdded ==> q.inAdded);
      assert cs[w].entry == Scan(cs).winner;
    }
  }

  /** The scan of a hash's four candidates, written out. */
  lemma WinnerSteps(local: Database, remote: Database, h: Hash)
    ensures Winner(local, remote, h)
            == Step(Step(Step(Step(NoPick, Slot(local.added, h, true)), Slot(local.retry, h, false)),
                         Slot(remote.added, h, true)), Slot(remote.retry, h, false))
  {
    var cs := Candidates(local, remote, h);
    assert cs[..1][..0] == [];
    assert Scan(cs[..1]) == Step(NoPick, cs[0]);
    assert cs[..2][..1] == cs[..1];
    assert Scan(cs[..2]) == Step(Scan(cs[..1]), cs[1]);
    assert cs[..3][..2] == cs[..2];
    assert Scan(cs[..3]) == Step(Scan(cs[..2]), cs[2]);
    assert cs[..3] == cs[..|cs| - 1];
  }

  /** A hash has a winner exactly when it occurs in one of the four maps. */
  lemma WinnerFound(local: Database, remote: Database, h: Hash)
    ensures Winner(local, remote, h).found <==> h in AllHashes(local, remote)
  {
    var cs := Candidates(local, remote, h);
    ScanFound(cs);
    if h in AllHashes(local, remote) {
      if h in local.added { assert cs[0].present; }
      else if h in local.retry { assert cs[1].present; }
      else if h in remote.added { assert cs[2].present; }
      else { assert cs[3].present; }
    }
  }

  /** An added winner is the entry of one of the two `added` maps, a retry
      winner that of one of the two `retry` maps. */
  lemma WinnerFrom(local: Database, remote: Database, h: Hash)
    requires Winner(local, remote, h).found
    ensures var p := Winner(local, remote, h);
            p.inAdded ==> (h in local.added && p.winner == local.added[h])
                          || (h in remote.added && p.winner == remote.added[h])
    ensures var p := Winner(local, remote, h);
            !p.inAdded ==> (h in local.retry && p.winner == local.retry[h])
                           || (h in remote.retry && p.winner == remote.retry[h])
  {
    var cs := Candidates(local, remote, h);
    ScanWinner(cs);
  }

  /** The same entry in both `added` maps with the same ID: the local one wins. */
  lemma TieKeepsLocal(local: Database, remote: Database, h: Hash)
    requires h in local.added && h !in local.retry && h in remote.added && h !in remote.retry
    requires local.added[h].id == remote.added[h].id
    ensures Winner(local, remote, h) == Pick(true, local.added[h], true)
  {
    WinnerSteps(local, remote, h);
  }

  /** Between an added and a retry entry with the same ID, the added one wins,
      whichever side it is on. */
  lemma TiePrefersAdded(local: Database, remote: Database, h: Hash)
    requires h !in local.added && h in local.retry && h in remote.added && h !in remote.retry
    requires local.retry[h].id == remote.added[h].id
    ensures Winner(local, remote, h) == Pick(true, remote.added[h], true)
  {
    WinnerSteps(local, remote, h);
  }

  /** A retry entry with a strictly higher ID beats an added one: the design
      note "Added > Retry" does not hold. */
  lemma HigherRetryBeatsAdded(local: Database, remote: Database, h: Hash)
    requires h in local.added && h !in local.retry && h !in remote.added && h in remote.retry
    requires remote.retry[h].id > local.added[h].id
    ensures Winner(local, remote, h) == Pick(true, remote.retry[h], false)
  {
    WinnerSteps(local, remote, h);
  }

  // ---------------------------------------------------------------------------
  // The hash loop
  // ---------------------------------------------------------------------------

  /** The state of the hash loop: the two sections written and `nextID`. */
  datatype Tally = Tally(added: map<Hash, Entry>, retry: map<Hash, Entry>, next: int)

  /** One turn of the hash loop (magnet-handler.go:531-546). */
  function Place(t: Tally, h: Hash, p: Pick): Tally
  {
    if !p.found then t
    else
      var e := if p.winner.id == 0 then p.winner.(id := t.next) else p.winner;
      var next := if p.winner.id == 0 then t.next + 1
                  else if p.winner.id >= t.next then p.winner.id + 1 else t.next;
      if p.inAdded then Tally(t.added[h := e], t.retry, next) else Tally(t.added, t.retry[h := e], next)
  }

  /** The hash loop after visiting the hashes of `order`. */
  function MergeAlong(local: Database, remote: Database, order: seq<Hash>): Tally
    decreases |order|
  {
    if order == [] then Tally(map[], map[], 1)
    else
      var h := order[|order| - 1];
      Place(MergeAlong(local, remote, order[..|order| - 1]), h, Winner(local, remote, h))
  }

  /** The merged database: the loop's sections, `last_sequence = nextID - 1`,
      the time, and the digest taken while the checksum field was empty. */
  function Merged(local: Database, remote: Database, order: seq<Hash>, now: string, digest: Digest): Database
  {
    var t := MergeAlong(local, remote, order);
    Sealed(Metadata(0, now, ""), t.added, t.retry, t.next - 1, digest)
  }

  /** `MergeDatabases`, visiting the hashes in the given order. */
  method MergeDatabases(local: Database, remote: Database, order: seq<Hash>, now: string, digest: Digest)
    returns (merged: Database)
    requires IsOrder(order, AllHashes(local, remote))
    ensures merged == Merged(local, remote, order, now, digest)
  {
    var added: map<Hash, Entry> := map[];
    var retry: map<Hash, Entry> := map[];
    var nextID := 1;
    for i := 0 to |order|
      invariant Tally(added, retry, nextID) == MergeAlong(local, remote, order[..i])
    {
      MergeStep(local, remote, order, i);
      var h := order[i];
      var w := PickWinner(Candidates(local, remote, h));
      if w.found {
        var winner := w.winner;
        if winner.id == 0 {
          winner := winner.(id := nextID);
          nextID := nextID + 1;
        } else if winner.id >= nextID {
          nextID := winner.id + 1;
        }
        if w.inAdded {
          added := added[h := winner];
        } else {
          retry := retry[h := winner];
        }
      }
    }
    assert order[..|order|] == order;
    merged := Sealed(Metadata(0, now, ""), added, retry, nextID - 1, digest);
  }

  /** One turn of the hash loop places the visited hash's winner. */
  lemma MergeStep(local: Database, remote: Database, order: seq<Hash>, i: int)
    requires 0 <= i < |order|
    ensures MergeAlong(local, remote, order[..i + 1])
            == Place(MergeAlong(local, remote, order[..i]), order[i], Winner(local, remote, order[i]))
  {
    assert order[..i + 1][..i] == order[..i];
  }

  // ---------------------------------------------------------------------------
  // What the hash loop guarantees
  // ---------------------------------------------------------------------------

  /** The loop writes exactly the visited hashes, each in its winner's section. */
  lemma {:induction false} TallyKeys(local: Database, remote: Database, order: seq<Hash>)
    requires forall i :: 0 <= i < |order| ==> order[i] in AllHashes(local, remote)
    ensures forall h :: (h in MergeAlong(local, remote, order).added || h in MergeAlong(local, remote, order).retry)
                        <==> h in order
    ensures forall h :: h in MergeAlong(local, remote, order).added ==> Winner(local, remote, h).inAdded
    ensures forall h :: h in MergeAlong(local, remote, order).retry ==> !Winner(local, remote, h).inAdded
    decreases |order|
  {
    if order != [] {
      var p := order[..|order| - 1];
      var h := order[|order| - 1];
      TallyKeys(local, remote, p);
      WinnerFound(local, remote, h);
      assert forall k :: k in order <==> k in p || k == h by {
        assert order == p + [h];
      }
    }
  }

  /** `nextID` stays positive and above every ID written. */
  lemma {:induction false} TallyBound(local: Database, remote: Database, order: seq<Hash>)
    ensures 1 <= MergeAlong(local, remote, order).next
    ensures forall h :: h in MergeAlong(local, remote, order).added ==>
              MergeAlong(local, remote, order).added[h].id < MergeAlong(local, remote, order).next
    ensures forall h :: h in MergeAlong(local, remote, order).retry ==>
              MergeAlong(local, remote, order).retry[h].id < MergeAlong(local, remote, order).next
    decreases |order|
  {
    if order != [] {
      TallyBound(local, remote, order[..|order| - 1]);
    }
  }

  /** A written entry is its winner, with the winner's ID when it had one and
      a positive one below `nextID` otherwise. */
  lemma {:induction false} TallyAdded(local: Database, remote: Database, order: seq<Hash>, k: Hash)
    ensures var t := MergeAlong(local, remote, order);
            k in t.added ==> NumberedEntry(t.added[k], Winner(local, remote, k).winner, 1, t.next)
    decreases |order|
  {
    if order != [] {
      var prefix := order[..|order| - 1];
      TallyAdded(local, remote, prefix, k);
      TallyBound(local, remote, prefix);
    }
  }

  lemma {:induction false} TallyRetry(local: Database, remote: Database, order: seq<Hash>, k: Hash)
    ensures var t := MergeAlong(local, remote, order);
            k in t.retry ==> NumberedEntry(t.retry[k], Winner(local, remote, k).winner, 1, t.next)
    decreases |order|
  {
    if order != [] {
      var prefix := order[..|order| - 1];
      TallyRetry(local, remote, prefix, k);
      TallyBound(local, remote, prefix);
    }
  }

  // ---------------------------------------------------------------------------
  // What a merge guarantees
  // ---------------------------------------------------------------------------

  /** Every hash of either store lands in exactly one section, and no other
      hash appears. */
  lemma MergeCoverage(local: Database, remote: Database, order: seq<Hash>, now: string, digest: Digest)
    requires IsOrder(order, AllHashes(local, remote))
    ensures var m := Merged(local, remote, order, now, digest);
            && (forall h :: (h in m.added || h in m.retry) <==> h in AllHashes(local, remote))
            && SectionsDisjoint(m)
  {
    TallyKeys(local, remote, order);
  }

  /** Each merged entry is one of that hash's entries from the same section,
      changed at most in a missing ID, which is replaced by one of
      `1 .. last_sequence`. */
  lemma MergeProvenance(local: Database, remote: Database, order: seq<Hash>, now: string, digest: Digest, h: Hash)
    requires IsOrder(order, AllHashes(local, remote))
    ensures var m := Merged(local, remote, order, now, digest);
            var ls := m.metadata.lastSequence;
            h in m.added ==>
              || (h in local.added && NumberedEntry(m.added[h], local.added[h], 1, ls + 1))
              || (h in remote.added && NumberedEntry(m.added[h], remote.added[h], 1, ls + 1))
    ensures var m := Merged(local, remote, order, now, digest);
            var ls := m.metadata.lastSequence;
            h in m.retry ==>
              || (h in local.retry && NumberedEntry(m.retry[h], local.retry[h], 1, ls + 1))
              || (h in remote.retry && NumberedEntry(m.retry[h], remote.retry[h], 1, ls + 1))
  {
    var t := MergeAlong(local, remote, order);
    if h in t.added || h in t.retry {
      TallyKeys(local, remote, order);
      TallyAdded(local, remote, order, h);
      TallyRetry(local, remote, order, h);
      WinnerFound(local, remote, h);
      WinnerFrom(local, remote, h);
    }
  }

  /** The merged `last_sequence` is at least every merged ID, and the merged
      store keeps the design's invariants whatever the inputs. */
  lemma MergeWellFormed(local: Database, remote: Database, order: seq<Hash>, now: string, digest: Digest)
    requires IsOrder(order, AllHashes(local, remote))
    ensures WellFormed(Merged(local, remote, order, now, digest))
  {
    TallyKeys(local, remote, order);
    TallyBound(local, remote, order);
  }

  /** The merged metadata: the time of the merge and the digest of the merged
      store taken with an empty checksum field. */
  lemma MergeMetadata(local: Database, remote: Database, order: seq<Hash>, now: string, digest: Digest)
    ensures var m := Merged(local, remote, order, now, digest);
            m.metadata.lastModified == now && ChecksumOver(m, "", digest)
    ensures Merged(local, remote, order, now, digest).metadata.lastSequence >= 0
  {
    TallyBound(local, remote, order);
  }

  /** Merging two empty stores gives an empty store with `last_sequence` 0. */
  lemma MergeEmpty(local: Database, remote: Database, order: seq<Hash>, now: string, digest: Digest)
    requires IsOrder(order, AllHashes(local, remote)) && IsEmpty(local) && IsEmpty(remote)
    ensures var m := Merged(local, remote, order, now, digest);
            m.added == map[] && m.retry == map[] && m.metadata.lastSequence == 0
  {
    assert local.added.Keys == {} && local.retry.Keys == {};
    assert remote.added.Keys == {} && remote.retry.Keys == {};
  }

  /** The inputs' metadata, their stored `last_sequence` included, does not
      influence the merge. */
  lemma {:induction false} TallyIgnoresMetadata(local: Database, remote: Database, a: Metadata, b: Metadata, order: seq<Hash>)
    ensures MergeAlong(local.(metadata := a), remote.(metadata := b), order) == MergeAlong(local, remote, order)
    decreases |order|
  {
    if order != [] {
      TallyIgnoresMetadata(local, remote, a, b, order[..|order| - 1]);
      var h := order[|order| - 1];
      assert Candidates(local.(metadata := a), remote.(metadata := b), h) == Candidates(local, remote, h);
    }
  }

  lemma MergeIgnoresMetadata(local: Database, remote: Database, a: Metadata, b: Metadata,
                             order: seq<Hash>, now: string, digest: Digest)
    ensures Merged(local.(metadata := a), remote.(metadata := b), order, now, digest)
            == Merged(local, remote, order, now, digest)
  {
    TallyIgnoresMetadata(local, remote, a, b, order);
  }

  /** A retry entry with a higher ID than the added one ends up in `retry`. */
  lemma MergeMovesToRetry(local: Database, remote: Database, order: seq<Hash>, now: string, digest: Digest, h: Hash)
    requires IsOrder(order, AllHashes(local, remote))
    requires h in local.added && h !in local.retry && h !in remote.added && h in remote.retry
    requires remote.retry[h].id > local.added[h].id
    ensures var m := Merged(local, remote, order, now, digest);
            h in m.retry && h !in m.added
  {
    HigherRetryBeatsAdded(local, remote, h);
    MergeCoverage(local, remote, order, now, digest);
    TallyKeys(local, remote, order);
  }

  // ---------------------------------------------------------------------------
  // Two merges worth knowing about
  // ---------------------------------------------------------------------------

  function One(id: int): Entry { ZeroEntry.(id := id) }

  /** `last_sequence` can go down: a store that had reached 10 but holds one
      entry with ID 2 merges to `last_sequence` 2. */
  lemma MergeCanLowerSequence(now: string, digest: Digest)
    ensures var local := Database(Metadata(10, "", ""), map["a" := One(2)], map[]);
            Merged(local, Empty(), ["a"], now, digest).metadata.lastSequence == 2
  {
    var local := Database(Metadata(10, "", ""), map["a" := One(2)], map[]);
    assert ["a"][..0] == [];
    WinnerSteps(local, Empty(), "a");
  }

  /** A missing ID is filled from the counter without looking at the IDs still
      to come, so a merge can give two entries the same ID although its
      inputs had none in common. */
  lemma MergeCanDuplicateIds(now: string, digest: Digest)
    ensures var local := Database(Metadata(1, "", ""), map["a" := One(0), "b" := One(1)], map[]);
            var m := Merged(local, Empty(), ["a", "b"], now, digest);
            "a" in m.added && "b" in m.added && m.added["a"].id == m.added["b"].id == 1
  {
    var local := Database(Metadata(1, "", ""), map["a" := One(0), "b" := One(1)], map[]);
    assert ["a", "b"][..1] == ["a"] && ["a"][..0] == [];
    WinnerSteps(local, Empty(), "a");
    WinnerSteps(local, Empty(), "b");
  }
}
