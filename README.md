# Tracked-magnet store of magnet-handler

magnet-handler is a magnet-link handler for the Deluge BitTorrent client. It
keeps every magnet it has seen in a small JSON database. Each entry is keyed
by its info hash and sits in one of two sections:

- `added`: Deluge accepted the magnet;
- `retry`: the magnet is queued for another attempt.

The metadata holds a `last_sequence` counter for the numeric entry IDs, a
modification time and a checksum of the whole database.

There is a local copy and an optional remote copy, for example on a network
share. Every save first reconciles the two:

1. It loads both copies.
2. It merges them hash by hash.
3. It lays the caller's updates over the result.
4. It writes the local copy, then best-effort the remote one.

On load, the file is tried against three schemas in turn: the current one,
the flat V0 map written by an earlier Python version, and the V1
`added`/`retry` pair without IDs or metadata. A V0 file is migrated. A V1
file is not: every V1 field also exists in the current entry, so the
current-schema decoder accepts it and returns it as it is, with ID 0 and no
UUID on every entry and zero metadata. The V1 conversion runs only on a file
that both earlier decoders reject, for example
`{"metadata":5,"added":{"h":{}}}`.

This project models that store in Dafny and proves what its operations
guarantee:

- `store.dfy` (`Store`): the entry, section and database datatypes, and the
  sequential ID numbering that several loops share, and the checksum
  resealing (`Sealed`, `ChecksumOver`) that the loader and the merge share. The numbering is stated
  once as a recursive function, `NumberAlong`, and its facts are proved as
  lemmas.
- `merge.dfy` (`Merge`): `MergeDatabases`. This covers the four-candidate
  winner scan, the re-numbering of entries with ID 0 and the new metadata.
- `migration.dfy` (`Migration`): the `LoadJSONDatabase` format cascade, from
  the current schema to V0, then V1, then rejection. It also covers the V0
  and V1 conversions and the UUID back-fill of `MigrateFileFormat`.
- `sync.dfy` (`Sync`): `GetRemotePath`, the decisions of `SyncWithRemote`, and
  the fallbacks and update overlay of `SaveJSONDatabase`. It also covers the
  metadata stamping of `SaveDatabaseLocal`.
- `maintenance.dfy` (`Maintenance`): the table edits of the `--sync` and
  `--backfill` commands. These are orphan removal, back-filling from Deluge's
  torrent list, and the duplicate-ID census.
- `magnet.dfy` (`Magnet`): `ValidateMagnetURI`, `ExtractMagnetHash` and
  `ExtractMagnetName`. Their partner is a link builder that all three helpers
  are proved to accept and decode back.
- `uuid.dfy` (`Uuid`, `UuidSupply`): `GenerateUUID`'s version-4 layout, with
  a parser that inverts it, and the proof that its UUIDs meet the loaders'
  requirement on their UUID supply.
- `text.dfy` and `wrappers.dfy`: character classes, hex and decimal digits,
  and `Option`/`Result`.

## How Go is modelled

**Map iteration order.** Go's map iteration order is unspecified. Where the
order changes the outcome, it is an explicit input `order: seq<Hash>` with
`IsOrder(order, keys)`: every key exactly once. This is the case for the ID
numbering in the V0/V1 conversions, the merge, the update overlay and the
back-fill. The imperative loop is a `method` with a `for` loop. It is proved
equal to a recursive specification function, and the properties are lemmas
about that function. Each property holds for every order.

**Inputs.** Checksums are taken through a `digest: Database -> string`
parameter. Random UUIDs arrive as a `(Section, Hash) -> string` parameter.
Clock readings are strings the caller provides. Each file read or write
outcome is a given value.

**Ways the code behaves that its comments do not say.** Each of these is
stated as a lemma:

- A `retry` candidate with a higher ID beats an `added` one during the merge,
  so an entry can move back from `added` to `retry`. Timestamps play no part
  in choosing the winner.
  - `Merge.HigherRetryBeatsAdded`
  - `Merge.MergeMovesToRetry`
- The merge ignores both stored `last_sequence` values. It recomputes the
  counter from the entries, so the counter can go down. Entries numbered
  afresh can also collide with IDs that were already in use.
  - `Merge.MergeIgnoresMetadata`
  - `Merge.MergeCanLowerSequence`
  - `Merge.MergeCanDuplicateIds`
- A file whose decoders all find zero entries is rejected whatever its size.
  The size check at magnet-handler.go:456-459 only logs.
  - `Migration.NoEntriesRejectedAtAnySize`
- The V1 guard at magnet-handler.go:446-449 can never fire. That branch is
  only reached when V1 decoding found entries, and they are all copied in.
  - `Migration.MigrateV1`
  - `Migration.V1Written`
- A V1 file with entries passes the current-schema decode and is returned
  unmigrated: its entries keep ID 0 and no UUID, and `last_sequence` stays 0.
  - `Migration.V1FileLoadsUnmigrated`
- A current-format file with empty sections also decodes as a non-empty V0
  flat map. It therefore loads as three bogus entries named `metadata`,
  `added` and `retry`.
  - `Migration.EmptyCurrentFileLoadsAsV0`
  - `Migration.EmptyCurrentMigration`
- Without a remote path, the remote checksum fails and the remote load
  returns an empty database. So every save without a remote copy still merges
  the local database with an empty one. That renumbers ID-0 entries and can
  lower `last_sequence`, as with any merge.
  - `Sync.SyncWithoutRemoteMerges`
  - `Sync.SyncWithoutRemoteCanLowerSequence`
- A `retry` update for a hash already in `added` leaves the hash in both
  sections.
  - `Sync.RetryUpdateKeepsAdded`
- The checksum is computed over the database with its metadata included, so
  it covers the previous checksum and the modification time. The remote
  copy's checksum is therefore taken over the local copy's checksum.
  - `Store.Sealed`
  - `Migration.Stamp`
  - `Sync.SaveJSONDatabase`

## Model

| member | source | states |
|---|---|---|
| Store.NumberInto | magnet-handler.go:425-441 | The numbering loop over a section in a given order equals the recursive specification `NumberAlong`. |
| Store.AlongKeys | magnet-handler.go:425-433 | After numbering, the section holds exactly the keys it already had plus the source's keys. |
| Store.AlongEntry | magnet-handler.go:425-433 | A source entry is copied unchanged when its ID is non-zero. With ID 0 it gets an ID in `[start, next)` and otherwise stays the same. |
| Store.AlongUntouched | magnet-handler.go:425-433 | Keys the source does not name keep their old entry. |
| Store.AlongZeroIds | magnet-handler.go:669-677 | The entries that had ID 0 receive pairwise distinct IDs `start .. next-1`. The counter advances by their number. |
| Store.AlongFresh | magnet-handler.go:385-411 | When every source ID is 0, the source keys receive exactly the IDs `start .. start+|src|-1`, pairwise distinct. |
| Store.NumberAlongVisited | magnet-handler.go:425-433 | After a prefix of the order, the section is numbered as the visited part of the source demands. This is the loop invariant. |
| Store.DistinctIdsCount | magnet-handler.go:1212-1227 | Pairwise distinct IDs over a key set give as many IDs as keys. |
| Merge.PickWinner | magnet-handler.go:519-529 | The candidate loop equals the specification `Scan`. The winner replaces the current one when it is the first, when `added` meets `retry`, or when its ID is higher. |
| Merge.ScanFound | magnet-handler.go:519-529 | A winner is found exactly when some candidate exists. |
| Merge.ScanWinner | magnet-handler.go:519-529 | The winner is one of the candidates that exist. |
| Merge.WinnerFound | magnet-handler.go:481-517 | A hash has a winner exactly when it occurs in one of the four sections. |
| Merge.WinnerFrom | magnet-handler.go:507-529 | An `added` winner comes from one of the two `added` sections. A `retry` winner comes from one of the two `retry` sections. |
| Merge.TieKeepsLocal | magnet-handler.go:524 | With equal IDs in both `added` sections, the local entry wins. |
| Merge.TiePrefersAdded | magnet-handler.go:524 | A remote `added` entry beats a local `retry` entry with the same ID. |
| Merge.HigherRetryBeatsAdded | magnet-handler.go:524 | A remote `retry` entry with a higher ID beats the only `added` candidate. |
| Merge.MergeDatabases | magnet-handler.go:473-556 | The merge loop equals the specification `Merged` for the given hash order, stamp and digest. |
| Merge.TallyKeys | magnet-handler.go:531-546 | Each hash of the order lands in the section of its winner, and in no other. |
| Merge.TallyBound | magnet-handler.go:531-540 | The next ID stays above every ID placed so far. |
| Merge.MergeCoverage | magnet-handler.go:481-546 | The merged hashes are exactly the union of the four sections, and the two merged sections are disjoint. |
| Merge.MergeProvenance | magnet-handler.go:531-546 | Every merged entry is a local or remote entry of the same section. Its ID is kept, or, when it was 0, assigned from `1 .. last_sequence`. |
| Merge.MergeWellFormed | magnet-handler.go:473-556 | The merge yields disjoint sections whose IDs are all at most `last_sequence`. |
| Merge.MergeMetadata | magnet-handler.go:549-553 | The metadata is the new stamp and a checksum over the merged database with its checksum cleared. `last_sequence` is non-negative. |
| Merge.MergeEmpty | magnet-handler.go:473-556 | Merging two empty databases gives an empty one with `last_sequence` 0. |
| Merge.MergeIgnoresMetadata | magnet-handler.go:496-553 | The result does not depend on either input's metadata. |
| Merge.MergeMovesToRetry | magnet-handler.go:524 | A local `added` entry is moved to `retry` when the remote `retry` entry has a higher ID. |
| Merge.MergeCanLowerSequence | magnet-handler.go:551 | A concrete local database with `last_sequence` 10 and one entry of ID 2 merges to `last_sequence` 2. |
| Merge.MergeCanDuplicateIds | magnet-handler.go:533-539 | A concrete database whose entries have IDs 0 and 1 merges to two entries with ID 1. |
| Migration.Classify | magnet-handler.go:375-466 | The cascade tries the current schema (needs entries), then the V0 flat map (non-empty), then V1 (entries). A file is unrecognised exactly when all three fail. |
| Store.Sealed | magnet-handler.go:411-412 | The sections are kept. `last_sequence` is set and the checksum is taken over the database with the previous metadata. |
| Migration.MigrateV0 | magnet-handler.go:385-415 | The V0 conversion loop equals the specification `MigratedV0`. |
| Migration.V0Keys | magnet-handler.go:385-411 | V0 entries all go to `added`; `retry` and the modification time are kept. |
| Migration.V0Numbering | magnet-handler.go:385-411 | The V0 entries receive the distinct IDs `1 .. |v0|`, and `last_sequence` is `|v0|`. |
| Migration.V0Entry | magnet-handler.go:386-408 | Each V0 entry becomes the current entry built from all its shared fields: title, hash, status, torrent ID, `added_to_deluge`, save path, torrent name, `first_seen` and `last_attempt`. `added_date` is taken from `first_seen`, the UUID is fresh and the retry count is 0. A missing URI is rebuilt as `magnet:?xt=urn:btih:` plus the hash, and the ID lies in `1 .. last_sequence`. |
| Migration.V0KeepsDecoded | magnet-handler.go:375-394 | An entry the first decoder already put in `added`, under a key V0 does not use, survives. |
| Migration.V0FromScratchWellFormed | magnet-handler.go:385-412 | From an empty base, the V0 result holds exactly the V0 keys and is well formed. |
| Migration.MigrateV1 | magnet-handler.go:424-453 | The V1 conversion loops equal the specification `MigratedV1`. The result has at least one entry, so the guard at 446 never fires. |
| Migration.V1Written | magnet-handler.go:445-449 | When the V1 tables hold entries, the converted database does too. |
| Migration.V1Keys | magnet-handler.go:425-442 | V1 `added` and `retry` entries go to the same sections; the modification time is kept and the checksum is taken over the rest. |
| Migration.V1AddedIds | magnet-handler.go:425-433 | V1 `added` entries receive the distinct IDs `1 .. |added|`. |
| Migration.V1RetryIds | magnet-handler.go:434-442 | V1 `retry` entries continue the count with the distinct IDs `|added|+1 .. |added|+|retry|`. `last_sequence` is the total. |
| Migration.V1Numbering | magnet-handler.go:425-442 | The IDs of the two sections are disjoint and together make up `1 .. last_sequence`. |
| Migration.V1AddedEntry | magnet-handler.go:427-431 | A V1 `added` entry keeps every V1 field and gets a fresh UUID and an ID in range. |
| Migration.V1RetryEntry | magnet-handler.go:435-439 | The same holds for a V1 `retry` entry. |
| Migration.V1FromScratchKeys | magnet-handler.go:425-442 | From an empty base with disjoint V1 tables, the sections are exactly the V1 tables and stay disjoint. |
| Migration.V1AddedCovered | magnet-handler.go:425-442 | Every `added` ID is at most `last_sequence`. |
| Migration.V1RetryCovered | magnet-handler.go:434-442 | Every `retry` ID is at most `last_sequence`. |
| Migration.V1FromScratchWellFormed | magnet-handler.go:425-443 | From an empty base with disjoint V1 tables, the result is well formed. |
| Migration.LoadJSONDatabase | magnet-handler.go:352-470 | The cascade returns the specification `Loaded`. It fails exactly when the file cannot be read or no format recognises it; a missing file gives the empty database. |
| Migration.EmptyCurrentMigration | magnet-handler.go:381-411 | An empty current-format file, read as a V0 map, becomes three entries with hash "" and `last_sequence` 3. |
| Migration.EmptyCurrentFileLoadsAsV0 | magnet-handler.go:374-415 | A file that the current schema decodes with empty sections, and that is also a non-empty V0 map, loads through the V0 branch. |
| Migration.NoEntriesRejectedAtAnySize | magnet-handler.go:455-466 | A readable file on which every decoder finds no entries fails with "unrecognized format", at any size. |
| Migration.V1FileLoadsUnmigrated | magnet-handler.go:375-379 | A V1 file with entries, read by the current-schema decoder, is taken by the current-format branch and returned as decoded. Its keys are the V1 keys, each entry is the V1 entry with ID 0 and no UUID, and `last_sequence` is 0. |
| Migration.WithUuid | magnet-handler.go:198-201 | An entry with an empty UUID gets the fresh UUID. An entry that has one is left as it is, and no other field ever changes. |
| Migration.FillUuids | magnet-handler.go:197-210 | The back-fill keeps the keys, replaces each entry by `WithUuid`, and leaves no entry without a UUID. |
| Migration.FillIdempotent | magnet-handler.go:197-210 | When every entry already has a UUID, no key needs one and the fill changes nothing. So a second fill is a no-op. |
| Migration.Stamp | magnet-handler.go:610-613 | A save keeps the sections and `last_sequence`, sets the modification time, and takes the checksum over the database with the previous checksum. |
| Migration.MigrateFileFormat | magnet-handler.go:174-231 | A load failure is passed on. After a successful load, the call fails exactly when the write of the migrated file fails. Otherwise the keys, `last_sequence` and every entry except empty UUIDs are kept, the time is restamped, and every entry then has a UUID. |
| Sync.GetRemotePath | magnet-handler.go:128-133 | The configured path is returned when it is set and non-empty. Otherwise the platform default is returned. |
| Sync.SyncWithRemote | magnet-handler.go:559-607 | Identical file checksums of at least 8 characters return the local load. An unreadable remote returns local-or-empty; otherwise the two are merged. An error occurs exactly when the checksums are identical and the local load fails. |
| Sync.SyncLossless | magnet-handler.go:574-606 | When both loads succeed and the files differ, the result holds every hash of both copies and is well formed. |
| Sync.SyncShortCircuitKeepsMetadata | magnet-handler.go:565-572 | With identical files, the local metadata is returned untouched. |
| Sync.SyncWithoutRemoteMerges | magnet-handler.go:562-603 | With the remote checksum unreadable and the remote load an empty database, as for an empty remote path, the result is the merge of the local database with an empty one. |
| Sync.SyncWithoutRemoteCanLowerSequence | magnet-handler.go:584-603 | A concrete local database with `last_sequence` 10 and one entry of ID 2, synced with no remote, comes back with `last_sequence` 2. |
| Sync.SyncedOrFallback | magnet-handler.go:642-655 | A failed sync falls back to the local load, then to an empty database. |
| Sync.Reconciled | magnet-handler.go:657-665 | An empty base is replaced by a non-empty remote load when a remote path is set. The base is empty exactly when every option is empty. |
| Sync.OverlayAdded | magnet-handler.go:669-677 | The `added` update loop numbers ID-0 entries from `last_sequence + 1` as `NumberAlong` does, and removes the updated hashes from `retry`. |
| Sync.ApplyUpdates | magnet-handler.go:667-685 | The overlay equals the specification `Overlaid`. |
| Sync.OverlayKeys | magnet-handler.go:667-685 | `added` gains the update keys. `retry` loses the `added`-update keys and gains the `retry`-update keys. |
| Sync.OverlayEntry | magnet-handler.go:669-684 | An updated entry is stored as given, or numbered into `last_sequence+1 .. new last_sequence` when its ID is 0. |
| Sync.OverlayUntouched | magnet-handler.go:667-685 | Entries no update names are kept. |
| Sync.OverlayAddedIds | magnet-handler.go:669-677 | ID-0 `added` updates receive distinct consecutive IDs after `last_sequence`. |
| Sync.OverlayRetryIds | magnet-handler.go:678-685 | ID-0 `retry` updates continue that count. `last_sequence` advances by the number of IDs assigned. |
| Sync.OverlaySequence | magnet-handler.go:667-685 | `last_sequence` never goes down. If the old and the given IDs are all at most `last_sequence`, the new IDs are too. |
| Sync.OverlayDisjoint | magnet-handler.go:667-685 | If the sections start disjoint, the result is disjoint exactly when no `retry` update names a hash that ends up in `added`. |
| Sync.OverlayPromotesRetry | magnet-handler.go:669-677 | An `added` update for a `retry` hash moves it to `added`. The entry is stored as given when it has an ID. With ID 0, the ID `AddMagnetToDeluge` leaves, it gets a new ID above the old `last_sequence`. |
| Sync.SaveJSONDatabase | magnet-handler.go:638-704 | It fails exactly when the local write fails. The local copy is the stamped overlay of the reconciled base; the remote copy is written only when a remote path is set and the write succeeds, with the same sections and a checksum over the local one. |
| Sync.SaveKeepsHashes | magnet-handler.go:642-685 | A hash is saved exactly when it was in the reconciled base or in the updates. |
| Sync.RetryUpdateKeepsAdded | magnet-handler.go:678-684 | A `retry` update for an `added` hash, with any IDs, leaves the hash in both sections. The `added` entry is unchanged. The update keeps a non-zero ID, and an ID of 0 is replaced by one above the `added` entry's. |
| Maintenance.SaveBoth | magnet-handler.go:1074-1091 | The call fails exactly when the local write fails. The local copy keeps the sections and `last_sequence`, gets the local time, and its checksum covers the previous one. A remote copy is written only for a non-empty path and a successful write. It has the local copy's sections and `last_sequence`, the remote time, and a checksum taken over the local checksum. |
| Maintenance.FindOrphans | magnet-handler.go:1041-1047 | The orphans are exactly the `added` hashes Deluge does not list, each once. |
| Maintenance.DeleteAll | magnet-handler.go:1069-1072 | Deleting the orphans leaves `added` minus the orphans. |
| Maintenance.SyncWithDeluge | magnet-handler.go:1006-1101 | A load error is reported. A dry run or a database in sync writes nothing. Otherwise the `added` entries Deluge lacks are dropped and both copies are saved, and the orphan count is reported. |
| Maintenance.FillLoop | magnet-handler.go:1145-1190 | The back-fill loop equals the specification `FillAlong`. |
| Maintenance.FillKeys | magnet-handler.go:1150-1188 | `added` gains the torrent hashes. `retry` loses exactly the torrent hashes not already in `added`. |
| Maintenance.FillVisited | magnet-handler.go:1156-1182 | A torrent in `retry` is moved to `added` unchanged. An unknown torrent becomes a new entry with an ID in `[start, next)`. |
| Maintenance.FillIds | magnet-handler.go:1148-1190 | Unknown torrents receive distinct consecutive IDs from `start`. |
| Maintenance.BackfillPlacement | magnet-handler.go:1150-1188 | After the back-fill, `added` holds the old keys plus the torrents, `retry` loses the torrents, old `added` entries are kept and `retry` entries are moved unchanged. |
| Maintenance.BackfillNumbering | magnet-handler.go:1148-1190 | The new entries are numbered `last_sequence+1 ..`. The new `last_sequence` is the old one plus their number. |
| Maintenance.BackfillNewEntry | magnet-handler.go:1166-1182 | A new entry is built from the torrent's name and save path, with URI `magnet:?xt=urn:btih:` plus its hash and an ID above the old `last_sequence`. |
| Maintenance.BackfillWellFormed | magnet-handler.go:1145-1190 | Back-filling a well-formed database keeps it well formed. |
| Maintenance.HavingCount | magnet-handler.go:1212-1227 | The hashes holding an ID number at least 1 (or 2) exactly when one (or two distinct) entries have that ID. |
| Maintenance.GroupInto | magnet-handler.go:1213-1219 | The grouping loop equals the specification `GroupAlong`. |
| Maintenance.GroupHaving | magnet-handler.go:1213-1219 | Each ID maps to the hashes, in order, of the entries that have it. |
| Maintenance.CountShared | magnet-handler.go:1221-1227 | The count is the number of IDs held by more than one hash. |
| Maintenance.DuplicateIdCensus | magnet-handler.go:1212-1227 | The census maps each ID in use to all its holders and counts the shared IDs. |
| Maintenance.CensusZeroIff | magnet-handler.go:1212-1227 | The census finds no duplicate exactly when all IDs in the database are distinct. |
| Maintenance.V0MigrationUniqueIds | magnet-handler.go:385-411 | A V0 migration from scratch passes the census. |
| Maintenance.BackfillFromDeluge | magnet-handler.go:1104-1242 | A failed load starts from empty; the result is the back-filled database saved to both copies, and the reported duplicate count is zero exactly when the IDs are unique. |
| Magnet.ValidateMagnetURI | magnet-handler.go:285-305 | A valid link holds `xt=urn:btih:` after the prefix and contains none of the listed shell characters: space, quotes, backslash, newline, semicolon, backtick, dollar, pipe, angle brackets, parentheses, `*`, `!`, `#` and braces. It may still contain `&`, `?` and `~`, which a shell also interprets. |
| Magnet.ValidateSplit | magnet-handler.go:285-305 | A link is valid exactly when it is `magnet:?` followed by a non-empty whitelisted tail that contains the marker. |
| Magnet.FindHashFrom | magnet-handler.go:310-311 | Returns the leftmost position at which the hash pattern matches, or none. |
| Magnet.ExtractMagnetHash | magnet-handler.go:308-316 | The result is "" exactly when the pattern matches nowhere. Otherwise it is 40 or 32 lower-case alphanumerics. |
| Magnet.NameField | magnet-handler.go:321-325 | The raw `dn=` value is absent exactly when `dn=` followed by a non-`&` character occurs nowhere. Otherwise it is the whole `&`-free run after the leftmost such `dn=`, so it is non-empty and free of `&`. |
| Magnet.ReplacePlus | magnet-handler.go:327 | Each `+` becomes a space; nothing else changes. |
| Magnet.ExtractMagnetName | magnet-handler.go:319-349 | The decoding loop equals the specification `MagnetName`. Without a `dn=` field the result is "Unknown". |
| Magnet.DecodeEncode | magnet-handler.go:329-345 | Percent-decoding inverts percent-encoding of Latin-1 text. |
| Magnet.ScanHexByte | magnet-handler.go:334-340 | The `%02x` scan of the two characters after `%` succeeds exactly when the first is a hex digit, or a blank followed by a hex digit. The byte is below 256, and two hex digits give their value. |
| Magnet.LenientDecoding | magnet-handler.go:331-345 | `%4g` decodes to byte 4 and `% A` to byte 10. `%g4` stays as it is and `%41` gives `A`. |
| Magnet.WhitelistAdmitsShellSpecials | magnet-handler.go:292-297 | A link whose tail is `&?~` after the marker passes validation. |
| Magnet.BuildMagnetValid | magnet-handler.go:285-305 | A link built from a 40-digit hash and an encoded name passes validation. |
| Magnet.BuildMagnetHash | magnet-handler.go:308-316 | The hash of such a link is extracted unchanged. |
| Magnet.BuildMagnetName | magnet-handler.go:319-349 | The name of such a link is decoded back exactly. |
| Magnet.BuildMagnetRoundTrip | magnet-handler.go:285-349 | The three helpers agree on every well-built link. |
| Uuid.SetVersion | magnet-handler.go:165-168 | Byte 6 gets high nibble 4 and byte 8 gets top bits `10`. Their other bits and all other bytes are kept. |
| Uuid.FormatUUID | magnet-handler.go:169-170 | 36 characters: lower-case hex with dashes at 8, 13, 18 and 23, a `4` at 14 and one of `89ab` at 19. |
| Uuid.UnhexHex | magnet-handler.go:169-170 | Hex-encoding bytes and decoding them gives the bytes back. |
| Uuid.ParseFormat | magnet-handler.go:159-171 | Parsing a formatted UUID recovers the versioned bytes. |
| Uuid.FormatInjective | magnet-handler.go:159-171 | Two draws format equally exactly when their versioned bytes agree. |
| Uuid.GenerateUUID | magnet-handler.go:159-171 | A successful draw gives the v4 UUID of its bytes. A failed one gives `fallback-` followed by the nanosecond clock in decimal. |
| UuidSupply.GeneratedUuidsNonEmpty | magnet-handler.go:159-171 | A UUID supply drawn from `GenerateUUID` never yields an empty UUID, which is what the loaders require of their supply. |

## Left out

- HTTP, the Deluge JSON-RPC client (`DelugeClient`, `AddMagnetToDeluge`, `ProcessRetryQueue`) and all file-system calls are not modelled. What they return is an input: torrent lists, load results and write outcomes, including the write in `MigrateFileFormat`.
- The five read attempts with back-off in `LoadJSONDatabase` (magnet-handler.go:364-372) are collapsed into a single file state: missing, unreadable or readable.
- JSON encoding and decoding are not modelled. A readable file is described by what each of the three decoders made of it.
- SHA-1 and `ComputeFileChecksum` are not modelled. Checksums come from a digest parameter; file checksums are given strings.
- `crypto/rand` and `time.Now` are not modelled. Random UUIDs, random bytes and clock readings are parameters.
- Migration.V0Entry: the V0 `progress` field, a float, is not carried, because the current entry has no such field.
- Maintenance.BackfillNewEntry: each new entry's `added_date` is `times(h)`, one clock reading per hash given as input.
- Store.NumberInto: IDs are unbounded integers, and the `int64` wrap-around of the counters is not modelled.
- A section written as JSON `null` decodes in Go to a nil map, and writing into a nil map panics. For example, `{"metadata":{},"added":null,"retry":null}` passes the current-format decode with no entries, then the V0 decode finds three entries, and the write at magnet-handler.go:394 panics. The writes at magnet-handler.go:674 and 683 panic the same way after the identical-checksum short circuit, and so do those at magnet-handler.go:1160 and 1181 in `BackfillFromDeluge`. The model's sections are always maps, so this panic is not modelled. Such a file loads through the V0 branch instead.
- Magnet.ExtractMagnetName: the model treats characters as code points where Go indexes the bytes of the UTF-8 encoding, so non-ASCII names are not modelled byte by byte. Among the blanks `fmt.Sscanf` skips, only the ASCII ones are modelled.
- Magnet.ValidateMagnetURI: Go's regular-expression engine is replaced by a direct character-class check with the same language.
- Maintenance.SyncWithDeluge: the dry-run listing and all log output are not modelled. The save targets the home directory's `magnet-list-local.json`, and file paths are not modelled.
- Maintenance.BackfillFromDeluge: torrents with a missing `name` or `save_path` are given as "". The census's per-ID warnings are not modelled, and neither is the key order of its map.
- Maintenance.BackfillNumbering: the statement is over `Elems(order)`, the set of torrent hashes the order enumerates.
- Configuration loading and saving, the command-line dispatch in `main`, `DefaultConfig` and the protocol registration files (`register_unix.go`, `register_windows.go`) are not part of this model.
