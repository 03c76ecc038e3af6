# blindbucket: a verified model of its coordination and evidence logic

blindbucket is an S3 gateway that encrypts what clients store. What is hard about it is
not the ciphers. It is that stateless processes share one storage provider and may each
stop after any request; that an audit log must be tamper-evident across crashes and
rotation; that an index must never report a wrong verdict after a failed write; and that
sizes, part lists and signed bodies must come back as they were. This project models that
logic in Dafny and proves it for all inputs, all interleavings and any number of processes.

Verify it with `dafny verify dfyconfig.toml`.

## How it is laid out

**The manifest lifecycle.** `Provider` is the storage provider: visible versions, manifest
objects, multipart uploads, and a parameter that says which of two writes the provider
keeps (the one that lands last, the one that began last, or either). `Protocol` is the
state machine: client uploads, PUTs, DELETEs and copies, key rotation, encryption in place,
name migration and garbage collection, in an unbounded table of processes. `Lifecycle`
proves by rely-guarantee that a visible multipart version always has its manifest.
`Contents` proves that tools change nothing a client can read, `Yielding` that no client
upload is discarded for a copy that gave way, `Migration` that moving an object to its
encrypted name loses no write, `MigrationDeletes` when the object in clear may be deleted.
`Completions` adds the part lists that completion requests of one upload name. `Collector`
is a garbage-collection pass as the sequential program it is, in a bucket that others change
between any two of its requests; whatever runs of the state machine can do to the bucket,
its environment can. `CollectorLaw` says what a whole pass did, of the listing alone.
`Sidecars` is the timed argument for tag sidecars, which no open upload protects.

**The audit log.** `AuditRecord` holds the byte encodings the hash chain covers,
`AuditVerify` the verifier, `AuditMeaning` what a file it accepts is, line by line,
`AuditUnique` the uniqueness of the history behind a hash,
`AuditWriter` and `AuditRun` the writer with failing writes, rotation, crashes and
reopening, `AuditOrder` the ordering of rotated files. The hash is any function from byte
strings to 64 characters. It is never assumed injective, which would be false: lemmas end
in the claim, or point at one record in each of the two logs whose canonical bytes differ
and hash alike, with everything after them in agreement. A hash without a collision among
the records of the logs at hand proves the claim.

**The rollback index.** `Freshness` is the file format and its replay, `FreshnessIndex` the
index beside a machine for each key that it must agree with, `FreshnessRestart` the exact
condition under which a restarted index reads back what it appends.

**Sizes, manifests and parts.** `Sizes` is the segment arithmetic, `Manifest` the manifest
format in both directions, `Parts` the rules for part lists, `Split` the cutting of a
plaintext object into parts.

**Streaming uploads.** `Chunked` is what an aws-chunked body means, `ChunkedReader` the
streaming decoder and the body reader, `ChunkedMeaning` what the bytes of a body that
decodes are, `ChunkedLaw` which signature covers what and what every checksum must equal,
`ChunkedFrames` the bodies a client writes.

`Base` and `Bytes` are shared helpers.

## What turned out differently from what one would expect

- A copy that deletes the manifest it replaced is safe under every provider order even
  without a condition on its write, because its upload is created after the HEAD that saw
  the replaced version (`Lifecycle.CompletionReplaces`).
- `MaxPartPlaintext` is documented as the largest plaintext a part may carry. It is the
  largest one of whole chunks; a last part may be larger at every permitted chunk size
  (`Parts.LastPartMayBeLarger`).
- The size arithmetic inverts sealing if and only if every segment holds a chunk or there
  is only one segment (`Sizes.OpenedInvertsSealedExactly`).
- The audit writer bounds neither an entry's status nor the length of its line, and the
  verifier bounds both: an entry keeps its file verifiable if and only if its status is in
  0..999 and its line at most 1 MiB (`AuditWriter.BoundsDecide`).
- After a crash inside a rotation, past the rename, reopening is refused if part of the new
  head was written, and begins an unlinked chain if none was: the files are one chain again
  if and only if the head was complete (`AuditRun.RotationGap`).
- A migration deletes the object in clear, P, only once its encrypted key has held P's copy
  or a newer write, or a client deleted there; but an older object at the encrypted key that
  a tool rewrites is stamped anew, is then taken for newer, and the newer P is deleted. For a
  P the gateway wrote this takes an older gateway object whose data key is wrapped for P and
  that is rotated, as migrate-names gives up on what it cannot unwrap for P. For a plaintext
  P, which encrypt-existing judges by date alone, it takes any older object that can be
  rotated or encrypted in place. The claim holds if and only if there is no such object at
  the start, or tools do not rewrite it (`MigrationDeletes.DeletesExactly`).
- Completion requests of one upload share its manifest id. The visible version has the
  manifest of its own parts in every run if and only if they all name the same part list
  (`Completions.ReadableExactly`).
- A restarted index reads back every append if and only if the file it opened was exactly
  as long as its records take. After a torn tail, or after a header without any record,
  some append is not read back (`FreshnessRestart.RestartExactly`).
- Tag sidecars survive garbage collection if and only if the minimum age exceeds both of
  two sums of delays (`Sidecars.TagsKeptExactly`).
- A recorded checkpoint is looked up by its number alone, and the search stops at the first
  with that number, whichever file it is in (`AuditUnique.CheckExpected`).

## Model

| member | source | states |
|---|---|---|
| Provider.RelyKeepsDead | internal/manifest/doc.go:9-15 | a manifest whose upload is closed and whose version is not visible stays so whatever other requests do |
| Provider.OpenUploadOk | internal/objcopy/objcopy.go:366-390 | opening an upload keeps every visible version readable and disturbs nothing other processes count on |
| Provider.PutManifestOk | internal/objcopy/objcopy.go:613-631 | writing a manifest under an id minted for that key is always safe |
| Provider.DeleteManifestOk | internal/gc/gc.go:262-300 | deleting a dead manifest leaves every visible version readable, and every other process's knowledge true |
| Provider.RemoveOk | internal/proxy/object.go:464-495 | removing an object leaves all other visible versions readable |
| Provider.PutWholeOk | internal/objcopy/objcopy.go:460-483 | a one-request write keeps all visible versions readable |
| Provider.CompletePublishes | internal/proxy/multipart.go:400-424 | a completed upload publishes its manifest id for the first time, with its manifest there |
| Provider.CompleteOk | internal/proxy/multipart.go:400-424 | a completion, kept or discarded by the provider, keeps every visible version readable if the manifest was written before (rule R2) |
| Lifecycle.UpGuarantee | internal/proxy/multipart.go:324-450 | every step of a client's completion keeps the store readable and its own knowledge true; the manifest it deletes last is dead |
| Lifecycle.DelGuarantee | internal/proxy/object.go:464-495 | a delete removes a manifest only after its version is dead |
| Lifecycle.CompletionReplaces | internal/objcopy/objcopy.go:391-448 | after a copy's completion the version its HEAD saw is dead, under every provider order, with or without a condition |
| Lifecycle.CopyCleansUp | internal/objcopy/objcopy.go:439-448 | after a copy onto itself exactly the manifest of the version replaced is taken |
| Lifecycle.MoveCleansUp | internal/migrate/migrate.go:565-579 | after a move's delete exactly the manifest of the version in clear is taken |
| Lifecycle.UploadCleansUp | internal/proxy/multipart.go:426-446 | a completion takes the manifest it saw before exactly once a HEAD shows that version replaced |
| Lifecycle.CopyGuaranteeStore | internal/objcopy/objcopy.go:315-451 | no step of a copy, rotation, encryption or move makes a visible version unreadable |
| Lifecycle.CopyGuarantee | internal/objcopy/objcopy.go:315-451 | what a copy knows after its own step holds |
| Lifecycle.GcGuarantee | internal/gc/gc.go:143-301 | in the order manifests, open uploads, HEAD (rule R4), everything listed and not current is dead |
| Lifecycle.Preserved | internal/manifest/doc.go:9-15 | every step of any process keeps the invariant of the whole system |
| Lifecycle.VisibleHasManifest | internal/manifest/doc.go:9-15 | in every reachable state, for any number of processes and any provider order, a visible multipart version has its manifest (invariant I1) |
| Lifecycle.DeadForever | internal/gc/gc.go:143-301 | what a process may delete never becomes visible again, in any continuation |
| Lifecycle.GcDeletesOnlyDead | internal/gc/gc.go:262-300 | whenever a pass deletes a manifest, its upload is closed and its version neither is nor can become visible |
| Contents.CopyCarriesStep | internal/objcopy/objcopy.go:487-530 | every part a copy has written is the corresponding part of the one version its HEAD saw; a re-encryption holds its plaintext prefix |
| Contents.CopyCoherent | internal/objcopy/objcopy.go:139-146 | a copy never publishes one version's metadata over another version's bytes |
| Contents.NeverMixed | internal/objcopy/objcopy.go:139-146 | in every run, every version ever visible is sealed under the data key its own metadata carries |
| Contents.CopyRefines | internal/encrypt/encrypt.go:659-671 | a guarded rotation or encryption in place replaces exactly the version it read, by its own plaintext |
| Contents.RefinesRegister | internal/encrypt/encrypt.go:774-783 | what readers find equals a register only clients write: guarded rotation, encryption in place and gc are stutters, in any interleaving |
| Yielding.CopyStep | internal/objcopy/objcopy.go:171-183 | a copy that gives way and found no other open upload after creating its own leaves none behind that it outranks |
| Yielding.ClientUploadNeverLostToYieldingCopy | internal/objcopy/objcopy.go:391-438 | when a provider acknowledges and discards a client's completion, what it keeps instead is not a copy that gave way |
| Yielding.ListingYields | internal/objcopy/objcopy.go:405-424 | past its listing, no guarded tool, be it a rotation, an encryption or a move, has another open upload of its destination older than its own |
| Yielding.WriterSays | internal/objcopy/objcopy.go:391-438 | a version counts as a client's if and only if a PUT, a client's completion or a client's copy published it |
| Yielding.ClientUploadLostOnlyToClients | internal/objcopy/objcopy.go:366-438 | beside any number of guarded rotations, encryptions and moves, a client's completion that is acknowledged and discarded is discarded for another client's write only |
| Migration.CompletionAtE | internal/migrate/migrate.go:516-554 | a guarded move publishes only where the encrypted key is empty, carries the data key and plaintext of P, and is kept unless a client deleted there meanwhile; a guarded rewrite there changes no content |
| Migration.MoveStep | internal/migrate/migrate.go:361-445 | each step of anybody changes what the encrypted key holds by that step's client write or delete, or to P's own copy where clients left nothing |
| Migration.NoWriteLost | internal/migrate/migrate.go:361-579 | over all interleavings of any number of guarded runs stopped anywhere, from any start, beside client writes and deletes: what clients last left at the encrypted key is there; where they left nothing it holds only P's copy under P's data key; and unless one deleted there the object reads as P did |
| MigrationDeletes.JudgedWatched | internal/migrate/migrate.go:453-512 | an object at the encrypted key never makes P obsolete if it is neither P's copy nor newer or, to migrate-names, if its data key or P's own is not wrapped for P, whatever its date |
| MigrationDeletes.RewriteWatched | internal/encrypt/encrypt.go:622-635 | a rewrite of an object migrate-names cannot unwrap for P stays one: a rotation keeps the identity, an encryption in place binds the encrypted key itself |
| MigrationDeletes.MoveCovers | internal/migrate/migrate.go:516-554 | a move's completion at an encrypted key nobody has touched is kept by every provider order and is P's copy |
| MigrationDeletes.WatchStep | internal/migrate/migrate.go:361-579 | no step of anybody gets P closer to deletion unless it covers the encrypted key, is a client's delete there, or begins to rewrite an older object there that is judged by its date |
| MigrationDeletes.DeletedOnlyOnceCovered | internal/migrate/migrate.go:565-579 | guarded or not, from any start and whatever clients do at the encrypted key, P is gone only once that has held P's copy or a newer write, or a client deleted there, provided P is not endangered or no tool rewrites an older object there |
| MigrationDeletes.RestampLoses | internal/migrate/migrate.go:476-486 | from every endangered start, a run of guarded tools without any client write in which the older object at the encrypted key is rotated, or beside a plaintext P encrypted in place, then taken for newer, and P deleted |
| MigrationDeletes.DeletesExactly | internal/migrate/migrate.go:453-512 | every run deletes P only once its encrypted key is covered, if and only if P is not endangered at the start or tools may not rewrite that key while it is not newer |
| Completions.Overwritten | internal/proxy/multipart.go:383-424 | two completion requests with different part lists can leave a version under the other list's manifest |
| Completions.ReadableExactly | internal/proxy/multipart.go:383-424 | the visible version has the manifest of its own parts in every run, if and only if clients name one part list for the upload |
| Sidecars.JudgedIsDead | internal/gc/gc.go:421-491 | within the delay bounds, a sidecar past the minimum age that was not current at the HEAD belongs to a version that can never become visible |
| Sidecars.Preserved | internal/gc/gc.go:421-491 | every timed step keeps the sidecar invariant |
| Sidecars.VisibleKeepsTags | internal/gc/gc.go:174-183 | within the bounds, every visible version written with tags has its sidecar in every timed run |
| Sidecars.TagsKeptExactly | internal/gc/gc.go:174-183 | every timed run keeps the sidecars if and only if the minimum age exceeds both sums of delays; otherwise a losing run is constructed |
| Collector.LaterTransitive | internal/gc/gc.go:126-172 | what a pass counts on survives any number of changes by others, one after the other |
| Collector.RunsAreLater | internal/gc/gc.go:126-172 | every run of the state machine is a change the sequential pass tolerates |
| Collector.ListedClosed | internal/gc/gc.go:239-255 | a manifest listed before an upload listing that shows none of its key belongs to a closed upload |
| Collector.NoUploads | internal/gc/gc.go:239-255 | step 2 answers whether an upload of the key is open, and if none is, the uploads of all listed manifests are closed |
| Collector.HeadKey | internal/gc/gc.go:257-268 | some time after, the HEAD shows what is visible then, and everything else listed is dead |
| Collector.Sweep | internal/gc/gc.go:270-300 | deletes in order exactly the listed manifests that are not current, old enough and not refused, none in a dry run, and counts every entry as what became of it |
| Collector.SweepConserves | internal/gc/gc.go:270-300 | every entry is counted once, as many are deleted as are counted so, and a dry run has no errors |
| Collector.TakesExactly | internal/gc/gc.go:270-300 | a manifest goes if and only if it is listed, not current, old enough, not refused and the run is not dry |
| Collector.CollectKey | internal/gc/gc.go:225-301 | the outcome is the one its cause demands: unresolved, outside the prefix, listing failed, an upload open at the moment of the listing, HEAD failed, or swept by what the HEAD showed at a later moment; counts and deletions are those of the outcome |
| Collector.ListManifests | internal/gc/gc.go:194-222 | lists nothing twice and nothing that was never there, everything that was there throughout, split by key; or fails with the page that fails |
| Collector.ListedMore | internal/gc/gc.go:194-222 | a further page in the listing's order repeats nothing and misses nothing that was there all the time |
| CollectorLaw.SweptMeans | internal/gc/gc.go:178-183 | a sweep raises deleted, current, young and errors by the entries of that fate, where young means undated or modified less than the minimum age before the clock it is judged with |
| CollectorLaw.TalliedMeans | internal/gc/gc.go:225-301 | what each outcome of a key adds to every counter |
| CollectorLaw.TakenMeans | internal/gc/gc.go:270-300 | a manifest goes from a key if and only if it is not current, is old enough where the guard is on, is not refused and the run is not dry |
| CollectorLaw.TallyMeans | internal/gc/gc.go:126-172 | over all keys every counter is the number of listed manifests of its fate, or of keys scanned, skipped or failed |
| CollectorLaw.GoneMeans | internal/gc/gc.go:126-172 | what is gone is exactly the listed manifests whose fate it is, none in a dry run |
| CollectorLaw.PassMeans | internal/gc/gc.go:126-172 | counters, deletions and ages of a pass in terms of the listing and of what became of each key |
| CollectorLaw.Pass | internal/gc/gc.go:126-172 | a whole pass keeps every visible version readable beside anything; each key listed is done once as its answers demand; every counter counts its fate; exactly the orphans went, under the age guard each dated and at least the minimum age old, and they are dead for good |
| Sizes.SealedInjective | internal/crypto/stream/size.go:45-63 | ciphertext size, part count and chunk size determine the plaintext size |
| Sizes.OpenedInvertsSealed | internal/crypto/stream/size.go:78-121 | the plaintext size is recovered wherever every segment holds a chunk |
| Sizes.OpenedRefusesEmptySegments | internal/crypto/stream/size.go:78-121 | a size with a segment that would hold no chunk is refused |
| Sizes.OpenedInvertsSealedExactly | internal/crypto/stream/size.go:78-121 | recovery succeeds if and only if there is one segment or every segment holds a chunk |
| Manifest.Validate | internal/manifest/manifest.go:312-337 | accepts exactly 1 to 10,000 parts with strictly ascending numbers and sizes in range |
| Manifest.BodyLayout | internal/manifest/manifest.go:172-206 | where every field of a body stands: magic, names with their lengths, id, count, and 30 bytes for each part |
| Manifest.Marshal | internal/manifest/manifest.go:172-206 | prints exactly the valid manifests, whichever format they were read from, in the current one: the canonical body followed by its MAC |
| Manifest.Reader.Next | internal/manifest/manifest.go:357-364 | never reads past the body: takes exactly n bytes or refuses and stays |
| Manifest.Reader.Int | internal/manifest/manifest.go:366-380 | a big-endian integer off the front of what is left, or a refusal |
| Manifest.Reader.FieldOf | internal/manifest/manifest.go:382-392 | a length-prefixed field off the front of what is left, or a refusal |
| Manifest.Parse | internal/manifest/manifest.go:250-307 | the cursor and its loop compute the parsing function on every body |
| Manifest.ParseOfBody | internal/manifest/manifest.go:250-307 | every valid manifest, of either format, is parsed back as it was |
| Manifest.BodyOfParse | internal/manifest/manifest.go:250-307 | an accepted body re-serialises to the identical bytes |
| Manifest.ParsesExactly | internal/manifest/manifest.go:250-307 | a body parses to a valid manifest if and only if it is that manifest's body |
| Manifest.Unmarshal | internal/manifest/manifest.go:215-247 | answers a manifest that passes the MAC, the identity and the rules, and refuses only where there is none |
| Manifest.AcceptsExactly | internal/manifest/manifest.go:215-247 | what is accepted is exactly the printed form of a valid manifest of the identity asked for |
| Parts.CheckPart | internal/manifest/parts.go:61-81 | the only plaintext size a stored part can have, or none if no storable size has that ciphertext |
| Parts.FromUpstream | internal/manifest/parts.go:46-92 | accepts exactly the listings that some lawful part list produces, and answers that list |
| Parts.SamePlain | internal/manifest/parts.go:46-92 | one listing comes from one part list only |
| Parts.ChunksAddUp | internal/manifest/parts.go:39-46 | the chunk counts of lawful parts sum to the chunk count of the whole, wherever the boundaries fall |
| Parts.SizeOfTheWhole | internal/manifest/parts.go:39-46 | the plaintext size of a lawful object is what the listing arithmetic recovers from total ciphertext and part count |
| Parts.CopyRanges | internal/objcopy/objcopy.go:505-530 | the ranges requested tile the stored object, range i holding exactly the ciphertext of part i |
| Parts.EachByteOnce | internal/objcopy/objcopy.go:505-530 | tiling ranges hold every byte of the object once |
| Parts.MaxPartPlaintext | internal/manifest/parts.go:96-111 | the walk down finds the largest whole-chunk plaintext, for every permitted chunk size |
| Parts.LargestIs | internal/manifest/parts.go:96-111 | that largest plaintext, as a closed form |
| Parts.LastPartMayBeLarger | internal/manifest/parts.go:94-96 | at every permitted chunk size a last part of one byte more still fits, contrary to the documentation |
| Split.PartSizeMeans | internal/encrypt/encrypt.go:220-224 | the configured part size, or 64 MiB, rounded up to whole chunks |
| Split.Choose | internal/encrypt/encrypt.go:603-620 | the part size chosen is whole chunks, fits a part and needs at most 10,000 parts; refused exactly where none would do |
| Split.Cut | internal/encrypt/encrypt.go:718-731 | the loop yields parts numbered 1 to n, equal but for a nonempty last, lawful, summing to the size |
| Split.Layout | internal/encrypt/encrypt.go:600-731 | single segment exactly up to the configured size, refusal exactly above the limits, lawful parts summing to the size otherwise |
| Split.LawfulIsValid | internal/manifest/manifest.go:312-337 | a lawful layout makes a manifest that passes validation |
| AuditRecord.ChainHash.Lp | internal/audit/record.go:139-149 | adds one length-prefixed field, or refuses a field longer than its prefix can say |
| AuditRecord.ChainHash.All | internal/audit/record.go:172-203 | adds all fields in order, or refuses |
| AuditRecord.HashHead | internal/audit/record.go:172-181 | the accumulated bytes of a head are its canonical encoding |
| AuditRecord.HashEntry | internal/audit/record.go:184-203 | the accumulated bytes of an entry are its canonical encoding |
| AuditRecord.HashPoint | internal/audit/record.go:206-215 | what a checkpoint signature covers is its canonical encoding |
| AuditRecord.HeadLayout | internal/audit/record.go:172-181 | the bytes a head's hash covers, field by field |
| AuditRecord.EntryLayout | internal/audit/record.go:184-203 | the bytes an entry's hash covers, in the order of its fields |
| AuditRecord.PointLayout | internal/audit/record.go:206-215 | the bytes a checkpoint's signature covers, field by field |
| AuditRecord.FieldsUnambiguous | internal/audit/record.go:132-149 | length-prefixed fields followed by anything can be split in one way only |
| AuditRecord.HeadBytesInjective | internal/audit/record.go:172-181 | equal bytes, equal heads |
| AuditRecord.EntryBytesInjective | internal/audit/record.go:184-203 | equal bytes, equal entries, chains and previous hashes |
| AuditRecord.PointBytesInjective | internal/audit/record.go:206-215 | equal bytes, equal checkpoints and chains |
| AuditRecord.DomainsDisjoint | internal/audit/record.go:28-32 | no head, entry and checkpoint share their bytes |
| AuditVerify.VerifyHead | internal/audit/verify.go:150-170 | accepts a head if and only if version, hash and key hold |
| AuditVerify.VerifyEntry | internal/audit/verify.go:172-214 | accepts an entry if and only if it continues the entries before it |
| AuditVerify.VerifyCheckpoint | internal/audit/verify.go:216-247 | accepts a checkpoint if and only if it records where the chain stands, signed if there is a key |
| AuditVerify.Verify | internal/audit/verify.go:67-116 | accepts exactly the files that hold a log, and reports its entries, final hash, intact bytes and the number of the last verified checkpoint |
| AuditVerify.ReadExactly | internal/audit/verify.go:125-148 | a file holds a log if and only if its first line begins one and every other line follows those before it |
| AuditVerify.ReadPrefix | internal/audit/verify.go:67-116 | cut at any line after the head, a log is still a log, with a prefix of the entries and checkpoints |
| AuditVerify.VerifyChain | internal/audit/verify.go:264-289 | accepts exactly the sequences of files of which each names the one before it and the hash it ended at |
| AuditMeaning.AcceptsExactly | internal/audit/verify.go:67-247 | a file is accepted if and only if its head has this version, its own hash and the key, every entry its number, bounds and the hash of itself after the one before, and every checkpoint the number and hash the chain stands at with a signature the key accepts |
| AuditMeaning.ReportMeans | internal/audit/verify.go:67-116 | the report gives the entries, checkpoints, final hash and intact bytes of the lines, and as signed the number of the last checkpoint, or none without a key |
| AuditMeaning.SignedThroughMeans | internal/audit/verify.go:216-247 | what a report says is signed has a checkpoint of that number in the file whose signature the key accepts |
| AuditMeaning.ChainExactly | internal/audit/verify.go:264-289 | a sequence of files is accepted if and only if each is and each names the chain before it and the hash that ended at |
| AuditUnique.OneHistory | internal/audit/verify.go:172-214 | chains that stand at the same hash are the same chain, or a record of one and a record of the other differ in their bytes and hash alike, and the chains agree from there on |
| AuditUnique.SameFinalHash | internal/audit/verify.go:67-116 | two logs that verify and end at one hash have the same head and entries, or the hash collides on a record of each |
| AuditUnique.SameFinalHashLinked | internal/audit/verify.go:264-289 | and so do the rotated files they link back to, as far as both go, or the hash collides on a record of two files before which all later files agree |
| AuditUnique.SameHistory | internal/audit/verify.go:264-289 | two whole sequences that end at one hash have as many files and agree file by file, or the hash collides on a record of each |
| AuditUnique.CheckExpected | cmd/blindbucket/audit.go:527-560 | accepts if and only if signatures were checked and the first checkpoint of that number has that hash |
| AuditUnique.PointWasReached | internal/audit/verify.go:216-247 | a checkpoint that passed was the state of the log at some line |
| AuditUnique.ExpectForces | cmd/blindbucket/audit.go:527-560 | an accepted recorded checkpoint forces the files to hold, up to it, exactly the history that stood at that hash elsewhere, or the hash collides on a record of each |
| AuditWriter.CanonicalApart | internal/audit/record.go:172-215 | no hash covers the field that is filled in from it |
| AuditWriter.MadeMeans | internal/audit/log.go:376-414 | which part of an event becomes which part of its entry; the next number, and a size never negative |
| AuditWriter.PointedMeans | internal/audit/log.go:445-458 | a checkpoint records the number and hash of the log and is signed on that |
| AuditWriter.HeadedMeans | internal/audit/log.go:262-285 | a head has this version, the key, and the chain and hash it continues |
| AuditWriter.RotatesWhenDue | internal/audit/log.go:470-476 | a checkpoint moves the file away if and only if it has grown to the limit |
| AuditWriter.StaysWhole | internal/audit/log.go:210-259 | losing any bytes after the synced lines leaves files that verify |
| AuditWriter.KeepsSynced | internal/audit/log.go:484-489 | losing a tail loses no synced entry and makes none up |
| AuditWriter.BoundsDecide | internal/audit/log.go:376-430 | an appended entry leaves a verifiable file if and only if its status is in 0..999 and its line at most 1 MiB; otherwise no longer file verifies either |
| AuditWriter.AcceptedExactly | internal/audit/verify.go:264-289 | the verifier accepts the files if and only if they read as one chain and every line keeps to its bounds |
| AuditWriter.AppendStands | internal/audit/log.go:376-430 | after any append, in bounds or not, the writer's number, hash and size are those of the longer log |
| AuditWriter.AppendKeeps | internal/audit/log.go:376-430 | one entry more and none more durable; the files stay within the verifier's bounds if and only if they were and the line is |
| AuditWriter.DurableKept | internal/audit/log.go:484-489 | where no fewer entries are durable and nothing but the end has changed, what was durable is there |
| AuditWriter.RotateStands | internal/audit/log.go:496-520 | after a rotation the new file continues the old one and no entry is lost |
| AuditWriter.CheckpointedStands | internal/audit/log.go:445-476 | after a checkpoint nothing of this run is unsigned and every entry is kept |
| AuditWriter.Writer.WriteEntry | internal/audit/log.go:376-419 | the next entry of the chain is in the file, or the writer is broken with nothing durable lost |
| AuditWriter.Writer.Pin | internal/audit/log.go:445-470 | a checkpoint of where the log stands is in the file and synced, or the writer is broken |
| AuditWriter.Writer.RotateLocked | internal/audit/log.go:496-520 | the file is moved away and a head that names it begins the new one, or the writer is broken with the archives whole |
| AuditWriter.Writer.CheckpointLocked | internal/audit/log.go:445-476 | checkpoint and, past the size limit, rotation, as one step that succeeds or breaks the writer |
| AuditWriter.Writer.Append | internal/audit/log.go:347-430 | one entry more and nothing else, fewer than CheckpointEvery of this run unsigned, the files verifiable if and only if they were and the line is within bounds; or broken for good, with every synced entry kept and the files still one chain |
| AuditWriter.Writer.TakeCheckpoint | internal/audit/log.go:433-443 | nothing is unsigned afterwards and no entry changes, or the writer is broken |
| AuditRun.Open | internal/audit/log.go:163-295 | a file that is there is continued if and only if it verifies, with its torn tail cut off; an empty one gets a head that continues nothing |
| AuditRun.RotationGap | internal/audit/log.go:496-520 | after a crash past a rotation's rename, reopening leads to files that verify as one chain if and only if the new head was complete |
| AuditRun.Crash | internal/audit/log.go:478-489 | leaves the writer's file or a cut of it at any byte past what was synced |
| AuditRun.CrashKeeps | internal/audit/log.go:478-489 | what a crash leaves still reads as one chain and holds a beginning of the entries, with everything that was synced |
| AuditRun.Reopen | internal/audit/log.go:210-259 | after a crash reopening succeeds if and only if what is left keeps to the verifier's bounds; the entries are then a beginning of those before, every durable one is there and is still counted durable |
| AuditRun.Run | internal/audit/log.go:347-520 | every run of appends, checkpoints, rotations, failed writes, crashes and reopenings leaves one chain of files and a writer that stands where it ends; the entries change operation by operation as they must, the durable ones never shrink and a checkpoint makes all durable; and VerifyChain accepts the files as long as the events keep to its bounds |
| AuditRun.DurableStays | internal/audit/log.go:478-489 | what was synced at any moment of a run is in the files at every later moment, across crashes, failures and rotations |
| AuditOrder.Index | cmd/blindbucket/audit.go:346-404 | a map of all files by chain, if and only if all have heads and no two share a chain |
| AuditOrder.OnlyStart | cmd/blindbucket/audit.go:346-404 | finds the one file whose predecessor is not given, if and only if there is exactly one |
| AuditOrder.Walk | cmd/blindbucket/audit.go:346-404 | the walk along the links terminates on every set of heads and repeats no file |
| AuditOrder.WalkRetraces | cmd/blindbucket/audit.go:346-404 | where the files form one chain, the walk is that chain whichever link the map kept |
| AuditOrder.WalkedAll | cmd/blindbucket/audit.go:346-404 | a walk that visits as many files as given is a permutation in which each names its predecessor |
| AuditOrder.OrderLogs | cmd/blindbucket/audit.go:346-404 | several files are ordered if and only if they form one chain, and the answer is the one order they have; forks and gaps are refused |
| Freshness.DecodeEncode | internal/freshness/local.go:376-391 | every record is read back as it was written |
| Freshness.HeaderIsHeader | internal/freshness/local.go:264-275 | every header written is recognised |
| Freshness.HeaderExactly | internal/freshness/local.go:185-220 | a file of 16 bytes or more is loaded if and only if it begins with BBFX, format 1 and records of 48 bytes; a shorter one is empty |
| Freshness.ReplayPast | internal/freshness/local.go:185-262 | whole records replay first, then whatever follows them |
| Freshness.ReplayOne | internal/freshness/local.go:393-407 | an appended record is replayed after all others |
| Freshness.TornTail | internal/freshness/local.go:222-241 | for any record format, a short tail or one that does not decode leaves exactly the replay of the records before it |
| Freshness.DecodesExactly | internal/freshness/local.go:236-255 | 48 bytes are a record if and only if the last four are the checksum of the others, and where its fields stand |
| Freshness.BadTail | internal/freshness/local.go:222-242 | after the records, 48 bytes with a wrong checksum or fewer bytes end the load, whatever follows |
| Freshness.GoodTail | internal/freshness/local.go:236-262 | 48 bytes with the right checksum are replayed: a name set as written, or forgotten if it was invalidated |
| Freshness.LoadFile | internal/freshness/local.go:185-262 | the loop computes the replay of the file's records on every file, which `BadTail` and `GoodTail` characterise |
| FreshnessIndex.NoneWrong | internal/freshness/local.go:299-324 | no wrong verdict was counted, so each verdict in the run is the machine's |
| FreshnessIndex.MachineMeans | internal/freshness/local.go:299-373 | what the machine of a key comes to after each step: fresh and stale by the tag recorded, deleted, unknown after a failure, and forgotten only past retention |
| FreshnessIndex.KeptFacts | internal/freshness/local.go:431-499 | a compaction forgets deletes past retention and changes no other key |
| FreshnessIndex.InstallSays | internal/freshness/local.go:431-499 | after a compaction the new file replays to the map and the writes so far keep their bound |
| FreshnessIndex.WrittenSays | internal/freshness/local.go:376-407 | after an append the map, the machine and the file agree |
| FreshnessIndex.DroppedSays | internal/freshness/local.go:376-407 | after a failed append the key is unknown to both the map and its machine |
| FreshnessIndex.Local.Rewritten | internal/freshness/local.go:431-470 | the rewritten file replays to exactly the kept entries, one record each, in whatever order they come |
| FreshnessIndex.Local.Compact | internal/freshness/local.go:431-499 | the kept entries installed, or nothing changed, or no further append possible |
| FreshnessIndex.Local.Maintain | internal/freshness/local.go:411-422 | on success, and while no write has failed, the file holds at most 2 records for each entry and 4096 more |
| FreshnessIndex.Local.Check | internal/freshness/local.go:299-324 | the verdict is that of the key's machine; an unknown key is recorded with the tag it was read with |
| FreshnessIndex.Local.RecordTag | internal/freshness/local.go:327-335 | the key has this tag; or, if the write failed, is unknown |
| FreshnessIndex.Local.Forget | internal/freshness/local.go:338-346 | the key is deleted; or, if the write failed, unknown |
| FreshnessIndex.Local.Invalidate | internal/freshness/local.go:355-373 | the key is unknown in memory whether or not the write failed |
| FreshnessIndex.Open | internal/freshness/local.go:126-169 | loads what the file replays to, and mirrors its file from then on if and only if the file was as long as its records take |
| FreshnessIndex.EveryRun | internal/freshness/local.go:299-499 | with no failed write the file replays to the map; every verdict on any name was its machine's; all records written, compactions included, are at most the first file's and two for each append |
| FreshnessIndex.Run | internal/freshness/local.go:299-499 | the trace of any sequence of operations, failing or not, is one step for each with the verdict it answered; the index stays valid, appends at most one record an operation, and mirrors its file if none failed |
| FreshnessIndex.AppendedAfterTear | internal/freshness/local.go:222-241 | what is appended after a torn tail is not read back, unless the mixed window happens to check |
| FreshnessIndex.SecondHeader | internal/freshness/local.go:157-167 | after a second header nothing is read back, unless the mixed window happens to check |
| FreshnessRestart.ReplayStops | internal/freshness/local.go:185-262 | replay stops after exactly the records it counts, at a window that is short or does not check |
| FreshnessRestart.TailHides | internal/freshness/local.go:222-241 | where anything follows the last record read, some append is not read back |
| FreshnessRestart.MirrorsExactly | internal/freshness/local.go:157-167 | the file an opening leaves holds what was loaded and nothing else if and only if its length was that of its records |
| FreshnessRestart.RestartExactly | internal/freshness/local.go:157-167 | a restarted index reads back every append if and only if the file was exactly as long as its records take |
| Chunked.HexValueOfText | internal/auth/chunked.go:155-196 | every size written in hexadecimal is read back |
| Chunked.HeaderReadBack | internal/auth/chunked.go:381-402 | a header line is read back as size and signature, or refused where the mode and the signature disagree |
| ChunkedReader.DataInPieces | internal/auth/chunked.go:111-152 | reading part of a chunk first makes no difference to how the body ends |
| ChunkedMeaning.GoodMeans | internal/auth/chunked.go:155-333 | the bytes of a body that ends well are chunks, each a header line that parses, its data and a line break, and a trailer that stands there; what its signatures and checksums then are `ChunkedLaw` says |
| ChunkedMeaning.FramingDecodes | internal/auth/chunked.go:155-333 | bytes so framed decode to their payload if and only if the signatures chain and the end is good |
| ChunkedMeaning.DecodesExactly | internal/auth/chunked.go:111-333 | on every input, the body decodes to a payload if and only if its bytes are chunks of that payload with a chained signature each and a trailer under which length and checksums settle |
| ChunkedLaw.ChainMeans | internal/auth/chunked.go:211-233 | in a signed mode the first signature is the key's on the seed and the first data, each other on the one before and its data |
| ChunkedLaw.SettlesMeans | internal/auth/chunked.go:288-333 | the length is the declared one, a checksum in the trailer parses, runs and is the payload's, and one that did not arrive there is the payload's as its header declared it |
| ChunkedLaw.AcceptsExactly | internal/auth/chunked.go:111-333 | on every input, a payload is accepted if and only if the bytes frame it, with every chunk, the final one and a signed trailer signed along the chain from the seed where the mode signs, and length and checksums adding up |
| ChunkedReader.Find | internal/auth/chunked.go:336-343 | the first running checksum of a name, if there is one |
| ChunkedReader.SettleTrailer | internal/auth/chunked.go:296-318 | every checksum in the trailer belongs to a running one and equals it, whatever order the trailer is visited in |
| ChunkedReader.Settle | internal/auth/chunked.go:288-333 | accepts if and only if the length is the declared one and each checksum equals what arrived for it, in the trailer or else in a header |
| ChunkedReader.TrailerFrom | internal/auth/chunked.go:236-285 | the loop reads the trailer the grammar says, on every input |
| ChunkedReader.FinishBody | internal/auth/chunked.go:155-196 | accepts the end if and only if final signature, trailer, trailer signature and checksums hold |
| ChunkedReader.Reader.NextChunk | internal/auth/chunked.go:155-196 | moves into the next chunk, to a good end or to failure, without changing how the whole ends |
| ChunkedReader.Reader.FinishChunk | internal/auth/chunked.go:199-233 | past a chunk only with its line break and its signature, which the next one is then chained to as `ChunkedLaw` says |
| ChunkedReader.Reader.Read | internal/auth/chunked.go:111-152 | delivers the next bytes of the payload, reports the end only for a body `ChunkedLaw.AcceptsExactly` accepts, and failure for good |
| ChunkedReader.ReadAll | internal/auth/chunked.go:111-152 | however reads are sized, empty ones included, what the caller has is a beginning of a good body's payload, the end comes exactly with the whole of it, failure only of a bad body, and one of them within as many reads as there are bytes |
| ChunkedReader.BodyReader.Verify | internal/auth/body.go:118-128 | accepts if and only if the body is chunked, and so settled by its decoder, or every checksum equals the value declared for it |
| ChunkedReader.BodyReader.Read | internal/auth/body.go:89-114 | chunked or not, a clean end only once the whole of a good body has been handed over and its checksums met; a failure stays |
| ChunkedFrames.HeaderIsRead | internal/auth/chunked.go:347-402 | a header line in place is read as the client wrote it |
| ChunkedFrames.FramedIsFraming | internal/auth/chunked.go:155-233 | a client's framing is one the decoder sees |
| ChunkedFrames.TrailerLineIsRead | internal/auth/chunked.go:236-268 | a trailer line is read as its name and value, the signature's as that, a later line of a name replacing an earlier |
| ChunkedFrames.RenderedMeans | internal/auth/chunked.go:262-282 | what a trailer's signature covers: every line in order as name, colon, value and newline |
| ChunkedFrames.SignIsRead | internal/auth/chunked.go:165-168 | a plus before a size is ignored, a minus allowed of zero alone |
| ChunkedFrames.TrailerEnds | internal/auth/chunked.go:236-268 | an empty line or the end of the body ends the trailer, a line without a colon spoils it |
| ChunkedFrames.LongLineIsRefused | internal/auth/chunked.go:347-360 | a line beyond the limit is refused |
| ChunkedFrames.FramedDecodes | internal/auth/chunked.go:155-333 | what a client frames decodes to its payload if and only if its signatures chain from the seed and its end settles |
| ChunkedFrames.FramedWritten | internal/auth/chunked.go:155-233 | the bytes a client writes for a list of chunks are a framed body |

## Left out

- Cryptography: SHA-256, HMAC, HKDF, Ed25519, AES-GCM and checksum algorithms are
  uninterpreted functions; name encryption and the cleaning of principals are left out.
- Provider: single-request writes and deletes rank by when they land; a PUT that begins
  early and lands late is not modelled.
- Objects under versioning, tenants, key rings and object lock are not modelled.
- `objcopy`, `migrate` and `encrypt` are processes of the state machine, one step a provider
  request, not sequential methods: their retry loops, hooks, deferred aborts, counters and
  reports are left out, and a request that answers with an error ends its process.
- The gateway's upload, PUT and DELETE handlers are their provider requests only.
- CollectorLaw.Pass: the tag sidecars of the same pass are modelled apart, in `Sidecars`;
  which object a hash directory stands for is an answer, resolved or not; cancellation,
  which ends the pass between two keys, is left out.
- Completions: part lists are modelled there for one upload; in `Provider` a manifest is its
  id, as one list for each upload makes it.
- `identity` is the name clients know a stored key by: during a migration every gateway
  encrypts names, so a client's write at the encrypted key binds P. Which key-encryption key
  wraps a data key is not modelled, so a rotation is never refused as already current.
- Sidecars: one key; a copy's sidecar is an upload's; clocks agree and the age guard is on.
- Migration.NoWriteLost: takes the tools to carry their conditions; under
  `--allow-unconditional` a move may replace a client's write, and only
  `MigrationDeletes.DeletedOnlyOnceCovered` holds.
- JSON: an audit line is what it parses to, and its length; the limit of 64 GiB on what a
  verification reads, and listing of checkpoints for display, are left out.
- AuditRun.Run: ends early at a crash of a file that breaks the verifier's bounds or has no
  head yet, a rotation having failed past its rename; what becomes of the latter
  `AuditRun.RotationGap` says. Failures inside Open, and the names of rotated files, are
  left out.
- FreshnessIndex.Local.Maintain: after a failed write the counter is still bounded, but is
  no longer the number of records in the file.
- The audit export, its queue and the chain id it reports with an entry are left out; that
  id may be that of the next file where the append rotated.
- FreshnessIndex.EveryRun: counts the records of completed compactions, not of those that
  failed before their rename; a failed sync is a failed operation that changes nothing.
- FreshnessIndex.AppendedAfterTear: one direction; the exact condition is
  `FreshnessRestart.RestartExactly`.
- FreshnessIndex.SecondHeader: one direction; the exact condition is
  `FreshnessRestart.RestartExactly`.
- Split.Layout: sizes are unbounded integers; a configured part size near 2^63 would
  overflow in the source.
- Chunked: trimming and folding of header names and values, and base64, are uninterpreted;
  request header parsing is left out.
- Listing, ranged reads, HTTP, S3 XML, configuration, credentials, the command line, the
  dashboard, `doctor`, `scrub`, `census` and the benchmarks are left out.
