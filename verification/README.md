# An encrypted, versioned vault, proved

The gateway of this repository shows a WebDAV drive of paths and bytes and keeps it as encrypted,
deduplicated chunks in an iCloud Drive folder (the vault), with the names, the version history and
the chunk lists in a database. This project models that gateway and the protocols around it and
proves, for every input, every run and every point at which a call fails or the process stops, what
the gateway is for: a download of a live path gives the bytes last written to that file; nothing
that a file or a version needs is ever collected; what nothing needs is.

`dafny verify dfyconfig.toml` checks everything.

## The main results

* **A run of the gateway is a run of a plain map from paths to bytes** (`Runs`). Whatever remote call
  fails and wherever the process stops and comes back, every operation does to the drive what
  `Runs.Explains` says (`Runs.Run`): an answer says that it took effect, an error that it did not, and
  when the process stopped the client does not know, but it took effect whole or not at all. Downloads
  that meet no failing call give a live path's bytes and refuse every other path
  (`Runs.DownloadsSucceed`); bytes stay with their file through every rename of it, or of a directory
  above it (`Runs.BytesFollowTheFile`), up to the download that gets exactly what was uploaded
  (`Runs.UploadThenDownload`). A path is dropped as removed only after enough scans in a row had missed
  it for long enough, whatever calls failed (`Runs.DroppedWasMissed`), and a path that lacks a part is
  dropped once enough due listings without a failing call have looked for long enough
  (`Runs.MissedIsDropped`). Histories, tree and counters stay in order over whole runs
  (`Runs.OrderStays`).
* **Every crash point is safe.** `Backend.EncryptedBackend.Valid` says that every manifest named by a
  file or a version has its row, a gapless chunk list whose sizes add up to the file's, and all its
  objects and keys in the vault, less what others removed from outside. Every method keeps it however
  it ends.
* **Collection is safe and exact**: after a collection in which no call failed, exactly the kept
  manifests and exactly the reachable chunks are left, after one pass over each
  (`Steps.CollectionIsExact`, `Steps.CollectionIsFixedPoint`). A row whose files a broken sweep has
  already removed never becomes part of a committed version (`Steps.StaleNeverCommits`).
* **Failed uploads change nothing** and, unless their clean-up met a failure, leave exactly the rows that
  were needed before (`Backend.EncryptedBackend.UploadStream`, `Steps.FailureLeavesNeeded`). An upload
  to an allowed path whose body is long enough does commit when no call fails and no chunk is stale or
  lost; an upload of the bytes the path holds already makes no version (`Runs.DoUpload`).
* **No version is lost by accident**: exactly when a commit, a delete, a tombstone conserves every
  manifest, and the invariant (`History.Tidy`) under which each always does.
* **Retention keeps the newest**: expiry, the limits per size and the capacity loop together keep a
  newest suffix of each live path's history, exactly as long as the option for the size of the file
  allows (`Backend.EncryptedBackend.RetainedVersions`); the capacity loop drops the shortest oldest-first prefix
  that is enough (`Backend.EncryptedBackend.Gc`, `Retention.PrunedOneMore`). The usage it compares is pinned row by row (`Retention.ManifestCounts`,
  `Retention.ChunkCounts`).
* **Renaming a directory** moves exactly the subtree when the query picks nothing else, as it does for
  every name without wildcards (`Renames.SelectedIsSubtree`); the tree stays a
  tree exactly when the directory does not move into itself (`Tree.RenameRooted`), and histories stay
  in order exactly when no file lands on a tombstone (`Renames.MovedTidy`).
* **The missing-file counter** equals the number of latest consecutive scans that missed the path
  (`Observations.ScanCounted`, `Backend.EncryptedBackend.Reconcile`), in every run.
* **Key rotation** is safe at every interruption of any number of resumed runs, and succeeds exactly when
  it can (`Rotation`).
* **Replacements chain** across several gateways (`Gateways`): of all uploads begun from one version
  only one is committed, and it archives exactly that version.
* **The broker's limits** (`BrokerPolicy`), **the lease lock** (`Lease`), **ranged downloads**
  (`Ranges`) and **the blob and capsule encodings** (`Blobs`).

## How the model reads

* `Db` holds the tables as maps; a transaction is one assignment of a new `Db`, as `BEGIN IMMEDIATE`
  makes it. The object that owns the tables, `EncryptedBackend`, is a class whose methods follow the
  loops and the order of the program.
* Every step that leaves the process (a transaction, a remote call, a call to the key broker) may end
  `Done`, `Raised`, or `Stopped`: the process stopped in it, before it had any effect or after. A
  transaction then took effect whole or not at all, and a ghost result `went` says which; the client
  cannot tell. A handler never sees `Stopped`, and `Restart` is all that happens afterwards. A contract
  that speaks of `Stopped` therefore speaks of every crash point.
* `Cloud` is the remote store. Any call may fail; a call that fails or never returns may have taken
  effect all the same; an upload replaces its file whole or leaves it alone; a listing may be wrong.
  The ghost counter `faults` counts the failures, so "no call failed" is "`faults` is what it was".
  The ghost set `lost` is what others have removed from the vault.
* The lock of the gateway serialises operations, so a method runs alone. The vault changes from
  outside only between operations.
* Ids are drawn once. Equal digests mean equal bytes. A wrap opens under its own key and context and
  gives what was wrapped; a cipher's mask applied twice is nothing. These are the laws of the symbolic
  primitives; no cryptography is modelled beyond them.
* Two readings of the clock differ, and the later one is later. Where the theorems about the order of
  histories need more, they ask for it.

Where a natural claim is false of the code, the code is kept, a small input is given, and the theorem
says exactly when the claim holds:

* a directory renamed into itself: `Counterexamples.RenameIntoItselfBreaksTheTree`, `Tree.RenameRooted`;
* a directory renamed onto tombstones: `Counterexamples.RenameOntoTombstonesMixesHistories`,
  `Renames.MovedTidy`;
* `_` and `%` in a path used with `LIKE`: `Counterexamples.WildcardPicksAnotherSubtree`,
  `Paths.LikeIsPrefixIffWildcardFree`, `Renames.SelectedIsSubtree`;
* a refused rename that has purged its destination: `Counterexamples.RefusedRenameForgets`,
  `Backend.EncryptedBackend.Rename` with `Steps.Forgets`;
* a delete with a row read too early: `Gateways.StaleDeleteLosesAReplacement`,
  `Gateways.DeleteWithConserves`;
* clock readings out of the order of the lock: `BrokerPolicy.OutOfOrderReadings`,
  `BrokerPolicy.OrderIsNeeded`.

Three more facts are stated as they are: a finalizing rotation that was interrupted cannot be resumed by
a process that cannot open what is finalized (`Rotation.FinalizedOpensFor` says which can), an upload stopped while VERIFYING pins its manifest for good
(`Runs.StoppedUploadPins`), and a first creation overtaken by another gateway can later lose a version
(`Gateways.FirstCreationCanClash`; `History.CommitConserves` says when a commit does).

## Model

| member | source | states |
|---|---|---|
| `Runs.Run` | src/icloud_ftp/encryption_backend.py:1021-1627 | every run, with any remote call failing and the process stopping before or after any transaction, does to the drive what the same operations do to a plain map; an answer means it was done, an error that it was not, a stop either, whole |
| `Runs.Step` | src/icloud_ftp/encryption_backend.py:1021-1411 | one operation, with a stop anywhere in it or just before its answer, is explained by the moments before and after: the drive, the directories, the scans, the answer, and why it was refused |
| `Runs.DownloadsSucceed` | src/icloud_ftp/encryption_backend.py:1021-1069 | without outside loss, a download in which no call failed gives all the bytes of a live path and refuses every other path |
| `Runs.UploadThenDownload` | src/icloud_ftp/encryption_backend.py:1021-1411 | from an upload that took effect, through renames and any failures in between, to a later failure-free download of that file: exactly the bytes uploaded |
| `Runs.DroppedWasMissed` | src/icloud_ftp/encryption_backend.py:865-965 | a path that vanishes without a deletion or a rename had been missed by at least the configured number of consecutive scans, over at least the grace, whatever calls failed |
| `Runs.MissedIsDropped` | src/icloud_ftp/encryption_backend.py:865-965 | the other direction: a path whose file lacks a part in the vault is gone from the drive once the configured number of due listings without a failing call looked, the first and the last of them at least the grace apart |
| `Runs.FirstAndLast` | src/icloud_ftp/encryption_backend.py:865-965 | from the first such listing to the last each completed scan found the path, and there is one for each listing that looked |
| `Runs.ScansInTime` | src/icloud_ftp/encryption_backend.py:865-965 | the scans of a run are in the order of the clock |
| `Runs.StreakShown` | src/icloud_ftp/encryption_backend.py:930-964 | where the streak begins that made a scan give a path up |
| `Runs.StoppedUploadPins` | src/icloud_ftp/encryption_backend.py:1498-1501 | an upload stopped in VERIFYING keeps its row, its manifest and its whole chunk list at every later moment of a run |
| `Runs.BytesFollowTheFile` | src/icloud_ftp/encryption_backend.py:1355-1411 | bytes once at a path stay with their file through renames of it and of directories above it, until it is written, deleted, or given up by a completed scan, with any call failing |
| `Runs.DoDownload` | src/icloud_ftp/encryption_backend.py:1021-1069 | a download leaves the drive alone; what the client has is always the beginning of the file, all of it on success, and success is certain when all was smooth |
| `Runs.OrderStays` | src/icloud_ftp/encryption_backend.py:1075-1627 | over whole runs: the stored counters count the scans of the run; histories stay in order while no rename meets tombstones below its destination, and the tree a tree while no directory rename takes more than its subtree or goes into itself |
| `Runs.NothingIsInOrder` | src/icloud_ftp/encryption_backend.py:251-345 | an empty database has its histories, its tree and its counters in order |
| `Runs.DoRename` | src/icloud_ftp/encryption_backend.py:1355-1411 | a rename does to the drive what renaming one entry, or the selected entries, of a map does, whole or not at all; in a tree with histories in order, with nothing in its way and no failing call, it is not refused |
| `Runs.DoOther` | src/icloud_ftp/encryption_backend.py:1296-1627 | making a directory and collecting change no path and no byte of the drive, however they end |
| `Runs.RenameExplained` | src/icloud_ftp/encryption_backend.py:1355-1411 | a rename of a file moves one entry of the drive; a rename of a directory moves the selected entries one to one and nothing else |
| `Runs.DoUpload` | src/icloud_ftp/encryption_backend.py:1075-1294 | an upload sets its path to exactly the bytes read, whole or not at all, and never when the path holds just these bytes already: then it answers False or fails; it is not refused when path, body, calls and chunks are all good |
| `Runs.DoDelete` | src/icloud_ftp/encryption_backend.py:1307-1353 | a deletion removes exactly its path, whole or not at all: surely with an answer, surely not with an error; when no call fails it is refused only for a missing path or a directory that is not empty |
| `Runs.DoList` | src/icloud_ftp/encryption_backend.py:967-996 | a listing completes a scan when one is due, no call fails and the process does not stop, and then drops from the drive exactly the paths this scan gave up; without a completed scan it changes nothing |
| `Backend.EncryptedBackend.Commit` | src/icloud_ftp/state.py:82-95 | a transaction happens whole or not at all; the process may stop before it or after it |
| `Backend.EncryptedBackend.MakeCapsule` | src/icloud_ftp/encryption_backend.py:581-606 | the capsule opens, to the data key of its object, for exactly the processes that have this broker or the recovery secret, and under no other object for anybody |
| `Backend.EncryptedBackend.StoreBlob` | src/icloud_ftp/encryption_backend.py:712-746 | on success object and key are both in the vault, the object as long as the size reported; whatever happens only files of this new id are touched; when a single call failed no key is left, and no object that was uploaded |
| `Backend.EncryptedBackend.StoreChunk` | src/icloud_ftp/encryption_backend.py:769-803 | new content gets a row only when its object and key are stored; the row speaks of exactly this content |
| `Backend.EncryptedBackend.GetOrCreateChunk` | src/icloud_ftp/encryption_backend.py:760-803 | the answer is a row of exactly this content; content that has a row is neither stored nor inserted again |
| `Backend.EncryptedBackend.AppendChunk` | src/icloud_ftp/encryption_backend.py:1113-1131 | the list grows by one known, pinned chunk and spells the bytes so far |
| `Backend.EncryptedBackend.ReadChunks` | src/icloud_ftp/encryption_backend.py:1113-1133 | the chunk loop: the list spells exactly the next `size` bytes, all pinned, every piece but the last a whole chunk; a short body raises |
| `Backend.EncryptedBackend.PublishManifest` | src/icloud_ftp/encryption_backend.py:1155-1219 | the manifest rows are exactly the chunk list at positions 0, 1, ..., and the upload is VERIFYING with this manifest; nothing is inserted unless the object is stored |
| `Backend.EncryptedBackend.PublishWhole` | src/icloud_ftp/encryption_backend.py:1155-1225 | a published manifest with every part seen in the vault; it is not refused when no call fails and no chunk is stale or lost |
| `Backend.EncryptedBackend.VerifyParts` | src/icloud_ftp/encryption_backend.py:1220-1225 | success means that every object and key of the version was seen in the vault |
| `Backend.EncryptedBackend.CommitUpload` | src/icloud_ftp/encryption_backend.py:1226-1275 | the commit takes effect only when the manifest at the path is the one the upload began from, and is refused only when it is not |
| `Backend.EncryptedBackend.StoreVersion` | src/icloud_ftp/encryption_backend.py:1155-1275 | publish, verify, commit: a committed version is new, whole in the vault, and replaces just the version the upload began from |
| `Backend.EncryptedBackend.AttemptUpload` | src/icloud_ftp/encryption_backend.py:1112-1278 | the `try` block: a new version with exactly the bytes read, only if the path does not hold them already, or no name changed; other uploads and old rows are left alone |
| `Steps.UnchangedView` | src/icloud_ftp/encryption_backend.py:1134-1140 | comparing size and both digests with the current version decides whether the path holds just these bytes |
| `History.NewestOf` | src/icloud_ftp/encryption_backend.py:1090-1094 | the highest version number in the history of the path |
| `Backend.EncryptedBackend.NextNumber` | src/icloud_ftp/encryption_backend.py:1088-1094 | one above the current version, or above the newest in history |
| `Backend.EncryptedBackend.BeginUpload` | src/icloud_ftp/encryption_backend.py:1095-1106 | the row of the new upload, with path, number and size, is inserted and UPLOADING, and nothing else changes |
| `Backend.EncryptedBackend.SetUploadStatus` | src/icloud_ftp/encryption_backend.py:521-552 | only the status and, if given, the manifest of this upload change |
| `Backend.EncryptedBackend.FailUpload` | src/icloud_ftp/encryption_backend.py:1279-1294 | the handler: FAILED, no pin left, no name changed, other uploads left alone, and everything unreachable collected unless a call failed |
| `Backend.EncryptedBackend.RunUpload` | src/icloud_ftp/encryption_backend.py:1090-1294 | an upload from its first transaction on, with its failure handler; it makes a version only of bytes the path does not hold yet |
| `Backend.EncryptedBackend.UploadStream` | src/icloud_ftp/encryption_backend.py:1075-1294 | when the commit took effect: exactly the bytes read are current, they are not what the path held before, under the next number, the old version is history, every part was seen in the vault and no stale chunk is among them. Otherwise no file, version or tombstone changed, and a raise has left exactly the rows needed before unless its clean-up met a failure. It does not raise when path, body, calls and chunks are all good; a bad size or path is refused, with the error for it, before anything is read |
| `Remote.ReadExact` | src/icloud_ftp/encryption_backend.py:805-813 | exactly the next `size` bytes of the body, or all that is left when it ends early |
| `Backend.EncryptedBackend.UnwrapCapsule` | src/icloud_ftp/encryption_backend.py:608-661 | the envelope loop answers what the capsule means for this gateway, and never a wrong data key; with the recovery secret a failing broker does not matter |
| `Backend.EncryptedBackend.LoadBlob` | src/icloud_ftp/encryption_backend.py:748-758 | the payload of the object, sealed under the key its capsule holds; when no call fails, success exactly when object and key are there and open |
| `Backend.EncryptedBackend.DownloadManifest` | src/icloud_ftp/encryption_backend.py:1026-1069 | what is written is always the beginning of the file; success means all of it, and when no call fails it comes exactly when every object opens and is the one stored |
| `Backend.EncryptedBackend.Download` | src/icloud_ftp/encryption_backend.py:1021-1069 | success only with exactly the bytes of a live path; when no call fails, exactly when every object of it opens and is the one stored, which they are if none was lost; no other path is served |
| `Steps.LiveOpenable` | src/icloud_ftp/encryption_backend.py:1026-1069 | every part of a live file that was not lost is in the vault, opens, and is what was stored |
| `Steps.VerifiedIs` | src/icloud_ftp/encryption_backend.py:1043-1053 | the four checks on a decrypted chunk let through exactly the chunk stored under that id |
| `Backend.EncryptedBackend.Mkdir` | src/icloud_ftp/encryption_backend.py:1296-1305 | the directory is added where its parent is and nothing is in the way; otherwise, and with an error, nothing changes; each refusal has its own error |
| `Backend.EncryptedBackend.DeleteDirectory` | src/icloud_ftp/encryption_backend.py:1311-1325 | a directory goes exactly when the query finds nothing below it, and each refusal has its own error |
| `Backend.EncryptedBackend.Delete` | src/icloud_ftp/encryption_backend.py:1307-1353 | the file becomes the newest history of its path and leaves a tombstone, in one transaction or not at all; when no call fails the deletion succeeds exactly for a file, or a directory with nothing below it; the tree and the order of histories are kept |
| `Backend.EncryptedBackend.PurgeDeletedPath` | src/icloud_ftp/encryption_backend.py:1437-1440 | exactly the history and the tombstone of the path go |
| `Backend.EncryptedBackend.ClearDestination` | src/icloud_ftp/encryption_backend.py:1363-1367 | a tombstoned destination loses its history and tombstone, and when no call fails everything that then is unreachable is collected; other names stay |
| `Backend.EncryptedBackend.RenameFile` | src/icloud_ftp/encryption_backend.py:1368-1378 | one file and its history get the new path |
| `Backend.EncryptedBackend.RenameDirectory` | src/icloud_ftp/encryption_backend.py:1381-1411 | the selected rows move, in one transaction, or none does |
| `Backend.EncryptedBackend.Rename` | src/icloud_ftp/encryption_backend.py:1355-1411 | which error answers which obstacle, the purge that comes before the source is looked for, then one file or one directory, whole or not at all. A refused rename leaves the tables as they were exactly when it did not clear a tombstoned destination first; tree and histories are kept under the stated conditions, and then no key clash is raised |
| `Renames.MoveFiles` | src/icloud_ftp/encryption_backend.py:1387-1400 | the loop over the files moves each selected row with its history once, and never clashes when nothing is below the destination |
| `Renames.MoveDirectories` | src/icloud_ftp/encryption_backend.py:1401-1411 | the loop over the directories, longest first, moves each selected row once |
| `Renames.SelectedIsSubtree` | src/icloud_ftp/encryption_backend.py:1381-1389 | the query selects the subtree exactly when it picks nothing outside it; it never picks less |
| `Renames.WildcardFreePicksBelow` | src/icloud_ftp/encryption_backend.py:1381-1389 | for a wildcard-free source it picks nothing outside the subtree |
| `Steps.WildcardFreePicksSubtree` | src/icloud_ftp/encryption_backend.py:1381-1389 | so a wildcard-free directory rename takes just its subtree, files and directories |
| `Renames.MovedTidy` | src/icloud_ftp/encryption_backend.py:1390-1400 | a directory rename keeps every history in order exactly when no file lands on a tombstone |
| `Renames.MovedConserves` | src/icloud_ftp/encryption_backend.py:1390-1400 | a directory rename names exactly the manifests it named before |
| `Renames.MoveAllowed` | src/icloud_ftp/encryption_backend.py:1390-1400 | with nothing below the destination no row of the subtree ever meets another |
| `Steps.RenamedDirectoryNames` | src/icloud_ftp/encryption_backend.py:1381-1411 | the two conditions, tree and tombstones, for the rename as a whole |
| `Tree.RenameRooted` | src/icloud_ftp/encryption_backend.py:1359-1411 | after a directory rename the tree is a tree exactly when the directory did not move into itself |
| `Tree.PlacedDistinct` | src/icloud_ftp/encryption_backend.py:1381-1411 | the relabelling is one to one: no two rows meet, moved or not |
| `Tree.ParentMoved` | src/icloud_ftp/encryption_backend.py:1396-1411 | below the source, moving a path moves its parent |
| `Tree.AncestorExists` | src/icloud_ftp/encryption_backend.py:1296-1305 | in a tree every directory above a path exists |
| `Tree.RemoveDirectoryRooted` | src/icloud_ftp/encryption_backend.py:1311-1325 | the emptiness query finds too much at most, so removing a directory never orphans a path |
| `Tree.MakeDirectoryRooted` | src/icloud_ftp/encryption_backend.py:1296-1305 | adding a directory below an existing one keeps the tree |
| `Tree.PutFileRooted` | src/icloud_ftp/encryption_backend.py:1080-1087 | adding a file below an existing directory keeps the tree |
| `Tree.ListingIsChildren` | src/icloud_ftp/encryption_backend.py:967-996 | for a wildcard-free directory the listing test picks exactly the paths whose parent it is |
| `Steps.EntriesAreChildren` | src/icloud_ftp/encryption_backend.py:967-996 | the entries of a wildcard-free directory are exactly its children |
| `Backend.EncryptedBackend.Entries` | src/icloud_ftp/encryption_backend.py:967-993 | the two loops give one entry for each row that the query and the remainder test pick, files over directories |
| `Backend.EncryptedBackend.List` | src/icloud_ftp/encryption_backend.py:967-996 | reconcile, then the entries. A scan is completed exactly when the interval since the last completed one has passed, if no call fails and the process does not stop; it finds exactly the paths with a part missing. Without failures a directory that exists is always shown |
| `Steps.FileEntryTells` | src/icloud_ftp/encryption_backend.py:979-993 | the entry of a file shows how many bytes the path holds and when they were written |
| `Paths.NormalizeIsNormal` | src/icloud_ftp/encryption_backend.py:462-464 | a normalized path is absolute, without empty components, without a slash at its end |
| `Paths.NormalizeIdempotent` | src/icloud_ftp/encryption_backend.py:462-464 | normalizing twice is normalizing once, for every input text |
| `Paths.NormalizeStep` | src/icloud_ftp/encryption_backend.py:462-464 | how a name is read component by component: an empty one and `.` stay, `..` goes to the parent, any other goes down |
| `Paths.NormalizeStart` | src/icloud_ftp/encryption_backend.py:462-464 | the first slash may be left out, a backslash is a slash, and the empty name is the root |
| `Paths.ListedIsChild` | src/icloud_ftp/encryption_backend.py:467-468 | below a directory, a remainder without slash means exactly that the directory is the parent |
| `Paths.LikeExact` | src/icloud_ftp/encryption_backend.py:1382-1389 | for a wildcard-free prefix `LIKE prefix%` is the prefix test |
| `Paths.LikeIsPrefixIffWildcardFree` | src/icloud_ftp/encryption_backend.py:1382-1389 | and for no other prefix |
| `Paths.LikeCoversPrefix` | src/icloud_ftp/encryption_backend.py:1314-1319 | wildcards or not, the query misses nothing below the prefix |
| `Paths.MovedUnder` | src/icloud_ftp/encryption_backend.py:1390-1407 | moved paths land below the destination, one to one |
| `History.DeleteConserves` | src/icloud_ftp/encryption_backend.py:1329-1353 | a delete keeps every manifest named exactly when its version number is not in the history already |
| `History.TombstoneConserves` | src/icloud_ftp/encryption_backend.py:935-964 | a tombstone keeps every manifest named exactly when its version number is not in the history already |
| `History.CommitConserves` | src/icloud_ftp/encryption_backend.py:1234-1266 | a commit adds its manifest and loses none exactly when the version it replaces has a free number |
| `History.RelabelConserves` | src/icloud_ftp/encryption_backend.py:1369-1378 | a file rename names exactly the manifests it named before |
| `History.TidyNoClash` | src/icloud_ftp/encryption_backend.py:1086-1094 | in a tidy history the number of the current version is free: no conflict clause ever fires |
| `History.CommitTidy` | src/icloud_ftp/encryption_backend.py:1234-1266 | a commit under the next number keeps the history tidy |
| `History.DeleteTidy` | src/icloud_ftp/encryption_backend.py:1329-1353 | a delete keeps the history tidy |
| `History.TombstoneTidy` | src/icloud_ftp/encryption_backend.py:935-964 | a tombstone keeps the history tidy, and its number is free |
| `History.RelabelTidy` | src/icloud_ftp/encryption_backend.py:1369-1378 | a file rename keeps the history tidy exactly when the destination has no tombstone |
| `History.NewestStayTidy` | src/icloud_ftp/encryption_backend.py:1413-1440 | dropping all but the newest versions keeps the history tidy |
| `History.PurgeTidy` | src/icloud_ftp/encryption_backend.py:1437-1440 | purging a deleted path keeps the others tidy |
| `Vault.InsertChunkKeeps` | src/icloud_ftp/encryption_backend.py:782-800 | inserting the row of a stored chunk keeps the invariant |
| `Vault.InsertManifestKeeps` | src/icloud_ftp/encryption_backend.py:1184-1219 | inserting a manifest with its chunk list keeps the invariant |
| `Vault.CommitVersionKeeps` | src/icloud_ftp/encryption_backend.py:1226-1275 | the commit keeps the invariant when all parts of the new version are there |
| `Vault.DeleteFileKeeps` | src/icloud_ftp/encryption_backend.py:1329-1353 | the delete transaction keeps the invariant |
| `Vault.TombstoneMissingKeeps` | src/icloud_ftp/encryption_backend.py:935-964 | the tombstone transaction keeps the invariant |
| `Vault.RelabelFileKeeps` | src/icloud_ftp/encryption_backend.py:1369-1378 | the rename transaction keeps the invariant and moves the bytes with the path |
| `Vault.DropVersionsKeeps` | src/icloud_ftp/encryption_backend.py:1430-1435 | dropping history keeps the invariant and the bytes of every live path |
| `Vault.DropManifestKeeps` | src/icloud_ftp/encryption_backend.py:1509-1514 | dropping an unnamed manifest keeps the invariant and the bytes of every live path |
| `Vault.DropChunkKeeps` | src/icloud_ftp/encryption_backend.py:1529-1530 | dropping an unused chunk row keeps the invariant and the bytes of every live path |
| `Vault.RemoteDeleteKeeps` | src/icloud_ftp/encryption_backend.py:1461-1488 | removing a vault file that only unnamed rows speak of keeps the invariant: remote before row is safe |
| `Vault.RemotePutKeeps` | src/icloud_ftp/encryption_backend.py:729-731 | storing under a new id keeps the invariant: object before row is safe |
| `Vault.OutsideLossKeeps` | src/icloud_ftp/encryption_backend.py:865-900 | files removed by others are accounted for and break nothing else |
| `Vault.SweptFilesExpendable` | src/icloud_ftp/encryption_backend.py:1490-1530 | the files of rows that nothing names or uses may go |
| `Layout.ChunkListUnique` | src/icloud_ftp/encryption_backend.py:854-863 | a manifest has one chunk list: contiguous positions determine it |
| `Layout.SizesSum` | src/icloud_ftp/encryption_backend.py:1184-1210 | the bytes a list spells are as many as its sizes add up to |
| `Backend.EncryptedBackend.FindMissing` | src/icloud_ftp/encryption_backend.py:885-919 | exactly the live paths with a part that the listings do not show |
| `Backend.EncryptedBackend.ListVault` | src/icloud_ftp/encryption_backend.py:870-884 | three listings; when no call fails, exactly what is in the vault |
| `Backend.EncryptedBackend.SettleMissing` | src/icloud_ftp/encryption_backend.py:909-964 | one transaction counts, resets and tombstones: counters equal the streaks before and after |
| `Backend.EncryptedBackend.Reconcile` | src/icloud_ftp/encryption_backend.py:865-965 | a scan is completed exactly when the interval since the last one has passed, unless a call fails or the process stops, and the next interval begins with it; it tombstones exactly the paths missed in enough consecutive scans over a long enough time; an incomplete one changes nothing |
| `Observations.RecordScan` | src/icloud_ftp/encryption_backend.py:909-929 | the first two loops: rows for exactly the missed paths, each counted once more |
| `Observations.ScanCounted` | src/icloud_ftp/encryption_backend.py:909-964 | the stored count is the number of latest consecutive scans that missed the path, and the confirmed paths are those whose streak is long and old enough |
| `Observations.GoodScanResets` | src/icloud_ftp/encryption_backend.py:909-929 | after one good scan the path has no row, and the next miss is counted as the first |
| `Observations.StreakBound` | src/icloud_ftp/encryption_backend.py:885-965 | all scans of a streak missed the path, and the one before it did not or settled it |
| `Observations.TombstoneAll` | src/icloud_ftp/encryption_backend.py:935-964 | each confirmed path leaves the files and joins the history, and nothing else changes |
| `Steps.NothingLostNothingMissing` | src/icloud_ftp/encryption_backend.py:885-919 | a scan that met no failure finds nothing missing when nothing was removed from outside |
| `Backend.EncryptedBackend.DeleteRemote` | src/icloud_ftp/encryption_backend.py:1461-1488 | object, then key; what is already gone is no failure; success means both are gone |
| `Backend.EncryptedBackend.SweepManifest` | src/icloud_ftp/encryption_backend.py:1504-1514 | a manifest goes with its list only after its files; files that cannot be removed keep the row |
| `Backend.EncryptedBackend.SweepManifests` | src/icloud_ftp/encryption_backend.py:1491-1514 | only unnamed manifests go, and all of them unless a call failed |
| `Backend.EncryptedBackend.SweepChunk` | src/icloud_ftp/encryption_backend.py:1524-1530 | a chunk row goes only after its files |
| `Backend.EncryptedBackend.SweepChunks` | src/icloud_ftp/encryption_backend.py:1515-1530 | only unused chunks go, and all of them unless a call failed |
| `Backend.EncryptedBackend.RemoveUnknown` | src/icloud_ftp/encryption_backend.py:1534-1571 | only files without a row go; when no call fails, exactly those with a known time before the grace period |
| `Backend.EncryptedBackend.CollectGarbage` | src/icloud_ftp/encryption_backend.py:1490-1532 | no name, upload or pin is touched; nothing reachable goes; when no call fails exactly what is reachable stays, and with the scan of the vault no old file without its row |
| `Steps.CollectionIsExact` | src/icloud_ftp/encryption_backend.py:1490-1530 | after a collection without failure the manifests and chunks left are exactly the kept and the reachable ones |
| `Steps.CollectionIsFixedPoint` | src/icloud_ftp/encryption_backend.py:1490-1530 | and another collection would find nothing |
| `Steps.CollectedInTwoPasses` | src/icloud_ftp/encryption_backend.py:1490-1530 | one pass over manifests and then one over chunks is enough |
| `Steps.StaleNeverCommits` | src/icloud_ftp/encryption_backend.py:760-768 | a chunk row whose files were removed is never in a version that is committed, since the commit saw all its parts and old files never come back |
| `Steps.FailureLeavesNeeded` | src/icloud_ftp/encryption_backend.py:1279-1294 | after a failed upload whose sweep met no failure the rows left are exactly those needed before it: a stale chunk row goes unless another kept manifest or another upload holds on to it |
| `Steps.ReachableAsBefore` | src/icloud_ftp/encryption_backend.py:1515-1530 | what a failed upload leaves reachable is what was reachable before it |
| `Backend.EncryptedBackend.ApplyRetention` | src/icloud_ftp/encryption_backend.py:1420-1435 | a live path keeps exactly the versions with fewer newer ones than the option for a file of its size allows, the current version counted |
| `Backend.EncryptedBackend.ApplyRetentions` | src/icloud_ftp/encryption_backend.py:1595-1597 | every live path is within the limit for its size, and exactly the versions beyond it went |
| `Backend.EncryptedBackend.ExpireHistory` | src/icloud_ftp/encryption_backend.py:1585-1593 | exactly the history archived before the cutoff goes, all of it when the period is zero |
| `Backend.EncryptedBackend.PurgeAllDeleted` | src/icloud_ftp/encryption_backend.py:1599-1601 | the histories of deleted paths go, and their tombstones |
| `Backend.EncryptedBackend.LimitHistory` | src/icloud_ftp/encryption_backend.py:1585-1601 | steps 1 to 3 leave exactly the unexpired history, within the limit for each size, of paths not deleted |
| `Backend.EncryptedBackend.PruneToCapacity` | src/icloud_ftp/encryption_backend.py:1603-1616 | the loop ends within the limit or with no history left, and dropped the shortest oldest-first prefix that suffices |
| `Backend.EncryptedBackend.Retain` | src/icloud_ftp/encryption_backend.py:1585-1616 | the four retention steps together |
| `Backend.EncryptedBackend.Gc` | src/icloud_ftp/encryption_backend.py:1573-1627 | it runs exactly when forced or due. Current files stay; the versions left are exactly the unexpired ones of paths not deleted with few enough newer ones for the size of the file, less the oldest, which the capacity took; the capacity is met or history is empty; the reported bytes are the usage. After a run without failures nothing uncollected and no old file without its row is left, and with no upload in flight the usage is the sum over all rows |
| `Backend.EncryptedBackend.RetainedVersions` | src/icloud_ftp/encryption_backend.py:1581-1616 | which versions the four steps leave, from the sizes, the options and the times alone |
| `Backend.EncryptedBackend.CollectAndStamp` | src/icloud_ftp/encryption_backend.py:1617-1627 | step 5, the usage reported, and the time of the run, last |
| `Retention.StoredUsage` | src/icloud_ftp/encryption_backend.py:1442-1459 | the query counts each named manifest and each chunk they share once |
| `Retention.ManifestCounts` | src/icloud_ftp/encryption_backend.py:1442-1459 | the stored size of a manifest counts once, if a file or a version names it, and otherwise not |
| `Retention.ChunkCounts` | src/icloud_ftp/encryption_backend.py:1442-1459 | the stored size of a chunk counts once, if a named manifest lists it, and otherwise not |
| `Retention.NothingCounts` | src/icloud_ftp/encryption_backend.py:1442-1459 | and nothing else counts |
| `Retention.UsageFalls` | src/icloud_ftp/encryption_backend.py:1603-1616 | dropping history never raises the usage |
| `Retention.UsageCollected` | src/icloud_ftp/encryption_backend.py:1490-1530 | collecting does not change the usage |
| `Retention.SweptUsage` | src/icloud_ftp/encryption_backend.py:1617-1627 | with no upload in flight, after a clean sweep, the usage is the sum over all rows |
| `Retention.OldestGoes` | src/icloud_ftp/encryption_backend.py:1606-1616 | dropping the oldest version of all leaves each path its newest |
| `Retention.ExpiryGoes` | src/icloud_ftp/encryption_backend.py:1585-1593 | so does dropping all that was archived before a time |
| `Retention.RankIsIndex` | src/icloud_ftp/encryption_backend.py:1426-1431 | row i of the descending query has exactly i newer versions |
| `Retention.KeepFirst` | src/icloud_ftp/encryption_backend.py:1430-1435 | keeping the first rows of the query keeps exactly the versions with few enough newer ones |
| `Retention.PrunedOneMore` | src/icloud_ftp/encryption_backend.py:1603-1616 | one more round of the capacity loop, still the shortest oldest-first prefix |
| `Retention.HistoryDescending` | src/icloud_ftp/encryption_backend.py:1426-1429 | the versions of a path in descending order, each once |
| `Counterexamples.RenameIntoItselfBreaksTheTree` | src/icloud_ftp/encryption_backend.py:1359-1362 | a directory renamed into itself is let through and orphans itself |
| `Counterexamples.RenameOntoTombstonesMixesHistories` | src/icloud_ftp/encryption_backend.py:1363-1367 | a directory rename clears the tombstone of the destination alone: a path below becomes live and tombstoned at once |
| `Counterexamples.RefusedRenameForgets` | src/icloud_ftp/encryption_backend.py:1363-1380 | a rename of a missing source to a tombstoned destination is refused, and the history of the destination is gone |
| `Counterexamples.WildcardPicksAnotherSubtree` | src/icloud_ftp/encryption_backend.py:1382-1389 | `_` in a directory name selects files of another directory |
| `Counterexamples.WildcardRenameTakesAnotherSubtree` | src/icloud_ftp/encryption_backend.py:1382-1401 | and a rename takes them along |
| `Capsules.UnwrapFaithful` | src/icloud_ftp/encryption_backend.py:608-661 | a faithful capsule yields its data key or nothing, and with the recovery secret always its data key |
| `Capsules.UnwrapComesFrom` | src/icloud_ftp/encryption_backend.py:608-661 | a data key comes out of an undamaged envelope of this broker that is bound to the object, or out of a recovery wrap that is, and from nowhere else |
| `Rotation.AppendKeeps` | src/icloud_ftp/encryption_backend.py:1674-1679 | a new envelope at the end takes nothing from any broker that could open the capsule, nor from recovery |
| `Rotation.FinalizeKeeps` | src/icloud_ftp/encryption_backend.py:1725-1737 | the one envelope of the new broker opens for it what the whole capsule did |
| `Rotation.BrokerSeesFirst` | src/icloud_ftp/encryption_backend.py:616-632 | a broker without the recovery secret gets what its first envelope holds, or nothing |
| `Rotation.ResumedRunsAgree` | src/icloud_ftp/encryption_backend.py:1643-1739 | a resumed run changes nothing where an earlier one has been, finalized or not |
| `Rotation.FinalizedOpensFor` | src/icloud_ftp/encryption_backend.py:608-661 | a finalized capsule opens exactly for the new broker and for the recovery secret |
| `Rotation.EnoughVerified` | src/icloud_ftp/encryption_backend.py:1710-1717 | after the first loop the count of verified rows is never too small |
| `Rotation.KeyRotation.AddEnvelope` | src/icloud_ftp/encryption_backend.py:1671-1694 | the `try` block: the new broker opens the capsule and the row says so; whatever happens nobody loses access. When no call fails it succeeds exactly when this process opens the capsule and an envelope for the new broker that is there already opens |
| `Rotation.KeyRotation.AddToCapsule` | src/icloud_ftp/encryption_backend.py:1652-1709 | one round: VERIFIED on success, FAILED on an exception, capsules and counter in step |
| `Rotation.KeyRotation.AddEnvelopes` | src/icloud_ftp/encryption_backend.py:1650-1709 | after the first loop the new broker opens every capsule, and when no call fails it gets there exactly when each can be done; stopped anywhere, each is as it was or with the new envelope |
| `Rotation.KeyRotation.FinalizeCapsule` | src/icloud_ftp/encryption_backend.py:1718-1737 | old envelopes go only when the new one has just been checked, and when no call fails exactly when there is one and this process opens the capsule |
| `Rotation.KeyRotation.FinalizeAll` | src/icloud_ftp/encryption_backend.py:1710-1738 | stopped anywhere, each capsule is as it was or has the new envelope alone; the broker changes at the end only |
| `Rotation.KeyRotation.Rewrap` | src/icloud_ftp/encryption_backend.py:1643-1739 | the exact capsules after a run, and the three each may be in after an interrupted one; the count of changed capsules; and when no call fails, success exactly when every capsule can be opened and, for finalizing, none has two envelopes for the new broker |
| `Rotation.AddedFinalizable` | src/icloud_ftp/encryption_backend.py:1671-1737 | after the first loop a capsule can be finalized exactly when it had at most one envelope for the new broker to begin with |
| `Rotation.RotateInRuns` | src/icloud_ftp/encryption_backend.py:1643-1739 | over any number of interrupted and resumed runs every capsule keeps its data key for recovery, for the old broker until finalized, and for the new broker once a finalizing write has begun; and after a run that ended well the new broker opens every one |
| `Gateways.Deployment.Begin` | src/icloud_ftp/encryption_backend.py:1088-1094 | an upload remembers the row at its path, and the number after it, or after the newest in history |
| `Gateways.Deployment.Commit` | src/icloud_ftp/encryption_backend.py:1226-1275 | the commit goes through exactly when that manifest is still current, and archives exactly that version |
| `Gateways.CommitInTurn` | src/icloud_ftp/encryption_backend.py:1226-1275 | a commit keeps the turns of all other uploads in order |
| `Gateways.TakeTurns` | src/icloud_ftp/encryption_backend.py:1226-1275 | in every interleaving of the transactions of several gateways no version is replaced twice, and what was replaced is current nowhere |
| `Gateways.DeleteOnlyMoves` | src/icloud_ftp/encryption_backend.py:1329-1353 | deletes and tombstones make no row of their own |
| `Gateways.RelabelOnlyMoves` | src/icloud_ftp/encryption_backend.py:1369-1378 | nor do renames |
| `Gateways.FirstCreationCanClash` | src/icloud_ftp/encryption_backend.py:1086-1094 | an upload to a free path, overtaken by one committed and deleted, gets a number history has, and a later replacement loses a version |
| `Gateways.DeleteWithConserves` | src/icloud_ftp/encryption_backend.py:1326-1353 | a delete with any row read earlier keeps every manifest exactly when that row is still current and its number free, or the file is gone and its manifest still in its place |
| `Gateways.NamedDelete` | src/icloud_ftp/encryption_backend.py:1326-1353 | which manifests are named after a delete with some row |
| `Gateways.StaleDeleteLosesAReplacement` | src/icloud_ftp/encryption_backend.py:1326-1353 | a delete whose row was replaced in between removes the new version without a trace |
| `BrokerPolicy.KeyBrokerPolicy.Init` | src/icloud_ftp/keybroker.py:521-529 | limits below one are refused |
| `BrokerPolicy.KeyBrokerPolicy.AdmitRequest` | src/icloud_ftp/keybroker.py:531-542 | for any reading, the answer and the deque; and while the readings are in the order of the lock, admission exactly when the last sixty seconds have room and a slot is free, and the deque is the admissions of that window |
| `BrokerPolicy.KeyBrokerPolicy.ReleaseRequest` | src/icloud_ftp/keybroker.py:544-545 | a slot is given back only if one is taken |
| `BrokerPolicy.WindowBound` | src/icloud_ftp/keybroker.py:531-542 | no sixty seconds, wherever they begin, hold more admissions than the limit |
| `BrokerPolicy.AdmitSpaced` | src/icloud_ftp/keybroker.py:537-541 | admitting into a window with room keeps any limit+1 admissions a window apart |
| `BrokerPolicy.PruneWithin` | src/icloud_ftp/keybroker.py:534-536 | the loop at the front of the deque drops exactly what has left the window |
| `BrokerPolicy.Serve` | src/icloud_ftp/keybroker.py:446-512 | over whole runs of arriving and ending requests in-flight requests equal taken slots and every admitted request gives its slot back once; with readings in order no sixty seconds hold too many admissions |
| `BrokerPolicy.WindowedStep` | src/icloud_ftp/keybroker.py:531-542 | one call with a reading in order keeps the window right |
| `BrokerPolicy.PrunedIsSuffix` | src/icloud_ftp/keybroker.py:534-536 | the loop at the front of the deque drops exactly the leading entries that have left the window |
| `BrokerPolicy.OrderIsNeeded` | src/icloud_ftp/keybroker.py:531-536 | the clock is read before the lock: the bound holds in all such histories exactly when the readings do not go back |
| `BrokerPolicy.OutOfOrderReadings` | src/icloud_ftp/keybroker.py:531-536 | a run with readings out of order in which the bound fails |
| `Lease.Coordinators.Enter` | src/icloud_ftp/coordination.py:50-64 | when the server answers, a client is told that the key is held exactly when it is, and otherwise goes in with a lease; a lease is granted only while no other lease on the file is in force; a server that is not there or does not answer lets the block go on without one |
| `Lease.Coordinators.Renew` | src/icloud_ftp/coordination.py:67-79 | only the owner of the key extends it, and always when the server answers; a lapsed lease is not renewed and touches nobody |
| `Lease.Coordinators.Leave` | src/icloud_ftp/coordination.py:83-94 | only the owner of the key deletes it, and always when the server answers |
| `Lease.Coordinators.Pass` | src/icloud_ftp/coordination.py:56-56 | a lock that nobody renews is free after one lease time |
| `Lease.Coordinators.Exclusive` | src/icloud_ftp/coordination.py:53-94 | two blocks on one file whose leases are in force are one block |
| `Lease.Interleave` | src/icloud_ftp/coordination.py:53-94 | at every point of every interleaving of any number of clients no file has two blocks with leases in force; two blocks are inside one file only if, for one of them, there is no server, it did not answer, or the lease has run out |
| `Lease.EnterSound` | src/icloud_ftp/coordination.py:55-64 | entering keeps every lease in force covered by its key on the server |
| `Lease.RenewSound` | src/icloud_ftp/coordination.py:67-79 | renewing, answered or not, keeps them covered |
| `Lease.LeaveSound` | src/icloud_ftp/coordination.py:85-94 | leaving, answered or not, keeps the others covered |
| `Lease.PassSound` | src/icloud_ftp/coordination.py:56-56 | so does the passing of time |
| `Ranges.SliceWriter.Write` | src/icloud_ftp/webdav.py:46-55 | what was sent is always the slice of what was written so far, for pieces of any size; a broken connection has sent the beginning of it |
| `Ranges.SliceGrows` | src/icloud_ftp/webdav.py:46-55 | one more piece adds to the slice exactly its part between the two ends |
| `Ranges.Measure` | src/icloud_ftp/webdav.py:276-300 | for every spelling of one byte range: `a-b`, `a-` and `-b` are answered exactly when section 14.1.2 of RFC 9110 gives them a meaning and the last position is in the file, and then with just those bytes; otherwise 416; every other header is an error |
| `Ranges.CutSpells` | src/icloud_ftp/webdav.py:280-282 | a header is cut at its first dash and nowhere else, and only if it asks for bytes and one range |
| `Ranges.SendFile` | src/icloud_ftp/webdav.py:267-315 | the answer to the header, and a finished body is exactly content[start..end] for every split of the content, and as long as announced; it is finished exactly when the download ends well and the connection holds; an unfinished one is the beginning of it |
| `Ranges.LengthAgrees` | src/icloud_ftp/webdav.py:301-309 | the body has the announced length exactly when the file still reaches the end of the range |
| `Blobs.EncryptBlob` | src/icloud_ftp/encryption_backend.py:663-681 | the file with its tag patched in is exactly header, tag and masked text |
| `Blobs.DecryptBlob` | src/icloud_ftp/encryption_backend.py:684-710 | the streaming reader answers exactly what the file opens to |
| `Blobs.DecryptRest` | src/icloud_ftp/encryption_backend.py:703-707 | reading in pieces deciphers all of the rest |
| `Blobs.EncryptedBytes` | src/icloud_ftp/encryption_backend.py:663-681 | byte for byte: the magic, the nonce, the tag over the rest, and under the mask the length of the metadata, the metadata and the content |
| `Blobs.RoundTrip` | src/icloud_ftp/encryption_backend.py:663-710 | an encrypted blob opens to its metadata and content exactly when the metadata is at most 1 MiB |
| `Blobs.OnlyEncryptedOpens` | src/icloud_ftp/encryption_backend.py:684-710 | whatever opens is the encryption of what it opens to |
| `Blobs.PackedBack` | src/icloud_ftp/encryption_backend.py:674-674 | four bytes give the length back |
| `Blobs.UnpackedBack` | src/icloud_ftp/encryption_backend.py:696-696 | and any four bytes are the packing of the length they give |
| `Blobs.AadInjective` | src/icloud_ftp/encryption_backend.py:557-569 | two well-formed capsules with the same additional data have the same id, KEM, mode, ciphertext and ephemeral key |
| `Blobs.AadSpelled` | src/icloud_ftp/encryption_backend.py:557-569 | byte for byte: the prefix, and the five parts with a zero byte between them |
| `Blobs.AadNeedsTheLength` | src/icloud_ftp/encryption_backend.py:642-649 | without the rule on the ephemeral key that is false |

## Left out

* Legacy v1 files, their downloads and their migration; the columns `format_version`, `origin` and `generation`.
* Real cryptography: AES-GCM, ML-KEM, X25519, HKDF and the hash functions are symbols with the laws above, and a data key is named by the object it was drawn for.
* JSON text: metadata and descriptors are the values they encode; `Blobs` takes metadata already encoded.
* PostgreSQL interleaving inside a transaction; `Gateways` interleaves whole transactions.
* Collections of one gateway racing uploads of another: `Backend` has one gateway under its lock, and `Gateways` models names, not the vault.
* SQLite's case-insensitive `LIKE` for ASCII letters; `Paths.Like` is the case-sensitive form.
* The order of a listing (`casefold`), `stat`, `checksum` and `version`: single reads of a row.
* `_ensure_ready` creating the vault's directories and refusing plaintext beside it: here one listing that may fail.
* Directory rows and key rows are without the timestamps nobody reads; the error text of an upload.
* The upload adapter over `icloudpy` in `src/icloud_ftp/backend.py`: only that a call may fail, and may have taken effect, is kept.
* Anomaly counters, safe mode, audit log, CLI, configuration, SMS sign-in, TLS, XML and the HTTP plumbing around `_send_file`.
* Rotation beside other operations: the set of capsules does not change during a rotation.
* A process that stops gives its lease up by time alone; the renewal thread is the `Renew` move, taken at any time.
* A renewal still on its way when its block is left: the script would find the key gone.
* Rounding of clock readings: times are integers in the gateway and reals in the broker's window.
