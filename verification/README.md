# debpub: a model and its proofs

debpub keeps a Debian repository without a database. The stored `Packages` texts are the data, a
`.lock` object serialises the publishers of a codename, and a browser reads everything back into
memory. This project models that core and proves what it is meant to keep.

- **Lock and publishers** (`LockProtocol` to `HeartbeatTiming`, `PublishProtocol` to
  `LockedResults`). Any number of workers over one store, one step for each storage call, with
  heartbeat writes that are issued and land separately, a clock, crashes and failing calls. Mutual
  exclusion of the lock, the exact time its heartbeats need, referential integrity at every crash
  point, no lost update, and what a publish leaves behind when it ends.
- **The code over that protocol** (`SharedWorld`, `LockerCode`, `StorageCode`, `PublisherCode`, `CodeRuns`).
  `Acquire`, `Release` and `PublishDebFiles` as methods over one shared store, in which the other
  processes take any step the protocol allows between and during the calls. Every step the methods
  take is proved to be a step of the protocol, so the theorems about runs apply to the code; and a
  call gives up, fails, or takes a stored index for empty only where its context was cancelled, a
  storage call failed, or a read broke off.
- **Versions** (`VersionOrder`, `VersionLaws`). The two-pointer loop of `compareParts` against the
  order of Debian Policy, section 5.6.12, that order as a total preorder on all strings, and which of
  two texts comes first.
- **Texts** (`Deb822` to `IndexSurvival`, `Release`, `ReleaseReading`). The printer and the
  line-driven parser of control paragraphs, typed stanzas, the index, and the Release file, each
  with the exact domain on which printing and reading undo each other, and with what is written
  character by character (`Deb822Laws`, `StanzaFields`).
- **Index and browser** (`PackageIndex`, `IndexCode`, `Paths`, `Browser*`). Keyed updates, the cache
  over any series of syncs, the views made from it, and that what is published is seen in them.

## Hypotheses

Each main result names the hypotheses it needs as a predicate in its contract.

| hypothesis | meaning | used by |
|---|---|---|
| holders are distinct | a worker is identified by its holder string | all lock results |
| atomic `PutIfNotExist` | as the storage interface promises (`internal/storage/storage.go:29-31`) | all lock results |
| one TTL | all workers of a codename are configured alike | all lock results |
| `NoStaleReads` | no record is read as expired or unparseable | `ExclusionWithoutStaleReads`, `NoStaleReadsSuffice` |
| `GoodSchedule` | of the changes others may make to the lock object between a worker's second look and its delete, which are two storage calls, only those of a `SafeGap` occur: no heartbeat write, and either no put or neither breaks nor releases | `ExclusionWithRecovery`, `TimedExclusion`; `SafeGap` and `Respects` in `TimingSuffices` and `InTime` |
| `OnTimeRun` | calls end within d, ticks are taken in time, no heartbeat write is lost | `TimedExclusion`, `WorkNeeds` and its companions |
| `Margin` | 4d + max(ttl / 2, 10s) <= ttl | `TimedExclusion`, `TimingSuffices` |
| `LockedRun` | the lock excludes throughout; implied by either of the two `...Suffice(s)` lemmas | no lost update, `LockedResults` |
| `AllCareful` | publishes of the codename preserve versions and read existing indexes without error | no lost update |
| `StoreKeyed` | what the first state stores can be read in one way only, with keys that fit on lines | no lost update |
| `PlainJob`, `PlainManifest` | configured texts fit on lines, names are words | `ReleaseMatchesStore`, `ReleaseReadBack`, `PublishedIsLearned` |
| `PlainView` | package names without underscores | `ViewsAgree` only; the exact condition is `AgreeExactly` |
| `Fate` | what goes wrong with the n-th storage call of a process, and when its context is cancelled, are parameters that its code cannot choose | `Acquire`, `PublishDebFiles` |
| `CarefulWorld` | no read of the process has broken off, and it and the others preserve versions; the others read without error | `NothingLost` |
| `GoodJob` | control records come from the parser, names are legal path elements | publishing |
| `GoodTools` | decompression undoes compression, the plain variant is the text, hashes are hexadecimal | publishing |

Texts are ASCII, every line is within the scanner's 16 MB, and a file
does not change between its inspection and its upload. The other publishers of a codename are bound
by the lock only through the protocol; publishers of other codenames are not bound by it at all and
share the pool.

## Findings

Statements one would expect that are false of the code, each with the runs or inputs that show it
and the exact condition under which it holds.

| expectation | what is the case | where |
|---|---|---|
| two looks at a stale lock make its deletion safe | others may change the lock object between the second look and the delete: with ttl at least 1 the lock excludes in all runs with unexpired live records if and only if no heartbeat write falls there, and either no put does or neither breaks nor releases do; for every other choice there is a run that ends with two live workers inside, one of them by deleting a live, unexpired lock | `LockRecovery.ExclusionExactly`, `InterruptedBreakFails` |
| 2d + max(ttl / 2, 10s) <= ttl keeps the record of a working holder unexpired | only for a worker alone; with late writes of former holders exactly 3d is needed while working, and 4d up to the end of Release (2d and 3d alone) | `HeartbeatTiming.WorkNeeds`, `ReleaseNeeds`, `SoloWorkNeeds`, `SoloReleaseNeeds` |
| a publish adds to the index it finds | a read that breaks off counts as an empty index: with preserved versions the stored keys survive if and only if the batch holds them all | `PublishKeys.TornLoses` |
| publishes of different codenames do not disturb each other | they share the pool: an upload breaks another codename's checksums if and only if it puts other bytes, by size or hash, where an index of that codename names a file | `PublishAgreement.UploadKeepsExactly`, `LockedResults.ChecksumAgreement` |
| an indented continuation line survives a publish | every printing and reading takes one blank of its indentation | `Deb822Canonical.IndentErodes`, exact domain in `ValueRoundTrip` |
| two views of the browser name the same packages | not when identifiers coincide: `a_b` in version `1` and `a` in version `b_1` are one; they agree if and only if every package has an identifier of its own | `BrowserViews.UnderscoresDisagree`, `AgreeExactly` |

Two oddities of the parser are modelled as they are: the value of a line with an empty name, such as
`: text`, runs into the value of the next field (`Deb822Laws.OrphanRunsOn`); and empty lines at the
start of a multi-line value come back, while later ones do not (`LinesAreRead`).

## Model

| member | source | states |
|---|---|---|
| LockProtocol.ExclusionWithoutStaleReads | internal/lock/locker.go:80-252 | In every run in which no record is read as stale, at most one worker is between the effect of its put and the end of Release, however late the writes of former holders land |
| LockRecovery.ExclusionWithRecovery | internal/lock/locker.go:122-144 | With crashes and stale locks, if only safe changes come between second look and delete and live records are unexpired: mutual exclusion, and no break ever deletes a live worker's lock |
| LockRecovery.InterruptedBreakFails | internal/lock/locker.go:135-142 | For every unsafe set of changes in that gap, a run with those changes only, in which no live record ever expires and two live workers end up inside |
| LockRecovery.ExclusionExactly | internal/lock/locker.go:122-144 | For any ttl of at least 1, the lock excludes in all runs in which only the changes permitted fall into that gap and no live record expires, if and only if they are safe: no heartbeat write, and either no put or neither breaks nor releases |
| LockTiming.TimedExclusion | internal/lock/locker.go:80-252 | In every timed run of any number of workers with 4d + max(ttl/2, 10s) <= ttl: mutual exclusion, and the record of a live worker is there and has not expired |
| HeartbeatTiming.WorkNeeds | internal/lock/locker.go:97-219 | Over all timed runs, records are unexpired while their holders work if and only if 3d + max(ttl/2, 10s) <= ttl |
| HeartbeatTiming.ReleaseNeeds | internal/lock/locker.go:97-252 | The same up to the end of Release if and only if 4d + max(ttl/2, 10s) <= ttl |
| HeartbeatTiming.SoloWorkNeeds | internal/lock/locker.go:97-219 | For a worker alone on a lock nobody else has written: if and only if 2d + max(ttl/2, 10s) <= ttl |
| HeartbeatTiming.SoloReleaseNeeds | internal/lock/locker.go:223-252 | For that worker up to the end of Release: if and only if 3d + max(ttl/2, 10s) <= ttl |
| LockerCode.Locker.Acquire | internal/lock/locker.go:80-164 | For every behaviour of the others and all random delays: it is cancelled only when its context is, fails only when the last call, a put, has failed, and times out only after its deadline; every other put has found the lock object, and there is at least one unless the context was cancelled before. Puts are at least 100 ms apart and at most 5 s and four calls; behind a look at a fresh lock a second passes, behind the sixth and later ones three. It ends within 5 s and four calls of its deadline, holding the lock with a fresh heartbeat channel exactly when it succeeds |
| LockerCode.Locker.TryUntil | internal/lock/locker.go:88-163 | The retry loop ends, with the reason for which it ended; all its puts but the last have found the lock object, and the time it took is bounded from both sides by their number and by that of the looks at a fresh lock |
| LockerCode.Locker.NextRound | internal/lock/locker.go:89-120 | A round puts exactly once, unless the context is cancelled or the deadline has passed, and these are the only two ways to give up at its start |
| LockerCode.Locker.BackOff | internal/lock/locker.go:146-160 | After a fresh look it waits 1 to 2 s, from the sixth on 3 to 5 s, or until the context is cancelled |
| LockerCode.Locker.BreakStale | internal/lock/locker.go:124-144 | After a stale look: 100 to 500 ms later a second look, and exactly if that record is stale too and has the same holder, or the first one was unparseable, a delete; then the worker is back in the loop, without a put, or stopped by its context |
| LockerCode.Locker.CheckStale | internal/lock/locker.go:166-189 | The verdict on what was read: unparseable, or a non-zero expiry in the past; a read error is not stale |
| LockerCode.Locker.Release | internal/lock/locker.go:223-252 | The heartbeat channel is closed exactly once, the lock object is deleted unless it names another holder or is gone, and it ends within two calls, with an error only when the last of them has failed |
| LockerCode.Locker.Alone | internal/lock/locker.go:80-252 | Between Acquire and Release, whatever steps the others took, nobody else is inside if no record was ever read as stale |
| LockerCode.Locker.AloneInTime | internal/lock/locker.go:80-252 | The same, whatever stale locks were broken, if the run was in time with the 4d margin and only safe changes fell into gaps; then the record is there and has not expired |
| PublishIntegrity.ReferentialIntegrity | internal/repo/publisher.go:107-206 | In every run of any publishers, locked or not, stopped after any step: whatever a reader makes of any stored index, the file of every stanza is in the pool |
| CodeRuns.IntactThroughout | internal/repo/publisher.go:107-206 | The same for every state that a run of the code passes through, with crashes and lock steps in between |
| PublishKeys.NoLostUpdate | internal/repo/publisher.go:152-195 | While at most one publisher of a codename is active, every stored Packages reads as the fold of the groups written to it |
| PublishKeys.FinishedIsKept | internal/repo/publisher.go:152-236 | The keys of a finished publish are in the fold at every later state |
| PublishKeys.TornLoses | internal/repo/publisher.go:161-170 | After a broken read of an existing index, the text about to be written holds given keys, for every reader, if and only if the batch does |
| LockedPublishing.LockedIndexIsFold | internal/repo/publisher.go:98-195 | Under the lock, with publishes of other codenames at any time: every stored Packages of the codename reads, for every reader, as the fold of the groups written to it in the order of the lock |
| LockedPublishing.CompletedIsNeverLost | internal/repo/publisher.go:98-236 | The keys of every completed publish are in that fold at every later state |
| LockedPublishing.NoStaleReadsSuffice | internal/repo/publisher.go:98-105 | Joint runs of lock and publishers exclude throughout if no record is read as stale |
| LockedPublishing.TimingSuffices | internal/repo/publisher.go:98-105 | They do so, with crashes and stale locks, if calls and ticks are in time, Margin holds, and only safe changes fall between second look and delete |
| LockedResults.OthersOutside | internal/repo/publisher.go:98-105 | Under the lock no other publish of the codename takes a step between the first step of a publish and its Release file |
| LockedResults.StaysCompleted | internal/repo/publisher.go:107-236 | So from its Release file to the next publish of the codename, every index of the batch holds the merge of what was stored when the publish began, or of nothing where a read of it broke off, and all other indexes of the codename are as they were |
| LockedResults.ChecksumAgreement | internal/repo/publisher.go:107-206 | If every stanza of the codename agreed with its file when a publish under the lock began, every one agrees when it has finished if and only if every last upload of another codename to a named file has the size and hashes of the file it replaces; also when the batch holds several files of one key |
| LockedResults.LatestRemains | internal/repo/publisher.go:172-206 | Without preserved versions every variant of a written index has, for every package of the batch, exactly one stanza, the latest of the batch; every other name has the stanzas found, with their keys and every one-line field; and all are in the written order. What was found is what was stored, unless a read broke off |
| LockedResults.ReleaseMatchesStore | internal/repo/publisher.go:208-236 | The reader of the Release file finds its configured texts, and under MD5Sum, SHA1, SHA256 and SHA512 one line for each of the four variants of every architecture of the batch and no other, sorted by path: the hash of the object stored at that path, a number that is its size, and the path |
| LockedResults.FinishedHasPublished | internal/repo/publisher.go:98-236 | Every publisher that has finished has begun its job and written its Release file, in this order and with no other beginning between, whether or not reads broke off, so the results apply to it |
| PublishAgreement.AgreesExactly | internal/repo/publisher.go:132-146 | Indexes that agree with one pool agree with another if and only if every file they name has the same size and hashes there |
| PublishAgreement.UploadKeepsExactly | internal/repo/publisher.go:122-129 | An upload of any codename leaves a codename in agreement if and only if it does not change the size or a hash of a file that the codename names |
| PublishAgreement.CompletedAgrees | internal/repo/publisher.go:107-206 | A completed merge agrees with the pool as the publish's own uploads make it |
| MergeAgreement.MergeAgrees | internal/repo/publisher.go:172-175 | Merging a group keeps every stanza in agreement with the pool after the uploads, since both follow the batch order and the last file of a key wins in both |
| Paths.PathsDiffer | internal/repo/publisher.go:268-278 | Legal pool files, indexes and Release files with the same path are the same; a directory letter that is a dot is dropped from the path, as path.Join does |
| PublishProtocol.UploadedAs | internal/repo/publisher.go:117-144 | The stanza of an uploaded file names it by component, directory letters, package, version and architecture |
| Paths.LibraryPath | internal/repo/publisher.go:268-278 | A library is stored under the four letters of its name, its name, and name_version_architecture.deb |
| Paths.PackagePath | internal/repo/publisher.go:268-278 | Any other package, lib itself too, under its first letter |
| Paths.DistsPaths | internal/repo/publisher.go:155-184 | The paths of the four variants of an index and of the Release file |
| PublisherCode.SortBatch | internal/repo/publisher.go:83-95 | The batch is permuted into byte order of packages, then of architectures, with older versions first |
| PublisherCode.GroupByArch | internal/repo/publisher.go:132-146 | One group for every architecture of the batch and no other, holding its stanzas in batch order |
| PublisherCode.Engine.LoadIndex | internal/repo/publisher.go:157-170 | The stored index as it can be read; the empty one exactly where there is none or the read of it broke off; any other error, and no other reason, ends the publish |
| PublisherCode.Engine.UpdateIndex | internal/repo/publisher.go:152-205 | Reading, merging and writing one index, by steps of the protocol that fit the outcome of each call, with a checksum for every variant; it gives up only when the last call has failed |
| PublisherCode.Engine.PublishDebFiles | internal/repo/publisher.go:52-265 | Every step the call takes as a publisher is one of the joint protocol, taken while holding the lock; it begins exactly one publish, of the sorted batch, and releases it with the given date if it succeeds; it fails only without files, or when the lock was not acquired and why, or when one of its storage calls failed; if no read of the process has broken off it has taken no stored index for empty; on every path the publish is over and the lock is given back |
| CodeRuns.Published | internal/repo/publisher.go:98-105 | After a successful call the run so far is a run of the lock and the publishers in which the job was begun and finished, without a broken read if no read of the process broke off, and the lock excluded in it if no record was read as stale, or if the run was in time, whatever stale locks were broken |
| CodeRuns.NothingLost | internal/repo/publisher.go:52-236 | After a successful call in a careful world every index of the batch is stored, and every reader of a Packages of the codename finds all keys stored at first and, for an architecture of the batch, all keys of the batch |
| VersionOrder.CompareParts | internal/debian/version.go:66-128 | The loop ends and equals the lexicographic order of the segments, padded with empty runs and zeros, with digit runs compared as unbounded numbers; which way round is fixed by the next laws |
| VersionLaws.SmallerNumberFirst | internal/debian/version.go:90-124 | Of two texts that agree up to a number, the one with the smaller number sorts first, whatever follows |
| VersionLaws.LeadingZeroIsNothing | internal/debian/version.go:90-96 | A zero before another digit changes nothing |
| VersionLaws.FirstDifferenceDecides | internal/debian/version.go:73-88 | Of two texts that agree up to a character other than a digit: the tilde first, then the end or a number, then letters, then all others, each in byte order |
| VersionLaws.SmallerEpochFirst | internal/debian/version.go:49-54 | A smaller epoch sorts first, whatever follows |
| VersionLaws.RevisionBreaksTies | internal/debian/version.go:31-61 | With one epoch the upstream versions decide, and what follows the last dash only between equal ones |
| VersionOrder.TotalPreorder | internal/debian/version.go:45-62 | CompareVersions is reflexive, antisymmetric in sign and transitive on all strings, and its equivalence is a congruence |
| VersionOrder.TildeSortsFirst | internal/debian/version.go:130-142 | A tilde sorts before everything, even before the end |
| VersionOrder.DashZeroChangesNothing | internal/debian/version.go:17-41 | An absent revision equals revision 0 |
| Deb822Shape.ShapePreserved | internal/debian/parser.go:11-84 | For every text, printing the parse and parsing again gives the same number of paragraphs with the same names in the same order, and no value prints a paragraph break |
| Deb822Canonical.ParasRoundTrip | internal/debian/model.go:171-197 | Printed paragraphs are parsed back exactly if and only if all are canonical |
| Deb822Canonical.ValueRoundTrip | internal/debian/parser.go:49-64 | A printable value is read back unchanged if and only if it is canonical |
| Deb822Canonical.IndentErodes | internal/debian/parser.go:52-53 | Every printing and reading takes one blank of indentation away |
| Deb822Laws.LinesArePrinted | internal/debian/model.go:171-197 | Lines of a value stand below the name behind one blank, an empty one as a dot, an indented one as it is |
| Deb822Laws.NextFieldIsPrinted | internal/debian/model.go:171-197 | A field set anew is printed behind the others |
| Deb822Laws.FieldsAreRead | internal/debian/parser.go:11-84 | Name, colon, and value without its blanks, for each line; a line that starts with a number sign is skipped |
| Deb822Laws.LinesAreRead | internal/debian/parser.go:49-64 | An indented line goes on the value behind a newline; a dot between two lines leaves no empty line |
| Deb822Laws.IndentationIsRead | internal/debian/parser.go:52-53 | Of the indentation one blank goes, and a tab behind it; the rest stays |
| Deb822Laws.JunkIsSkipped | internal/debian/parser.go:66-73 | A line without a colon ends the field before it, and is lost |
| Deb822Laws.OrphanRunsOn | internal/debian/parser.go:21-28 | The value of a line without a name runs into the value of the next field |
| Deb822Laws.BreakIsRead | internal/debian/parser.go:36-47 | A blank line ends the paragraph |
| Deb822Code.ParseParagraphs | internal/debian/parser.go:11-84 | The line loop with its flushing closure computes the parse for every text |
| Deb822Code.Paragraph.String | internal/debian/model.go:171-197 | The builder loop prints the paragraph |
| Deb822Code.Paragraph.Set | internal/debian/model.go:24-29 | Order grows by new names only, and the value is replaced |
| Deb822Code.Paragraph.Get | internal/debian/model.go:32-43 | The exact name first, then any name that differs in case, then nothing |
| StanzaRoundTrip.FaithfulIff | internal/debian/model.go:106-168 | Typed encoding and decoding undo each other, for every iteration order and every lookup, if and only if the stanza is faithful |
| IndexCode.ToParagraph | internal/debian/model.go:106-168 | The chain of Set calls gives a paragraph of the stanza; without standard custom names it holds every one of the 24 fields under its name, in the order of the code, the custom ones between, and nothing else |
| IndexCode.ParagraphToStanza | internal/debian/parser.go:87-137 | The decoding gives a stanza each of whose 24 fields is a possible lookup of its name, with every other name as a custom field |
| StanzaFields.StanzaIsWritten | internal/debian/model.go:106-168 | The same of every paragraph made of a stanza, for every iteration order of the custom fields |
| StanzaFields.StanzaIsRead | internal/debian/parser.go:87-137 | A stanza is a possible reading of a paragraph if and only if each field is a possible lookup of its name, a size the number in it or zero, and the custom fields are those with other names |
| IndexRoundTrip.DatabaseRoundTrip | internal/debian/index.go:23-120 | For every index of canonical stanzas, every outcome of the sort, iteration order and lookup: parsing the written index gives exactly its sorted permutation |
| IndexDomain.DatabaseExactly | internal/debian/index.go:23-120 | Among indexes with 64-bit sizes, those of canonical stanzas are exactly the ones that always come back |
| IndexSurvival.IndexSurvives | internal/debian/index.go:23-120 | For all other printable indexes: every one-line field of every stanza comes back at its place |
| IndexCode.Index.AddOrUpdate | internal/debian/index.go:45-75 | Both loops compute the keyed update |
| IndexCode.Index.Remove | internal/debian/index.go:78-94 | The filter loop keeps Without, and reports whether anything went |
| IndexCode.Index.Sort | internal/debian/index.go:97-108 | A sorted permutation of the packages |
| IndexCode.Index.Serialize | internal/debian/index.go:111-120 | The text is one of those of the sorted index |
| IndexCode.ParseIndex | internal/debian/index.go:23-40 | The index is one that the text can be read as; blank texts give the empty one |
| PackageIndex.UpdateLaws | internal/debian/index.go:45-55 | With versions preserved any series of updates keeps keys unique, adds exactly the inserted keys, and the last stanza of every key wins |
| PackageIndex.FromEmpty | internal/debian/index.go:45-55 | From an empty index: unique keys, exactly the inserted ones, each with its last stanza |
| PackageIndex.Replay | internal/debian/index.go:45-55 | Replaying a whole series changes nothing |
| PackageIndex.LatestReplaces | internal/debian/index.go:57-74 | Without, a sorted batch leaves one stanza per touched name, its latest, and every other name as it was, in order |
| PackageIndex.RemoveLaws | internal/debian/index.go:78-94 | Exactly the stanzas of that package, and of that version if one is given, go, and the others stay in order |
| PackageIndex.StanzaOrderIsLegal | internal/debian/index.go:97-108 | The comparator of Sort is a strict weak order |
| PackageIndex.WrittenOrder | internal/debian/index.go:97-108 | In a written index packages come in byte order, of each the later versions first, then architectures in byte order |
| PackageIndex.CandidateOrderIsLegal | internal/repo/publisher.go:83-91 | So is that of the batch sort |
| Release.GenerateRelease | internal/debian/release.go:13-94 | The buffer loops write a manifest of the given fields with the indices sorted by path; ReleaseReadBack says what that text is |
| Release.DedupeStrings | internal/debian/release.go:96-106 | The non-empty members, each once |
| Release.SortedSetIsUnique | internal/debian/release.go:40-50 | So the written words depend on the set of words only |
| ReleaseReading.ReleaseReadBack | internal/debian/release.go:13-94 | What is read from a written manifest: every given text under its name and no other, the words sorted and once each, and in four tables a line per index whose three words are its hash, a number that is its size, and its path, right-aligned in 16 columns; all in the order of the file |
| BrowserRelease.PublishedIsLearned | internal/api/manager.go:108-161 | The browser learns every given text exactly as published, and of architectures and components the sorted words, whatever lookup it makes |
| BrowserCode.RepositoryManager.ReadRelease | internal/api/manager.go:108-161 | Reading a Release file records its first paragraph, and the architectures and components it names, without repeats |
| BrowserCode.RepositoryManager.IngestIndex | internal/api/manager.go:245-305 | The loop files every stanza under its codename, component and architecture, and remembers them without repeats |
| BrowserCode.RepositoryManager.CollectStanzas | internal/api/manager.go:541-580 | One stanza of the view for every identifier, in whatever order the map is ranged over |
| BrowserCode.RepositoryManager.GetRepoInfo | internal/api/manager.go:375-418 | The package and version counts are those of a collection of the view |
| BrowserCode.RepositoryManager.ListPackages | internal/api/manager.go:421-484 | The cards of such a collection: strictly sorted by name, one for every package that matches, each with its maximal version |
| BrowserCache.SyncsKeep | internal/api/manager.go:183-305 | Over every series of syncs the cached indexes have unique keys, and every stanza is filed under its own architecture |
| BrowserCache.CopiesAreOne | internal/api/manager.go:183-305 | The plain, gz, xz and bz2 copies of one index, in any order, leave the cache that one of them leaves |
| BrowserLaws.PublishedIsSeen | internal/api/manager.go:245-305 | Whatever was cached: after a published index is ingested from its path, the view of its codename and component holds every package, version and architecture of it |
| BrowserLaws.FlatIsFiledByPool | internal/api/manager.go:276-287 | In a flat layout a stanza is filed under the component of its pool path |
| BrowserLaws.SelectsComponent | internal/api/manager.go:552-568 | A view of a codename and a component selects exactly its indexes, or the one of the architecture asked for |
| BrowserLaws.QuerySelects | internal/api/manager.go:433-450 | A query selects the packages whose name or a description mentions it, but for the case of letters; the empty one selects all |
| BrowserCards.ViewsAgree | internal/api/manager.go:375-484 | Without underscores in names, the unfiltered list has as many cards as there are packages, and its version counts add up to the versions |
| BrowserViews.AgreeExactly | internal/api/manager.go:541-580 | All collections of a view name the same packages if and only if every package has an identifier all of whose stanzas in the view belong to it |
| BrowserViews.UnderscoresDisagree | internal/api/manager.go:541-580 | A cache for which one collection names two packages and another one |

## Left out

- The S3, SFTP and file backends, which are kept as an interface of atomic steps. The fallback of
  the S3 backend and the create-then-write of the file backend are not atomic and are excluded.
- Compression and hash functions, which are uninterpreted functions here, and reading `.deb` archives:
  candidates are given with their control record and bytes, and what `Size` and the hashes of an
  inspected file are is taken from those bytes.
- JSON of the lock record: a holder and an expiry, or an unparseable object. Process ids, reasons and
  metadata are not part of this model.
- Signing, `InRelease` and `Release.gpg`. A publish ends with its Release file.
- The filesystem walk, configuration, HTTP handlers, pages and logging.
- The fetching side of a sync: which paths it tries, and decompressing them. The results are about
  the files it has read.
- Unicode white space and case folding; texts are ASCII.
- Pointer sharing of stanzas between the cache and its callers: stanzas are values, and an index is a
  class over a sequence of them.
- LockerCode.Locker.Acquire: its retry loop is the method TryUntil and one round of it NextRound. A
  cancelled context also stops the heartbeat; the timed results are about contexts that live.
- LockProtocol.ExclusionWithoutStaleReads: a late heartbeat tick is allowed to any live worker at any
  time, and any number of them, while the code allows one for each closed channel; the model has more
  runs. The results on a worker alone let its last heartbeat stop before it acquires again.
- BrowserCode.RepositoryManager.GetRepoInfo: configured values, known names and the fields of the
  Release file, which it passes on, are not in its result here.
- BrowserCache.CopiesAreOne: codenames are path elements or empty; others would be cleaned by path.Join.
- PublisherCode.Engine.PublishDebFiles: a crash of the publishing process is not a step inside the
  method; the crash steps of LockedPublishing and the intermediate states of the run stand for it.
- LockedResults.ChecksumAgreement: bytes are compared by size and hashes, as readers compare them, so
  two files with equal digests count as the same.
- Fairness: no result says that a waiting worker gets the lock in the end.
