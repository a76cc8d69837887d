# The JDBC bridge: driver cache, verified download, chunked scan

A Dafny 4.11 model of the stateful core of the JDBC bridge, and proofs about it. `dafny verify
dfyconfig.toml` checks everything.

## What is modelled

**Driver cache** (`be/runtime/jdbc_driver_manager.cpp`). Driver jars live in one directory under the
names `${name}_${checksum}_${first_access_ts}.jar`.

- `Decimal`, `FsUtil`, `DriverCodec`: `std::to_string`, `std::stol`, the suffix test, and the printing
  and parsing of file names, character by character.
- `DriverScan`, `DriverManager`: the start-up scan as a fold over a listing; the classes
  `JDBCDriverEntry` and `JDBCDriverManager`, whose methods run that loop, look entries up, replace
  them and download, one thread at a time. `DriverCalls` states what one call does.
- `DriverProtocol`: `get_driver_location` and `_download_driver` as a step system for any number of
  threads. A step is a critical section of the manager's lock, taking or giving up a download lock,
  one store to an entry flag, or one file operation. Files are inodes behind directory entries and
  streams are buffered, because two threads can open the same temporary path and because the stream is
  closed after the rename.
- `DriverInvariants`, `DriverSafety`: the inductive invariant and what holds over all runs.
  `DriverRestart`: stopping at any step and starting again. `DriverBoot`: the states `init` leaves.
  `DriverExactness`: the conditions of the safety results are exact. `DriverAnswers`: who is answered, and
  that no thread's steps depend on the other threads. `DriverSolo`, `DriverRefinement`, `DriverSoloRuns`:
  the sequential call is some run of a thread that has the manager to itself, and every such run is a
  sequential call.
  `DriverWitnesses`: concrete runs.

**Verified download** (`be/util/download_util.cpp`, `be/util/md5.cpp`): `Md5`, `DownloadUtil`.

**Chunked scan** (`JDBCScanner.java`, `be/scanner/jdbc_scanner.cpp`, `be/datasource/jdbc_connector.cpp`):
`ResultConversion`, `JdbcScanner`, `JdbcConnector`. A forward-only cursor is read into column arrays
that are allocated once and refilled. **Pool cache** (`DataSourceCache.java`): `DataSourceCache`.

## How the chain of results fits together

`BootExists` says that whatever plain files `init` finds, there is a protocol state it leaves, and
`BootedWorld` that its map and files are the ones `JDBCDriverManager.Init` is proved to leave;
`BootIsInitial` says that this state is `Initial`. `RunInv` carries the invariant from there through every
disciplined run; `RestartRecovers` says what `init` finds wherever any plain run stops, and
`InitIsFixedPoint` that scanning once more changes nothing. `SoloCall` and `SoloRunIsCall` tie the step
system to the relation `Call` that `JDBCDriverManager.GetDriverLocation` is proved to implement.

Four kinds of run are told apart; each condition is on the step and the state before it.

- A *run* is any sequence of steps. Map, locks and repeated requests need no more.
- In a *plain* run entries are created only for checksums without an underscore. The results that read
  names and checksums back out of file names ask for that, restart recovery among them.
- In an *apart* run entries are created only at locations no other entry may have its file at. What is on
  disk, and what removal takes away, needs that and nothing else. In a plain run a clock that only goes
  forward is enough for it (`RisingRunIsApart`).
- In a *disciplined* run an entry is created only at a location no other entry may still write or destroy,
  and a temporary path is opened only while no other thread may still write behind it. The contents of
  files need that. Both conditions are exact: `CreationSafeIff`, `OpenSafeIff`.

A close that falls short is on record in its own entry (`cut`) and harms no other: `CloseEffect`. *Sound*
entries are those without such a record, or whose record matches all the same. An entry *owns* its
location while no later one has been created there and it has not been destroyed with removal; every
uncondemned entry does.

## Where the code and its intent differ

- Line 101 of `jdbc_driver_manager.cpp` compares where it means to assign. The model assigns;
  `ScanWritten` keeps the comparison and `WrittenScanFaults` says exactly which listings it survives.
- Lines 213-216 refuse any name without an underscore, `mssql-jdbc` among them. `Codec` has both tests,
  and every codec result is stated for both.
- Lines 165 and 179 drop the download's status. `honour` selects: with `honour` false the model is the
  code as written (`DroppedStatusPublishes`, `DroppedStatusRun`).
- Lines 43-48 leave the removal of a condemned file as a to-do. `Reap` is the destruction of an
  entry; it removes the file if `reap` is set. Two entries made for the same name and checksum in one
  millisecond share a file, which removal then takes from both (`ReapTakesIff`); without removal a late
  download of the one can still spoil the other's (`CollisionSpoilsFile`). Without removal also,
  `LeftoversIffOvertaken` says when superseded files stay behind, against lines 28-30 of the header.
- Line 176 leaves the timestamp out of the temporary path, so two entries can share it:
  `TmpSharedIff`, `OpenSafeIff`, `SharedTmpRun`.
- `download_util.cpp` renames (line 49) before it closes the stream (lines 15-19) and ignores both the
  close's and the transfer's own status. `flushed` and `Close(t, upto)` bound what reaches the disk:
  `VerifiedIffFlushed`, `CloseEffect`, `InFlightBytes`, `CrashWindowRun`.
- `init` is safe only once per manager: `RescanLosesLiveFile`.
- Lines 45-54 of `jdbc_scanner.cpp` drop statuses; `NativeScanner.honour` selects for `hasNext`. As
  written a failing `hasNext` is reported as the end of the stream. Line 248 resets the output chunk
  without filling it; the model copies the first `num_rows` cells of each column.
- The pool cache's keys join user and URL with a slash: `KeyInjective`, `KeySharedIff`.

## Model

| member | source | states |
|---|---|---|
| Decimal.StolOfPadded | be/runtime/jdbc_driver_manager.cpp:193-200 | `stol` reads back any printed 64-bit number behind leading white space and in front of any text that does not continue its digits |
| Decimal.StolOfToString | be/runtime/jdbc_driver_manager.cpp:196-223 | `stol` undoes `to_string` on every 64-bit value, `INT64_MIN` included |
| Decimal.StolDecomposes | be/runtime/jdbc_driver_manager.cpp:193-200 | whatever `stol` accepts is white space, at most one sign, digits and a tail that does not continue them, and the result is the number those digits denote under that sign |
| Decimal.StolComposes | be/runtime/jdbc_driver_manager.cpp:193-200 | conversely all such text is accepted, unless the number has no 64 bits |
| Decimal.ToStringIsShortest | be/runtime/jdbc_driver_manager.cpp:222-224 | no text that `stol` reads as a number is shorter than the number printed |
| FsUtil.EndsWithIsSuffix | be/fs/fs_util.h:101-106 | the reverse-iterator comparison holds exactly when the text is something followed by the ending |
| FsUtil.FileSystem.ListDirectory | be/fs/fs_util.h:76-85 | in any iteration order, every entry of the directory is listed exactly once and nothing else is |
| DriverCodec.ParseFromFileName | be/runtime/jdbc_driver_manager.cpp:185-220 | shrinking the view step by step accepts exactly the names that split at their last two underscores with a readable number behind the last, and returns those parts |
| DriverCodec.ParseComposed | be/runtime/jdbc_driver_manager.cpp:185-220 | a name composed of three parts is accepted iff the last is readable as a number and, as written, the first holds an underscore; the parts come back |
| DriverCodec.ParseDecomposes | be/runtime/jdbc_driver_manager.cpp:185-220 | conversely every accepted name is such a composition |
| DriverCodec.RoundTrip | be/runtime/jdbc_driver_manager.cpp:185-224 | parsing a generated base name gives the same triple iff the checksum holds no underscore and, as written, the name holds one |
| DriverCodec.BaseNameInjective | be/runtime/jdbc_driver_manager.cpp:222-224 | with underscore-free checksums, equal base names mean equal triples |
| DriverCodec.BaseNameCollides | be/runtime/jdbc_driver_manager.cpp:222-224 | without that condition two different triples share a file name |
| DriverCodec.Canonicalises | be/runtime/jdbc_driver_manager.cpp:185-224 | re-printing whatever the parser accepted (blanks, zeros, trailing text included) and parsing again gives the same triple, with either codec |
| DriverCodec.BaseNameIsShortest | be/runtime/jdbc_driver_manager.cpp:185-224 | among all names that stand for a driver none is shorter than the generated one, so nothing the parser would skip is ever printed |
| DriverCodec.WrittenCodecRefusesMssql | be/datasource/jdbc_connector.cpp:47-49 | the driver the data source asks for is one whose own file name the parser as written always refuses and the repaired parser always reads back |
| DriverCodec.LocationAgrees | be/runtime/jdbc_driver_manager.cpp:222-224 | a generated location stands for the driver it was generated from |
| DriverCodec.TmpPathIsNoJar | be/runtime/jdbc_driver_manager.cpp:176 | a temporary path never parses as a driver and carries the suffix the scan clears |
| DriverCodec.TmpPathInjective | be/runtime/jdbc_driver_manager.cpp:176 | temporary paths coincide iff the names and checksums read the same around an underscore, which for checksums without one means that both agree |
| DriverCodec.LocationExtendsTmp | be/runtime/jdbc_driver_manager.cpp:176-224 | a temporary path is directory, slash, name, underscore, checksum and `.tmp`; the location is that with `.tmp` replaced by an underscore, the stamp and `.jar` |
| DriverScan.InitResult | be/runtime/jdbc_driver_manager.cpp:77-129 | a fresh scan maps a name iff a driver of it is listed, and then to the newest (first listed among equals); removed or condemned are exactly temporary files, unparseable jars and superseded drivers |
| DriverScan.OrderIndependence | be/runtime/jdbc_driver_manager.cpp:77-129 | with distinct timestamps within a name, any two orders of one listing give the same map and the same removals |
| DriverScan.OrderMattersOnTies | be/runtime/jdbc_driver_manager.cpp:111-126 | with equal timestamps the order decides: the first one listed stays, the other's file is deleted |
| DriverScan.LeftoversIffOvertaken | be/runtime/jdbc_driver_manager.cpp:43-48 | as written, a scan leaves superseded files on disk iff some driver is listed after strictly older ones of its name only |
| DriverScan.WrittenScanFaults | be/runtime/jdbc_driver_manager.cpp:97-106 | as written, the scan avoids the null entry iff every listed driver's name is mapped already; then it does what is meant |
| DriverScan.RescanLosesLiveFile | be/runtime/jdbc_driver_manager.cpp:109-126 | scanning again with a manager that holds an entry at least as new as a listed file deletes that file, the entry's own included |
| DriverScan.ListingLists | be/runtime/jdbc_driver_manager.cpp:75-78 | listing the directory gives each file in it one item, at its own path |
| DriverScan.KindsBySuffix | be/runtime/jdbc_driver_manager.cpp:78-95 | a file is taken for temporary iff its name ends in `.tmp`, for something else iff it ends in neither `.tmp` nor `.jar`, and for a driver or an unparseable jar iff it ends in `.jar`, as the parser decides |
| DriverScan.OthersSurvive | be/runtime/jdbc_driver_manager.cpp:77-129 | a fresh scan removes no file of the directory whose name ends in neither suffix |
| DriverScan.LeftoversAreDeleted | be/runtime/jdbc_driver_manager.cpp:79-95 | any scan deletes every file of the directory that ends in `.tmp`, or in `.jar` and does not parse |
| DriverScan.InitIsFixedPoint | be/runtime/jdbc_driver_manager.cpp:65-132 | a fresh scan of what an earlier one left, condemned files gone, deletes nothing, condemns nothing and rebuilds an equal map |
| DriverManager.JDBCDriverManager.Init | be/runtime/jdbc_driver_manager.cpp:65-132 | the loop over entries and files comes out as the fold over some listing of the directory: the map is the fold's, the files it deletes are gone, every other file is untouched, and the entries it replaced are marked for deletion; in so many words: files outside the directory or with neither suffix keep their contents, and no temporary file or unparseable jar is left |
| DriverManager.JDBCDriverManager.LoadDriver | be/runtime/jdbc_driver_manager.cpp:97-127 | one parsed jar is filed, replaces a strictly older entry (which is marked for deletion), or is deleted |
| DriverManager.JDBCDriverManager.Lookup | be/runtime/jdbc_driver_manager.cpp:137-164 | the critical section settles on the mapped entry if it is the expected one, else on a new one, the replaced one being marked for deletion; no other name changes |
| DriverManager.JDBCDriverManager.DownloadDriver | be/runtime/jdbc_driver_manager.cpp:170-183 | an entry already downloaded is left alone; otherwise one download decides flags, file and status together |
| DriverManager.JDBCDriverManager.GetDriverLocation | be/runtime/jdbc_driver_manager.cpp:134-168 | the call relates map and directory before and after as `Call` says, for every behaviour of the transfer |
| DriverCalls.CallDelivers | be/runtime/jdbc_driver_manager.cpp:134-183 | after an OK call that had to download, the location's file holds all delivered bytes and they match iff the download itself succeeded and its last flush lost nothing, or it failed and such a file was there already; with the status dropped the OK does not say which |
| DriverCalls.NextCallHits | be/runtime/jdbc_driver_manager.cpp:146-174 | after a call that returned OK, the next call for the same driver changes nothing and gives the same location, whatever its clock and transfer |
| DriverCalls.NextCallRetries | be/runtime/jdbc_driver_manager.cpp:164-183 | after a call that failed, the next call for the same driver tries for the same location, and is answered iff its own transfer goes right |
| Md5.Md5Digest.Digest | be/util/md5.cpp:16-28 | the moving-pointer loop over the digit table leaves the hex form of the digest of everything absorbed |
| Md5.MatchesIffDecodes | be/util/download_util.cpp:43-46 | the case-insensitive comparison succeeds iff the expected text decodes to the digest bytes |
| Md5.HexRoundTrip | be/util/md5.cpp:16-28 | decoding undoes encoding |
| Md5.HexInjective | be/util/md5.cpp:16-28 | no two byte strings share a hex form |
| Md5.HexEncodeAt | be/util/md5.cpp:16-28 | characters 2i and 2i + 1 of the hex form are the lower-case digits of byte i, high half first |
| Md5.CapitalsMatch | be/util/download_util.cpp:43-46 | the hex form in capitals is accepted too |
| DownloadUtil.Download | be/util/download_util.cpp:12-54 | OK iff the file opens, no chunk is empty, no write fails, the checksum, in whatever case, decodes to the digest of the delivered bytes, and the rename works; then the target holds the delivered bytes (as far as flushed) and the temporary file is gone; on any error no other file changed |
| DownloadUtil.MatchesIffStandsFor | be/util/download_util.cpp:42-46 | the checksum test passes iff the checksum decodes to the digest of the content |
| DownloadUtil.SucceedsIffGoesRight | be/util/download_util.cpp:12-54 | a download succeeds iff none of the things listed for `Download` goes wrong |
| DownloadUtil.VerifiedIffFlushed | be/util/download_util.cpp:15-19 | what reaches the disk is all of the verified content iff the last flush lost nothing |
| DownloadUtil.CutFurther | be/util/download_util.cpp:29-53 | cutting any delivered chunk in two, write faults or not, changes neither the status of the download nor what the target holds |
| DriverInvariants.KeepsMap | be/runtime/jdbc_driver_manager.cpp:138-163 | every step of any thread keeps the map and the condemned marks in agreement |
| DriverInvariants.KeepsLocks | be/runtime/jdbc_driver_manager.cpp:170-183 | every step keeps each entry's flags in agreement with how far the holder of its download lock has got |
| DriverInvariants.KeepsYields | be/runtime/jdbc_driver_manager.cpp:138-183 | every disciplined step keeps earlier entries at a location giving way to later ones: they contend for it no more, and rename nothing over a completed file |
| DriverInvariants.KeepsDisk | be/util/download_util.cpp:12-54 | every disciplined step, a short close included, keeps each stream behind its own path with the bytes it flushed, or behind none once replaced, and each completed owner's file in place |
| DriverInvariants.KeepsInv | be/runtime/jdbc_driver_manager.cpp:134-183 | every disciplined step keeps the whole invariant |
| DriverSafety.RunInv | be/runtime/jdbc_driver_manager.cpp:134-183 | the invariant holds in every state of every disciplined run from a state `init` leaves |
| DriverSafety.RunControl | be/runtime/jdbc_driver_manager.cpp:134-183 | map and lock invariants hold in every state of every run, disciplined or not |
| DriverSafety.RunApart | be/runtime/jdbc_driver_manager.cpp:134-183 | in every state of every apart run, locations that may hold files are distinct and each is on disk iff its download completed |
| DriverSafety.AvailableHasFile | be/runtime/jdbc_driver_manager.cpp:134-183 | in every state of every disciplined run, whatever other streams were closed short: uncondemned entries own their locations, and an available, completed owner has its file, with the bytes found at start-up or bytes whose digest matched, iff it is sound; with the status honoured every available entry is completed |
| DriverSafety.AvailableIffCompleted | be/runtime/jdbc_driver_manager.cpp:134-183 | if the run is apart too, an available entry has its good file iff its download completed and it is sound |
| DriverSafety.CloseEffect | be/util/download_util.cpp:15-19 | after a close, short or not, the entry's file is good iff the bytes got down match, and every other owner's file is as it was |
| DriverSafety.DroppedStatusPublishes | be/runtime/jdbc_driver_manager.cpp:179-181 | the store that publishes an entry is backed by a good file iff the download before it returned OK and the entry is sound |
| DriverSafety.ReapSparesOthers | be/runtime/jdbc_driver_manager.cpp:43-48 | in an apart run, destroying a condemned entry and removing its file leaves every other entry's file as it was |
| DriverExactness.ReapTakesIff | be/runtime/jdbc_driver_manager.cpp:43-48 | in any state, the removal takes another entry's file away iff both were made for the same name, checksum and millisecond |
| DriverExactness.Drains | be/runtime/jdbc_driver_manager.cpp:164-183 | from any reachable state all calls under way can be let finish, in a disciplined way: no thread is ever stuck |
| DriverExactness.DisciplinedIsSafe | be/runtime/jdbc_driver_manager.cpp:134-183 | after a disciplined step, every disciplined continuation has the good file of every available, sound owner in place |
| DriverExactness.CollisionLosesFile | be/runtime/jdbc_driver_manager.cpp:142-160 | with removal, whatever else is under way: a request that generates a location still taken can be followed by disciplined steps to a mapped, available entry whose file is gone |
| DriverExactness.CollisionSpoilsFile | be/runtime/jdbc_driver_manager.cpp:142-183 | without removal, as written: if a thread has yet to open its stream for an entry at that location, disciplined steps can lead to a mapped, available entry whose file is not the verified one |
| DriverExactness.CreationSafeIff | be/runtime/jdbc_driver_manager.cpp:142-183 | with the status honoured, with removal or without, in any state of a disciplined plain run: all disciplined continuations of a creating request serve what they have published iff no entry contends for the location it generates |
| DriverExactness.SharedOpenDamages | be/runtime/jdbc_driver_manager.cpp:176 | wherever a temporary path is opened while another thread may still write behind it, a continuation disciplined from there on ends with an available entry, mapped if it was, whose file no longer matches, for all contents for which the late writes matter |
| DriverExactness.OpenSafeIff | be/runtime/jdbc_driver_manager.cpp:176 | with the status honoured, in any state of a disciplined run: all disciplined continuations of an open serve what they have published iff no other thread may still write behind the path |
| DriverSafety.MappedIsOnlyUncondemned | be/runtime/jdbc_driver_manager.cpp:138-163 | in every reachable state an entry is uncondemned iff it is the mapped one of its name |
| DriverSafety.RunRises | be/runtime/jdbc_driver_manager.cpp:18-41 | between any two states of a run, flags only rise, identities and locations stay, answers are never taken back |
| DriverSafety.CondemnedForever | be/runtime/jdbc_driver_manager.cpp:155-162 | an entry once unmapped is condemned and unmapped in every later state |
| DriverSafety.ReapableIffUnreferenced | be/runtime/jdbc_driver_manager.cpp:40-48 | in every reachable state an entry not yet destroyed can be destroyed iff neither the map nor a call under way refers to it |
| DriverSafety.AvailableIsDownloaded | be/runtime/jdbc_driver_manager.cpp:180-181 | available implies downloaded in every reachable state |
| DriverSafety.SingleDownload | be/runtime/jdbc_driver_manager.cpp:170-183 | over all interleavings no entry completes two downloads |
| DriverSafety.SameRequestSameEntry | be/runtime/jdbc_driver_manager.cpp:139-163 | two requests for one driver, none for that name under another checksum between them, settle on one entry |
| DriverSafety.SameRequestSameLocation | be/runtime/jdbc_driver_manager.cpp:134-168 | and, whenever each is answered, both get the same location |
| DriverSafety.AnswersAgree | be/runtime/jdbc_driver_manager.cpp:148-167 | every answer ever given is the location of the entry it was settled on |
| DriverSafety.AnswerNamesRequest | be/runtime/jdbc_driver_manager.cpp:134-168 | whatever is interleaved, the location a request is answered with parses to the name and checksum requested |
| DriverSafety.AnswerHasFile | be/runtime/jdbc_driver_manager.cpp:134-168 | with the status honoured, the location of an owner is returned only while its file is in place, and that is good iff the entry is sound |
| DriverAnswers.LeaverIsAnsweredIff | be/runtime/jdbc_driver_manager.cpp:164-183 | in every run, a thread that ends its call is answered, once and from its entry, iff that entry is available, and unanswered iff its own download failed and the status is honoured |
| DriverAnswers.LookupAnswersIff | be/runtime/jdbc_driver_manager.cpp:137-163 | in every run, a request is answered on the spot iff its name is mapped to an available entry with its checksum, from that entry; otherwise its thread waits for an unavailable one |
| DriverAnswers.UnansweredHasFailed | be/runtime/jdbc_driver_manager.cpp:164-168 | a thread that ends its call without an answer has, by a step of its own in that very call, failed to open, to write or to put its file in place |
| DriverAnswers.FinishCompletesIff | be/util/download_util.cpp:42-53 | in a disciplined run, finishing puts the file in place iff the checksum decodes to the digest of what was sent and the rename works: the temporary file is always still there |
| DriverAnswers.AlikeEnabled | be/runtime/jdbc_driver_manager.cpp:164-183 | which steps a thread can take depends on where it stands, its entry, the file it writes and whether its temporary path exists, and on nothing else: no other thread can hold it up but through its entry's lock |
| DriverAnswers.AlikeOutcome | be/runtime/jdbc_driver_manager.cpp:164-183 | and so does what a step leads to: what the thread sees next, what becomes of its entry, and the location it is given, if any |
| DriverSafety.EntriesAgree | be/runtime/jdbc_driver_manager.cpp:91-162 | every entry reachable through `init` and requests has a location that parses to its own name, checksum and timestamp |
| DriverSafety.TmpSharedIff | be/runtime/jdbc_driver_manager.cpp:176 | a temporary path is in use by another stream iff some thread is streaming for the same name and checksum |
| DriverSafety.DistinctPairsNeverShare | be/runtime/jdbc_driver_manager.cpp:170-183 | while no (name, checksum) pair has two entries, every open is disciplined by itself |
| DriverRestart.RestartRecovers | be/runtime/jdbc_driver_manager.cpp:65-183 | stop any plain run at any step, disciplined or not: a fresh `init` maps exactly the names with a readable driver on disk, each to one with the latest stamp, at the same location |
| DriverRestart.RestartRecoversLatest | be/runtime/jdbc_driver_manager.cpp:65-183 | after any plain run with a clock that only goes forward, stopped at any step: exactly the names with a completed download still on disk are mapped, each to the newest of them, the last created, at the same location |
| DriverRestart.RisingClockIsFree | be/runtime/jdbc_driver_manager.cpp:142-160 | such a clock never makes a plain request generate a location that may be taken |
| DriverRestart.RisingRunIsApart | be/runtime/jdbc_driver_manager.cpp:142-160 | so every plain run with such a clock is apart |
| DriverRestart.OnDiskIffCompleted | be/runtime/jdbc_driver_manager.cpp:43-183 | in an apart run, an entry not destroyed with removal has its file on disk iff its download completed |
| DriverRestart.DriverFilesAreCompleted | be/runtime/jdbc_driver_manager.cpp:43-183 | in an apart run, a driver file is in the directory iff some such entry with a completed download is at that path |
| DriverRestart.RecoveredIsGood | be/util/download_util.cpp:12-54 | in a disciplined run, a completed owner's file holds good bytes iff the entry is sound, unless the run stopped between its rename and its close |
| DriverRestart.InFlightBytes | be/util/download_util.cpp:15-52 | in that window, in a disciplined run, an owner's file holds what was flushed, and is the verified content iff that is everything |
| DriverRestart.RestartClearsTemporaries | be/runtime/jdbc_driver_manager.cpp:79-84 | the temporary file of any download under way is removed by the next scan |
| DriverRestart.UnreadableIsDeleted | be/runtime/jdbc_driver_manager.cpp:90-95 | with the parser as written, the next start-up removes a completed download if its name holds no underscore or a newer one is kept, and, where no other has its stamp, only then |
| DriverBoot.BootExists | be/runtime/jdbc_driver_manager.cpp:65-132 | for every directory of plain files, however listed, with either codec and with condemned files removed or left behind, there is a protocol state a booted manager is in |
| DriverBoot.BootedWorld | be/runtime/jdbc_driver_manager.cpp:65-132 | the map of that state is the one the scan makes, and its files are the directory without those the scan takes away |
| DriverBoot.BootIsInitial | be/runtime/jdbc_driver_manager.cpp:65-132 | every such state is one from which all run results hold, its stamps rising within each name |
| DriverSolo.Downloads | be/runtime/jdbc_driver_manager.cpp:170-183 | a thread that has opened its stream can take any matching transfer, however it is cut into chunks and however much of it the close gets down, through the steps to a published entry holding just that |
| DriverRefinement.SoloCall | be/runtime/jdbc_driver_manager.cpp:134-183 | from any state between calls and for every behaviour of the transfer, some run of a lone thread ends with the map, directory, status and answer of the sequential call |
| DriverSoloRuns.SoloRunIsCall | be/runtime/jdbc_driver_manager.cpp:134-183 | conversely every run of a lone thread through one call, however it flushes and wherever it fails, is the sequential call for some behaviour of the transfer |
| DriverWitnesses.DroppedStatusRun | be/runtime/jdbc_driver_manager.cpp:165-181 | with the status dropped, a disciplined run ends with a mapped, available entry that has no file |
| DriverWitnesses.CrashWindowRun | be/util/download_util.cpp:15-52 | a disciplined run can stop with an unverified file under a driver's name |
| DriverWitnesses.SharedTmpRun | be/runtime/jdbc_driver_manager.cpp:176 | with the status honoured, a shared temporary path ends with a mapped, available entry whose file is damaged |
| DriverWitnesses.SameStampRun | be/runtime/jdbc_driver_manager.cpp:142-160 | two entries stamped in one millisecond end with a mapped, available entry whose file was removed with the other one |
| ResultConversion.IntegralExactIff | fe/src/main/java/com/starrocks/jdbcbridge/JDBCScanner.java:112-126 | an integral value arrives unchanged iff the column type can hold it, and otherwise as the value of that type congruent to it |
| ResultConversion.NullStays | fe/src/main/java/com/starrocks/jdbcbridge/JDBCScanner.java:112-113 | a null arrives as null in a column of any type |
| ResultConversion.WholeArrives | fe/src/main/java/com/starrocks/jdbcbridge/JDBCScanner.java:114-126 | a whole number arrives in an integral column as itself iff it has 16, 32 or 64 bits, as the column says, and otherwise as the number in that range congruent to it |
| ResultConversion.OnlyNumbersConvert | fe/src/main/java/com/starrocks/jdbcbridge/JDBCScanner.java:114-126 | what is neither null nor a number is refused by every numeric column |
| ResultConversion.DecimalArrives | fe/src/main/java/com/starrocks/jdbcbridge/JDBCScanner.java:114-126 | a decimal arrives in an integral column as its whole part would, the fraction dropped toward zero |
| ResultConversion.FloatingArrives | fe/src/main/java/com/starrocks/jdbcbridge/JDBCScanner.java:114-126 | so does a floating-point number, saturated before at the bounds of `long` for a `long` column and of `int` for the two narrower ones |
| JdbcScanner.JDBCScanner.constructor | fe/src/main/java/com/starrocks/jdbcbridge/JDBCScanner.java:73-79 | one distinct array of the fetch size for each column, whatever the size |
| JdbcScanner.JDBCScanner.ReadRow | fe/src/main/java/com/starrocks/jdbcbridge/JDBCScanner.java:101-127 | the cursor's row, converted, goes into the current cell of every column and no other cell changes; it fails iff some value cannot be converted or the cell is outside the arrays |
| JdbcScanner.JDBCScanner.GetNextChunk | fe/src/main/java/com/starrocks/jdbcbridge/JDBCScanner.java:95-135 | cell (i, r) is column i of the chunk's row r, converted, and null where that is null; the count is the chunk size or what is left; cells beyond keep their old values; the cursor ends where the next `hasNext` expects it |
| JdbcConnector.NativeScanner.FillChunk | be/scanner/jdbc_scanner.cpp:243-258 | the output chunk holds the first `num_rows` cells of every column |
| JdbcConnector.NativeScanner.GetNext | be/scanner/jdbc_scanner.cpp:43-57 | one request delivers exactly the next slice of the result set, or the end iff nothing is left, or an error only where a value cannot be converted or `hasNext` failed; at the end and on an error it leaves the output chunk as it was |
| JdbcConnector.JDBCDataSource.GetNext | be/datasource/jdbc_connector.cpp:30-43 | the loop ends; it returns rows, the end, or an error, an error only where `hasNext` failed or a value of the next chunk cannot be converted; honoured, it reports the end iff every row has been delivered, and dropped, iff that or `hasNext` failed; the chunk it returns holds the rows newly delivered, and none at the end or on an error |
| JdbcConnector.CallsHandOut | be/datasource/jdbc_connector.cpp:30-43 | the chunks a sequence of calls returns, laid end to end, are the rows the record of delivered rows has grown by: no row is returned twice and none is kept back |
| JdbcConnector.ChunkRows | fe/src/main/java/com/starrocks/jdbcbridge/JDBCScanner.java:97-129 | every delivered chunk but the last is full, and none is empty |
| JdbcConnector.RowsDelivered | fe/src/main/java/com/starrocks/jdbcbridge/JDBCScanner.java:91-131 | the delivered chunks laid end to end are the converted rows of the result set, in order, each once |
| JdbcConnector.ChunkCount | fe/src/main/java/com/starrocks/jdbcbridge/JDBCScanner.java:91-131 | at the end there have been ceil(n / chunkSize) chunks |
| DataSourceCache.DataSourceCache.GetSource | fe/src/main/java/com/starrocks/jdbcbridge/DataSourceCache.java:19-21 | the provider's success is recorded at most once per key, and a cached source is returned whatever the provider would make |
| DataSourceCache.CachedIsFirst | fe/src/main/java/com/starrocks/jdbcbridge/DataSourceCache.java:19-21 | over any sequence of `open` calls a key is cached iff some provider succeeded for it, with the first such source |
| DataSourceCache.LaterCallsShare | fe/src/main/java/com/starrocks/jdbcbridge/JDBCScanner.java:50-63 | from the first success for its key on, every call returns that first source |
| DataSourceCache.EarlierCallsFail | fe/src/main/java/com/starrocks/jdbcbridge/JDBCScanner.java:50-63 | until some provider succeeds for its key, a call gets nothing |
| DataSourceCache.KeyInjective | fe/src/main/java/com/starrocks/jdbcbridge/JDBCScanner.java:50 | while users hold no slash, two contexts share a key iff user and URL both agree |
| DataSourceCache.KeySharedIff | fe/src/main/java/com/starrocks/jdbcbridge/JDBCScanner.java:50 | some other context shares a context's key iff its user or its URL holds a slash, as URLs that put `//` before a host do |

## Left out

- DriverManager.JDBCDriverManager.GetDriverLocation: one thread at a time; interleavings are the subject of `DriverProtocol`, which works on values; `SoloCall` and `SoloRunIsCall` tie the two together.
- DriverManager.JDBCDriverManager.Init: assumes that a listed file can be deleted, because `deleteFile` throws only when nothing was removed; the permissions and races that could make it throw are outside the file-system model.
- DriverSoloRuns.SoloRunIsCall: a failed download is explained by a transfer that could not be opened, whichever step it failed in, as the call does the same for all of them.
- DriverExactness.CreationSafeIff: the checksum is that of some content but not of all its beginnings; the digest being a parameter, that is a condition.
- DriverExactness.OpenSafeIff: likewise, that another stream's late writes can spoil some matching content is a condition on the digest.
- JdbcConnector.JDBCDataSource.GetNext: the status dropped at line 34 is taken as honoured, and so is that of `getNextChunk`; as written a failed chunk would be read from a null list. After a conversion error the scan is not resumed.
- JdbcConnector.NativeScanner.constructor: a fetch size of at least 1, as the constant in `be/scanner/jdbc_scanner.cpp:105` is.
- FsUtil.FileSystem.ListDirectory: the driver directory holds plain files only; the iteration also yields sub-directories, which are not modelled.
- JNI and JVM set-up, method and class look-ups, and the release of references.
- The HTTP client: only the chunks it delivers, and that a callback returning false ends the transfer, are kept.
- The pipeline driver, scan operator and chunk source, whose bodies are stubs.
- Descriptors, type descriptors, status messages and `Buffer`: accessors and one-branch facts.
- The MD5 compression function, which is a parameter; the real file system, which is a map or inodes with atomic rename and delete; `deleteFile` having no return statement.
- Hikari, SQL execution, date formatting and logging.
- Floating-point results of the conversion and which objects fit another column class: the parameter `library`. NaN and infinities are not modelled.
- Strings are sequences of characters; encodings are not modelled. `long` is taken to have 64 bits.
- `getInstance` and the manager's destructor; null users in the cache key.
