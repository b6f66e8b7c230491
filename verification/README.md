# The wallpaper service, verified

A Dafny 4.11 model of the OpenHarmony wallpaper service and of the parts of its client library that
keep state, with proofs about it. `dafny verify dfyconfig.toml` checks everything.

## What is modelled

The service keeps, for every user, one entry for the home screen and one for the lock screen, an id
counter, two colours and a registry of listeners. It has to keep them in step with a directory tree of
pictures, videos, packages and a small state file. The model has the same shape.

* `Paths` - the files and directories the service names, as values and as the strings it builds.
* `FileDeal` - a disk (directories, and paths with bytes), the system calls over it, and recursive
  deletion. Every system call may fail; `if *` stands for the outcome the operating system picks. On a
  `reliable` system calls fail only for reasons that the disk shows; the contracts then fix the answer, so
  a method cannot meet them by failing needlessly. A file is opened without truncation, so new bytes are
  followed by the old tail.
* `StateFile`, `ServiceState` - the text of `wallpapercfg`, the state of the service, and for each kind
  of request the state a successful one must leave (`SetDone`, `ResetDone`, `SetAllDone`, ...) and the
  bounds a failed one must keep to (`Refused`: before the directory was cleared; `Spoiled`: after, within
  the directory of the slot; `Wiped`: a picture for a slot without an entry that set its user up afresh).
* `Places`, `EntryFacts`, `SlotSteps`, `ListSteps`, `UserSteps` - the lemmas that lead from single calls to
  these outcomes.
* `WallpaperService` - the class, with the methods of the source. Each is proved against the outcome
  predicate of its request, and its answer on a reliable system is a function of the request (`SetAnswer`,
  `CustomAnswer`, `ResetPrecheck`, `SetAllAnswer`). `Handle` shows that every request is a `Step`, and on
  a reliable system a `SureStep`, whose answer follows from the request.
* `RequestLaws` - what a caller sees of one request, in literal names, numbers and bytes.
* `ServiceRuns`, `RunInvariants`, `StateFileRuns`, `Isolation`, `IndexRuns`, `ChosenRuns`, `Serving`,
  `Readiness`, `TempRuns`, `SizeRuns`, `ReadRuns` - what holds over every run of such steps.
* `DiskRuns`, `Determined` - every run keeps files and directories where they belong, and in such a state a
  reliable system leaves nothing open: answers and states after a run follow from its requests.
* `ColorBoard` - the two colours, the listeners, and what each process is told.
* `ConcurrentMap` - the locked map and threads that use it. The callback loops take one step per entry.
* `PictureParcel`, `Anonymity` - the list that crosses a process border, and path shortening for logs.
* `ClientDescriptors`, `ClientReplay`, `ClientHistory`, `ClientManager` - the client library: which
  descriptors it owns, and what it registers again after the service dies.

Permissions, the state of the account and the active user are parameters of each request. The bytes of a
picture are what the caller's descriptor yields. The built-in pictures named by the theme manifests, and
the layout that the JSON library prints around the two digits of the state file, belong to `Setup`.

## What the code does not do

These are facts about the code that the proofs turned up. Where a law fails, the lemmas named give the
exact condition under which it holds. Those called `Sure...` are about a reliable system, and their condition
can be read off the state and the request beforehand.

* Pictures are written over temporary files that are never truncated. A screen is shown exactly the bytes
  that were set if and only if no longer temporary file was left over (`ServedIsWhatWasSet`,
  `OnePictureServesAll`). On a reliable system a request leaves one behind if and only
  if it is a list with an invalid item after good ones, or a set or a package that fails only because the
  directory of its slot is missing (`SureCleanExactly`). Runs without such requests show every screen what
  was set (`CleanRunShows`) and store no picture or package over 50 MiB and no video over 100 MiB
  (`CleanRunKeepsSizes`); otherwise a picture can inherit a longer tail. The file of `SetWallpaper` is
  shared by all users: what a failed request left there becomes the tail of another user's picture
  (`TailCrossesUsers`). The state file is safe because its text always has the same length.
* `SetAllWallpapers` ignores the result of clearing the directory, so an old picture that was not listed may
  survive; without a picture for the normal portrait screen it leaves an entry that a restart would not
  rebuild. `SetAllAgreesExactly` says when the entry is right, whether or not the clearing worked. It does
  not save the state file either (`SetAllKeepsStateFile`).
* A set or reset that fails after clearing leaves the old entry in the map. It is still right if and only if
  the same pictures are there or, for an entry that shows the built-in set, no portrait has appeared
  (`FailedAgreesExactly`). On a reliable system whose slots have their directories only a list can spoil the
  index: one without a normal portrait, or one that repeats a screen (`SureKeepsIndexExactly`; `IndexLost` is
  one). A restart mends any index (`RestartAgrees`).
* A missing entry makes the service set the user up afresh, which deletes the pictures of both screens. Two
  requests for one slot can get there. `SetWallpaper` looks up the colour of a picture even when installing
  it failed and the slot has no entry (`WipeExactly`, `WipeHappens`). And a mere read of a slot without an
  entry does it, with every directory in place (`ReadKeepsExactly`): above all the first read after a
  restart, before the accounts are booted (`ReadAfterRestartExactly`, `ReadLosesPictures`). Every other
  request for one slot, successful or not, keeps the files of all other slots (`SlotRequestKeepsOthers`).
  From the boot of an account until it is removed or the service restarts, every request for one of its
  slots does, and a read changes nothing, whatever fails (`BootedRunKeepsOthers`).
* `SetCustomWallpaper` publishes a package entry even when storing the package failed. After an inner set
  that was refused, read nothing or found no memory, the entry selects a file that is there if and only if
  the package was there before (`StoppedPackageChosenExactly`, `StoppedPackageSoundExactly`); `PackageLost`
  is a request for which it is not, and without the directory of the slot it never is
  (`NoDirectoryNoPackage`). `SureKeepsChosenExactly` says which requests keep every selected file.
* `LoadWallpaperState` reads two types and drops them; nothing but the filling in of missing entries lasts.
  An entry comes back from a restart with its type and its file if and only if it was a picture
  (`RestartKeepsTypeExactly`).
* In the client, a descriptor number that somebody else closed blocks its slot: the next descriptor for that
  type is never closed, unless its number is held for some type (`FetchedIsLostExactly`, `LostForever`).
* In the client, `Off` does not forget the listener and `On` remembers it before the service is asked. A
  replay therefore undoes unsubscriptions (`ReplayBringsBackExactly`), and one refused subscription makes
  every later replay fail (`OneRefusalBlocksReplay`) and loses the listeners for all events that come after
  the refused one by name (`RefusalCutsReplay`).

## Model

| member | source | states |
|---|---|---|
| Paths.DecimalInjective | services/src/wallpaper_service.cpp:526-536 | decimal user ids are injective, negative ones included |
| Paths.WrittenIsRead | services/src/wallpaper_service.cpp:1994-2006 | the name under which a picture is installed is the name under which a restart looks for it, for all twelve |
| Paths.RenderInjective | services/src/wallpaper_service.cpp:526-536 | two directories or files of the service have the same path string if and only if they are the same |
| Paths.PicturePathsDiffer | services/src/wallpaper_service.cpp:591-634 | the path string of a picture determines user, type, fold state and rotate state |
| FileDeal.OverwriteExact | services/src/wallpaper_service.cpp:1419-1437 | writing without truncation gives exactly the new bytes if and only if the old file was not longer |
| FileDeal.OverwriteAt | services/src/wallpaper_service.cpp:1419-1437 | byte by byte: the written bytes, and behind them what the file had at those places |
| FileDeal.FileSystem.Mkdir | utils/src/file_deal.cpp:54-63 | at most the directory is added; success means it is there; a reliable system succeeds where it is there or its parent is |
| FileDeal.FileSystem.DeleteFile | utils/src/file_deal.cpp:80-90 | success if and only if nothing is there any more; a missing file is a success; nothing else changes |
| FileDeal.FileSystem.Remove | utils/src/file_deal.cpp:113-118 | removes a file or an empty directory and nothing else; a reliable system fails on nothing else |
| FileDeal.FileSystem.CopyFile | utils/src/file_deal.cpp:65-78 | on success the target holds the bytes of the source; on failure only the target may differ |
| FileDeal.FileSystem.Write | services/src/wallpaper_service.cpp:1659-1677 | on success new bytes followed by the old tail; on failure at most an empty file was created |
| FileDeal.FileSystem.DeleteDir | utils/src/file_deal.cpp:92-126 | terminates; on success everything below is gone and the root stays exactly if asked to; on failure a sub-tree with unchanged contents is left; nothing outside changes; a reliable system fails only where there is no directory |
| FileDeal.FileSystem.DeleteEntry | utils/src/file_deal.cpp:108-118 | one turn of the deletion loop removes the entry with all below it, or fails leaving a sub-tree |
| FileDeal.ShrinkChild | utils/src/file_deal.cpp:99-119 | deleting one entry, wholly or in part, prunes the directory above and takes at most that entry off its list |
| FileDeal.SmallerSubtree | utils/src/file_deal.cpp:92-126 | the directories inside an entry are fewer than those inside its parent, also after part of it was deleted: the recursion ends |
| StateFile.ParseUndoesPrint | services/src/wallpaper_service.cpp:1614-1657 | reading a printed text, whatever follows it, gives back the two types; all texts have the same length |
| StateFile.PrintUndoesParse | services/src/wallpaper_service.cpp:1707-1723 | a text that reads as two types starts with the printed text of those types |
| StateFile.NumbersSay | services/src/wallpaper_service.cpp:1614-1657 | in the text 0 stands for built-in, 1 for a picture, 2 for a video and 3 for a package, at the two places of the home and the lock screen |
| ServiceState.DefaultPictures | services/src/wallpaper_service.cpp:447-479 | the portrait of the built-in set is never empty, and no built-in picture lies among the users' files; which pictures they are is in the rows of RequestLaws |
| ServiceState.RebuildIsFresh | services/src/wallpaper_service.cpp:591-634 | the entry a restart builds from any disk is well-formed, without an id, of type picture |
| ServiceState.NextIdCounts | services/src/wallpaper_service.cpp:582-589 | the k-th id is (k - 1) mod 2^31; the counter never overflows |
| ServiceState.BufferedAt | services/src/wallpaper_service.cpp:1903-1934 | byte by byte: what could be read, then zeros up to the length that was named |
| Places.Layout | services/src/wallpaper_service.cpp:526-536 | pictures, video and package lie in the directory of their slot; temporary and state files do not |
| Places.DistinctUsers | services/src/wallpaper_service.cpp:526-536 | no path is inside the directories of two users |
| Places.DistinctTypes | services/src/wallpaper_service.cpp:526-536 | no path is inside the directories of two slots |
| SlotSteps.MissingThenInit | services/src/wallpaper_service.cpp:1396-1444 | a failed picture for a slot without an entry, followed by the lookup of its colour, sets the user up afresh, except for a negative user id, where it stays within the slot |
| SlotSteps.TempThenBackup | services/src/wallpaper_service.cpp:1396-1444 | writing the temporary file and then installing it installs the buffer followed by the old tail of the temporary file |
| ListSteps.SetAllByParts | services/src/wallpaper_service.cpp:1827-1901 | temporary files, clearing and moves together give the outcome of a successful SetAllWallpapers |
| ListSteps.ListStops | services/src/wallpaper_service.cpp:1844-1859 | the first bad item of a list decides the answer, whatever follows it |
| ListSteps.MovesStayReady | services/src/wallpaper_service.cpp:1936-1959 | while no screen repeats, moving one picture leaves every later move possible |
| ListSteps.RepeatLeaves | services/src/wallpaper_service.cpp:1936-1992 | a list stopped at a repeated screen after a clearing that worked leaves exactly the pictures of the items moved before it |
| ListSteps.ClearedHoldsOnly | services/src/wallpaper_service.cpp:1860-1862 | after a clearing that worked the directory holds listed pictures only |
| UserSteps.InitByParts | services/src/wallpaper_service.cpp:378-398 | wiping and making the directories gives an empty user and entries that say so |
| UserSteps.TidyByParts | services/src/wallpaper_service.cpp:351-376 | start-up for one user leaves its directories there and no leftover original |
| WallpaperService.WallpaperService.constructor | services/src/wallpaper_service.cpp:148-150 | an empty index over the disk as it is, and no id yet |
| WallpaperService.WallpaperService.UpdataWallpaperMap | services/src/wallpaper_service.cpp:591-634 | the entry becomes what the disk says: six existing paths, or the built-in set |
| WallpaperService.WallpaperService.GetWallpaperSafeLocked | services/src/wallpaper_service.cpp:1194-1212 | a missing entry is rebuilt; the copy returned keeps only the portrait |
| WallpaperService.WallpaperService.MakeWallpaperIdLocked | services/src/wallpaper_service.cpp:582-589 | the next id, starting again after the greatest 32-bit one |
| WallpaperService.WallpaperService.SaveWallpaperState | services/src/wallpaper_service.cpp:1614-1677 | missing entries are filled in; the text names the new type and the other slot's old one |
| WallpaperService.WallpaperService.SetWallpaperBackupData | services/src/wallpaper_service.cpp:784-833 | on success the slot's directory holds the target alone with the bytes of the consumed temporary file, the state file and the entry announce it, the other slots are kept; any failure stays within the slot; on a reliable system it succeeds |
| WallpaperService.WallpaperService.SetWallpaper | services/src/wallpaper_service.cpp:1396-1444 | on success the whole new state, with the buffer followed by the old tail of the temporary file installed; a refusal changes nothing; a failure stays within the slot unless it is a picture for a slot without an entry; on a reliable system the answer is exactly that of the checks, whose limits are in RequestLaws.SetRefusals, and of an empty read, and where the directory of the slot is missing the failure and its effect are fixed too |
| WallpaperService.WallpaperService.InitUserDir | services/src/wallpaper_service.cpp:400-420 | only the three directories may be added, nothing is lost, and success means all are there; a reliable system fails only where a file is in the way |
| WallpaperService.WallpaperService.OnInitUser | services/src/wallpaper_service.cpp:378-398 | the user's directory becomes two empty directories and both entries the built-in set, or the entries stay; on a reliable system the former; a negative id, a missing base directory or a file in the way changes nothing |
| WallpaperService.WallpaperService.GetPictureFileName | services/src/wallpaper_service.cpp:567-580 | an entry present is only read; a missing one sets the user up afresh, which on a reliable system succeeds unless the id is negative, the base directory is missing or a file is in the way |
| WallpaperService.WallpaperService.ResetWallpaper | services/src/wallpaper_service.cpp:1080-1103 | refusals in order, otherwise the outcome of a reset; on a reliable system exactly the refusals fail; where the directory of the slot is missing it fails and changes nothing but a missing entry |
| WallpaperService.WallpaperService.SetDefaultDataForWallpaper | services/src/wallpaper_service.cpp:1113-1141 | on success an empty directory, the built-in set of that screen (RequestLaws.ResetShowsTheme says which), no id, and a state file that says so; any failure stays within the slot |
| WallpaperService.WallpaperService.RestoreUserResources | services/src/wallpaper_service.cpp:422-445 | the directory is emptied and the entry is the built-in one |
| WallpaperService.WallpaperService.SetCustomWallpaper | services/src/wallpaper_service.cpp:949-999 | the package entry is published with a second id whatever the inner set answered; on a reliable system the answer is a function of the request, and a request that passes the checks publishes; where the directory of the slot is missing the whole new state is fixed: nothing but missing entries if the state file cannot be written, and otherwise the entry published and the buffer left in the temporary file |
| WallpaperService.WallpaperService.DeleteTempResource | services/src/wallpaper_service.cpp:2173-2178 | only temporary files of the list go; on a reliable system all of them do |
| WallpaperService.WallpaperService.WriteAllTemps | services/src/wallpaper_service.cpp:1844-1859 | on success every item was valid and not empty and, if no screen is listed twice, every temporary file holds its buffer followed by the old tail; an invalid item leaves the files of the items before it behind; on a reliable system the answer is that of the first bad item, and one that cannot be read removes exactly the files of the items up to it; only temporary files change |
| WallpaperService.WallpaperService.SetAllWallpaperBackupData | services/src/wallpaper_service.cpp:1936-1992 | on success every picture of the list was moved to its place and entered, which takes pairwise distinct screens; with all temporary files there, a reliable system stops only at the first repeated screen, with exactly the pictures before it moved |
| WallpaperService.WallpaperService.UpdateWallpaperData | services/src/wallpaper_service.cpp:1876-1901 | publishes the new pictures under a new id, or stays within the slot and, on a reliable system, removes the temporary files; after a clearing that worked a reliable system fails exactly on a repeated screen and then holds the pictures of the items before it, with no id drawn and no entry changed; without the directory of the slot it always fails |
| WallpaperService.WallpaperService.SetAllWallpapers | services/src/wallpaper_service.cpp:1806-1874 | refusals in order, otherwise the outcome of setting the whole list, with the state file left alone; on a reliable system it succeeds if and only if the directory of the slot is there, the request is allowed, every item is valid and not empty, and no screen is listed twice; then the directory holds listed pictures only, and after a repeated screen those before it; where the directory is missing, so that clearing it fails, it goes on, fails at the first picture and leaves no temporary file and no other change but a missing entry |
| WallpaperService.WallpaperService.ClearWallpaperLocked | services/src/wallpaper_service.cpp:1214-1230 | the entry of the slot is gone and no other |
| WallpaperService.WallpaperService.OnRemovedUser | services/src/wallpaper_service.cpp:480-494 | both entries are gone; the directory is reduced to a sub-tree, and on a reliable system gone; other users are kept |
| WallpaperService.WallpaperService.LoadWallpaperState | services/src/wallpaper_service.cpp:1679-1724 | nothing but missing entries changes; the types read are those of the file's first 254 bytes |
| WallpaperService.WallpaperService.OnSwitchedUser | services/src/wallpaper_service.cpp:496-524 | no file changes; a user without a directory gets its directories and a rebuilt index, and otherwise the disk stays as it is; on a reliable system the active user has entries exactly if it is the new one, had them, or its state file is readable |
| WallpaperService.WallpaperService.InitData | services/src/wallpaper_service.cpp:270-296 | after a restart every entry is what the disk says and ids start again, leftover originals may go, and nothing outside the directory of user 0 changes; on a reliable system the disk is exactly the old one with its directories made and its originals removed, and the active user has entries exactly if it is user 0 or its state file is readable |
| WallpaperService.WallpaperService.InitUsersOnBoot | services/src/wallpaper_service.cpp:351-369 | every account has a rebuilt index, the other entries are kept; on a reliable system each account has its directories and no leftover original, and nothing else on the disk changed |
| WallpaperService.WallpaperService.GetFileNameFromMap | services/src/wallpaper_service.cpp:538-565 | the file the resource type selects |
| WallpaperService.WallpaperService.GetWallpaperDataPath | services/src/wallpaper_service.cpp:2113-2130 | the path of the fallback chain; a missing entry sets the user up afresh, and on a reliable system really empties the user's directory under the same conditions |
| WallpaperService.WallpaperService.Handle | services/src/wallpaper_service.cpp:1396-1444 | every request, whatever fails, is a step of the run model and keeps the service valid; on a reliable system it is a step of the sure model, whose answer and effect follow from the state and the request, whether the directory of the slot is there or missing |
| ServiceRuns.StepKeepsWellFormed | services/src/wallpaper_service.cpp:824-826 | every request, also one that fails half-way, keeps every entry's user, paths, portrait and id range right |
| ServiceRuns.RunKeepsWellFormed | services/src/wallpaper_service.cpp:824-826 | so in every state of every run |
| RunInvariants.StepKeepsIds | services/src/wallpaper_service.cpp:805 | at most one entry takes each id that is issued |
| RunInvariants.RunKeepsIds | services/src/wallpaper_service.cpp:582-589 | in every run ids stay in -1..2^31-1, and until 2^31 were issued no two live entries share one |
| RunInvariants.RestartedIds | services/src/wallpaper_service.cpp:270-296 | after a restart no entry has an id, so distinctness starts again |
| StateFileRuns.StepKeepsFit | services/src/wallpaper_service.cpp:1659-1677 | no request ever makes a state file longer than one text |
| StateFileRuns.RunKeepsFit | services/src/wallpaper_service.cpp:1659-1677 | so in every state of every run, whatever failed |
| StateFileRuns.SavedStateIsReadBack | services/src/wallpaper_service.cpp:1614-1724 | after any run, a set, package or reset that succeeds leaves exactly the text of both published types, and reading it gives them back |
| StateFileRuns.PublishedPackageIsExact | services/src/wallpaper_service.cpp:949-999 | a package request that drew an id leaves an exact state file, whatever its inner set answered |
| StateFileRuns.FailedKeepsStateExactly | services/src/wallpaper_service.cpp:784-833 | while the user has both entries, a failed set, list or reset leaves the state file exact if and only if it was |
| StateFileRuns.SetAllKeepsStateFile | services/src/wallpaper_service.cpp:1876-1901 | SetAllWallpapers keeps the state file right if and only if the slot already was a picture |
| Isolation.SlotRequestKeepsOthers | services/src/wallpaper_service.cpp:784-833 | unless it is a picture for a slot without an entry, or a read of one, a request for one slot, successful or not, keeps every other entry and every file of every other slot; the other entry of the user may only be rebuilt from the disk, if it was missing |
| Isolation.WipeExactly | services/src/wallpaper_service.cpp:567-580 | on a reliable system, a set that passes its checks but misses the directory of its slot keeps the files of every other slot if and only if it is no picture, or the slot has an entry, or the user id is negative, or the other directory of the user is empty |
| Isolation.WipeHappens | services/src/wallpaper_service.cpp:1433-1443 | a state and a request for the home screen that fails and deletes the lock screen picture of the user; the step exists, and every step on a reliable system does so |
| Isolation.ReadKeepsExactly | services/src/wallpaper_service.cpp:567-580 | on a reliable system a read keeps the files of every other slot if and only if its slot has an entry, or the user id is negative, or the other directory of the user is empty; and the files of its user if and only if its slot has an entry, or the id is negative, or there are none |
| ReadRuns.ReadAfterRestartExactly | services/src/wallpaper_service.cpp:270-296 | on a reliable system the first read after a restart keeps the files of its user if and only if it is user 0, or was active with a readable state file, or the id is negative, or there are none: all of it known before the restart |
| ReadRuns.ReadLosesPictures | services/src/wallpaper_service.cpp:2113-2130 | a state with every directory and both pictures of a user there, a restart and a read of the home screen that deletes both; the steps exist, and every such pair of steps on a reliable system does so |
| ReadRuns.StepKeepsEntries | services/src/wallpaper_service.cpp:480-494 | no request and no account event, whatever fails, takes an entry away, but a restart and the removal of its user |
| ReadRuns.BootedRunKeepsOthers | services/src/wallpaper_service.cpp:351-369 | along every run from the boot of the accounts on, whatever fails, a request for one slot of such an account keeps every other slot, and a read changes nothing, until the account is removed or the service restarts |
| IndexRuns.SetAllAgreesExactly | services/src/wallpaper_service.cpp:1827-1901 | after a list, whether or not the clearing worked, the entry is what a restart would find if and only if its portrait is the normal one and there, and every other picture that is there was listed |
| IndexRuns.ClearedSetAllAgreesExactly | services/src/wallpaper_service.cpp:1876-1901 | so after a clearing that worked, if and only if the list has a normal portrait |
| IndexRuns.StillRightExactly | services/src/wallpaper_service.cpp:591-634 | a restart finds the same six paths on two disks if and only if the same pictures are there, or both lack the normal portrait |
| IndexRuns.FailedAgreesExactly | services/src/wallpaper_service.cpp:784-833 | after a failure the entry of a still picture is what a restart would find if and only if the same pictures are there or, where the built-in set was shown, no portrait has appeared |
| IndexRuns.RepeatedAgreesExactly | services/src/wallpaper_service.cpp:1936-1992 | after a list stopped at its first repeated screen: if and only if the items before the repeat list exactly the pictures that were there, or no portrait where none was shown |
| IndexRuns.StepKeepsIndex | services/src/wallpaper_service.cpp:591-634 | a request that ran to its end or was refused keeps every still-picture entry equal to what a restart would find |
| IndexRuns.RunKeepsIndex | services/src/wallpaper_service.cpp:591-634 | so in every state of every such run |
| IndexRuns.SureKeepsIndexExactly | services/src/wallpaper_service.cpp:1827-1874 | on a reliable system a request for a slot with its directories keeps the index right if and only if it is not a list, or a refused one, or a list with a normal portrait, or one that repeats a screen under the condition of RepeatedAgreesExactly: all of it known before the call |
| IndexRuns.IndexLost | services/src/wallpaper_service.cpp:1876-1901 | a state and a list of one unfolded picture that succeeds and leaves an entry which a restart would not rebuild; the step exists, and every step on a reliable system does so |
| IndexRuns.RestartAgrees | services/src/wallpaper_service.cpp:270-296 | a restart mends the index, however wrong it was |
| IndexRuns.RestartRestores | services/src/wallpaper_service.cpp:351-369 | restart and boot after such a run bring back the six paths of every still picture of every account |
| IndexRuns.RestartKeepsTypeExactly | services/src/wallpaper_service.cpp:1679-1724 | after such a run, restart and boot bring an entry back with its type and the file it selected if and only if its type was picture |
| ChosenRuns.StepKeepsChosen | services/src/wallpaper_service.cpp:538-565 | a request that succeeded, was refused, or whose package was there although its inner set stopped, keeps the file each entry selects on disk |
| ChosenRuns.RunKeepsChosen | services/src/wallpaper_service.cpp:538-565 | so in every state of every run of such requests |
| ChosenRuns.StoppedPackageChosenExactly | services/src/wallpaper_service.cpp:949-999 | a package request that published although its inner set was refused, read nothing or found no memory selects a file that is there if and only if the package was there before |
| ChosenRuns.StoppedPackageSoundExactly | services/src/wallpaper_service.cpp:949-999 | so every entry of every user still selects a file that is there if and only if it was |
| ChosenRuns.PackageLost | services/src/wallpaper_service.cpp:949-999 | a sound state and a package request with an invalid length that leaves the home screen selecting a package that is not there; the step exists, and every step on a reliable system does so |
| ChosenRuns.NoDirectoryNoPackage | services/src/wallpaper_service.cpp:949-999 | a package request that published although its slot has no directory failed, and selects a package that is not there, whatever else happened |
| ChosenRuns.SureKeepsChosenExactly | services/src/wallpaper_service.cpp:538-565 | on a reliable system a request for a slot with its directories keeps every selected file there if and only if a condition on the state and the request holds: for a package, that it succeeds, is stopped before publishing, or was there; for a list, that it has a normal portrait or a built-in one is shown, or that the items before a repeat bring the selected file |
| Readiness.InitMakesReady | services/src/wallpaper_service.cpp:378-398 | after a user was set up both slots have their directories, so a reliable system answers by the request alone |
| Readiness.StepKeepsReady | services/src/wallpaper_service.cpp:784-833 | a set, package, list or reset keeps every ready slot of every user ready, whatever it answers, unless it is a failed picture for a slot without an entry |
| Readiness.SureRunAnswers | services/src/wallpaper_service.cpp:1396-1444 | along every run of requests for ready slots on a reliable system each answer is a function of its request alone, and the slots stay ready |
| Serving.LookupIsTotal | services/src/wallpaper_service.cpp:2132-2171 | a well-formed entry names a file if and only if the fold state is one of the three, for any rotate value |
| Serving.RunServesEveryScreen | services/src/wallpaper_service.cpp:2113-2171 | in every state of every run, whatever failed, each entry names some file for every screen |
| Serving.GoodRunServesFiles | services/src/wallpaper_service.cpp:2113-2171 | in every state of every run whose requests ran to their end or were refused, each still-picture entry serves on every screen a built-in picture or a file that is there |
| Serving.LookupFindsStand | services/src/wallpaper_service.cpp:2132-2171 | the fallback chain finds the exact screen, else the fold state's portrait, else the normal portrait |
| Serving.ServedIsWhatWasSet | services/src/wallpaper_service.cpp:1827-1874 | after a successful list with a normal portrait every screen is shown exactly its stand-in's bytes if and only if no longer temporary file was left over |
| Serving.OnePictureServesAll | services/src/wallpaper_service.cpp:784-833 | after one picture every screen is shown that file, with the bytes set if and only if no longer temporary file was left over |
| Serving.AtMostSixPictures | services/src/wallpaper_service.cpp:1936-1959 | a list that succeeds names no screen twice, hence fits the parcel limit |
| TempRuns.SureCleanExactly | services/src/wallpaper_service.cpp:1844-1859 | on a reliable system in order a request for a slot leaves no temporary file behind, where none was, if and only if it is neither a list with an invalid item after good ones nor a set or a package that fails only because the directory of its slot is missing |
| TempRuns.GoodListLeavesNone | services/src/wallpaper_service.cpp:1860-1892 | a list of good items leaves none of their temporary files, whether it succeeds, stops at a repeated screen, or fails because the directory of its slot is missing and could not be cleared |
| TempRuns.CleanRunShows | services/src/wallpaper_service.cpp:1419-1437 | along every run of requests and account events on a reliable system that starts in order and clean, none of which leaves temporary files, each request that succeeds shows every screen exactly the bytes it set, whoever made the requests before |
| TempRuns.TailCrossesUsers | services/src/wallpaper_service.cpp:1419-1437 | after a set that failed for want of a directory, the next picture, of whatever user, is its own bytes followed by the tail of the other, and equal to its own exactly if it is at least as long |
| SizeRuns.AcceptedLengths | services/src/wallpaper_service.cpp:1566-1582 | for an allowed user, a known type and a readable source, exactly the lengths from 1 to 104857600 for a video and to 52428800 otherwise are accepted; the others are invalid or oversized |
| SizeRuns.AcceptedLists | services/src/wallpaper_service.cpp:1844-1859 | a list passes its checks if and only if its type is known and every item is readable and from 1 to 52428800 bytes long |
| SizeRuns.CleanRunKeepsSizes | services/src/wallpaper_service.cpp:1566-1582 | no run on a reliable system that starts in order and clean, none of whose requests leaves temporary files, ever stores a picture or a package of more than 52428800 bytes or a video of more than 104857600 |
| RequestLaws.SetRefusals | services/src/wallpaper_service.cpp:1396-1418 | a set is refused for its user, then its type, then its length, with the limits in numbers; nothing changes |
| RequestLaws.CustomRefusals | services/src/wallpaper_service.cpp:949-981 | a package is refused for its caller, then for want of permission, then for its type, and nothing changes; without the scene board only a missing entry is filled in |
| RequestLaws.ResetRefusals | services/src/wallpaper_service.cpp:1080-1103 | a reset is refused for want of permission, then for its type, then for its user; nothing changes |
| RequestLaws.SetAllRefusals | services/src/wallpaper_service.cpp:1806-1843 | a list is refused for its size, then its caller, then for want of permission, then for its user; nothing changes |
| RequestLaws.ResetShowsTheme | services/src/wallpaper_service.cpp:447-479 | after a reset the home screen has the home pictures of the theme and the lock screen its own, with the fallback file where a portrait is missing; nothing is stored for it |
| RequestLaws.RebuiltShowsTheme | services/src/wallpaper_service.cpp:591-634 | so has every entry rebuilt while its portrait is not on disk |
| RequestLaws.SetUpShowsTheme | services/src/wallpaper_service.cpp:378-398 | so have both entries of a user that was set up |
| RequestLaws.StoredBytes | services/src/wallpaper_service.cpp:784-833 | a successful set stores, alone and under the name for its kind, the bytes that could be read, zeros up to the length named, and what a longer temporary file had behind |
| RequestLaws.StoredList | services/src/wallpaper_service.cpp:1936-1992 | so does a successful list for each item under the name of its screen state |
| RequestLaws.SetPublishes | services/src/wallpaper_service.cpp:800-831 | a successful set publishes its kind under the next id; a picture is shown on every screen, a video or a package leaves the portrait known before or that of the theme, and no other picture is kept |
| RequestLaws.PackagePublishes | services/src/wallpaper_service.cpp:982-989 | a package that drew its id is published whatever became of its file, with the portrait of before and no other picture |
| RequestLaws.ListPublishes | services/src/wallpaper_service.cpp:1876-1901 | a successful list publishes the listed pictures, keeps the portrait of before where it lists none, and keeps no other picture |
| RequestLaws.KnownNames | services/src/wallpaper_service.cpp:73-92 | the path strings of the base, the temporary file, the directories, the state file, the videos and the packages |
| DiskRuns.StepKeepsOrderly | services/src/wallpaper_service.cpp:400-420 | every request and account event, whatever fails, leaves no directory where a file of the service belongs and no file where a directory does |
| DiskRuns.RunKeepsOrderly | services/src/wallpaper_service.cpp:400-420 | so in every state of every run |
| DiskRuns.OrderlyRunAnswers | services/src/wallpaper_service.cpp:1396-1444 | along every run on a reliable system that starts in order, each request for a slot is answered as the request and the directories there say, whatever happened before |
| DiskRuns.EventMakesReady | services/src/wallpaper_service.cpp:351-398 | setting a user up, switching to one without a directory, booting its account, and a start for user 0 make both of its slots ready |
| DiskRuns.ReadyFromThenOn | services/src/wallpaper_service.cpp:351-398 | from such an event on, along every run on a reliable system in order, each request for a slot of the user is answered as it alone says, until the account is removed |
| Determined.StepDetermined | services/src/wallpaper_service.cpp:1396-1444 | on a reliable system in order the state after any request, read or account event, and the answer to a request, are functions of the state before |
| Determined.RunDetermined | services/src/wallpaper_service.cpp:1396-1444 | so two runs of the same requests and events from the same state pass through the same states and give the same answers |
| ColorBoard.ApplyKeepsTrace | services/src/wallpaper_service.cpp:1546-1564 | one request keeps the sequence of announced colours free of repetitions and the held colour its last |
| ColorBoard.ColorTrace | services/src/wallpaper_service.cpp:1546-1564 | for every run from start-up: each announced colour differs from the one before, the first from 0, and the last one is held |
| ColorBoard.PickedIsHeld | services/src/wallpaper_service.cpp:1546-1564 | only a colour that differs from the one held is announced; it is held from then on, and the other screen keeps its own |
| ColorBoard.RegistersExactly | services/src/wallpaper_service.cpp:1143-1177 | after On and Off exactly the caller's listener for that event differs; a null listener, and an ordinary application asking for "wallpaperChange", change nothing |
| ColorBoard.ListenerHearsAll | services/src/wallpaper_service.cpp:1600-1612 | from the registration of a listener for "colorChange" until its process unregisters for it, the process is sent exactly the colours announced meanwhile, in order, and the next change of either screen too |
| ColorBoard.SentExactly | services/src/wallpaper_service.cpp:1600-1612 | a changed colour is sent once to every process with a live listener for colours and to no other |
| ColorBoard.SilentAfterOff | services/src/wallpaper_service.cpp:1159-1177 | whoever unregistered for colours is sent nothing more until it registers again |
| ColorBoard.OthersHearNothing | services/src/wallpaper_service.cpp:1143-1157 | a process that never registered for colours is sent none |
| ColorBoard.WallpaperColors.GetColors | services/src/wallpaper_service.cpp:636-647 | the held colour of the screen asked for, and nothing for another type |
| ColorBoard.WallpaperColors.NotifyColorChange | services/src/wallpaper_service.cpp:1600-1612 | every process with a live listener gets the notice once, nobody else anything; which processes those are after any calls is in SentExactly and RegistersExactly |
| ColorBoard.WallpaperColors.OnColorsChange | services/src/wallpaper_service.cpp:1546-1564 | an unchanged colour does nothing; a changed one is stored, announced and sent |
| ColorBoard.WallpaperColors.On | services/src/wallpaper_service.cpp:1143-1157 | refusals change nothing; otherwise the caller's listener for the event is replaced |
| ColorBoard.WallpaperColors.Off | services/src/wallpaper_service.cpp:1159-1177 | the caller's listener for the event goes, nobody else's |
| ConcurrentMap.EraseIfCounts | utils/include/concurrent_map.h:133-154 | the number EraseIf reports is the number of entries its action answered true for |
| ConcurrentMap.NothingSkipped | utils/include/concurrent_map.h:144-150 | erasing while iterating skips no key: all keys before the next position have been visited |
| ConcurrentMap.ConcurrentMap.EraseIf | utils/include/concurrent_map.h:133-154 | the loop keeps exactly the entries answered false, with the values the action left, asks about each key once in ascending order, and counts the rest, as erase_if does |
| ConcurrentMap.ConcurrentMap.ForEach | utils/include/concurrent_map.h:156-167 | entries up to and including the first stop are rewritten, the others kept |
| ConcurrentMap.ConcurrentMap.Compute | utils/include/concurrent_map.h:183-201 | a missing key starts from a blank value; the action keeps or removes it |
| ConcurrentMap.ConcurrentMap.ComputeIfPresent | utils/include/concurrent_map.h:204-218 | a missing key is refused; otherwise the action keeps or removes the value |
| ConcurrentMap.ConcurrentMap.ComputeIfAbsent | utils/include/concurrent_map.h:220-232 | only a missing key is made |
| ConcurrentMap.ConcurrentMap.Find | utils/include/concurrent_map.h:76-85 | the value of the key, or none |
| ConcurrentMap.ConcurrentMap.InsertOrAssign | utils/include/concurrent_map.h:93-98 | the value is replaced, as FindAfterUpdate says of every key; true if and only if the key was new |
| ConcurrentMap.ConcurrentMap.Insert | utils/include/concurrent_map.h:100-105 | a present key keeps its value; true if and only if the key was new |
| ConcurrentMap.ConcurrentMap.Erase | utils/include/concurrent_map.h:107-111 | the key is gone; the count says whether it was there |
| ConcurrentMap.FindIsTheMap | utils/include/concurrent_map.h:76-98 | a new map has no value, a lookup gives back the value last assigned, and maps with the same lookups are the same |
| ConcurrentMap.FindAfterUpdate | utils/include/concurrent_map.h:93-117 | what a lookup of any key finds after InsertOrAssign, Insert, Erase and Clear |
| ConcurrentMap.FindAfterCompute | utils/include/concurrent_map.h:183-232 | what a lookup of any key finds after Compute, ComputeIfPresent and ComputeIfAbsent |
| ConcurrentMap.FindAfterIteration | utils/include/concurrent_map.h:133-167 | what a lookup of any key finds after EraseIf and after a ForEach that stops at some key |
| ConcurrentMap.ReadsTell | utils/include/concurrent_map.h:87-129 | Contains and Empty tell what lookups find, and reading leaves the map alone |
| ConcurrentMap.AnswersTell | utils/include/concurrent_map.h:93-111 | every change answers whether it found the key |
| ConcurrentMap.SizeCounts | utils/include/concurrent_map.h:125-154 | Size goes up by one with a new key and down with an erased one, and EraseIf answers by how much |
| ConcurrentMap.VisitProgresses | utils/include/concurrent_map.h:133-167 | one callback under the lock leaves an EraseIf or ForEach half done in the sense of its loop, or finished as if run at once |
| ConcurrentMap.StepKeepsInv | utils/include/concurrent_map.h:76-129 | every step of any thread keeps the map, the answers and the half-done operation in line with a sequential run |
| ConcurrentMap.NeverStuck | utils/include/concurrent_map.h:76-129 | while a call is outstanding some thread can take a step |
| ConcurrentMap.Linearizable | utils/include/concurrent_map.h:76-232 | however threads interleave, final contents and all answers are those of the calls run one after another in the order the lock was taken, each thread's calls in its own order |
| ConcurrentMap.LastAssignedIsFound | utils/include/concurrent_map.h:76-98 | in every sequential history, and so after any interleaving, the value assigned last to a key is found until some call erases the key or gives it to a callback |
| PictureParcel.ReadInvertsWords | frameworks/native/src/wallpaper_picture_info_by_parcel.cpp:28-83 | for any parcel, a list is read if and only if the parcel reads as what is written for it, within six items |
| PictureParcel.RoundTrip | frameworks/native/src/wallpaper_picture_info_by_parcel.cpp:28-83 | a list of up to six is read back but for temporary paths, whatever surrounds it; a longer one is refused |
| PictureParcel.WordsSay | frameworks/native/src/wallpaper_picture_info_by_parcel.cpp:28-39 | the words of a list: its length, then for each picture the fold state as 0, 1 or 2, the rotate state as 0 or 1, the descriptor and the length |
| PictureParcel.Marshalling | frameworks/native/src/wallpaper_picture_info_by_parcel.cpp:28-39 | true if and only if no write was refused, and then all words of the list were appended |
| PictureParcel.Unmarshalling | frameworks/native/src/wallpaper_picture_info_by_parcel.cpp:41-83 | the list the words say, or nothing at the first invalid state; the cursor stops right after the list |
| Anonymity.SplitUndoesJoin | utils/src/file_deal.cpp:241-245 | splitting a joined path gives its components |
| Anonymity.SlashesSeparate | utils/src/file_deal.cpp:237-245 | every slash ends a component; slashes in front or in a row add none |
| Anonymity.ShortForm | utils/src/file_deal.cpp:245-251 | up to four components become three stars; of more the first two and the last two stay around the stars |
| Anonymity.ShorteningTwice | utils/src/file_deal.cpp:235-252 | shortening is idempotent on every string |
| Anonymity.WhatIsRevealed | utils/src/file_deal.cpp:247-251 | two paths are shortened alike if and only if both are short, or both are long and agree in the first two and last two components |
| Anonymity.SplitPath | utils/src/file_deal.cpp:237-245 | the getline loop yields the non-empty components |
| Anonymity.ToBeAnonymous | utils/src/file_deal.cpp:235-252 | the shortened path |
| ClientDescriptors.StepOwnsExactly | frameworks/native/src/wallpaper_manager.cpp:185-203 | a step leaves ownership exact if and only if nobody else closes a descriptor the client obtained |
| ClientDescriptors.RunOwns | frameworks/native/src/wallpaper_manager.cpp:185-203 | in every such run the descriptors obtained and still open are exactly the ones held, one for each type, and the others were closed exactly once |
| ClientDescriptors.EachClosedOnce | frameworks/native/src/wallpaper_manager.cpp:65-72 | from the first call to the end of the destructor each descriptor obtained is closed exactly once, and nothing else is |
| ClientDescriptors.FetchedIsLostExactly | frameworks/native/src/wallpaper_manager.cpp:193-201 | a new descriptor outlives the destructor if and only if the number held before for its type is closed and no number held, for whatever type, is the new one |
| ClientDescriptors.LostForever | frameworks/native/src/wallpaper_manager.cpp:193-201 | a descriptor that is open and not held survives every later call and the destructor |
| ClientManager.WallpaperManager.Destroy | frameworks/native/src/wallpaper_manager.cpp:65-72 | every number held that is open is closed once, and no other |
| ClientManager.WallpaperManager.CloseWallpaperFd | frameworks/native/src/wallpaper_manager.cpp:594-602 | an open descriptor of the type is closed and forgotten; a stale one stays in the map |
| ClientManager.WallpaperManager.GetFile | frameworks/native/src/wallpaper_manager.cpp:185-203 | releases the old descriptor, asks the service, and enters the new one unless a stale one blocks the slot |
| ClientManager.WallpaperManager.On | frameworks/native/src/wallpaper_manager.cpp:512-534 | the listener is remembered before the service is asked, whatever it answers |
| ClientManager.WallpaperManager.Off | frameworks/native/src/wallpaper_manager.cpp:536-551 | the service forgets the listener, the client does not |
| ClientManager.WallpaperManager.RegisterWallpaperListener | frameworks/native/src/wallpaper_manager.cpp:604-622 | succeeds if and only if a service is reached and takes every listener; the service then has exactly those added, otherwise exactly those for the events before the first that was not taken, and that one if only its reply was lost |
| ClientManager.WallpaperManager.ResetService | frameworks/native/src/wallpaper_manager.cpp:85-96 | only the proxy of the dead service is dropped |
| ClientManager.WallpaperManager.OnRemoteDied | frameworks/native/src/wallpaper_manager.cpp:135-148 | between one and ten passes, stopping at the first that succeeds; the service has exactly the listeners added that the passes reached, after a success all of them |
| ClientReplay.OverlayTwice | frameworks/native/src/wallpaper_manager.cpp:140-146 | passes that failed half-way and a later one together register what one complete pass would |
| ClientReplay.LostReplyRegisters | frameworks/native/src/wallpaper_manager.cpp:512-534 | a call whose reply is lost has registered the listener, a dropped one changes nothing |
| ClientReplay.PassStops | frameworks/native/src/wallpaper_manager.cpp:613-620 | a pass in the order of the event names that stops at the first event not taken has registered exactly the events before it, and that one if only its reply was lost |
| ClientReplay.ReplayRestoresExactly | frameworks/native/src/wallpaper_manager.cpp:604-622 | after a successful pass the client's registrations are exactly the remembered ones if and only if it had no others, as with a fresh registry; other processes are unaffected |
| ClientHistory.LiveIsStanding | frameworks/native/src/wallpaper_manager.cpp:512-551 | after any calls the living service has registered an event if and only if the last call about it is an accepted subscription |
| ClientHistory.ReplayBringsBackExactly | frameworks/native/src/wallpaper_manager.cpp:536-551 | a replay brings back what the dead service had if and only if no remembered subscription was undone or refused since |
| ClientHistory.OneRefusalBlocksReplay | frameworks/native/src/wallpaper_manager.cpp:604-622 | with every call delivered, a pass succeeds if and only if no ordinary application ever subscribed to wallpaper changes |
| ClientReplay.RefusalCutsReplay | frameworks/native/src/wallpaper_manager.cpp:604-622 | with every call delivered, an ordinary application that remembers a listener for wallpaper changes gets back exactly the listeners for events that come before that one by name |

## Left out

- What a partly failing system leaves is bounded, not fixed: which of several system calls failed is not part of a step.
- Requests run one after another. The service releases its mutex between writing a temporary file and copying it, so two interleaved requests could mix their bytes; only `ConcurrentMap` has a thread model.
- The two maps of the service are plain maps in the model; that the locked map behaves like one is `Linearizable`. Its keys are numbered values rather than C++ integers.
- Callbacks that call back into the same `ConcurrentMap`, null callbacks, `ForEachCopies`, and copying or moving one map into another.
- The model works on typed paths; `RenderInjective` is the reason why they stand for the strings.
- Image decoding and packing, `SetWallpaperByPixelMap`, `GetPixelMap` and video checks: the libraries behind them are not part of this model. The colour picked from an image is an input of `ColorBoard`, which is kept apart from the disk.
- Permission, token, account and scene-board queries are parameters of a request. The JSON library is a fixed text around two digits, no longer than the 254 bytes the service reads.
- Notifications of wallpaper changes, common events and the callback proxy: they change no state but missing entries, which the outcomes account for.
- Reading: a `read` returns all bytes that are there; a `write` writes all bytes or fails. Symbolic links and unknown directory entries do not occur.
- `IsFileExistInDir`, `IsDefaultWallpaperResource`, `GetRealPath`, `ForcedRefreshDisk` and the simple getters of the service: only easy members would be added.
- IPC stubs and proxies, the script bindings, the extension ability and its connection retries, tracing, dumps and fault reports.
- Descriptors that the service receives with a request are closed by the service on most paths; this is not modelled.
- In the client, the wait between two passes of the replay, and running out of memory for a listener stub.
- WallpaperService.WallpaperService.Handle: covers the requests of the service class except the colour part and `GetFileNameFromMap`, which changes nothing.
- ClientManager.WallpaperManager.GetFile: that a failing service call opens no descriptor, and that a new one gets a number not in use, are assumptions about the system.
