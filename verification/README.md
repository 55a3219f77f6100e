# A verified model of cbftp's transfer engine

cbftp spreads releases between FTP sites. Its engine is one event loop over state that is
kept twice: counters beside the flags they count, indexes beside the arrays they point
into, boards of possible transfers beside the file lists they follow from. This project
models that state in Dafny and proves that the two sides of it agree after every step, and
says exactly when they do not.

What is modelled, by file:

- `FileListContent`, `FileListLaws`, `FileListRuns`, `FileListSweep`, `FileList`: a remote
  directory listing with its lower case index, its counters, its set of changed names, and
  the reading of a raw listing with the guarded sweep at its end.
- `CountingSort`, `ScoreBoardElement`, `ScoreBoardIndex`, `ScoreBoard`: the board of
  possible transfers, an array of pooled elements with swap-remove, two nested indexes, a
  counting sort and a shuffle of equal scores.
- `Scores`, `BoardRows`: how a possible transfer is scored, in 64 bit and 16 bit arithmetic.
- `BoardSync`, `BoardRuns`, `BoardEvolution`, `Engine`: the upkeep of the two boards from
  the changed names of the lists, as a definition, over whole runs, and as the nested loops
  of the engine. `Attempts` is the count of transfer attempts behind a failed transfer.
- `SiteState`, `SiteLaws`, `SiteSteps`, `SiteRuns`, `SiteLogic`: the connections, transfer
  slots and requests of one site. `Sums` holds the sums that the accounting rests on.
- `Paths`, `RemoteTree`, `RecursiveDelete`, `RecursiveDeleteRun`: recursive delete, from
  path text to a whole run against a tree of directories and files.
- `JobLists`, `SpreadJobs`: the lists that spread jobs move between.
- `Unsimilar`, `Potential`, `PotentialLaws`, `HttpConn`, `HourlyTracking`: the series test of
  file names, the potential tracker, the response pipeline (section 6.3.2 of RFC 7230), and the hourly
  totals with their text form.

Each component has its values and the meaning of every operation as functions, the laws of
those functions as lemmas, and a class whose methods carry the loops, the branches and the
updates in place and are proved against those functions. A record of a class's fields is
held in one field (`c`, `s`, `t`, `p`, `r`) where the class has many of them.

## Where the code does not keep a property

Each of these is a lemma with an input, next to the exact condition under which the
property holds.

- A user name of eight characters equals every longer name that it begins, so the count of
  own files drifts when a file changes hands between two such names (`OwnedDrifts`,
  `EightCharNotTransitive`; exact condition `OwnerStepExact`).
- A file whose size falls back to zero leaves a hollow key on the board (`HollowComes`). A
  reset replaces the lists of a race and leaves their marks: a file of a replaced list is then
  put for the root lists of the race, whatever its sub path was (`LeftoverHappens`,
  `LeftoverComes`; which keys are put is exact in `LeftoverExact`). After all changes were
  processed the boards are the wanted keys if and only if there is no key of these two kinds
  (`DrainExact`).
- Of two names of one place that differ in case one can be put on the board that the source
  does not have (`CaseVariantIsPut`; exact condition in `PutExact`).
- While the changes of a list are processed, the first file that was lost and is put back
  leaves the speed of the opposite direction behind, and the names after it are scored with
  it (`WrongSpeedDrain`; exact condition in `CarriedExact`).
- A share of own files that is no percentage, or a list ahead of the recorded best progress
  by more than one part in 2000, is worth more than the full points and can wrap the unsigned
  score (`OvershareBreaksBound`, `ProgressBreaksBound`; exact conditions in `OwnershipExact`
  and `ProgressExact`).
- A file of more than nine petabytes makes the product for its size wrap, and scores less than
  a smaller one (`HugeFileScoresNothing`; exact condition in `FullSizeExact`).
- A repeated line in a listing makes the guard skip the sweep, and a file that is gone
  stays (`RepeatedLineHidesRemoval`; exact condition in `GuardedSweepExact`).
- A connection that is locked for a file while it still lists a directory, and then handed
  back as a file transfer, never gives its slot back (exact condition in `ReturnConnExact`
  and `HandBack`).
- A connection that was turned away takes a request without being logged in: the number of
  available connections becomes negative and an upload slot counts as free
  (`DeniedTakesRequest`; exact meaning in `AvailableExact`).
- A recursive delete of the root ends there, since the root contains nothing that is in it
  (`RootContainsNothing`; exact condition in `ContainsEntry`), and a relative base of one
  letter is glued to the name after it (`ShortBaseIsGlued`; exact condition in
  `SeparatorExact`).
- A recursive delete that is refused the directories of its longest doomed paths never ends:
  each refusal dooms one more directory (`RefuseAll`). It ends at once when the refused
  directory is the base (`FailedCwd`), and after asking for each doomed path just once when
  nothing is refused (`Run`).
- A recursive delete of own files asks for every directory, also for those with files of
  others in them, which stay (`SharedStays`; which ones is exact in `DirIsEmpty`).
- Resetting a job that was evicted makes a current job that is not among all jobs
  (`ResetOfEvicted`); resetting any other one keeps the partition (`ReactivatedKeeps`).
- The potential tracker can replace a better transfer of a site by a worse one
  (`BetterIsReplaced`; exact condition in `LosesBetterExact`), can lose the best one of all
  that way (`BestIsLost`; exact condition in `BestLostExact`), and can hold its best one twice
  (`BestIsThereTwice`; exact condition in `SecondCopyExact`).
- A second response to the same request breaks the order of the waiting ones, and blocks the
  pipeline for good once the first one was sent (`AnsweredTwiceBlocks`; exact condition in
  `AnsweredTwiceExact`).
- A clock that passes 32 bits between saving and loading makes it look as if less time had
  passed, or none: the hours that are loaded are the right ones if and only if no whole hour
  is lost by that, or nothing but empty hours is loaded (`LoadExact`, `Reload`; until the clock
  is at the time stamp again `LoadAfterWrap` says so in terms of what was saved).

## Model

| member | source | states |
|---|---|---|
| FileListContent.EightCharNotTransitive | src/util.cpp:384-393 | the comparison of user names on eight characters is not transitive |
| FileListContent.OrderWithout | src/filelist.cpp:183-211 | erasing a file from the first-seen order keeps the other names, each once |
| FileListLaws.FoundByName | src/filelist.cpp:235-247 | a stored name finds itself; any other finds a file whose name differs in case only, exactly when the index has an entry for it |
| FileListLaws.LowerExact | src/util.cpp:175-184 | two names have the same lower case form if and only if they differ in the case of letters only |
| FileListLaws.UpdatedFile | src/filelist.cpp:62-155 | a file is as its line says, except that a stored one keeps its kind and whether it is being uploaded; no other file changes |
| FileListLaws.UpdatedState | src/filelist.cpp:62-155 | a new file or size is a change for the boards, another owner, group or date a change of meta data, and anything else none |
| FileListLaws.NewIsFound | src/filelist.cpp:62-155 | a new file is found under its name in any case of its letters |
| FileListLaws.TouchedFile | src/filelist.cpp:157-181 | a touched file is stored, and is being uploaded if and only if that was asked for or under way; otherwise a stored one stays, and a new one is empty |
| FileListLaws.TouchedState | src/filelist.cpp:157-181 | only a new file is news for the boards |
| FileListLaws.FlaggedFile | src/filelist.cpp:213-233 | the reported size is taken over and nothing else of any file changes; another size is a change for the boards |
| FileListLaws.FinishedFile | src/filelist.cpp:629-637 | the file stops being uploaded, which is a change of the list but none for the boards; nothing else changes |
| FileListLaws.OrderWithoutAt | src/filelist.cpp:183-211 | the other files keep their places in the order when one is removed |
| FileListLaws.SweptSize | src/filelist.cpp:526-545 | after a sweep that removed something the size bound is the size of a file that is left |
| FileListContent.MaxSize | src/filelist.cpp:536-541 | the largest size over the stored non-directories, and it is attained |
| FileListContent.StaleNames | src/filelist.cpp:526-532 | exactly the names not touched by the last listing and not being uploaded |
| FileListContent.RemoveAllSound | src/filelist.cpp:533-536 | removing a list of names removes exactly those files and keeps the indexes sound |
| FileListLaws.ContainsIsLookup | src/filelist.cpp:306-315 | a name is contained if and only if looking it up finds a file |
| FileListLaws.UpdateSound | src/filelist.cpp:62-155 | a listing line keeps the order, the lower case index and the size bound sound |
| FileListLaws.SetUpdateFlagSound | src/filelist.cpp:213-233 | the size a transfer reports keeps the indexes and the size bound sound |
| FileListLaws.ShortUserExact | src/filelist.cpp:90-99 | when the step of the own-file count is exact for every user name |
| FileListLaws.UpdateCounted | src/filelist.cpp:62-155 | upload and size counters follow their definitions; the own-file count does if and only if the owner step is exact |
| FileListLaws.TouchCounted | src/filelist.cpp:157-181 | announcing a file keeps all counters equal to their definitions |
| FileListLaws.RemoveCounted | src/filelist.cpp:183-211 | removing a file keeps all counters equal to their definitions |
| FileListLaws.SetUpdateFlagCounted | src/filelist.cpp:213-233 | the reported size keeps the counters right if and only if the file is no directory and the size is in range |
| FileListLaws.FinishUploadCounted | src/filelist.cpp:629-637 | ending an upload keeps all counters equal to their definitions |
| FileListLaws.PercentageBounds | src/filelist.cpp:564-571 | with an exact own-file count the share of own files is between 0 and 100 |
| FileListLaws.NoUploadsNoContent | src/filelist.cpp:500-502 | the number of uploaded files is zero if and only if no stored file has content |
| FileListRuns.RunTracks | src/filelist.cpp:62-233 | over any run without flush every name whose existence, size, owner or kind differs from the start is in the change set |
| FileListRuns.RunAlerts | src/filelist.cpp:62-233 | over any run a list that does not say that it changed has the same names with the same sizes and kinds |
| FileListRuns.ApplyCounted | src/filelist.cpp:62-233 | an operation keeps all counters right if and only if its condition holds |
| FileListRuns.RunCounted | src/filelist.cpp:62-233 | over runs of operations that meet their conditions all counters equal their definitions |
| FileListRuns.RunPercentage | src/filelist.cpp:564-571 | over any run the share of own files is the rounded quotient of the two counters |
| FileListRuns.RunPercentageBounds | src/filelist.cpp:564-571 | over such runs from an empty list the share of own files is between 0 and 100 |
| FileListRuns.OwnedDrifts | src/filelist.cpp:90-99 | a file that changes hands between two names of the user's first eight characters makes the own-file count wrong |
| FileListSweep.LineEnd | src/ftpconn.cpp:1479-1480 | a line of a listing ends after its first line feed or at the end of the buffer |
| FileListSweep.ListingLines | src/ftpconn.cpp:1471-1486 | a text of lines, with or without a status code and a dash in front, up to a status that ends the listing gives back exactly the lines of at least 40 characters, in order |
| FileListSweep.EntriesFiles | src/ftpconn.cpp:1475-1486 | after the update loop exactly the listed names carry the new touch value and nothing was lost |
| FileListSweep.LastLineWins | src/ftpconn.cpp:1475-1486 | after a listing a file is as the last line about it says |
| FileListSweep.SweepFiles | src/filelist.cpp:526-545 | the sweep leaves exactly the listed names and the files being uploaded |
| FileListSweep.GuardedSweepExact | src/ftpconn.cpp:1471-1489 | the sweep guarded by the number of lines leaves the same files as an unconditional one if and only if repeated lines do not hide a removal |
| FileListSweep.DistinctListing | src/ftpconn.cpp:1471-1494 | for a listing of distinct names the guarded sweep refines the unconditional one |
| FileListSweep.RepeatedLineHidesRemoval | src/ftpconn.cpp:1471-1494 | a repeated line makes the guard skip the sweep while a file is gone |
| FileLists.FileList.Lookup | src/filelist.cpp:235-247 | finds a file exactly when the list contains the name |
| FileLists.FileList.UpdateFile | src/filelist.cpp:62-155 | a valid line has the effect of an update, an invalid one none |
| FileLists.FileList.TouchFile | src/filelist.cpp:157-181 | announces a file once; it is being uploaded if and only if that was asked for or under way, and no other file changes |
| FileLists.FileList.RemoveFile | src/filelist.cpp:183-211 | takes the file out of the map, the order, the index and every counter |
| FileLists.FileList.SetFileUpdateFlag | src/filelist.cpp:213-233 | takes over the reported size and notes a change; no other file changes |
| FileLists.FileList.FinishUploadOf | src/filelist.cpp:629-637 | the file is not being uploaded any more, and no other file changes |
| FileLists.FileList.CleanSweep | src/filelist.cpp:526-545 | the two loops remove the stale files and recompute the largest size |
| FileLists.FileList.ParseFileList | src/ftpconn.cpp:1471-1494 | walking the buffer has the effect of reading the accepted lines and the guarded sweep |
| FileLists.FileList.ResetScoreBoardUpdates | src/filelist.cpp:585-588 | forgets the changed names and the update state |
| CountingSort.SlotOrder | src/scoreboard.cpp:118-135 | the slots order by descending score, equal scores reversed |
| CountingSort.SlotInjective | src/scoreboard.cpp:118-135 | no slot is written twice |
| CountingSort.SlotOnto | src/scoreboard.cpp:118-135 | every slot is written |
| ScoreBoardElements.Without | src/scoreboard.cpp:105-115 | the rows left when one key goes and the last row, its flags unset, has moved into its place |
| ScoreBoardIndex.LinkNext | src/scoreboard.cpp:56-58 | making the first spare element live keeps both indexes in bijection with the live prefix |
| ScoreBoardIndex.RemoveMoving | src/scoreboard.cpp:104-115 | swap-remove keeps both indexes in bijection with the live prefix and the pooled elements distinct |
| ScoreBoardIndex.SortKeeps | src/scoreboard.cpp:118-135 | the copied back array is a permutation of the live prefix, in descending score, that keeps the indexes |
| ScoreBoards.ScoreBoard.Find | src/scoreboard.cpp:67-83 | finds the element of a key exactly when the key is on the board |
| ScoreBoards.ScoreBoard.Update | src/scoreboard.cpp:25-59 | adds one row with both flags unset, or refreshes its score and size, unsets its attempt and keeps its priority and skip check; no other row changes, even when a spare element is reused |
| ScoreBoards.ScoreBoard.Remove | src/scoreboard.cpp:89-116 | deletes exactly one key and clears the flags of the row that moved |
| ScoreBoards.ScoreBoard.Scatter | src/scoreboard.cpp:128-131 | every live element is written to its slot |
| ScoreBoards.ScoreBoard.BucketPositions | src/scoreboard.cpp:124-127 | the last slot of each score |
| ScoreBoards.ScoreBoard.CountScores | src/scoreboard.cpp:120-123 | how often each score occurs |
| ScoreBoards.ScoreBoard.Sort | src/scoreboard.cpp:118-135 | a permutation of the live elements in descending score |
| ScoreBoards.ScoreBoard.Shuffle | src/scoreboard.cpp:177-185 | a permutation within a run of equal scores |
| ScoreBoards.ScoreBoard.ShuffleEquals | src/scoreboard.cpp:158-175 | a permutation that leaves the score at every place |
| ScoreBoards.ScoreBoard.Wipe | src/scoreboard.cpp:217-244 | deletes exactly the keys that mention the list |
| ScoreBoards.ScoreBoard.ResetSkipChecked | src/scoreboard.cpp:246-253 | clears the skip check of exactly the rows to the list |
| Scores.ScaledAtMost | src/engine.cpp:2168-2176 | a factor between zero and the divisor never yields more than the full points, also where the product wraps |
| Scores.ScoreBound | src/engine.cpp:1752-1814 | a file without priority scores at most 9500, and no addition wraps |
| Scores.PrioritySteps | src/engine.cpp:2152-2166 | each level of site priority is worth a fifth of the points more, and the highest one all of them |
| Scores.PriorityOrder | src/engine.cpp:2152-2166 | a higher priority is worth more points |
| Scores.BetterScores | src/engine.cpp:1752-1814 | a transfer that is as good in file size, speed, priority, share of own files and progress never scores less, and one to a site of higher priority scores more |
| Scores.FullSizeExact | src/engine.cpp:1767-1781 | the largest file has the full points for its size if and only if the product stays below 64 bits |
| Scores.HugeFileScoresNothing | src/engine.cpp:1767-1781 | a file of somewhat more than nine petabytes has no points for its size |
| Scores.OwnershipExact | src/engine.cpp:1785-1795 | own files count for at most the full points if and only if their share is a percentage |
| Scores.ProgressExact | src/engine.cpp:1797-1810 | progress counts for at most the full points if and only if the list is not ahead by more than one part in 2000 |
| Scores.OvershareBreaksBound | src/engine.cpp:1785-1795 | with a share of own files of 200 the score is above the maximum |
| Scores.ProgressBreaksBound | src/engine.cpp:1797-1810 | a list ahead of the best progress scores above the maximum |
| BoardSync.NoClash | src/engine.cpp:1244-1382 | the two lists of a key never ask for opposite things, so the order of the lists does not matter |
| BoardSync.LookupIsExact | src/filelist.cpp:235-247 | with no two names of one place that differ in case only, looking a name up is exact |
| BoardSync.PutExact | src/engine.cpp:1298-1375 | a key that is put is wanted if and only if the source has a file of that very name and neither list was replaced by a reset |
| BoardSync.CaseVariantIsPut | src/engine.cpp:1298-1347 | a key whose name the source does not have is put on the board |
| BoardSync.ListDrained | src/engine.cpp:1258-1263 | a changed list that has failed loses all its keys and keeps its changes; one that has not failed has no changes left |
| BoardSync.PutWhere | src/engine.cpp:1343-1372 | a key is new on the fail board only if it was given up, and new on the other board only if it was not |
| BoardSync.StandsAfter | src/engine.cpp:1244-1382 | what is on a board after processing, between lists that races still have, is possible and right, or has a change to be processed |
| BoardSync.PresentAfter | src/engine.cpp:1244-1382 | what is wanted after processing and has no unprocessed change is on a board |
| BoardSync.DrainKeeps | src/engine.cpp:1244-1382 | processing any set of changed lists keeps the boards in agreement with the lists |
| BoardSync.HollowStays | src/engine.cpp:1348-1354 | a key whose file has no content is neither put nor taken off while the destination lacks the file |
| BoardSync.DrainHollow | src/engine.cpp:1244-1382 | once all changed lists are processed, the keys between lists that races still have are exactly the wanted ones and those that were hollow before |
| BoardSync.LeftoverExact | src/engine.cpp:1244-1263 | a mark that is left over by a reset puts a key if and only if it leads between the replaced list and the root list of another site, and the file is there and missing |
| BoardSync.DrainExact | src/engine.cpp:1244-1382 | the keys on the boards are exactly the wanted ones if and only if no key was hollow and none is left over by a reset |
| BoardRuns.RunIsEdit | src/filelist.cpp:62-233 | any run of operations on a list is a step that the boards can follow |
| BoardRuns.EditedKeeps | src/filelist.cpp:62-233 | any operations on a list keep the agreement, since every change is noted and announced |
| BoardRuns.AddedKeeps | src/engine.cpp:1157-1242 | adding a list keeps the agreement |
| BoardRuns.EndedKeeps | src/engine.cpp:752-758 | taking a race that has ended off the boards keeps the agreement for all others |
| BoardRuns.RaceResetKeeps | src/engine.cpp:730-750 | a race that starts again with new lists keeps the agreement, although its old lists stay marked |
| BoardRuns.ResetLeavesMarks | src/engine.cpp:730-750 | what was marked of a race that is reset stays marked, as a list that was replaced |
| BoardRuns.LeftoverComes | src/engine.cpp:1244-1263 | a changed name of a replaced list is put for a root list that lacks it, and the boards are wrong |
| BoardRuns.LeftoverHappens | src/engine.cpp:730-750 | any marked file comes to that in three steps: its race is reset, a root list of another site appears, and it is found to exist |
| BoardRuns.HollowComes | src/engine.cpp:1348-1354 | a wanted key becomes hollow when its file is listed without content |
| BoardRuns.RetriedKeeps | src/engine.cpp:1990-1991 | forgetting the attempts of a race and putting its failed transfers back keeps the agreement |
| BoardRuns.FailedMoves | src/engine.cpp:1645-1658 | a transfer that failed changes boards if and only if it was given up |
| BoardRuns.StepFails | src/engine.cpp:1343-1372 | every step keeps the fail board to transfers that were given up, as counted by their attempts |
| BoardRuns.StepKeeps | src/engine.cpp:885-937 | every step of the engine keeps the agreement |
| BoardRuns.RunKeeps | src/engine.cpp:1157-1382 | in every state of every run, with attempts, failures, retries and resets, the boards agree with the lists but for changes still to be processed, and every key on the fail board was given up |
| BoardRuns.RunInSync | src/engine.cpp:1244-1382 | in every run, whenever all lists that say that they changed have been processed, the boards hold exactly the wanted keys, if and only if none was hollow or left over by a reset |
| BoardRuns.RunInSyncPlain | src/engine.cpp:1244-1382 | with no hollow key, and no mark and no key of a replaced list, the boards hold exactly the wanted keys |
| BoardEvolution.LostName | src/engine.cpp:1298-1347 | what the branch for a lost file does to every key |
| BoardEvolution.FoundName | src/engine.cpp:1348-1375 | what the branch for a stored file does to every key |
| BoardEvolution.NextList | src/engine.cpp:1244-1382 | processing one more list composes with the lists before it, in any order |
| BoardEvolution.NextSitePuts | src/engine.cpp:1180-1197 | one more site adds its keys in both directions and nothing else |
| BoardRows.CarriedExact | src/engine.cpp:1285-1342 | the speed carried along is that of the opposite direction if and only if a name before was lost and put back |
| BoardRows.PrioByName | src/engine.cpp:52-60 | exactly the names that end in .sfv, in any case, have priority, and exactly those that end in .nfo have it later |
| BoardRows.PrioByStem | src/file.cpp:355-365 | any stem with .sfv or .nfo after it is such a name |
| BoardRows.NfoWaits | src/engine.cpp:1756-1766 | a file that ends in .nfo has the top score if and only if the race is more than 15 seconds old |
| BoardRows.BetterRow | src/engine.cpp:1743-1814 | readings of source, destination and speed that are as good never lower the score of a key, and a higher priority of the destination raises it |
| BoardRows.RescoredAgrees | src/engine.cpp:1743-1750 | scoring an element again gives what its key would score if it were put now |
| BoardRows.WrongSpeedDrain | src/engine.cpp:1285-1373 | of two changed names the second is scored with the wrong speed in one order and with the right one in the other |
| BoardRows.PriosKept | src/scoreboardelement.cpp:49-53 | a refreshed element may keep its priority type, since the name settles it |
| BoardRows.ScoresKept | src/engine.cpp:1752-1814 | names that end in .sfv keep the score 65535, and names that end neither in that nor in .nfo one of at most 9500 |
| BoardRows.HandedScores | src/scoreboard.cpp:61-65 | rows that move between the boards keep their scores in range |
| BoardRows.SortedByPriority | src/scoreboard.cpp:118-135 | on a sorted board every name that ends in .sfv comes before every name that ends neither in that nor in .nfo |
| Engines.Engine.UpdateLost | src/engine.cpp:1298-1347 | the branch for a lost name changes both boards as defined |
| Engines.Engine.UpdateFound | src/engine.cpp:1348-1375 | the branch for a stored name changes both boards as defined |
| Engines.Engine.UpdatePair | src/engine.cpp:1285-1375 | the loop over changed names, in any order, changes both boards as defined and scores each row with the speed carried along |
| Engines.Engine.UpdateSite | src/engine.cpp:1265-1376 | a missing list is added and an unknown one skipped |
| Engines.Engine.UpdateList | src/engine.cpp:1259-1377 | one changed list against all sites; a failed list is wiped and its changes stay |
| Engines.Engine.UpdateScoreBoard | src/engine.cpp:1244-1382 | the nested loops leave exactly the keys that processing the pending lists means, each scored by its readings; with readings in range every .sfv file has the score 65535 and comes before every file that is neither .sfv nor .nfo |
| Engines.Engine.AddToScoreBoardForPair | src/engine.cpp:1201-1242 | adds exactly the files with content that the destination lacks |
| Engines.Engine.AddToScoreBoard | src/engine.cpp:1157-1199 | adds exactly the wanted keys between the list and the lists of its place; .sfv files score 65535 and others within their maximum |
| Engines.Engine.TransferAttempted | src/race.cpp:676-682 | counts the attempt, and changes no board |
| Engines.Engine.TransferFailed | src/engine.cpp:1645-1658 | a transfer that was given up by its attempts moves to the other board with its score, nothing else changes, and the board is sorted |
| Engines.Engine.RestoreFromFailed | src/engine.cpp:774-790 | exactly the failed keys of the race move back, with their scores, and the board is sorted |
| Engines.Engine.RetryFailed | src/engine.cpp:1990-1991 | the attempts of the race are forgotten and its failed transfers are back; a race without attempts has none |
| Engines.Engine.RaceEnds | src/engine.cpp:752-758 | every key that mentions a list of the race leaves both boards |
| Engines.Engine.WipeFromScoreBoard | src/engine.cpp:752-758 | wiping the lists that the race has rids both boards of the race, keys of replaced lists included |
| Engines.Engine.ResetRace | src/engine.cpp:730-750 | nothing of the race is on the boards or counted as tried, its lists are replaced, and the agreement is kept |
| Engines.Engine.RefreshScoreBoard | src/engine.cpp:1384-1392 | every row is scored again by the readings of now and no key comes or goes; every .sfv file has the score 65535 and comes before every file that is neither .sfv nor .nfo |
| Engines.Engine.JobFileListRefreshed | src/engine.cpp:885-937 | the list and the missing ones of its site join the boards, the agreement is kept, the board is sorted, and without overload the boards are exact but for hollow keys and keys of replaced lists once every list that says that it changed was refreshed |
| TransferAttempts.AttemptCounted | src/race.cpp:684-704 | both counters of an attempt equal the attempts they are about |
| TransferAttempts.GivenUpStays | src/race.cpp:633-642 | a transfer that was given up stays so, and only an attempt for the same file and destination gives one up |
| TransferAttempts.RepeatedGivesUp | src/race.cpp:633-642 | the same attempt gives a transfer up when it is made four times, one from another list when it is made seven times |
| TransferAttempts.PairWithinAll | src/race.cpp:684-704 | no attempt of a pair goes unnoticed at the destination |
| TransferAttempts.Attempts.HasFailedTransfer | src/race.cpp:633-642 | four attempts of the pair or seven at the destination, counted over the history |
| TransferAttempts.Attempts.AddTransferAttempt | src/race.cpp:684-704 | adds one attempt to the history |
| TransferAttempts.ForgetGivenUp | src/race.cpp:669-674 | once its attempts are cleared nothing of a race is given up, and nothing changes for others |
| TransferAttempts.Attempts.ClearTransferAttempts | src/race.cpp:669-674 | forgets the attempts of one race and tells whether there were any |
| SiteLaws.BooksMove | src/sitelogic.cpp:2142-2176 | a change of one connection that moves the four counters by as much keeps them right |
| SiteLaws.ReadyPlaces | src/sitelogic.cpp:2592-2619 | a request that becomes ready, expires or is finished stays in exactly one place |
| SiteLaws.ReadyTells | src/sitelogic.cpp:2592-2612 | the newest ready request has the number and kind of the one that is done and the status it ended with; the others stay, unless they are old |
| SiteLaws.ReadyUntold | src/sitelogic.cpp:2592-2612 | a request that nobody waits for is gone at once, and is not ready |
| SiteLaws.StatusComesBack | src/sitelogic.cpp:1911-1934 | the owner of a request that is done learns the status it ended with |
| SiteLaws.ExpiredExact | src/sitelogic.cpp:2614-2619 | the ten youngest ready requests stay, and older ones go once none came for more than ten seconds |
| SiteLaws.UnownedIsFound | src/sitelogic.cpp:1911-1934 | finishing a request without a callback never comes to the failing end of the search |
| SiteSteps.LockKeeps | src/sitelogic.cpp:1966-2019 | locking a connection for a transfer keeps counters, requests and limits |
| SiteSteps.LockedWithin | src/sitelogic.cpp:2157-2176 | each purpose of a download has its own limit of slots, and so have uploads |
| SiteSteps.SlotsExact | src/sitelogic.cpp:2093-2136 | when a slot for a download or an upload counts as free |
| SiteSteps.FileCompleteKeeps | src/sitelogic.cpp:649-671 | a completed transfer keeps counters, requests and limits |
| SiteSteps.ReturnConnExact | src/sitelogic.cpp:2021-2035 | handing back a connection keeps the counters if and only if no file transfer hides behind a list transfer |
| SiteSteps.ReturnedConn | src/sitelogic.cpp:2021-2035 | a list transfer ends before a file transfer, unless the connection is handed back as one; the request stays |
| SiteSteps.ReportKeeps | src/sitelogic.cpp:1024-1064 | a failed transfer keeps counters, requests and limits, with the slot returned now or later |
| SiteSteps.CleanupRounds | src/sitelogic.cpp:2296-2302 | cleaning up ends within two rounds and establishes what a closing connection asserts |
| SiteSteps.CleanupKeeps | src/sitelogic.cpp:2296-2323 | cleaning up keeps everything, and the last connection fails every request it could serve |
| SiteSteps.CleanupTells | src/sitelogic.cpp:2296-2323 | the owners of the request that the connection held, and of all requests when no other connection is left to serve them, are told that they failed, and nothing is told to have gone well |
| SiteSteps.FailAllQueuedTells | src/sitelogic.cpp:2308-2323 | exactly the queued requests that the connection could serve have failed; all others are still queued |
| SiteSteps.ReportTells | src/sitelogic.cpp:1052-1058 | the owner of a download whose transfer fails is told so |
| SiteSteps.SlotComesBackLater | src/sitelogic.cpp:1029-1050 | a lost file transfer keeps its slot for two more seconds |
| SiteSteps.DisconnectKeeps | src/sitelogic.cpp:2277-2294 | closing a connection keeps counters, requests and limits |
| SiteSteps.DisconnectCloses | src/sitelogic.cpp:2277-2294 | a connection stays connected, quitting, if and only if it is to be closed politely, is logged in and is not waiting for the server; otherwise it is closed, and no other connection is touched |
| SiteSteps.LostCloses | src/sitelogic.cpp:1096-1103 | a connection that was lost is closed, whatever it did, and no other one is touched |
| SiteSteps.RegisterKeeps | src/sitelogic.cpp:2037-2046 | the lock of a download request keeps counters, requests and limits |
| SiteSteps.StageTwoHasSlot | src/sitelogic.cpp:1403-1432 | a second stage of a download is only taken while a slot is free |
| SiteSteps.NextExact | src/sitelogic.cpp:1403-1430 | a connection takes the first request of its own, else the first that is nobody's, and passes over second stages of downloads without a free slot |
| SiteSteps.HandleTakes | src/sitelogic.cpp:1403-1460 | the connection holds the request that it took, and is locked for the second stage of a download; the others wait in their order |
| SiteSteps.HandleRequestKeeps | src/sitelogic.cpp:1403-1460 | taking a request keeps counters, requests and limits |
| SiteSteps.RequeueKeeps | src/sitelogic.cpp:389-404 | the second stage of a download is the same request, and still in one place |
| SiteSteps.RequeuedRequest | src/sitelogic.cpp:389-404 | the request is last in the queue under its number and for its owner, as the second stage of a download that any connection may take |
| SiteSteps.FinishRequestKeeps | src/sitelogic.cpp:1911-1934 | finishing a request keeps counters, requests and limits |
| SiteSteps.TickKeeps | src/sitelogic.cpp:252-290 | returning the slots that are due keeps the counters right |
| SiteRuns.DoKeeps | src/sitelogic.cpp:252-2619 | every operation keeps counters, requests, flags, queue and limits |
| SiteRuns.RunKeeps | src/sitelogic.cpp:252-2619 | so does every run of operations |
| SiteRuns.RunAccounts | src/sitelogic.cpp:2142-2176 | over every run the counters equal the connections, uploads stay within their limit and downloads within the largest of the four |
| SiteRuns.OnePlace | src/sitelogic.cpp:1403-1432 | every issued request is in exactly one of the queue, a connection, the ready list and the past |
| SiteRuns.NotTwice | src/sitelogic.cpp:1911-1934 | no request number is twice in the queue, in the ready list or on connections |
| SiteRuns.AvailableExact | src/sitelogic.cpp:2138-2140 | available is the number of idle connections if and only if none works without being logged in |
| SiteRuns.DeniedTakesRequest | src/sitelogic.cpp:193-203 | a connection that was turned away makes available negative and an upload slot count as free |
| SiteRuns.SlotsReclaimed | src/sitelogic.cpp:252-275 | after 40 ticks without a lost connection the slot counters count locked connections only |
| SiteLogics.SiteLogic.GetSlot | src/sitelogic.cpp:2157-2176 | takes a slot exactly when one of its kind is free |
| SiteLogics.SiteLogic.CompleteTransfer | src/sitelogic.cpp:2142-2155 | returns the slot if asked to, and the connection unless a request holds it |
| SiteLogics.SiteLogic.ChooseConn | src/sitelogic.cpp:1966-2018 | which connection a transfer gets: the first unoccupied one in place, else the last unoccupied one, else the first that is only listing |
| SiteLogics.SiteLogic.LockTransferConn | src/sitelogic.cpp:1966-2019 | locks the chosen connection exactly when there is one and a slot is free; a download stays within the limit of its purpose |
| SiteLogics.SiteLogic.PrepareTransfer | src/connstatetracker.cpp:113-128 | a locked connection gets its file; everything is kept |
| SiteLogics.SiteLogic.PrepareList | src/connstatetracker.cpp:138-151 | a connection that is not locked lists a directory; everything is kept |
| SiteLogics.SiteLogic.ListTransferComplete | src/sitelogic.cpp:727-734 | the end of a listing leaves a transfer lock on the same connection alone |
| SiteLogics.SiteLogic.FinishPrematurely | src/sitelogic.cpp:2325-2343 | completes the transfer and gives the connection up |
| SiteLogics.SiteLogic.LockForDownload | src/sitelogic.cpp:2037-2046 | the slot that is asserted is there |
| SiteLogics.SiteLogic.HandBack | src/sitelogic.cpp:2021-2035 | the connection and its slot are free again, unless a file transfer is handed back while a list is read |
| SiteLogics.SiteLogic.ClearExpiredReadyRequests | src/sitelogic.cpp:2614-2619 | drops the oldest ready requests beyond ten once none came for ten seconds |
| SiteLogics.SiteLogic.MakeRequestReady | src/sitelogic.cpp:2592-2612 | the request moves to the ready list with the status it ended with, or to the past if nobody waits for it |
| SiteLogics.SiteLogic.RequestIsDone | src/sitelogic.cpp:2592-2612 | the owner finds the number, the kind and the status of the request |
| SiteLogics.SiteLogic.FinishOwnRequest | src/sitelogic.cpp:1911-1934 | takes the request off the ready list or the connection that holds it, and says how it ended |
| SiteLogics.SiteLogic.FindRequest | src/sitelogic.cpp:1403-1430 | own requests first, then anyone's, download stages only with a free slot |
| SiteLogics.SiteLogic.TakeNextRequest | src/sitelogic.cpp:1403-1460 | takes a request exactly when there is one of its own or one that is nobody's and has a slot if it needs one, and locks the connection for a download stage |
| SiteLogics.SiteLogic.ReportAndFinish | src/sitelogic.cpp:1024-1064 | ends the transfer, returns its slot now or later, and fails a download request |
| SiteLogics.SiteLogic.TransferFail | src/sitelogic.cpp:1024-1064 | the transfer ends, and the owner of a download is told that it failed |
| SiteLogics.SiteLogic.DownloadFileFound | src/sitelogic.cpp:389-404 | the download is queued again, last, as its second stage |
| SiteLogics.SiteLogic.EndTransfers | src/sitelogic.cpp:2297-2299 | the cleanup loop runs at most twice |
| SiteLogics.SiteLogic.FailQueuedRequests | src/sitelogic.cpp:2303-2323 | the nested loops fail exactly the requests that the connection could serve |
| SiteLogics.SiteLogic.Cleanup | src/sitelogic.cpp:2296-2323 | leaves a connection that may be closed, and tells all owners concerned that their requests failed |
| SiteLogics.SiteLogic.CloseConnection | src/sitelogic.cpp:2277-2294 | closes a connection politely, hard, or not at all, and tells all owners concerned that their requests failed |
| SiteLogics.SiteLogic.ConnectionLost | src/sitelogic.cpp:1096-1103 | cleans up and logs out; all owners concerned are told that their requests failed |
| SiteLogics.SiteLogic.TimePasses | src/sitelogic.cpp:252-310 | returns exactly the slots that are due |
| Paths.JoinParts | src/path.cpp:43-54 | directory and name of a joined path are the parts it was joined from |
| Paths.ContainsParent | src/path.cpp:175-186 | a path is below another one if and only if it is that path or its directory is |
| Paths.RootContainsNothing | src/path.cpp:175-186 | the root does not contain what is in it |
| Paths.ContainsEntry | src/path.cpp:175-186 | a directory contains its entries if and only if it is not the root |
| Paths.ShortBaseIsGlued | src/path.cpp:43-54 | a relative base of one letter gets no separator |
| Paths.SeparatorExact | src/path.cpp:43-54 | a joined name can be told from its base if and only if the base has more than one letter |
| RemoteTrees.SurvivesByEntry | src/recursivecommandlogic.cpp:84-104 | a directory has to stay if and only if one of its entries has to |
| RecursiveDeletes.RecursiveCommandLogic.Initialize | src/recursivecommandlogic.cpp:25-35 | the target is all that is to be listed |
| RecursiveDeletes.RecursiveCommandLogic.GetAction | src/recursivecommandlogic.cpp:41-82 | which command comes next, and what it leaves to be done |
| RecursiveDeletes.RecursiveCommandLogic.AddFileList | src/recursivecommandlogic.cpp:84-104 | a listed directory adds its directories to the wanted and itself and its files to the doomed, sorted at the end |
| RecursiveDeletes.RecursiveCommandLogic.FailedCwd | src/recursivecommandlogic.cpp:106-117 | a directory that cannot be entered is doomed, and the base ends it all |
| RecursiveDeleteRuns.ListedKeeps | src/recursivecommandlogic.cpp:84-104 | listed, wanted and doomed together cover what is known of the target, each once |
| RecursiveDeleteRuns.AllListed | src/recursivecommandlogic.cpp:41-82 | when nothing is wanted any more every directory of the target was listed |
| RecursiveDeleteRuns.NextIsThere | src/recursivecommandlogic.cpp:57-70 | the next doomed path and its directory still exist |
| RecursiveDeleteRuns.DirIsEmpty | src/recursivecommandlogic.cpp:10-15 | in order of length a directory is empty when its turn comes if and only if nothing below it has to stay |
| RecursiveDeleteRuns.Gather | src/recursivecommandlogic.cpp:41-104 | every directory of the target is listed exactly once |
| RecursiveDeleteRuns.Erase | src/recursivecommandlogic.cpp:52-71 | the doomed are deleted, each asked for once and from its own directory, and the logic ends inactive |
| RecursiveDeleteRuns.Run | src/recursivecommandlogic.cpp:25-104 | a whole recursive delete ends with exactly what can go gone; everything that may go is asked for exactly once, from the right directory, and others' files are kept |
| RecursiveDeleteRuns.DeleteAll | src/recursivecommandlogic.cpp:25-104 | with nothing to keep exactly the target and what is below it is gone |
| RecursiveDeleteRuns.SharedStays | src/recursivecommandlogic.cpp:84-104 | a directory with a file of someone else goes with everything, and stays when only own files go |
| RecursiveDeleteRuns.RefuseAll | src/recursivecommandlogic.cpp:41-117 | when the directories of the longest doomed paths are refused, the delete stays active through any number of rounds, each of which dooms one more directory |
| JobLists.RotatedKeeps | src/engine.cpp:2208-2217 | rotation keeps the partition and leaves at most the limit or the current jobs |
| JobLists.RotatedOldest | src/engine.cpp:2208-2217 | every job that is evicted finished before every one that is kept, no more go than have to, and all jobs that are kept stay in their order |
| JobLists.JustEnded | src/engine.cpp:2208-2217 | a job that has just ended is kept if and only if there is no limit or the limit leaves room besides the current jobs |
| JobLists.StartedKeeps | src/engine.cpp:418-422 | a new job is current under a number never used before; partition and bound hold |
| JobLists.ReactivatedKeeps | src/engine.cpp:730-750 | a reset job is current, no longer finished and not done; partition and bound are kept |
| JobLists.AbortedKeeps | src/engine.cpp:716-728 | an aborted job is done and finished, or evicted at once if and only if the current jobs alone reach the limit; partition and bound hold |
| JobLists.CompletedKeeps | src/engine.cpp:1729-1741 | a job that ends is finished, or evicted at once if and only if the current jobs alone reach the limit; partition and bound hold |
| JobLists.TimedOutKeeps | src/engine.cpp:1979-1988 | so does a job that times out |
| JobLists.ResetOfEvicted | src/engine.cpp:730-750 | resetting an evicted job breaks the partition |
| JobLists.RunPartition | src/engine.cpp:271-442 | in every state of every run current and finished jobs are a partition of all jobs, finished ones are done, numbers are not reused, and no more jobs are kept than the limit or the current ones |
| SpreadJobs.JobList.PushBack | src/joblist.h:27-32 | appends, and the number was not in the index |
| SpreadJobs.JobList.Erase | src/joblist.h:62-70 | takes the job out of the list and of the index |
| SpreadJobs.SpreadJobList.RotateSpreadJobsHistory | src/engine.cpp:2208-2217 | evicts the jobs that finished first, as many as needed or as there are; those kept stay in their order |
| SpreadJobs.SpreadJobList.NewSpreadJob | src/engine.cpp:271-442 | starts a job, or makes the job about the same release current again |
| SpreadJobs.SpreadJobList.AbortRace | src/engine.cpp:716-728 | a job that is not done ends aborted |
| SpreadJobs.SpreadJobList.RaceComplete | src/engine.cpp:1729-1741 | a current job moves to the finished ones, once, and the history is rotated |
| SpreadJobs.SpreadJobList.TimeOutRace | src/engine.cpp:1983-1987 | a job that timed out is done and finished, and the history is rotated |
| SpreadJobs.SpreadJobList.TickRaces | src/engine.cpp:1967-2038 | walking the current jobs while removing from them, and rotating each time, visits each once and keeps the bound |
| SpreadJobs.SpreadJobList.SetMaxSpreadJobsHistory | src/engine.cpp:2198-2201 | a new limit takes effect at once |
| Unsimilar.WalkStems | src/filelist.cpp:418-474 | the two-index walk tells stems of different series apart and never leaves them |
| Unsimilar.CheckUnsimilar | src/filelist.cpp:401-490 | false if and only if a name is empty, the stems are equal, or the extensions are equal and the stems differ in digits or in one last letter only |
| Unsimilar.SeriesNotTransitive | src/filelist.cpp:401-490 | being of the same series is not transitive |
| PotentialTrackers.UpdateSlice | src/potentiallistelement.cpp:17-35 | replaces a slot of the lowest potential among those it may take, or none |
| PotentialTrackers.UpdatedKeeps | src/potentiallistelement.cpp:17-35 | a slice keeps each site within its upload slots, and no slot ever gets worse |
| PotentialTrackers.ConsideredKeeps | src/potentialtracker.cpp:51-89 | one more element leaves the best ones ascending, as many, and each site within its slots |
| PotentialLaws.LosesBetterExact | src/potentialtracker.cpp:53-82 | a better element is lost for a worse one if and only if the one that leaves stands behind the place of the new one |
| PotentialLaws.BetterIsReplaced | src/potentialtracker.cpp:53-82 | a site with all its slots loses a better transfer to a worse one |
| PotentialLaws.BestLostExact | src/potentialtracker.cpp:51-89 | the last of the best is the best of all that was considered, unless it leaves itself and no other is as good |
| PotentialLaws.BestIsLast | src/potentialtracker.cpp:38-92 | with no site that takes only one upload, no element of any slice is better than the last of the best |
| PotentialLaws.BestIsLost | src/potentialtracker.cpp:38-92 | a site with one slot: the best transfer of one slice is lost to another slice |
| PotentialLaws.NothingBetterLeft | src/potentialtracker.cpp:38-92 | when no site can use up its slots, every element of any slice that is better than the least of the best is among the best |
| PotentialLaws.SecondCopyExact | src/potentialtracker.cpp:64-88 | one more element of a file that is there is let in if and only if it is as good as all others and another file leaves |
| PotentialLaws.BestIsThereTwice | src/potentialtracker.cpp:84-88 | an element no worse than all others may be there twice |
| PotentialTrackers.PotentialTracker.Consider | src/potentialtracker.cpp:51-89 | the nested loops do what considering an element means |
| PotentialTrackers.PotentialTracker.CalculateMaxAvailablePotential | src/potentialtracker.cpp:38-92 | the best elements are the result of considering every slot of every slice in order |
| PotentialTrackers.PotentialTracker.GetMaxAvailablePotential | src/potentialtracker.cpp:28-36 | the least of the best elements of all slices, which are as many as configured, ascending and within the slots |
| PotentialTrackers.PotentialTracker.PushPotential | src/potentialtracker.cpp:94-98 | updates the newest slice only, as a slice is updated, and no slot of it for the worse |
| PotentialTrackers.PotentialTracker.Tick | src/potentialtracker.cpp:100-105 | the oldest slice is emptied and becomes the newest |
| PotentialTrackers.PotentialTracker.UpdateSlots | src/potentialtracker.cpp:115-127 | slots are taken off the end of every slice and of the best, or empty ones are put there; the others stay |
| HttpConns.NormalisedStaysOpen | src/httpconn.cpp:166-178 | a response never asks to close the connection and then tells its length; status, body and other headers are kept, no other header is new, and other responses stay as they are |
| HttpConns.InsertedAt | src/httpconn.cpp:143-156 | inserting before the first higher number is the sorted place |
| HttpConns.AnsweredTwiceExact | src/httpconn.cpp:143-156 | what waits stays in order if and only if the request was not answered before |
| HttpConns.AnsweredTwiceBlocks | src/httpconn.cpp:158-164 | a second response to a request whose first was sent blocks the pipeline, and no other response gets it going again |
| HttpConns.SentUpToFirstGap | src/httpconn.cpp:158-164 | when not paused everything up to the first unanswered request has been sent, in order |
| HttpConns.HTTPConn.SendFromBuffer | src/httpconn.cpp:180-188 | no byte is lost or doubled between buffer and socket |
| HttpConns.HTTPConn.SendResponses | src/httpconn.cpp:158-164 | the bytes sent and buffered are the responses in order |
| HttpConns.HTTPConn.QueueResponse | src/httpconn.cpp:143-156 | any order of completion keeps the stream in order |
| HttpConns.HTTPConn.FDSendComplete | src/httpconn.cpp:138-141 | sending resumes where it paused |
| HourlyTrackings.ShiftedHours | src/hourlyalltracking.cpp:24-31 | after n hours the first n are empty and the others have moved |
| HourlyTrackings.TicksShift | src/hourlyalltracking.cpp:15-32 | k minutes shift the hours once an hour |
| HourlyTrackings.AllStays | src/hourlyalltracking.cpp:15-67 | what was counted over all time is not changed by time or by loading |
| HourlyTrackings.LoadIsTicks | src/hourlyalltracking.cpp:55-67 | loading k minutes later gives the hours and the total of k ticks, for every k; the minutes agree exactly when stated |
| HourlyTrackings.LoadExact | src/hourlyalltracking.cpp:55-67 | with the clock cut to 32 bits loading equals ticks if and only if no whole hour is lost by that, or all loaded hours are empty |
| HourlyTrackings.LoadAfterWrap | src/hourlyalltracking.cpp:55-67 | until the cut clock is at the time stamp again, loading equals ticks if and only if the clock was not cut, no hour has passed, or all hours are empty |
| HourlyTrackings.PrintParse | src/settingsloadersaver.cpp:48-68 | printing and reading a number undo each other |
| HourlyTrackings.TextMeans | src/settingsloadersaver.cpp:48-68 | the saved text stands for exactly the time stamp and the hours |
| HourlyTrackings.TextExample | src/settingsloadersaver.cpp:48-54 | the saved text of a time stamp and two hours |
| HourlyTrackings.HourlyAllTracking.Add | src/hourlyalltracking.cpp:9-13 | adds to the current hour and to both totals |
| HourlyTrackings.HourlyAllTracking.CheckRotate | src/hourlyalltracking.cpp:20-32 | the loops shift the hours as often as hours have passed |
| HourlyTrackings.HourlyAllTracking.SetHours | src/hourlyalltracking.cpp:55-67 | takes over saved hours, their total, and the time since |
| HourlyTrackings.HourlyAllTracking.HoursToString | src/settingsloadersaver.cpp:48-54 | writes the start of the hour and all hours |
| HourlyTrackings.HourlyAllTracking.ParseHours | src/settingsloadersaver.cpp:56-68 | reads exactly what the text stands for |
| HourlyTrackings.HourlyAllTracking.Reload | src/settingsloadersaver.cpp:48-68 | saving and loading k minutes later equals k ticks if and only if the cut clock loses no whole hour or all loaded hours are empty, and always while the clock fits into 32 bits |

## Left out

- Engines.Engine.UpdateScoreBoard: skiplists allow everything and no name is checked for similarity here; every changed list belongs to a race that still exists; which transfers are possible, and which sites take part in a race, does not change.
- Engines.Engine.JobFileListRefreshed: no list has failed, and no two names of one place differ in case only. The upload counters of the lists that join are right. The boards are exact afterwards if every other list that says that it changed was refreshed before; changes of lists that were not are worked in when they are. The test whether the race is complete is not part of it.
- BoardRuns.RunKeeps: no list has failed, and no two names of one place differ in case only. After a soft reset the states that the new lists begin with come as edits. Appending to a job that has ended, which only clears its attempts, is not a step; for a race that has ended nothing is said about wanted keys that are not on the boards.
- Engines.Engine.AddToScoreBoard: the list's upload counter is right, since the guard on it skips the list otherwise; adding puts keys on the main board only, also failed ones, as the code does.
- Scores.ScoreBound: speeds are not negative, the share of own files is a percentage, and no list is ahead of the best progress.
- Scores.BetterScores: products stay below 64 bits, and the readings are in range as for ScoreBound; see FullSizeExact for what happens otherwise.
- ScoreBoards.ScoreBoard.Sort: the bucket positions are integers; in the code they are unsigned and wrap below zero, where they are never used. The two scratch arrays are allocated for each sort.
- HttpConns.HTTPConn.QueueResponse: each request is answered once; how a response is written as bytes is a parameter, and so is when the socket is full.
- PotentialTrackers.PotentialTracker.PushPotential: a site has the same number of upload slots all the time.
- SiteRuns.RunAccounts: the settings of the site and its set of connections are fixed; connections are not renumbered; no file transfer is handed back while its connection lists a directory, which is where the counters stop being right.
- HourlyTrackings.HourlyAllTracking.HoursToString: the clock has passed the start of the hour and fits into 32 bits; other numbers are not bounded to 64 bits, and white space or signs before a number are not read.
- HourlyTrackings.HourlyAllTracking.Reload: the clock fits into 32 bits when the hours are saved; it need not when they are loaded.
- RecursiveDeleteRuns.Run: every directory of the tree can be entered and listed, and the target is below the root. What happens when none can be entered is RefuseAll; refusals of some directories only are not followed to the end.
- FileLists.FileList.ParseFileList: how a line is parsed is a parameter; lines of symbolic links and other formats are not told apart.
- Shared objects: list, site and race objects are numbers and names, shared elements are places in a pool, and the engine holds the contents of all lists by identity, so that two objects never alias.
- Callbacks that call back into a site, the engine or a race during an operation: operations are atomic, and what a callback does is a later operation.
- Request and job numbers, sizes and totals do not wrap around.
- flush of a file list, list failures, time stamps, patterns, the two skip checks for similar names, symbolic links.
- Path text with backslashes, splitting and cutting of levels, relative paths beyond the lemmas about them.
- The order in which nested operations of a tick happen across sites, transfer jobs, prepared jobs, and the statistics that operations count.
- Which idle connections are woken when a slot or a request becomes free.
- Error responses that are sent at once and close the connection.
- Sockets, TLS, proxies, the user interface, configuration files other than the hourly text, and the REST interface.
