# Models of the core's hard parts

A Dafny model of the parts of the Go core (`apps/core`) that carry the most state, and proofs of
what they promise. `dafny verify dfyconfig.toml` checks it; nothing in it is executed.

| part | files |
|---|---|
| the position-keeping parser of steps.json and the splice editor over its bytes | JsonSpec, JsonParser, JsonLocality, SetReplace, SetReplaceReparse, SetReplaceTheorem, SetReplaceNames, SetReplaceLayout |
| the written grammar of steps.json, and that the parser reads just that | JsonGrammar, JsonTokens, JsonSpelling, JsonReading, JsonFaults |
| which folders a deployment replaces | EffectiveReplace |
| which paths are let in; backup, copy and restore on a disk | RelPaths, LetIn, NewsFile, OldNames, OwnFiles, Install, InstallTheorems, UpdaterJob, Installs |
| whole histories of deployments and rollbacks, and which step lists they are safe with | Deployments, Rollouts, RolloutRuns, RolloutLists |
| how long a backup is kept, and by which lists and times | Prunings, KeptBackups, BackupCounts |
| the byte ring, the alt-screen detector, and a supervisor's copy of a holder's screen | Rings, AltScreen, Screens, Replication, AfterGaps |
| tile boards: one document, moves between boards, all boards of an account over all runs | TileDocs, TileTrees, TileDocObject, ValidBoards, Boards, BoardRuns, BoardHandlers, Bindings |
| the broadcaster's interleavings | Broadcasts |
| reading a zip over a lossy line, resumable transfer | ZipReads, Transfers |
| holding back a cut character, cutting output into lines | HoldBack, LineCutter |
| the two-way subscription books, the folder hash | Hubs, FolderShas |

How it is built. Code that changes fields is a class whose methods end in a function or relation
of the old state (`Parser`, `Editor`, `Updater`, `Agent`, `Ring`, `Screen`, `Relay`, `TileDoc`,
`Router`, `Receiver`, `FileRead`, `OutputLoop`, `Cutter`, `Hub`); the theorems are about those
functions and relations. Protocols and interleavings are state machines over values
(`RolloutRuns`, `KeptBackups`, `Replication`, `BoardRuns`, `Broadcasts`, `ZipReads`, `Transfers`), and their main
theorems hold in every state of every run. A message that was sent can be delivered never, once or
often, and at any time after; a job can be stopped before any of its file operations; a save can be
overtaken between its reading and its writing.

What comes from outside is a parameter: `json.Unmarshal` and `json.Marshal` of one string and
`strconv.ParseFloat` (the record `Lib`, of which the theorems ask only `LibOk`, and the one on valid
text `ReadsNames`; the string tokens in `LibOk` are those of the written grammar), SHA-256 (a function without collisions where a theorem needs that), clocks,
random ids, and which paths are videos.
The grammar of `JsonGrammar` is that of section 2 of RFC 8259 with strings left to the library but
for where they end, at most 64 levels deep and with no key twice in one object; it does not mention
the parser.

Where a promise fails, the failing input is a lemma and the exact condition is proved:

- A restore gives the old disk back if and only if the list of new files, as it is read back, is
  right (`Install.RestoreUndoes`), which after a whole copy means that every new name is clean
  (`InstallTheorems.RestoreExact`). `CleanRel` calls some paths clean that are not in this sense:
  `InstallTheorems.NewlineNameStays` is one, `RolloutLists.UncleanNameFails` gives each a history,
  and `RelPaths.LetInAndListed` says which they are. The model follows the code.
- The step lists of steps.json may hold `backup`, `copy` and `restore` in any order, and not every
  order can be undone. A deployment list must not back up files it has copied and not taken back
  (`RolloutLists.DeployListExact`). A rollback list may hold restores only: a `copy` in it can write
  files of a build that has changed since, and a `backup` in it remembers the name of the version
  being undone (`RolloutLists.RollbackListExact`). Run by itself behind a failed deployment list,
  where build and name are still the same, it may hold more (`RolloutLists.AutoListExact`). Each of
  the three holds both ways: every other list has a history in which it goes wrong.
- That the finished backups are those of the last three deployments that finished one depends on the
  lists and on the clock, and the condition is exact on each. As long as fewer than three are kept
  any deployment will do. With three, its list and the one behind it together must make one backup
  at most, whichever step fails, and the first of the three must be strictly older than the other
  two and than the new one (`BackupCounts.DeployCountsExact`, `BackupCounts.BackupListsExact`,
  `BackupCounts.ClockBackFails`). A rollback must come to no backup step: cut there it has lost the
  backup it was to restore, and where there was none it makes one too many
  (`BackupCounts.RollbackCountsExact`, `BackupCounts.RollbackBackupExact`). In every state every
  order that does not meet the condition has a course after which the count is wrong.
- A snapshot heals a copy behind a gap exactly if it ends behind the copy's offset
  (`Replication.SnapshotHeals`, `Replication.StaleAfterGap`); bytes with a whole sequence in them do
  so too (`AfterGaps.RightAgain`).
- Without a hash a resumed file is the source if and only if the part was a beginning of it
  (`Transfers.DoneNeedsPrefix`, `Transfers.WrongPartCompletes`).
- A terminal tile saved without a check leaves a valid board exactly if it is sound and its id new
  (`BoardHandlers.Router.AppendTerminal`).
- Chunks make no difference to the lines cut if and only if the lines fit
  (`LineCutter.ChunksDoNotMatter`, `LineCutter.TooLongIsCut`).

## Model

| member | source | states |
|---|---|---|
| JsonParser.Parser.Parse | apps/core/internal/supervisor/updstore/steps.go:304-317 | the parser object ends in exactly the outcome, value, position or error of the specification `Parse` |
| JsonParser.Parser.Value | apps/core/internal/supervisor/updstore/steps.go:319-325 | a value is read with its first and last position, white space before it skipped |
| JsonParser.Parser.Value0 | apps/core/internal/supervisor/updstore/steps.go:327-444 | objects, arrays, words, numbers and strings, the depth limit and every refusal with its position |
| JsonParser.Parser.Object | apps/core/internal/supervisor/updstore/steps.go:337-384 | members with key and value positions; a second equal key is refused |
| JsonParser.Parser.Array | apps/core/internal/supervisor/updstore/steps.go:385-413 | elements up to the closing bracket, a comma before it refused |
| JsonParser.Parser.Str | apps/core/internal/supervisor/updstore/steps.go:447-471 | a string token up to its closing quote, a backslash skipping the next byte, control bytes refused |
| JsonParser.Parser.Ws | apps/core/internal/supervisor/updstore/steps.go:293-302 | the position moves to the first byte that is not white space |
| JsonReading.ParsesExactly | apps/core/internal/supervisor/updstore/steps.go:304-471 | a text parses exactly if it is a file of the written grammar: white space, the three words, numbers and tokens as spelled, depth 64 at most, no key twice in an object; and it is read as what that file means |
| JsonSpelling.SpelledIsRead | apps/core/internal/supervisor/updstore/steps.go:304-444 | every document of the grammar, with any white space in it, parses back to what it means |
| JsonReading.ReadIsSpelled | apps/core/internal/supervisor/updstore/steps.go:304-444 | whatever parses is such a document, and the text is its spelling |
| JsonTokens.TokenPassed | apps/core/internal/supervisor/updstore/steps.go:447-471 | a string token is read to its end: it is the text between two quotes with no control byte and no quote inside but behind an odd number of backslashes |
| JsonFaults.FaultIsThere | apps/core/internal/supervisor/updstore/steps.go:287-471 | where a text is refused stands what the reason says: behind a whole document the first byte that is no white space, a comma before the bracket closed too early, no colon, no closing bracket, a word that is none |
| JsonLocality.ValueLocal | apps/core/internal/supervisor/updstore/steps.go:319-444 | two texts that agree from where a value starts to where it ends parse to the same position-free value there, moved by the distance |
| JsonLocality.MembersLocal | apps/core/internal/supervisor/updstore/steps.go:337-384 | the same for the members of an object, read on after whatever came before |
| JsonLocality.ItemsLocal | apps/core/internal/supervisor/updstore/steps.go:385-413 | the same for the elements of an array |
| SetReplace.Editor.ReplaceText | apps/core/internal/supervisor/updstore/replace.go:140-147 | the list as the text that is put in |
| SetReplace.Editor.LineSep | apps/core/internal/supervisor/updstore/replace.go:150-163 | the line end and indent of a member, or one blank |
| SetReplace.Editor.SetReplace | apps/core/internal/supervisor/updstore/replace.go:89-138 | every branch of the editor: not parsed, not an object, changed in place, removed with its comma, inserted behind "uses" or in front |
| SetReplaceLayout.PutInWhere | apps/core/internal/supervisor/updstore/replace.go:115-135 | the bytes put in and where: in the place of the old list, else behind "uses", else in front, laid out as the member next to it; all others stay |
| SetReplaceLayout.SeparatorIsLaidOut | apps/core/internal/supervisor/updstore/replace.go:150-163 | of a member that stands alone on its line the line end and the very blanks before it, of any other one blank |
| SetReplaceTheorem.InPlace | apps/core/internal/supervisor/updstore/replace.go:115-116 | putting a list in the place of the old value leaves all other members as they were |
| SetReplaceTheorem.RemoveMiddle | apps/core/internal/supervisor/updstore/replace.go:117-118 | taking a member out with the comma behind it leaves the others, in order |
| SetReplaceTheorem.RemoveLast | apps/core/internal/supervisor/updstore/replace.go:119-120 | taking the last member out with the comma before it leaves the others, in order |
| SetReplaceTheorem.InsertBefore | apps/core/internal/supervisor/updstore/replace.go:128-135 | putting a member in before another one keeps all of them, in order |
| SetReplaceTheorem.InsertLast | apps/core/internal/supervisor/updstore/replace.go:131-133 | putting a member in behind the last one keeps all of them, in order |
| SetReplaceTheorem.SetReplaceReparses | apps/core/internal/supervisor/updstore/replace.go:89-138 | for every text and list: the text is refused as the parser refuses it, or the result parses again to the same members in the same order, with "replace" equal to the list, or gone for an empty list |
| SetReplaceNames.ReplaceNamesFolders | apps/core/internal/supervisor/updstore/replace.go:89-147 | for folders that are valid text: the result parses to the same other members in the same order, and "replace" names just these folders, or is gone |
| SetReplaceTheorem.SetThenClear | apps/core/internal/supervisor/updstore/replace.go:89-138 | setting a list where there was none and clearing it again gives back the text byte for byte |
| EffectiveReplace.EffectiveReplace | apps/core/internal/supervisor/updstore/replace.go:65-86 | the two loops keep the listed folders with main files that lie in no other such folder, in order |
| EffectiveReplace.EffectiveIsCover | apps/core/internal/supervisor/updstore/replace.go:65-86 | what is kept is listed and holds main files, none inside another; every listed folder with main files is kept or lies in a kept one |
| EffectiveReplace.EffectiveInOrder | apps/core/internal/supervisor/updstore/replace.go:65-86 | they come in the order of the list, each as often as it is listed |
| EffectiveReplace.EffectiveFiles | apps/core/internal/supervisor/updstore/replace.go:65-86 | a main file lies in a kept folder exactly when it lies in a listed one |
| EffectiveReplace.EffectiveSameReach | apps/core/cmd/updater/builtin.go:365-402 | on the machine the kept folders empty the same places as all listed folders with main files |
| UpdaterJob.Updater.GuardSelf | apps/core/cmd/updater/builtin.go:432-439 | whether a path is one of the updater's own or lies under one |
| OwnFiles.WritingOwnIsGuarded | apps/core/cmd/updater/builtin.go:343-362 | a build with a path at or under one of the updater's own, and a folder to be emptied that is, holds or lies under one, is refused |
| OwnFiles.CopyKeepsOwn | apps/core/cmd/updater/builtin.go:187-231 | stopped anywhere, a copy leaves the updater's own paths and all under them as they were |
| OwnFiles.RestoreKeepsOwn | apps/core/cmd/updater/builtin.go:234-306 | so does a restore, whatever its list of new names says |
| UpdaterJob.Updater.ReplaceDirs | apps/core/cmd/updater/builtin.go:343-362 | the folders to empty, refused exactly when one leads out of the target or holds files of the updater |
| UpdaterJob.Updater.ReplaceVictims | apps/core/cmd/updater/builtin.go:365-402 | exactly the files under the replaced folders that the build does not bring and that are not moved-away old ones |
| UpdaterJob.Updater.Backup | apps/core/cmd/updater/builtin.go:96-160 | done: a finished backup of the disk as it is, then the pruning; stopped or refused: no finished backup of this id and all others untouched |
| UpdaterJob.Updater.SaveFiles | apps/core/cmd/updater/builtin.go:110-130 | every file about to be overwritten is saved and every new name noted, in order |
| UpdaterJob.Updater.SaveVictims | apps/core/cmd/updater/builtin.go:131-148 | every file about to be removed is saved, so the backup holds exactly the files touched |
| UpdaterJob.Updater.PruneBackups | apps/core/cmd/updater/builtin.go:162-183 | in an order by age, the newest first and equally old ones anyhow, all finished backups behind the third go but the named one; nothing else goes |
| UpdaterJob.Updater.CopyFiles | apps/core/cmd/updater/builtin.go:187-231 | stopped anywhere, some victims are gone and then a beginning of the files is written; done, all; refused before anything is changed if a path leads out or is the updater's own; in every outcome the updater's own files stay |
| UpdaterJob.Updater.Restore | apps/core/cmd/updater/builtin.go:234-306 | stopped anywhere, some saved files are back and then some new ones removed; done, all; without a finished backup it fails and changes nothing; in every outcome the updater's own files stay |
| NewsFile.RoundTrip | apps/core/cmd/updater/builtin.go:149-151 | names with no line end and no blank at either end are read back from new-files.txt as they were written |
| NewsFile.ScannedIsClean | apps/core/cmd/updater/builtin.go:284-290 | no name read back has a line end or outer blanks |
| InstallTheorems.CopyFillsReplaced | apps/core/cmd/updater/builtin.go:187-231 | after a full copy a replaced folder holds the files of the build and moved-away old ones only, and outside the build and the replaced folders nothing changed |
| InstallTheorems.CopyWrites | apps/core/cmd/updater/builtin.go:217-229 | the last file of the build for a path stands there with its bytes and mode |
| Installs.NeverMissing | apps/core/cmd/updater/builtin.go:187-231 | wherever a copy is stopped, a path of the build that held a file holds one, the old or the new one whole |
| OldNames.OldNameIs | apps/core/cmd/updater/builtin.go:404-408 | a moved-away old file is one whose name ends with the last ".old-" and fifteen characters |
| Install.CopyAgrees | apps/core/cmd/updater/builtin.go:187-231 | a copy cut anywhere, after any number of others, changes nothing but the files the job touches |
| Install.RestoreAgrees | apps/core/cmd/updater/builtin.go:234-306 | a restore cut anywhere makes the disk differ from the saved one nowhere new, exactly if no file it has removed was there before |
| Install.RestoreUndoes | apps/core/cmd/updater/builtin.go:234-306 | a full restore over any disk that differs on touched files at most gives the saved disk back if and only if the list, as it is read back, names no old file and every new one that is there |
| Install.CleanIsRight | apps/core/cmd/updater/builtin.go:149-151 | for names with no line end and no outer blanks the list is right in that way |
| InstallTheorems.RestoreExact | apps/core/cmd/updater/builtin.go:96-306 | backup, full copy, full restore: the old disk is back if and only if every new name survives the line-based list |
| RelPaths.CleanRelIsLocal | apps/core/internal/supervisor/updstore/store.go:98-119 | a path that is let in consists of proper names, so it is relative and never leads out |
| RelPaths.CleanRelAgain | apps/core/internal/supervisor/updstore/store.go:98-119 | letting it in a second time gives the same path exactly if no blank stands at either end |
| LetIn.LetInExactly | apps/core/internal/supervisor/updstore/store.go:98-119 | a path is let in, and as what, exactly if it is relative, leads to some names without leading out, none ends with a blank or a dot, the first does not begin with "@", and all have 512 bytes at most |
| LetIn.TrimIs | apps/core/internal/supervisor/updstore/store.go:98-119 | trimming takes the blanks at both ends and nothing else |
| LetIn.LocalStaysInside | apps/core/cmd/updater/builtin.go:343-362 | a reduced path is local for the updater exactly if it does not lead out |
| RelPaths.LetInAndListed | apps/core/cmd/updater/builtin.go:284-290 | a path that is let in survives the line-based list exactly if it holds no line end and would be let in again as it is |
| InstallTheorems.NewlineNameStays | apps/core/internal/supervisor/updstore/store.go:98-119 | a job, a backup and a disk: a name with a line end, which `CleanRel` lets through, is still there after copy and restore have ended |
| InstallTheorems.RestoreTwice | apps/core/cmd/updater/builtin.go:234-306 | restoring a second time changes nothing |
| InstallTheorems.RestoreAfterAttempts | apps/core/cmd/updater/builtin.go:96-306 | however often copy and restore were tried and cut after the backup, a restore that ends gives exactly the disk before, if and only if the list is right for what is there; clean names make it so |
| Deployments.Agent.RunStep | apps/core/cmd/updater/builtin.go:32-42 | one built-in step is the step relation of the model, whatever its end |
| Deployments.Agent.RunList | apps/core/cmd/updater/deploy.go:94-122 | step after step; done, failed or cancelled, between two steps or inside one |
| Deployments.Agent.RunDeploy | apps/core/cmd/updater/deploy.go:67-91 | the list; behind one that failed and was not cancelled the rollback list, which can be cancelled too; the name shown as installed afterwards; the updater's own files stay through both |
| Installs.DeployInstalls | apps/core/cmd/updater/deploy.go:67-91 | after a finished deployment whose list copies and restores nothing behind it, every file of the build stands with its bytes and mode, replaced folders hold nothing else but moved-away ones, and the version is installed |
| Rollouts.TagInjective | apps/core/cmd/updater/builtin.go:55-60 | no two deployments share a backup folder |
| Rollouts.DeployEffect | apps/core/cmd/updater/deploy.go:67-91 | a deployment ended anywhere can still be undone from its backup, and one rolled back automatically left disk and name as before, for every list that backs up no copied file |
| Rollouts.DeployKeepsInv | apps/core/cmd/updater/deploy.go:67-91 | the stack of live deployments stays undoable from the top |
| Rollouts.RollbackRestores | apps/core/cmd/supervisor/router/updaterDeploy.go:286-298 | an allowed rollback of restores that ends gives disk and installed name back from before that deployment; without its backup nothing at all changes |
| RolloutRuns.RollbackOverRuns | apps/core/cmd/supervisor/router/updaterDeploy.go:301-355 | the same over every history of deployments, rollbacks and changed targets whose lists and names fit |
| RolloutLists.DeployListExact | apps/core/internal/supervisor/updstore/steps.go:119-201 | a deployment list can be undone in every history if and only if it never backs up files it has copied and not taken back |
| RolloutLists.AutoListExact | apps/core/cmd/updater/deploy.go:77-80 | a list behind a failed one keeps the promise in every history if and only if it backs up nothing copied and ends with the old files back |
| RolloutLists.RollbackListExact | apps/core/cmd/supervisor/router/updaterDeploy.go:301-355 | a rollback list restores in every history, whatever has become of the build, if and only if it holds nothing but restores |
| RolloutLists.UncleanNameFails | apps/core/cmd/updater/builtin.go:149-151 | every build with a new name that the list garbles has a history in which its rollback ends well and does not restore |
| Prunings.PruneExact | apps/core/cmd/updater/builtin.go:162-183 | of four backups just the one named goes, in every order sorting by age may give, if and only if it is strictly older than the other three |
| KeptBackups.BackupsOverRuns | apps/core/cmd/updater/builtin.go:63-84 | in every history whose orders count, a finished backup is there for exactly the last three deployments that finished one |
| BackupCounts.DeployCountsExact | apps/core/cmd/updater/builtin.go:162-183 | in every state of such a history the next deployment keeps the count, however it goes, if and only if fewer than three backups are kept, or its two lists make one backup at most and that one in time |
| BackupCounts.RollbackCountsExact | apps/core/cmd/updater/builtin.go:96-105 | the next rollback keeps the count, however it goes, if and only if it comes to no backup step |
| BackupCounts.BackupListsExact | apps/core/cmd/updater/deploy.go:67-91 | a deployment list and the list behind it keep the count in every history if and only if both together make one backup at most |
| BackupCounts.RollbackBackupExact | apps/core/cmd/updater/builtin.go:96-105 | a rollback list keeps the count in every history if and only if it holds no backup step |
| BackupCounts.ClockBackFails | apps/core/cmd/updater/builtin.go:162-183 | a history with a clock that went back, in which a fourth backup leaves the first one standing |
| Rings.Ring.Write | apps/core/internal/ring/ring.go:18-31 | the ring keeps the last bytes of what it had and the chunk, around its end, and counts all |
| Rings.Ring.Snapshot | apps/core/internal/ring/ring.go:35-41 | the bytes kept, the oldest first, and the offset behind them |
| Rings.Ring.Reset | apps/core/internal/ring/ring.go:44-46 | an empty ring that goes on at the offset |
| AltScreen.OnlyOne | apps/core/internal/ring/screen.go:10-17 | no two of the six sequences start at one place |
| AltScreen.AltMeans | apps/core/internal/ring/screen.go:8-17 | the flag is on exactly if one of the three modes is entered somewhere and none left behind it, or it was on and none is left |
| Screens.Screen.FindLastAlt | apps/core/internal/ring/screen.go:105-113 | the state of the sequence that starts last, or none |
| AltScreen.WriteTracks | apps/core/internal/ring/screen.go:73-87 | after any chunk the alt flag is the one the whole output sets and the carried bytes are its last seven |
| AltScreen.RunTracks | apps/core/internal/ring/screen.go:73-87 | the same after any list of chunks, from any start |
| AltScreen.ChunkingDoesNotMatter | apps/core/internal/ring/screen.go:73-87 | two ways to cut one output into chunks end in the same flag and carry |
| Screens.Screen.Append | apps/core/internal/ring/screen.go:73-87 | one write: ring, offset, alt flag and carry |
| Screens.Screen.WriteAt | apps/core/internal/ring/screen.go:43-57 | what is held already is dropped, a gap empties the ring first |
| Screens.Screen.Seed | apps/core/internal/ring/screen.go:60-71 | a snapshot newer than the copy replaces it, an older one is refused |
| Screens.Relay.RelayChunk | apps/core/internal/supervisor/bind/relay.go:81-102 | the copy after a chunk and the event sent on, or none for what was held already |
| Replication.CopyOverRuns | apps/core/internal/execute/hold/server.go:96-153 | under any loss, repetition and reordering the copy holds the stream's bytes that end at its own offset, the offset never goes down, events carry such bytes too, and without a gap the alt flag is right |
| Replication.CaughtUp | apps/core/internal/ring/screen.go:43-71 | a copy that is up to date and had no gap is the holder's screen itself |
| Replication.SnapshotHeals | apps/core/internal/ring/screen.go:60-71 | in every run a newest snapshot leaves the copy up to date; it is taken exactly if it ends behind the copy's offset, and then, and only then or if they were so before, the input is gapless and the alt flag right |
| Replication.StaleAfterGap | apps/core/internal/ring/screen.go:60-64 | a run in which that snapshot is refused, as the copy ends where it does, and the alt flag stays wrong after a gap |
| AfterGaps.FirstChunk | apps/core/internal/ring/screen.go:73-87 | the first chunk behind carried bytes that do not fit the flag gives the flag of carry and chunk together |
| AfterGaps.RightAgain | apps/core/internal/ring/screen.go:43-57 | in every run, once the bytes received since the last gap hold a whole sequence, the alt flag is right again, whatever was carried over the gap |
| TileDocObject.TileDoc.Validate | apps/core/cmd/supervisor/router/tileDoc.go:53-111 | true exactly for valid documents: root, order, fields, openers and chains that reach the root |
| ValidBoards.SoundExactly | apps/core/cmd/supervisor/router/tileKind.go:20-67 | which fields a tile of each kind may and must have, with the sizes and the twenty places visited |
| ValidBoards.ValidExactly | apps/core/cmd/supervisor/router/tileDoc.go:53-111 | valid said with lists and ways up the tree only: the root, the order, every tile by itself, and every other tile opened by a folder or device up to the root |
| TileDocs.ChainIsShort | apps/core/cmd/supervisor/router/tileDoc.go:99-109 | a chain that reaches the root has fewer steps than there are tiles, so the bound of the check refuses no valid document |
| TileDocs.NoCycle | apps/core/cmd/supervisor/router/tileDoc.go:99-109 | in a valid document no tile is its own opener, however long the way around |
| TileDocObject.TileDoc.OpenTile | apps/core/cmd/supervisor/router/tileDoc.go:237-245 | the tile asked for opens it if it is there and can, or else the root |
| TileDocObject.TileDoc.RemoveTile | apps/core/cmd/supervisor/router/tileDoc.go:248-258 | the tile goes and what it opened moves up one step |
| TileDocObject.TileDoc.Subtree | apps/core/cmd/supervisor/router/tileDoc.go:261-275 | on a valid document the stack loop ends and gives exactly the tiles whose chain of openers goes through the tile, in display order |
| TileDocObject.TileDoc.TakeOpened | apps/core/cmd/supervisor/router/workspace.go:107-116 | the tiles under a tile come out, in order; the rest stays |
| TileDocObject.TileDoc.PlaceAfter | apps/core/cmd/supervisor/router/workspace.go:95-104 | behind the named tile, behind the root, or at the end |
| TileDocObject.TileDoc.PutOpened | apps/core/cmd/supervisor/router/workspace.go:120-135 | the bundle goes in, tiles opened by none of it hung on the root |
| TileDocObject.TileDoc.DetachFolder | apps/core/cmd/supervisor/router/workspace.go:68-92 | the three refusals, or the board cut off and the board left |
| TileDocObject.TileDoc.KeepFolderMeta | apps/core/cmd/supervisor/router/tileDoc.go:134-148 | the loop over tiles ends in the document with the server's own fields taken from the stored one |
| TileDocObject.TileDoc.CheckTerminalUIDs | apps/core/cmd/supervisor/router/tileDoc.go:171-192 | true exactly if every terminal was stored before and none is there twice |
| TileDocObject.TileDoc.CheckVideoTiles | apps/core/cmd/supervisor/router/tileDoc.go:195-205 | true exactly if every video tile was stored with the same id and file |
| TileDocObject.TileDoc.ClosedTerminals | apps/core/cmd/supervisor/router/tileDoc.go:222-234 | the processes shown before and no longer |
| TileTrees.OpenValid | apps/core/cmd/supervisor/router/tileDoc.go:237-245 | opening a tile gives a valid board exactly when the tile is sound and its id new |
| TileTrees.RemoveValid | apps/core/cmd/supervisor/router/tileDoc.go:248-258 | a valid board without any tile but the root is valid |
| TileTrees.OpenPlaced | apps/core/cmd/supervisor/router/tileDoc.go:237-245 | if the tile asked for is there and is a folder or a device, the new one hangs on it and stands right behind it, otherwise on and behind the root; nothing else changes |
| TileTrees.RemoveKeepsUnder | apps/core/cmd/supervisor/router/tileDoc.go:248-258 | removing a tile leaves every other tile under exactly what it was under |
| TileTrees.PutPlaced | apps/core/cmd/supervisor/router/workspace.go:95-135 | a bundle stands together behind the tile asked for, behind the root, or at the end |
| TileTrees.LeftValid | apps/core/cmd/supervisor/router/workspace.go:107-116 | what is left when a bundle goes is a valid board |
| TileTrees.PutValid | apps/core/cmd/supervisor/router/workspace.go:120-135 | a bundle from a valid board makes a valid board a valid one exactly when they share no tile id |
| TileTrees.MoveConserves | apps/core/cmd/supervisor/router/workspace.go:107-135 | no tile lost or doubled, only the top one's opener changed, both orders kept, both boards valid |
| TileTrees.SplitConserves | apps/core/cmd/supervisor/router/workspace.go:68-92 | both parts valid, between them every tile as it was but the new root's opener, order kept in both |
| TileTrees.Rejoin | apps/core/cmd/supervisor/router/workspace.go:320-339 | splitting a board off and deleting it gives back every tile, the folder now hung on the root and standing behind it |
| TileTrees.ShiftValid | apps/core/cmd/supervisor/router/workspace.go:270-282 | moving one tile about on its board keeps the board valid and all tiles and other places as they are |
| BoardHandlers.Router.SaveLocked | apps/core/cmd/supervisor/router/workspace.go:159-170 | a valid document is stored with the next version, an invalid one never |
| BoardHandlers.Router.EnsureDefault | apps/core/cmd/supervisor/router/tile.go:107-137 | nothing changes if there is a default board; or else there is a new one with one folder tile of no node |
| BoardHandlers.Router.PutRead | apps/core/cmd/supervisor/router/tile.go:172-204 | each refusal, or a request that holds the very document its checks were made against |
| BoardHandlers.Router.PutWrite | apps/core/cmd/supervisor/router/tile.go:206-226 | written exactly if the version is still the one read, a kept folder tile with its stored uid and, for the same node, its stored time and pin, a new one with new ones, and no field of these from the browser; then the closed processes are those shown before and not now |
| BoardHandlers.SendBack | apps/core/cmd/supervisor/router/tile.go:172-226 | sending back the stored board as it is passes every check, and once settled it is stored unchanged |
| BoardHandlers.SaveSettles | apps/core/cmd/supervisor/router/tileDoc.go:114-148 | what a save has stored is settled: every folder tile has a uid and a time |
| BoardHandlers.OneStored | apps/core/cmd/supervisor/router/tileDoc.go:134-148 | one tile as sent, one as stored under its id: which uid, time and pin are stored |
| BoardHandlers.Router.BindTile | apps/core/cmd/supervisor/router/tile.go:235-280 | the tile is the one pin of its node on all boards; no other pin, place, opener or field changes, and a board without a change keeps its version |
| BoardHandlers.Router.CreateWorkspace | apps/core/cmd/supervisor/router/workspace.go:201-248 | the refusals, or the split into two stored boards |
| BoardHandlers.Router.MoveTile | apps/core/cmd/supervisor/router/workspace.go:252-300 | the refusals, a shift on one board, or the move of a bundle; a clash of ids changes nothing |
| BoardHandlers.Router.DeleteWorkspace | apps/core/cmd/supervisor/router/workspace.go:320-354 | everything goes to the default board and the board is gone, or nothing changed |
| BoardHandlers.Router.AppendTerminal | apps/core/cmd/supervisor/router/tilePlace.go:20-78 | the tile shown already, or one new tile on the board asked for or the default, under and right behind the folder or device asked for or else the root; the stored board is valid exactly if the tile is sound and its id new |
| BoardHandlers.Router.InsertTerminal | apps/core/cmd/supervisor/router/tilePlace.go:104-176 | nothing exactly if the process is shown or no viewed board has a binding tile, or else one new tile under and right behind the binding tile: of the nearest ancestor shown the pinned one, or the one shown first |
| BoardHandlers.Router.BoundPlace | apps/core/cmd/supervisor/router/tilePlace.go:168-195 | the best tile of the nearest ancestor shown, if a tab shows its board |
| BoardHandlers.Router.AttachFolder | apps/core/cmd/supervisor/router/shareAccess.go:40-59 | nothing exactly if a tile shows the folder, or else one new tile behind the root of the default board, its uid new if it was used |
| BoardHandlers.Router.PurgeTiles | apps/core/cmd/supervisor/router/processPurge.go:79-133 | the tiles of ended processes go from all boards at once, the other boards untouched |
| TileDocObject.TileDoc.RemoveProcs | apps/core/cmd/supervisor/router/processPurge.go:104-109 | the loop over tiles it is removing ends in the document without the tiles of these processes, in whatever order it meets them |
| TileTrees.WithoutValid | apps/core/cmd/supervisor/router/tileDoc.go:248-258 | removing any tiles that can open none leaves a valid board |
| BoardHandlers.Router.AdoptOrphans | apps/core/cmd/supervisor/router/tilePlace.go:204-252 | every living process without a tile gets one on the default board, hung on its root |
| BoardHandlers.Router.OpenVideo | apps/core/cmd/supervisor/router/videoTile.go:35-72 | the tile that shows the file already, or one new one under and right behind the folder or device asked for or else the root |
| BoardHandlers.Router.BindProcess | apps/core/cmd/supervisor/router/share.go:286-361 | the tile of the process moves under the other tile and right behind it, on one board or between two, or one is made there for a living process |
| Boards.PutIsSafe | apps/core/cmd/supervisor/router/tile.go:188-204 | what passes the checks of a save holds no terminal, video or pin that was not stored, and none twice |
| BoardRuns.NoLostUpdate | apps/core/cmd/supervisor/router/tile.go:206-216 | a save that finds its version finds the very document it was checked against |
| BoardRuns.OpensKeeps | apps/core/cmd/supervisor/router/tilePlace.go:20-143 | opening a tile for something not shown yet keeps all boards valid and every tag on one tile |
| BoardRuns.AdoptsKeeps | apps/core/cmd/supervisor/router/tilePlace.go:204-252 | so does adopting any number of processes |
| BoardRuns.WritesKeeps | apps/core/cmd/supervisor/router/tile.go:206-216 | so does a checked save that found its version |
| BoardRuns.MovesKeeps | apps/core/cmd/supervisor/router/workspace.go:252-300 | so does moving a bundle between boards |
| BoardRuns.SplitsKeeps | apps/core/cmd/supervisor/router/workspace.go:201-248 | so does splitting a board |
| BoardRuns.DeletesKeeps | apps/core/cmd/supervisor/router/workspace.go:320-354 | so does deleting one |
| BoardRuns.BindsKeeps | apps/core/cmd/supervisor/router/tile.go:235-280 | so does pinning, and the pin is on the tile asked for |
| BoardRuns.RehangsKeeps | apps/core/cmd/supervisor/router/share.go:286-361 | so does moving the tile of a process |
| BoardRuns.PurgesKeeps | apps/core/cmd/supervisor/router/processPurge.go:79-133 | so does purging, and exactly the tags of the purged processes are gone |
| BoardRuns.StepKeepsInv | apps/core/cmd/supervisor/router/workspace.go:138-170 | every step keeps boards, pending saves and the versions stored so far in agreement |
| BoardRuns.BoardsOverRuns | apps/core/cmd/supervisor/router/tile.go:172-280 | in every run, with saves read and written at different times, every stored board is valid and each process, video file and node pin has one tile in the account at most |
| Bindings.Binder.BindingTile | apps/core/cmd/supervisor/router/tilePlace.go:179-195 | the nearest ancestor with a folder tile decides; of its tiles a pinned one, then the one shown first, then the first in board and tile order |
| Bindings.Binder.PinsOf | apps/core/cmd/supervisor/router/tile.go:76-104 | just the nodes with two tiles or more, each with the tile that is chosen so, in the order they are first shown |
| Bindings.BestIsChosen | apps/core/cmd/supervisor/router/tilePlace.go:179-200 | the best of the tiles of a node is pinned if any is; of those pinned alike none was shown earlier; of those equal in both none comes before it |
| Bindings.PinsAreBindings | apps/core/cmd/supervisor/router/tile.go:76-104 | a node is pinned exactly when two or more tiles show it, and then on the tile `bindingTile` picks |
| Broadcasts.Dests.Unsubscribe | apps/core/internal/broadcaster/broadcaster.go:103-114 | the channel is taken out of the list if it is there |
| Broadcasts.StepKeepsInv | apps/core/internal/broadcaster/broadcaster.go:77-207 | every lock-protected section keeps each channel in one place and its log behind by the value in hand at most |
| Broadcasts.BroadcastOverRuns | apps/core/internal/broadcaster/broadcaster.go:77-207 | in every interleaving no send on a closed channel and no double close; what a channel was sent is a stretch of the history without a gap; after closing and the last pending close all channels are closed |
| ZipReads.FileRead.Read | apps/core/cmd/worker/router/transfer_read.go:202-228 | a file at any place: the bytes there, the end told when fewer come; a zip at its place, its last piece again, or a refusal that changes nothing |
| ZipReads.FileInPieces | apps/core/cmd/worker/router/transfer_read.go:206-213 | a plain file read on from any place in pieces of any sizes comes in order and whole |
| ZipReads.ServeOk | apps/core/cmd/worker/router/transfer_read.go:214-227 | whatever is asked, an answer with data holds the zip's bytes at the place asked for |
| ZipReads.ReadsOverRuns | apps/core/cmd/supervisor/router/workerRead.go:109-156 | with lost calls, lost answers and late calls the bytes handed on are a beginning of the zip, and all of it at the end |
| ZipReads.NeverOutOfOrder | apps/core/cmd/supervisor/router/workerRead.go:136-156 | the call the reader waits for is never refused for its place |
| Transfers.Receiver.FileInit | apps/core/cmd/worker/router/transfer.go:90-149 | every refusal, or the part that is kept and where to go on; a too long one, or one not to be resumed, thrown away |
| Transfers.Receiver.CheckDest | apps/core/cmd/worker/router/transfer.go:152-167 | a folder of that name, a file not to be overwritten, or no folder to put it in |
| Transfers.Receiver.FileChunk | apps/core/cmd/worker/router/transfer.go:170-183 | the bytes stand at their place, a gap is zeros, all others stay; and the high-water mark |
| Transfers.Receiver.FileResult | apps/core/cmd/worker/router/transfer.go:186-225 | unknown or incomplete and nothing changed, corrupt and thrown away, or the part is the file |
| Transfers.ChunkFollows | apps/core/internal/transfer/saveFile.go:164-183 | a chunk at or before the end keeps the part gap-free, its length the mark |
| Transfers.DoneIsSource | apps/core/cmd/supervisor/router/transfer.go:192-273 | when the receiver says complete, the file is the source, if the part found at the start was a beginning of it or too long, or if there is a hash |
| Transfers.DoneNeedsPrefix | apps/core/cmd/worker/router/transfer.go:113-135 | completed on top of the part found, the file is the source if and only if the part was a beginning of it |
| Transfers.WrongPartCompletes | apps/core/cmd/supervisor/router/transfer.go:192-273 | on top of every part that is no beginning of the source a run with nothing lost is completed and ends in another file |
| Transfers.StaysDelivered | apps/core/cmd/supervisor/router/transfer.go:109-170 | and it stays the source through later attempts |
| Transfers.ExclusiveLeaves | apps/core/cmd/worker/router/transfer.go:152-167 | in every run of a transfer that must not overwrite, a file that was there stays as it is and nothing is completed |
| Transfers.FolderLeaves | apps/core/cmd/worker/router/transfer.go:152-167 | nor is anything put where a folder of that name stands |
| HoldBack.IncompleteTailLen | apps/core/internal/util/char.util.go:52-87 | the backward loop gives the length of a character not all there |
| HoldBack.IsCompletedUTF8 | apps/core/internal/util/char.util.go:3-46 | the backward loop gives the last index, the bytes missing, or a malformed end |
| HoldBack.HoldsTheCutOnly | apps/core/internal/util/char.util.go:3-87 | of valid text cut anywhere just the cut character is held, three bytes at most; what is kept ends on a character and passes the entry test unless empty |
| HoldBack.MissingIsExact | apps/core/internal/util/char.util.go:3-46 | the number of bytes missing is the least that makes a valid text of the beginning of one; a valid text gives its last index |
| HoldBack.AnswersAre | apps/core/internal/util/char.util.go:3-46 | there are three answers, bytes are missing just when something is held, and malformed is no beginning of a text |
| HoldBack.OutputLoop.Take | apps/core/internal/execute/pty/execInteractive.go:86-99 | one round: what goes out, what the test drops, what is held |
| HoldBack.OutputLoop.End | apps/core/internal/execute/pty/execInteractive.go:101-110 | at the end what is held is put to the entry test first; it goes out once, and nothing is left |
| HoldBack.LoopKeepsText | apps/core/internal/execute/pty/execInteractive.go:86-114 | for any chunks of valid text nothing is ever dropped and all but the cut character has gone out |
| HoldBack.HeldNeverPasses | apps/core/internal/execute/pty/execInteractive.go:101-110 | for any chunks of any bytes what is held would not pass the entry test at the end |
| HoldBack.EveryByteAccounted | apps/core/internal/execute/pty/execInteractive.go:86-99 | whatever is read, each byte went out, was dropped or is held |
| HoldBack.AllHasGoneOut | apps/core/internal/execute/pty/execInteractive.go:86-114 | at the end every byte of a text, whole or cut, has gone out once and in order; what was held is empty exactly for a whole text |
| LineCutter.Cutter.Write | apps/core/cmd/updater/exec_windows.go:59-80 | the lines of what was kept and the chunk go out, a too long rest with them |
| LineCutter.RestIsBounded | apps/core/cmd/updater/exec_windows.go:75-78 | a rest of up to 4096 bytes is kept, a longer one is not |
| LineCutter.PiecesAreLines | apps/core/cmd/updater/exec_windows.go:63-74 | each piece is one line with its end, and CR LF is never cut in two |
| LineCutter.RunConserves | apps/core/cmd/updater/exec_windows.go:59-90 | the pieces in order, with what is kept, are the stream, for any chunks and any lines |
| LineCutter.ChunksDoNotMatter | apps/core/cmd/updater/exec_windows.go:59-90 | lines that fit are cut the same for any chunks |
| LineCutter.TooLongIsCut | apps/core/cmd/updater/exec_windows.go:75-78 | a stream with a line that does not fit is cut elsewhere when it comes in two parts |
| Hubs.Hub.Subscribe | apps/core/internal/subscribe/hub.go:103-110 | the pair goes into both books, once |
| Hubs.Hub.Unsubscribe | apps/core/internal/subscribe/hub.go:113-152 | the pair leaves both books, empty entries with it |
| Hubs.Hub.UnsubscribeAll | apps/core/internal/subscribe/hub.go:120-127 | all pairs of the client leave |
| Hubs.AllGone | apps/core/internal/subscribe/hub.go:120-127 | the client is in neither book and all others keep what they had |
| Hubs.ExactOverRuns | apps/core/internal/subscribe/hub.go:103-152 | after any operations each book is the other turned around, without doubles or empty entries, and holds just the pairs last asked for |
| FolderShas.FolderSha | apps/core/internal/supervisor/updstore/store.go:273-298 | the hash of the lines of the entries in some order that sorting by scope, sub key and path may give |
| FolderShas.OneHash | apps/core/internal/supervisor/updstore/store.go:278-287 | entries with distinct names have one hash, in whatever order they are given |
| FolderShas.SortedByName | apps/core/internal/supervisor/updstore/store.go:278-287 | a later entry has no earlier scope, of equal scopes no earlier sub key, of equal sub keys no earlier path |
| FolderShas.TextIsRows | apps/core/internal/supervisor/updstore/store.go:288-296 | the hashed text is a row for each entry in order, its fields divided by NUL and ended by a line end, the mode in octal only if it is not the default |
| FolderShas.DefaultModes | apps/core/internal/supervisor/updstore/store.go:259-267 | names that end with ".sh" in any case get 0755, all others 0644 |
| FolderShas.TextInjective | apps/core/internal/supervisor/updstore/store.go:288-296 | equal texts come from equal entries up to written-out modes |
| FolderShas.SameShaSameEntries | apps/core/internal/supervisor/updstore/store.go:273-298 | for entries with distinct names the hashes are equal exactly when the entries are, in whatever order, a mode of 0 being the default |

## Left out

- JsonFaults.FaultIsThere: of a key named twice, a string without an end and a value too deep it says only which byte is pointed at; when a text is refused at all is exact in `JsonReading.ParsesExactly`.
- Integer width: offsets, versions and sizes are unbounded; the wrap-around of int64 is not modelled.
- Whole-document checks of steps.json (`Check`, `checkSteps`, `checkReplace`) and the texts of messages.
- Directories, symbolic links, permissions of folders and free space: the disk is a map from path to bytes and mode, so a file that stands where a folder is needed does not occur.
- Temporary files left by a crash inside `copyOne`, and crashes inside one file operation: a job stops between operations.
- Windows file renaming; the file rules are those of `fs_other.go`.
- `filepath.IsLocal`, `Join` and `Rel` are modelled for clean paths, which is what `CleanRel` lets through.
- Scripts of a step list, output of steps, progress and the messages to the supervisor.
- Single runs of one step outside a deployment (`updStartRun`): no history has one. A single `backup` makes a folder of its own that counts among the three kept, and one run under a deployment's id replaces that deployment's backup. The search for the backup of such a run is left out with them, and so is the order of results that arrive late.
- An install path set between two steps of one deployment: it is set between orders only.
- The one-off migration of the order of stored boards (`tileOrderMigrate.go`).
- The phantom row of PostgreSQL: a transaction that locks rows is one step, so a board created between another transaction's lock and its reading does not occur.
- Which ancestors of a process an account may see, and which boards its tabs show, are parameters of `insertTerminal`.
- Notices to browsers, size ownership, node permissions, video positions, workspace names and order.
- The supervisor's restart, which begins with an empty screen; within one life of the copy the offset never goes down.
- The status broadcaster behind the broadcaster and its queue, but for the closing of the queue; payloads and timeouts are steps that may happen at any time.
- Reading one plain file over the line (`reopen`, `stale`): only the worker's answer is modelled, not the reader's reopening.
- Two transfers to one destination at the same time, and calls of one transfer handled out of order.
- Newline rewriting in `publishLine`: only its entry test is modelled.
- The conversion from CP949 of each piece in `cp949Lines.emit`.
- Locks of the hub and its `Publish`.
