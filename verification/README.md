# mk-nasd, modelled and proved

mk-nasd is the root agent of a NAS. Most of what it does has to survive things going wrong in the middle: a copy to another
host that is cut, a network change that locks its owner out, a backup during a power cut, a snapshot that cannot be taken. The
rest is text edited or read by hand: a netplan file, a drive's `.env`, `zpool status`, smb.conf. This project models those parts
and proves what the agent promises about them, over all inputs and over whole runs.

`dafny verify dfyconfig.toml` checks it all.

## What is here

- `ReplicationNames`, `Replication`, `ReplicationRuns`, `ReplicationPrune`, `ReplicationTraces`: a dataset copied to another
  ZFS host. The two sides, the resume token and the run in progress are one state machine; other snapshots come and go between
  any two steps, any command can fail and a run can stop anywhere. The target takes a full stream only where nothing is and an
  increment only onto its newest snapshot, and a cut send is resumed only from what it was being sent.
- `ShareTable`, `ShareFiles`, `ShareSections`, `ShareAccess`, `ShareExports`, `ShareQueue`: the share verbs, the table they
  change, the two files made from it, and the chain of promises that makes them.
- `NetworkFile`, `NetworkYaml`, `NetworkChange`: the netplan file printed, read back, and read as YAML; the change with a
  promised revert, through deaths, restarts, torn writes and refusals.
- `BackupSwap`: the three directories of a settings backup, cut between any two file operations. `KeyedLines`,
  `RepeatedMerge`, `DriveEnv`, `DriveEnvValues`: the merge of a restored `.env`, as an override of a map from keys to lines,
  and what merging again does.
- `Retention`, `RetentionTicks`, `RetentionRuns`: automatic snapshots: the plan, one tick whichever commands fail, any sequence
  of ticks.
- `VdevStack`, `Vdevs`: the device tree built with a stack of open nodes on the heap, and the tree the rows mean.
- `Framing`: a client's stream cut into lines. `Alerts`, `AlertRuns`, `AlertConditions`, `AlertLooks`, `AlertScans`: alerts
  reconciled with the table, over any history. `Events`, `EventLines`: the kernel's event list polled and shown.
- `Text`, `OrderedMap`: strings and JavaScript's Map, as far as the others need them.

Objects that the agent updates in place are classes; loops are loops with invariants, each proved against a function of its
inputs or of the old state, and the theorems are about those functions. Protocols are state machines: `Enabled` says which steps
can happen, `Next` what each does, `Runs` and `Final` are whole runs.

## What is not so

The code does not keep everything one would expect of it. Each of these has a lemma that names an input or a run, and one that
says exactly when it holds.

- A resumed send delivers the snapshot whose send was interrupted, but the prune after it counts the one just taken. With
  `keep` = 1 the only shared snapshot is then destroyed on both sides and nothing can be sent to that target any more
  (`ReplicationTraces.KeepOneLosesBase`); in general it stays exactly when fewer than `keep` own snapshots are newer
  (`ReplicationRuns.ResumedBaseSurvivesExactly`).
- An incremental send carries the snapshots of policies too. Cut during one of those it leaves a token for it, and once the
  policy destroys that snapshot every later run tries to resume what cannot be resumed, for ever, since a token that was seen is
  always resumed and never given up (`ReplicationTraces.DeadTokenForever`). Which sends no later destroy can spoil is exact
  (`ReplicationRuns.SendSafeExactly`), and so is which later send makes up for one that was not
  (`ReplicationRuns.RecoversExactly`).
- A target whose look missed a waiting resume token refuses what the run sends (`ReplicationTraces.MissedTokenRefused`, and
  exactly then: `ReplicationRuns.RefusedIffTokenMissed`).
- `cidr` does not look past a second `/`, so an address can be accepted that ends its line in the file
  (`NetworkFile.UncleanIsAccepted`); a file is read back as it was set exactly when every address is clean
  (`NetworkFile.ComesBackExactlyWhenClean`). Such a tail can hold a comma, which makes two addresses of one to netplan
  (`NetworkYaml.CommaIsAccepted`, exactly then: `NetworkYaml.ReadAsSetExactly`).
- A backup run clears `.new` first, so it protects only a copy in the directory or in `.old`
  (`BackupSwap.RunKeepsCopyExactly`): two cut runs and the first operation of a third lose every copy
  (`BackupSwap.TwoCutsLoseEveryCopy`).
- Merging a `.env` twice is not always the same as once: dropping a later line of a key can leave a blank line at the end, which
  the second merge removes (`DriveEnv.MergingAgainDiffers`). It is the same exactly when the first merge adds a line, or when no
  blank line of this box's file is followed by nothing but later lines of taken keys (`DriveEnv.MergingAgainSameExactly`).
- `conditions` turns up to 20 rows of scan history into `scan:` keys, so a key can come twice; two failed scrubs of one pool with
  different messages change the alert's text at every look (`AlertScans.TwoScansFlapFromTheStart`). It stays exactly when every
  failed scan that was read says what the alert says (`AlertScans.ScanTextStaysExactly`).
- When the kernel's event ids start over and have passed the last one remembered by the next poll, the events before it are never
  returned (`Events.RestartLosesEvents`; exactly which: `Events.NeverReturnedExactly`).
- `recent` stops as soon as it has `limit` lines, so the last line counts one event, however long its run is
  (`EventLines.TwoCountAsOne`); what is shown is the first lines of the whole folding exactly when the line at the limit stands
  for one event (`EventLines.ShownIsFirstLinesExactly`).
- A mountpoint with a blank in it is written into the exports as it is, where its second word reads as a host
  (`ShareExports.SpaceReadsAsHost`); of the words between its blanks the first is the mountpoint exactly when there is none in
  it (`ShareExports.ExportWordsExactly`).

## Model

| member | source | states |
|---|---|---|
| ReplicationNames.OneOwner | agent/src/replication.ts:142-147 | no snapshot name is own to two different replication ids |
| ReplicationNames.LegacyIsNobodys | agent/src/replication.ts:137-147 | a name from before ids is own to no id, not even one that reads like a year |
| ReplicationNames.MineExactly | agent/src/replication.ts:137-147 | a name is a replication's to prune if and only if it is repl-, its id and a stamp, or, while it is the dataset's only replication, repl- and a stamp |
| ReplicationNames.StampShape | agent/src/policy.ts:15 | the stamp of an instant has the shape dddd-dd-dd_dd-dd exactly when its year has four digits |
| ReplicationNames.StampIs | agent/src/replication.ts:143-143 | a stamp is told character by character: digits but for the three dashes and the underscore at their places |
| ReplicationNames.StampReadsBack | agent/src/policy.ts:15 | read as year, month, day, hour and minute, the stamp names the instant it was made for |
| ReplicationNames.ReplNameIsOwn | agent/src/replication.ts:142-145 | the name a run takes is own to exactly its own replication, if and only if the year has four digits |
| Replication.NewestOfTargetIsCommon | agent/src/replication.ts:85 | while the target's newest snapshot is also here, the newest name both sides have is that one, in creation order |
| Replication.PlanIsAcceptable | agent/src/replication.ts:76-90 | whenever the target is ready, after a good look, the plan is never a refusal and never nothing: it resumes, sends all to an absent target, or starts from exactly the target's newest snapshot; there is something to send, and receive without -F takes it |
| Replication.OtherTakeKeeps | agent/src/replication.ts:259-309 | snapshots taken by policies, by hand or by other replications, at any moment of a run, keep the base of the invariant (order, names, what the phases rely on) and all of it where it holds |
| Replication.OtherDestroyKeeps | agent/src/replication.ts:137-141 | so do destroys of any snapshot that is not this replication's own |
| Replication.LookKeeps | agent/src/replication.ts:261-270 | listing both sides and planning keeps both, whether the token was seen or not, and from a ready target the plan fits |
| Replication.SendKeeps | agent/src/replication.ts:276-302 | any send, cut or whole, safe or not, keeps the base of the invariant, and a safe one all of it: what the next send needs here, the target's newest snapshot and the one its token stands for, is of names nobody else destroys, and the prune spares it |
| Replication.LatestStays | agent/src/replication.ts:304-306 | in any history, unsafe sends and all, the snapshot just taken is never among those the run destroys |
| Replication.BeyondIffNewer | agent/src/replication.ts:306 | a name is beyond `keep` exactly when at least `keep` of the replication's names are newer |
| Replication.PruneKeeps | agent/src/replication.ts:306-309 | every single destroy of the prune, done or refused, keeps the base of the invariant and all of it where it holds |
| ReplicationRuns.RunStaysReady | agent/src/replication.ts:259-309 | over every run with safe sends, whatever fails or happens besides: the target is absent, or its newest snapshot still exists here, or its token's snapshot does and, if it has a newest one, that too |
| ReplicationRuns.RunBase | agent/src/replication.ts:259-309 | any run at all, its sends safe or not, keeps order, names and what the phases rely on |
| ReplicationRuns.RecoversExactly | agent/src/replication.ts:276-309 | whatever an unsafe send left behind, a send of which everything arrives makes the whole invariant hold again if and only if it is a safe one, and every full or incremental one is |
| ReplicationRuns.ReadySince | agent/src/replication.ts:259-309 | however a history began: after one safe send that arrived whole and while the sends after it are safe, the target is absent, or ends in a snapshot that is here, or can be resumed |
| ReplicationRuns.ReadyIffSomethingArrives | agent/src/replication.ts:76-90 | a run whose look went well has something to send that the target takes if and only if the target is ready |
| ReplicationRuns.RefusedIffTokenMissed | agent/src/replication.ts:266-270 | from a plan that fits, as any made for a ready target does, a send is refused by the target if and only if a waiting token was not seen |
| ReplicationRuns.SendSafeExactly | agent/src/replication.ts:302-309 | under the invariant, or in any history when everything arrives, a send is safe if and only if no sequence of later destroys can take from this side what the next send needs, the target's newest snapshot or the one its token stands for |
| ReplicationRuns.UnsafeSendLosesBase | agent/src/replication.ts:276-309 | in any history, after every unsafe send some sequence of destroys leaves a target nothing can be sent to |
| ReplicationRuns.NotReadyForever | agent/src/replication.ts:82-90 | a target that lost its base, or the snapshot of its token, takes nothing ever again, whatever follows: it and its token stay as they are |
| ReplicationRuns.PrunedAll | agent/src/replication.ts:306-309 | a prune whose destroys all succeed removes exactly the old names, on both sides |
| ReplicationRuns.PruneTakesOnlyOlderOwn | agent/src/replication.ts:302-309 | a prune destroys only names of this replication and of no other, never the fresh one, each with at least `keep` newer ones |
| ReplicationPrune.OldExactly | agent/src/replication.ts:302-309 | a listed name goes if and only if it is written as the replication's and at least `keep` such names stand behind it, the fresh one counted even if the listing lacks it |
| ReplicationPrune.OldIsListed | agent/src/replication.ts:302-309 | nothing goes that was not listed |
| ReplicationPrune.LegacyStays | agent/src/replication.ts:137-147 | while two replications share a dataset every name that goes begins with repl- and the own id, and every snapshot from before ids stays on both sides, whatever fails |
| ReplicationPrune.LegacyGoes | agent/src/replication.ts:137-147 | the dataset's only replication prunes the stamped names from before ids too, once `keep` of its names came after them |
| ReplicationPrune.StoppedPrune | agent/src/replication.ts:306-309 | wherever a prune stops while its destroys succeed, exactly the oldest names are gone, as many here as on the target or one more |
| ReplicationRuns.ResumedBaseSurvivesExactly | agent/src/replication.ts:302-309 | in any history, after a resumed send of an own snapshot and a fully successful prune both sides share an own snapshot if and only if fewer than `keep` own snapshots are newer than the resumed one |
| ReplicationRuns.SharedExactly | agent/src/replication.ts:302-309 | in any history, after any send that arrived whole, a policy's snapshot resumed included, and a fully successful prune both sides share an own snapshot if and only if they shared one before the prune with fewer than `keep` own snapshots newer |
| ReplicationRuns.SentRunSharesLatest | agent/src/replication.ts:265-281 | in any history, after a full or incremental send both sides share the fresh snapshot, whichever destroys fail, for every `keep` of at least 1 |
| ReplicationRuns.PruneLeavesNewest | agent/src/replication.ts:304-309 | in any history, when destroys succeed exactly the newest min(keep, n) own snapshots stay here, and the older ones are gone there |
| ReplicationTraces.KeepOneLosesBase | agent/src/replication.ts:302-309 | with `keep` = 1 there is a run from the very beginning, with one cut send, that ends with a target nothing can be sent to |
| ReplicationTraces.DeadTokenForever | agent/src/replication.ts:83-90 | for any `keep` there is a run from the very beginning, with one increment cut at a policy's snapshot that is then destroyed, after which target and token never change again in any run, though both sides share a snapshot |
| ReplicationTraces.MissedTokenRefused | agent/src/replication.ts:265-270 | there is a run in which asking for the token fails and the target refuses what is sent, while resuming would be taken |
| ReplicationPrune.Sides.DestroyOld | agent/src/replication.ts:304-309 | the destroy loop, here then there for each old name oldest first, refines the queue the theorems are about, and with two replications on the dataset leaves all snapshots from before ids on both sides |
| ShareTable.UpsertIs | agent/src/db.ts:291-316 | storing a row keeps the table in dataset order, replaces that dataset's row and touches no other |
| ShareTable.SetLeaves | agent/src/shares.ts:231-279 | after share.set the dataset's row is the merged one, or absent when it is shared no way, and every other row is as it was |
| ShareTable.SetStores | agent/src/shares.ts:236-253 | field by field, what an accepted call stores: each as given, else as before, else as for a new share; Time Machine only for an SMB share; no row when it is shared no way |
| ShareTable.AcceptedExactly | agent/src/shares.ts:231-260 | a call is accepted if and only if the dataset exists and is mounted, what it gives has its shape, an NFS share it touches names somebody, and an SMB one has a name that is not reserved and no other SMB share's |
| ShareTable.SameNameExactly | agent/src/shares.ts:255-260 | two shares have one SMB name if and only if their last components agree letter by letter, case aside |
| ShareTable.NameIsLast | agent/src/shares.ts:43-47 | the name of a share is what follows the last slash of its dataset |
| ShareTable.SetKeepsNames | agent/src/shares.ts:255-260 | no accepted share.set stores a second SMB share whose last component agrees with another's, case aside |
| ShareTable.SetKeepsSound | agent/src/shares.ts:237-260 | every row it stores is one that listing would offer, given that the rows before were |
| ShareTable.DropLeaves | agent/src/db.ts:318-327 | after a user's removal no share lists the name; lists lose only it, and an untouched row is unchanged |
| ShareTable.DropKeeps | agent/src/db.ts:318-327 | that keeps the order, the distinct names and the shape of every row |
| ShareTable.ShareDb.DropSmbUserFromShares | agent/src/db.ts:319-327 | the loop of upserts over the table as it was read leaves exactly the table without the user, and says whether any list changed |
| ShareTable.ShareDb.RemoveShare | agent/src/db.ts:329-331 | exactly that dataset's row goes, and the answer says whether there was one |
| ShareFiles.ListShares | agent/src/shares.ts:157-180 | the filter with its growing set of names gives the listed rows with their mountpoints |
| ShareFiles.OffersAre | agent/src/shares.ts:157-180 | what is offered is the listed shares, each with the mountpoint of its own dataset |
| ShareFiles.ListedExactly | agent/src/shares.ts:157-180 | for any table: a row is listed if and only if share.set would take its values and, for SMB, no earlier such row has its name, case aside |
| ShareFiles.ListedNames | agent/src/shares.ts:158-176 | listed SMB shares of any table have distinct, unreserved names |
| ShareFiles.OwnTableIsListed | agent/src/shares.ts:157-180 | a table only share.set wrote is listed whole |
| ShareFiles.SmbConf | agent/src/shares.ts:63-122 | the loop computes the text that SectionsApart, HeaderExactly and AccessExactly read back |
| ShareFiles.Exports | agent/src/shares.ts:124-139 | the loop writes the lines that ShareExports.ExportsAre reads back from the text |
| ShareExports.ExportsAre | agent/src/shares.ts:124-159 | for any table, the exports read line by line have one line for each listed, mounted NFS share, in order, a comment exactly when nobody may mount it, and every host or network in them is one share.set would take |
| ShareExports.NobodyIsAComment | agent/src/shares.ts:127-133 | a line is a comment if and only if the share allows nobody, or the mountpoint itself starts like a comment |
| ShareExports.ExportWords | agent/src/shares.ts:134-136 | a line read word by word is the mountpoint's words and then each host or network of the share with the agent's options right behind it, and nothing else |
| ShareExports.ExportWordsExactly | agent/src/shares.ts:134-136 | a word being what stands between blanks: the first word is the mountpoint and every other a host or network if and only if there is no blank in the mountpoint |
| ShareExports.SpaceReadsAsHost | agent/src/shares.ts:134-136 | a mountpoint of two words puts its second one where a host stands |
| ShareExports.OptionsAreTheAgents | agent/src/shares.ts:32-37 | in every entry what stands from the first bracket on is the agent's fixed options: a host or network brings none of its own |
| ShareExports.OptionsSay | agent/src/shares.ts:134-136 | read one by one the options are rw, sync, no_subtree_check, all_squash and the owner's uid and gid as anonuid and anongid |
| ShareSections.SectionsApart | agent/src/shares.ts:63-122 | smb.conf read back line by line has the section [global] and one for each offered share in order, and no two headers are the same to Samba, for any table at all |
| ShareSections.OwnSectionsApart | agent/src/shares.ts:63-122 | so it is with the agent's own global settings: they break no line and open no section |
| ShareAccess.HeaderExactly | agent/src/shares.ts:90-98 | for any table: a listed SMB share has a section in the text if and only if it is mounted and its list, if it has one, is not empty |
| ShareAccess.AccessExactly | agent/src/shares.ts:90-120 | for any table, read from the text between a share's header and the next one: without a list, read only is no and valid users the group; with one, read only is yes, the words of valid users are the listed users in order, the words of write list exactly those the list gives write, and there is no such line when nobody may; path, forced owner, masks and Time Machine are the share's, and nothing else is set |
| ShareQueue.NeverTwoAtWork | agent/src/shares.ts:182-190 | over any interleaving from an empty queue: while one regeneration is at work every later one waits, and none has begun before all earlier ones settled |
| ShareQueue.StepKeeps | agent/src/shares.ts:182-213 | each step of a verb or of a regeneration keeps the order of the chain and that the last regeneration works from the current table |
| ShareQueue.FilesFollowTable | agent/src/shares.ts:182-213 | over any interleaving with any failures: once the last regeneration succeeded both files are the generators applied to the current table |
| ShareQueue.SomethingCanGo | agent/src/shares.ts:186-190 | while any regeneration is not settled one can begin or go on: a failed one never blocks those after it |
| ShareQueue.QueueEmpties | agent/src/shares.ts:186-213 | without new verbs the queue settles: every run of it is bounded by the work that is left |
| ShareQueue.RunAddsNoTwins | agent/src/shares.ts:231-286 | over any interleaving of share.set, share.remove and user.remove, from any table: two SMB shares that end under one name began under it |
| ShareQueue.RunKeepsNames | agent/src/shares.ts:231-286 | so a table without two SMB shares of one name stays one, even a restored one with rows share.set would refuse |
| ShareQueue.RunKeepsOwn | agent/src/shares.ts:231-286 | and when every row is one share.set could have written, they all stay so, and every stored share is in what is listed |
| ShareQueue.Agent.SetShare | agent/src/shares.ts:231-279 | the verb refuses for the first reason that holds and changes nothing, or changes the table and queues one regeneration |
| ShareQueue.Agent.RemoveShare | agent/src/shares.ts:281-286 | an unknown share is refused and nothing is queued; a known one goes and one regeneration is queued |
| ShareQueue.Agent.RemoveUserFromShares | agent/src/shares.ts:334-335 | a regeneration is queued exactly when some list had the user |
| NetworkFile.ParseOwn | agent/src/network.ts:85-114 | the reading loop computes the ordered map the other lemmas are about |
| NetworkFile.ReadableComesBack | agent/src/network.ts:74-114 | any ordered map of readable configurations, printed as one file, is read back as the same map in the same order |
| NetworkFile.ComesBackExactlyWhenClean | agent/src/network.ts:46-114 | of all maps network.set can store, exactly those with clean addresses come back |
| NetworkYaml.ContentMeans | agent/src/network.ts:74-83 | read as YAML, nested by indentation, the file of any settable interfaces with clean addresses says under network, version 2 and ethernets, for each interface in order: dhcp4 true exactly for one set so; a gateway as one route with its destination default and its via; name servers as the addresses under nameservers; and nothing else |
| NetworkYaml.ReadAsSetExactly | agent/src/network.ts:74-83 | each address is then read as it was set if and only if there is no comma in any |
| NetworkYaml.CommaIsAccepted | agent/src/network.ts:46-53 | for every interface there is an accepted, clean address that YAML reads as two |
| NetworkFile.SettingOneKeepsTheOthers | agent/src/network.ts:258-262 | setting one interface through the file gives the map with that one put and every other as it was |
| OrderedMap.PutKeepsPlaces | agent/src/network.ts:258-262 | an interface set again keeps its place in the file, a new one comes last |
| NetworkFile.CidrIgnoresTail | agent/src/network.ts:46-53 | an accepted address stays accepted whatever follows another slash |
| NetworkFile.ProperExactly | agent/src/network.ts:39-53 | four decimal numbers with dots and a prefix behind a slash are accepted if and only if none is over 255 and the prefix is 1 to 32 |
| NetworkFile.UncleanIsAccepted | agent/src/network.ts:46-53 | for every interface there is an accepted address that the file does not give back |
| NetworkChange.StepKeeps | agent/src/network.ts:179-209 | every step, death, restart, torn write and refusal but a confirm keeps the old content promised or in force |
| NetworkChange.UnconfirmedChangesComeBack | agent/src/network.ts:189-209 | from a settled box with content F: a pending note always holds F, and when none is left without a confirm and nothing is at work, file and applied configuration are F |
| NetworkChange.NotRevertedEarly | agent/src/network.ts:199-204 | before its time a pending change is not reverted, through deaths, restarts and reads, unless netplan refuses it: the note stays, no revert is at work, and once it was applied or given up the file stays and what runs is what ran or what the file says |
| NetworkChange.RetryComesBack | agent/src/network.ts:189-204 | once expired one undisturbed try settles the box on F, from whatever the tries before left |
| NetworkChange.ConfirmedChangeSettles | agent/src/network.ts:206-275 | a change nothing refuses, then any deaths, restarts and reads, then a confirm in time: the new content is in the file and in force and no revert is promised |
| NetworkChange.Box.SetNetwork | agent/src/network.ts:219-275 | the verb is a run of the machine; it changes nothing when its arguments are bad or a change is pending, and else leaves what SetComesTo says |
| NetworkChange.SetComesTo | agent/src/network.ts:257-275 | a set ends with the new content in the file and in force and the old one promised, or settled on the old one again, or, if the revert failed too, with the old one still promised |
| NetworkChange.WriteContent | agent/src/network.ts:258-262 | the loops read the file, put one interface and print it again, which leaves what SetKeepsOthers, FirstSet and NetworkYaml.ContentMeans say |
| NetworkChange.SetKeepsOthers | agent/src/network.ts:258-262 | the written content is read back with the interface as set and every other one as it was |
| NetworkChange.FirstSet | agent/src/network.ts:258-262 | a box without a file gets one with just that interface |
| NetworkChange.Box.RevertIfExpired | agent/src/network.ts:189-204 | the promised revert is a run of the machine; it settles the box on the old content when netplan takes it, keeps its note when not, and does nothing before its time |
| NetworkChange.Box.ConfirmNetwork | agent/src/network.ts:206-209 | a confirm is the machine's step |
| BackupSwap.NeverPartial | agent/src/backup.ts:257-296 | over any history of runs cut anywhere, what a restore finds is nothing or a complete backup |
| BackupSwap.RunKeepsCopyExactly | agent/src/backup.ts:257-296 | some copy is complete at every point a run can be cut, if and only if the run starts with one in the directory or in .old |
| BackupSwap.TwoCutsLoseEveryCopy | agent/src/backup.ts:263-296 | from a good backup two cut runs and a third one's first removal can leave no complete copy |
| BackupSwap.Backup.RunBackup | agent/src/backup.ts:257-296 | the file operations, cut after any number of them, are a run of the machine from its start; what a restore reads stays complete or absent, and a run that is not cut leaves exactly the new backup |
| KeyedLines.SetKeyOverrides | agent/src/backup.ts:205-211 | putting a key's line in place of its first and dropping its others sets that key and changes no other |
| KeyedLines.LastLineWins | agent/src/backup.ts:189-196 | what is taken for a key is decided by the last line that sets it |
| KeyedLines.TwiceLeavesBlank | agent/src/backup.ts:206-213 | dropping a key's second line can leave a blank line at the end |
| KeyedLines.SetKeyInPlace | agent/src/backup.ts:205-211 | the overwriting and splicing from the end is that edit |
| DriveEnv.MergeDriveEnv | agent/src/backup.ts:187-214 | the loops that pop, overwrite, splice and push compute the merged text, which RestoresExactly and OthersStay are about |
| DriveEnv.MergeIsOverride | agent/src/backup.ts:181-214 | the merge is an override, key by key, by what is restored; lines without a key keep theirs and only notes follow |
| DriveEnvValues.RestoresExactly | agent/src/backup.ts:187-212 | for a listed key the backup sets: when its last line there is the key, = and a value that, without one pair of equal quotes, is empty or passes the key's check, that line is all the merged file has of the key; otherwise this box keeps its own lines and a note for the key is there |
| DriveEnvValues.OthersStay | agent/src/backup.ts:181-214 | a key not on the list, or that the backup does not set, keeps this box's lines |
| DriveEnvValues.ImageAndGroupStay | agent/src/backup.ts:181-186 | DRIVE_IMAGE and MK_NAS_GID are never taken from a backup |
| DriveEnvValues.KeyExactly | agent/src/backup.ts:179-179 | a line has a key if and only if it is NAME=, or export NAME=, with blanks allowed before either and before the sign |
| DriveEnvValues.PlainExactly | agent/src/backup.ts:194-195 | a line's value is plain if and only if the line is its key, = and the value on one line, with nothing before it |
| DriveEnvValues.EitherLineEnd | agent/src/backup.ts:189-189 | the backup's lines are read as they were, whichever of the two line ends each was written with |
| DriveEnv.RestoredIsLastLine | agent/src/backup.ts:189-196 | what is restored is the backup's own last line for the key |
| DriveEnv.MergingAgain | agent/src/backup.ts:187-214 | a second merge gives the first result without its trailing blank lines and a third changes nothing more |
| DriveEnv.MergingAgainSame | agent/src/backup.ts:187-214 | the second merge changes nothing when no taken key is set twice on this box |
| DriveEnv.MergingAgainSameExactly | agent/src/backup.ts:187-214 | it changes nothing if and only if some taken key is not set on this box or some due note is not there, or no blank line of this box's file is followed by nothing but later lines of taken keys |
| DriveEnv.MergingAgainDiffers | agent/src/backup.ts:205-213 | a box that sets TZ twice around a blank line and a backup that sets it once: the second merge differs |
| RepeatedMerge.EndsExactly | agent/src/backup.ts:197-212 | a merge leaves no blank line at the end if and only if it adds a line, or the file without the later lines of taken keys has none there |
| RepeatedMerge.KeepFirstEnds | agent/src/backup.ts:206-211 | the file without those lines ends blank if and only if a blank line is followed by nothing but them |
| Retention.MakePlan | agent/src/policy.ts:29-49 | the loop over the periods pushes what each period's plan says, in order |
| Retention.Pool.CarryOut | agent/src/tick.ts:49-76 | takes first, each replaced snapshot queued only once the new one exists, then the destroys, each as it succeeds or fails |
| RetentionTicks.RunTick | agent/src/tick.ts:48-76 | plan and loop together leave what the lemmas about a tick are about |
| RetentionTicks.TakenExactly | agent/src/policy.ts:42-46 | the snapshots a tick makes are one for each due period whose take succeeds |
| RetentionTicks.AskedExactly | agent/src/policy.ts:11-46 | a tick asks for a snapshot of a period if and only if it is kept, the dataset was written to, and every automatic one of the period is an hour, a day, 7 days or 30 days less ten minutes old; and names it after the period and the tick |
| RetentionTicks.DoomedExactly | agent/src/policy.ts:37-46 | of a period's snapshots, counted with the one just taken and oldest first, a tick destroys exactly those beyond its count, all of them when the period is off |
| RetentionTicks.NewestStay | agent/src/tick.ts:50-76 | at every moment, whatever fails, the newest as many as a period keeps are there |
| RetentionTicks.OnlyNewestStay | agent/src/policy.ts:29-49 | once all destroys succeeded exactly those are left |
| RetentionTicks.NeverFewer | agent/src/tick.ts:50-75 | a kept period with n snapshots and count k has at least min(n, k) at every moment, whatever fails |
| RetentionTicks.NewestGoesLast | agent/src/tick.ts:56-60 | the newest goes only once a newer one is there, and that one stays |
| RetentionTicks.OthersUntouched | agent/src/policy.ts:31-41 | manual snapshots and those of other datasets are there after a tick exactly as before |
| RetentionTicks.NothingTwice | agent/src/policy.ts:29-49 | no destroy is asked for twice |
| RetentionRuns.RunStaysSpaced | agent/src/policy.ts:11-13 | over any sequence of ticks with changing counts and failures, and other work in between, two automatic snapshots of a period are at least LENGTH - SLACK apart |
| RetentionRuns.ReachesBack | agent/src/policy.ts:11-49 | after any run a period with n snapshots reaches back at least (n - 1)(LENGTH - SLACK) from its newest |
| RetentionRuns.NewestIsNeverOlder | agent/src/policy.ts:42-46 | until d after a tick on a written dataset whose take did not fail, later ticks failing in any way, the newest is younger than LENGTH - SLACK + d |
| RetentionRuns.RunStaysMany | agent/src/tick.ts:49-76 | over any run in which the count stays at least k, a period never drops below min(n, k) |
| VdevStack.BuildTree | agent/src/zfs.ts:70-104 | each node's children are the rows whose nearest earlier less indented row it is, in order; the roots are the rows with none |
| VdevStack.EveryRowPlaced | agent/src/zfs.ts:100-103 | every row is a root, or under the nearest earlier row less indented than it and under no other |
| VdevStack.ShowsForest | agent/src/zfs.ts:70-104 | the nodes on the heap show exactly the forest the rows mean |
| VdevStack.PreorderIsRows | agent/src/zfs.ts:70-104 | in preorder that forest lists exactly the rows, in order |
| VdevStack.BuildLaid | agent/src/zfs.ts:48-53 | the rows of any forest, two spaces a level, build that forest again |
| Vdevs.ReadRows | agent/src/zfs.ts:73-99 | the reading loop gives the rows from the header to the blank line after them or to the errors line |
| Vdevs.ReadTree | agent/src/zfs.ts:70-104 | the tree that is built from the lines shows the forest their rows mean |
| Vdevs.ReadsBack | agent/src/zfs.ts:48-104 | any forest printed under the header, its columns padded in any way, whatever stands before the header and whatever follows the blank line, is read back as that forest |
| Framing.Conn.OnData | agent/src/server.ts:109-131 | after any chunk what was handed on, whether the connection is closed and what is buffered are those of the whole stream so far |
| Framing.Serve | agent/src/server.ts:103-133 | for every way to cut a stream, the lines handed on and the refusal depend on the concatenation only |
| Framing.SentIsHandedOn | agent/src/server.ts:109-131 | lines of up to 65536 characters, with any blanks around them and any blank lines between, are all handed on, trimmed and in order; the blank ones are passed over and nothing is refused |
| Framing.RefusedExactly | agent/src/server.ts:116-130 | a stream is refused exactly when a piece of it, finished or not, is longer than the limit |
| Framing.RefusedStays | agent/src/server.ts:111-118 | once refused, more of the stream changes neither that nor the lines handed on |
| Framing.PiecesGoOn | agent/src/server.ts:110-120 | a longer stream has the same finished pieces, and its unfinished one goes on |
| Alerts.Reconcile | agent/src/alerts.ts:128-141 | the loops sort conditions into raised, changed and seen ones and clear exactly the open keys that are no longer true |
| Alerts.AppliedIsAfter | agent/src/db.ts:357-381 | the raise, update, touch and clear loops and the pruning together leave, for every key, the row one evaluation means, even if keys repeat |
| Alerts.Db.Evaluate | agent/src/alerts.ts:158-175 | reading, reconciling, writing and pruning in turn do that to the table |
| Alerts.Db.AckAlert | agent/src/db.ts:383-386 | only an open, unacknowledged row is acknowledged, and the answer says whether one was |
| AlertRuns.Replay | agent/src/alerts.ts:158-175 | over any history the table is, row by row, what the history says of each key |
| AlertRuns.OpenRowsTellStretches | agent/src/db.ts:353-386 | a key has an open row if and only if it is in an uninterrupted stretch of evaluations; its since is the stretch's first one, and it is acknowledged exactly by the first acknowledgement within it |
| AlertRuns.LastSeenIs | agent/src/db.ts:353-381 | an open row was last seen by the last evaluation, a cleared one when it was cleared |
| AlertRuns.ClearedStaysExactly | agent/src/db.ts:353-392 | a row whose key is no longer true is cleared then, and while the key does not come back it stays as it is, acknowledgement and all, if and only if no evaluation comes more than thirty days later |
| AlertRuns.RowSaysWhatIsTrue | agent/src/alerts.ts:133-138 | when all conditions of a key agree its row says what they say, whatever it said before |
| AlertRuns.WordingStaysExactly | agent/src/alerts.ts:133-138 | the text stays over the same conditions if and only if none of the key's says another thing |
| AlertRuns.DisagreeingFlaps | agent/src/alerts.ts:128-141 | two conditions with one key that disagree change the row's text at every evaluation |
| AlertScans.ScanTextStaysExactly | agent/src/alerts.ts:102-106 | at a look that reads a failed scan of a target whose alert is open, its text stays if and only if every failed scan of the target that was read says what the alert says |
| AlertScans.TwoScansFlap | agent/src/alerts.ts:102-106 | after any run, while those two scans are read, the alert's text changes at every look |
| AlertScans.TwoScansFlapFromTheStart | agent/src/alerts.ts:102-106 | two failed scrubs of one pool with different messages raise an alert whose text changes at the next look |
| AlertConditions.Conditions | agent/src/alerts.ts:57-113 | the loops over pools, disks, copies and scans compute the conditions the AlertLooks theorems are about |
| AlertLooks.FullExactly | agent/src/alerts.ts:70-79 | over any run of looks and acknowledgements a pool's alert is open if and only if it was at 90 or more at some look and at 88 or more ever since |
| AlertLooks.HotExactly | agent/src/alerts.ts:88-89 | a disk's alert is open if and only if it was at 55 or more at some look and at 50 or more ever since |
| AlertLooks.StateExactly | agent/src/alerts.ts:61-68 | over any run of looks and acknowledgements a pool's state alert is open if and only if the last look read a pool of that name that is not ONLINE; it is critical and names the pool and its health |
| AlertLooks.SmartExactly | agent/src/alerts.ts:82-87 | a disk's SMART alert is open if and only if the last look read that it did not pass, or has sectors reallocated or pending; its title names the worst of these with its count, and only pending ones alone are a mere warning |
| AlertLooks.FullSeverity | agent/src/alerts.ts:70-79 | an open alert about a full pool is critical if and only if the last look read 95 or more |
| AlertLooks.HotSaysSo | agent/src/alerts.ts:88-89 | an open alert about a hot disk is a warning and says what the last look read |
| AlertLooks.BackupExactly | agent/src/alerts.ts:92-94 | the backup's alert is open if and only if the last look read that the last run failed, and tells its message |
| AlertLooks.CopyExactly | agent/src/alerts.ts:96-100 | a copy's alert is open if and only if the last look read that its last run failed; it names dataset and host and tells the message |
| AlertLooks.ScanExactly | agent/src/alerts.ts:102-106 | a target's scan alert is open if and only if the last look read a failed scan of it; a single one is told by kind, target and message |
| AlertLooks.CheckExactly | agent/src/alerts.ts:108-108 | that updates could not be checked is told if and only if the last look read an error, which it tells |
| AlertLooks.ReleaseExactly | agent/src/alerts.ts:109-111 | a release is told if and only if the last look read no error and a newer one, which it names |
| Events.EventLog.Poll | agent/src/events.ts:154-177 | the tail is always the last 500 of all that polls returned; a failed or overlapping poll changes nothing |
| Events.PollOfWindow | agent/src/events.ts:161-166 | a poll of a window of a stream with increasing ids returns exactly what lies beyond what was seen |
| Events.ReturnedOnce | agent/src/events.ts:154-177 | over any polls of a window that slides, from the start, all results together are every event that was in some window, once and in order |
| Events.ReturnedIs | agent/src/events.ts:154-177 | whatever id is remembered from before: all results together are, once and in order, the events that were in some window and lie beyond the cut, which is that id, or nothing when the first list ended below it |
| Events.NeverReturnedExactly | agent/src/events.ts:162-164 | an event that was in some window is never returned if and only if its id is at most the one remembered and the first list that held anything had reached that one again |
| Events.RestartsReturn | agent/src/events.ts:154-177 | however often the ids start over: all results together are what was seen beyond each epoch's cut, in order, and the id remembered is that of the last event seen |
| Events.Watch | agent/src/events.ts:130-177 | over such polls, with any restarts of the ids in between, the log's tail is the last min(500, n) of what lies beyond the cuts |
| Events.RestartIsRead | agent/src/events.ts:162-164 | a list whose ids started over is returned whole if and only if its last id is below the remembered one or its first above it |
| Events.RestartLosesEvents | agent/src/events.ts:162-164 | a list of ids 0 to 5 after a remembered 3: only the last two are returned |
| EventLines.Recent | agent/src/events.ts:179-191 | the loop shows the folding of the matching tail, newest first, or its first lines up to the limit, the last of them then its run's first event alone |
| EventLines.MatchingExactly | agent/src/events.ts:182-186 | what is folded is exactly the wanted events of the tail from which on none wanted is older than asked for |
| EventLines.MatchingNewestFirst | agent/src/events.ts:182-186 | and later events of the tail stand before earlier ones |
| EventLines.UnfoldFold | agent/src/events.ts:186-188 | the lines with their counts are the events again, in order |
| EventLines.FoldAlternates | agent/src/events.ts:186-188 | no two lines next to each other are the same thing |
| EventLines.CutLineCountsOne | agent/src/events.ts:182-189 | the line at the limit is the whole line but for its count, which is one |
| EventLines.ShownIsFirstLinesExactly | agent/src/events.ts:182-189 | what is shown is the first lines of the folding if and only if the limit is not reached or the line at it stands for one event |
| EventLines.TwoCountAsOne | agent/src/events.ts:182-189 | two events of one thing and room for one line: the line says one |

## Left out

- Commands, ssh, SQLite, files, the clock: each is a step that may succeed or fail, or a parameter; no process is started.
- Replication: recursive (`-R`) copies, snapshots with a `repl-` name made or destroyed by hand, ids used again after a removal, a
  second run in the same minute (its snapshot command is refused), schedules (`due`), progress and messages.
- ReplicationNames.StampShape: seconds and milliseconds of toISOString, which the sixteen characters of a stamp never reach.
- Two processes at once (agent, tick, replicate runner): the checks between them are not atomic, and nothing claims they are.
  Network verbs are steps one after another.
- Network: the host name and /etc/hosts, the list of interfaces that exist, the gateway's subnet check (the round trip holds
  without it), `readNetwork`'s system parts; the note's JSON is read or not, as a whole. `Box` has the writes of the note succeed;
  that they fail is in the machine.
- Backup: what is copied and its snapshots beyond the directory swap; restoring. The per-key value checks of the `.env` are a
  parameter. `RunBackup` is cut between operations; cuts in the middle of one are in the machine.
- Retention: recursive names, scrub and self-test windows; two policies of one dataset (the table has one row a dataset).
- Vdevs.ReadTree: the lines are read into rows first and the tree is built from the rows, in two loops where the agent has one;
  the counters of a row stay text, and the header fields above `config:` are not read.
- Framing: the decoding of UTF-8 (a stream is its characters), the answers and their order, parsing of a request.
- Alerts: the advice behind a pool's or a disk's title, rounded percentages and version comparison come in with the readings;
  the list of cleared alerts and the order of the open ones are not modelled.
- Events: `parseEvents`, summaries and the calls after a poll.
- Shares: accounts and passwords, the daemons' start and reload beyond success and failure, temporary files (a rename replaces a
  file whole). Mountpoints and the owner's names stay fixed in `ShareQueue`. Letters outside ASCII are not lower-cased.
- ShareQueue.RunKeepsOwn: starts from a table of rows share.set could have written; for a restored table with others
  `ShareFiles.ListedExactly` says which rows are offered.
- ShareExports.ExportWordsExactly: does not read a double quote or a backslash as exports(5) does; a mountpoint with one of them
  is written as it is and still not read as itself.
- `updates.ts`, `power.ts`, `tunnel.ts`, `write.ts`, `system.ts`, `cli.ts`, the installer: straight-line checks and plumbing.
