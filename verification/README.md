# Verified models of the validation and measurement tooling

A media server's repository carries tooling that decides what counts as evidence: a controller that builds and
tears down a lab of four hosts, an extractor for build archives, an optical frame clock, and the programs that let
one CI run inherit the results of earlier ones. This project models the logic of those programs in Dafny and
proves what they are for. One module stands for one program or one part of it.

**The owned lab** (`LabHost`, `LabProtocol`, `LabSafety`, `LabCompletion`, `LabLiveness`). `LabHost` is one remote
host: each action is a sequence of effects that may be cut off after any of them, and a finished action may lose its
reply. `LabProtocol` is the controller with its manifest on disk, as a state machine over calls, manifest writes and
crashes. `LabSafety` proves what every run keeps: a container never without its network, a network never without its
claimed root, a settled phase only over cleared hosts, and no claimed root lost before the recorded export exists. Two
assumptions are made: `docker inspect` fails only when the object is absent, and a remote action has landed or failed
by the time the controller sees its reply or error. `LyingInspectRetainsContainer` is the run that goes wrong without
the first, and `WhichLieMatters` says exactly which failure of `inspect` does harm. `EveryPhaseIsEarned` says what a
finished launch, cleanup, export or purge has done, whatever `inspect` says, and `LabLiveness` that launch, export and
purge can finish. `LeftoverFileStopsEverything` and `CleanDirectoryAdmitsControllers` settle when a torn manifest write ends a
campaign: its temporary file makes every later exclusive creation fail.

**Archive extraction** (`ExportPaths`, `ExportInventory`, `ExportVolume`, `ExportStage`, `ExportUnpack`,
`ExportResolution`). Names and link texts, the check of headers and link graph, a small POSIX volume with inodes,
permission bits and symbolic links, and the passes of the extractor over it. The result is that the destination
receives exactly the archive's tree in one rename or stays as it was, that no permission in the archive can stop a
later pass, and that opening a member reaches the inode the archive's own link resolution names.

**The frame clock** (`FrameClockCells`, `FrameClockHold`). Painting and reading a 24-bit counter with guard and
checksum, and the one-pass estimate of how long a picture was held.

**Evidence that is carried forward** (`InputGlob`, `InputWitness`, `InputDigest`, `AdoptionHistory`, `Base64`,
`UnitLog`, `UnitRestore`, `NativePlan`). Which inputs a test declares and what their digest means, provenance over
any history of runs, journals framed in a job log and read back, and a plan that is authenticated a second time
from its own origins. A framed journal reads back exactly when it is not empty; the JSON the writer emits never is.
A rebuilt plan always retains the same tests. `PlanRebuildsExactly` says when it is the same plan: when no
contributing artifact of a lower id offers a test that another artifact of its run was credited with, so always for
artifacts of distinct runs. `OneRunTwice` is a plan of two artifacts of one run that credits the other one when rebuilt.

**Evidence folds** (`LatestMap`, `CohortFold`, `RetentionFold`). Records in order of sequence are folded into one
current outcome per test. The two programs differ: the cohort fold demands a later pass after every failure, the
retention fold asks that the last applicable outcome be a pass. `LaterPassExactly` says exactly when an accepted
suite has the later passes too, and `FailureMayStandLast` is an accepted suite that has not.

**The commit-graph audit** (`HistoryAudit`). Landing commits bring in set differences of ancestors; the audit
decides which corrective commits are answered for.

**Layouts** (`TensorLayout`, `ModifiedUtf8`, `ClassFile`, `HelperClasses`, `Sha256`, `SpanFinder`). Tensor strides
and the tiling of a checkpoint file, two scanners of the class-file constant pool (sections 4.4 and 4.4.7 of the
Java Virtual Machine Specification), the classes left out of test discovery, the SHA-256 block loop (section 6.2.2
of FIPS 180-4), and the document spans marked as history.

`Wrappers`, `FiniteSets`, `StableSort` and `TextOrder` are shared by several of them.

Code that changes state is modelled as classes and loops and proved against functions; the results of interest are
then lemmas about those functions. Functions and predicates that a loop only calls (a wildcard match on one path
component, a hash, a verifier of one artifact, the naming of a header) are parameters of its proof. Hashes are
injective where a property needs it, and then the lemma says so.

## Model

| member | source | states |
|---|---|---|
| LabHost.LabMachine.Work | scripts/k06-owned-lab.py:479-651 | one remote request changes the host and replies exactly as the planned effects say, whichever of them the crash or the refusal cuts off |
| LabHost.LabMachine.ClaimRoot | scripts/k06-owned-lab.py:495-504 | the claim makes the private root and its marker, or stops between the two |
| LabHost.LabMachine.CreateNetwork | scripts/k06-owned-lab.py:584-587 | the network is created once, only under a claimed root |
| LabHost.LabMachine.CreateContainer | scripts/k06-owned-lab.py:588-596 | the container is created stopped, in the recorded network |
| LabHost.LabMachine.StartContainer | scripts/k06-owned-lab.py:637-641 | only the recorded container is started |
| LabHost.LabMachine.RecoverIds | scripts/k06-owned-lab.py:566-583 | the identities the host holds are read back; an object is taken as absent when inspecting it fails |
| LabHost.LabMachine.CleanUp | scripts/k06-owned-lab.py:597-636 | the log is kept, then container and network are removed, in that order |
| LabHost.LabMachine.ExportState | scripts/k06-owned-lab.py:523-546 | a private archive is written and its size and digest replied |
| LabHost.LabMachine.PurgeRoot | scripts/k06-owned-lab.py:547-565 | the root is removed only when the archive still has the recorded size and digest |
| LabProtocol.ActKeepsRows | scripts/k06-owned-lab.py:479-641 | every remote action keeps the manifest row true of its host, whatever part of it took effect |
| LabProtocol.CleanupKeepsRows | scripts/k06-owned-lab.py:597-636 | a cleanup cut off anywhere leaves no container without its network |
| LabProtocol.DeliverKeepsRows | scripts/k06-owned-lab.py:890-962 | a reply or a lost reply keeps what the controller remembers consistent with the host |
| LabProtocol.LaunchCallKeepsInv | scripts/k06-owned-lab.py:890-908 | each launch call keeps the whole invariant |
| LabProtocol.SweepCallKeepsInv | scripts/k06-owned-lab.py:946-962 | each call of cleanup, export or purge keeps the whole invariant |
| LabProtocol.SaveKeepsInv | scripts/k06-owned-lab.py:93-106 | a manifest write keeps the invariant however it ends: done, done but raised, torn, or never opened |
| LabProtocol.TurnKeepsInv | scripts/k06-owned-lab.py:946-967 | moving on in a loop keeps the invariant |
| LabProtocol.NextKeepsInv | scripts/k06-owned-lab.py:886-967 | every step of the protocol, crashes and lost replies included, keeps the invariant |
| LabSafety.RunKeepsInv | scripts/k06-owned-lab.py:886-967 | so does every run |
| LabSafety.EveryRunIsSafe | scripts/k06-owned-lab.py:886-967 | in every run from a planned lab an owned container has its network and a network its claimed root, a settled phase means that no node holds either, claimed roots stay recorded, and the manifest is one the controller would load |
| LabSafety.HostsChangeByCallsOnly | scripts/k06-owned-lab.py:886-967 | only a remote call changes a host, and only the host it is sent to |
| LabSafety.RootIsHarmedOnlyUnderExport | scripts/k06-owned-lab.py:547-565 | whenever a claimed root disappears or is damaged, the archive with the persisted size and digest exists, and stays |
| LabSafety.LeftoverFileStopsEverything | scripts/k06-owned-lab.py:93-106 | a manifest write torn before its rename blocks every later controller: nothing changes any more |
| LabSafety.CleanDirectoryAdmitsControllers | scripts/k06-owned-lab.py:93-106 | a later controller gets past its first write exactly when no temporary file was left behind |
| LabSafety.ReadyWritesSettledPhase | scripts/k06-owned-lab.py:963-967 | a sweep without failure ends by writing the settled phase |
| LabSafety.CleanupFinishesExactlyWhenCleanable | scripts/k06-owned-lab.py:946-967 | some uninterrupted cleanup settles the lab if and only if no temporary file is left and every node is cleanable |
| LabSafety.LyingInspectRetainsContainer | scripts/k06-owned-lab.py:572-577 | a run in which inspection fails on an existing object, and cleanup then records the stopped phase over a live container |
| LabSafety.WhichLieMatters | scripts/k06-owned-lab.py:566-636 | the looked-up identities name what the host holds, and a cleanup that then reports success leaves neither container nor network, if and only if no inspection failed on an object that is there |
| LabCompletion.RepliesExactly | scripts/k06-owned-lab.py:479-641 | an uninterrupted action replies if and only if the host and the row allow it, action by action |
| LabCompletion.RepliedIsDone | scripts/k06-owned-lab.py:479-641 | what a replied action has done to the host and to its row, and that it changed nothing else |
| LabCompletion.NextKeeps | scripts/k06-owned-lab.py:886-967 | every step, whatever crashes, is lost or lied about, keeps how far each node has come |
| LabCompletion.EveryPhaseIsEarned | scripts/k06-owned-lab.py:889-967 | in every run, when a controller writes its phase every node is as that phase says: launched, running the container of its row in its network and root; stopped in its root or never rooted; exported with the recorded archive present; purged with its root gone and that archive present |
| LabLiveness.LaunchCanFinish | scripts/k06-owned-lab.py:887-922 | a lab of any size can be launched to its end |
| LabLiveness.SweepCanFinish | scripts/k06-owned-lab.py:946-967 | export and purge can finish when no leftover file blocks the manifest and each node lets its action through |
| FrameClockCells.FilterAgreesOnChecksum | scripts/playback-frame-clock.js:8-21 | the modular form in the filter expression is the checksum of the decoder |
| FrameClockCells.UnitsModulo256 | scripts/playback-frame-clock.js:8-10 | the multipliers 31 and 17 are units modulo 256 |
| FrameClockCells.Bit | scripts/playback-frame-clock.js:26-35 | one cell reads as a bit, or as nothing when its average luma is neither dark nor bright |
| FrameClockCells.Word | scripts/playback-frame-clock.js:36-42 | a word is read if and only if all its cells are, and spells them |
| FrameClockCells.DecodeFrameClockRgb | scripts/playback-frame-clock.js:23-48 | a frame is decoded if and only if the pixels show that frame with its guard and checksum |
| FrameClockCells.BitsDetermineWord | scripts/playback-frame-clock.js:36-42 | words with the same bits are equal |
| FrameClockCells.SamplesAreRowMajor | scripts/playback-frame-clock.js:26-35 | the buffer is read row after row, pixel after pixel, three channels to a pixel |
| FrameClockCells.CentreIsMiddle | scripts/playback-frame-clock.js:26-30 | the sampled column lies halfway across a cell |
| FrameClockCells.PaintedPixelsShowFrame | scripts/playback-frame-clock.js:12-48 | pixels show a frame if and only if the samples of each cell average at most 60 where its picture is dark and at least 195 where it is bright |
| FrameClockCells.OneDamagedByteIsNeverAFrame | scripts/playback-frame-clock.js:23-48 | a change confined to one of the five bytes never decodes to another frame |
| FrameClockCells.ChecksumSeesOneByte | scripts/playback-frame-clock.js:8-10 | frames that differ in one byte have different checksums |
| FrameClockHold.AnalyzeFrameClock | scripts/playback-frame-clock.js:52-97 | the one-pass analysis is refused exactly for an invalid window and otherwise gives the report of the scan |
| FrameClockHold.ReportCounts | scripts/playback-frame-clock.js:52-97 | each counter of the report counts what it is named for, and complete is exactly full sampling |
| FrameClockHold.ReportBounds | scripts/playback-frame-clock.js:59-95 | whatever samples are unknown, the lower bound is the longest stretch over which one known picture was seen, and the upper bound the longest that the picture of a closed or last run can have been up, a run after an unknown sample counting from the start of the window |
| FrameClockHold.KnownBounds | scripts/playback-frame-clock.js:59-95 | with every sample known both are exact maxima over all stretches of samples |
| FrameClockHold.ObservedExactly | scripts/playback-frame-clock.js:61-66 | the samples that count are those in the window that come later than every time before them |
| FrameClockHold.EveryHoldIsBounded | scripts/playback-frame-clock.js:70-95 | with a complete report every interval of constant picture in the window is at most the upper bound |
| FrameClockHold.SomeHoldReachesLower | scripts/playback-frame-clock.js:70-95 | for a non-decreasing clock some constant interval is at least the lower bound |
| FrameClockHold.BracketWidth | scripts/playback-frame-clock.js:70-95 | the bounds differ by at most twice the sampling gap |
| FrameClockHold.AdvanceIsChangesPlusSkipped | scripts/playback-frame-clock.js:70-95 | without backward frames, last minus first frame is picture changes plus skipped values |
| ExportPaths.JoinSplit | validation/media_export.py:33-42 | splitting at slashes and joining again gives the text back |
| ExportPaths.SplitJoin | validation/media_export.py:33-42 | joining parts without slashes and splitting gives the parts back |
| ExportPaths.CanonicalParts | validation/media_export.py:22-30 | an accepted text consists of ordinary components, all of them kept |
| ExportPaths.MemberPathIsOrdinary | validation/media_export.py:22-30 | an accepted member name is a path of ordinary components under package, and the name is its text |
| ExportPaths.MemberPathExactly | validation/media_export.py:22-30 | a member is admitted if and only if its name is the printable text of an ordinary path under package |
| ExportPaths.LinkTargetExactly | validation/media_export.py:33-42 | which link texts are admitted and what they name: a symbolic link from its own directory, a hard link from the root |
| ExportPaths.HardLinkNamesItsText | validation/media_export.py:33-42 | a hard link names a path by its whole text |
| ExportPaths.HardLinkNamesMember | validation/media_export.py:22-42 | a hard link whose text is the name of a member names that member |
| ExportPaths.SymbolicLinkNamesFromItsDirectory | validation/media_export.py:33-42 | the text of a symbolic link is joined to the name of its directory |
| ExportPaths.LongerBelow | validation/media_export.py:138-140 | a name below another is longer, so sorting by length puts it first |
| ExportInventory.ResolveLink | validation/media_export.py:80-85 | the cycle check succeeds if and only if following the links ends at a member that is no link; its cap never refuses such a chain |
| ExportInventory.CycleNeverEnds | validation/media_export.py:80-85 | links that come back to one already passed never end |
| ExportInventory.AdmitHeader | validation/media_export.py:55-72 | the tests on one header |
| ExportInventory.ReadHeaders | validation/media_export.py:53-75 | the headers are accepted if and only if each is well formed, names are distinct and counts and sizes are within bounds, and are then listed under their names |
| ExportInventory.CheckAncestors | validation/media_export.py:77-79 | every proper ancestor is a directory member |
| ExportInventory.CheckMember | validation/media_export.py:76-96 | a member passes if and only if its ancestors, its link and its payload are in order |
| ExportInventory.CheckExtent | validation/media_export.py:67-102 | accepted if and only if every payload lies in the file and whole blocks of zeros, at least two, follow the last one |
| ExportInventory.NothingTrails | validation/media_export.py:98-102 | every byte of an accepted archive that is not zero lies before the end of some payload, more than two blocks from the end of the file |
| ExportInventory.PaddedEndIsNextBlock | validation/media_export.py:98-98 | a payload that starts on a block ends within the last of its blocks |
| ExportInventory.Inventory | validation/media_export.py:51-103 | the inventory accepts exactly the archives whose headers are in order, whose graph of members is closed, and whose payloads and end marker are complete, and returns that graph |
| ExportInventory.AcceptedLinksEnd | validation/media_export.py:80-88 | after acceptance every member leads, in fewer steps than there are members, to a non-link member under package |
| ExportVolume.Volume.MakeDirs | validation/media_export.py:122-124 | a directory and its missing ancestors are made; among usable directories this cannot fail |
| ExportVolume.Volume.WriteNew | validation/media_export.py:127-129 | a new file gets an inode of its own with the payload |
| ExportVolume.Volume.Chmod | validation/media_export.py:130-140 | the mode of a reachable entry is replaced and nothing else |
| ExportVolume.Volume.HardLink | validation/media_export.py:131-138 | the new name shares the inode of the old one |
| ExportVolume.Volume.Rename | validation/media_export.py:143-144 | the whole tree appears at the destination at once, or the destination is untouched |
| ExportUnpack.MakeDirectories | validation/media_export.py:122-124 | after the first pass exactly the directory members are in place |
| ExportUnpack.WriteFiles | validation/media_export.py:125-130 | after the second pass every regular member is in place with its payload, mode and own inode |
| ExportUnpack.HardTarget | validation/media_export.py:135-138 | the unguarded loop over link targets ends, at the regular member the chain resolves to |
| ExportUnpack.MakeLinks | validation/media_export.py:131-138 | after the third pass every member is in place, hard links on the inode of their end |
| ExportUnpack.DeepestFirst | validation/media_export.py:139-141 | when a directory gets its mode every directory above it can still be searched |
| ExportUnpack.SettleModes | validation/media_export.py:139-141 | the last pass gives every directory its own mode, longest names first, and the tree is then exactly the archive |
| ExportUnpack.Deliver | validation/media_export.py:118-144 | the finished tree is published, or the destination stays as it was |
| ExportUnpack.Unpack | validation/media_export.py:106-145 | the destination receives exactly the members with contents, modes, link texts and inode sharing, or stays as it was; without an operating-system fault an acceptable archive is always delivered |
| ExportResolution.WalkFollows | validation/media_export.py:33-42 | following links in the tree and in the archive agree link by link |
| ExportResolution.OpeningReachesTheEnd | validation/media_export.py:80-88 | opening any member of the published tree reaches the inode or directory that the lexical resolution names |
| ExportResolution.FileHoldsItsPayload | validation/media_export.py:120-130 | a published file holds exactly the first bytes of its payload, as many as its header says, under its own mode |
| ExportResolution.HardLinkIsItsNamesake | validation/media_export.py:131-138 | in the published tree a hard link is one entry with the member its text names, which exists |
| ExportResolution.OrdinaryHardLinkIsOk | validation/media_export.py:80-88 | an archive is never refused for a hard link that names a regular member of its own mode |
| InputGlob.OneComponent | validation/main_preflight_adoption.py:173-174 | a glob without ** takes exactly one component |
| InputGlob.AnyComponents | validation/main_preflight_adoption.py:171-172 | a ** takes nothing more or one component more |
| InputGlob.Matcher.Match | validation/main_preflight_adoption.py:165-176 | the memoised recursion gives the meaning of its state and works each state out once |
| InputGlob.MatchesInput | validation/main_preflight_adoption.py:159-177 | the matcher answers whether the components can be divided among the globs, for every bounded pattern, within one evaluation per state of the grid |
| InputGlob.BoundedExactly | validation/main_preflight_adoption.py:162-163 | a pattern is bounded if and only if at most eight components are double stars and it has at most 1024 characters |
| InputWitness.Witness | validation/main_preflight_adoption.py:143-156 | the result is the one family that covers the identity most closely, widened by a node script; refused when there is none, several, or an empty one |
| InputWitness.CoversExactly | validation/main_preflight_adoption.py:144-146 | a family whose prefix ends in a dot covers what begins so, any other one only the test it names |
| InputWitness.ScriptIsAmongInputs | validation/main_preflight_adoption.py:153-156 | the script of a node test is among its inputs, and nothing else of its family changes |
| TextOrder.SortSet | validation/main_preflight_adoption.py:199-207 | sorting lists the elements in ascending order, each once |
| TextOrder.OneSortedList | validation/main_preflight_adoption.py:199-207 | a set has one sorted list |
| InputDigest.Digests.InputDigest | validation/main_preflight_adoption.py:180-215 | through all three caches the digest is the uncached one, and is refused only where that is, or for a tree beyond the cap |
| InputDigest.AnyMatchMeans | validation/main_preflight_adoption.py:198-204 | a path is selected if and only if some pattern matches it and no unbounded one comes before; it is not if and only if all are bounded and none matches |
| InputDigest.UncachedExactly | validation/main_preflight_adoption.py:180-212 | when the declared inputs of a commit have a digest, condition by condition |
| InputDigest.DigestsCoincide | validation/main_preflight_adoption.py:180-215 | with an injective hash two commits have one digest for a row if and only if selected paths, modes, objects, path-set membership and, where asked for, history coincide |
| AdoptionHistory.Sift | validation/main_preflight_adoption.py:376-405 | one bad own record refuses the journal, bad inherited ones are dropped and counted, everything else is kept |
| AdoptionHistory.Authenticate | validation/main_preflight_adoption.py:321-406 | a journal is adopted if and only if it is authentic and its own records are proved, and contributes exactly the records kept |
| AdoptionHistory.Collect | validation/main_preflight_adoption.py:441-459 | the prior runs are absorbed oldest first; only evidence that the current run is unsafe refuses |
| AdoptionHistory.EveryCandidateIsGrounded | validation/main_preflight_adoption.py:290-406 | over any history every adopted outcome is an own success of the run it names: same commit, job, attempt and environment, printed exactly once |
| AdoptionHistory.InheritanceGoesBack | validation/main_preflight_adoption.py:290-295 | a record kept for another run names an earlier run whose own journal was adopted |
| AdoptionHistory.HandedOnExactly | validation/main_preflight_adoption.py:375-405 | which records a journal hands on, its own and the rightly inherited ones, and that it does so unchanged |
| AdoptionHistory.NewestWins | validation/main_preflight_adoption.py:434-451 | a candidate is the record of the latest adopted run that hands its test on, and a test nobody hands on is none |
| AdoptionHistory.NewestSkipWins | validation/main_preflight_adoption.py:434-451 | so it is with skips |
| AdoptionHistory.OwnRecordStands | validation/main_preflight_adoption.py:434-451 | the own success of an adopted run is the candidate until a later adopted journal holds the test |
| AdoptionHistory.OwnSkipStands | validation/main_preflight_adoption.py:434-451 | so it is with its own skips |
| AdoptionHistory.AdoptedRunsAreGenuine | validation/main_preflight_adoption.py:321-376 | an adopted run has one finished job and one genuine journal, announced once, that continues its one start journal |
| AdoptionHistory.AdoptedRecordsAreSound | validation/main_preflight_adoption.py:278-397 | every record of an adopted journal is well formed, and its own skips were printed once |
| AdoptionHistory.SameDigest | validation/main_preflight_adoption.py:464-464 | whether some digest is the declared one at both commits, read through the caches; undecided only when a digest cannot be computed or the tree cache is full |
| AdoptionHistory.AppliesExactly | validation/main_preflight_adoption.py:455-467 | a node test needs only its environment; any other must be listed and its own source must still apply |
| AdoptionHistory.AdoptOne | validation/main_preflight_adoption.py:455-476 | a candidate that applies and has one digest at both commits is carried, with that digest, unless the tree cache is full; any other is not; a worktree that is not the dispatched source refuses the run |
| AdoptionHistory.AdoptAll | validation/main_preflight_adoption.py:454-479 | what is carried still holds, and what still holds is carried, all of it when the commits in question are at most 64 |
| AdoptionHistory.AdoptedOutcomesStillHold | validation/main_preflight_adoption.py:409-477 | what a run starts from is grounded in the run it names, and nothing its manifest row declares changed in between |
| Base64.LetterHasValue | validation/main_unit_receipts.py:68-68 | every letter of the alphabet stands for its own value |
| Base64.DecodeEncode | validation/main_unit_receipts.py:68-108 | strict decoding undoes the encoding of section 4 of RFC 4648, for every byte string |
| Base64.DecodeAcceptsPadded | validation/main_unit_receipts.py:107-110 | decoding accepts exactly whole groups of four with padding at the very end |
| Base64.ValueHasLetter | validation/main_unit_receipts.py:107-110 | a character stands for a value if and only if it is its letter |
| UnitLog.NumberOfDecimal | validation/main_unit_receipts.py:69-73 | reading a decimal number undoes writing it, without a leading zero unless it is zero |
| UnitLog.HeadingReads | validation/main_unit_receipts.py:69-91 | the reader takes a written heading apart again, except one that announces no chunks |
| UnitLog.EmitSnapshot | validation/main_unit_receipts.py:65-73 | the writer prints the frame of the journal, or refuses it as too long |
| UnitLog.ReadSnapshots | validation/main_unit_receipts.py:81-113 | the reader follows the framing line by line |
| UnitLog.CapIsEnough | validation/main_unit_receipts.py:95-96 | the cap on chunks never refuses a journal the writer may emit |
| UnitLog.FrameReadsBack | validation/main_unit_receipts.py:65-113 | wherever a written frame stands and is due, it is read as the bytes it was made from |
| UnitLog.LogReadsBack | validation/main_unit_receipts.py:65-113 | a log with a start frame, a final frame and otherwise unmarked lines gives both byte strings back if and only if neither is empty |
| UnitLog.FrameExactly | validation/main_unit_receipts.py:88-111 | a frame is read if and only if its phase is due and it is a heading, that many chunk lines in order and an end line, which decode to acceptable JSON of the announced digest |
| UnitLog.LogExactly | validation/main_unit_receipts.py:82-113 | a log is read if and only if it holds nothing marked, a start frame, or a start frame and then a final one; it gives those bytes |
| UnitLog.AcceptedFrameIsGenuine | validation/main_unit_receipts.py:97-111 | whatever chunks a log holds, an accepted frame decodes to the bytes its digest was made for |
| UnitRestore.Trusted | validation/main_unit_receipts.py:241-243 | trusted are exactly the successes that the journal of their own run and commit records |
| UnitRestore.AddJournal | validation/main_unit_receipts.py:244-261 | a journal adds the tests it offers and that no earlier one offered |
| UnitRestore.Restore | validation/main_unit_receipts.py:200-263 | a test is restored if and only if some adopted journal offers it, and with the record of the first that does |
| UnitRestore.RestoredIsGrounded | validation/main_unit_receipts.py:241-261 | every restored pass is applicable and recorded by the adopted journal of the very run and commit it names |
| UnitRestore.FewerJournalsRestoreFewer | validation/main_unit_receipts.py:235-261 | taking journals away never restores more tests |
| NativePlan.CaseOutcomes | validation/native_receipts.py:478-498 | the log is accepted if and only if each selected test starts at most once and ends at most once, after starting; the outcomes are those of the log |
| NativePlan.AdoptCases | validation/native_receipts.py:546-573 | each test gets the evidence of the first considered artifact that offers it, newest run first |
| NativePlan.ConsideredAreNewest | validation/native_receipts.py:548-548 | sixteen artifacts are considered, or all there are, and none of a later run is left out |
| NativePlan.RequiredIsPartitioned | validation/native_receipts.py:570-573 | every required test is retained or due, never both |
| NativePlan.PlannedArtifacts | validation/native_receipts.py:577-598 | the artifacts the plan rests on, by ascending id, refused only beyond the bound or when one is gone |
| NativePlan.OriginsAreConsidered | validation/native_receipts.py:590-591 | the origins of a plan never exceed the bound |
| NativePlan.PlanRebuildsExactly | validation/native_receipts.py:546-613 | rebuilt from only the artifacts that contributed passes, the plan always has the same tests retained and pending, and is the same plan if and only if no contributing artifact of a lower id offers a test credited to another artifact of its run |
| NativePlan.PlanRebuildsItself | validation/native_receipts.py:546-613 | artifacts of distinct runs give the identical plan again |
| NativePlan.PlannedAreVerified | validation/native_receipts.py:577-613 | every artifact a plan rests on was verified when it contributed, so verifying again is never refused |
| NativePlan.ReverifyPlan | validation/native_receipts.py:607-615 | a plan made from artifacts the API still gives back passes re-verification if and only if none of its credits is overtaken |
| NativePlan.OneRunTwice | validation/native_receipts.py:546-613 | two artifacts of one run and their plan, which credits a test to one of them and, rebuilt, to the other |
| LatestMap.EveryFailureFollowed | validation/nonrust_unit_cohort.py:1084-1091 | comparing the last stored sequences tells whether every failure has a later repair |
| StableSort.OneOrder | validation/nonrust_unit_cohort.py:904-904 | elements with distinct keys have one sorted order |
| StableSort.DescendStably | validation/native_receipts.py:548-548 | sorting by run keeps the order of artifacts of one run |
| CohortFold.FoldMeans | validation/nonrust_unit_cohort.py:1066-1077 | after the fold every dictionary holds what the last record concerned wrote, invalidated outcomes being skipped |
| CohortFold.CheckRecords | validation/nonrust_unit_cohort.py:904-921 | sequences are positive and distinct, and identities belong to the universe |
| CohortFold.CheckPartition | validation/nonrust_unit_cohort.py:1092-1099 | the final check holds exactly when named passes and opaque memberships partition the universe |
| CohortFold.Validate | validation/nonrust_unit_cohort.py:897-1099 | the verdict on the records, in the order of their sequences |
| CohortFold.PartitionNeverFails | validation/nonrust_unit_cohort.py:1092-1099 | the final check can never fail on what the checks before it let through |
| CohortFold.OrderDoesNotMatter | validation/nonrust_unit_cohort.py:904-904 | the order in which the records are supplied makes no difference |
| CohortFold.AcceptedExactly | validation/nonrust_unit_cohort.py:260-266 | accepted if and only if every test was last applicably green, every failure has a later applicable pass or exact repair, and every variant failure its reviewed repair |
| CohortFold.AcceptedInFull | validation/nonrust_unit_cohort.py:1062-1091 | a cohort is accepted if and only if the last applicable execution of every test passed, every failure has a later applicable pass, and every failure of another source variant its reviewed repair, later and of the same source |
| CohortFold.NamedInFull | validation/nonrust_unit_cohort.py:1093-1093 | the named tests are those whose last applicable execution passed by name |
| CohortFold.SourcesInFull | validation/nonrust_unit_cohort.py:1094-1096 | one opaque source for each execution not named outcome by outcome, in their order, with the tests whose last applicable execution it was and which it passed opaquely |
| RetentionFold.CheckRecords | validation/promotion_unit_retention.py:533-612 | records are well formed, in distinct sequences, with no retired execution enrolled twice |
| RetentionFold.ValidateSuite | validation/promotion_unit_retention.py:525-648 | the verdict on one suite |
| RetentionFold.FoldMeans | validation/promotion_unit_retention.py:624-634 | after the fold each dictionary holds what the last record concerned wrote |
| RetentionFold.SettledExactly | validation/promotion_unit_retention.py:639-648 | accepted if and only if each last applicable outcome is a pass or ignored, a pass where a failure was ever seen, and each retired execution has a later successor pass |
| RetentionFold.RetiredInFull | validation/promotion_unit_retention.py:593-612 | a record holds a retired test if and only if exactly one policy covers it: its source, its log, its only undiscovered test, which passed |
| RetentionFold.RecordInFull | validation/promotion_unit_retention.py:536-628 | which records are admitted, condition by condition |
| RetentionFold.SettledInFull | validation/promotion_unit_retention.py:639-648 | a suite is settled if and only if the last applicable outcome of every test is a pass, or ignored where it never failed, and every retired test has a successor that passes after the retirement and after its own failures |
| RetentionFold.LaterPassExactly | validation/promotion_unit_retention.py:642-643 | an accepted test has a pass after each of its failures if and only if no invalidated failure comes after everything that applies |
| RetentionFold.FailureMayStandLast | validation/promotion_unit_retention.py:642-643 | an accepted suite whose last record is an invalidated failure with no later pass |
| HistoryAudit.BroughtIsDifference | validation/history.py:793-799 | what a landing brings in is what it reaches and its first parent does not, for merges and single commits alike |
| HistoryAudit.AncestorsAreReached | validation/history.py:790-797 | an ancestor is exactly what a path of parents leads to |
| HistoryAudit.LandingsPartition | validation/history.py:793-800 | if every first-parent commit above the boundary is a landing, what they bring in covers everything from boundary to tip, each commit once |
| HistoryAudit.AuditLandings | validation/history.py:773-838 | the loop over the log gathers errors, coverage and introductions |
| HistoryAudit.AuditMeans | validation/history.py:773-838 | covered is exactly what an answering landing brings in, introduced what any landing does, and no error means that no commit of the log is at fault |
| HistoryAudit.SoundExactly | validation/history.py:775-831 | a commit of the log is without fault if and only if its ledger row still describes it and, being a landing without erratum, all its lines resolve and it has one if corrective |
| HistoryAudit.AnswersExactly | validation/history.py:801-823 | a landing answers for its commits if and only if it has lines and all resolve, or has an erratum |
| HistoryAudit.IntroducedLists | validation/history.py:755-852 | the list kept for a commit names exactly the landings that brought it in, in the order of the log |
| HistoryAudit.JudgeCorrectives | validation/history.py:1079-1121 | errors, covered and pending commits are exactly those the rules say |
| HistoryAudit.DisposalExactly | validation/history.py:1098-1121 | which corrective commits are covered, pending or complained of |
| HistoryAudit.CleanAudit | validation/history.py:1079-1121 | without errors every landed corrective commit is answered for or excused, and no pending commit has landed |
| HistoryAudit.FullyLanded | validation/history.py:770-1121 | on a fully landed chain without errors every corrective commit was brought in by exactly one commit of the chain and is answered for |
| HistoryAudit.LandedIsLogged | validation/history.py:770-772 | the log holds every commit of the chain above the boundary |
| TensorLayout.Rebuild | scripts/subtitle-text-weight-layout.py:46-60 | a tensor is accepted if and only if its strides are those of a contiguous box that fits its storage |
| TensorLayout.StridesNumberTheBox | scripts/subtitle-text-weight-layout.py:53-57 | for any rank such strides map the index box one to one onto the positions below its volume |
| TensorLayout.Metadata.PersistentLoad | scripts/subtitle-text-weight-layout.py:77-88 | a storage key names one storage, the same every time |
| TensorLayout.PlainKeysAreDigits | scripts/subtitle-text-weight-layout.py:83-84 | a storage key is one to thirty-two decimal digits |
| TensorLayout.Tile | scripts/subtitle-text-weight-layout.py:120-132 | the loop finds the tiling of the file by the recorded counts, if there is one |
| TensorLayout.DigitsOfLittle | scripts/subtitle-text-weight-layout.py:120-121 | the eight bytes of a count are its digits to base 256, the lowest first |
| TensorLayout.TilesCoverOnce | scripts/subtitle-text-weight-layout.py:120-132 | storages and headers tile the bytes from the metadata to the end of the file: each belongs to exactly one |
| TensorLayout.ElementsAreApart | scripts/subtitle-text-weight-layout.py:133-139 | each element lies inside its storage and two elements of a tensor share no byte |
| ModifiedUtf8.TextUndoesEncode | validation/jvm_unit_discovery.py:256-261 | decoding undoes the encoding of section 4.4.7 for every string of code units, zeros and lone surrogates included |
| ModifiedUtf8.PairsSplitAgain | validation/jvm_unit_discovery.py:259-259 | joining surrogate pairs loses nothing |
| ModifiedUtf8.DecodesExactly | validation/jvm_unit_discovery.py:256-261 | bytes are decoded if and only if they are the UTF-8 of points, surrogates included: no overlong form, nothing beyond the last point |
| ClassFile.ReadPrelude | validation/jvm_unit_discovery.py:16-39 | the bytes before the pool |
| ClassFile.HeaderRound | validation/jvm_unit_discovery.py:42-57 | one constant read by the header scanner |
| ClassFile.DetailsRound | validation/jvm_unit_discovery.py:127-143 | one constant read by the details scanner |
| ClassFile.HeaderScan | validation/jvm_unit_discovery.py:16-58 | the header scanner as a fold over constants |
| ClassFile.DetailsScan | validation/jvm_unit_discovery.py:100-144 | the details scanner as a fold over constants |
| ClassFile.ScanInvertsWriting | validation/jvm_unit_discovery.py:40-58 | a scan succeeds exactly on what writing the constants gives, and returns them |
| ClassFile.AcceptedIsWritten | validation/jvm_unit_discovery.py:40-58 | accepted are exactly the pools that are valid constants written one after another, two-slot ones included |
| ClassFile.ScannersAgree | validation/jvm_unit_discovery.py:120-144 | on every byte string the two scanners agree on acceptance, on the end of the pool and on the texts it holds |
| HelperClasses.CheckNonTest | validation/jvm_unit_discovery.py:80-89 | a class passes if and only if its superclasses reach a root over classes without tests; cycles never do |
| HelperClasses.ReadRoster | validation/jvm_unit_discovery.py:74-76 | the roster lists each class once |
| HelperClasses.ExcludedClasses | validation/jvm_unit_discovery.py:72-98 | classes are left out if and only if every class not selected is a generated helper in such a hierarchy |
| HelperClasses.OwnerIsBeforeDollar | validation/jvm_unit_discovery.py:95-95 | the owner of a class is its name up to the first dollar sign |
| HelperClasses.JUnitInterfacesExactly | validation/jvm_unit_discovery.py:89-89 | the interfaces of JUnit are those under its two prefixes |
| Sha256.Expand | scripts/continuous-sha256.c:19-20 | the schedule of section 6.2.2 |
| Sha256.Mix | scripts/continuous-sha256.c:21-26 | the 64 rounds over the working variables |
| Sha256.ScheduleSum | scripts/continuous-sha256.c:20-20 | the four terms in the order of the program sum to the same word as in the order of the standard |
| Sha256.ChChooses | scripts/continuous-sha256.c:23-23 | "choose" takes the bits of one word or of the other by those of the first |
| Sha256.MajDecides | scripts/continuous-sha256.c:24-24 | "majority" takes the bits that two of the three words have |
| Sha256.RotrRotates | scripts/continuous-sha256.c:13-13 | the macro rotates right, for each amount the program uses |
| Sha256.SigmasAreStandard | scripts/continuous-sha256.c:20-24 | the four sums of rotations and shifts of section 4.1.2 |
| Sha256.BytesOfWord | scripts/continuous-sha256.c:19-19 | the first byte of four is the most significant |
| Sha256.StandardOperations | scripts/continuous-sha256.c:17-28 | which operation of the standard stands where |
| Sha256.RoundIsStandard | scripts/continuous-sha256.c:22-26 | one round as section 6.2.2 writes it, register by register |
| Sha256.Compress | scripts/continuous-sha256.c:15-29 | for every whole number of blocks the state ends as the hash computation of section 6.2.2, in bounds and without the counter wrapping |
| Sha256.HashConcatenation | scripts/continuous-sha256.c:15-29 | compressing two messages in turn is compressing their concatenation |
| SpanFinder.HistoricalSpanFinder.HandleStart | validation/doc_versions.py:91-96 | a new span spoils everything below it |
| SpanFinder.HistoricalSpanFinder.HandleStartEnd | validation/doc_versions.py:98-102 | a self-closing span spoils every open one |
| SpanFinder.HistoricalSpanFinder.HandleEnd | validation/doc_versions.py:104-109 | only an unspoiled marked span gives a region |
| SpanFinder.HistoricalSpanFinder.Spans | validation/doc_versions.py:71-81 | the regions found are those of marked spans closed by the very next tag |
| SpanFinder.RegionsAreMarked | validation/doc_versions.py:91-109 | a region is found if and only if a marked opening tag is followed at once by a closing one |
| SpanFinder.RegionsAreApart | validation/doc_versions.py:91-109 | regions are non-empty, increasing, disjoint and hold no other span tag |
| SpanFinder.CurrentClaimsOnly | validation/doc_versions.py:112-126 | the cursor loop cuts the regions out |
| SpanFinder.CutIsShown | validation/doc_versions.py:112-126 | the kept text is the document outside the regions, with one space for each |
| SpanFinder.CurrentClaims | validation/doc_versions.py:112-126 | from the tags to the kept text |
| SpanFinder.LineStarts | validation/doc_versions.py:73-76 | the table holds where each line begins |
| SpanFinder.PositionOnLine | validation/doc_versions.py:83-85 | line start plus column is the position, for every position |

## Left out

- SSH, Docker, Git, HTTP, subprocesses, clocks and the file system outside the modelled volume: they appear as parameters or as arbitrary choices of a step.
- The parsers of JSON, tar, zip, XML, HTML and regular expressions: the models start from what they deliver, and fnmatch on one path component is any predicate.
- The collect and load sessions of the lab, its load processes, capacity and ownership inspection, and the API set-up between two launches: no further effect on the modelled resources; two controllers at once are outside the model.
- The order in which one cleanup tries the nodes is the manifest's; time-outs are crashes or lost replies.
- The check that the archive did not change while being read: one flag stands for it. Payloads are what the tar library reads at their offsets.
- Deleting the private staging directory after a failed extraction, file times, and the kernel's own limit on nested symbolic links.
- A short write of the extractor: a fault while copying leaves a shorter file in the private stage.
- Rounding: milliseconds and durations of the frame clock are exact reals; the sampling canvas is not modelled.
- The text of commit identifiers, digests and errors, and the hexadecimal checks on them in the adoption journals.
- The execution phase of the preflight adapter and the unit runner: the models start from the journals they write.
- Authentication of one native artifact, and the receipt checks of `verify_tv_cases` beyond its outcome events: one deterministic verdict per artifact.
- The order in which `restore` lists its attempts: any sequence of attempts is allowed.
- The pinned captures, chronologies and linked runs of the cohort validator, and its parsers of individual logs: finite lists without a general property.
- Aggregate counts and formats of the retained suites, and environment comparisons.
- Ledger rows that name no commit past the boundary, parsing of regression lines and their resolution in a tree: a message has a number of lines and of unresolved ones.
- The client anchor rule and the pre-boundary ledger of the history audit.
- Pickle itself, the pinned size and digest of the one checkpoint, and the inventory counts 256 and 258.
- What the class-file scanners read after the constant pool, and the JUnit discovery rules built on it.
- Padding of messages for SHA-256: the compiled routine only ever sees whole blocks.
- The remaining files of the repository: the server, its clients, and small or plumbing tools.
