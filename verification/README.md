# Contexo: safety of sync, of its lock, and of its differ

Contexo keeps Markdown pages in a `.contexo/` directory (a hub) and shares them through a small git server. This
project is a Dafny model of the parts of it that decide whether somebody's work survives, with proofs about them. Each
module follows one component of the Go source.

**The sync engine.** `Pages` holds the server: an append-only history of page versions with compare-and-set and
create-if-absent writes of what arrives of a pushed page. `Contract` is the page-state table with the sidecar overlay.
`Hub` is a hub on disk and in an engine's memory; every single write can fail, so "any subset of the writes reaches
the disk" - a crash included - is a quantifier over the function that says which writes land (`Hub.OpenHub` joins what
the source splits over the hub directory, `Bases`, `Conflicts` and the loaded state). `Pull`, `Push`, `Resolve`,
`Repair`, `RepairPlan` and `EnsureBase` are the engines, as classes and methods that change an open hub step by step,
each equal to a function over the hub's value; `PullSafety`, `PullFaults`, `PushSafety`, `PullTwice` and
`RepairSafety` prove what those functions keep and achieve. `SyncRuns` puts any number of hubs and one server into one
transition system, with users editing at any moment, old binaries writing `state.json`, index files getting lost,
crashes, and other writers on the server. `SyncSafety` proves three things of every run of it: a base that loads as
valid is true, no accepted push replaces a version its sender had not received (with one exception, which
`SyncLateSha` exhibits), and nothing a user saved is lost (but for pages that do not survive the transport, see
`SyncGarbled`). `Sidecars` is what a conflict sidecar holds after a crash, and `Briefs` is `ctx_push resolved=[...]`
with its registry of shown versions.

**The lock.** `LockProtocol` is the cross-process lock file with its removal guard, one file-system operation per
step; `LockSafety` is the invariant of the lock path, given that one process at a time is behind the guard;
`LockGuard` is the invariant of the guard path, also while guards of dead processes are renamed aside, dropped or put
back, and mutual exclusion for any number of processes; `LockStaleGuard` is a complete run in which a guard made in a
rename window breaks it; `LockRecovery` shows that a lock does not stay behind: an abandoned one is taken over, and an
unlock frees its own. `LockJson` and `LockRecord` show that a torn lock record, cut at any byte, is never JSON, and
`LockCodec` that a record can be read back.

**The differ.** `Lines`, `LineDiff`, `SectionParser`, `SectionDiff` and `SectionEntries`: the line differ is correct
and optimal, its text form reads back, the section diff conserves both sides, and renames are the greedy choice.

**Smaller cores.** `RateLimiter` (the token bucket and its pruning), `Canonical` (the canonical form of a page) and
`SortedNode` (writing nested maps independently of iteration order).

## What the proofs found

- *A stale base is sent after all.* A page with a stale base that the listing does not show is classified `new` and
  sent with its stale sha and without `expect_absent` (`PushSafety.StaleBaseIsSentIff`). It is harmless when the
  server had issued that sha before it answered the listing, because a commit that was not a page's last one then
  never becomes it again: `SyncSafety.NoLostUpdate` covers it. It is not harmless when an old binary, which takes no
  lock, records a newer commit between the listing and the loading of the same push (`SyncLateSha.LateShaIsAccepted`).
- *A page that is not valid UTF-8 is not kept.* Pushed content travels as a JSON string, which replaces every byte
  that is not valid UTF-8, while the engine stores the bytes it sent as the base. The base is true exactly when the
  canonical form travels unchanged (`Pages.IntactIff`); when it does not, a later pull can replace the file although
  its bytes are nowhere else (`SyncGarbled.GarbledPageIsLost`).
- *An interrupted repair can show an old version under the current sha.* The sidecar of a repair is of the version at
  page_shas. When the process ends after the sidecar file and before conflicts.json, and the record on disk names the
  current version, ctx_push prints the old text in the brief for the current sha (`Sidecars.RepairCrashIsUnsound`,
  `Briefs.BriefIsRightIff`). A sidecar of a version that was current under the lock cannot do this
  (`Sidecars.FreshSidecarIsSound`).
- *The lock can fail only in a rename window.* Recovery from a process that died behind the guard is safe as long as
  no process makes a guard while a clearer has a file aside that goes back to the guard path, because it is not the
  one it judged or could not be stat'ed (`LockGuard.LockExcludes`). When one does, two processes can both hold the
  lock although every live process is prompt: the guard that three live waiters race to clear is that of a dead
  process (`LockStaleGuard.StaleGuardBreaksExclusion`).
- *Pruning can be observed, and the rate bound broken, exactly when a drained bucket needs more than ten minutes to
  refill* (`RateLimiter.PruningIsUnobservableIff`). The shipped defaults are on the safe side.
- *The canonical form gives up beyond 125 carriage returns of the body as it is read.* The comment at
  internal/syncstate/canonical.go:27-31 says a pass drops one CR of a run; reading and writing each replace CRLF, so a
  pass drops two. For any page at all, 64 passes settle it exactly when no line feed of the body that reading finds
  has more than 125 CRs in front of it and the block stops changing within 62 rounds of decoding and encoding
  (`Canonical.NormalizesIff`); for a page already in written form that is 126 CRs (`Canonical.WrittenNormalizesIff`).
- *A bare `##` heading is not stable.* Parsing what was parsed gives the same sections exactly when no line of the
  body is a heading with nothing but blanks after its marks (`SectionParser.ParseIsNormalForm`). The `### ` test in
  `isH2` (internal/diff/section.go:239-248) can never reject a line that starts with `## `.
- *Two `--theirs` of one page in one second share a backup name*, and the second can replace the first one's bytes
  (`Resolve.BackupSurvivesIff` says exactly when). `SyncRuns` assumes one resolve per page and second.

## Assumptions

- sha-256 is injective, `Normalize`, `SanitizeContent`, the JSON transport and "is a valid page at this path" are
  arbitrary functions in the sync modules (`Canonical` is about the first of them; `Pages.WireLaws`, assumed where it
  is named, says what is used of the transport and of sanitizing), and commit ids are never reused.
- Listings, pages and answers are honest: a sha and the bytes delivered with it belong together. Bytes delivered
  without a sha are taken to belong to the listing's, as internal/syncops/pull.go:381-388 does although the server may
  have moved.
- One engine per hub at a time (what the lock modules establish); the re-check of a working file and the rename that
  replaces it are one step; a failed or interrupted atomic write leaves the old file.
- `--theirs` reads the working file for the backup, writes the backup and overwrites the file in one step: what a user
  saves between the read and the overwrite (internal/syncops/resolve.go:177-195) is not kept.
- In the lock modules: a live process writes its record within 30 s and holds the lock at most 10 min; nobody finds a
  guard over 5 s old while the live process that made it is still behind it; no guard is made in a rename window; and
  a live process on the same host is reported alive. Start times are written injectively (`LockCodec`).
- In `Briefs`: sidecars are sound, that is, the file holds the version its record names, or the recorded one is no
  longer the current one.
- The YAML encoder writes whole lines, none of them the delimiter and none with a CR (`Canonical`), and composes a
  node's text from the texts of its parts, map keys being scalars (`SortedNode`).
- The rate limiter's clock does not go back; its arithmetic is over the reals.

## Model

| member | source | states |
|---|---|---|
| `LineDiff.LcsDiff` | internal/diff/section.go:625-683 | the table, the back-walk and the in-place reversal compute exactly the script of the longest-common-subsequence recurrence |
| `LineDiff.LcsDiffIsOptimal` | internal/diff/section.go:625-683 | dropping inserts replays the old lines, dropping deletes the new ones, and the kept lines number the maximum length of any common subsequence, which is attained |
| `LineDiff.ScriptIsShortest` | internal/diff/section.go:610-624 | no other script that replays both texts has fewer changed lines |
| `LineDiff.ScriptInsertsFirst` | internal/diff/section.go:648-675 | on ties the new lines of a replaced block come first: no deletion is directly followed by an insertion |
| `LineDiff.RenderLineDiff` | internal/diff/section.go:583-608 | the text form: empty for equal texts, otherwise one marked line per operation with only the final newline trimmed |
| `LineDiff.CountChangedLines` | internal/diff/format.go:184-195 | counts the lines of a diff text that start with a plus or a minus |
| `LineDiff.CounterIsMinimalEdit` | internal/diff/format.go:184-195 | the counter on a rendered diff gives the minimal number of changed lines, and 0 exactly for equal texts |
| `LineDiff.TextRoundTrip` | internal/diff/section.go:583-608 | the script can be parsed back from the rendered text |
| `SectionParser.ParseSections` | internal/diff/section.go:182-232 | one pass over the lines builds exactly the preamble and the sections between headings, trimmed |
| `SectionParser.ParseIsNormalForm` | internal/diff/section.go:182-248 | for bodies without CR no preamble or body line starts a section, and re-parsing the rendered parts gives them back if and only if no line of the body is a bare `##` heading |
| `SectionParser.BareHeadingIsNotStable` | internal/diff/section.go:182-248 | the concrete body on which re-parsing changes the result |
| `SectionDiff.DiffSections` | internal/diff/section.go:389-448 | the n-th section of a heading is paired with the n-th of the other side, leftovers are removals, then renames are detected |
| `SectionDiff.DetectRenames` | internal/diff/section.go:455-533 | greedy pairing of removed with added sections, each used at most once, then one rewriting pass |
| `SectionDiff.DiffConserves` | internal/diff/section.go:389-533 | for every heading the changes count the old sections from one side and the new ones from the other, and the heading is matched as often as both sides have it |
| `SectionDiff.PairsSound` | internal/diff/section.go:455-507 | every rename pair reaches the threshold, no added section is used twice, and unpaired ones are below it |
| `SectionDiff.NoRenameMissed` | internal/diff/section.go:455-533 | a removed and an added section that both stay are below the similarity threshold |
| `SectionEntries.RenamesAreGreedy` | internal/diff/section.go:470-496 | each removed section in turn gets the best added one that is left, the first of equally good ones, or none when none reaches the threshold |
| `SectionEntries.EntryAfterRenames` | internal/diff/section.go:500-533 | what becomes of every entry and where it stands: a rename carries the old heading and body as old, the new ones as new, and a line diff that reads back to them; its added entry goes; the others stay |
| `SectionDiff.NewSideIsRebuilt` | internal/diff/section.go:389-430 | before renames are detected, headings, bodies and order of the new side can be rebuilt from the old sections and the changes |
| `SectionEntries.OldSideIsRebuilt` | internal/diff/section.go:389-441 | every section of the old side, each with its ordinal, can be read back from the new sections and the changes: a removal carries its body |
| `SectionDiff.ModifiedCarriesBoth` | internal/diff/section.go:389-430 | a modified section carries the bodies of its pair and a line diff that reads back to both of them |
| `LockSafety.LiveNotStale` | internal/syncstate/lock.go:251-333 | what a prompt live holder has written so far, complete or torn, is never judged stale |
| `LockSafety.StepKeeps` | internal/syncstate/lock.go:204-520 | while one process at a time is behind the guard, every step of every process keeps the invariant of the lock path: a live owner's file stays there, and only an abandoned one is removed |
| `LockGuard.GuardStepKeeps` | internal/syncstate/lock.go:362-468 | every step keeps the invariant of the guard path: a live holder's guard is there or about to be put back, whatever is renamed aside, compared, dropped or linked back |
| `LockGuard.GuardsExclude` | internal/syncstate/lock.go:70-86 | at most one live process is behind a guard |
| `LockGuard.LockExcludes` | internal/syncstate/lock.go:70-86 | in every interleaving of any number of processes, deaths inside the guarded section included, at most one live process believes it holds the lock and the lock path names its own file, unless a guard is made in a rename window |
| `LockGuard.NoStaleGuardSuffices` | internal/syncstate/lock.go:70-86 | the same when no guard ever goes stale, with no other assumption on guards |
| `LockStaleGuard.StaleGuardBreaksExclusion` | internal/syncstate/lock.go:431-454 | a run with only prompt live processes in which the guard of a dead one, and a guard made in the rename window, lead to two holders |
| `LockJson.ValidIsClosed` | internal/syncstate/lock.go:321-333 | a text that is JSON leaves no string, object or array open |
| `LockRecord.RecordIsValid` | internal/syncstate/lock.go:251-280 | the marshalled lock record is JSON, with or without its final newline |
| `LockRecord.TornRecordIsNotValid` | internal/syncstate/lock.go:251-280 | no proper prefix of a marshalled record, cut at any byte, is JSON, whatever the host and command contain |
| `LockRecord.RecordCodecSound` | internal/syncstate/lock.go:251-333 | the codec the lock protocol relies on is sound once a decoder reads back what was written |
| `LockCodec.MarshalInjective` | internal/syncstate/lock.go:251-280 | different holders are written differently |
| `LockCodec.SoundCodecExists` | internal/syncstate/lock.go:251-333 | a decoder that reads back what was written exists, so what the lock assumes of its codec can be met |
| `LockRecord.NotStolenEarly` | internal/syncstate/lock.go:321-333 | a torn record is stale exactly when its file is over 30 s old, a live holder's complete record exactly when it is over 10 min old |
| `LockRecovery.AbandonedLockIsTaken` | internal/syncstate/lock.go:204-236 | from any state a process that runs by itself takes over a lock whose holder is not running on its host, started over 10 min ago, left a torn record over 30 s old or one that nobody writes, even if a guard over 5 s old is in the way |
| `LockRecovery.UnlockFrees` | internal/syncstate/lock.go:487-503 | a holder that runs by itself unlocks: the lock path and the guard path are free |
| `LockRecovery.DeathIsFinal` | internal/syncstate/lock.go:70-86 | who dies is gone and nobody else is, whatever step is taken |
| `LockRecovery.FreshGuardIsRespected` | internal/syncstate/lock.go:362-418 | a guard at most 5 s old is left alone: a reclaimer ends its round, an unlock goes on waiting |
| `LockRecovery.WrongGuardGoesBack` | internal/syncstate/lock.go:431-454 | a guard moved aside that is not the one judged goes back to its path |
| `LockRecovery.FallbackFrees` | internal/syncstate/lock.go:487-503 | a holder that gives up on the guard still frees its own lock |
| `Pages.WriteExtends` | internal/server/gitstore/gitstore.go:173-258 | a write never changes or forgets a commit, and its answer is true: an accepted sha holds what arrived of the content, a refusal names the current version |
| `Pages.IntactIff` | internal/sync/client.go:275-281 | a pushed canonical form has its own hash on the server exactly when the transport leaves it unchanged |
| `Pages.AcceptedReplaces` | internal/server/gitstore/gitstore.go:185-211 | an accepted write replaces exactly its parent version, or creates a page: an absent one when asked to, else one that never existed or was deleted by the parent commit |
| `Pages.AcceptedIff` | internal/server/gitstore/gitstore.go:173-258 | exactly when a write is accepted; an unchanged page makes no commit, and no other page is touched |
| `Contract.SentStates` | internal/syncops/contract/classify.go:54-113 | the exact local, base, remote and sidecar facts under which a page is sent |
| `Contract.StatesAre` | internal/syncops/contract/classify.go:54-113 | every state, with the sidecar overlay, from the local, base, remote and sidecar facts alone: one equivalence for each state and each kind of conflict |
| `Contract.OverwrittenStates` | internal/syncops/contract/classify.go:95-111 | a page is incoming exactly when its file is its valid base and the server moved past it |
| `Hub.GatheredBaseIsTrue` | internal/syncstate/view.go:155-195 | a base reported valid is the page_shas sha with the hash of the server's version there, or of a pushed page the transport garbled into it |
| `Hub.ViewIsEntries` | internal/syncstate/view.go:120-142 | the entries of a view with a listing are exactly the paths that have a state |
| `Hub.OfflineStates` | internal/syncstate/view.go:178-193 | without a listing a recorded conflict that is not with the page_shas commit stands in for it, and otherwise nothing is incoming or in conflict |
| `Hub.OpenHub.PutBasePage` | internal/syncstate/base.go:150-171 | base file and index entry change together or not at all, and an empty sha is refused |
| `Hub.OpenHub.PutSidecar` | internal/syncstate/conflicts.go:96-127 | the sidecar file is written or removed and the record is normalized, or nothing changes |
| `Hub.OpenHub.ClearSidecar` | internal/syncstate/conflicts.go:158-167 | sidecar file and record go together or not at all |
| `Hub.PutsAreReported` | internal/syncstate/base.go:150-171 | success of a put means the page has that base or that sidecar, failure that it has what it had; nothing is stored under an empty sha |
| `Pull.PullRun.Classify` | internal/syncops/pull.go:216-251 | every entry is classified from the view and gets its page only when needed and delivered |
| `Pull.PullRun.Apply` | internal/syncops/pull.go:443-469 | acts on the needed pages in order, with arbitrary user edits before each, and stops at the first failed write |
| `Pull.PullRun.StoreBases` | internal/syncops/pull.go:670-687 | base files in order, and page_shas moves even where the base could not be stored |
| `Pull.PullRun.StoreSidecars` | internal/syncops/pull.go:692-712 | clears the sidecars of stored pages, then records the new conflicts |
| `Pull.PullRun.Save` | internal/syncops/pull.go:633-665 | the write order of the finish, each index file at most once and only when changed |
| `Pull.RunPull` | internal/syncops/pull.go:73-100 | a whole pull equals the function the theorems below are about |
| `PullSafety.ApplyKeepsEdits` | internal/syncops/pull.go:471-513 | one step deletes nothing and replaces only bytes whose canonical form is in the server's history of that page, or was pushed to it and garbled |
| `PullSafety.PullKeepsBasesTrue` | internal/syncops/pull.go:443-712 | for any subset of the writes and any edits meanwhile every recorded base stays true |
| `PullSafety.FinishLeavesFiles` | internal/syncops/pull.go:633-712 | the finish touches no working file and no backup |
| `PullSafety.FailedBaseIsUnverified` | internal/syncops/pull.go:667-687 | a page whose base could not be stored is unverified, never modified |
| `PullFaults.StepOutcomes` | internal/syncops/pull.go:443-545 | all one step can come to: it leaves the page, writes the delivered version and remembers it, fails to write and stops with nothing remembered, adopts a file that is that version, or sets out to record a conflict with one that is not |
| `PullFaults.FailedWriteIsTheLast` | internal/syncops/pull.go:443-469 | after a failed write no later entry changes a file, a base, a page_shas value or a sidecar |
| `PullFaults.OnlyLandedIsRecorded` | internal/syncops/pull.go:471-512 | whichever writes fail, a page whose base or page_shas value moved has the delivered version as its file, and base and value are that version's |
| `PullFaults.UnneededIsUntouched` | internal/syncops/pull.go:443-453 | a page with nothing to do, or nothing delivered, keeps its file, base, sidecar and page_shas value, whichever writes fail |
| `PullFaults.PullLeavesAlone` | internal/syncops/pull.go:238-247 | a deleted page does not come back; it, an invalid page, an unlisted one and one listed at its base without a conflict are left exactly as they are |
| `PullTwice.PullIsPagewise` | internal/syncops/pull.go:443-712 | with distinct paths and no failure a pull treats each page by itself |
| `PullTwice.PullOutcome` | internal/syncops/pull.go:443-712 | the file, base and its file, page_shas value, sidecar and its text a pull leaves, by the state of the page, unverified ones included |
| `PullTwice.StoredSlotIsUnchanged` | internal/syncops/pull.go:443-545 | a page pull wrote or adopted reclassifies as unchanged when its content is a valid page |
| `PullTwice.SecondPullWritesNothing` | internal/syncops/pull.go:565-573 | with a fixed server, no edits and no failure the second pull performs no write at all |
| `Push.PushRun.BuildBatch` | internal/syncops/push.go:431-531 | in path order, exactly the files that must be sent, each with its content and its guard, and exactly the conflicts |
| `Push.SentIff` | internal/syncops/push.go:453-531 | a page is sent exactly when it normalizes and the server does not list it - whatever its base - or lists it at its valid base, from which it was edited, with no sidecar naming another commit; what is sent is its canonical form on its page_shas sha |
| `Push.ConflictIff` | internal/syncops/push.go:430-448 | when a page is in conflict, of which kind, and whether the overlay made it one, on the hub and the listing alone |
| `Push.BatchIsExact` | internal/syncops/push.go:453-506 | every wanted page that must be sent is in the batch, nothing else is, and the order is that of the wanted paths |
| `Push.PushRun.ListingSidecars` | internal/syncops/push.go:652-704 | the sidecars of conflicts the listing already showed |
| `Push.SidecarIs` | internal/syncops/push.go:652-714 | which conflicts get a sidecar, and its commit, base, kind and text |
| `Push.ListedConflictsAreNoted` | internal/syncops/push.go:652-704 | of the wanted pages exactly the conflicts the listing shows get one, unless it is recorded as it stands or the page is gone |
| `PushSafety.ListedConflictIsRecorded` | internal/syncops/push.go:838-846 | such a sidecar is on disk afterwards, with the text it names |
| `Push.PushRun.Apply` | internal/syncops/push.go:774-869 | records the answers in the write order, each index file at most once and only when changed |
| `PushSafety.BatchIsGuarded` | internal/syncops/push.go:508-531 | every sent file asks for absence exactly when the page has no base, otherwise carries its page_shas sha as parent, and is sent over a listed page only on top of its valid base at that very commit |
| `PushSafety.StaleBaseIsSentIff` | internal/syncops/push.go:453-531 | a page with a stale base is sent exactly when the server does not list it and its file is a page that normalizes |
| `PushSafety.StaleBaseIsSent` | internal/syncops/push.go:453-531 | the concrete hub whose page with a stale base is sent |
| `PushSafety.AcceptedBaseIsTrueIff` | internal/syncops/push.go:795-806 | the base stored for an accepted page has the hash of the server's version exactly when the page arrived as it was sent |
| `PushSafety.AcceptedPageMoves` | internal/syncops/push.go:795-866 | whichever writes fail, an accepted page moves to the sha it was given, and its base is what was sent or stale, never an older one |
| `PushSafety.PushKeepsBasesTrue` | internal/syncops/push.go:774-869 | for any answers and any subset of the writes every recorded base stays true |
| `PushSafety.RefusedPageKeepsItsBase` | internal/syncops/push.go:815-846 | a page that was not accepted keeps its base and its page_shas value, in memory and on disk |
| `PushSafety.RefusalIsRecorded` | internal/syncops/push.go:815-837 | a refused file leaves a saved sidecar naming the server's commit, the base it was sent on and the kind of conflict, with the server's text |
| `PushSafety.PushedPageIsUnchanged` | internal/syncops/push.go:795-866 | an accepted page that is not edited meanwhile reclassifies as unchanged at the sha it was given |
| `PushSafety.PushLeavesFiles` | internal/syncops/push.go:774-869 | push touches no working file and no backup |
| `PushSafety.PushIsSaved` | internal/syncops/push.go:774-869 | when nothing fails, what is on disk afterwards is what is in memory |
| `Resolve.RecordTarget` | internal/syncops/resolve.go:256-277 | base file, sidecar, bases.json, conflicts.json, state.json, stopping at the first failure |
| `Resolve.ResolveTheirs` | internal/syncops/resolve.go:163-206 | backup, working file, record; nothing but the sidecar when the page is unchanged |
| `Resolve.RunResolve` | internal/syncops/resolve.go:75-125 | the guards on the sha and the chosen strategy, as the function the theorems below are about |
| `Resolve.ResolveOutcome` | internal/syncops/resolve.go:127-277 | `--ours` succeeds exactly when the guard is met and the page is valid and has no base, a stale one, was edited since a base at another commit, or since one at this commit with a conflict recorded; `--theirs` whenever the guard is met; and what either leaves of the page, its sidecar gone |
| `Resolve.RefusalTouchesNothing` | internal/syncops/resolve.go:75-147 | a refused resolve has written nothing and names its reason; any other failure is a failed write |
| `Resolve.SuccessIsComplete` | internal/syncops/resolve.go:149-277 | whichever writes fail, success is reported exactly when every write tried reached the disk, the first failure is the last write, and success means what it means when nothing fails |
| `Resolve.ResolveIsSaved` | internal/syncops/resolve.go:208-277 | after a success what is on disk is what is in memory |
| `Resolve.ResolveTouchesOnePage` | internal/syncops/resolve.go:127-277 | whichever writes fail, no other page is touched |
| `Resolve.ResolveKeepsBasesTrue` | internal/syncops/resolve.go:137-277 | for any subset of the writes every recorded base stays true |
| `Resolve.ResolveLosesNothing` | internal/syncops/resolve.go:137-206 | `--ours` touches no file; `--theirs` replaces bytes only after exactly those bytes are in the backup, and touches no other file or backup |
| `Resolve.BackupSurvivesIff` | internal/syncops/resolve.go:177-195 | no earlier backup is lost exactly when nothing is replaced, the name is free, or it holds the same bytes |
| `Resolve.OursRebases` | internal/syncops/resolve.go:127-147 | `--ours` bases the page on the server version it was guarded by and leaves it modified or unchanged |
| `Resolve.TheirsSettles` | internal/syncops/resolve.go:149-206 | `--theirs` leaves the page unchanged when the server version is a valid page |
| `Repair.RunApply` | internal/syncops/repair.go:545-605 | drops the actions whose page_shas value changed meanwhile, then writes in order, stopping at the first failure |
| `RepairPlan.Planner.FanOut` | internal/syncops/repair.go:421-450 | for every order of replies, failures and cancellation: terminates, settles each path exactly once, keeps the requests in flight within the limit, starts nothing once stopped or ended, and as long as failures concern only their own pages skips only those |
| `RepairPlan.Planner.PullAll` | internal/syncops/repair.go:329-371 | one PullPages settles each of its paths exactly once |
| `RepairPlan.Planner.Phase1` | internal/syncops/repair.go:300-325 | at most one PullPages and at most 8 ReadPage calls; a page that answers at its page_shas value is acted on |
| `RepairPlan.Planner.Phase2` | internal/syncops/repair.go:375-403 | at most the budget of ReadPageAt calls; unless something ends it early only the excess and the pages whose own read failed are skipped, and all on a server without pages.at |
| `RepairPlan.Plan` | internal/syncops/repair.go:268-295 | every stale path is in exactly one of the actions and the skipped, every action answers a real reply, all request limits hold, each skipped path has its reason; a page that listing and answers show at its page_shas value is acted on whatever the budget, and does not count towards it |
| `RepairSafety.PlanFits` | internal/syncops/repair.go:455-487 | a plan made from honest replies stores only true bases under the page_shas values it was made for |
| `RepairSafety.StaleIff` | internal/syncops/repair.go:189-225 | a page is stale exactly when its base loads as stale, or as valid without verifying |
| `RepairSafety.RepairOutcome` | internal/syncops/repair.go:455-487 | what a repair makes of a page: adopted with its sidecar cleared, or its verified base kept and an edit since turned into a recorded conflict, or the server version as its base; the file never changes |
| `RepairSafety.SuccessIsComplete` | internal/syncops/repair.go:545-605 | whichever writes fail, a repair that reports success has done all it does when nothing fails |
| `RepairSafety.RepairKeepsBasesTrue` | internal/syncops/repair.go:545-605 | for any subset of the writes and any change of state.json meanwhile every recorded base stays true |
| `RepairSafety.RepairLeavesFiles` | internal/syncops/repair.go:106-112 | repair touches no working file and no backup |
| `RepairSafety.RepairedPageIsNotStale` | internal/syncops/repair.go:455-487 | every applied action leaves a base that is valid and verifies |
| `RepairSafety.RepairHidesNoEdit` | internal/syncops/repair.go:455-487 | a repaired listed page is unchanged or incoming exactly when the file, as it is by then, has the canonical form of the base stored: the version just read or the previous verified base |
| `RepairSafety.RepairConverges` | internal/syncops/repair.go:268-295 | with every request answered and every write landing, k stale pages are gone after any number of such runs that covers k with the budget |
| `EnsureBase.PlanAndApply` | internal/syncops/repair.go:136-144 | a whole plan and its application: each stale path accounted for, nothing reported as repaired after a failed write or a cancellation, and with nothing failing a run as the convergence theorem counts them; a page that one read of HEAD repairs is among the repaired, unless its page_shas value changed meanwhile |
| `EnsureBase.RunRepair` | internal/syncops/repair.go:112-166 | `ctx repair` with its options, the dry run included: what is reported as repaired has a base that is valid and verifies, every page that one read of HEAD repairs is, and each run with nothing failing leaves at most what exceeds the budget |
| `EnsureBase.KeptAreRepaired` | internal/syncops/repair.go:545-605 | when the application succeeds, as it does when no write fails, every kept action leaves a base that is valid and verifies, whatever an old binary did to state.json meanwhile |
| `EnsureBase.KeptUnlessChanged` | internal/syncops/repair.go:545-558 | an action is dropped exactly when the page_shas value it was made for has changed |
| `EnsureBase.Ensure` | internal/syncops/ensurebase.go:48-107 | no listing, nothing stale or no lock means nothing changes; otherwise each stale path of the disk it decided on ends repaired or unverified, never both, repaired pages are no longer stale, and those one read of HEAD repairs are among them |
| `EnsureBase.TallyAccounts` | internal/syncops/repair.go:545-558 | the accounting still holds after changed paths are dropped, and each path left keeps its reason |
| `SyncSafety.BasesAreTrueInEveryRun` | internal/syncstate/view.go:60-76 | in every run a base loaded as valid has the hash of the server's version at its page_shas sha, unless it is of a canonical form the transport garbled into it |
| `SyncSafety.NoLostUpdate` | internal/sync/payloads.go:17-25 | in every run an accepted file creates an absent page or replaces exactly the version that is the sender's valid base, unless the sender's stale base names a commit made after the listing |
| `SyncLateSha.LateShaIsAccepted` | internal/syncops/push.go:156-195 | the run in which that happens: an old binary records a teammate's commit between listing and loading |
| `SyncSafety.NothingSavedIsLost` | internal/syncops/pull.go:43-72 | in every run what a user last saved is still the file, or in the server's history, or byte for byte in a backup, provided its canonical form travels unchanged |
| `SyncGarbled.GarbledPageIsLost` | internal/sync/payloads.go:20-25 | a run in which a page that does not travel is pushed, edited by a teammate and pulled, and is then nowhere |
| `Sidecars.SidecarWriteIsSoundIff` | internal/syncstate/conflicts.go:96-127 | a sidecar file whose record does not follow is sound exactly when it is not written over a record of the current version with another text |
| `Sidecars.SavedSidecarIsSound` | internal/syncstate/conflicts.go:96-127 | with both writes done a sidecar is sound |
| `Sidecars.FreshSidecarIsSound` | internal/syncops/push.go:815-837 | a sidecar of a version that was current under the lock stays sound when its record does not follow |
| `Sidecars.RepairCrashIsUnsound` | internal/syncops/repair.go:455-487 | a repair interrupted between the sidecar file and conflicts.json leaves an old text under a record of the current version |
| `Briefs.BriefIsRightIff` | internal/mcp/tools.go:918-943 | a brief under the current sha shows the current version exactly when the sidecar is sound |
| `Briefs.BriefRegistry.ResolvePage` | internal/mcp/tools.go:777-839 | the guard, the resolve and its outcomes for one page |
| `Briefs.BriefRegistry.ResolvePages` | internal/mcp/tools.go:665-681 | which pages are sent, which get a fresh brief, and what the registry keeps |
| `Briefs.BriefRegistry.Render` | internal/mcp/tools.go:945-952 | records exactly the items whose server version is shown |
| `Briefs.RenderRecords` | internal/mcp/tools.go:945-952 | the registry afterwards holds the sha of the last shown item of each page, and what it held of the others |
| `Briefs.BriefShows` | internal/mcp/tools.go:918-943 | which version a brief shows, and that it shows none only when both reads failed |
| `Briefs.OnePageIsGuarded` | internal/mcp/tools.go:777-839 | a page is re-based only onto the sha known for it while that is current; when the server moved nothing is touched and a fresh brief is issued |
| `Briefs.OutcomeIs` | internal/mcp/tools.go:777-839 | what becomes of a resolved page, on what is known of it, the answers and the hub alone: re-based exactly when the server is where it is known to be and `--ours` applies, else sent as it is, briefed or denied |
| `Briefs.RebasedOntoRead` | internal/mcp/tools.go:777-806 | a re-based page has exactly the version just read as its base and the user's file untouched |
| `Briefs.ShownIsCurrent` | internal/mcp/tools.go:884-943 | when a page is still at the sha of a brief, that brief showed this very version, whichever of its three sources the bytes came from |
| `Briefs.CallIsGuarded` | internal/mcp/tools.go:665-681 | a page that needs a fresh brief is neither re-based nor sent |
| `Briefs.CallOutcome` | internal/mcp/tools.go:665-681 | a call is denied exactly when some page is; otherwise it sends exactly the changed and the resolved pages without a fresh brief, and re-bases and briefs exactly those whose outcome says so |
| `Briefs.OnlyShownVersionsAreSuperseded` | internal/mcp/merge.go:25-56 | in every run a page is re-based only onto a sha an earlier brief showed - and every brief that gave this sha printed exactly the bytes it is re-based onto - or its sidecar holds |
| `RateLimiter.Limiter.TryAllow` | internal/server/middleware.go:92-124 | refill, prune when due, then spend a token or refuse |
| `RateLimiter.TokensStayInRange` | internal/server/middleware.go:92-124 | every bucket always holds between 0 and burst tokens |
| `RateLimiter.PlainIsBounded` | internal/server/middleware.go:66-124 | without pruning the calls allowed for a key in any window number at most the burst plus what the window refills |
| `RateLimiter.PlainAllowsIff` | internal/server/middleware.go:92-124 | without pruning a call is allowed exactly when no window that begins with an earlier call of its key would exceed the bound by it |
| `RateLimiter.AllowsIff` | internal/server/middleware.go:92-124 | the same of the limiter as it runs, when the burst refills within ten minutes |
| `RateLimiter.PruningIsUnobservableIff` | internal/server/middleware.go:106-117 | pruning changes no decision, and the bound holds with it, exactly when the burst refills within ten minutes |
| `Canonical.RunNormalize` | internal/syncstate/canonical.go:44-61 | the loop computes the fixed point of the pass, or nothing within 64 passes |
| `Canonical.FrameIff` | internal/schema/frontmatter.go:25-56 | reading finds exactly the block up to the first closing delimiter line and the body behind it, or a block whose closing delimiter ends the text without a line feed |
| `Canonical.ParsesIff` | internal/schema/frontmatter.go:17-68 | which texts are pages: framed once the byte-order mark is off and CRLF is folded, with a block that decodes |
| `Canonical.BomIsSkipped` | internal/syncstate/canonical.go:21-25 | a byte-order mark changes nothing about the canonical form |
| `Canonical.NormalizeIsIdempotent` | internal/syncstate/canonical.go:33-71 | a canonical form is its own canonical form and hashes like the page it came from |
| `Canonical.CollapseIsDrop` | internal/schema/frontmatter.go:21-30 | replacing CRLF takes one CR from every run in front of a line feed and nothing else |
| `Canonical.NormalizesIff` | internal/syncstate/canonical.go:27-61 | any page that parses has a canonical form exactly when its block settles within 62 rounds and no such run of its body is longer than 125: the settled block and the body without those CRs |
| `Canonical.WrittenNormalizesIff` | internal/syncstate/canonical.go:27-61 | a page in written form with a settled block has one exactly when no such run is longer than 126 |
| `Canonical.SettleWritten` | internal/syncstate/canonical.go:44-61 | how many passes a page in written form takes: block and body settle side by side |
| `Canonical.CanonicalBodyHasNoCrlf` | internal/schema/frontmatter.go:64-94 | any canonical form is a framed block and a body with no CRLF |
| `SortedNode.Build` | internal/schema/frontmatter.go:126-185 | builds a node in which every mapping, at any depth, is sorted |
| `SortedNode.SortIsUnique` | internal/schema/frontmatter.go:168-179 | two sorted lists of the same entries are equal: ties are entries written alike |
| `SortedNode.MappingAscends` | internal/schema/frontmatter.go:168-179 | the keys of every mapping ascend in byte order by tag, then by text, and the values' texts break ties |
| `SortedNode.NoMergeKey` | internal/schema/frontmatter.go:144-153 | no scalar is written as a merge key, and every other one as it is encoded |
| `SortedNode.SameContentSameText` | internal/schema/frontmatter.go:126-200 | maps with the same content are written as the same text, whatever the iteration orders and however a sort places ties |

## Left out

- LockSafety.StepKeeps: the polling loops of the lock are modelled as steps of a state machine, so waiting times, retries and the busy error are not captured.
- LockGuard.LockExcludes: holds under the timing assumptions above; without the one on rename windows it fails, as the counterexample shows.
- LockRecovery.AbandonedLockIsTaken: the process runs by itself; that it gets its turn among others is not modelled.
- LockRecord.RecordCodecSound: decoding is a parameter; what encoding/json makes of texts it did not write is not modelled.
- Pull.PullRun.Classify: the fetch before it (batch since last_pull_sha, full batch or single reads) appears only as what it delivered.
- Pull.PullRun.Apply: paths that differ only by letter case are not modelled; all paths are distinct.
- Push.PushRun.BuildBatch: the filters and the named paths are the list of paths it is given.
- RepairPlan.Plan: a page counts as answered at HEAD when both a single read and PullPages answer so; which of the two is asked depends on how many pages the listing shows at their page_shas value.
- RepairPlan.Planner.Phase2: the paths beyond the budget are the last ones in the order given, which the source sorts.
- Hub.OpenHub.PutBasePage: timestamps in the index files are not modelled, nor the path rule, which every path is taken to satisfy.
- Resolve.ResolveTheirs: a save between its read of the working file and the overwrite is not modelled, see the assumptions.
- Resolve.BackupSurvivesIff: backup names are modelled as page and second.
- SyncSafety.NothingSavedIsLost: for pages that travel unchanged; the canonical form of the saved bytes is kept in the server's history, not their exact line endings.
- Briefs.OnlyShownVersionsAreSuperseded: assumes sound sidecars, which an interrupted repair can break; and the text of a brief is not modelled beyond the server version in it.
- Error values, warnings, JSON documents and exit codes of the engines, except where a failure changes what is written next.
- SectionEntries.OldSideIsRebuilt: the order among old sections of different headings is not in the changes.
- The YAML codec (its block is opaque, framed and free of CR), JSON decoding, sha-256, RFC 3339 times.
- The line-length limit of bufio.Scanner in the section parser, and float rounding in the body similarity (a parameter here).
- The distill guard, filters, status, show, the activity log, indexing, the HTTP layer, accounts, the updater and the UI.
- Windows file sharing, hard-link-free file systems, symlinks, servers without expect_absent or pages.at beyond their error answers.
