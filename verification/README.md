# Verified model of PiPulse's protocols

PiPulse watches a Raspberry Pi: it collects metrics into SQLite, raises alerts, sends notifications and runs its own
little certificate authority for HTTPS. This project models the parts of it that have to stay right over unbounded runs,
crashes and interleavings, and proves what they promise. `dafny verify dfyconfig.toml` checks everything.

## What is modelled

**The interprocess TLS lock** (`LockProtocol`, `LockSafety`, `LockTiming`, `LockProgress`, `LockAnyPace`). Any number of
processes with program counters over a shared folder; each filesystem call is a step, steps interleave freely, a process
may die between any two, and what it has read goes stale. The lock's comment promises that two holders never run at
once. That is not quite so: the age of an unreadable file decides whether a new lock may be moved away, so a process
that creates a lock or turn file and is then stopped for longer than `FRESH_MS` before writing it loses it, and one that
stalls as long between reading an unreadable copy and reading its age moves a lock that is alive. `TwoHolders` is such a
run; `ExclusionExactly` shows that exclusion holds over all runs if and only if those stalls are at most 5 s. Everywhere
else a process may stall for ever. Nor can the lock be lost for good: whatever died in the middle of breaking whatever,
a process that wants it while nobody else is in a call gets it by its own calls (`HadAtOnce`, `AlwaysToBeHad`), and from
anywhere in a call it comes to try again (`AlwaysTriesAgain`).

**A holder in another PID namespace** (`RemoteHolder`). A waiter that watches the heartbeat stand still takes no live
holder for gone, whatever the wall clock does, if and only if it cannot stall for more than 25 s within one look; and
`TakenExactly` says which looks take one for gone, so that a dead one always is in the end.

**The CA change journal** (`Journal`, `JournalSafety`). The folder is a disk state; every method asks the hook before
each filesystem step, and a crash is a budget of steps that runs out, also in the middle of a recursive removal. After
any number of crashes of a change and of its recoveries, a recovery that ends leaves exactly the old folder or exactly
the new one, and no CA is lost on the way. A change fails only if its staging throws, and is made if it may take 57
steps; a recovery ends if it may take 39.

**Rollups, pruning and charts** (`Totals`, `Rollup`, `RowMeaning`, `RollupSafety`, `RollupHistory`, `RollupTheorems`,
`DailyRows`, `RollupExactly`, `RollupTears`, `RollupWitness`, `Charts`, `ChartWitness`, `ChartHistory`). Tables are
maps, averages exact reals, a timezone a partition of time into days that may differ from run to run. Over any history
of inserts and runs, daily rows add up to the samples they cover, and with one timezone each describes the samples of
exactly its local day. Minute and hour rows are the exact aggregates of all samples ever inserted under one policy, but
not under changing ones: `LongerRetentionTears` is a history of two samples and two runs whose retention is lengthened
between them, after which an hour's row stands for half of its samples. `RollupsExactly` says of every history when rows
are exact, and `TornExactly` of every run what to look at before it: a level must have no rows at all, and its source
must begin in a closed bucket that has lost samples and that the policy keeps. A chart has no holes, but for one hour: a
chart answered in hours can miss the hour its cutoff falls into, although the code's comment promises it.
`ChartMissesHour` is such a chart, and `ChartsAreComplete` says exactly when the hour is missing. That is under one
policy; after a retention is lengthened, a chart can take a level for whole that an earlier run has cut
(`LongerRetentionMisses`), and `ChartsExactly` says of every history when a chart is whole.

**Migration 3** (`Migration`). The rebuild of daily rows from hours and minutes, row by row, and which rows it takes.

**Addresses, subnets, name constraints** (`Text`, `Addresses`, `AddressTexts`, `Subnets`, `Constraints`, `Issuing`,
`NewCa`). Parsers and printers character by character, masks on bit vectors, and the agreement of what a leaf may carry
with what the CA's certificate permits under section 4.2.1.10 of RFC 5280. One edge is not as promised: for a host name
of more than 247 characters `buildConstraints` makes constraints that `parseConstraints` refuses; `BuiltIsCanonical`
says exactly when, and `LongHostsDoNotReadBack` has a host of each such length. Two more are in what excluding
single-label names does: the CA of a host whose name ends in ".localhost" does not cover that host, nor that of one
called "local" its own `.local` name; `LeafOfItsHost` says so exactly.

**The notification outbox** (`Outbox`, `Notifications`, `NotifySense`, `NotifyTable`, `NotifyDelivery`, `NotifyTiming`,
`NotifyRestarts`, `NotifyDeaths`, `NotifyTold`, `NotifyProgress`, `Lanes`). The alert engine's checks, the enqueuer, one
delivery lane a webhook and the clock-jump repair as one machine. Queueing wakes the lanes at once, so clock reads,
prunes and the starts of deliveries happen inside a check too; a check is synchronous, so a delivery ends only between
checks. The process may die between any two statements, also between an alert's row and its notifications or between two
of those, and restarts with whatever webhooks it then has. Row ids are SQLite's, so they are reused once the newest row
is deleted. That makes one race: a clock jump too small to be followed can make the clear of an edited rule due in the
very check that queued it; a lane takes it up, the alert opens again and the clear is deleted while it is in flight, and
the next row, of another webhook perhaps, gets its id and then its outcome. `ReachesLanding` and `JumpsTheQueue` are
that run; with a jump of six hours in its last second, a row that was sent a second ago is given up for its age.
`InOrderExactly`, `GivenUpExactly` and `SettledExactly` show that order of delivery, giving up by true age and outcomes
that stay hold over all runs if and only if the clock gains less on such a clear, before a lane is woken in its check,
than the clear's delay of 30 s. What else is proved of the machine holds whatever the clocks do: who hears of what, that
a waiting row only ends by its own delivery, a raise that makes it needless or the removal of its webhook, and that no
row is stuck. That clears alternate with raises needs something else: `AlternateExactly` says that it holds if and only
if restarts leave the webhook's own entry as it is, and `DeathsExactly` if and only if no death falls between the row of
an alert and the webhook's raise of it.

**Alerts** (`Alerts`, `AlertHistory`). What a window summary decides, and how soon an alert can change.

**Rules against retention** (`Retention`, `Rules`, `Settings`). Four independent operations and the invariant they keep
together.

Code that only computes is functions and lemmas; code that works step by step is classes and methods with loops, each
proved against a function of the old state. The lock and the notification machine are state machines over values
instead, because what is proved of them is about interleavings of steps of many processes or lanes.

## Model

| member | source | states |
|---|---|---|
| LockSafety.LockExclusion | packages/tls/src/ca/lock.ts:480-563 | over every run of any number of processes, with deaths at any step, at most one live process is between taking and releasing the lock, if no live process stalls past the freshness bound between creating a file and writing it, or between reading a file and reading its age |
| LockSafety.HolderUndisturbed | packages/tls/src/ca/lock.ts:175-204 | no step of another process takes a live holder's lock file out of its place, renamed or removed |
| LockSafety.TurnExclusion | packages/tls/src/ca/lock.ts:279-337 | over every run, with stale listings, tidied turns and dead breakers, at most one live breaker holds a turn, and its number is the largest present |
| LockSafety.LargestTurnGrows | packages/tls/src/ca/lock.ts:263-274 | from any state of any run to any later one, the largest turn number in the folder never goes down, whatever is tidied, given up or left behind |
| LockSafety.NeverPutsBack | packages/tls/src/ca/lock.ts:196-200 | in no run does a live breaker find that it moved another inode than the one it compared: nothing is ever put back |
| LockSafety.LockStepKeeps | packages/tls/src/ca/lock.ts:480-536 | opening, writing, reading, ageing, judging and removing the lock keep the invariant |
| LockSafety.TurnStepKeeps | packages/tls/src/ca/lock.ts:217-337 | listing, judging, making, signing and tidying turns keep the invariant |
| LockSafety.BreakStepKeeps | packages/tls/src/ca/lock.ts:144-204 | linking, comparing, dating, moving and dropping the lock, and releasing the turn, keep the invariant |
| LockSafety.BeatKeeps | packages/tls/src/ca/lock.ts:102-112 | a heartbeat, which only touches a lock that carries the holder's own token, keeps the invariant |
| LockSafety.PlayKeeps | packages/tls/src/ca/lock.ts:404-563 | every run keeps the invariant, whoever acts, dies or stalls |
| LockProgress.HadAtOnce | packages/tls/src/ca/lock.ts:480-536 | after any run, a process that wants the lock while everybody else is dead or in no call gets it by its own calls alone, at once if no unreadable lock is younger than FRESH_MS and no unreadable newest turn younger than BREAK_MUTEX_STALE_MS; a lock that was in its way is gone then, with every scratch link and every turn but the newest, which is released |
| LockProgress.AlwaysToBeHad | packages/tls/src/ca/lock.ts:217-337 | and always once BREAK_MUTEX_STALE_MS have passed, whoever died in the middle of breaking what |
| LockProgress.AlwaysTriesAgain | packages/tls/src/ca/lock.ts:480-536 | after any run, wherever a process is in waiting or breaking, and whatever the others did meanwhile, its own calls bring it to where it tries for the lock again |
| LockProgress.AlwaysReleased | packages/tls/src/ca/lock.ts:555-562 | after any run, a holder's last three calls free the lock's name and touch nothing else |
| LockAnyPace.NeverReplaced | packages/tls/src/ca/lock.ts:480-491 | no step, however late, replaces one lock file by another at its name: it is free in between |
| LockAnyPace.PutsBack | packages/tls/src/ca/lock.ts:196-203 | a breaker that finds it moved another inode than the one it compared puts it back where the name is still free |
| LockAnyPace.RemovesWhatItRead | packages/tls/src/ca/lock.ts:558-562 | in any run, however slow, a process about to remove the lock has read its own token in it before |
| LockAnyPace.BeatsItsOwn | packages/tls/src/ca/lock.ts:96-112 | a heartbeat touches no file but a lock with the process's own token |
| LockAnyPace.BeatRenews | packages/tls/src/ca/lock.ts:544-551 | after any run, a holder's heartbeat renews the lock at its name, which is its own |
| LockTiming.TwoHolders | packages/tls/src/ca/lock.ts:144-158 | for any bound on stalls over 5 s there is a run with two live holders |
| LockTiming.ExclusionExactly | packages/tls/src/ca/lock.ts:160-174 | exclusion holds over all runs if and only if the stalls that matter are at most FRESH_MS |
| RemoteHolder.Watcher.HolderGone | packages/tls/src/ca/lock.ts:461-478 | one look at a remote holder: a heartbeat that is young enough, or whose mtime changed, restarts the watch; it is gone once the mtime stood still for LOCK_OBSERVE_MS |
| RemoteHolder.NeverTaken | packages/tls/src/ca/lock.ts:32-41 | with a new mtime at least once a heartbeat period, no sequence of looks, each within 25 s, takes the holder for gone, whatever age the wall clock gives the heartbeat |
| RemoteHolder.RemoteSafetyExactly | packages/tls/src/ca/lock.ts:439-478 | that holds for all holders and waiters if and only if a waiter cannot stall longer than 25 s within one look |
| RemoteHolder.TakenExactly | packages/tls/src/ca/lock.ts:461-478 | a holder is taken for gone if and only if its heartbeat was old, and the same, at every look since one that was noted LOCK_OBSERVE_MS before the last |
| Journal.BackupName | packages/tls/src/ca/layout.ts:251-261 | the first free second from now on: free, and every earlier one is taken |
| Journal.TlsFolder.WriteTxn | packages/tls/src/ca/journal.ts:93-99 | the journal is replaced whole or not at all, wherever the write stops |
| Journal.TlsFolder.Discard | packages/tls/src/ca/journal.ts:107-114 | throwing a change away restores the folder as it was; stopped half way, it leaves a state that recovery throws away too |
| Journal.TlsFolder.Advance | packages/tls/src/ca/journal.ts:122-128 | the journal never goes back to an earlier step |
| Journal.TlsFolder.MoveActive | packages/tls/src/ca/journal.ts:129-134 | the active CA becomes the backup, once, and only while a staged CA waits |
| Journal.TlsFolder.InstallCa | packages/tls/src/ca/journal.ts:135-141 | the staged CA becomes the active one, and the error that both exist is never reached |
| Journal.TlsFolder.Publish | packages/tls/src/ca/journal.ts:142-147 | from any mixture of moved and staged public files, all four end in place |
| Journal.TlsFolder.RemoveLeftovers | packages/tls/src/ca/journal.ts:148-152 | the restored backup and the stages go, from whatever a crash left of them |
| Journal.TlsFolder.Complete | packages/tls/src/ca/journal.ts:116-156 | from every state in which the change is to be finished, it ends finished, or stops in such a state again |
| Journal.TlsFolder.RunTransaction | packages/tls/src/ca/journal.ts:164-213 | done means the new folder, failed the old one, crashed a state from which recovery makes one of the two; without a journal it fails if and only if the staging throws, and crashes only if its steps run out within 57; a pending journal refuses it untouched |
| Journal.TlsFolder.RemoveStrayStages | packages/tls/src/ca/journal.ts:227-239 | only stage folders go, and all of them when it ends |
| Journal.TlsFolder.Recover | packages/tls/src/ca/journal.ts:242-259 | a recovery that ends leaves exactly the old folder or exactly the new one, by what the state says; one that crashes leaves the choice as it was, and only one that runs out of steps within 39 crashes |
| Journal.Fates | packages/tls/src/ca/journal.ts:251-258 | no state is both to be undone and to be finished, so the fate of a change is decided once |
| JournalSafety.CrashStorm | packages/tls/src/ca/journal.ts:164-259 | a change whose process dies anywhere, followed by any number of recoveries that die anywhere: the first that ends leaves all old or all new; all new if nothing throws and it may take 57 steps, and a recovery that may take 39 ends |
| JournalSafety.NoCaIsEverLost | packages/tls/src/ca/journal.ts:117-156 | in every mid-crash state the CA active at the start is whole in exactly one of its folder and its backup, other backups are untouched, a staged CA never meets an active one, and backup and restored names differ |
| JournalSafety.PublicInOrder | packages/tls/src/ca/journal.ts:45-46 | in every mid-crash state the new public files are in place up to some point of the install order, the serving bundle last |
| JournalSafety.RestoredCaIsWhole | packages/tls/src/ca/journal.ts:148-152 | a CA being restored is whole in its backup, in the stage or in its place, in every mid-crash state |
| JournalSafety.CasOutliveEveryChange | packages/tls/src/ca/journal.ts:158-163 | over any number of changes, made or undone, every CA that was ever whole stays whole somewhere |
| Totals.BucketsAddUp | packages/storage/src/rollup.ts:46-49 | rows that are their buckets' aggregates add up to the source over whole buckets |
| Totals.FixedGrids | packages/storage/src/rollup.ts:46-49 | the fixed minute and hour buckets partition time |
| Rollup.NewestBefore | packages/storage/src/rollup.ts:149-155 | the newest bucket before the end, exactly |
| Rollup.MetricsDb.RollUpDays | packages/storage/src/rollup.ts:105-134 | the loop cuts the range at local midnights and merges each piece into the row of its day |
| Rollup.MetricsDb.RunHousekeeping | packages/storage/src/rollup.ts:181-237 | one run: minutes, hours and days rolled up in that order, then each level pruned no further than the next covers it |
| RowMeaning.TotalDescribes | packages/storage/src/rollup.ts:73-90 | what an aggregate is of its samples: their number, their sum, and the least and greatest of them, or none if there are none |
| RowMeaning.RowDescribes | packages/storage/src/rollup.ts:73-90 | the row of a bucket with samples counts exactly those; its mean times their number is their sum, and its extremes are values that none of them is beyond |
| RollupSafety.GroupedIs | packages/storage/src/rollup.ts:77-88 | grouping makes one row for each bucket of the range that has samples, their exact aggregate, and no other |
| RollupSafety.RollLevelExact | packages/storage/src/rollup.ts:192-202 | after rolling a level up, every closed bucket that is not past its watermark has exactly its row, whether it is new, old or had been pruned |
| RollupHistory.RunIsHousekeeping | packages/storage/src/rollup.ts:181-237 | the histories reasoned about consist of exactly the inserts and runs that the database makes |
| RollupHistory.InsertKeeps | packages/storage/src/rollup.ts:166-180 | a sample no earlier than the last closed minute keeps every level exact |
| RollupHistory.FoldAddsUp | packages/storage/src/rollup.ts:105-134 | however a range is cut at midnights, daily rows grow by exactly its minutes |
| RollupHistory.RunDays | packages/storage/src/rollup.ts:142-148 | a daily run, in any timezone, keeps the account up to where it stopped, and reaches every minute that may be deleted |
| RollupHistory.PruneKeeps | packages/storage/src/rollup.ts:204-222 | deleting only what is covered keeps every level exact from its watermark on |
| RollupHistory.RunKeeps | packages/storage/src/rollup.ts:181-237 | a run under any policy and in any timezone keeps the whole invariant |
| RollupTheorems.DailyConservation | packages/storage/src/rollup.ts:99-134 | over any history, policies and timezones changing, all daily rows ever made add up per metric to exactly the samples before `until`, and no minute is deleted before it is folded |
| RollupTheorems.DailyRowsAddUp | packages/storage/src/rollup.ts:136-148 | with days kept for ever, the stored daily rows add up to exactly the samples before `until` |
| RollupTheorems.RollupsExact | packages/storage/src/rollup.ts:175-180 | while no cutoff moves back, every stored 1m and 1h row is the exact aggregate of all samples ever inserted in its bucket, even deleted ones: their number, mean, least and greatest value; and no kept closed bucket with samples misses its row |
| RollupTheorems.OnePolicyExact | packages/storage/src/rollup.ts:181-237 | that is so in one timezone under one policy, with runs in order of time |
| DailyRows.DailyRowsDescribe | packages/storage/src/rollup.ts:99-134 | in one timezone, whatever the policies, each stored daily row describes the samples of exactly its local day, even deleted ones; with days kept for ever, no sample before `until` lacks its day's row |
| RollupExactly.RunExactIff | packages/storage/src/rollup.ts:142-164 | a run under any policy leaves every 1m and 1h row exact if and only if it makes and keeps no row of a bucket some of whose samples its source holds and others it has lost |
| RollupExactly.RollupsExactly | packages/storage/src/rollup.ts:175-237 | over any history, policies and timezones changing, every row is exact at all times if and only if no run does so |
| RollupTears.PlayNoHoles | packages/storage/src/rollup.ts:149-164 | over any history, a stored level lacks no bucket with samples after its oldest row |
| RollupTears.TornExactly | packages/storage/src/rollup.ts:149-164 | after any history of exact rows, a run leaves one that is not exact if and only if a level has no rows, its oldest source row lies in a closed bucket that has lost samples, and the policy keeps that bucket |
| RollupTears.FilledLevelsStayExact | packages/storage/src/rollup.ts:142-164 | no change of policy or timezone harms levels that have rows |
| RollupWitness.LongerRetentionTears | packages/storage/src/rollup.ts:149-155 | samples at 23:00:01 and 23:30, a run at 00:05 that keeps all but days for an hour and one at 00:06 that keeps hours for a year: the row of 23:00 is made again, and stands for one of its two samples |
| Charts.OldestTs | packages/storage/src/rollup.ts:311-324 | the oldest timestamp stored at any level: one that is stored, and none is earlier |
| Charts.ChartsAreComplete | packages/storage/src/rollup.ts:326-353 | under one policy that keeps days for ever, an answer of raw or 1m means that every sample, or every closed minute's exact row, in the window is there; an answer of 1h that a closed hour with samples has its exact row if and only if it does not begin before the last run's cutoff, and only the hour the chart's cutoff falls into can; and no more than 1500 rows |
| Charts.FinestThatFits | packages/storage/src/rollup.ts:326-353 | the chart is answered in the finest of raw, 1m and 1h of which nothing in the window can have been deleted and at most 1500 rows are there, and in days if there is none |
| ChartWitness.ChartMissesHour | packages/storage/src/rollup.ts:326-353 | a sample at 10:30 and a run at 12:00 that keeps hours for an hour and three quarters: the chart from 10:00 on is answered in hours and misses that of 10:00 |
| ChartHistory.ChartsExactly | packages/storage/src/rollup.ts:326-353 | after any history of policies and timezones that keeps days for ever and rows exact, a chart of any retention is whole if and only if its level begins no later than what there is to see in the window; it is, unless an earlier run cut further than the chart's retention, or the chart is of hours and cuts one |
| ChartHistory.LongerRetentionMisses | packages/storage/src/rollup.ts:337-353 | a run that keeps raw samples for an hour, and a chart of two hours when they are kept for two: it is answered in raw samples that have been deleted |
| Migration.OldDb.Migrate | packages/storage/src/migrations.ts:59-135 | the migration's loop ends, and its tables are the kept days with the planned ranges folded in |
| Migration.MergesAlike | packages/storage/src/migrations.ts:116-132 | the statement over two ranges folds what one table of hours and then minutes would |
| Migration.EachDayGetsItsOwn | packages/storage/src/migrations.ts:128-133 | folding adds to each daily row exactly what lies in its local day, and nothing to any other |
| Migration.EachRowIntoItsDay | packages/storage/src/migrations.ts:96-134 | every hourly row of [start, min(hoursUntil, end)) and every minute row of [max(start, hoursUntil), end) is in exactly one daily row, that of its day |
| Migration.MigrationAddsUp | packages/storage/src/migrations.ts:116-134 | the daily rows add up to the kept ones and both ranges |
| Migration.NothingTwice | packages/storage/src/migrations.ts:96-107 | a folded hour ends before any folded minute begins, and a kept UTC day before either and before minute rows begin |
| Migration.EveryMinuteIsTaken | packages/storage/src/migrations.ts:96-115 | no minute row is left out but those of a local day that has not ended: each other is folded as itself, or, in the broken hour in which minute rows begin, through the hourly rows |
| Migration.EveryHourIsTaken | packages/storage/src/migrations.ts:96-115 | an hourly row is left out only if a kept day covers it or minute rows have begun before it ends |
| Text.SplitJoin | packages/tls/src/ca/constraints.ts:51-69 | splitting undoes joining |
| Text.JoinSplit | packages/tls/src/ca/constraints.ts:51-69 | joining undoes splitting |
| Text.NumeralReads | packages/tls/src/ca/constraints.ts:86-107 | a printed number reads back as itself, has no leading zero and no needless digit |
| Addresses.Parse6 | packages/tls/src/ca/constraints.ts:51-69 | the reader with its filled array agrees with the grammar: at most one "::" for one group or more, eight groups of one to four digits |
| Addresses.BestRun | packages/tls/src/ca/constraints.ts:93-103 | the loop finds the first longest run of zero groups |
| Addresses.FormatAddress | packages/tls/src/ca/constraints.ts:86-107 | the printer makes the canonical text, whose shortening is given by what RFC 5952 asks for, not by the loop |
| Addresses.AddressRoundTrip | packages/tls/src/ca/constraints.ts:51-107 | reading what is printed gives the address back, for every IPv4 and IPv6 address |
| AddressTexts.ReadsExactly | packages/tls/src/ca/constraints.ts:51-84 | a text is read as an IPv4 address if and only if it is its one dotted form, and as an IPv6 address if and only if it is eight groups of one to four hexadecimal digits, or fewer and one "::", of its words; in either case of letters, with white space around |
| Addresses.CompressesFirstLongest | packages/tls/src/ca/constraints.ts:86-107 | the IPv6 text leaves out exactly the first longest run of at least two zero groups, nothing else, and has no leading zeros (section 4 of RFC 5952) |
| Subnets.Masked | packages/tls/src/ca/constraints.ts:115-122 | the loop masks each byte by its share of the prefix |
| Subnets.ContainsIsBits | packages/tls/src/ca/constraints.ts:150-155 | a CIDR holds exactly the addresses of its family that agree with it in the first prefix bits |
| Subnets.OverlapIsSharing | packages/tls/src/ca/constraints.ts:157-157 | two CIDRs overlap if and only if they share an address |
| Subnets.CidrRoundTrip | packages/tls/src/ca/constraints.ts:127-148 | a network's text reads back as that network |
| Subnets.NetworksExactly | packages/tls/src/ca/constraints.ts:127-148 | a text is read as a network if and only if it is an address, a slash and the prefix in one to three digits, with no bits beyond it |
| Subnets.AcceptedSubnets | packages/tls/src/ca/constraints.ts:159-190 | a subnet is accepted if and only if it is a network, no broader than /16 or /48, without an address in common with any refused range |
| Constraints.CanonicalAgain | packages/tls/src/ca/constraints.ts:33-44 | canonical names are the fixed points of canonicalName |
| Constraints.NamesExactly | packages/tls/src/ca/constraints.ts:33-44 | a text of visible ASCII is read as a host name if and only if it is that name, in either case of letters, with at most one final dot and white space around |
| Constraints.ControlsRefused | packages/tls/src/ca/constraints.ts:33-44 | a text with white space or a control character inside is no host name, whatever domainToASCII makes of it |
| Constraints.NamesAreLabels | packages/tls/src/ca/constraints.ts:28-29 | a DNS name is one to 253 characters of labels joined by dots, as section 2.1 of RFC 1123 has them |
| Constraints.Netmask | packages/tls/src/ca/issue.ts:97-113 | the loop's netmask and its refusals, as a function of the prefix and the address's words |
| Constraints.WordsReread | packages/tls/src/ca/issue.ts:70-90 | the issuer's own reader gets back the words an address was printed from |
| Constraints.MixedReads | packages/tls/src/ca/issue.ts:70-90 | an IPv6 text with a dotted tail, with or without "::", reads as the words of its groups and then its four bytes |
| Constraints.RangeCertified | packages/tls/src/ca/issue.ts:92-113 | every network with a prefix becomes a constraint of its own bytes and mask, and none is refused |
| Constraints.SubtreeIsContains | packages/tls/src/inspect/x509-constraints.ts:150-156 | the certificate's range permits exactly the addresses of the network |
| Issuing.ConstraintsCertified | packages/tls/src/ca/issue.ts:115-134 | canonical constraints always make a certificate, with each name, exclusion and range as given |
| Issuing.NamesAgree | packages/tls/src/ca/constraints.ts:287-292 | a host name is covered if and only if the CA's certificate permits it |
| Issuing.AddressesAgree | packages/tls/src/ca/constraints.ts:294-304 | an address, however written, is covered if and only if the CA's certificate permits its bytes |
| Issuing.LeafNamesFor | packages/tls/src/ca/constraints.ts:425-476 | the leaf's names and addresses are exactly those its candidates name and the CA covers, each once, with loopback; the rest are reported |
| Issuing.LeafNamesAll | packages/tls/src/ca/constraints.ts:425-476 | of the host, its pair, localhost, the names asked for and the CA's own dotted ones, a leaf carries each that the CA's certificate permits, and no other |
| Issuing.LeafNamesOnly | packages/tls/src/ca/constraints.ts:425-476 | each name of a leaf is that of a text it was asked to carry |
| Issuing.LeafLocatesAll | packages/tls/src/ca/constraints.ts:425-476 | an interface address is in the leaf if and only if the CA's certificate permits it |
| Issuing.EveryLeafObeys | packages/tls/src/inspect/x509-constraints.ts:158-181 | no leaf violates the name constraints of its CA |
| NewCa.BuildConstraints | packages/tls/src/ca/constraints.ts:201-241 | the host, its pair, localhost and the accepted extras, the exclusions and the subnets, each once; refused exactly for a bad host, name or subnet |
| NewCa.ExtrasExactly | packages/tls/src/ca/constraints.ts:212-229 | an extra is accepted if and only if it is an address, a dotted host name, the host's own or localhost |
| NewCa.BuiltIsCanonical | packages/tls/src/ca/constraints.ts:230-239 | new constraints read back as canonical if and only if the host name has at most 247 characters, which leaves room for ".local" |
| NewCa.LongHostsDoNotReadBack | packages/tls/src/ca/constraints.ts:230-239 | for each length from 248 to 253 there is a host name whose new constraints do not read back |
| NewCa.NeverBelowSingleLabels | packages/tls/src/ca/constraints.ts:192-199 | a CA with exclusions covers no name below a single-label one, and otherwise only its own names and those below dotted ones |
| NewCa.LeafOfItsHost | packages/tls/src/ca/constraints.ts:201-241 | the leaf of a new CA for its own host names it, its `.local` pair, localhost and loopback, but with exclusions not a host below localhost nor the pair of one called "local", and never a pair that is too long |
| Outbox.RetryDelays | packages/notify/src/sender.ts:30-32 | delays start at 5 s, double, never shrink, and reach 5 min at the seventh attempt |
| Outbox.HeadOf | packages/notify/src/outbox.ts:49-56 | the pending row of the webhook with the smallest id |
| Outbox.NextId | packages/notify/src/outbox.ts:26-47 | a new row's id is larger than any in the table |
| Outbox.Notifier.ReadClock | packages/notify/src/sender.ts:138-162 | every read follows both clocks, and moves pending rows with a jump of a minute or more |
| Outbox.Notifier.QueueFor | packages/notify/src/enqueue.ts:30-48 | one row for each webhook that wants the event and is reached by its severity |
| Outbox.Notifier.EnqueueCleared | packages/notify/src/enqueue.ts:62-68 | removed rules are silent, changed ones wait 30 s |
| Outbox.Notifier.EnqueueRaised | packages/notify/src/enqueue.ts:69-79 | the clear of the alert that an edit closed is withdrawn where the new alert reaches; the same alert is not raised again |
| Outbox.Notifier.StartDelivery | packages/notify/src/sender.ts:46-62 | the oldest pending row if due; one that is due too far ahead is brought back to the longest delay |
| Outbox.Notifier.EndDelivery | packages/notify/src/sender.ts:65-83 | sent, given up by age as last shifted, or retried; an aborted attempt counts for nothing |
| Lanes.DeliveryLane.Looked | packages/notify/src/sender.ts:217-235 | the lane's value takes the step of a look that ended: another look exactly when a row was sent or a wake came, unless stopped |
| Lanes.DeliveryLane.Wake | packages/notify/src/sender.ts:236-244 | the lane's value takes the step of a wake: it starts a drain, or is remembered by the one under way |
| Lanes.NoWakeIsLost | packages/notify/src/sender.ts:217-247 | over any run, a wake since the last look began leads to another look, unless the sender stops |
| Lanes.DrainGoesOn | packages/notify/src/sender.ts:217-235 | after any run, at the end of a look another begins if and only if a row was sent or a wake came while it was under way |
| Notifications.QueueIs | packages/notify/src/enqueue.ts:30-48 | queueing leaves old rows as they are and tells each webhook that wants the event exactly once |
| NotifyTold.QueueTells | packages/notify/src/enqueue.ts:30-48 | after a queueing, a webhook whose events hold the event has exactly one new row, of this alert, if it is told of warnings or the alert is critical, and no other webhook has one |
| NotifyTold.ToldRightly | packages/notify/src/enqueue.ts:58-83 | after any run, closing, clearing or raising an alert tells exactly those webhooks of it, a changed rule's clear due 30 s later; nobody if its rule was removed, or if an edit closed the same alert with the same severity and message in this check; and a raise withdraws exactly the waiting clears of the alert an edit closed, of webhooks it reaches |
| NotifyTold.NoneWaitsForTheGone | packages/notify/src/outbox.ts:133-146 | in every run each waiting row is of a webhook that is configured now |
| NotifyTold.WhyItEnds | packages/notify/src/outbox.ts:58-109 | in every run a row stops waiting only by the end of its own delivery, by a raise that makes it needless, or by a restart without its webhook |
| NotifyTold.PrunesExactly | packages/notify/src/outbox.ts:148-158 | a pruning deletes exactly the rows sent or given up before its cutoff |
| NotifySense.RaiseSense | packages/notify/src/enqueue.ts:50-79 | after a raise, whether queued or swallowed with the clear before it, the next clear may follow |
| NotifySense.StepBase | packages/alerts/src/engine.ts:130-231 | every step, in a check or between checks, keeps the books of the machine: alerts' times, which an edit just closed, and that clears of this check are pending or withdrawn |
| NotifySense.ClearsAlternate | packages/notify/src/enqueue.ts:30-83 | over any run with increasing check times, deliveries that start inside checks, deaths between any two statements and restarts with other webhooks, what a webhook subscribed to both events and configured throughout is told of one rule and metric never has two clears without a raise between them, unless a death loses its row of a raise |
| NotifyRestarts.AlternateExactly | packages/notify/src/enqueue.ts:30-83 | that holds over all runs whose restarts choose between two configurations, in which the webhook has both events or no entry, if and only if both have its entry alike: taken out, or given another severity, it can miss a raise and hear of its clear |
| NotifyDeaths.DeathsExactly | packages/alerts/src/engine.ts:211-226 | with the same webhooks throughout, that holds over all runs, wherever the process dies, if and only if no death falls between writing an alert's row and queueing the webhook's raise of it; for every such place there is a run with two clears and no raise |
| NotifyTable.TrueAge | packages/notify/src/sender.ts:138-162 | in every run a pending row's wall-clock age is its monotonic age plus the jumps ignored since it was queued |
| NotifyTable.JumpsAreFollowed | packages/notify/src/sender.ts:138-162 | a jump of a minute or more, either way, moves what waits so that its age and the time to its next attempt follow the monotonic clock; a smaller one changes nothing |
| NotifyTable.NeverPendingAgain | packages/notify/src/outbox.ts:58-109 | in every run a row once sent or failed is never pending or withdrawn again, and one withdrawn is never anything else |
| NotifyDelivery.DeliveredInOrder | packages/notify/src/outbox.ts:49-56 | over any run in which the clock gains less than 30 s on an edit's clear before a wake of its check, once a row is sent, failed or being delivered, every older row of its webhook is sent, failed or withdrawn |
| NotifyDelivery.GivesUpByTrueAge | packages/notify/src/sender.ts:68-83 | in such runs a refused delivery is given up if and only if that makes six hours of true age, otherwise retried after its delay; and whichever row is given up has that age |
| NotifyDelivery.SettledForGood | packages/notify/src/outbox.ts:58-109 | from any point of such a run to any later one, a row sent, failed or withdrawn is never anything else |
| NotifyProgress.NothingIsStuck | packages/notify/src/sender.ts:46-66 | after any run, however far ahead rows are due, deliveries of a webhook that accepts them get any row that waits for it sent, within five minutes for each of its rows that waits no later |
| NotifyTiming.JumpsTheQueue | packages/notify/src/outbox.ts:58-76 | the end of a delivery whose row was deleted marks the row that got its id sent, which never was, before an older one of its webhook |
| NotifyTiming.InOrderExactly | packages/notify/src/sender.ts:46-62 | delivery is in order over all runs with a bound on what the clock gains if and only if the bound is at most CHANGED_CLEAR_DELAY_MS |
| NotifyTiming.GivenUpExactly | packages/notify/src/sender.ts:68-83 | no row is given up before six hours of true age over all such runs if and only if that is so: else the refusal of a deleted row's delivery, after the wall clock jumped, gives up the row that got its id, sent a second ago |
| NotifyTiming.CountedExactly | packages/notify/src/sender.ts:68-83 | each refusal is counted with its own row over all such runs if and only if that is so |
| NotifyTiming.SettledExactly | packages/notify/src/sender.ts:63-83 | outcomes stay as they are over all such runs if and only if that is so |
| Alerts.MaxGap | packages/alerts/src/store.ts:33-40 | the longest time between consecutive readings |
| Alerts.WithBits | packages/alerts/src/store.ts:34-39 | all, or none, of the readings have the bits, exactly when the count says so |
| Alerts.CoveredSpans | packages/alerts/src/evaluate.ts:62-76 | a covered summary means readings near both ends of the window, and after each but the last another within three polls |
| Alerts.SummaryDecides | packages/alerts/src/evaluate.ts:91-130 | with a positive window, raised if and only if readings span it and all breach, cleared if and only if they span it and none does |
| Alerts.SilenceDecides | packages/alerts/src/evaluate.ts:94-102 | a silence rule raises if and only if some believed reading exists, none is within the limit, and the limit has passed since counting began; it clears if and only if one is within; "auto" is the larger of five polls and two minutes |
| Alerts.InstantDecides | packages/alerts/src/evaluate.ts:104-110 | without a window, raised if and only if the newest believed reading is at most two polls old and breaches, with its value, and cleared if and only if it is and does not |
| Alerts.ValueIsNewest | packages/alerts/src/evaluate.ts:112-122 | the value of an alert with a window is that of the newest believed reading |
| AlertHistory.Engine.Check | packages/alerts/src/engine.ts:130-226 | one check of one rule and metric: the alert rows change by the decision, and silence counts afresh after a jump or a pause |
| AlertHistory.CheckMeans | packages/alerts/src/engine.ts:195-226 | a check writes an alert if and only if none is open and the readings say raise, and closes the open one if and only if they say clear, never before its raise |
| AlertHistory.AlertsAreSpaced | packages/alerts/src/evaluate.ts:85-90 | over any run of an unchanged threshold or bit rule with positive windows, a clear comes more than clearAfter less two polls after its raise, and the next raise more than `for` less two polls after that |
| Retention.OutOfOrder | packages/storage/src/retention.ts:68-79 | the first pair out of order, and none exactly when the levels are in order |
| Retention.ResolveLevels | packages/storage/src/retention.ts:97-146 | environment, saved, default, level by level; saved values out of order are ignored as a whole |
| Retention.ValidateRetention | packages/storage/src/retention.ts:153-193 | accepted if and only if every field reads, the levels are in order and raw serves the look-back; each unreadable field is reported |
| Retention.SaveThenResolve | packages/storage/src/retention.ts:195-212 | re-resolving after a save gives exactly the levels that were validated |
| Retention.ReadableExactly | packages/storage/src/retention.ts:153-182 | a proposal reads if and only if each field that changes is not set by the environment and is a duration |
| Retention.SavedAsProposed | packages/storage/src/retention.ts:195-212 | after a save each field that changes is what its text says, as saved, and the others are as they were |
| Rules.CheckExactly | packages/alerts/src/source.ts:146-161 | an entry is accepted if and only if it parses and disables a rule below it, is disabled, or can run and looks back within raw retention; else the answer says what is wrong |
| Rules.InForceExactly | packages/alerts/src/source.ts:165-259 | the rules in force are those below without an entry and what the last entry of each id says, if it can stand; the one below, within raw retention, if it cannot; no certificate rules with HTTPS off |
| Rules.Read | packages/alerts/src/source.ts:165-259 | the rules in force: for each id the saved rule if it can run, else the one below it if it fits |
| Rules.LongestLookBack | packages/api/src/settings-routes.ts:34-44 | a rule that looks back furthest, or none when none looks back |
| Settings.LongestServes | packages/api/src/settings-routes.ts:34-44 | raw retention is long enough for that rule if and only if it serves every rule in force |
| Settings.SettingsDb.WriteRule | packages/alerts/src/source.ts:266-281 | checked, then written in its place or at the end, within the limit |
| Settings.SettingsDb.CreateRule | packages/alerts/src/source.ts:288-298 | refused for an id that any layer uses |
| Settings.SettingsDb.RemoveRule | packages/alerts/src/source.ts:299-316 | refused when the rule below would not fit |
| Settings.SettingsDb.PutRetention | packages/api/src/settings-routes.ts:126-168 | stored if and only if it reads, is in order, serves every rule in force, and deletions are confirmed |
| Settings.SavesExactly | packages/alerts/src/source.ts:266-281 | a save is done if and only if the entry can stand and there are fewer than 200 or one with its id |
| Settings.CreatesExactly | packages/alerts/src/source.ts:288-298 | a creation is done if and only if no layer uses the id as well |
| Settings.RemovesExactly | packages/alerts/src/source.ts:299-316 | a removal is done if and only if there is an entry and the rule below looks back within raw retention |
| Settings.RulesStayServed | packages/alerts/src/source.ts:98-102 | from a start that passed its check, any sequence of accepted saves, creations, removals and retention saves keeps the levels in order and every rule in force within raw retention |
| Settings.PutResolves | packages/storage/src/retention.ts:195-212 | what is in force after a retention save is what was checked |
| Settings.PutKeepsInForce | packages/api/src/settings-routes.ts:14-24 | an accepted retention save puts no rule out of force |
| Settings.SaveTakesEffect | packages/alerts/src/source.ts:266-281 | a saved rule stands for its id from the next read on, and nothing else changes |
| Settings.RemoveRestores | packages/alerts/src/source.ts:299-316 | removing an entry puts the rule below back, and nothing else changes |
| Settings.ListStaysSmall | packages/alerts/src/source.ts:274-279 | the saved list never outgrows 200 entries nor gets two with one id |

## Left out

- LockSafety.LockExclusion: the four places where a file's age decides must not take a live process longer than 5 s; LockTiming.ExclusionExactly shows that the code needs this.
- LockSafety.TurnExclusion: writing a new turn file is taken to succeed; a failed write deletes the newest turn, which the argument does not cover.
- LockProgress.AlwaysToBeHad: with others in calls of their own, who gets the lock is left to the interleaving; the sleeps between tries and the bound on the wait are free choices of the model.
- DailyRows.DailyRowsDescribe: holds in one timezone; with changing ones a day's row can hold parts of another's, and RollupTheorems.DailyConservation says what stays.
- RollupTheorems.RollupsExact: samples arrive no earlier than the last closed minute, as in all results about rollups; that no cutoff moves back is sufficient, and RollupExactly.RollupsExactly has the exact condition.
- RollupExactly.RunExactIff: whether a bucket has lost samples is a fact of the history, which the tables alone do not show.
- NotifySense.ClearsAlternate: check times increase, restarts leave the webhook's own entry as it is, and no death loses its row of a raise; NotifyRestarts.AlternateExactly and NotifyDeaths.DeathsExactly show that the last two are needed.
- NotifyDelivery.DeliveredInOrder: holds under a bound on the clock, which NotifyTiming.InOrderExactly shows to be exact; the same of GivesUpByTrueAge and SettledForGood.
- AlertHistory.AlertsAreSpaced: stored readings are neither overwritten nor pruned within the rule's look-back, which the joint rule and retention invariant ensures.
- Notifier rows' payloads, last errors and the logging around them.
- breakLockByRename, the fallback for filesystems without hard links: it renames before it judges, and gives weaker guarantees by design.
- Lock holders on another boot, or whose pid cannot be verified: judged by age alone, so no exclusion can be promised.
- Directory listings are atomic, and the wall clock does not step back in the lock model; the remote holder model has an arbitrary wall clock.
- fsync, power loss, file modes and owners: crashes are process deaths between filesystem steps.
- A journal or folder that something else damaged: parse errors and errors of the filesystem itself stop with a message.
- The operator's own pruning of backups between changes.
- Rounding of averages, and samples without a value.
- The timezone database: a zone is any partition into days that start on whole minutes and last less than two days.
- Clock trust in housekeeping (believing a jump only after 15 min), vacuuming, and deleting alerts older than a year.
- Charts.ChartsAreComplete: the retention policy of the chart is that of the runs before it, and days are kept for ever; ChartHistory.ChartsExactly has any policies.
- domainToASCII, and which texts with zones the runtime takes for IPv6: parameters, for which everything holds whatever they answer. Lower case is that of A to Z.
- DER, X.509 and OpenSSL: a certificate is what its configuration lines say, its texts read as addresses.
- Default routes, interface lists, warnings and the text shown before a subnet is accepted.
- Silence judged from a rollup once every raw reading has been pruned: the latest reading is an input of the decision.
- Certificate alert rules and the listing and acknowledging of alerts: no window and no queue, so they would add easier members.
- Parsing of rules, durations and JSON: parameters with what is needed of them as assumptions (HostOk).
