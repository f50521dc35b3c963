# HTLC swap scheduler: a verified model of one tick

WeCross moves a cross-chain atomic swap, a pair of hashed-timelock contracts
(HTLC), toward one of two ends. Either both legs are unlocked with the secret,
or both are rolled back after their timelocks expire. `HTLCScheduler.start`
performs one *tick* for one pending swap task:

- two timelock guards decide whether each leg counts as rolled back;
- a bounded poll fetches the secret;
- the tick then locks the counterparty leg, unlocks, and verifies each receipt;
- after a failed verification it falls back to rolling back its own leg;
- it deletes the task once the swap is resolved.

This project models that tick in Dafny and proves its safety rules.

- `sentinels.dfy` (module `Sentinels`): the ledger adapter answers in text. An
  absent secret is the word `null`, and a verified receipt is the word `true`.
  Both are compared after `String.trim()` and ignoring letter case. The module
  models those checks and characterises them: the word, in any ASCII letter case,
  padded only by characters up to U+0020.
- `ledger.dfy` (module `Ledger`):
  - The external HTLC ledger adapter is the class `Htlc`. It holds the task's
    recorded flags and timelocks (`TaskState`), the poll answers that arrive
    before the poll's deadline (`secretFeed`) and a log of every call made to it
    (`calls`), reads included.
  - Answers the scheduler cannot predict are part of the ledger's state: lock and
    unlock receipts, verification verdicts, and secret poll answers.
  - `Filter` restricts a call log to the calls a predicate selects, in order.
- `scheduler.dfy` (module `Scheduler`): the reference functions define a tick as
  a value: `SelfGuard`, `CounterpartyGuard`, `PollSecret`, `AttemptUnlock`,
  `LockPhase`, `Advance`, `Decide` and `Tick`. Each yields the tick's result,
  every ledger call in order, the task state left behind and the unconsumed poll
  answers. The class `HtlcScheduler` runs the tick imperatively, one ledger call
  at a time, with the source's early returns and its polling loop. Each method is
  proved to extend the ledger's log and state exactly as its reference function
  says.
- `properties.dfy` (module `SchedulerProperties`): the decisions of a tick are
  named as predicates of the starting state, the two clock readings and the poll
  answers. `TickEffects` proves that, for every selection of state-changing
  calls, a tick makes exactly the calls `Effects` lists, in that order. The safety
  rules follow as corollaries:
  - rollback happens at most once and only on the self leg;
  - unlock happens only with a secret that is not `null`;
  - lock happens only when no lock is recorded;
  - deletion happens exactly when the tick resolves the task, and as its last
    call;
  - there are fallbacks after failed verifications;
  - recorded flags are never cleared.

Where the intended behaviour of the scheduler and its code differ, the model
follows the code:

- **Rollback after the counterparty unlocked.** The intended rule is that once
  the counterparty unlock is observed, no tick rolls back. In the code the self
  guard (line 28) runs before the unlock flags are read. It rolls the self leg
  back whenever its timelock has passed and no rollback is recorded.
  `SelfGuardRunsFirst` states this. `CounterpartyUnlockedWaits` proves the
  guarantee only for the part of the tick after the guards.
- **A lock can be issued again.** The intended rule is that a lock, once issued,
  is never repeated by a later tick. When the lock's verification fails while the
  counterparty leg is still live (lines 51-62), the tick returns without
  recording the lock. The next tick that gets a secret reads no recorded lock and
  calls `lock` again (line 48). `LockRetriedAfterFailedVerify` states this.
  `LockNotRepeated` proves the rule only for a verified lock.
- **A tick without a secret can still change something.** The intended rule is
  that a tick that finds no secret makes no state-changing call. The two guards
  run first, though. The self guard may roll back and the counterparty guard may
  record the counterparty rollback. `NullSecretDefers` proves that nothing else
  changes.
- **Both unlocks already recorded.** The intended rule resolves such a task
  outright. In the code the unlock flags are read only after the poll has
  yielded a secret (lines 35-38). A tick without a secret therefore leaves the
  task pending even when both unlocks are recorded.
- **Verification results.** The intended verifications yield a yes or no. In the
  code they return text, which counts as verified only when its trimmed form
  equals `true` ignoring case (lines 51 and 76). `Sentinels.TrueSentinelShape`
  characterises the accepted texts.

One tension lies within the intended behaviour itself, and the code follows its
step-by-step description. The summary rule says a task is resolved when both legs
rolled back or both are unlocked. The step-by-step description, like the code,
also resolves a task after a failed verification when the counterparty leg counts
as rolled back: it rolls back, then deletes the task. `Resolves` captures what
the code does.

## Model

| member | source | states |
|---|---|---|
| Sentinels.NullSentinelShape | src/main/java/com/webank/wecross/routine/htlc/HTLCScheduler.java:36 | an answer is the absent-secret sentinel iff it is `null` in any ASCII letter case padded only by characters up to U+0020 |
| Sentinels.TrueSentinelShape | src/main/java/com/webank/wecross/routine/htlc/HTLCScheduler.java:51 | a verification answer counts as verified iff it is `true` in any ASCII letter case padded only by characters up to U+0020 |
| Sentinels.SentinelsDisjoint | src/main/java/com/webank/wecross/routine/htlc/HTLCScheduler.java:76 | no answer is both the absent-secret sentinel and a verified verdict |
| Sentinels.NullLiteralIsNullSentinel | src/main/java/com/webank/wecross/routine/htlc/HTLCScheduler.java:116-117 | the value the poll starts from and falls back to is itself the absent-secret sentinel, and not a verified verdict |
| Sentinels.TrimIsInfix | src/main/java/com/webank/wecross/routine/htlc/HTLCScheduler.java:36 | `trim` keeps a contiguous infix, cuts only characters up to U+0020, and what it keeps neither starts nor ends with one |
| Sentinels.TrimStartIsSuffix | src/main/java/com/webank/wecross/routine/htlc/HTLCScheduler.java:36 | cutting leading trimmable characters keeps a suffix and stops at the first non-trimmable character |
| Sentinels.TrimEndIsPrefix | src/main/java/com/webank/wecross/routine/htlc/HTLCScheduler.java:36 | cutting trailing trimmable characters keeps a prefix and stops at the last non-trimmable character |
| Sentinels.EqualsIgnoreCaseAt | src/main/java/com/webank/wecross/routine/htlc/HTLCScheduler.java:36 | two texts are equal ignoring case iff they have the same length and agree at every position after folding |
| Sentinels.TrimmedMatchIsPaddedWord | src/main/java/com/webank/wecross/routine/htlc/HTLCScheduler.java:51 | for a word with non-trimmable ends, the trimmed text matches it ignoring case iff the text is the word padded only with trimmable characters |
| Sentinels.Trim | src/main/java/com/webank/wecross/routine/htlc/HTLCScheduler.java:36 | Java's `String.trim()`: cuts the characters up to U+0020 from the front, then from the back |
| Sentinels.EqualsIgnoreCase | src/main/java/com/webank/wecross/routine/htlc/HTLCScheduler.java:36 | `String.equalsIgnoreCase`, with folding limited to ASCII letters |
| Sentinels.IsNullSentinel | src/main/java/com/webank/wecross/routine/htlc/HTLCScheduler.java:36 | the absent-secret test: the trimmed answer equals `null` ignoring case |
| Sentinels.IsTrueSentinel | src/main/java/com/webank/wecross/routine/htlc/HTLCScheduler.java:51 | the verified test, used for both verifications (lines 51, 76): the trimmed answer equals `true` ignoring case |
| Scheduler.SelfGuard | src/main/java/com/webank/wecross/routine/htlc/HTLCScheduler.java:145-163 | the self guard as a value: one read if the rollback is recorded; otherwise the timelock read, plus the rollback once `now` reaches the timelock |
| Scheduler.CounterpartyGuard | src/main/java/com/webank/wecross/routine/htlc/HTLCScheduler.java:165-183 | the counterparty guard as a value: one read if recorded; otherwise the timelock read, plus recording the flag once `now` reaches the timelock |
| Scheduler.FirstSecret | src/main/java/com/webank/wecross/routine/htlc/HTLCScheduler.java:116-123 | the secret the poll yields: the first answer that is not the absent-secret sentinel, or `null` |
| Scheduler.PollCount | src/main/java/com/webank/wecross/routine/htlc/HTLCScheduler.java:117-122 | the number of answers the poll consumes, never more than arrived |
| Scheduler.PollSecret | src/main/java/com/webank/wecross/routine/htlc/HTLCScheduler.java:109-143 | the bounded poll as a value: `FirstSecret`, one `getSecret` per consumed answer, the rest left unconsumed |
| Scheduler.AttemptUnlock | src/main/java/com/webank/wecross/routine/htlc/HTLCScheduler.java:71-98 | unlock with the secret, verify, then fall back (roll back if the counterparty rolled back, else stop) or record the unlock |
| Scheduler.LockPhase | src/main/java/com/webank/wecross/routine/htlc/HTLCScheduler.java:45-98 | read the lock status; lock and verify unless recorded; fall back or record; then `AttemptUnlock` |
| Scheduler.Advance | src/main/java/com/webank/wecross/routine/htlc/HTLCScheduler.java:37-99 | read both unlock statuses; wait or resolve if the counterparty unlock is recorded, else `LockPhase` |
| Scheduler.Decide | src/main/java/com/webank/wecross/routine/htlc/HTLCScheduler.java:32-101 | resolved if both legs rolled back; else poll, stop without a secret, else `Advance` |
| Scheduler.Tick | src/main/java/com/webank/wecross/routine/htlc/HTLCScheduler.java:23-107 | one tick as a value: the two guards, `Decide`, and `deleteTask` when resolved |
| Scheduler.HtlcScheduler.Start | src/main/java/com/webank/wecross/routine/htlc/HTLCScheduler.java:23-107 | one tick appends to the ledger log exactly the calls of `Tick`, in order, and leaves the task state and the unconsumed poll answers as `Tick` says |
| Scheduler.HtlcScheduler.CheckSelfRollback | src/main/java/com/webank/wecross/routine/htlc/HTLCScheduler.java:145-163 | the self guard's result, calls and (unchanged) task state are those of `SelfGuard` |
| Scheduler.HtlcScheduler.CheckCounterpartyRollback | src/main/java/com/webank/wecross/routine/htlc/HTLCScheduler.java:165-183 | the counterparty guard's result, calls and recorded flag are those of `CounterpartyGuard` |
| Scheduler.HtlcScheduler.GetSecret | src/main/java/com/webank/wecross/routine/htlc/HTLCScheduler.java:109-143 | the polling loop returns the first answer that is not the sentinel, or the sentinel; it polls once per consumed answer and changes no task state |
| Scheduler.HtlcScheduler.Proceed | src/main/java/com/webank/wecross/routine/htlc/HTLCScheduler.java:37-100 | after the secret is known: the unlock-status reads, then waiting or the lock phase, with result, calls and state as `Advance` |
| Scheduler.HtlcScheduler.LockAndUnlock | src/main/java/com/webank/wecross/routine/htlc/HTLCScheduler.java:45-98 | the lock step with its early return and then the unlock attempt, with result, calls and state as `LockPhase` |
| Scheduler.HtlcScheduler.TryUnlock | src/main/java/com/webank/wecross/routine/htlc/HTLCScheduler.java:71-98 | the unlock, its verification and the fallback or record, with result, calls and state as `AttemptUnlock` |
| Scheduler.PollAdvance | src/main/java/com/webank/wecross/routine/htlc/HTLCScheduler.java:117-122 | one poll consumes one answer: the poll stops at a non-sentinel answer, or its outcome is that of the remaining answers |
| SchedulerProperties.FirstSecretSpec | src/main/java/com/webank/wecross/routine/htlc/HTLCScheduler.java:116-123 | no secret iff every answer is the sentinel, and then all answers are consumed; otherwise the secret is the first non-sentinel answer and the poll stops right after it |
| SchedulerProperties.SecretFromFeed | src/main/java/com/webank/wecross/routine/htlc/HTLCScheduler.java:117-123 | a secret the poll yields is one of the ledger's answers and is not the literal `null` |
| SchedulerProperties.PollsAreSecretReads | src/main/java/com/webank/wecross/routine/htlc/HTLCScheduler.java:117-118 | `n` polls are `n` calls, each a `getSecret` on the given resource |
| SchedulerProperties.PollsFilter | src/main/java/com/webank/wecross/routine/htlc/HTLCScheduler.java:118 | polling changes nothing on the ledger |
| SchedulerProperties.SelfGuardSpec | src/main/java/com/webank/wecross/routine/htlc/HTLCScheduler.java:145-163 | the self guard reports rolled back iff the rollback is recorded or the timelock passed; a recorded rollback means one read and nothing else; it changes exactly one thing, the self rollback, and only when the timelock passed and none is recorded |
| SchedulerProperties.CounterpartyGuardSpec | src/main/java/com/webank/wecross/routine/htlc/HTLCScheduler.java:165-183 | the counterparty guard reports rolled back iff recorded or the timelock passed, records the flag in the latter case only, and never calls `rollback` |
| SchedulerProperties.AttemptUnlockFilter | src/main/java/com/webank/wecross/routine/htlc/HTLCScheduler.java:72-97 | the unlock attempt changes exactly: the unlock, then the unlock record if verified, or the self rollback if not and the counterparty rolled back |
| SchedulerProperties.LockPhaseOutcome | src/main/java/com/webank/wecross/routine/htlc/HTLCScheduler.java:45-98 | the lock phase's result, and that it records the lock when it holds and the unlock when verified |
| SchedulerProperties.LockPhaseFilterRecorded | src/main/java/com/webank/wecross/routine/htlc/HTLCScheduler.java:45-47 | with a lock recorded, the lock phase changes only what the unlock attempt changes |
| SchedulerProperties.LockPhaseFilterLockFails | src/main/java/com/webank/wecross/routine/htlc/HTLCScheduler.java:47-63 | a failed lock verification skips the unlock: the lock, then the self rollback only if the counterparty rolled back |
| SchedulerProperties.LockPhaseFilterLockVerified | src/main/java/com/webank/wecross/routine/htlc/HTLCScheduler.java:64-73 | a verified lock is recorded and the unlock attempt follows in the same tick |
| SchedulerProperties.LockPhaseFilter | src/main/java/com/webank/wecross/routine/htlc/HTLCScheduler.java:45-98 | the lock phase changes exactly what `LockPhaseEffects` lists, in order |
| SchedulerProperties.DecideOutcome | src/main/java/com/webank/wecross/routine/htlc/HTLCScheduler.java:32-101 | after the guards: the result, the recorded lock and unlock, and which poll answers are consumed |
| SchedulerProperties.DecideFilter | src/main/java/com/webank/wecross/routine/htlc/HTLCScheduler.java:32-101 | after the guards, only the lock phase changes anything, and only when not both legs rolled back, a secret is known and no counterparty unlock is recorded |
| SchedulerProperties.TickResolves | src/main/java/com/webank/wecross/routine/htlc/HTLCScheduler.java:23-107 | a tick resolves the task exactly when `Resolves` holds, and consumes the poll's answers unless both legs rolled back |
| SchedulerProperties.TickRecords | src/main/java/com/webank/wecross/routine/htlc/HTLCScheduler.java:23-107 | a tick records the counterparty rollback, a verified lock, a verified unlock and the removal of a resolved task, and changes nothing else in the task's state |
| SchedulerProperties.TickEffects | src/main/java/com/webank/wecross/routine/htlc/HTLCScheduler.java:23-107 | for every selection of state-changing calls, a tick makes exactly those `Effects` lists, in order |
| SchedulerProperties.MutationsAfterGuards | src/main/java/com/webank/wecross/routine/htlc/HTLCScheduler.java:28-104 | everything a tick changes is what the guards change followed by what the lock phase and the deletion change |
| SchedulerProperties.AfterGuardsLockFails | src/main/java/com/webank/wecross/routine/htlc/HTLCScheduler.java:51-63 | after a failed lock verification only the lock, and the rollback and deletion when the counterparty rolled back, follow the guards |
| SchedulerProperties.AfterGuardsUnlockFails | src/main/java/com/webank/wecross/routine/htlc/HTLCScheduler.java:76-87 | after a failed unlock verification: the lock part, the unlock, and the rollback and deletion when the counterparty rolled back |
| SchedulerProperties.AfterGuardsUnlockVerified | src/main/java/com/webank/wecross/routine/htlc/HTLCScheduler.java:88-97 | after a verified unlock: the lock part, the unlock and its record, and the deletion iff the self unlock was recorded |
| SchedulerProperties.AfterGuardsCounterpartyUnlocked | src/main/java/com/webank/wecross/routine/htlc/HTLCScheduler.java:39-43 | with the counterparty unlock recorded, at most the deletion follows the guards |
| SchedulerProperties.BothRolledBackResolves | src/main/java/com/webank/wecross/routine/htlc/HTLCScheduler.java:28-33 | when both legs count as rolled back the tick resolves the task: its calls are the guards' and the deletion, with no poll, lock or unlock |
| SchedulerProperties.NullSecretDefers | src/main/java/com/webank/wecross/routine/htlc/HTLCScheduler.java:35-36 | without a secret the tick polls, leaves the task pending and changes nothing beyond the guards |
| SchedulerProperties.UnlockDiscipline | src/main/java/com/webank/wecross/routine/htlc/HTLCScheduler.java:71-73 | at most one unlock, exactly when the lock phase is reached and the lock holds, always with the polled secret |
| SchedulerProperties.UnlockOnlyWithSecret | src/main/java/com/webank/wecross/routine/htlc/HTLCScheduler.java:72-73 | every unlock carries a secret received from the ledger that is not the absent-secret sentinel |
| SchedulerProperties.LockDiscipline | src/main/java/com/webank/wecross/routine/htlc/HTLCScheduler.java:45-48 | at most one lock, only on the counterparty leg, exactly when the lock phase is reached with no lock recorded |
| SchedulerProperties.VerifiedLockThenUnlock | src/main/java/com/webank/wecross/routine/htlc/HTLCScheduler.java:64-73 | a verified lock is followed by its record and then the unlock, and the lock stays recorded |
| SchedulerProperties.LockStepEffects | src/main/java/com/webank/wecross/routine/htlc/HTLCScheduler.java:64-73 | with a verified lock, the lock steps of a tick are exactly lock, record, unlock |
| SchedulerProperties.CounterpartyUnlockedWaits | src/main/java/com/webank/wecross/routine/htlc/HTLCScheduler.java:37-43 | with the counterparty unlock recorded: no lock, no unlock, no rollback beyond the self guard's; resolved iff both legs rolled back or a secret is known and the self unlock is recorded |
| SchedulerProperties.LockFailureFallback | src/main/java/com/webank/wecross/routine/htlc/HTLCScheduler.java:51-63 | a failed lock verification skips the unlock; rollback and deletion happen iff the counterparty leg counts as rolled back, otherwise nothing more changes |
| SchedulerProperties.UnlockFailureFallback | src/main/java/com/webank/wecross/routine/htlc/HTLCScheduler.java:76-87 | a failed unlock verification leads to rollback and deletion iff the counterparty leg counts as rolled back, otherwise nothing more changes |
| SchedulerProperties.VerifiedUnlock | src/main/java/com/webank/wecross/routine/htlc/HTLCScheduler.java:88-97 | a verified unlock is recorded, no rollback follows, and the task is deleted iff the self unlock was recorded before |
| SchedulerProperties.DeleteOnlyWhenDone | src/main/java/com/webank/wecross/routine/htlc/HTLCScheduler.java:103-104 | the task is deleted at most once, exactly when the tick resolves it, and the deletion is the last call |
| SchedulerProperties.DeleteEffects | src/main/java/com/webank/wecross/routine/htlc/HTLCScheduler.java:103-104 | the only deletion `Effects` lists is the one of a resolved task |
| SchedulerProperties.RollbackOnlySelf | src/main/java/com/webank/wecross/routine/htlc/HTLCScheduler.java:52-55 | at most one rollback per tick, always on the self leg: the self guard's or the fallback's, never both |
| SchedulerProperties.RollbackEffects | src/main/java/com/webank/wecross/routine/htlc/HTLCScheduler.java:77-79 | the rollbacks `Effects` lists are the self guard's and the fallback's, which exclude each other |
| SchedulerProperties.SelfGuardRunsFirst | src/main/java/com/webank/wecross/routine/htlc/HTLCScheduler.java:28 | when the self timelock passed with no rollback recorded, the tick's first calls roll the self leg back, whatever the unlock flags say |
| SchedulerProperties.FlagsNeverCleared | src/main/java/com/webank/wecross/routine/htlc/HTLCScheduler.java:23-107 | a tick never clears a recorded rollback, lock or unlock flag and never recreates a deleted task |
| SchedulerProperties.LockNotRepeated | src/main/java/com/webank/wecross/routine/htlc/HTLCScheduler.java:45-48 | after a tick verifies a lock, the next tick issues no lock |
| SchedulerProperties.LockRetriedAfterFailedVerify | src/main/java/com/webank/wecross/routine/htlc/HTLCScheduler.java:45-62 | a lock whose verification fails with the counterparty leg live is not recorded, so the next tick with a secret locks again |
| SchedulerProperties.HonestPathResolvesOnSelfUnlock | src/main/java/com/webank/wecross/routine/htlc/HTLCScheduler.java:88-104 | with a secret, live timelocks and both verifications passing, a tick records the counterparty unlock, and the next tick with a secret and live timelocks resolves the task exactly when the self unlock was recorded before, a flag the first tick leaves as it was |

## Left out

- The secret poll's concurrency is not modelled: the executor, the 4000 ms
  `Future.get` timeout and the one-second sleep between polls (lines 112-138).
  - The answers that arrive before the deadline are the ledger's `secretFeed`.
  - The poll makes one `getSecret` call per answer it consumes. How many more
    calls it makes while waiting on a silent ledger depends on timing.
  - `shutdown()` at line 137 does not stop a poll still running after the
    timeout, so that poll may go on calling `getSecret`. The model ends the poll
    with the tick.
- The untrimmed comparisons at lines 119 and 139 only decide whether to sleep and
  whether to log. They are not modelled.
- `System.currentTimeMillis()` is not modelled. The two clock readings are the
  parameters `selfNow` and `counterpartyNow`, in seconds. Timelocks and readings
  are unbounded integers, as `BigInteger` is.
- Logger calls are not modelled; they only serve observability.
- `getTask` (lines 185-187) is not modelled: it only delegates to the ledger
  adapter.
- Exceptions are not modelled. The ledger adapter's exceptions propagate out of
  `start`; every adapter call here returns.
- Java `null` answers (which would fail in `trim()`) are not modelled; every
  answer is a string.
- Sentinels.EqualsIgnoreCase: folds ASCII letters only. Java's `equalsIgnoreCase`
  also folds non-ASCII letters.
- The effect of `rollback`, `lock` and `unlock` on the ledger's recorded flags is
  the ledger implementation's, which is not part of this model. These calls are
  only logged. Only the scheduler's own `set...Status` and `deleteTask` calls
  change the task's state.
- The task key `h` is implicit. The ledger model holds one task.
  `HTLCResource` is reduced to a path and the origin ledger handle used for
  verification.
- Concurrent ticks on the same task are not modelled. Keeping them apart is a
  duty of the caller.
- Scheduler.HtlcScheduler.Start: the body of `start` is split into `Proceed`,
  `LockAndUnlock` and `TryUnlock`. The early `return`s at lines 62 and 86 become
  the result `false`, which leads to no deletion, as the early return does.
- The self unlock flag is never set by the scheduler. After a verified unlock
  (lines 88-91) the task is resolved only once the self unlock is recorded
  (`HonestPathResolvesOnSelfUnlock`). Recording it is the ledger's or the other
  participant's business, which this model does not describe. So the model
  proves no liveness: it does not prove that repeated ticks on the honest path
  eventually resolve the task.
- SchedulerProperties.FlagsNeverCleared: its equalities for the self rollback and
  self unlock flags hold because the ledger model leaves those flags to
  `rollback` and `unlock`, whose effect is not modelled. The same holds for
  `TickRecords`.
