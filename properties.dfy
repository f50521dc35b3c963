/**
 * What one tick of the scheduler promises, stated against the decisions it takes
 * rather than the path it runs: which calls change something, in which order, what
 * the tick records and whether it resolves the task.
 */
module SchedulerProperties {
  import opened Sentinels
  import opened Ledger
  import opened Scheduler

  // The decisions of one tick, as functions of the state it starts from, the two
  // clock readings and the answers the secret poll receives.

  /** The self guard counts the self leg as rolled back. */
  predicate SelfExpired(now: int, st: TaskState) {
    st.selfRolledBack || now >= st.selfTimelock
  }

  /** The counterparty guard counts the counterparty leg as rolled back. */
  predicate CounterpartyExpired(now: int, st: TaskState) {
    st.counterpartyRolledBack || now >= st.counterpartyTimelock
  }

  predicate BothExpired(selfNow: int, counterpartyNow: int, st: TaskState) {
    SelfExpired(selfNow, st) && CounterpartyExpired(counterpartyNow, st)
  }

  /** The self guard issues a rollback: the timelock passed and no rollback is recorded. */
  predicate SelfGuardRollsBack(now: int, st: TaskState) {
    !st.selfRolledBack && now >= st.selfTimelock
  }

  /** The counterparty guard records the counterparty rollback. */
  predicate CounterpartyGuardRecords(now: int, st: TaskState) {
    !st.counterpartyRolledBack && now >= st.counterpartyTimelock
  }

  /** The poll yields a secret. */
  predicate SecretKnown(feed: seq<string>) {
    !IsNullSentinel(FirstSecret(feed))
  }

  /** The tick reads the counterparty lock status: a secret, and no counterparty unlock recorded. */
  predicate ReachesLockPhase(selfNow: int, counterpartyNow: int, st: TaskState, feed: seq<string>) {
    !BothExpired(selfNow, counterpartyNow, st) && SecretKnown(feed) && !st.counterpartyUnlocked
  }

  /** The counterparty leg is locked, as recorded or as this tick's lock verification says. */
  predicate LockHolds(st: TaskState) {
    st.counterpartyLocked || IsTrueSentinel(st.lockVerdict)
  }

  predicate LockAttempted(selfNow: int, counterpartyNow: int, st: TaskState, feed: seq<string>) {
    ReachesLockPhase(selfNow, counterpartyNow, st, feed) && !st.counterpartyLocked
  }

  predicate UnlockAttempted(selfNow: int, counterpartyNow: int, st: TaskState, feed: seq<string>) {
    ReachesLockPhase(selfNow, counterpartyNow, st, feed) && LockHolds(st)
  }

  predicate UnlockVerified(selfNow: int, counterpartyNow: int, st: TaskState, feed: seq<string>) {
    UnlockAttempted(selfNow, counterpartyNow, st, feed) && IsTrueSentinel(st.unlockVerdict)
  }

  /** A lock or unlock verification failed while the counterparty leg counts as rolled back. */
  predicate FallbackRollback(selfNow: int, counterpartyNow: int, st: TaskState, feed: seq<string>) {
    && ReachesLockPhase(selfNow, counterpartyNow, st, feed)
    && CounterpartyExpired(counterpartyNow, st)
    && !(LockHolds(st) && IsTrueSentinel(st.unlockVerdict))
  }

  /**
   * The tick resolves the task: both legs count as rolled back; or a secret is
   * known and either both unlocks are in (recorded, or the self unlock recorded and
   * the counterparty unlock verified now), or a verification failed with the
   * counterparty leg rolled back.
   */
  predicate Resolves(selfNow: int, counterpartyNow: int, st: TaskState, feed: seq<string>) {
    || BothExpired(selfNow, counterpartyNow, st)
    || (SecretKnown(feed) &&
        if st.counterpartyUnlocked || (LockHolds(st) && IsTrueSentinel(st.unlockVerdict)) then st.selfUnlocked
        else CounterpartyExpired(counterpartyNow, st))
  }

  /** `p` selects only calls that change something. */
  ghost predicate OnlyMutating(p: Call -> bool) {
    forall c :: p(c) ==> IsMutating(c)
  }

  /** The call `c`, if `cond` holds and `p` selects it. */
  function When(cond: bool, c: Call, p: Call -> bool): seq<Call> {
    if cond then Keep(c, p) else []
  }

  /**
   * Every call a tick makes that changes something, in order, restricted to those
   * `p` selects: the self guard's rollback, the counterparty guard's record, what
   * the lock phase changes when the tick reaches it, and the deletion.
   */
  function Effects(pair: ResourcePair, selfNow: int, counterpartyNow: int, st: TaskState, feed: seq<string>,
                   p: Call -> bool): seq<Call>
  {
    (When(SelfGuardRollsBack(selfNow, st), Rollback(pair.self), p)
     + When(CounterpartyGuardRecords(counterpartyNow, st), SetCounterpartyRollbackStatus(pair.self), p))
    + (if ReachesLockPhase(selfNow, counterpartyNow, st, feed)
       then LockPhaseEffects(pair, FirstSecret(feed), CounterpartyExpired(counterpartyNow, st), st, p)
       else [])
    + When(Resolves(selfNow, counterpartyNow, st, feed), DeleteTask(pair.self), p)
  }

  /**
   * What the lock phase changes, from its decisions: it locks the counterparty leg
   * exactly when no lock is recorded, and records a verified lock; it unlocks with
   * the secret exactly when the lock holds, after recording it; it records a
   * verified unlock; and after a failed verification it rolls the self leg back
   * exactly when the counterparty leg counts as rolled back.
   */
  function LockPhaseEffects(pair: ResourcePair, secret: string, counterpartyRolledBack: bool, st: TaskState,
                            p: Call -> bool): seq<Call>
  {
    var unlocked := LockHolds(st) && IsTrueSentinel(st.unlockVerdict);
    When(!st.counterpartyLocked, Lock(pair.counterparty), p)
    + When(!st.counterpartyLocked && IsTrueSentinel(st.lockVerdict), SetCounterpartyLockStatus(pair.self), p)
    + When(LockHolds(st), Unlock(pair.self, pair.counterparty, secret), p)
    + When(unlocked, SetCounterpartyUnlockStatus(pair.self), p)
    + When(!unlocked && counterpartyRolledBack, Rollback(pair.self), p)
  }

  // The secret poll.

  /**
   * The poll yields the sentinel exactly when every answer before the deadline is
   * the sentinel, and then it has consumed them all; otherwise it yields the first
   * answer that is not, and has consumed the answers up to it and no further.
   */
  lemma {:induction false} FirstSecretSpec(feed: seq<string>)
    ensures !SecretKnown(feed) <==> forall i | 0 <= i < |feed| :: IsNullSentinel(feed[i])
    ensures !SecretKnown(feed) ==> FirstSecret(feed) == "null" && PollCount(feed) == |feed|
    ensures SecretKnown(feed) ==>
      && 0 < PollCount(feed)
      && FirstSecret(feed) == feed[PollCount(feed) - 1]
      && forall i | 0 <= i < PollCount(feed) - 1 :: IsNullSentinel(feed[i])
  {
    if feed == [] {
      NullLiteralIsNullSentinel();
    } else if IsNullSentinel(feed[0]) {
      var rest := feed[1..];
      FirstSecretSpec(rest);
      assert forall i | 1 <= i < |feed| :: feed[i] == rest[i - 1];
      if !SecretKnown(feed) {
        assert forall i | 0 <= i < |feed| :: IsNullSentinel(feed[i]) by {
          forall i | 0 <= i < |feed|
            ensures IsNullSentinel(feed[i])
          {
            if i > 0 {
              assert IsNullSentinel(rest[i - 1]);
            }
          }
        }
      } else {
        assert !IsNullSentinel(rest[PollCount(rest) - 1]);
      }
    }
  }

  /** A secret the poll yields is one of the ledger's answers, and not the sentinel. */
  lemma SecretFromFeed(feed: seq<string>)
    requires SecretKnown(feed)
    ensures FirstSecret(feed) in feed && FirstSecret(feed) != "null"
  {
    FirstSecretSpec(feed);
    NullLiteralIsNullSentinel();
  }

  /** The poll makes nothing but `getSecret` calls, one per answer it consumes. */
  lemma {:induction false} PollsAreSecretReads(res: Resource, n: nat)
    ensures |Polls(res, n)| == n
    ensures forall c | c in Polls(res, n) :: c == GetSecret(res)
  {
    if n > 0 {
      PollsAreSecretReads(res, n - 1);
    }
  }

  /** The poll changes nothing. */
  lemma PollsFilter(res: Resource, n: nat, p: Call -> bool)
    requires OnlyMutating(p)
    ensures Filter(Polls(res, n), p) == []
  {
    PollsAreSecretReads(res, n);
    FilterNone(Polls(res, n), p);
  }

  // The two guards.

  /**
   * The self guard reports the self leg rolled back exactly when that is recorded or
   * its timelock has passed; a recorded rollback is answered by one read; and the
   * only change it makes is one rollback of `res`, exactly when the timelock has
   * passed and no rollback is recorded.
   */
  lemma SelfGuardSpec(res: Resource, now: int, st: TaskState, feed: seq<string>, p: Call -> bool)
    requires OnlyMutating(p)
    ensures var g := SelfGuard(res, now, st, feed);
      && (g.value <==> SelfExpired(now, st))
      && g.after == st && g.feed == feed
      && (st.selfRolledBack ==> g.calls == [GetSelfRollbackStatus(res)])
      && Filter(g.calls, p) == When(SelfGuardRollsBack(now, st), Rollback(res), p)
  {
    var read, timelock := GetSelfRollbackStatus(res), GetSelfTimelock(res);
    assert !p(read) && !p(timelock);
    if st.selfRolledBack {
      Filter1(read, p);
    } else if now >= st.selfTimelock {
      Filter3(read, timelock, Rollback(res), p);
    } else {
      Filter2(read, timelock, p);
    }
  }

  /**
   * The counterparty guard reports the counterparty leg rolled back exactly when
   * that is recorded or its timelock has passed, leaves that verdict recorded, and
   * never rolls anything back: the only change it makes is recording the rollback,
   * exactly when the timelock has passed and nothing was recorded.
   */
  lemma CounterpartyGuardSpec(res: Resource, now: int, st: TaskState, feed: seq<string>, p: Call -> bool)
    requires OnlyMutating(p)
    ensures var g := CounterpartyGuard(res, now, st, feed);
      && (g.value <==> CounterpartyExpired(now, st))
      && g.after == st.(counterpartyRolledBack := CounterpartyExpired(now, st)) && g.feed == feed
      && (st.counterpartyRolledBack ==> g.calls == [GetCounterpartyRollbackStatus(res)])
      && Filter(g.calls, p) == When(CounterpartyGuardRecords(now, st), SetCounterpartyRollbackStatus(res), p)
      && Rollback(res) !in g.calls
  {
    var read, timelock := GetCounterpartyRollbackStatus(res), GetCounterpartyTimelock(res);
    assert !p(read) && !p(timelock);
    if st.counterpartyRolledBack {
      Filter1(read, p);
    } else if now >= st.counterpartyTimelock {
      Filter3(read, timelock, SetCounterpartyRollbackStatus(res), p);
    } else {
      Filter2(read, timelock, p);
    }
  }

  // The stages of a tick after the guards.

  /**
   * The unlock attempt unlocks with the given secret, then records the counterparty
   * unlock if the receipt is verified, and otherwise rolls the self leg back exactly
   * when the counterparty leg counts as rolled back.
   */
  lemma AttemptUnlockFilter(pair: ResourcePair, secret: string, counterpartyRolledBack: bool, selfUnlocked: bool,
                            st: TaskState, feed: seq<string>, p: Call -> bool)
    requires OnlyMutating(p)
    ensures var ok := IsTrueSentinel(st.unlockVerdict);
      Filter(AttemptUnlock(pair, secret, counterpartyRolledBack, selfUnlocked, st, feed).calls, p) ==
        Keep(Unlock(pair.self, pair.counterparty, secret), p)
        + When(ok, SetCounterpartyUnlockStatus(pair.self), p)
        + When(!ok && counterpartyRolledBack, Rollback(pair.self), p)
  {
    var self := pair.self;
    var unlock, verify := Unlock(self, pair.counterparty, secret), VerifyUnlock(self.origin, st.unlockReceipt);
    assert !p(verify);
    if !IsTrueSentinel(st.unlockVerdict) {
      if counterpartyRolledBack {
        assert [unlock, verify] + [Rollback(self)] == [unlock, verify, Rollback(self)];
        Filter3(unlock, verify, Rollback(self), p);
      } else {
        Filter2(unlock, verify, p);
      }
    } else {
      assert [unlock, verify] + [SetCounterpartyUnlockStatus(self)] == [unlock, verify, SetCounterpartyUnlockStatus(self)];
      Filter3(unlock, verify, SetCounterpartyUnlockStatus(self), p);
    }
  }

  /**
   * The lock phase resolves the task, when the unlock is verified, exactly when the
   * self unlock was already recorded, and otherwise exactly when the counterparty
   * leg counts as rolled back; it records the lock when it holds and the
   * counterparty unlock when it is verified.
   */
  lemma LockPhaseOutcome(pair: ResourcePair, secret: string, counterpartyRolledBack: bool, selfUnlocked: bool,
                         st: TaskState, feed: seq<string>)
    ensures var l := LockPhase(pair, secret, counterpartyRolledBack, selfUnlocked, st, feed);
      var unlocked := LockHolds(st) && IsTrueSentinel(st.unlockVerdict);
      && l.value == (if unlocked then selfUnlocked else counterpartyRolledBack)
      && l.after == st.(counterpartyLocked := LockHolds(st), counterpartyUnlocked := st.counterpartyUnlocked || unlocked)
      && l.feed == feed
  {
    if !st.counterpartyLocked && IsTrueSentinel(st.lockVerdict) {
      var u := AttemptUnlock(pair, secret, counterpartyRolledBack, selfUnlocked, st.(counterpartyLocked := true), feed);
      assert u.after.counterpartyLocked;
    }
  }

  lemma LockPhaseFilterRecorded(pair: ResourcePair, secret: string, counterpartyRolledBack: bool, selfUnlocked: bool,
                                st: TaskState, feed: seq<string>, p: Call -> bool)
    requires OnlyMutating(p) && st.counterpartyLocked
    ensures Filter(LockPhase(pair, secret, counterpartyRolledBack, selfUnlocked, st, feed).calls, p)
         == LockPhaseEffects(pair, secret, counterpartyRolledBack, st, p)
  {
    var status := GetCounterpartyLockStatus(pair.self);
    assert !p(status);
    Filter1(status, p);
    var u := AttemptUnlock(pair, secret, counterpartyRolledBack, selfUnlocked, st, feed);
    assert LockPhase(pair, secret, counterpartyRolledBack, selfUnlocked, st, feed).calls == [status] + u.calls;
    AttemptUnlockFilter(pair, secret, counterpartyRolledBack, selfUnlocked, st, feed, p);
    FilterAppend([status], u.calls, p);
  }

  lemma LockPhaseFilterLockFails(pair: ResourcePair, secret: string, counterpartyRolledBack: bool, selfUnlocked: bool,
                                 st: TaskState, feed: seq<string>, p: Call -> bool)
    requires OnlyMutating(p) && !st.counterpartyLocked && !IsTrueSentinel(st.lockVerdict)
    ensures Filter(LockPhase(pair, secret, counterpartyRolledBack, selfUnlocked, st, feed).calls, p)
         == LockPhaseEffects(pair, secret, counterpartyRolledBack, st, p)
  {
    var self := pair.self;
    var status, lock, verify := GetCounterpartyLockStatus(self), Lock(pair.counterparty), VerifyLock(self.origin, st.lockReceipt);
    assert !p(status) && !p(verify);
    var locking := [status, lock, verify];
    Filter3(status, lock, verify, p);
    if counterpartyRolledBack {
      FilterAppend(locking, [Rollback(self)], p);
      Filter1(Rollback(self), p);
    }
  }

  lemma LockPhaseFilterLockVerified(pair: ResourcePair, secret: string, counterpartyRolledBack: bool, selfUnlocked: bool,
                                    st: TaskState, feed: seq<string>, p: Call -> bool)
    requires OnlyMutating(p) && !st.counterpartyLocked && IsTrueSentinel(st.lockVerdict)
    ensures Filter(LockPhase(pair, secret, counterpartyRolledBack, selfUnlocked, st, feed).calls, p)
         == LockPhaseEffects(pair, secret, counterpartyRolledBack, st, p)
  {
    var self := pair.self;
    var status, lock, verify := GetCounterpartyLockStatus(self), Lock(pair.counterparty), VerifyLock(self.origin, st.lockReceipt);
    assert !p(status) && !p(verify);
    var locking := [status, lock, verify];
    Filter3(status, lock, verify, p);
    assert Filter(locking, p) == Keep(lock, p);
    var record := SetCounterpartyLockStatus(self);
    var locked := st.(counterpartyLocked := true);
    var u := AttemptUnlock(pair, secret, counterpartyRolledBack, selfUnlocked, locked, feed);
    var calls := LockPhase(pair, secret, counterpartyRolledBack, selfUnlocked, st, feed).calls;
    assert calls == locking + [record] + u.calls;
    var ok := IsTrueSentinel(st.unlockVerdict);
    var lr := Keep(lock, p) + Keep(record, p);
    var w3 := Keep(Unlock(self, pair.counterparty, secret), p);
    var w4 := When(ok, SetCounterpartyUnlockStatus(self), p);
    var w5 := When(!ok && counterpartyRolledBack, Rollback(self), p);
    FilterAppend(locking, [record], p);
    Filter1(record, p);
    assert Filter(locking + [record], p) == lr;
    AttemptUnlockFilter(pair, secret, counterpartyRolledBack, selfUnlocked, locked, feed, p);
    assert Filter(u.calls, p) == w3 + w4 + w5;
    FilterAppend(locking + [record], u.calls, p);
    assert Filter(calls, p) == lr + (w3 + w4 + w5);
    assert LockPhaseEffects(pair, secret, counterpartyRolledBack, st, p) == lr + w3 + w4 + w5;
    AppendAssoc(lr, w3 + w4, w5);
    AppendAssoc(lr, w3, w4);
  }

  /** The lock phase changes exactly what `LockPhaseEffects` lists. */
  lemma LockPhaseFilter(pair: ResourcePair, secret: string, counterpartyRolledBack: bool, selfUnlocked: bool,
                        st: TaskState, feed: seq<string>, p: Call -> bool)
    requires OnlyMutating(p)
    ensures Filter(LockPhase(pair, secret, counterpartyRolledBack, selfUnlocked, st, feed).calls, p)
         == LockPhaseEffects(pair, secret, counterpartyRolledBack, st, p)
  {
    if st.counterpartyLocked {
      LockPhaseFilterRecorded(pair, secret, counterpartyRolledBack, selfUnlocked, st, feed, p);
    } else if !IsTrueSentinel(st.lockVerdict) {
      LockPhaseFilterLockFails(pair, secret, counterpartyRolledBack, selfUnlocked, st, feed, p);
    } else {
      LockPhaseFilterLockVerified(pair, secret, counterpartyRolledBack, selfUnlocked, st, feed, p);
    }
  }

  /**
   * The part of a tick between the guards: with both legs rolled back it resolves
   * the task and consumes no answer; otherwise it consumes the poll's answers, and
   * with a secret it resolves the task as the lock phase does, or, when the
   * counterparty unlock is recorded, exactly when the self unlock is recorded too.
   */
  lemma DecideOutcome(pair: ResourcePair, selfRolledBack: bool, counterpartyRolledBack: bool,
                      st: TaskState, feed: seq<string>)
    ensures var d := Decide(pair, selfRolledBack, counterpartyRolledBack, st, feed);
      var go := !(selfRolledBack && counterpartyRolledBack) && SecretKnown(feed) && !st.counterpartyUnlocked;
      var unlocked := LockHolds(st) && IsTrueSentinel(st.unlockVerdict);
      && d.value == (
           || (selfRolledBack && counterpartyRolledBack)
           || (SecretKnown(feed) &&
               if st.counterpartyUnlocked || unlocked then st.selfUnlocked else counterpartyRolledBack))
      && d.after == (if go then st.(counterpartyLocked := LockHolds(st), counterpartyUnlocked := unlocked) else st)
      && d.feed == (if selfRolledBack && counterpartyRolledBack then feed else feed[PollCount(feed)..])
  {
    if !(selfRolledBack && counterpartyRolledBack) && SecretKnown(feed) && !st.counterpartyUnlocked {
      LockPhaseOutcome(pair, FirstSecret(feed), counterpartyRolledBack, st.selfUnlocked, st, feed[PollCount(feed)..]);
    }
  }

  /**
   * Between the guards a tick changes nothing unless both legs are live, a secret is
   * known and no counterparty unlock is recorded; then it changes what the lock
   * phase changes, unlocking with the polled secret.
   */
  lemma DecideFilter(pair: ResourcePair, selfRolledBack: bool, counterpartyRolledBack: bool,
                     st: TaskState, feed: seq<string>, p: Call -> bool)
    requires OnlyMutating(p)
    ensures var go := !(selfRolledBack && counterpartyRolledBack) && SecretKnown(feed) && !st.counterpartyUnlocked;
      Filter(Decide(pair, selfRolledBack, counterpartyRolledBack, st, feed).calls, p)
        == if go then LockPhaseEffects(pair, FirstSecret(feed), counterpartyRolledBack, st, p) else []
  {
    var d := Decide(pair, selfRolledBack, counterpartyRolledBack, st, feed);
    if !(selfRolledBack && counterpartyRolledBack) {
      var self := pair.self;
      var poll := PollSecret(self, st, feed);
      PollsFilter(self, PollCount(feed), p);
      if SecretKnown(feed) {
        var a := Advance(pair, poll.value, counterpartyRolledBack, st, poll.feed);
        assert d.calls == poll.calls + a.calls;
        var unlockReads := [GetCounterpartyUnlockStatus(self), GetSelfUnlockStatus(self)];
        assert !p(unlockReads[0]) && !p(unlockReads[1]);
        Filter2(unlockReads[0], unlockReads[1], p);
        FilterAppend(poll.calls, a.calls, p);
        if !st.counterpartyUnlocked {
          var l := LockPhase(pair, poll.value, counterpartyRolledBack, st.selfUnlocked, st, poll.feed);
          assert a.calls == unlockReads + l.calls;
          LockPhaseFilter(pair, poll.value, counterpartyRolledBack, st.selfUnlocked, st, poll.feed, p);
          FilterAppend(unlockReads, l.calls, p);
        } else {
          assert a.calls == unlockReads;
        }
      }
    }
  }

  // One tick.

  /**
   * A tick reports and records the decision taken on what its two guards report,
   * and removes the task when that decision resolves it.
   */
  lemma TickDecide(pair: ResourcePair, selfNow: int, counterpartyNow: int, st: TaskState, feed: seq<string>)
    ensures var o := Tick(pair, selfNow, counterpartyNow, st, feed);
      var st2 := st.(counterpartyRolledBack := CounterpartyExpired(counterpartyNow, st));
      var d := Decide(pair, SelfExpired(selfNow, st), CounterpartyExpired(counterpartyNow, st), st2, feed);
      && o.value == d.value
      && o.after == (if d.value then d.after.(taskExists := false) else d.after)
      && o.feed == d.feed
  {
    var g1 := SelfGuard(pair.self, selfNow, st, feed);
    var g2 := CounterpartyGuard(pair.self, counterpartyNow, st, feed);
    assert g1.value == SelfExpired(selfNow, st) && g1.after == st;
    assert g2.value == CounterpartyExpired(counterpartyNow, st)
        && g2.after == st.(counterpartyRolledBack := CounterpartyExpired(counterpartyNow, st));
  }

  /**
   * The calls of a tick: its two guards', the decision's, and the deletion when
   * that decision resolves the task.
   */
  lemma TickCalls(pair: ResourcePair, selfNow: int, counterpartyNow: int, st: TaskState, feed: seq<string>)
    ensures var o := Tick(pair, selfNow, counterpartyNow, st, feed);
      var st2 := st.(counterpartyRolledBack := CounterpartyExpired(counterpartyNow, st));
      var d := Decide(pair, SelfExpired(selfNow, st), CounterpartyExpired(counterpartyNow, st), st2, feed);
      o.calls == SelfGuard(pair.self, selfNow, st, feed).calls
                 + CounterpartyGuard(pair.self, counterpartyNow, st, feed).calls
                 + d.calls + (if d.value then [DeleteTask(pair.self)] else [])
  {
    var g1 := SelfGuard(pair.self, selfNow, st, feed);
    var g2 := CounterpartyGuard(pair.self, counterpartyNow, st, feed);
    assert g1.value == SelfExpired(selfNow, st) && g1.after == st;
    assert g2.value == CounterpartyExpired(counterpartyNow, st)
        && g2.after == st.(counterpartyRolledBack := CounterpartyExpired(counterpartyNow, st));
    var d := Decide(pair, g1.value, g2.value, g2.after, feed);
    if !d.value {
      assert g1.calls + g2.calls + d.calls + [] == g1.calls + g2.calls + d.calls;
    }
  }

  /**
   * A tick resolves the task exactly as `Resolves` says, and consumes the poll's
   * answers unless both legs count as rolled back.
   */
  lemma TickResolves(pair: ResourcePair, selfNow: int, counterpartyNow: int, st: TaskState, feed: seq<string>)
    ensures var o := Tick(pair, selfNow, counterpartyNow, st, feed);
      && o.value == Resolves(selfNow, counterpartyNow, st, feed)
      && o.feed == (if BothExpired(selfNow, counterpartyNow, st) then feed else feed[PollCount(feed)..])
  {
    var st2 := st.(counterpartyRolledBack := CounterpartyExpired(counterpartyNow, st));
    TickDecide(pair, selfNow, counterpartyNow, st, feed);
    DecideOutcome(pair, SelfExpired(selfNow, st), CounterpartyExpired(counterpartyNow, st), st2, feed);
    assert LockHolds(st2) == LockHolds(st);
  }

  /**
   * What a tick records: the counterparty rollback when that leg counts as rolled
   * back, a verified lock, a verified unlock, and the removal of a resolved task;
   * nothing else in the task's state changes. The self rollback and self unlock
   * flags stay as they were because what `rollback` and `unlock` do to the ledger's
   * records is the ledger's business, which this model does not describe.
   */
  lemma TickRecords(pair: ResourcePair, selfNow: int, counterpartyNow: int, st: TaskState, feed: seq<string>)
    ensures Tick(pair, selfNow, counterpartyNow, st, feed).after == st.(
           counterpartyRolledBack := CounterpartyExpired(counterpartyNow, st),
           counterpartyLocked := st.counterpartyLocked
             || (LockAttempted(selfNow, counterpartyNow, st, feed) && IsTrueSentinel(st.lockVerdict)),
           counterpartyUnlocked := st.counterpartyUnlocked || UnlockVerified(selfNow, counterpartyNow, st, feed),
           taskExists := st.taskExists && !Resolves(selfNow, counterpartyNow, st, feed))
  {
    var o := Tick(pair, selfNow, counterpartyNow, st, feed);
    var st2 := st.(counterpartyRolledBack := CounterpartyExpired(counterpartyNow, st));
    var d := Decide(pair, SelfExpired(selfNow, st), CounterpartyExpired(counterpartyNow, st), st2, feed);
    TickResolves(pair, selfNow, counterpartyNow, st, feed);
    TickDecide(pair, selfNow, counterpartyNow, st, feed);
    DecideOutcome(pair, SelfExpired(selfNow, st), CounterpartyExpired(counterpartyNow, st), st2, feed);
    var locked := st.counterpartyLocked
      || (LockAttempted(selfNow, counterpartyNow, st, feed) && IsTrueSentinel(st.lockVerdict));
    var unlocked := st.counterpartyUnlocked || UnlockVerified(selfNow, counterpartyNow, st, feed);
    if ReachesLockPhase(selfNow, counterpartyNow, st, feed) {
      assert LockHolds(st2) == LockHolds(st);
      assert locked == LockHolds(st) && unlocked == UnlockVerified(selfNow, counterpartyNow, st, feed);
      assert d.after == st2.(counterpartyLocked := locked, counterpartyUnlocked := unlocked);
    } else {
      assert locked == st.counterpartyLocked && unlocked == st.counterpartyUnlocked;
      assert d.after == st2.(counterpartyLocked := locked, counterpartyUnlocked := unlocked);
    }
  }

  /**
   * The calls a tick makes that change something are, in order, exactly those
   * `Effects` lists, for every selection `p` of such calls.
   */
  lemma TickEffects(pair: ResourcePair, selfNow: int, counterpartyNow: int, st: TaskState, feed: seq<string>,
                    p: Call -> bool)
    requires OnlyMutating(p)
    ensures Filter(Tick(pair, selfNow, counterpartyNow, st, feed).calls, p)
         == Effects(pair, selfNow, counterpartyNow, st, feed, p)
  {
    var self := pair.self;
    var g1c := SelfGuard(self, selfNow, st, feed).calls;
    var g2c := CounterpartyGuard(self, counterpartyNow, st, feed).calls;
    var st2 := st.(counterpartyRolledBack := CounterpartyExpired(counterpartyNow, st));
    var d := Decide(pair, SelfExpired(selfNow, st), CounterpartyExpired(counterpartyNow, st), st2, feed);
    TickCalls(pair, selfNow, counterpartyNow, st, feed);
    TickDecide(pair, selfNow, counterpartyNow, st, feed);
    TickResolves(pair, selfNow, counterpartyNow, st, feed);
    FilterConcluded(g1c, g2c, d.calls, d.value, self, p);
    SelfGuardSpec(self, selfNow, st, feed, p);
    CounterpartyGuardSpec(self, counterpartyNow, st, feed, p);
    DecideFilter(pair, SelfExpired(selfNow, st), CounterpartyExpired(counterpartyNow, st), st2, feed, p);
    assert LockHolds(st2) == LockHolds(st);
  }

  /** Filtering the log of a tick, piece by piece. */
  lemma FilterConcluded(g1: seq<Call>, g2: seq<Call>, d: seq<Call>, delete: bool, self: Resource, p: Call -> bool)
    ensures Filter(g1 + g2 + d + (if delete then [DeleteTask(self)] else []), p)
         == Filter(g1, p) + Filter(g2, p) + Filter(d, p) + When(delete, DeleteTask(self), p)
  {
    FilterAppend(g1, g2, p);
    FilterAppend(g1 + g2, d, p);
    FilterAppend(g1 + g2 + d, if delete then [DeleteTask(self)] else [], p);
    Filter1(DeleteTask(self), p);
  }

  // The candidate safety rules, one tick at a time.

  /** What the two guards change: the self rollback they issue and the counterparty rollback they record. */
  function GuardEffects(self: Resource, selfNow: int, counterpartyNow: int, st: TaskState): seq<Call> {
    (if SelfGuardRollsBack(selfNow, st) then [Rollback(self)] else [])
    + (if CounterpartyGuardRecords(counterpartyNow, st) then [SetCounterpartyRollbackStatus(self)] else [])
  }

  /** The calls the two guards may make. */
  predicate IsGuardCall(c: Call) {
    || c.GetSelfRollbackStatus? || c.GetSelfTimelock? || c.Rollback?
    || c.GetCounterpartyRollbackStatus? || c.GetCounterpartyTimelock? || c.SetCounterpartyRollbackStatus?
  }

  /** What the tick changes after the guards: the lock phase's changes when it reaches it, then the deletion. */
  function AfterGuards(pair: ResourcePair, selfNow: int, counterpartyNow: int, st: TaskState, feed: seq<string>)
    : seq<Call>
  {
    (if ReachesLockPhase(selfNow, counterpartyNow, st, feed)
     then LockPhaseEffects(pair, FirstSecret(feed), CounterpartyExpired(counterpartyNow, st), st, IsMutating)
     else [])
    + (if Resolves(selfNow, counterpartyNow, st, feed) then [DeleteTask(pair.self)] else [])
  }

  /** Everything the tick changes is what the guards change, then what follows them. */
  lemma MutationsAfterGuards(pair: ResourcePair, selfNow: int, counterpartyNow: int, st: TaskState, feed: seq<string>)
    ensures Filter(Tick(pair, selfNow, counterpartyNow, st, feed).calls, IsMutating)
         == GuardEffects(pair.self, selfNow, counterpartyNow, st) + AfterGuards(pair, selfNow, counterpartyNow, st, feed)
  {
    TickEffects(pair, selfNow, counterpartyNow, st, feed, IsMutating);
    var e := Effects(pair, selfNow, counterpartyNow, st, feed, IsMutating);
    var g := GuardEffects(pair.self, selfNow, counterpartyNow, st);
    var rest := if ReachesLockPhase(selfNow, counterpartyNow, st, feed)
      then LockPhaseEffects(pair, FirstSecret(feed), CounterpartyExpired(counterpartyNow, st), st, IsMutating)
      else [];
    var del := if Resolves(selfNow, counterpartyNow, st, feed) then [DeleteTask(pair.self)] else [];
    assert e == g + rest + del;
    AppendAssoc(g, rest, del);
  }

  /** After a failed lock verification: the lock, then the fallback rollback and the deletion when the counterparty leg counts as rolled back. */
  lemma AfterGuardsLockFails(pair: ResourcePair, selfNow: int, counterpartyNow: int, st: TaskState, feed: seq<string>)
    requires LockAttempted(selfNow, counterpartyNow, st, feed) && !IsTrueSentinel(st.lockVerdict)
    ensures AfterGuards(pair, selfNow, counterpartyNow, st, feed)
         == [Lock(pair.counterparty)]
            + (if CounterpartyExpired(counterpartyNow, st) then [Rollback(pair.self), DeleteTask(pair.self)] else [])
  {
    var cpRolledBack := CounterpartyExpired(counterpartyNow, st);
    var rest := LockPhaseEffects(pair, FirstSecret(feed), cpRolledBack, st, IsMutating);
    assert rest == [Lock(pair.counterparty)] + (if cpRolledBack then [Rollback(pair.self)] else []);
  }

  /** The lock and its record, when no counterparty lock is recorded. */
  function LockPart(pair: ResourcePair, st: TaskState): seq<Call> {
    if st.counterpartyLocked then [] else [Lock(pair.counterparty), SetCounterpartyLockStatus(pair.self)]
  }

  /** After a failed unlock verification: the lock part, the unlock, then the fallback rollback and the deletion when the counterparty leg counts as rolled back. */
  lemma AfterGuardsUnlockFails(pair: ResourcePair, selfNow: int, counterpartyNow: int, st: TaskState, feed: seq<string>)
    requires UnlockAttempted(selfNow, counterpartyNow, st, feed) && !IsTrueSentinel(st.unlockVerdict)
    ensures AfterGuards(pair, selfNow, counterpartyNow, st, feed)
         == LockPart(pair, st) + [Unlock(pair.self, pair.counterparty, FirstSecret(feed))]
            + (if CounterpartyExpired(counterpartyNow, st) then [Rollback(pair.self), DeleteTask(pair.self)] else [])
  {
    var cpRolledBack := CounterpartyExpired(counterpartyNow, st);
    var u := [Unlock(pair.self, pair.counterparty, FirstSecret(feed))];
    var rb := if cpRolledBack then [Rollback(pair.self)] else [];
    var del := if cpRolledBack then [DeleteTask(pair.self)] else [];
    var rest := LockPhaseEffects(pair, FirstSecret(feed), cpRolledBack, st, IsMutating);
    assert rest == LockPart(pair, st) + u + rb;
    assert rb + del == if cpRolledBack then [Rollback(pair.self), DeleteTask(pair.self)] else [];
    AppendAssoc(LockPart(pair, st) + u, rb, del);
  }

  /** After a verified unlock: the lock part, the unlock and its record, then the deletion when the self unlock was recorded. */
  lemma AfterGuardsUnlockVerified(pair: ResourcePair, selfNow: int, counterpartyNow: int, st: TaskState,
                                  feed: seq<string>)
    requires UnlockVerified(selfNow, counterpartyNow, st, feed)
    ensures AfterGuards(pair, selfNow, counterpartyNow, st, feed)
         == LockPart(pair, st)
            + [Unlock(pair.self, pair.counterparty, FirstSecret(feed)), SetCounterpartyUnlockStatus(pair.self)]
            + (if st.selfUnlocked then [DeleteTask(pair.self)] else [])
  {
    var rest := LockPhaseEffects(pair, FirstSecret(feed), CounterpartyExpired(counterpartyNow, st), st, IsMutating);
    assert rest == LockPart(pair, st)
      + [Unlock(pair.self, pair.counterparty, FirstSecret(feed)), SetCounterpartyUnlockStatus(pair.self)];
  }

  /** Once the counterparty unlock is recorded, all that can follow the guards is the deletion. */
  lemma AfterGuardsCounterpartyUnlocked(pair: ResourcePair, selfNow: int, counterpartyNow: int, st: TaskState,
                                        feed: seq<string>)
    requires st.counterpartyUnlocked
    ensures AfterGuards(pair, selfNow, counterpartyNow, st, feed)
         == if Resolves(selfNow, counterpartyNow, st, feed) then [DeleteTask(pair.self)] else []
  {
    assert !ReachesLockPhase(selfNow, counterpartyNow, st, feed);
  }

  /**
   * When both legs count as rolled back the tick resolves the task: after the
   * guards it only deletes the task, with no poll for the secret, no lock and no
   * unlock.
   */
  lemma BothRolledBackResolves(pair: ResourcePair, selfNow: int, counterpartyNow: int, st: TaskState,
                               feed: seq<string>)
    requires BothExpired(selfNow, counterpartyNow, st)
    ensures var o := Tick(pair, selfNow, counterpartyNow, st, feed);
      && o.value && o.feed == feed
      && o.calls == SelfGuard(pair.self, selfNow, st, feed).calls
                    + CounterpartyGuard(pair.self, counterpartyNow, st, feed).calls + [DeleteTask(pair.self)]
      && (forall c | c in o.calls :: IsGuardCall(c) || c == DeleteTask(pair.self))
      && (forall c | c in o.calls :: !c.GetSecret? && !c.Lock? && !c.Unlock?)
  {
    var self := pair.self;
    var o := Tick(pair, selfNow, counterpartyNow, st, feed);
    var st2 := st.(counterpartyRolledBack := CounterpartyExpired(counterpartyNow, st));
    var d := Decide(pair, SelfExpired(selfNow, st), CounterpartyExpired(counterpartyNow, st), st2, feed);
    TickCalls(pair, selfNow, counterpartyNow, st, feed);
    TickResolves(pair, selfNow, counterpartyNow, st, feed);
    TickDecide(pair, selfNow, counterpartyNow, st, feed);
    assert d.calls == [];
    var g1 := SelfGuard(self, selfNow, st, feed).calls;
    var g2 := CounterpartyGuard(self, counterpartyNow, st, feed).calls;
    assert o.calls == g1 + g2 + [DeleteTask(self)];
    assert forall c | c in g1 + g2 :: IsGuardCall(c);
  }

  /**
   * When no secret is known and not both legs count as rolled back, the tick
   * polls, leaves the task pending, and changes nothing beyond what the guards
   * change.
   */
  lemma NullSecretDefers(pair: ResourcePair, selfNow: int, counterpartyNow: int, st: TaskState, feed: seq<string>)
    requires !BothExpired(selfNow, counterpartyNow, st) && !SecretKnown(feed)
    ensures var o := Tick(pair, selfNow, counterpartyNow, st, feed);
      && !o.value && o.feed == []
      && o.calls == SelfGuard(pair.self, selfNow, st, feed).calls
                    + CounterpartyGuard(pair.self, counterpartyNow, st, feed).calls + Polls(pair.self, |feed|)
      && Filter(o.calls, IsMutating) == GuardEffects(pair.self, selfNow, counterpartyNow, st)
      && o.after == st.(counterpartyRolledBack := CounterpartyExpired(counterpartyNow, st))
  {
    var st2 := st.(counterpartyRolledBack := CounterpartyExpired(counterpartyNow, st));
    var d := Decide(pair, SelfExpired(selfNow, st), CounterpartyExpired(counterpartyNow, st), st2, feed);
    FirstSecretSpec(feed);
    TickCalls(pair, selfNow, counterpartyNow, st, feed);
    TickResolves(pair, selfNow, counterpartyNow, st, feed);
    TickRecords(pair, selfNow, counterpartyNow, st, feed);
    TickDecide(pair, selfNow, counterpartyNow, st, feed);
    MutationsAfterGuards(pair, selfNow, counterpartyNow, st, feed);
    assert d.calls == Polls(pair.self, |feed|);
    assert feed[|feed|..] == [];
  }

  /**
   * The tick unlocks at most once, only when it reaches the lock phase and the
   * counterparty lock holds, and always with the secret the poll yielded.
   */
  lemma UnlockDiscipline(pair: ResourcePair, selfNow: int, counterpartyNow: int, st: TaskState, feed: seq<string>)
    ensures Filter(Tick(pair, selfNow, counterpartyNow, st, feed).calls, IsUnlock)
         == if UnlockAttempted(selfNow, counterpartyNow, st, feed)
            then [Unlock(pair.self, pair.counterparty, FirstSecret(feed))] else []
  {
    TickEffects(pair, selfNow, counterpartyNow, st, feed, IsUnlock);
  }

  /** Every unlock the tick issues carries a secret the poll received that is not the "null" sentinel. */
  lemma UnlockOnlyWithSecret(pair: ResourcePair, selfNow: int, counterpartyNow: int, st: TaskState,
                             feed: seq<string>)
    ensures forall c | c in Tick(pair, selfNow, counterpartyNow, st, feed).calls && c.Unlock? ::
      && c == Unlock(pair.self, pair.counterparty, c.secret)
      && !IsNullSentinel(c.secret) && c.secret in feed
  {
    var calls := Tick(pair, selfNow, counterpartyNow, st, feed).calls;
    UnlockDiscipline(pair, selfNow, counterpartyNow, st, feed);
    FilterMembers(calls, IsUnlock);
    if SecretKnown(feed) {
      SecretFromFeed(feed);
    }
    forall c | c in calls && c.Unlock?
      ensures c == Unlock(pair.self, pair.counterparty, FirstSecret(feed))
    {
      assert c in Filter(calls, IsUnlock);
    }
  }

  /**
   * The tick locks at most once, only the counterparty leg, and only when it
   * reaches the lock phase with no counterparty lock recorded.
   */
  lemma LockDiscipline(pair: ResourcePair, selfNow: int, counterpartyNow: int, st: TaskState, feed: seq<string>)
    ensures Filter(Tick(pair, selfNow, counterpartyNow, st, feed).calls, IsLock)
         == if LockAttempted(selfNow, counterpartyNow, st, feed) then [Lock(pair.counterparty)] else []
  {
    TickEffects(pair, selfNow, counterpartyNow, st, feed, IsLock);
  }

  /** The calls that lock, record a lock, and unlock. */
  predicate IsLockStep(c: Call) {
    c.Lock? || c.SetCounterpartyLockStatus? || c.Unlock?
  }

  /** A verified lock is recorded and followed, in the same tick, by the unlock. */
  lemma VerifiedLockThenUnlock(pair: ResourcePair, selfNow: int, counterpartyNow: int, st: TaskState,
                               feed: seq<string>)
    requires LockAttempted(selfNow, counterpartyNow, st, feed) && IsTrueSentinel(st.lockVerdict)
    ensures var o := Tick(pair, selfNow, counterpartyNow, st, feed);
      && Filter(o.calls, IsLockStep)
           == [Lock(pair.counterparty), SetCounterpartyLockStatus(pair.self),
               Unlock(pair.self, pair.counterparty, FirstSecret(feed))]
      && o.after.counterpartyLocked
  {
    TickEffects(pair, selfNow, counterpartyNow, st, feed, IsLockStep);
    LockStepEffects(pair, selfNow, counterpartyNow, st, feed);
    TickRecords(pair, selfNow, counterpartyNow, st, feed);
  }

  lemma LockStepEffects(pair: ResourcePair, selfNow: int, counterpartyNow: int, st: TaskState, feed: seq<string>)
    requires LockAttempted(selfNow, counterpartyNow, st, feed) && IsTrueSentinel(st.lockVerdict)
    ensures Effects(pair, selfNow, counterpartyNow, st, feed, IsLockStep)
         == [Lock(pair.counterparty), SetCounterpartyLockStatus(pair.self),
             Unlock(pair.self, pair.counterparty, FirstSecret(feed))]
  {
    var secret := FirstSecret(feed);
    var cpRolledBack := CounterpartyExpired(counterpartyNow, st);
    var unlocked := LockHolds(st) && IsTrueSentinel(st.unlockVerdict);
    var lock := When(!st.counterpartyLocked, Lock(pair.counterparty), IsLockStep);
    var record := When(!st.counterpartyLocked && IsTrueSentinel(st.lockVerdict), SetCounterpartyLockStatus(pair.self), IsLockStep);
    var unlock := When(LockHolds(st), Unlock(pair.self, pair.counterparty, secret), IsLockStep);
    var recordUnlock := When(unlocked, SetCounterpartyUnlockStatus(pair.self), IsLockStep);
    var rollback := When(!unlocked && cpRolledBack, Rollback(pair.self), IsLockStep);
    assert lock == [Lock(pair.counterparty)];
    assert record == [SetCounterpartyLockStatus(pair.self)];
    assert unlock == [Unlock(pair.self, pair.counterparty, secret)];
    assert recordUnlock == [] && rollback == [];
    assert LockPhaseEffects(pair, secret, cpRolledBack, st, IsLockStep) == lock + record + unlock + recordUnlock + rollback;
    var steps := [Lock(pair.counterparty), SetCounterpartyLockStatus(pair.self), Unlock(pair.self, pair.counterparty, secret)];
    assert lock + record + unlock + recordUnlock + rollback == steps;
    var guards := When(SelfGuardRollsBack(selfNow, st), Rollback(pair.self), IsLockStep)
      + When(CounterpartyGuardRecords(counterpartyNow, st), SetCounterpartyRollbackStatus(pair.self), IsLockStep);
    var delete := When(Resolves(selfNow, counterpartyNow, st, feed), DeleteTask(pair.self), IsLockStep);
    assert guards == [] && delete == [];
    assert Effects(pair, selfNow, counterpartyNow, st, feed, IsLockStep) == guards + steps + delete;
  }

  /**
   * Once the counterparty unlock is recorded, the tick neither locks nor unlocks,
   * issues no rollback beyond the self guard's, and resolves the task exactly when
   * both legs count as rolled back or a secret is known and the self unlock is
   * recorded.
   */
  lemma CounterpartyUnlockedWaits(pair: ResourcePair, selfNow: int, counterpartyNow: int, st: TaskState,
                                  feed: seq<string>)
    requires st.counterpartyUnlocked
    ensures var o := Tick(pair, selfNow, counterpartyNow, st, feed);
      && o.value == (BothExpired(selfNow, counterpartyNow, st) || (SecretKnown(feed) && st.selfUnlocked))
      && Filter(o.calls, IsMutating)
           == GuardEffects(pair.self, selfNow, counterpartyNow, st) + (if o.value then [DeleteTask(pair.self)] else [])
  {
    TickResolves(pair, selfNow, counterpartyNow, st, feed);
    MutationsAfterGuards(pair, selfNow, counterpartyNow, st, feed);
    AfterGuardsCounterpartyUnlocked(pair, selfNow, counterpartyNow, st, feed);
  }

  /**
   * A failed lock verification skips the unlock; the tick then rolls the self leg
   * back and resolves the task exactly when the counterparty leg counts as rolled
   * back, and otherwise leaves the task pending with nothing more changed.
   */
  lemma LockFailureFallback(pair: ResourcePair, selfNow: int, counterpartyNow: int, st: TaskState,
                            feed: seq<string>)
    requires LockAttempted(selfNow, counterpartyNow, st, feed) && !IsTrueSentinel(st.lockVerdict)
    ensures var o := Tick(pair, selfNow, counterpartyNow, st, feed);
      var cpRolledBack := CounterpartyExpired(counterpartyNow, st);
      && o.value == cpRolledBack
      && Filter(o.calls, IsMutating)
           == GuardEffects(pair.self, selfNow, counterpartyNow, st)
              + ([Lock(pair.counterparty)] + (if cpRolledBack then [Rollback(pair.self), DeleteTask(pair.self)] else []))
  {
    TickResolves(pair, selfNow, counterpartyNow, st, feed);
    MutationsAfterGuards(pair, selfNow, counterpartyNow, st, feed);
    AfterGuardsLockFails(pair, selfNow, counterpartyNow, st, feed);
  }

  /**
   * A failed unlock verification: the tick rolls the self leg back and resolves the
   * task exactly when the counterparty leg counts as rolled back, and otherwise
   * leaves the task pending with nothing more changed.
   */
  lemma UnlockFailureFallback(pair: ResourcePair, selfNow: int, counterpartyNow: int, st: TaskState,
                              feed: seq<string>)
    requires UnlockAttempted(selfNow, counterpartyNow, st, feed) && !IsTrueSentinel(st.unlockVerdict)
    ensures var o := Tick(pair, selfNow, counterpartyNow, st, feed);
      var cpRolledBack := CounterpartyExpired(counterpartyNow, st);
      && o.value == cpRolledBack
      && Filter(o.calls, IsMutating)
           == GuardEffects(pair.self, selfNow, counterpartyNow, st)
              + (LockPart(pair, st) + [Unlock(pair.self, pair.counterparty, FirstSecret(feed))]
                 + (if cpRolledBack then [Rollback(pair.self), DeleteTask(pair.self)] else []))
  {
    TickResolves(pair, selfNow, counterpartyNow, st, feed);
    MutationsAfterGuards(pair, selfNow, counterpartyNow, st, feed);
    AfterGuardsUnlockFails(pair, selfNow, counterpartyNow, st, feed);
  }

  /**
   * A verified unlock is recorded, and the tick resolves the task exactly when the
   * self unlock was recorded before it; no rollback follows the guards.
   */
  lemma VerifiedUnlock(pair: ResourcePair, selfNow: int, counterpartyNow: int, st: TaskState, feed: seq<string>)
    requires UnlockVerified(selfNow, counterpartyNow, st, feed)
    ensures var o := Tick(pair, selfNow, counterpartyNow, st, feed);
      && o.value == st.selfUnlocked
      && o.after.counterpartyUnlocked
      && Filter(o.calls, IsMutating)
           == GuardEffects(pair.self, selfNow, counterpartyNow, st)
              + (LockPart(pair, st)
                 + [Unlock(pair.self, pair.counterparty, FirstSecret(feed)), SetCounterpartyUnlockStatus(pair.self)]
                 + (if st.selfUnlocked then [DeleteTask(pair.self)] else []))
  {
    TickResolves(pair, selfNow, counterpartyNow, st, feed);
    TickRecords(pair, selfNow, counterpartyNow, st, feed);
    MutationsAfterGuards(pair, selfNow, counterpartyNow, st, feed);
    AfterGuardsUnlockVerified(pair, selfNow, counterpartyNow, st, feed);
  }

  /** The tick deletes the task at most once, exactly when it resolves it, and as its last call. */
  lemma DeleteOnlyWhenDone(pair: ResourcePair, selfNow: int, counterpartyNow: int, st: TaskState, feed: seq<string>)
    ensures var o := Tick(pair, selfNow, counterpartyNow, st, feed);
      && Filter(o.calls, IsDelete) == (if o.value then [DeleteTask(pair.self)] else [])
      && (o.value ==> o.calls[|o.calls| - 1] == DeleteTask(pair.self))
  {
    TickEffects(pair, selfNow, counterpartyNow, st, feed, IsDelete);
    DeleteEffects(pair, selfNow, counterpartyNow, st, feed);
    TickResolves(pair, selfNow, counterpartyNow, st, feed);
    TickDecide(pair, selfNow, counterpartyNow, st, feed);
    TickCalls(pair, selfNow, counterpartyNow, st, feed);
  }

  lemma DeleteEffects(pair: ResourcePair, selfNow: int, counterpartyNow: int, st: TaskState, feed: seq<string>)
    ensures Effects(pair, selfNow, counterpartyNow, st, feed, IsDelete)
         == if Resolves(selfNow, counterpartyNow, st, feed) then [DeleteTask(pair.self)] else []
  {
    assert LockPhaseEffects(pair, FirstSecret(feed), CounterpartyExpired(counterpartyNow, st), st, IsDelete) == [];
  }

  /**
   * The tick rolls back at most once and only the self leg: either the self guard
   * does, or the fallback after a failed verification does, never both.
   */
  lemma RollbackOnlySelf(pair: ResourcePair, selfNow: int, counterpartyNow: int, st: TaskState, feed: seq<string>)
    ensures var rollbacks := Filter(Tick(pair, selfNow, counterpartyNow, st, feed).calls, IsRollback);
      && rollbacks == (if SelfGuardRollsBack(selfNow, st) || FallbackRollback(selfNow, counterpartyNow, st, feed)
                       then [Rollback(pair.self)] else [])
      && !(SelfGuardRollsBack(selfNow, st) && FallbackRollback(selfNow, counterpartyNow, st, feed))
  {
    TickEffects(pair, selfNow, counterpartyNow, st, feed, IsRollback);
    RollbackEffects(pair, selfNow, counterpartyNow, st, feed);
  }

  lemma RollbackEffects(pair: ResourcePair, selfNow: int, counterpartyNow: int, st: TaskState, feed: seq<string>)
    ensures Effects(pair, selfNow, counterpartyNow, st, feed, IsRollback)
         == if SelfGuardRollsBack(selfNow, st) || FallbackRollback(selfNow, counterpartyNow, st, feed)
            then [Rollback(pair.self)] else []
    ensures !(SelfGuardRollsBack(selfNow, st) && FallbackRollback(selfNow, counterpartyNow, st, feed))
  {
    var rest := LockPhaseEffects(pair, FirstSecret(feed), CounterpartyExpired(counterpartyNow, st), st, IsRollback);
    assert ReachesLockPhase(selfNow, counterpartyNow, st, feed) ==>
      rest == if FallbackRollback(selfNow, counterpartyNow, st, feed) then [Rollback(pair.self)] else [];
  }

  /**
   * The self guard runs before anything else: when its timelock has passed and no
   * rollback is recorded, the tick's first calls roll the self leg back, whatever
   * the unlock flags say.
   */
  lemma SelfGuardRunsFirst(pair: ResourcePair, selfNow: int, counterpartyNow: int, st: TaskState, feed: seq<string>)
    requires SelfGuardRollsBack(selfNow, st)
    ensures var o := Tick(pair, selfNow, counterpartyNow, st, feed);
      |o.calls| >= 3 && o.calls[..3] == [GetSelfRollbackStatus(pair.self), GetSelfTimelock(pair.self), Rollback(pair.self)]
  {
    TickCalls(pair, selfNow, counterpartyNow, st, feed);
  }

  /**
   * A tick never clears a recorded flag. The self flags stay unchanged because the
   * ledger model leaves them to `rollback` and `unlock`, whose effect on the
   * ledger's records is not described here.
   */
  lemma FlagsNeverCleared(pair: ResourcePair, selfNow: int, counterpartyNow: int, st: TaskState, feed: seq<string>)
    ensures var after := Tick(pair, selfNow, counterpartyNow, st, feed).after;
      && (st.counterpartyRolledBack ==> after.counterpartyRolledBack)
      && (st.counterpartyLocked ==> after.counterpartyLocked)
      && (st.counterpartyUnlocked ==> after.counterpartyUnlocked)
      && after.selfRolledBack == st.selfRolledBack && after.selfUnlocked == st.selfUnlocked
      && (after.taskExists ==> st.taskExists)
  {
    TickRecords(pair, selfNow, counterpartyNow, st, feed);
  }

  /** A lock a tick verifies is not issued again by the next tick. */
  lemma LockNotRepeated(pair: ResourcePair, selfNow: int, counterpartyNow: int, st: TaskState, feed: seq<string>,
                        laterSelfNow: int, laterCounterpartyNow: int, laterFeed: seq<string>)
    requires LockAttempted(selfNow, counterpartyNow, st, feed) && IsTrueSentinel(st.lockVerdict)
    ensures var o := Tick(pair, selfNow, counterpartyNow, st, feed);
      Filter(Tick(pair, laterSelfNow, laterCounterpartyNow, o.after, laterFeed).calls, IsLock) == []
  {
    var o := Tick(pair, selfNow, counterpartyNow, st, feed);
    TickRecords(pair, selfNow, counterpartyNow, st, feed);
    LockDiscipline(pair, laterSelfNow, laterCounterpartyNow, o.after, laterFeed);
  }

  /**
   * A lock whose verification fails while the counterparty leg is still live is
   * not recorded, so the next tick that gets a secret locks again.
   */
  lemma LockRetriedAfterFailedVerify(pair: ResourcePair, selfNow: int, counterpartyNow: int, st: TaskState,
                                     feed: seq<string>, laterSelfNow: int, laterCounterpartyNow: int,
                                     laterFeed: seq<string>)
    requires LockAttempted(selfNow, counterpartyNow, st, feed) && !IsTrueSentinel(st.lockVerdict)
    requires !CounterpartyExpired(counterpartyNow, st)
    requires !CounterpartyExpired(laterCounterpartyNow, st) && SecretKnown(laterFeed)
    ensures var o := Tick(pair, selfNow, counterpartyNow, st, feed);
      && Filter(o.calls, IsLock) == [Lock(pair.counterparty)]
      && Filter(Tick(pair, laterSelfNow, laterCounterpartyNow, o.after, laterFeed).calls, IsLock)
         == [Lock(pair.counterparty)]
  {
    var o := Tick(pair, selfNow, counterpartyNow, st, feed);
    TickRecords(pair, selfNow, counterpartyNow, st, feed);
    LockDiscipline(pair, selfNow, counterpartyNow, st, feed);
    LockDiscipline(pair, laterSelfNow, laterCounterpartyNow, o.after, laterFeed);
  }

  /**
   * The honest path: with a secret, neither timelock passed and both verifications
   * succeeding, a tick records the counterparty unlock, and from then on a tick
   * with a secret and live timelocks resolves the task exactly when the self unlock
   * is recorded. No tick records the self unlock itself.
   */
  lemma HonestPathResolvesOnSelfUnlock(pair: ResourcePair, selfNow: int, counterpartyNow: int, st: TaskState,
                                       feed: seq<string>, laterSelfNow: int, laterCounterpartyNow: int,
                                       laterFeed: seq<string>)
    requires !SelfExpired(selfNow, st) && !CounterpartyExpired(counterpartyNow, st) && SecretKnown(feed)
    requires !st.counterpartyUnlocked && LockHolds(st) && IsTrueSentinel(st.unlockVerdict)
    requires !SelfExpired(laterSelfNow, st) && !CounterpartyExpired(laterCounterpartyNow, st) && SecretKnown(laterFeed)
    ensures var o := Tick(pair, selfNow, counterpartyNow, st, feed);
      && o.value == st.selfUnlocked
      && o.after.counterpartyUnlocked && o.after.selfUnlocked == st.selfUnlocked
      && Tick(pair, laterSelfNow, laterCounterpartyNow, o.after, laterFeed).value == st.selfUnlocked
  {
    var o := Tick(pair, selfNow, counterpartyNow, st, feed);
    TickResolves(pair, selfNow, counterpartyNow, st, feed);
    TickRecords(pair, selfNow, counterpartyNow, st, feed);
    TickResolves(pair, laterSelfNow, laterCounterpartyNow, o.after, laterFeed);
  }
}
