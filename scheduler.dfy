/**
 * The per-task HTLC swap scheduler: one call of `Start` is one tick of the swap's
 * state machine. It reads the ledger's recorded flags and deadlines, takes one
 * branch (resolve, wait for the secret, lock then unlock, fall back to rolling
 * back its own leg, or give up until the next tick) and deletes the task when the
 * swap is resolved.
 *
 * The functions below are the reference definition of a tick: each says which
 * value a part of the tick produces, which ledger calls it makes, in order, and
 * which ledger state it leaves. The methods of `HtlcScheduler` perform the same
 * steps one ledger call at a time and are proved to agree with them.
 */
module Scheduler {
  import opened Sentinels
  import opened Ledger

  /**
   * What one part of a tick yields, the ledger calls it makes, the task state it
   * leaves and the secret-poll answers it leaves unconsumed.
   */
  datatype Step<T> = Step(value: T, calls: seq<Call>, after: TaskState, feed: seq<string>)

  /**
   * The self-side timelock guard: the self leg counts as rolled back if the ledger
   * says so, or, failing that, once its timelock has passed, in which case the
   * guard itself rolls the self leg back.
   */
  function SelfGuard(res: Resource, now: int, st: TaskState, feed: seq<string>): Step<bool> {
    if st.selfRolledBack then
      Step(true, [GetSelfRollbackStatus(res)], st, feed)
    else if now >= st.selfTimelock then
      Step(true, [GetSelfRollbackStatus(res), GetSelfTimelock(res), Rollback(res)], st, feed)
    else
      Step(false, [GetSelfRollbackStatus(res), GetSelfTimelock(res)], st, feed)
  }

  /**
   * The counterparty-side timelock guard: the counterparty leg counts as rolled
   * back if that was recorded, or once its timelock has passed, in which case the
   * guard only records the observation; it never rolls anything back.
   */
  function CounterpartyGuard(res: Resource, now: int, st: TaskState, feed: seq<string>): Step<bool> {
    if st.counterpartyRolledBack then
      Step(true, [GetCounterpartyRollbackStatus(res)], st, feed)
    else if now >= st.counterpartyTimelock then
      Step(true, [GetCounterpartyRollbackStatus(res), GetCounterpartyTimelock(res), SetCounterpartyRollbackStatus(res)],
           st.(counterpartyRolledBack := true), feed)
    else
      Step(false, [GetCounterpartyRollbackStatus(res), GetCounterpartyTimelock(res)], st, feed)
  }

  /**
   * The secret the bounded poll yields for the answers that arrive before its
   * deadline: the first answer that is not the absent-secret sentinel, or the
   * sentinel itself when there is none.
   */
  function FirstSecret(feed: seq<string>): string {
    if feed == [] then "null"
    else if !IsNullSentinel(feed[0]) then feed[0]
    else FirstSecret(feed[1..])
  }

  /**
   * How many answers the bounded poll consumes: up to and including the first that
   * is not the sentinel, or all of them.
   */
  function PollCount(feed: seq<string>): (n: nat)
    ensures n <= |feed|
  {
    if feed == [] then 0
    else if !IsNullSentinel(feed[0]) then 1
    else 1 + PollCount(feed[1..])
  }

  /** One poll consumes one answer: the poll stops at it, or carries on with the answers after it. */
  lemma PollAdvance(feed: seq<string>, m: nat)
    requires m < |feed|
    ensures IsNullSentinel(feed[m]) ==>
      FirstSecret(feed[m..]) == FirstSecret(feed[m + 1..]) && PollCount(feed[m..]) == 1 + PollCount(feed[m + 1..])
    ensures !IsNullSentinel(feed[m]) ==> FirstSecret(feed[m..]) == feed[m] && PollCount(feed[m..]) == 1
  {
    assert feed[m..][1..] == feed[m + 1..];
  }

  /** `n` successive polls for the secret through `res`. */
  function Polls(res: Resource, n: nat): seq<Call> {
    if n == 0 then [] else Polls(res, n - 1) + [GetSecret(res)]
  }

  /**
   * The bounded poll for the secret: its value is `FirstSecret` of the answers, it
   * asks the ledger once per answer it consumes and leaves the rest unconsumed.
   */
  function PollSecret(res: Resource, st: TaskState, feed: seq<string>): Step<string> {
    var n := PollCount(feed);
    Step(FirstSecret(feed), Polls(res, n), st, feed[n..])
  }

  /**
   * The unlock attempt with a known secret, verified against the self leg's origin
   * ledger. Its value is whether the task is resolved.
   */
  function AttemptUnlock(pair: ResourcePair, secret: string, counterpartyRolledBack: bool,
                         selfUnlocked: bool, st: TaskState, feed: seq<string>): Step<bool>
  {
    var self := pair.self;
    var attempt := [Unlock(self, pair.counterparty, secret), VerifyUnlock(self.origin, st.unlockReceipt)];
    if !IsTrueSentinel(st.unlockVerdict) then
      if counterpartyRolledBack then Step(true, attempt + [Rollback(self)], st, feed)
      else Step(false, attempt, st, feed)
    else
      Step(selfUnlocked, attempt + [SetCounterpartyUnlockStatus(self)], st.(counterpartyUnlocked := true), feed)
  }

  /**
   * Once the counterparty unlock is known not to be recorded: lock the counterparty
   * leg unless that is recorded, then unlock. Its value is whether the task is
   * resolved.
   */
  function LockPhase(pair: ResourcePair, secret: string, counterpartyRolledBack: bool,
                     selfUnlocked: bool, st: TaskState, feed: seq<string>): Step<bool>
  {
    var self := pair.self;
    if st.counterpartyLocked then
      var u := AttemptUnlock(pair, secret, counterpartyRolledBack, selfUnlocked, st, feed);
      Step(u.value, [GetCounterpartyLockStatus(self)] + u.calls, u.after, feed)
    else
      var locking := [GetCounterpartyLockStatus(self), Lock(pair.counterparty), VerifyLock(self.origin, st.lockReceipt)];
      if !IsTrueSentinel(st.lockVerdict) then
        if counterpartyRolledBack then Step(true, locking + [Rollback(self)], st, feed)
        else Step(false, locking, st, feed)
      else
        var u := AttemptUnlock(pair, secret, counterpartyRolledBack, selfUnlocked,
                               st.(counterpartyLocked := true), feed);
        Step(u.value, locking + [SetCounterpartyLockStatus(self)] + u.calls, u.after, feed)
  }

  /**
   * What the tick does once the secret is known: wait or resolve when the
   * counterparty unlock is recorded, otherwise go through `LockPhase`. Its value is
   * whether the task is resolved.
   */
  function Advance(pair: ResourcePair, secret: string, counterpartyRolledBack: bool,
                   st: TaskState, feed: seq<string>): Step<bool>
  {
    var self := pair.self;
    var unlockReads := [GetCounterpartyUnlockStatus(self), GetSelfUnlockStatus(self)];
    if st.counterpartyUnlocked then
      Step(st.selfUnlocked, unlockReads, st, feed)
    else
      var l := LockPhase(pair, secret, counterpartyRolledBack, st.selfUnlocked, st, feed);
      Step(l.value, unlockReads + l.calls, l.after, feed)
  }

  /**
   * Everything a tick does between the two guards and the final deletion. Its
   * value is whether the task is resolved.
   */
  function Decide(pair: ResourcePair, selfRolledBack: bool, counterpartyRolledBack: bool,
                  st: TaskState, feed: seq<string>): Step<bool>
  {
    if selfRolledBack && counterpartyRolledBack then
      Step(true, [], st, feed)
    else
      var p := PollSecret(pair.self, st, feed);
      if IsNullSentinel(p.value) then
        Step(false, p.calls, st, p.feed)
      else
        var a := Advance(pair, p.value, counterpartyRolledBack, st, p.feed);
        Step(a.value, p.calls + a.calls, a.after, p.feed)
  }

  /**
   * One tick of the scheduler for one task, as a function of the ledger state it
   * starts from: whether the task was resolved, every ledger call made, in order,
   * the task state left behind and the poll answers left unconsumed. The two
   * guards read the clock separately.
   */
  function Tick(pair: ResourcePair, selfNow: int, counterpartyNow: int, st: TaskState, feed: seq<string>): Step<bool> {
    var g1 := SelfGuard(pair.self, selfNow, st, feed);
    var g2 := CounterpartyGuard(pair.self, counterpartyNow, g1.after, feed);
    var d := Decide(pair, g1.value, g2.value, g2.after, feed);
    if d.value then
      Step(true, g1.calls + g2.calls + d.calls + [DeleteTask(pair.self)], d.after.(taskExists := false), d.feed)
    else
      Step(false, g1.calls + g2.calls + d.calls, d.after, d.feed)
  }

  class HtlcScheduler {
    const htlc: Htlc

    constructor (htlc: Htlc)
      ensures this.htlc == htlc
    {
      this.htlc := htlc;
    }

    /** One tick for the task on `pair`; `selfNow` and `counterpartyNow` are the two clock readings, in seconds. */
    method Start(pair: ResourcePair, selfNow: int, counterpartyNow: int)
      modifies htlc
      ensures var o := Tick(pair, selfNow, counterpartyNow, old(htlc.task), old(htlc.secretFeed));
        htlc.calls == old(htlc.calls) + o.calls && htlc.task == o.after && htlc.secretFeed == o.feed
    {
      ghost var st0, log0, feed0 := htlc.task, htlc.calls, htlc.secretFeed;
      var taskDone := false;
      var self := pair.self;
      var selfRolledback := CheckSelfRollback(self, selfNow);
      var counterpartyRolledback := CheckCounterpartyRollback(self, counterpartyNow);
      ghost var g1 := SelfGuard(self, selfNow, st0, feed0);
      ghost var g2 := CounterpartyGuard(self, counterpartyNow, g1.after, feed0);
      ghost var log2, st2 := htlc.calls, htlc.task;
      assert log2 == log0 + g1.calls + g2.calls && st2 == g2.after;
      ghost var d := Decide(pair, selfRolledback, counterpartyRolledback, st2, feed0);
      if selfRolledback && counterpartyRolledback {
        taskDone := true;
      } else {
        ghost var p := PollSecret(self, st2, feed0);
        var s := GetSecret(self);
        assert s == p.value && htlc.calls == log2 + p.calls;
        if !IsNullSentinel(s) {
          ghost var a := Advance(pair, s, counterpartyRolledback, st2, p.feed);
          assert d == Step(a.value, p.calls + a.calls, a.after, p.feed);
          taskDone := Proceed(pair, s, counterpartyRolledback);
          AppendAssoc(log2, p.calls, a.calls);
        }
      }
      assert taskDone == d.value && htlc.calls == log2 + d.calls && htlc.task == d.after && htlc.secretFeed == d.feed;
      ghost var calls := g1.calls + g2.calls + d.calls;
      AppendAssoc(log0, g1.calls + g2.calls, d.calls);
      AppendAssoc(log0, g1.calls, g2.calls);
      if taskDone {
        htlc.DeleteTask(self);
        AppendAssoc(log0, calls, [DeleteTask(self)]);
      }
    }

    /**
     * The part of a tick that runs once the secret is known; its result is whether
     * the task is resolved. A failed verification with the counterparty leg still
     * live ends the tick early, which here is the result `false`.
     */
    method Proceed(pair: ResourcePair, secret: string, counterpartyRolledBack: bool) returns (taskDone: bool)
      modifies htlc
      ensures var a := Advance(pair, secret, counterpartyRolledBack, old(htlc.task), old(htlc.secretFeed));
        && taskDone == a.value && htlc.calls == old(htlc.calls) + a.calls
        && htlc.task == a.after && htlc.secretFeed == old(htlc.secretFeed)
    {
      ghost var st0, log0 := htlc.task, htlc.calls;
      var self := pair.self;
      var otherUnlocked := htlc.GetCounterpartyUnlockStatus(self);
      var selfUnlocked := htlc.GetSelfUnlockStatus(self);
      ghost var unlockReads := [Call.GetCounterpartyUnlockStatus(self), Call.GetSelfUnlockStatus(self)];
      assert htlc.calls == log0 + unlockReads;
      if otherUnlocked {
        return selfUnlocked;
      }
      ghost var l := LockPhase(pair, secret, counterpartyRolledBack, selfUnlocked, st0, htlc.secretFeed);
      taskDone := LockAndUnlock(pair, secret, counterpartyRolledBack, selfUnlocked);
      assert taskDone == l.value && htlc.task == l.after;
      AppendAssoc(log0, unlockReads, l.calls);
    }

    /** The lock step, when needed, and then the unlock attempt; see `LockPhase`. */
    method LockAndUnlock(pair: ResourcePair, secret: string, counterpartyRolledBack: bool, selfUnlocked: bool)
      returns (taskDone: bool)
      modifies htlc
      ensures var l := LockPhase(pair, secret, counterpartyRolledBack, selfUnlocked, old(htlc.task), old(htlc.secretFeed));
        && taskDone == l.value && htlc.calls == old(htlc.calls) + l.calls
        && htlc.task == l.after && htlc.secretFeed == old(htlc.secretFeed)
    {
      ghost var st0, log0, feed0 := htlc.task, htlc.calls, htlc.secretFeed;
      ghost var l := LockPhase(pair, secret, counterpartyRolledBack, selfUnlocked, st0, feed0);
      var self, counterparty := pair.self, pair.counterparty;
      var counterpartyLocked := htlc.GetCounterpartyLockStatus(self);
      ghost var prefix := [Call.GetCounterpartyLockStatus(self)];
      if !counterpartyLocked {
        var lockHash := htlc.Lock(counterparty);
        var verifyResult := htlc.VerifyLock(self.origin, lockHash);
        if !IsTrueSentinel(verifyResult) {
          if counterpartyRolledBack {
            htlc.Rollback(self);
            return true;
          }
          return false;
        }
        htlc.SetCounterpartyLockStatus(self);
        prefix := prefix + [Call.Lock(counterparty), Call.VerifyLock(self.origin, lockHash), Call.SetCounterpartyLockStatus(self)];
      }
      assert htlc.calls == log0 + prefix;
      ghost var u := AttemptUnlock(pair, secret, counterpartyRolledBack, selfUnlocked, htlc.task, feed0);
      assert l == Step(u.value, prefix + u.calls, u.after, feed0);
      taskDone := TryUnlock(pair, secret, counterpartyRolledBack, selfUnlocked);
      AppendAssoc(log0, prefix, u.calls);
    }

    /** The unlock attempt and its verification; see `AttemptUnlock`. */
    method TryUnlock(pair: ResourcePair, secret: string, counterpartyRolledBack: bool, selfUnlocked: bool)
      returns (taskDone: bool)
      modifies htlc
      ensures var u := AttemptUnlock(pair, secret, counterpartyRolledBack, selfUnlocked, old(htlc.task), old(htlc.secretFeed));
        && taskDone == u.value && htlc.calls == old(htlc.calls) + u.calls
        && htlc.task == u.after && htlc.secretFeed == old(htlc.secretFeed)
    {
      var self := pair.self;
      var unlockHash := htlc.Unlock(self, pair.counterparty, secret);
      var verifyResult := htlc.VerifyUnlock(self.origin, unlockHash);
      if !IsTrueSentinel(verifyResult) {
        if counterpartyRolledBack {
          htlc.Rollback(self);
          return true;
        }
        return false;
      }
      taskDone := selfUnlocked;
      htlc.SetCounterpartyUnlockStatus(self);
    }

    /**
     * Waits a bounded time for the secret: polls until an answer is not the
     * absent-secret sentinel or the deadline passes, and then answers the sentinel.
     */
    method GetSecret(res: Resource) returns (secret: string)
      modifies htlc
      ensures var p := PollSecret(res, old(htlc.task), old(htlc.secretFeed));
        && secret == p.value && htlc.calls == old(htlc.calls) + p.calls
        && htlc.task == old(htlc.task) && htlc.secretFeed == p.feed
    {
      ghost var feed := htlc.secretFeed;
      ghost var polls := 0;
      secret := "null";
      var s := "null";
      var absent := true;
      while absent && htlc.secretFeed != []
        modifies htlc`secretFeed, htlc`calls
        invariant 0 <= polls <= |feed| && htlc.secretFeed == feed[polls..]
        invariant htlc.calls == old(htlc.calls) + Polls(res, polls)
        invariant absent ==>
          FirstSecret(feed) == FirstSecret(feed[polls..]) && PollCount(feed) == polls + PollCount(feed[polls..])
        invariant !absent ==> !IsNullSentinel(s) && FirstSecret(feed) == s && PollCount(feed) == polls
        decreases |htlc.secretFeed|
      {
        PollAdvance(feed, polls);
        s := htlc.GetSecret(res);
        polls := polls + 1;
        absent := IsNullSentinel(s);
      }
      if !absent {
        secret := s;
      }
    }

    /** The self-side guard; see `SelfGuard`. */
    method CheckSelfRollback(res: Resource, now: int) returns (rolledBack: bool)
      modifies htlc
      ensures var g := SelfGuard(res, now, old(htlc.task), old(htlc.secretFeed));
        && rolledBack == g.value && htlc.calls == old(htlc.calls) + g.calls
        && htlc.task == g.after && htlc.secretFeed == old(htlc.secretFeed)
    {
      rolledBack := htlc.GetSelfRollbackStatus(res);
      if rolledBack {
        return;
      }
      var selfTimelock := htlc.GetSelfTimelock(res);
      if now >= selfTimelock {
        htlc.Rollback(res);
        return true;
      }
      return false;
    }

    /** The counterparty-side guard; see `CounterpartyGuard`. */
    method CheckCounterpartyRollback(res: Resource, now: int) returns (rolledBack: bool)
      modifies htlc
      ensures var g := CounterpartyGuard(res, now, old(htlc.task), old(htlc.secretFeed));
        && rolledBack == g.value && htlc.calls == old(htlc.calls) + g.calls
        && htlc.task == g.after && htlc.secretFeed == old(htlc.secretFeed)
    {
      rolledBack := htlc.GetCounterpartyRollbackStatus(res);
      if rolledBack {
        return;
      }
      var counterpartyTimelock := htlc.GetCounterpartyTimelock(res);
      if now >= counterpartyTimelock {
        htlc.SetCounterpartyRollbackStatus(res);
        return true;
      }
      return false;
    }
  }
}
