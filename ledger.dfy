/**
 * The HTLC ledger adapter the scheduler talks to, as seen for the single task `h`
 * a tick is run for. Its implementation is foreign to the scheduler: here it is a
 * class holding the task's recorded flags and deadlines, the answers it will give
 * to the calls whose outcome the scheduler cannot predict, and a log of every
 * call made to it.
 */
module Ledger {

  /** One participant's HTLC contract instance: a diagnostic path and the ledger handle used for verification. */
  datatype Resource = Resource(path: string, origin: string)

  /** The two legs of one swap, as seen by this scheduler instance. */
  datatype ResourcePair = ResourcePair(self: Resource, counterparty: Resource)

  /** One call made to the ledger adapter, with the arguments that identify it. */
  datatype Call =
    | GetSelfRollbackStatus(res: Resource)
    | GetSelfTimelock(res: Resource)
    | Rollback(res: Resource)
    | GetCounterpartyRollbackStatus(res: Resource)
    | GetCounterpartyTimelock(res: Resource)
    | SetCounterpartyRollbackStatus(res: Resource)
    | GetSecret(res: Resource)
    | GetCounterpartyUnlockStatus(res: Resource)
    | GetSelfUnlockStatus(res: Resource)
    | GetCounterpartyLockStatus(res: Resource)
    | Lock(res: Resource)
    | VerifyLock(origin: string, receipt: string)
    | SetCounterpartyLockStatus(res: Resource)
    | Unlock(selfRes: Resource, counterpartyRes: Resource, secret: string)
    | VerifyUnlock(origin: string, receipt: string)
    | SetCounterpartyUnlockStatus(res: Resource)
    | DeleteTask(res: Resource)

  predicate IsRollback(c: Call) { c.Rollback? }
  predicate IsLock(c: Call) { c.Lock? }
  predicate IsUnlock(c: Call) { c.Unlock? }
  predicate IsDelete(c: Call) { c.DeleteTask? }

  /**
   * The calls that change something on a ledger or in the task registry, as
   * opposed to reads and verifications.
   */
  predicate IsMutating(c: Call) {
    || c.Rollback? || c.SetCounterpartyRollbackStatus? || c.Lock?
    || c.SetCounterpartyLockStatus? || c.Unlock? || c.SetCounterpartyUnlockStatus?
    || c.DeleteTask?
  }

  /** The call `c` as a log of its own if it satisfies `p`, and the empty log otherwise. */
  function Keep(c: Call, p: Call -> bool): seq<Call> {
    if p(c) then [c] else []
  }

  /** The calls in `calls` that satisfy `p`, in the order they were made. */
  function Filter(calls: seq<Call>, p: Call -> bool): (r: seq<Call>)
    ensures |r| <= |calls|
  {
    if calls == [] then [] else Keep(calls[0], p) + Filter(calls[1..], p)
  }

  lemma Filter1(a: Call, p: Call -> bool)
    ensures Filter([a], p) == Keep(a, p)
  {
    assert [a][1..] == [];
  }

  lemma Filter2(a: Call, b: Call, p: Call -> bool)
    ensures Filter([a, b], p) == Keep(a, p) + Keep(b, p)
  {
    assert [a, b][1..] == [b];
    Filter1(b, p);
  }

  lemma Filter3(a: Call, b: Call, c: Call, p: Call -> bool)
    ensures Filter([a, b, c], p) == Keep(a, p) + Keep(b, p) + Keep(c, p)
  {
    assert [a, b, c][1..] == [b, c];
    Filter2(b, c, p);
  }

  /** A log none of whose calls satisfies `p` filters to nothing. */
  lemma {:induction false} FilterNone(calls: seq<Call>, p: Call -> bool)
    requires forall c | c in calls :: !p(c)
    ensures Filter(calls, p) == []
  {
    if calls != [] {
      FilterNone(calls[1..], p);
    }
  }

  /** A call survives the filter exactly when it was made and satisfies `p`. */
  lemma {:induction false} FilterMembers(calls: seq<Call>, p: Call -> bool)
    ensures forall c :: c in Filter(calls, p) <==> c in calls && p(c)
  {
    if calls != [] {
      FilterMembers(calls[1..], p);
      assert calls == [calls[0]] + calls[1..];
    }
  }

  /** Filtering distributes over the concatenation of two logs. */
  lemma {:induction false} FilterAppend(a: seq<Call>, b: seq<Call>, p: Call -> bool)
    ensures Filter(a + b, p) == Filter(a, p) + Filter(b, p)
  {
    if a == [] {
      assert a + b == b;
    } else {
      assert (a + b)[1..] == a[1..] + b;
      FilterAppend(a[1..], b, p);
    }
  }

  /** Concatenating logs is associative. */
  lemma AppendAssoc(a: seq<Call>, b: seq<Call>, c: seq<Call>)
    ensures a + b + c == a + (b + c)
  {
  }

  /**
   * The task's state as the ledger records it, plus the answers the ledger will
   * give to the calls whose result the scheduler cannot predict.
   */
  datatype TaskState = TaskState(
    selfRolledBack: bool,
    counterpartyRolledBack: bool,
    selfTimelock: int,
    counterpartyTimelock: int,
    selfUnlocked: bool,
    counterpartyUnlocked: bool,
    counterpartyLocked: bool,
    taskExists: bool,
    lockReceipt: string,
    lockVerdict: string,
    unlockReceipt: string,
    unlockVerdict: string)

  /** The HTLC ledger adapter for one task. */
  class Htlc {
    /** The task's recorded state and the ledger's answers to lock and unlock. */
    var task: TaskState
    /** The successive answers to `getSecret` that arrive before the poll's deadline. */
    var secretFeed: seq<string>
    /** Every call made to this ledger, oldest first. */
    var calls: seq<Call>

    constructor (st: TaskState, feed: seq<string>)
      ensures task == st && secretFeed == feed && calls == []
    {
      task := st;
      secretFeed := feed;
      calls := [];
    }

    method GetSelfRollbackStatus(res: Resource) returns (b: bool)
      modifies this`calls
      ensures b == task.selfRolledBack
      ensures calls == old(calls) + [Call.GetSelfRollbackStatus(res)]
    {
      b := task.selfRolledBack;
      calls := calls + [Call.GetSelfRollbackStatus(res)];
    }

    method GetSelfTimelock(res: Resource) returns (t: int)
      modifies this`calls
      ensures t == task.selfTimelock
      ensures calls == old(calls) + [Call.GetSelfTimelock(res)]
    {
      t := task.selfTimelock;
      calls := calls + [Call.GetSelfTimelock(res)];
    }

    /** Refunds the caller's own leg; what it does on the ledger is not part of this model. */
    method Rollback(res: Resource)
      modifies this`calls
      ensures calls == old(calls) + [Call.Rollback(res)]
    {
      calls := calls + [Call.Rollback(res)];
    }

    method GetCounterpartyRollbackStatus(res: Resource) returns (b: bool)
      modifies this`calls
      ensures b == task.counterpartyRolledBack
      ensures calls == old(calls) + [Call.GetCounterpartyRollbackStatus(res)]
    {
      b := task.counterpartyRolledBack;
      calls := calls + [Call.GetCounterpartyRollbackStatus(res)];
    }

    method GetCounterpartyTimelock(res: Resource) returns (t: int)
      modifies this`calls
      ensures t == task.counterpartyTimelock
      ensures calls == old(calls) + [Call.GetCounterpartyTimelock(res)]
    {
      t := task.counterpartyTimelock;
      calls := calls + [Call.GetCounterpartyTimelock(res)];
    }

    method SetCounterpartyRollbackStatus(res: Resource)
      modifies this`task, this`calls
      ensures task == old(task).(counterpartyRolledBack := true)
      ensures calls == old(calls) + [Call.SetCounterpartyRollbackStatus(res)]
    {
      task := task.(counterpartyRolledBack := true);
      calls := calls + [Call.SetCounterpartyRollbackStatus(res)];
    }

    /**
     * One poll for the secret: the next answer of the feed, or the sentinel once
     * the feed is exhausted.
     */
    method GetSecret(res: Resource) returns (s: string)
      modifies this`secretFeed, this`calls
      ensures old(secretFeed) == [] ==> s == "null" && secretFeed == []
      ensures old(secretFeed) != [] ==> s == old(secretFeed)[0] && secretFeed == old(secretFeed)[1..]
      ensures calls == old(calls) + [Call.GetSecret(res)]
    {
      if secretFeed == [] {
        s := "null";
      } else {
        s := secretFeed[0];
        secretFeed := secretFeed[1..];
      }
      calls := calls + [Call.GetSecret(res)];
    }

    method GetCounterpartyUnlockStatus(res: Resource) returns (b: bool)
      modifies this`calls
      ensures b == task.counterpartyUnlocked
      ensures calls == old(calls) + [Call.GetCounterpartyUnlockStatus(res)]
    {
      b := task.counterpartyUnlocked;
      calls := calls + [Call.GetCounterpartyUnlockStatus(res)];
    }

    method GetSelfUnlockStatus(res: Resource) returns (b: bool)
      modifies this`calls
      ensures b == task.selfUnlocked
      ensures calls == old(calls) + [Call.GetSelfUnlockStatus(res)]
    {
      b := task.selfUnlocked;
      calls := calls + [Call.GetSelfUnlockStatus(res)];
    }

    method GetCounterpartyLockStatus(res: Resource) returns (b: bool)
      modifies this`calls
      ensures b == task.counterpartyLocked
      ensures calls == old(calls) + [Call.GetCounterpartyLockStatus(res)]
    {
      b := task.counterpartyLocked;
      calls := calls + [Call.GetCounterpartyLockStatus(res)];
    }

    /** Locks the counterparty's leg and returns the transaction receipt. */
    method Lock(res: Resource) returns (receipt: string)
      modifies this`calls
      ensures receipt == task.lockReceipt
      ensures calls == old(calls) + [Call.Lock(res)]
    {
      receipt := task.lockReceipt;
      calls := calls + [Call.Lock(res)];
    }

    method VerifyLock(origin: string, receipt: string) returns (verdict: string)
      modifies this`calls
      ensures verdict == task.lockVerdict
      ensures calls == old(calls) + [Call.VerifyLock(origin, receipt)]
    {
      verdict := task.lockVerdict;
      calls := calls + [Call.VerifyLock(origin, receipt)];
    }

    method SetCounterpartyLockStatus(res: Resource)
      modifies this`task, this`calls
      ensures task == old(task).(counterpartyLocked := true)
      ensures calls == old(calls) + [Call.SetCounterpartyLockStatus(res)]
    {
      task := task.(counterpartyLocked := true);
      calls := calls + [Call.SetCounterpartyLockStatus(res)];
    }

    /** Unlocks with the secret and returns the transaction receipt. */
    method Unlock(selfRes: Resource, counterpartyRes: Resource, secret: string) returns (receipt: string)
      modifies this`calls
      ensures receipt == task.unlockReceipt
      ensures calls == old(calls) + [Call.Unlock(selfRes, counterpartyRes, secret)]
    {
      receipt := task.unlockReceipt;
      calls := calls + [Call.Unlock(selfRes, counterpartyRes, secret)];
    }

    method VerifyUnlock(origin: string, receipt: string) returns (verdict: string)
      modifies this`calls
      ensures verdict == task.unlockVerdict
      ensures calls == old(calls) + [Call.VerifyUnlock(origin, receipt)]
    {
      verdict := task.unlockVerdict;
      calls := calls + [Call.VerifyUnlock(origin, receipt)];
    }

    method SetCounterpartyUnlockStatus(res: Resource)
      modifies this`task, this`calls
      ensures task == old(task).(counterpartyUnlocked := true)
      ensures calls == old(calls) + [Call.SetCounterpartyUnlockStatus(res)]
    {
      task := task.(counterpartyUnlocked := true);
      calls := calls + [Call.SetCounterpartyUnlockStatus(res)];
    }

    /** Removes the task from the registry of pending tasks. */
    method DeleteTask(res: Resource)
      modifies this`task, this`calls
      ensures task == old(task).(taskExists := false)
      ensures calls == old(calls) + [Call.DeleteTask(res)]
    {
      task := task.(taskExists := false);
      calls := calls + [Call.DeleteTask(res)];
    }
  }
}
