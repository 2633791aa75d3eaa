/** The slot-array lock set of locks.h / locks.cpp. Each slot is a mutex,
    a condition variable and a "signaled" flag. The mutex is modelled as a
    held flag, and blocking calls are modelled at the moment they return:
    locking a mutex requires it to be free, and `Wait` requires the flag to
    be set. The condition variables themselves, which only wake threads,
    carry no state here. */
module Locking {

  /** `Locks`: `kNumberOfLocks_` slots, their signaled flags in `flag` and
      whether each mutex is held in `locked`. */
  class Locks {
    const n: nat
    const flag: array<bool>
    const locked: array<bool>

    ghost predicate Valid()
      reads this
    {
      flag.Length == n && locked.Length == n && flag != locked
    }

    /** `Locks(number_of_locks)`: every flag cleared, every mutex free. */
    constructor (numberOfLocks: nat)
      ensures Valid() && n == numberOfLocks && fresh(flag) && fresh(locked)
      ensures forall i :: 0 <= i < n ==> !flag[i]
      ensures forall i :: 0 <= i < n ==> !locked[i]
    {
      n := numberOfLocks;
      flag := new bool[numberOfLocks];
      locked := new bool[numberOfLocks](_ => false);
      new;
      for i := 0 to n
        invariant forall j :: 0 <= j < i ==> !flag[j]
        invariant forall j :: 0 <= j < n ==> !locked[j]
      {
        flag[i] := false;
      }
    }

    /** `Reset()`: every flag cleared. */
    method Reset()
      requires Valid()
      modifies flag
      ensures forall i :: 0 <= i < n ==> !flag[i]
    {
      for i := 0 to n
        invariant forall j :: 0 <= j < i ==> !flag[j]
      {
        flag[i] := false;
      }
    }

    /** `lockup(index)`, at the moment the mutex is acquired. */
    method Lockup(index: nat)
      requires Valid() && index < n && !locked[index]
      modifies locked
      ensures locked[..] == old(locked[..])[index := true]
    {
      locked[index] := true;
    }

    /** `Wait(unique_lock, index)`, at the moment it returns: the caller
        holds the slot's mutex, the flag is set, and the wait consumes it. */
    method Wait(index: nat)
      requires Valid() && index < n && locked[index] && flag[index]
      modifies flag
      ensures flag[..] == old(flag[..])[index := false]
    {
      flag[index] := false;
    }

    /** `notify(index)`: set one flag (and wake one waiter). */
    method Notify(index: nat)
      requires Valid() && index < n
      modifies flag
      ensures flag[..] == old(flag[..])[index := true]
    {
      flag[index] := true;
    }

    /** `notify_and_unlock(index)`: set the flag and release the held mutex. */
    method NotifyAndUnlock(index: nat)
      requires Valid() && index < n && locked[index]
      modifies flag, locked
      ensures flag[..] == old(flag[..])[index := true]
      ensures locked[..] == old(locked[..])[index := false]
    {
      flag[index] := true;
      locked[index] := false;
    }

    /** `NotifyAll()`: `notify(i)` for every slot. */
    method NotifyAll()
      requires Valid()
      modifies flag
      ensures forall i :: 0 <= i < n ==> flag[i]
    {
      for i := 0 to n
        invariant forall j :: 0 <= j < i ==> flag[j]
      {
        Notify(i);
      }
    }
  }

  /** `SafeLockUp`: a scoped guard over one slot. `lockup`, `notified` and
      `waited` are `flag_lockup_`, `flag_notifyed_` and `flag_waited_`;
      `notifies` counts the notifications this guard has sent. */
  class SafeLockUp {
    const locks: Locks
    const index: nat
    var lockup: bool
    var notified: bool
    var waited: bool
    ghost var notifies: nat

    ghost predicate Valid()
      reads this, locks, locks.locked
    {
      locks.Valid() && index < locks.n && lockup == locks.locked[index]
    }

    /** `SafeLockUp(locks, lock_index)`: acquires the slot's mutex. */
    constructor (locks: Locks, index: nat)
      requires locks.Valid() && index < locks.n && !locks.locked[index]
      modifies locks.locked
      ensures Valid() && this.locks == locks && this.index == index
      ensures lockup && !notified && !waited && notifies == 0
      ensures locks.locked[..] == old(locks.locked[..])[index := true]
    {
      this.locks := locks;
      this.index := index;
      lockup := true;
      notified := false;
      waited := false;
      notifies := 0;
      new;
      locks.Lockup(index);
    }

    /** `wait()`: the slot's `Wait`, then mark the guard as having waited. */
    method Wait()
      requires Valid() && lockup && locks.flag[index]
      modifies this, locks.flag
      ensures Valid() && waited && lockup == old(lockup) && notified == old(notified) && notifies == old(notifies)
      ensures locks.flag[..] == old(locks.flag[..])[index := false]
    {
      locks.Wait(index);
      waited := true;
    }

    /** `signal_off()`: clear the slot's flag without waiting, and mark the
        guard as having waited so that its destructor sends no notify. */
    method SignalOff()
      requires Valid()
      modifies this, locks.flag
      ensures Valid() && waited && lockup == old(lockup) && notified == old(notified) && notifies == old(notifies)
      ensures locks.flag[..] == old(locks.flag[..])[index := false]
    {
      locks.flag[index] := false;
      waited := true;
    }

    /** `unlock()`: release the mutex early; `unique_lock::unlock` requires ownership. */
    method Unlock()
      requires Valid() && lockup
      modifies this, locks.locked
      ensures Valid() && !lockup && notified == old(notified) && waited == old(waited) && notifies == old(notifies)
      ensures locks.locked[..] == old(locks.locked[..])[index := false]
    {
      locks.locked[index] := false;
      lockup := false;
    }

    /** `notify()`: the slot's `notify`, then mark the guard as having notified. */
    method Notify()
      requires Valid()
      modifies this, locks.flag
      ensures Valid() && notified && lockup == old(lockup) && waited == old(waited)
      ensures notifies == old(notifies) + 1
      ensures locks.flag[..] == old(locks.flag[..])[index := true]
    {
      locks.Notify(index);
      notified := true;
      notifies := notifies + 1;
    }

    /** `notify_and_unlock()`: set the flag, `unlock()`, then `notify()`.
        The final `notify()` runs without the mutex, so another thread may
        clear the flag in between and find it set again afterwards;
        `ConsumerModel.LateNotifyRedeliversFrame` shows what that does to a
        feed. */
    method NotifyAndUnlock()
      requires Valid() && lockup
      modifies this, locks.flag, locks.locked
      ensures Valid() && !lockup && notified && waited == old(waited)
      ensures notifies == old(notifies) + 1
      ensures locks.flag[..] == old(locks.flag[..])[index := true]
      ensures locks.locked[..] == old(locks.locked[..])[index := false]
    {
      locks.flag[index] := true;
      Unlock();
      Notify();
    }

    /** `~SafeLockUp()`: unlock only if still locked; notify once if the
        guard neither waited nor notified. */
    method Destruct()
      requires Valid()
      modifies this, locks.flag, locks.locked
      ensures Valid() && !lockup && !locks.locked[index]
      ensures locks.locked[..] == old(locks.locked[..])[index := false]
      ensures notifies == old(notifies) + (if !old(waited) && !old(notified) then 1 else 0)
      ensures locks.flag[..] == if !old(waited) && !old(notified) then old(locks.flag[..])[index := true] else old(locks.flag[..])
    {
      if lockup {
        Unlock();
      }
      assert locks.locked[..] == old(locks.locked[..])[index := false];
      if !waited && !notified {
        Notify();
      }
    }
  }

  /** An upper bound on a finite set of keys. */
  ghost function KeyBound(keys: set<nat>): (b: nat)
    ensures forall k :: k in keys ==> k < b
  {
    if keys == {} then 0
    else
      var k :| k in keys;
      var rest := KeyBound(keys - {k});
      assert forall x :: x in keys ==> x == k || x in keys - {k};
      if k + 1 > rest then k + 1 else rest
  }

  /** The key bookkeeping of `SleepWaiter`: `key_count` and `map_flag_wake_`. */
  class SleepWaiter {
    var keyCount: nat
    var mapFlagWake: map<nat, bool>

    constructor ()
      ensures keyCount == 0 && mapFlagWake == map[]
    {
      keyCount := 0;
      mapFlagWake := map[];
    }

    /** First guarded block of `WaitForCondition`: take `key_count`, advance
        it, step past keys already in use and register the key as not woken. */
    method RegisterKey() returns (key: nat)
      modifies this
      ensures keyCount == old(keyCount) + 1
      ensures key >= old(keyCount) && key !in old(mapFlagWake)
      ensures forall k :: old(keyCount) <= k < key ==> k in old(mapFlagWake)
      ensures mapFlagWake == old(mapFlagWake)[key := false]
    {
      key := keyCount;
      keyCount := keyCount + 1;
      ghost var bound := KeyBound(mapFlagWake.Keys);
      while key in mapFlagWake
        invariant key >= old(keyCount)
        invariant forall k :: old(keyCount) <= k < key ==> k in mapFlagWake
        invariant mapFlagWake == old(mapFlagWake) && keyCount == old(keyCount) + 1
        decreases bound - key
      {
        key := key + 1;
      }
      mapFlagWake := mapFlagWake[key := false];
    }

    /** Second guarded block: mark the key woken, then erase it. */
    method ReleaseKey(key: nat)
      modifies this
      ensures keyCount == old(keyCount)
      ensures mapFlagWake == old(mapFlagWake) - {key}
    {
      mapFlagWake := mapFlagWake[key := true];
      mapFlagWake := mapFlagWake - {key};
    }

    /** `WaitForCondition(waitFunc)` without the caller's `waitFunc`, which
        runs between the two blocks: the key it used was free before and is
        gone again on return. */
    method WaitForCondition() returns (key: nat)
      modifies this
      ensures keyCount == old(keyCount) + 1
      ensures key >= old(keyCount) && key !in old(mapFlagWake)
      ensures key !in mapFlagWake && mapFlagWake == old(mapFlagWake)
    {
      key := RegisterKey();
      ReleaseKey(key);
    }
  }
}
