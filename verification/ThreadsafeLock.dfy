/**
 The mixed synchronous/asynchronous mutex of src/aiodrive/modules/thread_safe_lock.py:
 what each critical section does to the four shared fields, and the class that does it.
 ThreadsafeLockRuns interleaves these sections over any number of threads and tasks.
 */
module ThreadsafeLocks {

  /** Identifies one pending or finished acquisition and, when it queues, its future. */
  type Request = nat

  /** The fields guarded by `_state_lock`, and whether `_sync_lock` is held. */
  datatype Shared = Shared(locked: bool, syncHeld: bool, syncWaiterCount: int, waiters: seq<Request>)

  const INITIAL := Shared(false, false, 0, [])

  /** The flag says exactly whether somebody owns the lock or is counted as a blocked thread. */
  ghost predicate Coupled(s: Shared) {
    && s.syncWaiterCount >= 0
    && (s.locked <==> s.syncHeld || s.syncWaiterCount > 0)
    && (!s.locked ==> s.waiters == [])
  }

  function TakeFree(s: Shared): Shared {
    s.(locked := true, syncHeld := true)
  }

  function CountThread(s: Shared): Shared {
    s.(syncWaiterCount := s.syncWaiterCount + 1)
  }

  function UncountThread(s: Shared): Shared {
    s.(syncWaiterCount := s.syncWaiterCount - 1)
  }

  function Enqueue(s: Shared, r: Request): Shared {
    s.(waiters := s.waiters + [r])
  }

  /** How many dead waiters stand before the first live one. */
  function DeadPrefix(waiters: seq<Request>, dead: set<Request>): (n: nat)
    ensures n <= |waiters|
    ensures forall i :: 0 <= i < n ==> waiters[i] in dead
    ensures n < |waiters| ==> waiters[n] !in dead
  {
    if waiters == [] || waiters[0] !in dead then 0 else 1 + DeadPrefix(waiters[1..], dead)
  }

  predicate HandsOff(s: Shared, dead: set<Request>) {
    DeadPrefix(s.waiters, dead) < |s.waiters|
  }

  /** The waiter that receives the lock. */
  function Heir(s: Shared, dead: set<Request>): Request
    requires HandsOff(s, dead)
  {
    s.waiters[DeadPrefix(s.waiters, dead)]
  }

  /** Everything a release does before it may reach `_sync_lock.release()`. */
  function PopWaiters(s: Shared, dead: set<Request>): Shared {
    if HandsOff(s, dead) then
      s.(waiters := s.waiters[DeadPrefix(s.waiters, dead) + 1..])
    else
      s.(waiters := [], locked := s.locked && s.syncWaiterCount != 0)
  }

  function Unlock(s: Shared): Shared {
    s.(syncHeld := false)
  }

  function Release(s: Shared, dead: set<Request>): Shared {
    if HandsOff(s, dead) then PopWaiters(s, dead) else Unlock(PopWaiters(s, dead))
  }

  /** A whole release by the owner keeps the coupling, whoever cancelled in the meantime. */
  lemma ReleaseKeepsCoupling(s: Shared, dead: set<Request>)
    requires Coupled(s) && s.syncHeld
    ensures Coupled(Release(s, dead))
    ensures Release(s, dead).syncHeld <==> exists r :: r in s.waiters && r !in dead
  {
    var n := DeadPrefix(s.waiters, dead);
    if HandsOff(s, dead) {
      assert s.waiters[n] in s.waiters;
    }
  }

  /** `threading.Lock`. A caller for whom `Acquire` would block is not inside it yet. */
  class ThreadingLock {
    var held: bool

    constructor ()
      ensures !held
    {
      held := false;
    }

    method Acquire()
      requires !held
      modifies this
      ensures held
    {
      held := true;
    }

    method Release()
      requires held
      modifies this
      ensures !held
    {
      held := false;
    }
  }

  /** Each method is one stretch of code run under `_state_lock`, or one wait for `_sync_lock`. */
  class ThreadsafeLock {
    var locked: bool
    var waiters: seq<Request>
    const syncLock: ThreadingLock
    var syncWaiterCount: int

    ghost function View(): Shared
      reads this, syncLock
    {
      Shared(locked, syncLock.held, syncWaiterCount, waiters)
    }

    constructor ()
      ensures View() == INITIAL && Coupled(View()) && fresh(syncLock)
    {
      locked := false;
      waiters := [];
      syncLock := new ThreadingLock();
      syncWaiterCount := 0;
    }

    /** The first section of `acquire_sync`; the nested acquire finds `_sync_lock` free. */
    method EnterSync() returns (acquired: bool)
      requires Coupled(View())
      modifies this, syncLock
      ensures Coupled(View())
      ensures acquired <==> !old(locked)
      ensures View() == if acquired then TakeFree(old(View())) else CountThread(old(View()))
    {
      if !locked {
        syncLock.Acquire();
        locked := true;
        return true;
      }

      syncWaiterCount := syncWaiterCount + 1;
      return false;
    }

    /** The blocking acquire of `acquire_sync`, at the moment it returns. */
    method TakeSyncLock()
      requires Coupled(View()) && !syncLock.held && syncWaiterCount > 0
      modifies syncLock
      ensures Coupled(View())
      ensures View() == old(View()).(syncHeld := true)
    {
      syncLock.Acquire();
    }

    /** The second section of `acquire_sync`, entered as the new owner. */
    method LeaveSync()
      requires Coupled(View()) && syncLock.held && syncWaiterCount > 0
      modifies this
      ensures Coupled(View())
      ensures View() == UncountThread(old(View()))
    {
      syncWaiterCount := syncWaiterCount - 1;
    }

    /** The section of `acquire_async`; `r` is the new future, unless the lock was free. */
    method EnterAsync(r: Request) returns (acquired: bool)
      requires Coupled(View())
      modifies this, syncLock
      ensures Coupled(View())
      ensures acquired <==> !old(locked)
      ensures View() == if acquired then TakeFree(old(View())) else Enqueue(old(View()), r)
    {
      if !locked {
        syncLock.Acquire();
        locked := true;
        return true;
      }

      waiters := waiters + [r];
      return false;
    }

    /**
     `release_async`, and `release_sync` which calls it. `dead` holds the futures that are
     cancelled or whose loop refuses `call_soon_threadsafe`. The lock stays held for the first
     live waiter; only when there is none is it opened to the blocked threads.
     */
    method ReleaseAsync(dead: set<Request>) returns (heir: seq<Request>)
      requires Coupled(View()) && syncLock.held
      modifies this, syncLock
      ensures View() == Release(old(View()), dead)
      ensures Coupled(View())
      ensures heir == if HandsOff(old(View()), dead) then [Heir(old(View()), dead)] else []
    {
      ghost var was := View();
      ReleaseKeepsCoupling(was, dead);
      ghost var popped := 0;
      heir := [];
      while waiters != []
        invariant heir == []
        invariant locked == was.locked && syncLock.held && syncWaiterCount == was.syncWaiterCount
        invariant popped <= |was.waiters| && waiters == was.waiters[popped..]
        invariant popped <= DeadPrefix(was.waiters, dead)
        decreases |waiters|
      {
        var future := waiters[0];
        waiters := waiters[1..];

        if future in dead {
          popped := popped + 1;
          continue;
        }

        heir := [future];
        break;
      }

      if heir == [] {
        if syncWaiterCount == 0 {
          locked := false;
        }

        syncLock.Release();
      }
    }
  }
}
