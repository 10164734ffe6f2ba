/**
 The reader/writer lock of src/aiodrive/experiments/rw_lock.py: what one request and one release
 do to its fields, and the class that does it. RWLockRuns interleaves them.
 */
module RWLocks {
  type Id = nat

  datatype Kind = Read | Write
  datatype Mode = Unlocked | Shared | Exclusive

  datatype Fields = Fields(
    nextId: Id,
    mode: Mode,
    owners: set<Id>,
    queueRead: seq<Id>,
    queueWrite: seq<Id>)

  const FREE := Fields(0, Unlocked, {}, [], [])

  function ModeOf(k: Kind): Mode {
    if k.Read? then Shared else Exclusive
  }

  predicate GrantsAtOnce(f: Fields, k: Kind) {
    f.mode.Unlocked? || (f.mode.Shared? && k.Read?)
  }

  function Request(f: Fields, k: Kind): Fields {
    var g := f.(nextId := f.nextId + 1);
    if GrantsAtOnce(f, k) then g.(mode := ModeOf(k), owners := f.owners + {f.nextId})
    else if k.Read? then g.(queueRead := f.queueRead + [f.nextId])
    else g.(queueWrite := f.queueWrite + [f.nextId])
  }

  /** How many queued requests can be told before the first one whose loop is closed. */
  function Live(q: seq<Id>, dead: set<Id>): (n: nat)
    ensures n <= |q| && (n < |q| ==> q[n] in dead) && forall i :: 0 <= i < n ==> q[i] !in dead
  {
    if q == [] || q[0] in dead then 0 else 1 + Live(q[1..], dead)
  }

  /** The requests that a release lets in; those in `dead` live on a closed loop. */
  function Granted(f: Fields, id: Id, dead: set<Id>): set<Id> {
    if f.owners - {id} != {} then {}
    else if f.queueWrite != [] then {f.queueWrite[0]} - dead
    else set r | r in f.queueRead[..Live(f.queueRead, dead)]
  }

  /** The release meets a closed loop and raises in the middle of the hand-over. */
  predicate Raises(f: Fields, id: Id, dead: set<Id>) {
    && f.owners - {id} == {}
    && if f.queueWrite != [] then f.queueWrite[0] in dead else Live(f.queueRead, dead) < |f.queueRead|
  }

  function Release(f: Fields, id: Id, dead: set<Id>): Fields {
    var g := f.(owners := f.owners - {id} + Granted(f, id, dead));
    if f.owners - {id} != {} then g
    else if f.queueWrite != [] then
      g.(mode := if Raises(f, id, dead) then f.mode else Exclusive, queueWrite := f.queueWrite[1..])
    else if f.queueRead != [] then
      g.(mode := Shared, queueRead := if Raises(f, id, dead) then f.queueRead else [])
    else g.(mode := Unlocked)
  }

  class ThreadsafeRWLock {
    var nextId: Id
    var mode: Mode
    var owners: set<Id>
    var queueRead: seq<Id>
    var queueWrite: seq<Id>

    ghost function View(): Fields
      reads this
    {
      Fields(nextId, mode, owners, queueRead, queueWrite)
    }

    constructor ()
      ensures View() == FREE
    {
      nextId, mode, owners, queueRead, queueWrite := 0, Unlocked, {}, [], [];
    }

    /** The section at the start of `_acquire`; without a grant the caller waits for a future. */
    method Enter(target: Kind) returns (id: Id, granted: bool)
      modifies this
      ensures id == old(nextId) && granted == GrantsAtOnce(old(View()), target)
      ensures View() == Request(old(View()), target)
    {
      id := nextId;
      nextId := nextId + 1;

      match (mode, target)
      case (Unlocked, _) =>
        mode := ModeOf(target);
        owners := owners + {id};
        granted := true;
      case (Shared, Read) =>
        owners := owners + {id};
        granted := true;
      case (Exclusive, Read) =>
        queueRead := queueRead + [id];
        granted := false;
      case (_, Write) =>
        queueWrite := queueWrite + [id];
        granted := false;
    }

    /**
     The inner function `release`; `woken` are the requests whose futures it completes, `dead` those
     whose loop is closed and refuses the callback.
     */
    method Leave(id: Id, dead: set<Id>) returns (woken: set<Id>, raised: bool)
      modifies this
      ensures View() == Release(old(View()), id, dead)
      ensures woken == Granted(old(View()), id, dead)
      ensures raised <==> Raises(old(View()), id, dead)
    {
      woken, raised := {}, false;
      if id in owners {
        owners := owners - {id};
      }

      if owners == {} {
        if queueWrite != [] {
          var next := queueWrite[0];
          queueWrite := queueWrite[1..];
          if next in dead {
            return {}, true;
          }
          woken := {next};
          mode := Exclusive;
          owners := owners + {next};
        } else if queueRead != [] {
          mode := Shared;
          for i := 0 to |queueRead|
            invariant queueRead == old(queueRead) && queueWrite == [] && mode == Shared && nextId == old(nextId)
            invariant owners == woken == set r | r in queueRead[..i]
            invariant i <= Live(queueRead, dead)
          {
            if queueRead[i] in dead {
              raised := true;
              return;
            }
            woken := woken + {queueRead[i]};
            owners := owners + {queueRead[i]};
            assert queueRead[..i + 1] == queueRead[..i] + [queueRead[i]];
          }
          assert queueRead[..|queueRead|] == queueRead;
          queueRead := [];
        } else {
          mode := Unlocked;
        }
      }
    }
  }
}
