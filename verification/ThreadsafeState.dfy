/**
 The watchable state of src/aiodrive/modules/thread_safe_state.py, and the class that keeps it.
 ThreadsafeStateRuns interleaves updates with observers on many loops and threads.
 */
module ThreadsafeStates {
  import opened Wrappers

  type Loop = nat
  type FutureId = nat

  /** `futures` has one future per loop that has parked observers. */
  datatype Shared<T> = Shared(value: T, futures: map<Loop, FutureId>)

  /** The futures that an update schedules: those whose loop still accepts callbacks. */
  function Wakes(futures: map<Loop, FutureId>, closed: set<Loop>): set<FutureId> {
    set l | l in futures && l !in closed :: futures[l]
  }

  function Update<T(==)>(s: Shared<T>, v: T): Shared<T> {
    if s.value != v then Shared(v, map[]) else s
  }

  /** Either the predicate holds now, or the observer waits for the future of its loop. */
  datatype Look<+T> = Found(value: T) | Park(future: FutureId)

  function Observe<T>(s: Shared<T>, fn: T -> bool, l: Loop, unused: FutureId): (Shared<T>, Look<T>) {
    if fn(s.value) then (s, Found(s.value))
    else if l in s.futures then (s, Park(s.futures[l]))
    else (s.(futures := s.futures[l := unused]), Park(unused))
  }

  class ThreadsafeState<T(==)> {
    var value: T
    var futures: map<Loop, FutureId>

    ghost function View(): Shared<T>
      reads this
    {
      Shared(value, futures)
    }

    constructor (value: T)
      ensures View() == Shared(value, map[])
    {
      this.value, futures := value, map[];
    }

    /** `update_value`; `scheduled` are the futures whose loop took the wake-up. */
    method UpdateValue(fn: T -> T, closed: set<Loop>) returns (notified: bool, scheduled: set<FutureId>)
      modifies this
      ensures View() == Update(old(View()), fn(old(value)))
      ensures value == fn(old(value)) && futures == if notified then map[] else old(futures)
      ensures notified <==> old(value) != fn(old(value))
      ensures scheduled == if notified then Wakes(old(futures), closed) else {}
      ensures forall f :: f in scheduled <==>
        notified && exists l :: l in old(futures) && l !in closed && old(futures)[l] == f
    {
      var newValue := fn(value);
      notified, scheduled := false, {};
      if value != newValue {
        value := newValue;
        notified := true;

        var rest := futures.Keys;
        while rest != {}
          invariant rest <= futures.Keys && futures == old(futures) && value == newValue
          invariant forall l :: l in futures && l !in rest && l !in closed ==> futures[l] in scheduled
          invariant scheduled <= Wakes(futures, closed)
          decreases |rest|
        {
          var l :| l in rest;
          rest := rest - {l};
          if l !in closed {
            scheduled := scheduled + {futures[l]};
          }
        }
        futures := map[];
      }
    }

    /** One pass through the section of `_observe`, on loop `l`. */
    method ObserveOnce(fn: T -> bool, l: Loop, unused: FutureId) returns (look: Look<T>)
      modifies this
      ensures (View(), look) == Observe(old(View()), fn, l, unused)
      ensures value == old(value) && look.Found? == fn(value) && (look.Found? ==> look.value == value)
      ensures look.Park? ==> futures == old(futures)[l := look.future]
      ensures look.Park? ==> look.future == if l in old(futures) then old(futures)[l] else unused
      ensures look.Found? ==> futures == old(futures)
    {
      if fn(value) {
        return Found(value);
      }
      if l !in futures {
        futures := futures[l := unused];
      }
      look := Park(futures[l]);
    }
  }

  /**
   The loop of `wait_until_sync`, given the values it finds each time it holds the condition. It
   returns the first one that satisfies the predicate, and parks again on all the others.
   */
  method WaitUntilSync<T>(fn: T -> bool, found: seq<T>) returns (parks: nat, result: Option<T>)
    ensures parks <= |found| && forall i :: 0 <= i < parks ==> !fn(found[i])
    ensures if result.None? then parks == |found|
      else parks < |found| && result.value == found[parks] && fn(result.value)
  {
    parks := 0;
    while parks < |found|
      invariant parks <= |found| && forall i :: 0 <= i < parks ==> !fn(found[i])
    {
      if fn(found[parks]) {
        return parks, Some(found[parks]);
      }
      parks := parks + 1;
    }
    result := None;
  }
}
