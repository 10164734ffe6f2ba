/**
 ThreadsafeState under every interleaving of updates, observers on any number of loops, threads
 parked on the condition, cancelled observers and closed loops.
 */
module ThreadsafeStateRuns {
  import opened ThreadsafeStates

  type Observer = nat
  type Thread = nat

  datatype Pc<+T> = Looking | Parked(future: FutureId) | Returned(value: T) | Gone
  datatype Async<!T> = Async(loop: Loop, fn: T -> bool, pc: Pc<T>)

  datatype SyncPc<+T> = SyncLooking | SyncWaiting | SyncReturned(value: T)
  datatype Sync<!T> = Sync(fn: T -> bool, pc: SyncPc<T>)

  /** `scheduled` futures have a `set_result` in the queue of their loop; `done` ones have run it. */
  datatype State<!T> = State(
    shared: Shared<T>,
    observers: map<Observer, Async<T>>,
    threads: map<Thread, Sync<T>>,
    loopOf: map<FutureId, Loop>,
    nextFuture: FutureId,
    scheduled: set<FutureId>,
    done: set<FutureId>,
    closed: set<Loop>)

  datatype Step<!T> =
    | Enter(o: Observer, loop: Loop, fn: T -> bool)
    | Look(o: Observer)
    | RunCallback(future: FutureId)
    | Wake(o: Observer)
    | CancelObserver(o: Observer)
    | EnterSync(t: Thread, test: T -> bool)
    | LookSync(t: Thread)
    | SetTo(change: T -> T)
    | CloseLoop(l: Loop)

  function Begin<T>(value: T): State<T> {
    State(Shared(value, map[]), map[], map[], map[], 0, {}, {}, {})
  }

  ghost predicate Enabled<T>(s: State<T>, step: Step<T>) {
    match step
    case Enter(o, l, fn) => o !in s.observers && l !in s.closed
    case Look(o) => o in s.observers && s.observers[o].pc.Looking? && s.observers[o].loop !in s.closed
    case RunCallback(f) => f in s.scheduled && f in s.loopOf && s.loopOf[f] !in s.closed
    case Wake(o) =>
      && o in s.observers && s.observers[o].pc.Parked? && s.observers[o].loop !in s.closed
      && s.observers[o].pc.future in s.done
    case CancelObserver(o) => o in s.observers && !s.observers[o].pc.Returned?
    case EnterSync(t, fn) => t !in s.threads
    case LookSync(t) => t in s.threads && s.threads[t].pc.SyncLooking?
    case SetTo(fn) => true
    case CloseLoop(l) => true
  }

  function Move<T>(s: State<T>, o: Observer, pc: Pc<T>): State<T>
    requires o in s.observers
  {
    s.(observers := s.observers[o := s.observers[o].(pc := pc)])
  }

  /** `notify_all`: every thread parked on the condition looks again. */
  function NotifyAll<T>(threads: map<Thread, Sync<T>>): map<Thread, Sync<T>> {
    map t | t in threads :: if threads[t].pc.SyncWaiting? then threads[t].(pc := SyncLooking) else threads[t]
  }

  ghost function Apply<T>(s: State<T>, step: Step<T>): State<T>
    requires Enabled(s, step)
  {
    match step
    case Enter(o, l, fn) => s.(observers := s.observers[o := Async(l, fn, Looking)])
    case Look(o) =>
      var a := s.observers[o];
      var (shared', look) := Observe(s.shared, a.fn, a.loop, s.nextFuture);
      var seen := s.(
        shared := shared',
        loopOf := if shared' != s.shared then s.loopOf[s.nextFuture := a.loop] else s.loopOf,
        nextFuture := if shared' != s.shared then s.nextFuture + 1 else s.nextFuture);
      if look.Found? then Move(seen, o, Returned(look.value)) else Move(seen, o, Parked(look.future))
    case RunCallback(f) => s.(scheduled := s.scheduled - {f}, done := s.done + {f})
    case Wake(o) => Move(s, o, Looking)
    case CancelObserver(o) => Move(s, o, Gone)
    case EnterSync(t, fn) => s.(threads := s.threads[t := Sync(fn, SyncLooking)])
    case LookSync(t) =>
      var w := s.threads[t];
      var pc := if w.fn(s.shared.value) then SyncReturned(s.shared.value) else SyncWaiting;
      s.(threads := s.threads[t := w.(pc := pc)])
    case SetTo(fn) =>
      var shared' := Update(s.shared, fn(s.shared.value));
      if s.shared.value == fn(s.shared.value) then s.(shared := shared')
      else s.(
        shared := shared',
        scheduled := s.scheduled + Wakes(s.shared.futures, s.closed),
        threads := NotifyAll(s.threads))
    case CloseLoop(l) => s.(closed := s.closed + {l})
  }

  ghost predicate IsRun<T>(s: State<T>, steps: seq<Step<T>>)
    decreases |steps|
  {
    steps == [] || (Enabled(s, steps[0]) && IsRun(Apply(s, steps[0]), steps[1..]))
  }

  ghost function After<T>(s: State<T>, steps: seq<Step<T>>): State<T>
    requires IsRun(s, steps)
    decreases |steps|
  {
    if steps == [] then s else After(Apply(s, steps[0]), steps[1..])
  }

  // ---------- the invariant ----------

  /** A future in the table has not been scheduled before, so no future is scheduled twice. */
  ghost predicate FutureInv<T>(s: State<T>) {
    && (forall f :: f in s.loopOf ==> f < s.nextFuture)
    && (forall l :: l in s.shared.futures ==>
      && s.shared.futures[l] in s.loopOf && s.loopOf[s.shared.futures[l]] == l
      && s.shared.futures[l] !in s.scheduled && s.shared.futures[l] !in s.done)
    && s.scheduled !! s.done
    && (forall f :: f in s.scheduled || f in s.done ==> f in s.loopOf)
  }

  /** The observer's future is still in the table. */
  predicate Registered<T>(s: State<T>, o: Observer) {
    && o in s.observers && s.observers[o].pc.Parked?
    && s.observers[o].loop in s.shared.futures
    && s.shared.futures[s.observers[o].loop] == s.observers[o].pc.future
  }

  ghost predicate ParkInv<T>(s: State<T>) {
    forall o :: o in s.observers && s.observers[o].pc.Parked? ==>
      var f := s.observers[o].pc.future;
      && f in s.loopOf && s.loopOf[f] == s.observers[o].loop
      && (Registered(s, o) ==> !s.observers[o].fn(s.shared.value))
      && (!Registered(s, o) ==> f in s.scheduled || f in s.done || s.observers[o].loop in s.closed)
  }

  ghost predicate ReturnInv<T>(s: State<T>) {
    && (forall o :: o in s.observers && s.observers[o].pc.Returned? ==> s.observers[o].fn(s.observers[o].pc.value))
    && (forall t :: t in s.threads && s.threads[t].pc.SyncReturned? ==> s.threads[t].fn(s.threads[t].pc.value))
    && (forall t :: t in s.threads && s.threads[t].pc.SyncWaiting? ==> !s.threads[t].fn(s.shared.value))
  }

  ghost predicate Inv<T>(s: State<T>) {
    FutureInv(s) && ParkInv(s) && ReturnInv(s)
  }

  lemma FutureStep<T>(s: State<T>, step: Step<T>)
    requires Inv(s) && Enabled(s, step)
    ensures FutureInv(Apply(s, step))
  {
  }

  lemma ParkStep<T>(s: State<T>, step: Step<T>)
    requires Inv(s) && Enabled(s, step)
    ensures ParkInv(Apply(s, step))
  {
  }

  lemma ReturnStep<T>(s: State<T>, step: Step<T>)
    requires Inv(s) && Enabled(s, step)
    ensures ReturnInv(Apply(s, step))
  {
  }

  lemma {:induction false} InvRun<T>(s: State<T>, steps: seq<Step<T>>)
    requires Inv(s) && IsRun(s, steps)
    ensures Inv(After(s, steps))
    decreases |steps|
  {
    if steps != [] {
      FutureStep(s, steps[0]);
      ParkStep(s, steps[0]);
      ReturnStep(s, steps[0]);
      InvRun(Apply(s, steps[0]), steps[1..]);
    }
  }

  /**
   No lost wake-up. A parked observer whose future is still registered has a false predicate; one
   whose future was taken away has its wake-up scheduled or delivered, or lives on a closed loop.
   A future about to be scheduled never was before. A thread parked on the condition has a false
   predicate. Every value returned satisfied the predicate of its observer.
   */
  lemma NoLostWakeup<T>(value: T, steps: seq<Step<T>>)
    requires IsRun(Begin(value), steps)
    ensures var s := After(Begin(value), steps);
      && (forall o :: o in s.observers && s.observers[o].pc.Parked? ==>
        if Registered(s, o) then !s.observers[o].fn(s.shared.value)
        else s.observers[o].pc.future in s.scheduled + s.done || s.observers[o].loop in s.closed)
      && (forall l :: l in s.shared.futures ==> s.shared.futures[l] !in s.scheduled + s.done)
      && (forall t :: t in s.threads && s.threads[t].pc.SyncWaiting? ==> !s.threads[t].fn(s.shared.value))
      && (forall o :: o in s.observers && s.observers[o].pc.Returned? ==> s.observers[o].fn(s.observers[o].pc.value))
      && (forall t :: t in s.threads && s.threads[t].pc.SyncReturned? ==> s.threads[t].fn(s.threads[t].pc.value))
  {
    InvRun(Begin(value), steps);
  }

  /** The value that the calls to `update_value` in these steps make of it, one after the other. */
  function Updated<T>(value: T, steps: seq<Step<T>>): T
    decreases |steps|
  {
    if steps == [] then value
    else Updated(if steps[0].SetTo? then steps[0].change(value) else value, steps[1..])
  }

  /** In every run the value is what the updates make of it; nothing else changes it. */
  lemma {:induction false} UpdatesAreKept<T>(s: State<T>, steps: seq<Step<T>>)
    requires IsRun(s, steps)
    ensures After(s, steps).shared.value == Updated(s.shared.value, steps)
    decreases |steps|
  {
    if steps != [] {
      UpdatesAreKept(Apply(s, steps[0]), steps[1..]);
    }
  }

  /**
   In every run, a look returns if and only if the predicate holds of the current value, which it
   returns; otherwise it parks on a future that the next change will schedule.
   */
  lemma LookReturnsCurrentValue<T>(value: T, steps: seq<Step<T>>, o: Observer)
    requires IsRun(Begin(value), steps) && Enabled(After(Begin(value), steps), Look(o))
    ensures var s := After(Begin(value), steps);
      var t := Apply(s, Look(o));
      && t.shared.value == s.shared.value
      && (if s.observers[o].fn(s.shared.value) then t.observers[o].pc == Returned(s.shared.value) else Registered(t, o))
      && (t.observers[o].loop !in t.closed && Registered(t, o) ==>
        t.observers[o].pc.future in Wakes(t.shared.futures, t.closed))
  {
    InvRun(Begin(value), steps);
  }

  /** A cancelled observer never returns. */
  lemma CancelledObserversAreGone<T>(s: State<T>, steps: seq<Step<T>>, o: Observer)
    requires IsRun(s, [CancelObserver(o)] + steps)
    ensures var t := After(s, [CancelObserver(o)] + steps); o in t.observers && t.observers[o].pc.Gone?
  {
    assert ([CancelObserver(o)] + steps)[1..] == steps;
    GoneStaysGone(Apply(s, CancelObserver(o)), steps, o);
  }

  lemma {:induction false} GoneStaysGone<T>(s: State<T>, steps: seq<Step<T>>, o: Observer)
    requires IsRun(s, steps) && o in s.observers && s.observers[o].pc.Gone?
    ensures var t := After(s, steps); o in t.observers && t.observers[o].pc.Gone?
    decreases |steps|
  {
    if steps != [] {
      GoneStaysGone(Apply(s, steps[0]), steps[1..], o);
    }
  }

  ghost predicate HasReturned<T>(s: State<T>, o: Observer, value: T) {
    o in s.observers && s.observers[o].pc == Returned(value)
  }

  /**
   No observer is stuck: whenever the predicate of a parked observer holds and its loop is open,
   at most three steps of that loop (its callback, its wake-up, its look) make it return.
   */
  lemma ParkedObserverCanReturn<T>(s: State<T>, o: Observer) returns (steps: seq<Step<T>>)
    requires Inv(s) && o in s.observers && s.observers[o].pc.Parked?
    requires s.observers[o].loop !in s.closed && s.observers[o].fn(s.shared.value)
    ensures |steps| <= 3 && IsRun(s, steps)
    ensures HasReturned(After(s, steps), o, s.shared.value)
  {
    var f := s.observers[o].pc.future;
    if f in s.done {
      steps := WakeAndLook(s, o);
    } else {
      var t := Apply(s, RunCallback(f));
      FutureStep(s, RunCallback(f));
      ParkStep(s, RunCallback(f));
      ReturnStep(s, RunCallback(f));
      var rest := WakeAndLook(t, o);
      steps := [RunCallback(f)] + rest;
      assert steps[1..] == rest;
    }
  }

  lemma WakeAndLook<T>(s: State<T>, o: Observer) returns (steps: seq<Step<T>>)
    requires Inv(s) && Enabled(s, Wake(o)) && s.observers[o].fn(s.shared.value)
    ensures steps == [Wake(o), Look(o)] && IsRun(s, steps)
    ensures HasReturned(After(s, steps), o, s.shared.value)
  {
    steps := [Wake(o), Look(o)];
    var t := Apply(s, Wake(o));
    var u := Apply(t, Look(o));
    assert steps[1..] == [Look(o)] && steps[1..][1..] == [];
    assert IsRun(u, []) && IsRun(t, [Look(o)]);
    assert After(t, [Look(o)]) == After(u, []) == u;
    assert After(s, steps) == After(t, [Look(o)]);
  }

  /** A parked thread whose predicate has become true has been told to look, and returns when it does. */
  lemma NotifiedThreadCanReturn<T>(value: T, steps: seq<Step<T>>, t: Thread)
    requires IsRun(Begin(value), steps)
    requires var s := After(Begin(value), steps);
      t in s.threads && !s.threads[t].pc.SyncReturned? && s.threads[t].fn(s.shared.value)
    ensures var s := After(Begin(value), steps);
      Enabled(s, LookSync(t)) && Apply(s, LookSync(t)).threads[t].pc == SyncReturned(s.shared.value)
  {
    InvRun(Begin(value), steps);
  }
}
