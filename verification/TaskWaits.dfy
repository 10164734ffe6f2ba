/**
 The little of asyncio that the drivers rely on. A driver runs against a schedule: what the other
 tasks do, when the driver's own task is cancelled, and when it gets a turn. A wait consumes the
 schedule until it is interrupted, or gets a turn with its condition met, or the schedule ends.
 */
module TaskWaits {
  import opened Wrappers
  import opened Futures

  datatype Event<+T> =
    | Completes(task: nat, outcome: Outcome<T>)
    | OuterCancel            // a cancellation that is delivered to the driver at its current await
    | Turn                   // the event loop, or the consumer of a generator, resumes the driver
    | CloseGenerator         // the consumer closes the generator that is the driver

  /** `active` tasks can complete; `cancels` counts the calls to `cancel` on each task. */
  datatype World<T> = World(
    tasks: seq<Future<T>>,
    active: set<nat>,
    cancels: seq<nat>,
    delivered: nat,
    schedule: seq<Event<T>>)

  ghost predicate Sound<T>(w: World<T>) {
    |w.cancels| == |w.tasks|
  }

  datatype When = FirstException | AllCompleted | FirstCompleted(among: set<nat>)

  predicate Failed<T>(f: Future<T>) {
    f.Done? && !f.outcome.Success?
  }

  predicate AllDone<T>(tasks: seq<Future<T>>) {
    forall i :: 0 <= i < |tasks| ==> tasks[i].Done?
  }

  /** The condition of `asyncio.wait`; a cancelled task is no exception to it. */
  predicate Met<T>(tasks: seq<Future<T>>, when: When) {
    match when
    case FirstException => AllDone(tasks) || exists i :: 0 <= i < |tasks| && tasks[i].Done? && tasks[i].outcome.Failure?
    case AllCompleted => AllDone(tasks)
    case FirstCompleted(among) => exists i :: 0 <= i < |tasks| && i in among && tasks[i].Done?
  }

  function Happen<T>(w: World<T>, e: Event<T>): World<T> {
    match e
    case Completes(i, o) =>
      if i in w.active && i < |w.tasks| && w.tasks[i].Pending? then w.(tasks := w.tasks[i := Done(o)]) else w
    case _ => w
  }

  datatype WaitResult = Ready | Interrupted | Suspended

  function Wait<T>(w: World<T>, when: When): (r: (World<T>, WaitResult))
    ensures if r.1.Suspended? then r.0.schedule == [] else |r.0.schedule| < |w.schedule|
    decreases |w.schedule|
  {
    if w.schedule == [] then (w, Suspended)
    else
      var rest := Happen(w, w.schedule[0]).(schedule := w.schedule[1..]);
      if w.schedule[0].OuterCancel? then (rest.(delivered := w.delivered + 1), Interrupted)
      else if w.schedule[0].Turn? && Met(w.tasks, when) then (rest, Ready)
      else Wait(rest, when)
  }

  /** A generator that has yielded: the consumer comes back for more, or closes it. */
  function AtYield<T>(w: World<T>): (r: (World<T>, WaitResult))
    decreases |w.schedule|
  {
    if w.schedule == [] then (w, Suspended)
    else
      var rest := Happen(w, w.schedule[0]).(schedule := w.schedule[1..]);
      if w.schedule[0].CloseGenerator? then (rest, Interrupted)
      else if w.schedule[0].Turn? then (rest, Ready)
      else AtYield(rest)
  }

  /** What time does to the tasks: some active ones complete, and a done one stays as it is. */
  ghost predicate Later<T>(w: World<T>, v: World<T>) {
    && |v.tasks| == |w.tasks| && v.active == w.active && v.cancels == w.cancels
    && |v.schedule| <= |w.schedule|
    && (forall i :: 0 <= i < |w.tasks| && w.tasks[i].Done? ==> v.tasks[i] == w.tasks[i])
    && (forall i :: 0 <= i < |w.tasks| && i !in w.active ==> v.tasks[i] == w.tasks[i])
  }

  lemma {:induction false} WaitIsLater<T>(w: World<T>, when: When)
    ensures var (v, r) := Wait(w, when);
      && Later(w, v)
      && v.delivered == w.delivered + (if r.Interrupted? then 1 else 0)
      && (r.Ready? ==> Met(v.tasks, when))
      && (if r.Suspended? then v.schedule == [] else |v.schedule| < |w.schedule|)
    decreases |w.schedule|
  {
    if w.schedule != [] {
      var rest := Happen(w, w.schedule[0]).(schedule := w.schedule[1..]);
      assert Later(w, rest);
      if !w.schedule[0].OuterCancel? && !(w.schedule[0].Turn? && Met(w.tasks, when)) {
        WaitIsLater(rest, when);
      }
    }
  }

  lemma {:induction false} YieldIsLater<T>(w: World<T>)
    ensures var (v, r) := AtYield(w);
      && Later(w, v)
      && v.delivered == w.delivered
      && (if r.Suspended? then v.schedule == [] else |v.schedule| < |w.schedule|)
    decreases |w.schedule|
  {
    if w.schedule != [] {
      var rest := Happen(w, w.schedule[0]).(schedule := w.schedule[1..]);
      assert Later(w, rest);
      if !w.schedule[0].CloseGenerator? && !w.schedule[0].Turn? {
        YieldIsLater(rest);
      }
    }
  }

  // ---------- waits by the schedule alone ----------

  /** How the schedule makes task `i` end: it ends once. */
  function Fate<T>(f: Future<T>, i: nat, schedule: seq<Event<T>>): Future<T> {
    if f.Done? || schedule == [] then f
    else if schedule[0].Completes? && schedule[0].task == i then Done(schedule[0].outcome)
    else Fate(f, i, schedule[1..])
  }

  /** The tasks after the first `j` events. */
  function TasksAt<T>(w: World<T>, j: nat): seq<Future<T>>
    requires j <= |w.schedule|
  {
    seq(|w.tasks|, i requires 0 <= i < |w.tasks| =>
      if i in w.active then Fate(w.tasks[i], i, w.schedule[..j]) else w.tasks[i])
  }

  /** With event `j` the wait would end, if it has not ended before. */
  predicate StopsAt<T>(w: World<T>, when: When, j: nat)
    requires j < |w.schedule|
  {
    w.schedule[j].OuterCancel? || (w.schedule[j].Turn? && Met(TasksAt(w, j), when))
  }

  ghost predicate StopsFirst<T>(w: World<T>, when: When, j: nat) {
    j < |w.schedule| && StopsAt(w, when, j) && forall k :: 0 <= k < j ==> !StopsAt(w, when, k)
  }

  lemma TasksAtStart<T>(w: World<T>)
    ensures TasksAt(w, 0) == w.tasks
  {
    assert w.schedule[..0] == [];
  }

  lemma TasksAtNext<T>(w: World<T>, j: nat)
    requires j < |w.schedule|
    ensures TasksAt(w, j + 1) == TasksAt(Happen(w, w.schedule[0]).(schedule := w.schedule[1..]), j)
  {
    var rest := Happen(w, w.schedule[0]).(schedule := w.schedule[1..]);
    var longer, shorter := w.schedule[..j + 1], rest.schedule[..j];
    assert longer == [w.schedule[0]] + shorter && longer[1..] == shorter;
    forall i: nat | i < |w.tasks|
      ensures TasksAt(w, j + 1)[i] == TasksAt(rest, j)[i]
    {
    }
  }

  /** A wait ends at the first cancellation, or the first turn at which its condition holds. */
  lemma {:induction false} WaitStops<T>(w: World<T>, when: When, j: nat)
    requires StopsFirst(w, when, j)
    ensures var (v, r) := Wait(w, when);
      && r == (if w.schedule[j].OuterCancel? then Interrupted else Ready)
      && v.tasks == TasksAt(w, j) && v.schedule == w.schedule[j + 1..]
    decreases |w.schedule|
  {
    TasksAtStart(w);
    if j > 0 {
      assert !StopsAt(w, when, 0);
      var rest := Happen(w, w.schedule[0]).(schedule := w.schedule[1..]);
      forall k: nat | k < |rest.schedule|
        ensures StopsAt(rest, when, k) <==> StopsAt(w, when, k + 1)
      {
        TasksAtNext(w, k);
      }
      TasksAtNext(w, j - 1);
      WaitStops(rest, when, j - 1);
    }
  }

  /** ... and only then. */
  lemma {:induction false} WaitsOn<T>(w: World<T>, when: When)
    ensures Wait(w, when).1.Suspended? || exists j :: StopsFirst(w, when, j)
    decreases |w.schedule|
  {
    if w.schedule != [] {
      TasksAtStart(w);
      if StopsAt(w, when, 0) {
        assert StopsFirst(w, when, 0);
      } else {
        var rest := Happen(w, w.schedule[0]).(schedule := w.schedule[1..]);
        WaitsOn(rest, when);
        if j: nat :| StopsFirst(rest, when, j) {
          forall k: nat | k < |rest.schedule|
            ensures StopsAt(rest, when, k) <==> StopsAt(w, when, k + 1)
          {
            TasksAtNext(w, k);
          }
          assert forall k :: 0 < k < j + 1 ==> StopsAt(w, when, k) == StopsAt(rest, when, k - 1);
          assert StopsFirst(w, when, j + 1);
        }
      }
    }
  }

  /** The first thing the consumer does is to close the generator. */
  ghost predicate ClosesAt<T>(w: World<T>, j: nat) {
    && j < |w.schedule| && w.schedule[j].CloseGenerator?
    && forall k :: 0 <= k < j ==> !w.schedule[k].CloseGenerator? && !w.schedule[k].Turn?
  }

  lemma {:induction false} YieldCloses<T>(w: World<T>)
    ensures AtYield(w).1.Interrupted? <==> exists j :: ClosesAt(w, j)
    decreases |w.schedule|
  {
    if w.schedule != [] {
      var rest := Happen(w, w.schedule[0]).(schedule := w.schedule[1..]);
      if w.schedule[0].CloseGenerator? {
        assert ClosesAt(w, 0);
      } else if !w.schedule[0].Turn? {
        YieldCloses(rest);
        if j: nat :| ClosesAt(rest, j) {
          assert forall k :: 0 < k < j + 1 ==> w.schedule[k] == rest.schedule[k - 1];
          assert ClosesAt(w, j + 1);
        }
        if j: nat :| ClosesAt(w, j) {
          assert forall k :: 0 <= k < j - 1 ==> rest.schedule[k] == w.schedule[k + 1];
          assert ClosesAt(rest, j - 1);
        }
      }
    }
  }

  /** One more cancel call on each of the given tasks. */
  function CancelAll<T>(w: World<T>, which: set<nat>): World<T> {
    w.(cancels := seq(|w.cancels|, i requires 0 <= i < |w.cancels| => w.cancels[i] + One(i in which)))
  }

  /** The loops that call `cancel` on every task of a list. */
  method CancelEach<T>(w: World<T>, which: set<nat>) returns (v: World<T>)
    requires Sound(w)
    ensures v == CancelAll(w, which)
    ensures forall i :: 0 <= i < |w.cancels| ==> v.cancels[i] == w.cancels[i] + if i in which then 1 else 0
  {
    var cancels := w.cancels;
    for i := 0 to |w.cancels|
      invariant |cancels| == |w.cancels|
      invariant forall k :: 0 <= k < |cancels| ==> cancels[k] == w.cancels[k] + if k < i && k in which then 1 else 0
    {
      if i in which {
        cancels := cancels[i := cancels[i] + 1];
      }
    }
    v := w.(cancels := cancels);
  }

  /** The numbers from `lo` up to, but without, `hi`. */
  function Range(lo: nat, hi: nat): (r: set<nat>)
    ensures forall i: nat :: i in r <==> lo <= i < hi
    decreases hi - lo
  {
    if lo >= hi then {} else {lo} + Range(lo + 1, hi)
  }
}
