/** `gather` of src/aiodrive/modules/gather.py, against every schedule. */
module Gather {
  import opened Wrappers
  import opened Futures
  import opened TaskWaits

  datatype Result<+T> =
    | Unfinished                      // the schedule ended first
    | Values(values: seq<T>)
    | Group(errors: seq<nat>)         // the exception group, in task order
    | RaisedCancelled

  /** The exceptions of the tasks that were not cancelled, in task order. */
  function Errors<T>(tasks: seq<Future<T>>): seq<nat> {
    if tasks == [] then []
    else (if tasks[0].Done? && tasks[0].outcome.Failure? then [tasks[0].outcome.error] else []) + Errors(tasks[1..])
  }

  predicate AnyCancelled<T>(tasks: seq<Future<T>>) {
    exists i :: 0 <= i < |tasks| && tasks[i].Done? && tasks[i].outcome.Cancelled?
  }

  predicate AllSucceeded<T>(tasks: seq<Future<T>>) {
    forall i :: 0 <= i < |tasks| ==> tasks[i].Done? && tasks[i].outcome.Success?
  }

  lemma {:induction false} NoErrorsIff<T>(tasks: seq<Future<T>>)
    ensures Errors(tasks) == [] <==> forall i :: 0 <= i < |tasks| && tasks[i].Done? ==> !tasks[i].outcome.Failure?
  {
    if tasks != [] {
      NoErrorsIff(tasks[1..]);
      assert forall i :: 0 < i < |tasks| ==> tasks[i] == tasks[1..][i - 1];
    }
  }

  /** One task contributes its exception, if it raised one and was not cancelled. */
  lemma ErrorsOfOne<T>(f: Future<T>)
    ensures Errors([f]) == match f
      case Done(Failure(e)) => [e]
      case _ => []
  {
    assert [f][1..] == [];
  }

  /** The error list keeps the order of the tasks and forgets none: it splits where the tasks split. */
  lemma {:induction false} ErrorsSplit<T>(a: seq<Future<T>>, b: seq<Future<T>>)
    ensures Errors(a + b) == Errors(a) + Errors(b)
  {
    if a == [] {
      assert a + b == b;
    } else {
      assert (a + b)[1..] == a[1..] + b;
      ErrorsSplit(a[1..], b);
    }
  }

  /** The sensitive phase ends with a failure: its wait got its turn and some task had failed by then. */
  predicate SawFailure<T>(w: World<T>, sensitive: bool) {
    && sensitive && w.tasks != []
    && var (v, r) := Wait(w, FirstException); r.Ready? && exists i :: 0 <= i < |v.tasks| && Failed(v.tasks[i])
  }

  /** The exceptions come first, then a cancellation of anybody, then the results. */
  ghost predicate Explains<T>(result: Result<T>, tasks: seq<Future<T>>, cancelled: bool) {
    if Errors(tasks) != [] then result == Group(Errors(tasks))
    else if cancelled || AnyCancelled(tasks) then result == RaisedCancelled
    else
      && result.Values? && |result.values| == |tasks|
      && forall i :: 0 <= i < |tasks| ==> tasks[i] == Done(Success(result.values[i]))
  }

  /** Every task was cancelled exactly `k` times more. */
  ghost predicate Raised(before: seq<nat>, after: seq<nat>, k: int) {
    |after| == |before| && forall i :: 0 <= i < |after| ==> after[i] == before[i] + k
  }

  /** The sensitive phase: one wait, and all tasks cancelled if it is interrupted or finds a failure. */
  method SensitivePhase<T>(w0: World<T>) returns (w: World<T>, r: WaitResult, failed: bool)
    requires Sound(w0) && w0.tasks != []
    ensures Sound(w) && Later(w0, w.(cancels := w0.cancels))
    ensures r == Wait(w0, FirstException).1 && (r.Suspended? ==> w.schedule == [])
    ensures w.delivered == w0.delivered + if r.Interrupted? then 1 else 0
    ensures failed == SawFailure(w0, true)
    ensures failed ==> exists i :: 0 <= i < |w.tasks| && Failed(w.tasks[i])
    ensures w == var v := Wait(w0, FirstException).0;
      if r.Interrupted? || failed then CancelAll(v, Range(0, |v.tasks|)) else v
    ensures Raised(w0.cancels, w.cancels, if r.Interrupted? || failed then 1 else 0)
  {
    WaitIsLater(w0, FirstException);
    var (v, result) := Wait(w0, FirstException);
    w, r, failed := v, result, false;
    if r.Interrupted? {
      w := CancelEach(w, Range(0, |w.tasks|));
    } else if r.Ready? {
      failed := exists i :: 0 <= i < |w.tasks| && Failed(w.tasks[i]);
      if failed {
        w := CancelEach(w, Range(0, |w.tasks|));
      }
    }
  }

  /** How often the retry loop cancels the tasks: not for the first cancellation after a failure. */
  function Forwarded(n: int, failed: bool): int {
    if failed && n > 0 then n - 1 else n
  }

  /** What the retry loop does to a world, and whether it ends within the schedule. */
  function Drained<T>(w: World<T>, failed: bool): (World<T>, bool)
    decreases |w.schedule|
  {
    var (v, r) := Wait(w, AllCompleted);
    match r
    case Suspended => (v, false)
    case Ready => (v, true)
    case Interrupted => Drained(if failed then v else CancelAll(v, Range(0, |v.tasks|)), false)
  }

  /** What all of `gather` does to a world, and whether it ends within the schedule. */
  function Gathered<T>(w: World<T>, sensitive: bool): (World<T>, bool) {
    if w.tasks == [] then (w, true)
    else if !sensitive then Drained(w, false)
    else
      var (v, r) := Wait(w, FirstException);
      var failed := SawFailure(w, sensitive);
      if r.Suspended? then (v, false)
      else Drained(if r.Interrupted? || failed then CancelAll(v, Range(0, |v.tasks|)) else v, failed)
  }

  /** The retry loop: it goes on until every task is done, and passes cancellations on. */
  method Drain<T>(w0: World<T>, failed0: bool) returns (w: World<T>, finished: bool)
    requires Sound(w0)
    ensures Sound(w) && Later(w0, w.(cancels := w0.cancels)) && w.delivered >= w0.delivered
    ensures if finished then AllDone(w.tasks) else w.schedule == []
    ensures (w, finished) == Drained(w0, failed0)
    ensures Raised(w0.cancels, w.cancels, Forwarded(w.delivered - w0.delivered, failed0))
  {
    w := w0;
    var failed := failed0;
    while true
      invariant Sound(w) && Later(w0, w.(cancels := w0.cancels)) && w.delivered >= w0.delivered
      invariant Drained(w, failed) == Drained(w0, failed0)
      invariant failed <==> failed0 && w.delivered == w0.delivered
      invariant Raised(w0.cancels, w.cancels, Forwarded(w.delivered - w0.delivered, failed0))
      decreases |w.schedule|
    {
      WaitIsLater(w, AllCompleted);
      var (v, r) := Wait(w, AllCompleted);
      w := v;
      match r
      case Suspended => return w, false;
      case Interrupted =>
        if failed {
          failed := false;
        } else {
          w := CancelEach(w, Range(0, |w.tasks|));
        }
      case Ready => return w, true;
    }
  }

  /** The outcome once every task is done. */
  method Conclude<T>(tasks: seq<Future<T>>, cancelled: bool) returns (result: Result<T>)
    requires AllDone(tasks)
    ensures Explains(result, tasks, cancelled) && !result.Unfinished?
    ensures result.Group? <==> exists i :: 0 <= i < |tasks| && tasks[i].outcome.Failure?
    ensures result.Group? ==> result.errors == Errors(tasks)
    ensures result.Values? <==> AllSucceeded(tasks) && !cancelled
    ensures result.Values? ==> |result.values| == |tasks| && forall i :: 0 <= i < |tasks| ==>
      result.values[i] == tasks[i].outcome.value
  {
    NoErrorsIff(tasks);
    var errors := Errors(tasks);
    if errors != [] {
      return Group(errors);
    }
    if cancelled || AnyCancelled(tasks) {
      return RaisedCancelled;
    }
    result := Values(seq(|tasks|, i requires 0 <= i < |tasks| => tasks[i].outcome.value));
  }

  /**
   Whatever the schedule, with `n` cancellations delivered: it ends only when every task is done;
   each task was cancelled `n` times, or max(1, n) times after a failure in the sensitive phase; the
   outcome is the exceptions in task order, else a cancellation, else the results in task order;
   and a normal return means that no task was ever cancelled by it.
   */
  method Gather<T>(w0: World<T>, sensitive: bool) returns (w: World<T>, result: Result<T>)
    requires Sound(w0)
    ensures Sound(w) && Later(w0, w.(cancels := w0.cancels)) && w.delivered >= w0.delivered
    ensures (w, !result.Unfinished?) == Gathered(w0, sensitive)
    ensures if result.Unfinished? then w.schedule == [] else AllDone(w.tasks)
    ensures var n := w.delivered - w0.delivered;
      Raised(w0.cancels, w.cancels, if SawFailure(w0, sensitive) then Max(1, n) else n)
    ensures !result.Unfinished? ==> Explains(result, w.tasks, w.delivered > w0.delivered)
    ensures result.Values? ==> w.cancels == w0.cancels
  {
    w := w0;
    if w.tasks == [] {
      return w, Values([]);
    }

    var failed := false;
    if sensitive {
      var r;
      w, r, failed := SensitivePhase(w);
      if r.Suspended? {
        return w, Unfinished;
      }
    }

    var finished;
    w, finished := Drain(w, failed);
    if !finished {
      return w, Unfinished;
    }
    result := Conclude(w.tasks, w.delivered > w0.delivered);
  }

  // ---------- conditions on the schedule alone ----------

  /** The sensitive wait has something to return for: an exception, or nothing left to wait for. */
  predicate Noticed<T>(tasks: seq<Future<T>>) {
    || (forall i :: 0 <= i < |tasks| ==> tasks[i].Done?)
    || (exists i :: 0 <= i < |tasks| && tasks[i].Done? && tasks[i].outcome.Failure?)
  }

  /** The first turn with something to return for is event `j`, uncancelled, and some task has failed by then. */
  ghost predicate FailsAt<T>(w: World<T>, j: nat) {
    && j < |w.schedule| && w.schedule[j].Turn? && Noticed(TasksAt(w, j))
    && (exists i :: 0 <= i < |w.tasks| && TasksAt(w, j)[i].Done? && !TasksAt(w, j)[i].outcome.Success?)
    && forall k :: 0 <= k < j ==> !w.schedule[k].OuterCancel? && !(w.schedule[k].Turn? && Noticed(TasksAt(w, k)))
  }

  /** So the sensitive phase sees a failure exactly if the schedule says so. */
  lemma SawFailureIff<T>(w: World<T>)
    requires w.tasks != []
    ensures SawFailure(w, true) <==> exists j :: FailsAt(w, j)
  {
    if j: nat :| FailsAt(w, j) {
      assert StopsFirst(w, FirstException, j);
      WaitStops(w, FirstException, j);
      var i :| 0 <= i < |w.tasks| && TasksAt(w, j)[i].Done? && !TasksAt(w, j)[i].outcome.Success?;
      assert Failed(Wait(w, FirstException).0.tasks[i]);
    }
    if SawFailure(w, true) {
      WaitsOn(w, FirstException);
      var j: nat :| StopsFirst(w, FirstException, j);
      WaitStops(w, FirstException, j);
      forall k | 0 <= k < j
        ensures !w.schedule[k].OuterCancel? && !(w.schedule[k].Turn? && Noticed(TasksAt(w, k)))
      {
        assert !StopsAt(w, FirstException, k);
      }
      assert FailsAt(w, j);
    }
  }

  ghost predicate NoCancel<T>(schedule: seq<Event<T>>) {
    forall k :: 0 <= k < |schedule| ==> !schedule[k].OuterCancel?
  }

  /** Event `j` is a turn by which all tasks have succeeded, and no cancellation comes before it. */
  ghost predicate QuietUntil<T>(w: World<T>, j: nat) {
    && j < |w.schedule| && w.schedule[j].Turn? && NoCancel(w.schedule[..j])
    && forall i :: 0 <= i < |w.tasks| ==>
      var f := Fate(w.tasks[i], i, w.schedule[..j]); f.Done? && f.outcome.Success?
  }

  ghost predicate Quiet<T>(w: World<T>) {
    exists j :: QuietUntil(w, j)
  }

  /** The wait for all tasks ends undisturbed with their results. */
  predicate WaitsQuietly<T>(w: World<T>) {
    var (v, r) := Wait(w, AllCompleted);
    r.Ready? && AllSucceeded(v.tasks)
  }

  ghost predicate AllActive<T>(w: World<T>) {
    forall i: nat :: i < |w.tasks| ==> i in w.active
  }

  /** One event that is neither a cancellation nor the end of the wait shifts the condition by one place. */
  lemma QuietShifts<T>(w: World<T>, j: nat)
    requires AllActive(w) && w.schedule != [] && !w.schedule[0].OuterCancel?
    ensures var rest := Happen(w, w.schedule[0]).(schedule := w.schedule[1..]);
      QuietUntil(w, j + 1) <==> QuietUntil(rest, j)
  {
    var e := w.schedule[0];
    var rest := Happen(w, e).(schedule := w.schedule[1..]);
    if j < |rest.schedule| {
      var longer, shorter := w.schedule[..j + 1], rest.schedule[..j];
      assert longer == [e] + shorter && longer[1..] == shorter;
      assert NoCancel(longer) <==> NoCancel(shorter) by {
        assert forall k :: 0 <= k < |shorter| ==> shorter[k] == longer[1 + k];
      }
      forall i: nat | i < |w.tasks|
        ensures Fate(w.tasks[i], i, longer) == Fate(rest.tasks[i], i, shorter)
      {
      }
    }
  }

  /** A turn right at the start ends the wait iff all tasks are done. */
  lemma QuietNow<T>(w: World<T>)
    requires w.schedule != [] && w.schedule[0].Turn?
    ensures QuietUntil(w, 0) <==> AllSucceeded(w.tasks)
    ensures AllDone(w.tasks) ==> (Quiet(w) <==> AllSucceeded(w.tasks))
  {
    assert w.schedule[..0] == [];
    if AllSucceeded(w.tasks) {
      assert QuietUntil(w, 0);
    }
  }

  /** The wait of `gather` is undisturbed and brings all results, exactly if the schedule says so. */
  lemma {:induction false} QuietIff<T>(w: World<T>)
    requires AllActive(w)
    ensures WaitsQuietly(w) <==> Quiet(w)
    decreases |w.schedule|
  {
    if w.schedule != [] {
      var e := w.schedule[0];
      var rest := Happen(w, e).(schedule := w.schedule[1..]);
      if e.OuterCancel? {
        assert forall j :: 0 < j < |w.schedule| ==> w.schedule[..j][0] == e;
      } else {
        QuietIff(rest);
        if e.Turn? {
          QuietNow(w);
        }
        if j: nat :| QuietUntil(rest, j) {
          QuietShifts(w, j);
        }
        if j: nat :| QuietUntil(w, j) && j > 0 {
          QuietShifts(w, j - 1);
        }
      }
    }
  }

  /** So is the outcome of the retry loop. */
  lemma {:induction false} DrainsQuietlyIff<T>(w: World<T>)
    requires AllActive(w)
    ensures var (v, over) := Drained(w, false);
      && v.delivered >= w.delivered
      && (over && AllSucceeded(v.tasks) && v.delivered == w.delivered <==> Quiet(w))
  {
    QuietIff(w);
    WaitIsLater(w, AllCompleted);
    var (v, r) := Wait(w, AllCompleted);
    if r.Interrupted? {
      DeliveredGrows(CancelAll(v, Range(0, |v.tasks|)), false);
    }
  }

  lemma {:induction false} DeliveredGrows<T>(w: World<T>, failed: bool)
    ensures Drained(w, failed).0.delivered >= w.delivered
    decreases |w.schedule|
  {
    WaitIsLater(w, AllCompleted);
    var (v, r) := Wait(w, AllCompleted);
    if r.Interrupted? {
      DeliveredGrows(if failed then v else CancelAll(v, Range(0, |v.tasks|)), false);
    }
  }
}
