/**
 Every run of the parent/child protocol: any number of calls to spawn, cancelled at any time,
 over two FIFO channels of whole messages, with a child that may shut down or die at any point.
 */
module MultiprocessingRuns {
  import opened Wrappers
  import opened Futures
  import opened Multiprocessing

  datatype State<T> = State(
    parent: Parent<T>,
    calls: map<Id, Call<T>>,
    looping: bool,               // the receive loop of the parent is still running
    ended: bool,                 // it ended by reading the end of the connection
    broken: bool,                // a send to the dead child has failed
    toChild: seq<ToChild>,
    toParent: seq<ToParent<T>>,
    child: Child,
    receiving: bool,             // the receive loop of the child is still running
    alive: bool,
    lost: set<Id>,               // ids that died with the child
    reports: map<Id, Outcome<T>>)   // what the child sent, message by message

  function Begin<T>(): State<T> {
    State(Parent(0, {}, map[]), map[], true, false, false, [], [], map[], true, true, {}, map[])
  }

  datatype Step<T> =
    | Spawn
    | CancelCall(id: Id)          // the task awaiting spawn is cancelled
    | ResumeCall(id: Id)          // it wakes up with its future done
    | SendShutdown
    | ParentReceive
    | ParentEof
    | ReaderFails                 // the error of the failed send ends the receive loop
    | StopLoop                    // the context of the process is left, cancelling `_loop`
    | ChildReceive
    | ChildStart(id: Id)
    | ChildDone(id: Id, outcome: Outcome<T>)
    | ChildExit(kept: nat)        // only the first `kept` unread Finish messages survive

  predicate Enabled<T>(s: State<T>, step: Step<T>) {
    match step
    case Spawn => true
    case CancelCall(id) => id in s.calls && s.calls[id].Waiting? && id in s.parent.futures
    case ResumeCall(id) =>
      id in s.calls && s.calls[id].Waiting? && id in s.parent.futures && s.parent.futures[id].Done?
    case SendShutdown => s.alive
    case ParentReceive => s.looping && s.toParent != []
    case ParentEof => s.looping && s.toParent == [] && !s.alive
    case ReaderFails => s.looping && s.broken
    case StopLoop => s.looping
    case ChildReceive => s.alive && s.receiving && s.toChild != []
    case ChildStart(id) => s.alive && id in s.child && (s.child[id].NotStarted? || s.child[id].Doomed?)
    case ChildDone(id, _) => s.alive && id in s.child && s.child[id].Running?
    case ChildExit(kept) => s.alive && kept <= |s.toParent|
  }

  /** The parent can handle its next message: the pop hits and the future is not done. */
  predicate Handles<T>(s: State<T>, step: Step<T>) {
    && (step.ParentReceive? && s.toParent != [] ==> CanFinish(s.parent, s.toParent[0].id))
    && (step.ParentEof? ==> CanFail(s.parent))
  }

  /** All the ids that the death of the child takes along. */
  function Casualties<T>(s: State<T>, kept: nat): set<Id>
    requires kept <= |s.toParent|
  {
    set id |
      && 0 <= id < s.parent.nextTaskId
      && (Creates(s.toChild, id) + Finishes(s.toParent[kept..], id) > 0 || id in s.child)
  }

  function Apply<T>(s: State<T>, step: Step<T>): State<T>
    requires Enabled(s, step)
  {
    match step
    case Spawn =>
      if s.alive then
        s.(parent := Register(s.parent),
           calls := s.calls[s.parent.nextTaskId := Waiting(false)],
           toChild := s.toChild + [Create(s.parent.nextTaskId)])
      else
        s.(parent := Refuse(s.parent), calls := s.calls[s.parent.nextTaskId := SendFailed], broken := true)
    case CancelCall(id) =>
      var call := Interrupted(s.parent.futures[id], s.alive);
      s.(calls := s.calls[id := call],
         broken := s.broken || call.SendFailed?,
         toChild := if call.Waiting? then s.toChild + [Cancel(id)] else s.toChild)
    case ResumeCall(id) =>
      s.(calls := s.calls[id := Conclude(s.calls[id].cancelled, s.parent.futures[id].outcome)])
    case SendShutdown => s.(toChild := s.toChild + [Shutdown])
    case ParentReceive =>
      s.(parent := Complete(s.parent, s.toParent[0].id, s.toParent[0].outcome), toParent := s.toParent[1..])
    case ParentEof => s.(parent := FailAll(s.parent), looping := false, ended := true, lost := {})
    case ReaderFails => s.(looping := false)
    case StopLoop => s.(looping := false)
    case ChildReceive =>
      s.(child := Receive(s.child, s.toChild[0]),
         receiving := !s.toChild[0].Shutdown?,
         toChild := s.toChild[1..])
    case ChildStart(id) => s.(child := Multiprocessing.Start(s.child, id))
    case ChildDone(id, outcome) =>
      s.(child := Report(s.child, id),
         toParent := s.toParent + [Finish(id, outcome)],
         reports := s.reports[id := outcome])
    case ChildExit(kept) =>
      s.(alive := false, child := map[], toChild := [], toParent := s.toParent[..kept], lost := Casualties(s, kept))
  }

  predicate IsRun<T>(s: State<T>, steps: seq<Step<T>>)
    decreases |steps|
  {
    steps == [] || (Enabled(s, steps[0]) && IsRun(Apply(s, steps[0]), steps[1..]))
  }

  function After<T>(s: State<T>, steps: seq<Step<T>>): State<T>
    requires IsRun(s, steps)
    decreases |steps|
  {
    if steps == [] then s else After(Apply(s, steps[0]), steps[1..])
  }

  // ---------- where an id is ----------

  function Creates(q: seq<ToChild>, id: Id): nat {
    if q == [] then 0 else One(q[0] == Create(id)) + Creates(q[1..], id)
  }

  function Finishes<T>(q: seq<ToParent<T>>, id: Id): nat {
    if q == [] then 0 else One(q[0].id == id) + Finishes(q[1..], id)
  }

  lemma {:induction false} CreatesAppend(q: seq<ToChild>, m: ToChild, id: Id)
    ensures Creates(q + [m], id) == Creates(q, id) + One(m == Create(id))
  {
    if q != [] {
      assert (q + [m])[1..] == q[1..] + [m];
      CreatesAppend(q[1..], m, id);
    }
  }

  lemma {:induction false} FinishesConcat<T>(a: seq<ToParent<T>>, b: seq<ToParent<T>>, id: Id)
    ensures Finishes(a + b, id) == Finishes(a, id) + Finishes(b, id)
  {
    if a == [] {
      assert a + b == b;
    } else {
      assert (a + b)[1..] == a[1..] + b;
      FinishesConcat(a[1..], b, id);
    }
  }

  lemma {:induction false} FinishesMember<T>(q: seq<ToParent<T>>, i: nat)
    requires i < |q|
    ensures Finishes(q, q[i].id) > 0
  {
    if i > 0 {
      FinishesMember(q[1..], i - 1);
    }
  }

  predicate Completed<T>(s: State<T>, id: Id) {
    id in s.parent.futures && s.parent.futures[id].Done?
  }

  /** Its Create message could not be sent. */
  predicate Refused<T>(s: State<T>, id: Id) {
    id < s.parent.nextTaskId && id !in s.parent.futures
  }

  /**
   In how many places an id is: a Create message, the table of the child (not started, running
   or dropped), a Finish message, the losses of a dead child, the completed futures, or the
   calls whose Create was never sent.
   */
  function Places<T>(s: State<T>, id: Id): nat {
    Creates(s.toChild, id) + One(id in s.child) + Finishes(s.toParent, id)
      + One(id in s.lost) + One(Completed(s, id)) + One(Refused(s, id))
  }

  ghost predicate PlaceInv<T>(s: State<T>) {
    forall id: Id :: Places(s, id) == One(id < s.parent.nextTaskId)
  }

  /** The parent table holds exactly the ids sent and not completed. */
  ghost predicate TableInv<T>(s: State<T>) {
    && (forall id :: id in s.parent.futures ==> id < s.parent.nextTaskId)
    && (forall id :: id in s.parent.tasks <==> id in s.parent.futures && s.parent.futures[id].Pending?)
  }

  /** A Cancel message travels behind the Create message of its task. */
  ghost predicate OrderInv<T>(s: State<T>) {
    && (forall i, j :: 0 <= i < j < |s.toChild| && s.toChild[i].Cancel? ==> s.toChild[j] != Create(s.toChild[i].id))
    && (forall i :: 0 <= i < |s.toChild| && !s.toChild[i].Shutdown? ==> s.toChild[i].id < s.parent.nextTaskId)
    && (if s.alive then s.lost == {} else s.toChild == [] && s.child == map[])
    && (s.ended ==> !s.alive && !s.looping && s.toParent == [] && s.parent.tasks == {})
  }

  ghost predicate CoreInv<T>(s: State<T>) {
    PlaceInv(s) && TableInv(s) && OrderInv(s)
  }

  /** A Finish message carries what the child reported for its task. */
  ghost predicate InFlightInv<T>(s: State<T>) {
    forall i :: 0 <= i < |s.toParent| ==>
      s.toParent[i].id in s.reports && s.toParent[i].outcome == s.reports[s.toParent[i].id]
  }

  /** A task that reported is not known to the child any more, nor about to be. */
  ghost predicate ReportedInv<T>(s: State<T>) {
    forall id :: id in s.reports ==> id < s.parent.nextTaskId && id !in s.child && Creates(s.toChild, id) == 0
  }

  /** A future ends as the child reported, or fails with the connection. */
  ghost predicate OutcomeInv<T>(s: State<T>) {
    forall id :: Completed(s, id) ==>
      || (id in s.reports && s.parent.futures[id].outcome == s.reports[id])
      || (s.ended && s.parent.futures[id].outcome == Failure(CONNECTION_CLOSED))
  }

  ghost predicate ResultInv<T>(s: State<T>) {
    forall id :: id in s.calls && s.calls[id].Returned? ==>
      id in s.parent.futures && s.parent.futures[id] == Done(Success(s.calls[id].value))
  }

  ghost predicate Inv<T>(s: State<T>) {
    CoreInv(s) && InFlightInv(s) && ReportedInv(s) && OutcomeInv(s) && ResultInv(s)
  }

  /** A message about to be read names an entry that is there and not completed. */
  lemma NextIsPending<T>(s: State<T>)
    requires PlaceInv(s) && TableInv(s) && s.toParent != []
    ensures CanFinish(s.parent, s.toParent[0].id)
  {
    var id := s.toParent[0].id;
    FinishesMember(s.toParent, 0);
    assert Places(s, id) == One(id < s.parent.nextTaskId);
  }

  lemma PlaceSpawn<T>(s: State<T>, id: Id)
    requires CoreInv(s)
    ensures Places(Apply(s, Spawn), id) == One(id <= s.parent.nextTaskId)
  {
    assert Places(s, id) == One(id < s.parent.nextTaskId);
    CreatesAppend(s.toChild, Create(s.parent.nextTaskId), id);
  }

  lemma PlaceFinish<T>(s: State<T>, id: Id)
    requires CoreInv(s) && Enabled(s, ParentReceive)
    ensures Places(Apply(s, ParentReceive), id) == One(id < s.parent.nextTaskId)
  {
    assert Places(s, id) == One(id < s.parent.nextTaskId);
    NextIsPending(s);
  }

  lemma PlaceEof<T>(s: State<T>, id: Id)
    requires CoreInv(s) && Enabled(s, ParentEof)
    ensures Places(Apply(s, ParentEof), id) == One(id < s.parent.nextTaskId)
  {
    assert Places(s, id) == One(id < s.parent.nextTaskId);
  }

  lemma PlaceMessage<T>(s: State<T>, step: Step<T>, id: Id)
    requires CoreInv(s) && Enabled(s, step) && (step.CancelCall? || step.SendShutdown?)
    ensures Places(Apply(s, step), id) == One(id < s.parent.nextTaskId)
  {
    assert Places(s, id) == One(id < s.parent.nextTaskId);
    CreatesAppend(s.toChild, if step.CancelCall? then Cancel(step.id) else Shutdown, id);
  }

  lemma PlaceStepParent<T>(s: State<T>, step: Step<T>, id: Id)
    requires CoreInv(s) && Enabled(s, step)
    requires !step.ChildReceive? && !step.ChildStart? && !step.ChildDone? && !step.ChildExit?
    ensures Places(Apply(s, step), id) == One(id < Apply(s, step).parent.nextTaskId)
  {
    assert Places(s, id) == One(id < s.parent.nextTaskId);
    match step
    case Spawn => PlaceSpawn(s, id);
    case CancelCall(_) => PlaceMessage(s, step, id);
    case SendShutdown => PlaceMessage(s, step, id);
    case ParentReceive => PlaceFinish(s, id);
    case ParentEof => PlaceEof(s, id);
    case ResumeCall(_) =>
    case StopLoop =>
    case ReaderFails =>
  }

  lemma PlaceStepChild<T>(s: State<T>, step: Step<T>, id: Id)
    requires CoreInv(s) && Enabled(s, step)
    requires step.ChildReceive? || step.ChildStart? || step.ChildDone? || step.ChildExit?
    ensures Places(Apply(s, step), id) == One(id < s.parent.nextTaskId)
  {
    assert Places(s, id) == One(id < s.parent.nextTaskId);
    match step
    case ChildDone(c, outcome) =>
      FinishesConcat(s.toParent, [Finish(c, outcome)], id);
      assert Finishes([Finish(c, outcome)], id) == One(c == id);
    case ChildExit(kept) =>
      assert s.toParent == s.toParent[..kept] + s.toParent[kept..];
      FinishesConcat(s.toParent[..kept], s.toParent[kept..], id);
    case _ =>
  }

  lemma CoreStep<T>(s: State<T>, step: Step<T>)
    requires CoreInv(s) && Enabled(s, step)
    ensures CoreInv(Apply(s, step))
  {
    var t := Apply(s, step);
    forall id: Id
      ensures Places(t, id) == One(id < t.parent.nextTaskId)
    {
      if step.ChildReceive? || step.ChildStart? || step.ChildDone? || step.ChildExit? {
        PlaceStepChild(s, step, id);
      } else {
        PlaceStepParent(s, step, id);
      }
    }
    TableStep(s, step);
    OrderStep(s, step);
  }

  lemma TableStep<T>(s: State<T>, step: Step<T>)
    requires CoreInv(s) && Enabled(s, step)
    ensures TableInv(Apply(s, step))
  {
    if step.ParentReceive? {
      NextIsPending(s);
    }
  }

  lemma OrderStep<T>(s: State<T>, step: Step<T>)
    requires CoreInv(s) && Enabled(s, step)
    ensures OrderInv(Apply(s, step))
  {
    if step.ParentReceive? {
      NextIsPending(s);
    }
  }

  lemma InFlightStep<T>(s: State<T>, step: Step<T>)
    requires Inv(s) && Enabled(s, step)
    ensures InFlightInv(Apply(s, step))
  {
    if step.ChildDone? {
      assert Places(s, step.id) <= 1;
      var t := Apply(s, step);
      forall i | 0 <= i < |t.toParent|
        ensures t.toParent[i].id in t.reports && t.toParent[i].outcome == t.reports[t.toParent[i].id]
      {
        if i < |s.toParent| {
          FinishesMember(s.toParent, i);
        }
      }
    }
  }

  lemma ReportedSend<T>(s: State<T>, step: Step<T>, id: Id)
    requires PlaceInv(s) && ReportedInv(s) && Enabled(s, step) && id in s.reports
    requires step.Spawn? || step.CancelCall? || step.SendShutdown?
    ensures var t := Apply(s, step); id < t.parent.nextTaskId && id !in t.child && Creates(t.toChild, id) == 0
  {
    CreatesAppend(s.toChild,
      if step.Spawn? then Create(s.parent.nextTaskId) else if step.CancelCall? then Cancel(step.id) else Shutdown, id);
  }

  lemma ReportedChild<T>(s: State<T>, step: Step<T>, id: Id)
    requires PlaceInv(s) && ReportedInv(s) && Enabled(s, step) && id in Apply(s, step).reports
    requires step.ChildReceive? || step.ChildStart? || step.ChildDone? || step.ChildExit?
    ensures var t := Apply(s, step); id < t.parent.nextTaskId && id !in t.child && Creates(t.toChild, id) == 0
  {
    assert Places(s, id) == One(id < s.parent.nextTaskId);
    match step
    case ChildReceive =>
    case ChildDone(_, _) =>
    case _ =>
  }

  lemma ReportedStep<T>(s: State<T>, step: Step<T>)
    requires CoreInv(s) && ReportedInv(s) && Enabled(s, step)
    ensures ReportedInv(Apply(s, step))
  {
    var t := Apply(s, step);
    forall id | id in t.reports
      ensures id < t.parent.nextTaskId && id !in t.child && Creates(t.toChild, id) == 0
    {
      if step.Spawn? || step.CancelCall? || step.SendShutdown? {
        ReportedSend(s, step, id);
      } else if step.ChildReceive? || step.ChildStart? || step.ChildDone? || step.ChildExit? {
        ReportedChild(s, step, id);
      }
    }
  }

  lemma OutcomeStep<T>(s: State<T>, step: Step<T>)
    requires CoreInv(s) && InFlightInv(s) && OutcomeInv(s) && Enabled(s, step)
    ensures OutcomeInv(Apply(s, step))
  {
    if step.ParentReceive? {
      NextIsPending(s);
    } else if step.ChildDone? {
      assert Places(s, step.id) <= 1;
    }
  }

  lemma ResultStep<T>(s: State<T>, step: Step<T>)
    requires TableInv(s) && PlaceInv(s) && ResultInv(s) && Enabled(s, step)
    ensures ResultInv(Apply(s, step))
  {
    if step.ParentReceive? {
      NextIsPending(s);
    }
  }

  lemma InvStep<T>(s: State<T>, step: Step<T>)
    requires Inv(s) && Enabled(s, step)
    ensures Inv(Apply(s, step))
  {
    CoreStep(s, step);
    InFlightStep(s, step);
    ReportedStep(s, step);
    OutcomeStep(s, step);
    ResultStep(s, step);
  }

  lemma {:induction false} InvRun<T>(s: State<T>, steps: seq<Step<T>>)
    requires Inv(s) && IsRun(s, steps)
    ensures Inv(After(s, steps))
    decreases |steps|
  {
    if steps != [] {
      InvStep(s, steps[0]);
      InvRun(Apply(s, steps[0]), steps[1..]);
    }
  }

  lemma StartInv<T>()
    ensures Inv<T>(Begin())
  {
  }

  // ---------- what every run keeps ----------

  /** Task conservation: each id handed out so far is in exactly one place, and no other id is anywhere. */
  lemma TasksConserved<T>(steps: seq<Step<T>>, id: Id)
    requires IsRun(Begin(), steps)
    ensures var s := After(Begin(), steps);
      && Places(s, id) == One(id < s.parent.nextTaskId)
      && (id in s.parent.tasks <==> id < s.parent.nextTaskId && !Completed(s, id) && !Refused(s, id))
  {
    StartInv<T>();
    InvRun(Begin(), steps);
  }

  /** Every pop of the parent table hits, and no future is completed while it is done. */
  lemma ParentNeverFails<T>(steps: seq<Step<T>>, step: Step<T>)
    requires IsRun(Begin(), steps) && Enabled(After(Begin(), steps), step)
    ensures Handles(After(Begin(), steps), step)
  {
    StartInv<T>();
    InvRun(Begin(), steps);
    if step.ParentReceive? {
      NextIsPending(After(Begin(), steps));
    }
  }

  /** When the child reads a Cancel message, it has read the Create message of that task before. */
  lemma CancelNeverOvertakes<T>(steps: seq<Step<T>>)
    requires IsRun(Begin(), steps)
    ensures var s := After(Begin(), steps);
      s.toChild != [] && s.toChild[0].Cancel? ==>
        s.toChild[0].id < s.parent.nextTaskId && Creates(s.toChild, s.toChild[0].id) == 0
  {
    StartInv<T>();
    InvRun(Begin(), steps);
    var s := After(Begin(), steps);
    if s.toChild != [] && s.toChild[0].Cancel? {
      NoCreate(s.toChild, s.toChild[0].id);
    }
  }

  lemma {:induction false} NoCreate(q: seq<ToChild>, id: Id)
    requires forall j :: 0 <= j < |q| ==> q[j] != Create(id)
    ensures Creates(q, id) == 0
  {
    if q != [] {
      NoCreate(q[1..], id);
    }
  }

  /** Once the parent has seen the end of the connection, no registered future is pending, ever. */
  lemma NothingPendingAfterEof<T>(steps: seq<Step<T>>, id: Id)
    requires IsRun(Begin(), steps) && After(Begin(), steps).ended
    ensures var s := After(Begin(), steps); id in s.parent.futures ==> s.parent.futures[id].Done?
  {
    StartInv<T>();
    InvRun(Begin(), steps);
  }

  lemma CompletedStep<T>(s: State<T>, step: Step<T>, id: Id)
    requires CoreInv(s) && Enabled(s, step) && Completed(s, id)
    ensures var t := Apply(s, step); Completed(t, id) && t.parent.futures[id] == s.parent.futures[id]
  {
    match step
    case ParentReceive => NextIsPending(s);
    case ParentEof =>
    case Spawn =>
    case _ =>
  }

  /** A completed future keeps its outcome: it is completed at most once. */
  lemma {:induction false} CompletedOnce<T>(s: State<T>, steps: seq<Step<T>>, id: Id)
    requires Inv(s) && IsRun(s, steps) && Completed(s, id)
    ensures var t := After(s, steps); Completed(t, id) && t.parent.futures[id] == s.parent.futures[id]
    decreases |steps|
  {
    if steps != [] {
      InvStep(s, steps[0]);
      CompletedStep(s, steps[0], id);
      CompletedOnce(Apply(s, steps[0]), steps[1..], id);
    }
  }

  /** A value returned by spawn is the one its function produced in the child. */
  lemma ResultsAreFaithful<T>(steps: seq<Step<T>>, id: Id)
    requires IsRun(Begin(), steps)
    ensures var s := After(Begin(), steps);
      id in s.calls && s.calls[id].Returned? ==> id in s.reports && s.reports[id] == Success(s.calls[id].value)
  {
    StartInv<T>();
    InvRun(Begin(), steps);
  }

  /** The call was cancelled or has ended otherwise than by returning a value. */
  predicate WillNotReturn<T>(s: State<T>, id: Id) {
    id in s.calls && !s.calls[id].Returned? && (s.calls[id].Waiting? ==> s.calls[id].cancelled)
  }

  lemma WillNotReturnStep<T>(s: State<T>, step: Step<T>, id: Id)
    requires Enabled(s, step) && id < s.parent.nextTaskId && id in s.calls
    requires WillNotReturn(s, id) || step == CancelCall(id)
    ensures WillNotReturn(Apply(s, step), id)
  {
  }

  lemma CallStays<T>(s: State<T>, step: Step<T>, id: Id)
    requires Enabled(s, step) && id < s.parent.nextTaskId && id in s.calls
    ensures id < Apply(s, step).parent.nextTaskId && id in Apply(s, step).calls
  {
    match step
    case Spawn =>
    case CancelCall(c) =>
    case ResumeCall(c) =>
    case _ =>
  }

  /** A call that was cancelled while it waited never returns a value, even if the task succeeds. */
  lemma {:induction false} CancelledCallNeverReturns<T>(s: State<T>, steps: seq<Step<T>>, id: Id)
    requires IsRun(s, steps) && id in s.calls && id < s.parent.nextTaskId
    requires WillNotReturn(s, id) || CancelCall(id) in steps
    ensures WillNotReturn(After(s, steps), id)
    decreases |steps|
  {
    if steps != [] {
      assert steps == [steps[0]] + steps[1..];
      CallStays(s, steps[0], id);
      var t := Apply(s, steps[0]);
      if WillNotReturn(s, id) || steps[0] == CancelCall(id) {
        WillNotReturnStep(s, steps[0], id);
      }
      CancelledCallNeverReturns(t, steps[1..], id);
    }
  }

  /** A call that was never cancelled waits, failed to send its message, or ends as its future did. */
  ghost predicate Undisturbed<T>(s: State<T>, id: Id) {
    id in s.calls &&
    match s.calls[id]
    case Waiting(cancelled) => !cancelled && id in s.parent.futures
    case SendFailed => id !in s.parent.futures
    case Returned(v) => Completed(s, id) && s.parent.futures[id] == Done(Success(v))
    case Raised(e) => Completed(s, id) && s.parent.futures[id] == Done(Failure(e))
    case RaisedCancelled => Completed(s, id) && s.parent.futures[id].outcome.Cancelled?
  }

  lemma UndisturbedStep<T>(s: State<T>, step: Step<T>, id: Id)
    requires CoreInv(s) && Enabled(s, step) && step != CancelCall(id)
    requires if id < s.parent.nextTaskId then Undisturbed(s, id) else id !in s.calls
    ensures var t := Apply(s, step);
      if id < t.parent.nextTaskId then Undisturbed(t, id) else id !in t.calls
  {
    if Completed(s, id) {
      CompletedStep(s, step, id);
    }
    match step
    case Spawn =>
    case CancelCall(_) =>
    case ResumeCall(_) =>
    case ParentReceive => NextIsPending(s);
    case ParentEof =>
    case _ =>
  }

  lemma {:induction false} UndisturbedRun<T>(s: State<T>, steps: seq<Step<T>>, id: Id)
    requires Inv(s) && IsRun(s, steps) && CancelCall(id) !in steps
    requires if id < s.parent.nextTaskId then Undisturbed(s, id) else id !in s.calls
    ensures var t := After(s, steps);
      if id < t.parent.nextTaskId then Undisturbed(t, id) else id !in t.calls
    decreases |steps|
  {
    if steps != [] {
      assert steps == [steps[0]] + steps[1..];
      UndisturbedStep(s, steps[0], id);
      InvStep(s, steps[0]);
      UndisturbedRun(Apply(s, steps[0]), steps[1..], id);
    }
  }

  /**
   The converse: a call that is never cancelled, once it has ended, has returned the value that its task
   reported, or raised the error that its task or the end of the connection brought; and once its future is
   done, it ends at its next step.
   */
  lemma UncancelledCallsSucceed<T>(steps: seq<Step<T>>, id: Id)
    requires IsRun(Begin(), steps) && CancelCall(id) !in steps
    requires id in After(Begin(), steps).calls && Completed(After(Begin(), steps), id)
    ensures var s := After(Begin(), steps);
      && (s.calls[id] == Waiting(false) || Ended(s, id))
      && (s.calls[id] == Waiting(false) ==> Enabled(s, ResumeCall(id)) && Ended(Apply(s, ResumeCall(id)), id))
  {
    StartInv<T>();
    InvRun(Begin(), steps);
    UndisturbedRun(Begin(), steps, id);
    var s := After(Begin(), steps);
    assert id in s.parent.futures && id < s.parent.nextTaskId;
  }

  /** The call has ended as its task reported, or as the end of the connection says. */
  ghost predicate Ended<T>(s: State<T>, id: Id) {
    id in s.calls &&
    if id in s.reports && s.reports[id].Success? then s.calls[id] == Returned(s.reports[id].value) || Lost(s, id)
    else if id in s.reports && s.reports[id].Failure? then s.calls[id] == Raised(s.reports[id].error) || Lost(s, id)
    else if id in s.reports then s.calls[id].RaisedCancelled? || Lost(s, id)
    else Lost(s, id)
  }

  /** The connection has ended before the report of the task was read. */
  predicate Lost<T>(s: State<T>, id: Id) {
    s.ended && id in s.calls && s.calls[id] == Raised(CONNECTION_CLOSED) && Completed(s, id)
      && s.parent.futures[id] == Done(Failure(CONNECTION_CLOSED))
  }

  // ---------- the channel to the child, and what a task is told ----------

  /** The message that a step puts into the channel. */
  function Sends<T>(s: State<T>, step: Step<T>): seq<ToChild> {
    match step
    case Spawn => if s.alive then [Create(s.parent.nextTaskId)] else []
    case CancelCall(id) =>
      if s.alive && id in s.parent.futures && s.parent.futures[id].Pending? then [Cancel(id)] else []
    case SendShutdown => [Shutdown]
    case _ => []
  }

  /** The message that a step takes out. */
  function Reads<T>(s: State<T>, step: Step<T>): seq<ToChild> {
    if step.ChildReceive? && s.toChild != [] then [s.toChild[0]] else []
  }

  function AllSent<T>(s: State<T>, steps: seq<Step<T>>): seq<ToChild>
    requires IsRun(s, steps)
    decreases |steps|
  {
    if steps == [] then [] else Sends(s, steps[0]) + AllSent(Apply(s, steps[0]), steps[1..])
  }

  function AllRead<T>(s: State<T>, steps: seq<Step<T>>): seq<ToChild>
    requires IsRun(s, steps)
    decreases |steps|
  {
    if steps == [] then [] else Reads(s, steps[0]) + AllRead(Apply(s, steps[0]), steps[1..])
  }

  lemma ChannelStep<T>(s: State<T>, step: Step<T>)
    requires Enabled(s, step) && !step.ChildExit?
    ensures s.toChild + Sends(s, step) == Reads(s, step) + Apply(s, step).toChild
  {
    match step
    case Spawn =>
    case CancelCall(_) =>
    case SendShutdown =>
    case ChildReceive =>
    case _ =>
  }

  /**
   While the child lives it reads what was sent, in that order: one Create for each call, with its id, one
   Cancel for each cancellation of a call that is still pending, with the id of that call, and the Shutdown.
   */
  lemma {:induction false} MessagesArriveInOrder<T>(s: State<T>, steps: seq<Step<T>>)
    requires IsRun(s, steps) && After(s, steps).alive
    ensures s.toChild + AllSent(s, steps) == AllRead(s, steps) + After(s, steps).toChild
    decreases |steps|
  {
    if steps != [] {
      var t := Apply(s, steps[0]);
      if steps[0].ChildExit? {
        DeadStaysDead(t, steps[1..]);
      }
      ChannelStep(s, steps[0]);
      MessagesArriveInOrder(t, steps[1..]);
      Chain(s.toChild, Sends(s, steps[0]), Reads(s, steps[0]), t.toChild,
        AllSent(t, steps[1..]), AllRead(t, steps[1..]), After(t, steps[1..]).toChild);
    }
  }

  lemma Chain<X>(q: seq<X>, sent: seq<X>, read: seq<X>, q': seq<X>, sent': seq<X>, read': seq<X>, q'': seq<X>)
    requires q + sent == read + q' && q' + sent' == read' + q''
    ensures q + (sent + sent') == (read + read') + q''
  {
    assert q + (sent + sent') == (q + sent) + sent';
    assert (read + q') + sent' == read + (q' + sent');
    assert read + (read' + q'') == (read + read') + q'';
  }

  // The other channel.

  function Reports<T>(step: Step<T>): seq<ToParent<T>> {
    if step.ChildDone? then [Finish(step.id, step.outcome)] else []
  }

  function Collects<T>(s: State<T>, step: Step<T>): seq<ToParent<T>> {
    if step.ParentReceive? && s.toParent != [] then [s.toParent[0]] else []
  }

  function AllReported<T>(steps: seq<Step<T>>): seq<ToParent<T>> {
    if steps == [] then [] else Reports(steps[0]) + AllReported(steps[1..])
  }

  function AllCollected<T>(s: State<T>, steps: seq<Step<T>>): seq<ToParent<T>>
    requires IsRun(s, steps)
    decreases |steps|
  {
    if steps == [] then [] else Collects(s, steps[0]) + AllCollected(Apply(s, steps[0]), steps[1..])
  }

  lemma ReportStep<T>(s: State<T>, step: Step<T>)
    requires Enabled(s, step) && !step.ChildExit?
    ensures s.toParent + Reports(step) == Collects(s, step) + Apply(s, step).toParent
  {
    match step
    case ChildDone(_, _) =>
    case ParentReceive =>
    case CancelCall(_) =>
    case _ =>
  }

  /** While the child lives, the parent collects the outcomes of its tasks in the order in which they ended. */
  lemma {:induction false} ReportsArriveInOrder<T>(s: State<T>, steps: seq<Step<T>>)
    requires IsRun(s, steps) && After(s, steps).alive
    ensures s.toParent + AllReported(steps) == AllCollected(s, steps) + After(s, steps).toParent
    decreases |steps|
  {
    if steps != [] {
      var t := Apply(s, steps[0]);
      if steps[0].ChildExit? {
        DeadStaysDead(t, steps[1..]);
      }
      ReportStep(s, steps[0]);
      ReportsArriveInOrder(t, steps[1..]);
      Chain(s.toParent, Reports(steps[0]), Collects(s, steps[0]), t.toParent,
        AllReported(steps[1..]), AllCollected(t, steps[1..]), After(t, steps[1..]).toParent);
    }
  }

  /** A child that has stopped receiving reads nothing more. */
  lemma {:induction false} StoppedChildReadsNothing<T>(s: State<T>, steps: seq<Step<T>>)
    requires IsRun(s, steps) && !s.receiving
    ensures AllRead(s, steps) == [] && !After(s, steps).receiving
    decreases |steps|
  {
    if steps != [] {
      StoppedChildReadsNothing(Apply(s, steps[0]), steps[1..]);
    }
  }

  lemma ReceivesStep<T>(s: State<T>, step: Step<T>)
    requires Enabled(s, step)
    ensures Apply(s, step).receiving <==> s.receiving && Shutdown !in Reads(s, step)
  {
    match step
    case ChildReceive =>
    case CancelCall(_) =>
    case _ =>
  }

  /** The child receives until it reads the Shutdown message, and no longer. */
  lemma {:induction false} ReceivesUntilShutdown<T>(s: State<T>, steps: seq<Step<T>>)
    requires IsRun(s, steps)
    ensures After(s, steps).receiving <==> s.receiving && Shutdown !in AllRead(s, steps)
    decreases |steps|
  {
    if steps != [] {
      ReceivesStep(s, steps[0]);
      ReceivesUntilShutdown(Apply(s, steps[0]), steps[1..]);
    }
  }

  /** How many of these messages ask the task to stop. */
  function Told(messages: seq<ToChild>, id: Id): nat {
    if messages == [] then 0 else One(messages[0] == Cancel(id) || messages[0].Shutdown?) + Told(messages[1..], id)
  }

  /** Where the messages that the child reads lead a task that it does not start or end in the meantime. */
  function Heard(t: ChildTask, told: nat): ChildTask {
    if told == 0 then t
    else
      match t
      case NotStarted => Doomed
      case Running(n) => Running(n + told)
      case _ => t
  }

  lemma ToldStep<T>(s: State<T>, step: Step<T>, id: Id)
    requires CoreInv(s) && Enabled(s, step) && id in s.child && id in Apply(s, step).child && step != ChildStart(id)
    ensures Apply(s, step).child[id] == Heard(s.child[id], Told(Reads(s, step), id))
  {
    match step
    case ChildReceive =>
      assert Places(s, id) == One(id < s.parent.nextTaskId);
      assert s.toChild[0] != Create(id);
      assert Told([s.toChild[0]][1..], id) == 0;
    case ChildDone(_, _) =>
    case ChildExit(_) =>
    case ChildStart(_) =>
    case _ =>
  }

  lemma ToldAppend(a: seq<ToChild>, b: seq<ToChild>, id: Id)
    requires |a| <= 1
    ensures Told(a + b, id) == Told(a, id) + Told(b, id)
  {
    if a == [] {
      assert a + b == b;
    } else {
      assert (a + b)[1..] == b && a[1..] == [];
    }
  }

  lemma {:induction false} GoneStaysGone<T>(s: State<T>, steps: seq<Step<T>>, id: Id)
    requires CoreInv(s) && IsRun(s, steps) && id < s.parent.nextTaskId && id !in s.child && Creates(s.toChild, id) == 0
    ensures id !in After(s, steps).child
    decreases |steps|
  {
    if steps != [] {
      var t := Apply(s, steps[0]);
      CoreStep(s, steps[0]);
      ChannelStepCreates(s, steps[0], id);
      GoneStaysGone(t, steps[1..], id);
    }
  }

  lemma ChannelStepCreates<T>(s: State<T>, step: Step<T>, id: Id)
    requires CoreInv(s) && Enabled(s, step) && id < s.parent.nextTaskId && id !in s.child && Creates(s.toChild, id) == 0
    ensures var t := Apply(s, step); id < t.parent.nextTaskId && id !in t.child && Creates(t.toChild, id) == 0
  {
    if !step.ChildExit? {
      ChannelStep(s, step);
    }
    match step
    case Spawn => CreatesAppend(s.toChild, Create(s.parent.nextTaskId), id);
    case CancelCall(c) => CreatesAppend(s.toChild, Cancel(c), id);
    case SendShutdown => CreatesAppend(s.toChild, Shutdown, id);
    case _ =>
  }

  lemma HeardTwice(t: ChildTask, a: nat, b: nat)
    ensures Heard(Heard(t, a), b) == Heard(t, a + b)
  {
  }

  lemma StillThere<T>(s: State<T>, steps: seq<Step<T>>, id: Id)
    requires CoreInv(s) && IsRun(s, steps) && steps != [] && id in s.child && id in After(s, steps).child
    ensures id in Apply(s, steps[0]).child
  {
    var t := Apply(s, steps[0]);
    CoreStep(s, steps[0]);
    if id !in t.child {
      assert Places(s, id) == One(id < s.parent.nextTaskId);
      LeavesForGood(s, steps[0], id);
      GoneStaysGone(t, steps[1..], id);
    }
  }

  lemma LeavesForGood<T>(s: State<T>, step: Step<T>, id: Id)
    requires CoreInv(s) && Enabled(s, step) && id in s.child && id !in Apply(s, step).child
    ensures id < Apply(s, step).parent.nextTaskId && Creates(Apply(s, step).toChild, id) == 0
  {
    assert Places(s, id) == One(id < s.parent.nextTaskId);
  }

  /**
   Every task is told: one that is still there has been cancelled once for each of its Cancel messages, and
   for a Shutdown, that the child has read; a task not started yet is doomed by the first of them.
   */
  lemma {:induction false} TasksAreTold<T>(s: State<T>, steps: seq<Step<T>>, id: Id)
    requires CoreInv(s) && IsRun(s, steps) && id in s.child && ChildStart(id) !in steps
    requires id in After(s, steps).child
    ensures After(s, steps).child[id] == Heard(s.child[id], Told(AllRead(s, steps), id))
    decreases |steps|
  {
    if steps != [] {
      var t := Apply(s, steps[0]);
      assert steps == [steps[0]] + steps[1..];
      CoreStep(s, steps[0]);
      StillThere(s, steps, id);
      ToldStep(s, steps[0], id);
      TasksAreTold(t, steps[1..], id);
      ToldAppend(Reads(s, steps[0]), AllRead(t, steps[1..]), id);
      HeardTwice(s.child[id], Told(Reads(s, steps[0]), id), Told(AllRead(t, steps[1..]), id));
    }
  }

  /** A task starts uncancelled, unless it is doomed; then it is dropped. */
  lemma StartsUnlessDoomed<T>(s: State<T>, id: Id)
    requires Enabled(s, ChildStart(id))
    ensures var t := Apply(s, ChildStart(id)).child;
      t == s.child[id := if s.child[id].Doomed? then Dropped else Running(0)]
  {
  }

  // ---------- who waits forever ----------

  /** Both channels are empty and no task of the child can take another step. */
  predicate Quiet<T>(s: State<T>) {
    && s.alive && s.toChild == [] && s.toParent == []
    && (forall id :: id in s.child ==> s.child[id].Dropped?)
  }

  /** With nothing left to happen, the futures still pending are exactly those of dropped tasks. */
  lemma PendingIffDropped<T>(steps: seq<Step<T>>, id: Id)
    requires IsRun(Begin(), steps) && Quiet(After(Begin(), steps))
    ensures var s := After(Begin(), steps);
      id in s.parent.tasks <==> id in s.child && s.child[id].Dropped?
  {
    StartInv<T>();
    InvRun(Begin(), steps);
    var s := After(Begin(), steps);
    assert Places(s, id) == One(id < s.parent.nextTaskId);
  }

  predicate DroppedTask<T>(s: State<T>, id: Id) {
    id in s.child && s.child[id].Dropped?
  }

  lemma DroppedStep<T>(s: State<T>, step: Step<T>, id: Id)
    requires CoreInv(s) && Enabled(s, step) && DroppedTask(s, id) && Apply(s, step).alive
    ensures DroppedTask(Apply(s, step), id)
  {
    assert Places(s, id) == One(id < s.parent.nextTaskId);
    assert Creates(s.toChild, id) == 0;
  }

  /** A task dropped before its first step stays unanswered for as long as the child lives. */
  lemma {:induction false} DroppedStaysPending<T>(s: State<T>, steps: seq<Step<T>>, id: Id)
    requires CoreInv(s) && IsRun(s, steps) && DroppedTask(s, id) && After(s, steps).alive
    ensures DroppedTask(After(s, steps), id) && id in After(s, steps).parent.tasks
    decreases |steps|
  {
    if steps == [] {
      assert Places(s, id) == One(id < s.parent.nextTaskId);
    } else {
      var t := Apply(s, steps[0]);
      CoreStep(s, steps[0]);
      if !t.alive {
        DeadStaysDead(t, steps[1..]);
      }
      DroppedStep(s, steps[0], id);
      DroppedStaysPending(t, steps[1..], id);
    }
  }

  /** Both messages of a call that was cancelled at once are in the channel. */
  function CancelledAtOnce(): State<int> {
    Begin<int>().(
      parent := Parent(1, {0}, map[0 := Pending]),
      calls := map[0 := Waiting(true)],
      toChild := [Create(0), Cancel(0)])
  }

  lemma CancelsAtOnce()
    ensures IsRun<int>(Begin(), [Spawn, CancelCall(0)])
    ensures After<int>(Begin(), [Spawn, CancelCall(0)]) == CancelledAtOnce()
  {
    var s0 := Begin<int>();
    var s1 := Apply(s0, Spawn);
    assert Apply(s1, CancelCall(0)).toChild == [Create(0), Cancel(0)];
    RunOne(s1, CancelCall(0), []);
    RunOne(s0, Spawn, [CancelCall(0)]);
  }

  /** This happens: spawn, cancel at once, and the child reads both messages before the first step. */
  lemma CancelBeforeFirstStepIsDropped()
    ensures var steps := [Spawn, CancelCall(0), ChildReceive, ChildReceive, ChildStart(0)];
      && IsRun<int>(Begin(), steps)
      && var s := After<int>(Begin(), steps); Quiet(s) && DroppedTask(s, 0) && 0 in s.parent.tasks
  {
    CancelsAtOnce();
    var s0 := CancelledAtOnce();
    var s1 := Apply(s0, ChildReceive);
    assert s1.toChild == [Cancel(0)] && s1.child == map[0 := NotStarted];
    var s2 := Apply(s1, ChildReceive);
    assert s2.toChild == [] && s2.child == map[0 := Doomed];
    RunOne(s2, ChildStart(0), []);
    RunOne(s1, ChildReceive, [ChildStart(0)]);
    RunOne(s0, ChildReceive, [ChildReceive, ChildStart(0)]);
    var start: seq<Step<int>> := [Spawn, CancelCall(0)];
    var end: seq<Step<int>> := [ChildReceive, ChildReceive, ChildStart(0)];
    RunConcat(Begin(), start, end);
    assert start + end == [Spawn, CancelCall(0), ChildReceive, ChildReceive, ChildStart(0)];
  }

  lemma {:induction false} RunConcat<T>(s: State<T>, a: seq<Step<T>>, b: seq<Step<T>>)
    requires IsRun(s, a) && IsRun(After(s, a), b)
    ensures IsRun(s, a + b) && After(s, a + b) == After(After(s, a), b)
    decreases |a|
  {
    if a == [] {
      assert a + b == b;
    } else {
      assert (a + b)[1..] == a[1..] + b;
      RunConcat(Apply(s, a[0]), a[1..], b);
    }
  }

  lemma RunOne<T>(s: State<T>, step: Step<T>, rest: seq<Step<T>>)
    requires Enabled(s, step) && IsRun(Apply(s, step), rest)
    ensures IsRun(s, [step] + rest) && After(s, [step] + rest) == After(Apply(s, step), rest)
  {
    assert ([step] + rest)[1..] == rest;
  }

  lemma {:induction false} DeadStaysDead<T>(s: State<T>, steps: seq<Step<T>>)
    requires IsRun(s, steps) && !s.alive
    ensures !After(s, steps).alive
    decreases |steps|
  {
    if steps != [] {
      DeadStaysDead(Apply(s, steps[0]), steps[1..]);
    }
  }

  // ---------- a receive loop that does not read the end of the connection ----------

  /** The receive loop ends, cancelled or by the error of a failed send, without failing the futures. */
  predicate DropsLoop<T>(step: Step<T>) {
    step.StopLoop? || step.ReaderFails?
  }

  /** Nothing is completed after that. */
  lemma {:induction false} StoppedLoopCompletesNothing<T>(s: State<T>, steps: seq<Step<T>>, id: Id)
    requires Inv(s) && IsRun(s, steps) && !s.looping && id in s.parent.tasks
    ensures id in After(s, steps).parent.tasks && !After(s, steps).looping
    decreases |steps|
  {
    if steps != [] {
      InvStep(s, steps[0]);
      StoppedLoopCompletesNothing(Apply(s, steps[0]), steps[1..], id);
    }
  }

  /**
   Leaving the context cancels the receive loop, and a failed send breaks it. Whatever happens then, the
   shutdown and the end of the child included, a registered future is done later if and only if it was
   done at that moment.
   */
  lemma DoneIffDoneWhenLeft<T>(before: seq<Step<T>>, step: Step<T>, later: seq<Step<T>>, id: Id)
    requires IsRun(Begin(), before) && DropsLoop(step) && Enabled(After(Begin(), before), step)
    requires var s := After(Begin(), before); id in s.parent.futures && IsRun(Apply(s, step), later)
    ensures var s := After(Begin(), before);
      Completed(After(Apply(s, step), later), id) <==> Completed(s, id)
  {
    StartInv<T>();
    InvRun(Begin(), before);
    var s := After(Begin(), before);
    InvStep(s, step);
    var left := Apply(s, step);
    InvRun(left, later);
    if Completed(s, id) {
      CompletedOnce(left, later, id);
    } else {
      StoppedLoopCompletesNothing(left, later, id);
    }
  }

  /** A call was made and its task runs in the child. */
  function UnderWay(): State<int> {
    Begin<int>().(
      parent := Parent(1, {0}, map[0 := Pending]),
      calls := map[0 := Waiting(false)],
      child := map[0 := Running(0)])
  }

  lemma GetsUnderWay()
    ensures IsRun<int>(Begin(), [Spawn, ChildReceive, ChildStart(0)])
    ensures After<int>(Begin(), [Spawn, ChildReceive, ChildStart(0)]) == UnderWay()
  {
    var s0 := Begin<int>();
    var s1 := Apply(s0, Spawn);
    var s2 := Apply(s1, ChildReceive);
    assert s2.child == map[0 := NotStarted];
    RunOne(s2, ChildStart(0), []);
    RunOne(s1, ChildReceive, [ChildStart(0)]);
    RunOne(s0, Spawn, [ChildReceive, ChildStart(0)]);
  }

  predicate LeftPending(s: State<int>) {
    !s.alive && 0 in s.parent.tasks && !Completed(s, 0) && 0 in s.calls && s.calls[0] == Waiting(false)
  }

  /** This happens: a call is under way when the context is left, and stays so after the child has shut down. */
  lemma LeftWithACallPending()
    ensures var steps := [Spawn, ChildReceive, ChildStart(0), StopLoop, SendShutdown, ChildReceive, ChildExit(0)];
      IsRun<int>(Begin(), steps) && LeftPending(After(Begin(), steps))
  {
    GetsUnderWay();
    var s0 := UnderWay();
    var s1 := Apply(s0, StopLoop);
    var s2 := Apply(s1, SendShutdown);
    assert s2.toChild == [Shutdown];
    var s3 := Apply(s2, ChildReceive);
    RunOne(s3, ChildExit(0), []);
    RunOne(s2, ChildReceive, [ChildExit(0)]);
    RunOne(s1, SendShutdown, [ChildReceive, ChildExit(0)]);
    RunOne(s0, StopLoop, [SendShutdown, ChildReceive, ChildExit(0)]);
    var start: seq<Step<int>> := [Spawn, ChildReceive, ChildStart(0)];
    var end: seq<Step<int>> := [StopLoop, SendShutdown, ChildReceive, ChildExit(0)];
    RunConcat(Begin(), start, end);
    assert start + end == [Spawn, ChildReceive, ChildStart(0), StopLoop, SendShutdown, ChildReceive, ChildExit(0)];
  }

  /** And this: the child dies with a call under way, and the next call breaks the loop before it reads the end. */
  lemma FailedSendLosesTheEnd()
    ensures var steps := [Spawn, ChildExit(0), Spawn, ReaderFails];
      && IsRun<int>(Begin(), steps)
      && var s := After<int>(Begin(), steps);
        !s.looping && !s.ended && LeftPending(s)
  {
    var s0 := Begin<int>();
    var s1 := Apply(s0, Spawn);
    var s2 := Apply(s1, ChildExit(0));
    var s3 := Apply(s2, Spawn);
    RunOne(s3, ReaderFails, []);
    RunOne(s2, Spawn, [ReaderFails]);
    RunOne(s1, ChildExit(0), [Spawn, ReaderFails]);
    RunOne(s0, Spawn, [ChildExit(0), Spawn, ReaderFails]);
  }
}
