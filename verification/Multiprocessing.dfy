/**
 The two ends of the task protocol of src/aiodrive/modules/multiprocessing.py: what a parent
 and a child do with one message or one call, as functions and as the classes that do it.
 MultiprocessingRuns puts the two ends and the two channels together.
 */
module Multiprocessing {
  import opened Wrappers
  import opened Futures

  type Id = nat

  datatype ToChild = Create(id: Id) | Cancel(id: Id) | Shutdown
  datatype ToParent<+T> = Finish(id: Id, outcome: Outcome<T>)

  /** The error given to every future left over when the connection ends. */
  const CONNECTION_CLOSED: nat := 0

  // ---------- the parent ----------

  /**
   `tasks` are the keys of the dictionary `_tasks`; `futures` are all future objects ever
   registered, which their callers keep after the entry is gone.
   */
  datatype Parent<+T> = Parent(nextTaskId: nat, tasks: set<Id>, futures: map<Id, Future<T>>)

  function Register<T>(p: Parent<T>): Parent<T> {
    p.(nextTaskId := p.nextTaskId + 1,
       tasks := p.tasks + {p.nextTaskId},
       futures := p.futures[p.nextTaskId := Pending])
  }

  /** The id is used up, but sending the Create message failed. */
  function Refuse<T>(p: Parent<T>): Parent<T> {
    p.(nextTaskId := p.nextTaskId + 1)
  }

  /** The entry that a Finish message needs: present, and not completed yet. */
  predicate CanFinish<T>(p: Parent<T>, id: Id) {
    id in p.tasks && id in p.futures && p.futures[id].Pending?
  }

  function Complete<T>(p: Parent<T>, id: Id, outcome: Outcome<T>): Parent<T> {
    p.(tasks := p.tasks - {id}, futures := p.futures[id := Done(outcome)])
  }

  predicate CanFail<T>(p: Parent<T>) {
    forall id :: id in p.tasks ==> CanFinish(p, id)
  }

  function FailAll<T>(p: Parent<T>): Parent<T> {
    p.(tasks := {},
       futures := map id | id in p.futures ::
         if id in p.tasks then Done(Failure(CONNECTION_CLOSED)) else p.futures[id])
  }

  // ---------- the child ----------

  datatype ChildTask =
    | NotStarted
    | Doomed                    // cancelled before its first step
    | Dropped                   // a doomed task whose turn came: it never runs and never reports
    | Running(cancels: nat)

  function CancelTask(t: ChildTask): ChildTask {
    match t
    case NotStarted => Doomed
    case Running(n) => Running(n + 1)
    case _ => t
  }

  type Child = map<Id, ChildTask>

  function Receive(c: Child, m: ToChild): Child {
    match m
    case Create(id) => c[id := NotStarted]
    case Cancel(id) => if id in c then c[id := CancelTask(c[id])] else c
    case Shutdown => map id | id in c :: CancelTask(c[id])
  }

  /** The event loop gives the task its first step. */
  function Start(c: Child, id: Id): Child
    requires id in c
  {
    match c[id]
    case NotStarted => c[id := Running(0)]
    case Doomed => c[id := Dropped]
    case _ => c
  }

  /** The end of `wait_task`: the entry goes and the Finish message leaves in one stretch. */
  function Report(c: Child, id: Id): Child {
    map i | i in c && i != id :: c[i]
  }

  // ---------- one call to spawn ----------

  datatype Call<+T> =
    | Waiting(cancelled: bool)
    | Returned(value: T)
    | Raised(error: nat)
    | RaisedCancelled
    | SendFailed

  /** What `spawn` does once its shielded future has ended. */
  function Conclude<T>(cancelled: bool, outcome: Outcome<T>): Call<T> {
    match outcome
    case Success(v) => if cancelled then RaisedCancelled else Returned(v)
    case Failure(e) => Raised(e)
    case Cancelled => RaisedCancelled
  }

  /**
   What `spawn` does with a cancellation that reaches it while it awaits its shielded future. `open`
   tells whether the connection still takes the Cancel message, which is sent if the call waits on.
   */
  function Interrupted<T>(future: Future<T>, open: bool): Call<T> {
    if future.Done? then RaisedCancelled else if open then Waiting(true) else SendFailed
  }

  /** What happens to a call while it awaits its shielded future. */
  datatype CallEvent<+T> =
    | Interrupt(open: bool)    // a cancellation; `open` tells whether the connection still takes a message
    | FutureDone(outcome: Outcome<T>)
    | Turn

  function Interrupts<T>(events: seq<CallEvent<T>>): nat {
    if events == [] then 0 else Interrupts(events[..|events| - 1]) + One(events[|events| - 1].Interrupt?)
  }

  ghost predicate NoOutcome<T>(events: seq<CallEvent<T>>) {
    forall i :: 0 <= i < |events| ==> !events[i].FutureDone?
  }

  /** The first outcome among these events; a future is completed once. */
  ghost predicate Brings<T>(events: seq<CallEvent<T>>, o: Outcome<T>) {
    exists i :: 0 <= i < |events| && events[i] == FutureDone(o) && NoOutcome(events[..i])
  }

  /** A call that has come this far ends with event `k`. */
  ghost predicate EndsCall<T>(events: seq<CallEvent<T>>, k: nat)
    requires k < |events|
  {
    match events[k]
    case Turn => !NoOutcome(events[..k])
    case Interrupt(open) => !open || !NoOutcome(events[..k])
    case FutureDone(_) => false
  }

  lemma BringsAppend<T>(events: seq<CallEvent<T>>, e: CallEvent<T>)
    ensures NoOutcome(events + [e]) <==> NoOutcome(events) && !e.FutureDone?
    ensures forall o :: Brings(events, o) ==> Brings(events + [e], o)
    ensures NoOutcome(events) && e.FutureDone? ==> Brings(events + [e], e.outcome)
  {
    var longer := events + [e];
    assert longer[|events|] == e && longer[..|events|] == events;
    assert forall i :: 0 <= i < |events| ==> events[i] == longer[i];
    forall o | Brings(events, o)
      ensures Brings(longer, o)
    {
      var i :| 0 <= i < |events| && events[i] == FutureDone(o) && NoOutcome(events[..i]);
      assert longer[..i] == events[..i];
    }
  }

  lemma NoneBefore<T>(events: seq<CallEvent<T>>, i: nat)
    requires i < |events| && NoOutcome(events[..i])
    ensures forall k :: 0 <= k < i ==> !events[k].FutureDone?
  {
    forall k | 0 <= k < i
      ensures !events[k].FutureDone?
    {
      assert events[..i][k] == events[k];
    }
  }

  lemma BringsOne<T>(events: seq<CallEvent<T>>, o: Outcome<T>)
    requires Brings(events, o)
    ensures !NoOutcome(events) && forall o' :: Brings(events, o') ==> o' == o
  {
    var i :| 0 <= i < |events| && events[i] == FutureDone(o) && NoOutcome(events[..i]);
    NoneBefore(events, i);
    forall o' | Brings(events, o')
      ensures o' == o
    {
      var j :| 0 <= j < |events| && events[j] == FutureDone(o') && NoOutcome(events[..j]);
      NoneBefore(events, j);
    }
  }

  /**
   The retry loop of `spawn`. Each cancellation delivered while the future is pending sends one Cancel
   message and the loop waits on, unless the send fails, which ends the call; a cancellation delivered
   later ends it too. At a turn with the future done, the call raises the error that the future brought, or
   returns the value that it brought, if it was never cancelled.
   */
  method AwaitResult<T>(events: seq<CallEvent<T>>) returns (call: Call<T>, sent: nat, used: nat)
    ensures used <= |events| && forall k :: 0 <= k < used - 1 ==> !EndsCall(events, k)
    ensures if call.Waiting? then used == |events| && (used > 0 ==> !EndsCall(events, used - 1))
      else used > 0 && EndsCall(events, used - 1)
    ensures Interrupts(events[..used]) == sent + One(!call.Waiting? && used > 0 && events[used - 1].Interrupt?)
    ensures call.Waiting? ==> (call.cancelled <==> sent > 0)
    ensures forall v :: call == Returned(v) <==>
      !call.Waiting? && used > 0 && events[used - 1].Turn? && sent == 0 && Brings(events[..used - 1], Success(v))
    ensures forall x :: call == Raised(x) <==>
      !call.Waiting? && used > 0 && events[used - 1].Turn? && Brings(events[..used - 1], Failure(x))
    ensures call.SendFailed? <==>
      !call.Waiting? && used > 0 && events[used - 1].Interrupt? && NoOutcome(events[..used - 1])
  {
    sent, used := 0, 0;
    var cancelled := false;
    var future: Future<T> := Pending;
    while used < |events|
      invariant used <= |events| && sent == Interrupts(events[..used])
      invariant forall k :: 0 <= k < used ==> !EndsCall(events, k)
      invariant cancelled <==> sent > 0
      invariant if future.Done? then Brings(events[..used], future.outcome) else NoOutcome(events[..used])
    {
      var e := events[used];
      ghost var before := events[..used];
      if future.Done? {
        BringsOne(before, future.outcome);
      }
      BringsAppend(before, e);
      used := used + 1;
      assert events[..used] == before + [e] && events[..used][..used - 1] == before;
      match e {
        case FutureDone(o) =>
          if future.Pending? {
            future := Done(o);
          }
        case Interrupt(open) =>
          call := Interrupted(future, open);
          if !call.Waiting? {
            return;
          }
          cancelled := true;
          sent := sent + 1;
        case Turn =>
          if future.Done? {
            return Conclude(cancelled, future.outcome), sent, used;
          }
      }
    }
    call := Waiting(cancelled);
  }

  // ---------- the classes ----------

  class MultiprocessingProcess<T> {
    var nextTaskId: nat
    var tasks: set<Id>
    var futures: map<Id, Future<T>>

    ghost function View(): Parent<T>
      reads this
    {
      Parent(nextTaskId, tasks, futures)
    }

    constructor ()
      ensures View() == Parent(0, {}, map[])
    {
      nextTaskId, tasks, futures := 0, {}, map[];
    }

    /** The first part of `spawn`, up to the first wait for the future. */
    method Spawn(sent: bool) returns (id: Id)
      modifies this
      ensures id == old(nextTaskId)
      ensures View() == if sent then Register(old(View())) else Refuse(old(View()))
    {
      id := nextTaskId;
      nextTaskId := nextTaskId + 1;
      if sent {
        futures := futures[id := Pending];
        tasks := tasks + {id};
      }
    }

    /** One round of `_loop`; the pop and the assertion in `transfer` need `CanFinish`. */
    method OnFinish(m: ToParent<T>)
      requires CanFinish(View(), m.id)
      modifies this
      ensures View() == Complete(old(View()), m.id, m.outcome)
    {
      tasks := tasks - {m.id};
      futures := futures[m.id := Done(m.outcome)];
    }

    /** The end of `_loop`: every registered future fails, one after the other. */
    method OnEof()
      requires CanFail(View())
      modifies this
      ensures View() == FailAll(old(View()))
      ensures forall id :: id in old(tasks) ==> futures[id].Done?
    {
      var rest := tasks;
      while rest != {}
        invariant rest <= tasks == old(tasks) && nextTaskId == old(nextTaskId)
        invariant futures.Keys == old(futures).Keys
        invariant forall id :: id in rest ==> id in futures && futures[id].Pending?
        invariant forall id :: id in futures ==>
          futures[id] == if id in tasks - rest then Done(Failure(CONNECTION_CLOSED)) else old(futures)[id]
        decreases |rest|
      {
        var id :| id in rest;
        futures := futures[id := Done(Failure(CONNECTION_CLOSED))];
        rest := rest - {id};
      }

      assert futures == FailAll(old(View())).futures;
      tasks := {};
    }
  }

  /** The table of the child, used by its receive loop and by the tasks themselves. */
  class ChildProcess {
    var tasks: map<Id, ChildTask>

    constructor ()
      ensures tasks == map[]
    {
      tasks := map[];
    }

    /** The end of `wait_task`, when its awaitable has ended with `outcome`. */
    method OnDone<T>(id: Id, outcome: Outcome<T>) returns (m: ToParent<T>)
      requires id in tasks
      modifies this
      ensures tasks == Report(old(tasks), id)
      ensures m == Finish(id, outcome)
    {
      tasks := map i | i in tasks && i != id :: tasks[i];
      m := Finish(id, outcome);
    }

    /** One round of the receive loop; Shutdown ends it and the task group cancels the rest. */
    method OnMessage(m: ToChild) returns (stop: bool)
      modifies this
      ensures tasks == Receive(old(tasks), m)
      ensures stop <==> m.Shutdown?
    {
      stop := false;
      match m
      case Create(id) => tasks := tasks[id := NotStarted];
      case Cancel(id) =>
        if id in tasks {
          tasks := tasks[id := CancelTask(tasks[id])];
        }
      case Shutdown =>
        stop := true;
        var rest := tasks.Keys;
        while rest != {}
          invariant rest <= tasks.Keys == old(tasks).Keys
          invariant forall id :: id in tasks ==>
            tasks[id] == if id in rest then old(tasks)[id] else CancelTask(old(tasks)[id])
          decreases |rest|
        {
          var id :| id in rest;
          tasks := tasks[id := CancelTask(tasks[id])];
          rest := rest - {id};
        }
        assert tasks == Receive(old(tasks), m);
    }
  }
}
