/**
 OrderedQueue with one consumer and any number of producers, each filling its reservation at
 most once, in any order.
 */
module OrderedQueueRuns {
  import opened OrderedQueues

  /** A sleeper remembers how many presses it has seen; the next one wakes it. */
  datatype Consumer = Awake | Asleep(seen: nat) | Stopped

  /** `given` collects what was put for each reservation, `out` what the consumer yielded. */
  datatype State<T> = State(queue: Queue<T>, consumer: Consumer, given: map<nat, T>, out: seq<T>)

  datatype Step<T> = DoReserve | DoPut(index: nat, item: T) | DoClose | Poll

  function Begin<T>(): State<T> {
    State(New(), Awake, map[], [])
  }

  predicate CanPoll<T>(s: State<T>) {
    s.consumer.Awake? || (s.consumer.Asleep? && s.consumer.seen < s.queue.presses)
  }

  predicate Enabled<T>(s: State<T>, step: Step<T>) {
    match step
    case DoReserve => !s.queue.closed
    case DoPut(i, _) => i < s.queue.reservedCount && i !in s.given
    case DoClose => !s.queue.closed
    case Poll => CanPoll(s)
  }

  function Apply<T>(s: State<T>, step: Step<T>): State<T>
    requires Enabled(s, step)
  {
    match step
    case DoReserve => s.(queue := Reserve(s.queue))
    case DoPut(i, v) => s.(queue := Put(s.queue, i, v), given := s.given[i := v])
    case DoClose => s.(queue := Close(s.queue))
    case Poll =>
      var (q, pass) := Iterate(s.queue);
      match pass
      case Stop => s.(queue := q, consumer := Stopped)
      case Sleep => s.(queue := q, consumer := Asleep(q.presses))
      case Yield(v) => s.(queue := q, consumer := Awake, out := s.out + [v])
  }

  predicate IsRun<T>(s: State<T>, steps: seq<Step<T>>)
    decreases |steps|
  {
    steps == [] || (Enabled(s, steps[0]) && IsRun(Apply(s, steps[0]), steps[1..]))
  }

  function After<T>(s: State<T>, steps: seq<Step<T>>): State<T>
    requires IsRun(s, steps)
    decreases |steps|
  {
    if steps == [] then s else After(Apply(s, steps[0]), steps[1..])
  }

  /** What came out is what was put for the first reservations; the rest is still stored. */
  ghost predicate ItemInv<T>(s: State<T>) {
    && s.queue.currentIndex <= s.queue.reservedCount
    && |s.out| == s.queue.currentIndex
    && (forall i :: 0 <= i < |s.out| ==> i in s.given && s.out[i] == s.given[i])
    && (forall i :: i in s.given ==> i < s.queue.reservedCount)
    && (forall i :: i in s.queue.items <==> i in s.given && i >= s.queue.currentIndex)
    && (forall i :: i in s.queue.items ==> s.queue.items[i] == s.given[i])
  }

  /** The next item is there, or it will never come. */
  predicate HasNews<T>(q: Queue<T>) {
    q.currentIndex in q.items || (q.closed && q.currentIndex >= q.reservedCount)
  }

  /** Nobody sleeps through the item, or the end, that it waits for, or is woken for anything else. */
  ghost predicate SleepInv<T>(s: State<T>) {
    && (s.consumer.Asleep? ==> s.consumer.seen <= s.queue.presses)
    && (s.consumer.Asleep? ==> (s.consumer.seen < s.queue.presses <==> HasNews(s.queue)))
    && (s.consumer.Stopped? ==> s.queue.closed && s.queue.currentIndex == s.queue.reservedCount)
  }

  ghost predicate Inv<T>(s: State<T>) {
    ItemInv(s) && SleepInv(s)
  }

  lemma InvStep<T>(s: State<T>, step: Step<T>)
    requires Inv(s) && Enabled(s, step)
    ensures Inv(Apply(s, step))
  {
  }

  lemma {:induction false} InvRun<T>(s: State<T>, steps: seq<Step<T>>)
    requires Inv(s) && IsRun(s, steps)
    ensures Inv(After(s, steps))
    decreases |steps|
  {
    if steps != [] {
      InvStep(s, steps[0]);
      InvRun(Apply(s, steps[0]), steps[1..]);
    }
  }

  /**
   The queue is a FIFO of reservations: whatever the order of the puts, the output is the values
   of the first `currentIndex` reservations in order, later ones are stored until their turn, and
   a sleeping consumer is woken if and only if its next item is there or it is at the end.
   */
  lemma FifoOfReservations<T>(steps: seq<Step<T>>)
    requires IsRun(Begin(), steps)
    ensures var s := After(Begin(), steps); var q := s.queue;
      && |s.out| == q.currentIndex
      && (forall i :: 0 <= i < |s.out| ==> i in s.given && s.out[i] == s.given[i])
      && (forall i :: i in q.items ==>
        q.currentIndex <= i < q.reservedCount && i in s.given && q.items[i] == s.given[i])
      && (forall i :: i in s.given ==> i < q.currentIndex || i in q.items)
      && (s.consumer.Asleep? ==>
        (CanPoll(s) <==> q.currentIndex in q.items || (q.closed && q.currentIndex == q.reservedCount)))
  {
    InvRun(Begin(), steps);
  }

  function Polls<T>(n: nat): seq<Step<T>> {
    seq(n, i => Poll)
  }

  /** Once the queue is closed and every reservation is filled, the consumer yields them all and stops. */
  lemma {:induction false} DrainsAfterClose<T>(s: State<T>)
    requires Inv(s) && s.queue.closed && !s.consumer.Stopped?
    requires forall i :: 0 <= i < s.queue.reservedCount ==> i in s.given
    ensures var steps := Polls(s.queue.reservedCount - s.queue.currentIndex + 1);
      && IsRun(s, steps)
      && After(s, steps).consumer.Stopped?
      && |After(s, steps).out| == s.queue.reservedCount
      && forall i :: 0 <= i < s.queue.reservedCount ==> After(s, steps).out[i] == s.given[i]
    decreases s.queue.reservedCount - s.queue.currentIndex
  {
    var left := s.queue.reservedCount - s.queue.currentIndex;
    var steps := Polls<T>(left + 1);
    assert CanPoll(s);
    InvStep(s, Poll);
    var t := Apply(s, Poll);
    assert steps[1..] == Polls<T>(left);
    if left > 0 {
      DrainsAfterClose(t);
    }
  }
}
