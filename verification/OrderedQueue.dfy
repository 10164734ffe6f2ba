/** The reservation queue of src/aiodrive/internal/queue.py, as functions and as the class. */
module OrderedQueues {

  /** `presses` counts how often the button was pressed; a sleeper waits for the next press. */
  datatype Queue<T> = Queue(
    closed: bool,
    currentIndex: nat,
    items: map<nat, T>,
    reservedCount: nat,
    presses: nat)

  function New<T>(): Queue<T> {
    Queue(false, 0, map[], 0, 0)
  }

  function PressIf<T>(q: Queue<T>, b: bool): Queue<T> {
    if b then q.(presses := q.presses + 1) else q
  }

  function Close<T>(q: Queue<T>): Queue<T> {
    PressIf(q.(closed := true), q.currentIndex == q.reservedCount)
  }

  function Reserve<T>(q: Queue<T>): Queue<T> {
    q.(reservedCount := q.reservedCount + 1)
  }

  function Put<T>(q: Queue<T>, index: nat, item: T): Queue<T> {
    PressIf(q.(items := q.items[index := item]), index == q.currentIndex)
  }

  /** What one pass through the loop of `__aiter__` comes to. */
  datatype Pass<+T> = Stop | Sleep | Yield(item: T)

  function Iterate<T>(q: Queue<T>): (Queue<T>, Pass<T>) {
    if q.closed && q.currentIndex >= q.reservedCount then (q, Stop)
    else if q.currentIndex !in q.items then (q, Sleep)
    else
      (q.(items := map i | i in q.items && i != q.currentIndex :: q.items[i], currentIndex := q.currentIndex + 1),
       Yield(q.items[q.currentIndex]))
  }

  class OrderedQueue<T> {
    var closed: bool
    var currentIndex: nat
    var items: map<nat, T>
    var reservedCount: nat
    var presses: nat

    ghost function View(): Queue<T>
      reads this
    {
      Queue(closed, currentIndex, items, reservedCount, presses)
    }

    constructor ()
      ensures View() == New()
    {
      closed, currentIndex, items, reservedCount, presses := false, 0, map[], 0, 0;
    }

    method Press()
      modifies this`presses
      ensures presses == old(presses) + 1
    {
      presses := presses + 1;
    }

    method IteratePass() returns (pass: Pass<T>)
      modifies this
      ensures (View(), pass) == Iterate(old(View()))
      ensures closed == old(closed) && reservedCount == old(reservedCount) && presses == old(presses)
      ensures pass.Stop? <==> closed && old(currentIndex) >= reservedCount
      ensures pass.Yield? <==> !pass.Stop? && old(currentIndex) in old(items)
      ensures if pass.Yield?
        then currentIndex == old(currentIndex) + 1 && pass.item == old(items)[old(currentIndex)]
          && items == old(items) - {old(currentIndex)}
        else currentIndex == old(currentIndex) && items == old(items)
    {
      if closed && currentIndex >= reservedCount {
        return Stop;
      }
      if currentIndex !in items {
        return Sleep;
      }
      pass := Yield(items[currentIndex]);
      items := map i | i in items && i != currentIndex :: items[i];
      currentIndex := currentIndex + 1;
    }

    method CloseQueue()
      requires !closed
      modifies this
      ensures View() == Close(old(View()))
      ensures closed && presses == old(presses) + if currentIndex == reservedCount then 1 else 0
    {
      closed := true;
      if currentIndex == reservedCount {
        Press();
      }
    }

    method ReserveNext() returns (index: nat)
      requires !closed
      modifies this
      ensures View() == Reserve(old(View())) && index == old(reservedCount)
    {
      index := reservedCount;
      reservedCount := reservedCount + 1;
    }

    /** The function returned by `reserve`, for the reservation `index`. */
    method PutItem(index: nat, item: T)
      modifies this
      ensures View() == Put(old(View()), index, item)
      ensures items == old(items)[index := item] && presses == old(presses) + if index == currentIndex then 1 else 0
    {
      items := items[index := item];
      if index == currentIndex {
        Press();
      }
    }
  }
}
