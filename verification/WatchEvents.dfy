/** The events of src/aiodrive/modules/watch.py and the order in which they make sense. */
module WatchEvents {

  datatype Event = Created | Deleted | Written

  /** The last event left the path existing. */
  predicate Present(events: seq<Event>) {
    events != [] && !events[|events| - 1].Deleted?
  }

  /** A creation, any number of writes, a deletion, a creation again, and so on. */
  predicate Alternates(events: seq<Event>) {
    events == [] ||
    var before := events[..|events| - 1];
    Alternates(before) && (events[|events| - 1].Created? <==> !Present(before))
  }

  lemma AlternatesAppend(events: seq<Event>, e: Event)
    requires Alternates(events) && (e.Created? <==> !Present(events))
    ensures Alternates(events + [e]) && (Present(events + [e]) <==> !e.Deleted?)
  {
    assert (events + [e])[..|events|] == events;
  }

  /** Each event is a creation if and only if the path is absent after those before it. */
  lemma {:induction false} AlternatesAt(events: seq<Event>, i: nat)
    requires Alternates(events) && i < |events|
    ensures Alternates(events[..i]) && (events[i].Created? <==> !Present(events[..i]))
  {
    var n := |events| - 1;
    if i < n {
      AlternatesAt(events[..n], i);
      assert events[..n][..i] == events[..i];
    }
  }
}
