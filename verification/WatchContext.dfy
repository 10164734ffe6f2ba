/**
 The whole of `watch_path` of src/aiodrive/modules/watch.py: the search and the reporter together, driven
 by kernel events and by the timers of the event loop.
 */
module WatchContext {
  import opened WatchEvents
  import opened WatchPath
  import Reporting = WatchReporter

  /** What the event loop runs: the callback of a kernel event, or a timer if it is still scheduled. */
  datatype Occurrence = Kernel(notice: Notice) | Timer(handle: nat)

  /** The kernel events among these occurrences, in order. */
  function Notices(occurrences: seq<Occurrence>): seq<Notice> {
    if occurrences == [] then []
    else
      var last, before := occurrences[|occurrences| - 1], Notices(occurrences[..|occurrences| - 1]);
      if last.Kernel? then before + [last.notice] else before
  }

  /** The reporter after the events from `lo` up to `hi`, one by one. */
  function EagerAll(r: Reporting.Reporter, events: seq<Event>, lo: nat, hi: nat): Reporting.Reporter
    requires lo <= hi <= |events|
    decreases hi - lo
  {
    if lo == hi then r else EagerAll(Reporting.Eager(r, events[lo]), events, lo + 1, hi)
  }

  /** The reporter in step with the first `n` of these events. */
  ghost predicate InStep(r: Reporting.Reporter, events: seq<Event>, n: nat) {
    n <= |events| && Reporting.Inv(Reporting.State(r, events[..n], false))
  }

  lemma {:induction false} FedInStep(r: Reporting.Reporter, events: seq<Event>, lo: nat, hi: nat)
    requires lo <= hi <= |events| && InStep(r, events, lo) && Alternates(events)
    ensures InStep(EagerAll(r, events, lo, hi), events, hi)
    decreases hi - lo
  {
    if lo < hi {
      AlternatesAt(events, lo);
      Reporting.InvStep(Reporting.State(r, events[..lo], false), Reporting.Watched(events[lo]));
      assert events[..lo + 1] == events[..lo] + [events[lo]];
      FedInStep(Reporting.Eager(r, events[lo]), events, lo + 1, hi);
    }
  }

  lemma LateKeepsStep(r: Reporting.Reporter, events: seq<Event>, h: nat)
    requires InStep(r, events, |events|) && h in r.live
    ensures !Reporting.Unreachable(r)
    ensures InStep(Reporting.Late(r, h), events, |events|) && Reporting.Late(r, h).live == {}
  {
    Reporting.InvStep(Reporting.State(r, events[..|events|], false), Reporting.Fire(h));
    assert r.live == {h};
  }

  /** Without a live timer, the caller was told last whether the target exists. */
  lemma QuietTellsTruth(r: Reporting.Reporter, events: seq<Event>)
    requires InStep(r, events, |events|) && r.live == {}
    ensures Present(r.emitted) <==> Present(events)
  {
    assert events[..|events|] == events;
  }

  class PathWatch {
    const watcher: PathWatcher
    const reporter: Reporting.PathReporter

    constructor (target: nat, fs: FileSystem)
      ensures fresh(watcher) && fresh(reporter) && watcher.target == target && watcher.fs == fs
      ensures watcher.time == 0 && watcher.open == {} && watcher.watched.None? && watcher.events == []
      ensures reporter.View() == Reporting.INITIAL
    {
      watcher := new PathWatcher(target, fs);
      reporter := new Reporting.PathReporter();
    }

    /** The state between two occurrences. */
    ghost predicate Valid()
      reads watcher, reporter
    {
      watcher.Settled() && InStep(reporter.View(), watcher.events, |watcher.events|)
    }

    /** The events of one search go to `eager_callback`, one after the other. */
    method Feed(from: nat)
      requires from <= |watcher.events|
      modifies reporter
      ensures reporter.View() == EagerAll(old(reporter.View()), watcher.events, from, |watcher.events|)
    {
      for i := from to |watcher.events|
        invariant EagerAll(reporter.View(), watcher.events, i, |watcher.events|) ==
          EagerAll(old(reporter.View()), watcher.events, from, |watcher.events|)
      {
        reporter.EagerCallback(watcher.events[i]);
      }
    }

    method Enter(limit: nat) returns (finished: bool)
      requires watcher.Tidy() && watcher.watched.None? && watcher.events == []
      requires reporter.View() == Reporting.INITIAL
      modifies watcher, reporter
      ensures finished ==> Valid()
      ensures old(watcher.time) <= watcher.time
      ensures forall m: nat :: FixedFrom(watcher.fs, watcher.target, m, old(watcher.time)) ==>
        finished ==> watcher.watched.value.depth == m
    {
      finished := watcher.Start(limit);
      if finished {
        assert watcher.events[..0] == [];
        FedInStep(reporter.View(), watcher.events, 0, |watcher.events|);
        Feed(0);
      }
    }

    method OnKernel(n: Notice, limit: nat) returns (finished: bool)
      requires Valid()
      requires n.Gone? ==> watcher.watched.value.depth > 0
      modifies watcher, reporter
      ensures finished ==> Valid()
      ensures finished ==>
        watcher.events ==
        old(watcher.events) + Reported(n, old(watcher.watched.value.depth), watcher.watched.value.depth, watcher.target)
      ensures finished ==>
        |old(watcher.events)| <= |watcher.events| && reporter.View() ==
        EagerAll(old(reporter.View()), watcher.events, |old(watcher.events)|, |watcher.events|)
      ensures old(watcher.time) <= watcher.time
      ensures forall m: nat :: FixedFrom(watcher.fs, watcher.target, m, old(watcher.time)) ==>
        finished ==> watcher.watched.value.depth == DepthAfter(n, old(watcher.watched.value.depth), m)
    {
      ghost var was := watcher.events;
      var seen := |watcher.events|;
      finished := watcher.OnNotice(n, limit);
      if finished {
        assert watcher.events[..seen] == was == was[..seen];
        FedInStep(reporter.View(), watcher.events, seen, |watcher.events|);
        Feed(seen);
      }
    }

    method OnTimer(h: nat)
      requires Valid() && h in reporter.live
      modifies reporter
      ensures Valid() && reporter.live == {}
    {
      LateKeepsStep(reporter.View(), watcher.events, h);
      reporter.LateCallback(h);
    }

    /**
     Any occurrences in any order. Once the filesystem no longer changes, if a kernel event has revealed
     its state or the watch was right already, and no timer is live, then the caller was told last whether
     the target exists.
     */
    method OnOccurrences(occurrences: seq<Occurrence>, limit: nat) returns (finished: bool)
      requires Valid()
      modifies watcher, reporter
      ensures finished ==> Valid()
      ensures old(watcher.time) <= watcher.time
      ensures forall m: nat :: finished && FixedFrom(watcher.fs, watcher.target, m, old(watcher.time)) ==>
        watcher.watched.value.depth == DepthAfterAll(Notices(occurrences), old(watcher.watched.value.depth), m)
      ensures finished && reporter.live == {} ==>
        forall m: nat :: FixedFrom(watcher.fs, watcher.target, m, old(watcher.time)) ==>
          DepthAfterAll(Notices(occurrences), old(watcher.watched.value.depth), m) == m ==>
          (Present(reporter.emitted) <==> m == watcher.target)
    {
      finished := true;
      ghost var d := watcher.watched.value.depth;
      var i := 0;
      while finished && i < |occurrences|
        invariant 0 <= i <= |occurrences|
        invariant finished ==> Valid()
        invariant old(watcher.time) <= watcher.time
        invariant forall m: nat :: finished && FixedFrom(watcher.fs, watcher.target, m, old(watcher.time)) ==>
          watcher.watched.value.depth == DepthAfterAll(Notices(occurrences[..i]), d, m)
      {
        assert occurrences[..i + 1][..i] == occurrences[..i];
        ghost var now := watcher.time;
        assert forall m: nat :: FixedFrom(watcher.fs, watcher.target, m, old(watcher.time)) ==>
          FixedFrom(watcher.fs, watcher.target, m, now);
        match occurrences[i] {
          case Kernel(n) =>
            forall m: nat {
              DepthAfterAppend(Notices(occurrences[..i]), n, d, m);
            }
            if !(n.Gone? && watcher.watched.value.depth == 0) {
              finished := OnKernel(n, limit);
            }
          case Timer(h) =>
            if h in reporter.live {
              OnTimer(h);
            }
        }
        i := i + 1;
      }
      assert finished ==> occurrences[..i] == occurrences;
      if finished && reporter.live == {} {
        QuietTellsTruth(reporter.View(), watcher.events);
      }
    }

    /** Leaving the context, in whatever state, leaves no timer and no descriptor. */
    method Leave()
      requires Valid()
      modifies watcher, reporter
      ensures reporter.live == {} && watcher.open == {}
      ensures reporter.emitted == old(reporter.emitted) && Alternates(reporter.emitted)
    {
      reporter.Leave();
      watcher.Close(watcher.watched.value.fd);
    }
  }
}
