/**
 The search of src/aiodrive/modules/watch.py: three mutually recursive functions that keep one
 open descriptor on the deepest existing prefix of a target path while the filesystem changes.

 A prefix of the target is its number of components, so the root is 0 and a parent is one less.
 The filesystem is an oracle asked once per call, and the time is the number of calls made so
 far: two calls may get any two answers. The root always opens and exists. Descriptors are
 numbered by the `open` call that returned them.
 */
module WatchPath {
  import opened Wrappers
  import opened WatchEvents

  /** Whether a prefix of the given depth opens or exists when asked at the given time. */
  type FileSystem = (nat, nat) -> bool

  datatype Watched = Watched(fd: nat, depth: nat)

  /** What the kernel reports about the watched descriptor. */
  datatype Notice = Gone | Changed | Other

  /** From time `now` on the filesystem stays as it is, and `m` is the longest openable prefix of the target. */
  ghost predicate FixedFrom(fs: FileSystem, target: nat, m: nat, now: nat) {
    m <= target && forall t: nat, d: nat :: t >= now && d <= target ==> (fs(t, d) <==> d <= m)
  }

  // Upper bounds on the number of calls that a search makes once the filesystem stays as it is.

  function CallsUp(g: nat, m: nat): nat {
    if g >= m then 1 else m - g + 3
  }

  function CallsWatch(d: nat, target: nat, m: nat): nat {
    1 + if d >= target then 0 else CallsUp(d, m)
  }

  function CallsDown(g: nat, target: nat, m: nat): nat {
    if g <= m then 1 + CallsWatch(g, target, m) else g - m + 1 + CallsWatch(m, target, m)
  }

  /** Whether a kernel event makes a watch at depth `d` find out that `m` is the longest openable prefix. */
  predicate Reveals(n: Notice, d: nat, m: nat) {
    (n.Gone? && d > 0) || (n.Changed? && d <= m)
  }

  predicate SomeReveals(notices: seq<Notice>, d: nat, m: nat) {
    exists i :: 0 <= i < |notices| && Reveals(notices[i], d, m)
  }

  lemma SomeRevealsAppend(notices: seq<Notice>, n: Notice, d: nat, m: nat)
    ensures SomeReveals(notices + [n], d, m) <==> SomeReveals(notices, d, m) || Reveals(n, d, m)
  {
    var longer := notices + [n];
    if i :| 0 <= i < |notices| && Reveals(notices[i], d, m) {
      assert longer[i] == notices[i];
    }
    assert longer[|notices|] == n;
  }

  /** Where one kernel event leaves a watch at depth `d`; only a deletion moves it up from a path that is gone. */
  function DepthAfter(n: Notice, d: nat, m: nat): nat {
    match n
    case Gone => m
    case Changed => Max(d, m)
    case Other => d
  }

  /** Where a stretch of kernel events leaves it, if a watched root is not reported gone. */
  ghost function DepthAfterAll(notices: seq<Notice>, d: nat, m: nat): nat {
    if SomeReveals(notices, d, m) then m else d
  }

  lemma DepthAfterAppend(notices: seq<Notice>, n: Notice, d: nat, m: nat)
    ensures var c := DepthAfterAll(notices, d, m);
      DepthAfterAll(notices + [n], d, m) == if n.Gone? && c == 0 then c else DepthAfter(n, c, m)
  {
    SomeRevealsAppend(notices, n, d, m);
  }

  /** What a search reports when it ends at this depth. */
  function Found(depth: nat, target: nat): seq<Event> {
    if depth == target then [Created] else []
  }

  /**
   What one kernel event makes the watch report, which stood at depth `d` before and stands at `d'` after: a
   write to the target, a deletion of the target, and a creation if the search that follows ends on it.
   */
  function Reported(n: Notice, d: nat, d': nat, target: nat): seq<Event> {
    match n
    case Gone => (if d == target then [Deleted] else []) + Found(d', target)
    case Changed => if d == target then [Written] else Found(d', target)
    case Other => []
  }

  /** What a stretch of kernel events makes it report over a filesystem that no longer changes. */
  ghost function ReportedAll(notices: seq<Notice>, d: nat, target: nat, m: nat): seq<Event> {
    if notices == [] then []
    else
      var k := |notices| - 1;
      var c := DepthAfterAll(notices[..k], d, m);
      ReportedAll(notices[..k], d, target, m) +
      if notices[k].Gone? && c == 0 then [] else Reported(notices[k], c, DepthAfterAll(notices, d, m), target)
  }

  /** A watch that began at depth `d` with the events `before` is at depth `c` with the events `after`. */
  ghost predicate Follows(notices: seq<Notice>, d: nat, before: seq<Event>, c: nat, after: seq<Event>,
                          target: nat, m: nat)
  {
    c == DepthAfterAll(notices, d, m) && after == before + ReportedAll(notices, d, target, m)
  }

  lemma FollowsOn(notices: seq<Notice>, n: Notice, d: nat, before: seq<Event>, c: nat, after: seq<Event>,
                  c': nat, after': seq<Event>, target: nat, m: nat)
    requires Follows(notices, d, before, c, after, target, m)
    requires if n.Gone? && c == 0 then c' == c && after' == after
      else c' == DepthAfter(n, c, m) && after' == after + Reported(n, c, c', target)
    ensures Follows(notices + [n], d, before, c', after', target, m)
  {
    DepthAfterAppend(notices, n, d, m);
    assert (notices + [n])[..|notices|] == notices;
  }

  class PathWatcher {
    const target: nat
    const fs: FileSystem
    var time: nat
    var nextFd: nat
    var open: set<nat>
    var watched: Option<Watched>
    var events: seq<Event>

    constructor (target: nat, fs: FileSystem)
      ensures this.target == target && this.fs == fs
      ensures time == 0 && open == {} && watched.None? && events == []
    {
      this.target, this.fs := target, fs;
      time, nextFd, open, watched, events := 0, 0, {}, None, [];
    }

    /** Exactly the watched descriptor is open, and it stands for a prefix of the target. */
    ghost predicate Tidy()
      reads this
    {
      && (forall fd :: fd in open ==> fd < nextFd)
      && open == (if watched.Some? then {watched.value.fd} else {})
      && (watched.Some? ==> watched.value.depth <= target)
    }

    /** The state between two kernel events. */
    ghost predicate Settled()
      reads this
    {
      && Tidy() && watched.Some?
      && Alternates(events)
      && (Present(events) <==> watched.value.depth == target)
    }

    /** What one search reports: a creation, iff it ends watching the target. */
    ghost predicate Reports(before: seq<Event>)
      reads this
    {
      watched.Some? && events == before + Found(watched.value.depth, target)
    }

    method Exists(depth: nat) returns (yes: bool)
      modifies this`time
      ensures yes == (depth == 0 || fs(old(time), depth)) && time == old(time) + 1
    {
      yes := depth == 0 || fs(time, depth);
      time := time + 1;
    }

    method TryOpen(depth: nat) returns (fd: Option<nat>)
      requires forall o :: o in open ==> o < nextFd
      modifies this`time, this`nextFd, this`open
      ensures time == old(time) + 1
      ensures forall o :: o in open ==> o < nextFd
      ensures fd.Some? <==> depth == 0 || fs(old(time), depth)
      ensures fd.None? ==> open == old(open)
      ensures fd.Some? ==> open == old(open) + {fd.value} && fd.value !in old(open)
    {
      var yes := depth == 0 || fs(time, depth);
      time := time + 1;
      if yes {
        fd := Some(nextFd);
        open := open + {nextFd};
        nextFd := nextFd + 1;
      } else {
        fd := None;
      }
    }

    method Close(fd: nat)
      requires fd in open
      modifies this`open
      ensures open == old(open) - {fd}
    {
      open := open - {fd};
    }

    /**
     `update_down`. It is only called for a path above the watched one, or with nothing watched.
     `finished` is false when the call has not returned within `limit` filesystem calls.
     */
    method UpdateDown(guess: nat, limit: nat) returns (finished: bool)
      requires Tidy() && guess <= target
      requires watched.Some? ==> guess < watched.value.depth
      modifies this
      ensures finished ==> Tidy() && Reports(old(events))
      ensures old(time) <= time
      ensures forall m: nat :: FixedFrom(fs, target, m, old(time)) ==>
        && (old(time) + CallsDown(guess, target, m) <= limit ==> finished)
        && (finished ==> watched.value.depth == m)
      decreases limit - time, 2
    {
      var current: nat := guess;
      if time >= limit {
        return false;
      }
      var fd := TryOpen(current);
      while fd.None?
        invariant current <= guess
        invariant forall o :: o in open ==> o < nextFd
        invariant old(time) < time <= limit && watched == old(watched) && events == old(events)
        invariant fd.None? ==> current > 0 && open == old(open)
        invariant fd.Some? ==> open == old(open) + {fd.value} && fd.value !in old(open)
        invariant forall m: nat :: FixedFrom(fs, target, m, old(time)) ==>
          && time - old(time) == guess - current + 1
          && (fd.None? <==> current > m)
          && (current < guess ==> m <= current)
        decreases current
      {
        current := current - 1;
        if time >= limit {
          return false;
        }
        fd := TryOpen(current);
      }
      ghost var now := time;
      assert forall m: nat :: FixedFrom(fs, target, m, old(time)) ==> FixedFrom(fs, target, m, now);
      finished := UpdateWatch(fd.value, current, limit);
    }

    /** `update_up`, called for the path that is watched. */
    method UpdateUp(guess: nat, limit: nat) returns (finished: bool)
      requires Tidy() && guess < target
      requires watched.Some? && watched.value.depth == guess
      modifies this
      ensures finished ==> Tidy() && Reports(old(events))
      ensures old(time) <= time
      ensures forall m: nat :: FixedFrom(fs, target, m, old(time)) ==>
        && (old(time) + CallsUp(guess, m) <= limit ==> finished)
        && (finished ==> watched.value.depth == Max(guess, m))
      decreases limit - time, 1
    {
      var currentFd: Option<nat> := None;
      var current: nat := guess;

      while current < target
        invariant guess <= current <= target
        invariant forall o :: o in open ==> o < nextFd
        invariant watched == old(watched) && events == old(events) && old(time) <= time
        invariant open == old(open) + if currentFd.Some? then {currentFd.value} else {}
        invariant currentFd.Some? ==> currentFd.value !in old(open) && old(time) < time <= limit
        invariant currentFd.Some? <==> guess < current
        invariant forall m: nat :: FixedFrom(fs, target, m, old(time)) ==>
          current <= Max(guess, m) && time - old(time) == current - guess
        decreases target - current
      {
        if time >= limit {
          return false;
        }
        var fd := TryOpen(current + 1);
        if fd.None? {
          assert forall m: nat :: FixedFrom(fs, target, m, old(time)) ==> current == Max(guess, m);
          break;
        }
        if currentFd.Some? {
          Close(currentFd.value);
        }
        current := current + 1;
        currentFd := fd;
      }

      if currentFd.Some? {
        ghost var now := time;
        assert forall m: nat :: FixedFrom(fs, target, m, old(time)) ==> FixedFrom(fs, target, m, now);
        finished := UpdateWatch(currentFd.value, current, limit);
      } else {
        finished := true;
      }
    }

    /** `update_watch`, given a descriptor just opened for a path that is not the watched one. */
    method UpdateWatch(fd: nat, depth: nat, limit: nat) returns (finished: bool)
      requires depth <= target && fd < nextFd
      requires forall o :: o in open ==> o < nextFd
      requires open == {fd} + if watched.Some? then {watched.value.fd} else {}
      requires watched.Some? ==> fd != watched.value.fd && watched.value.depth != depth
      modifies this
      ensures finished ==> Tidy() && Reports(old(events))
      ensures old(time) <= time
      ensures forall m: nat :: FixedFrom(fs, target, m, old(time)) ==>
        && (depth <= m && old(time) + CallsWatch(depth, target, m) <= limit ==> finished)
        && (finished ==> watched.value.depth == m)
      decreases limit - time, 0
    {
      if watched.Some? && watched.value.depth == depth {
        assert false;
      }

      if watched.Some? {
        Close(watched.value.fd);
      }
      watched := Some(Watched(fd, depth));

      if time >= limit {
        return false;
      }
      var exists_ := Exists(depth);
      ghost var now := time;
      assert forall m: nat :: FixedFrom(fs, target, m, old(time)) ==> FixedFrom(fs, target, m, now);
      if exists_ {
        if depth == target {
          events := events + [Created];
          finished := true;
        } else {
          finished := UpdateUp(depth, limit);
        }
      } else {
        finished := UpdateDown(depth - 1, limit);
      }
    }

    /** Entering the context. */
    method Start(limit: nat) returns (finished: bool)
      requires Tidy() && watched.None? && events == []
      modifies this
      ensures finished ==> Settled() && events == Found(watched.value.depth, target)
      ensures old(time) <= time
      ensures forall m: nat :: FixedFrom(fs, target, m, old(time)) ==>
        && (old(time) + CallsDown(target, target, m) <= limit ==> finished)
        && (finished ==> watched.value.depth == m)
    {
      finished := UpdateDown(target, limit);
    }

    /** A search that began with the target absent leaves the watch settled. */
    lemma SettledAfter(before: seq<Event>)
      requires Tidy() && Reports(before) && Alternates(before) && !Present(before)
      ensures Settled()
    {
      if watched.value.depth == target {
        AlternatesAppend(before, Created);
      } else {
        assert before + [] == before;
      }
    }

    /** The watched path was deleted or renamed: the search starts over from its parent. */
    method OnGone(limit: nat) returns (finished: bool)
      requires Settled() && watched.value.depth > 0
      modifies this
      ensures finished ==> Settled()
      ensures finished ==>
        events == old(events)
          + (if old(watched.value.depth) == target then [Deleted] else []) + Found(watched.value.depth, target)
      ensures old(time) <= time
      ensures forall m: nat :: FixedFrom(fs, target, m, old(time)) ==>
        && (old(time) + CallsDown(old(watched.value.depth) - 1, target, m) <= limit ==> finished)
        && (finished ==> watched.value.depth == m)
    {
      var path := watched.value.depth;
      if path == target {
        AlternatesAppend(events, Deleted);
        events := events + [Deleted];
      }
      ghost var before := events;
      finished := UpdateDown(path - 1, limit);
      if finished {
        SettledAfter(before);
      }
    }

    /** The watched path was written to; if it is an ancestor, the search goes on from there. */
    method OnChanged(limit: nat) returns (finished: bool)
      requires Settled()
      modifies this
      ensures finished ==> Settled()
      ensures finished ==>
        events == old(events)
          + if old(watched.value.depth) == target then [Written] else Found(watched.value.depth, target)
      ensures old(time) <= time
      ensures forall m: nat :: FixedFrom(fs, target, m, old(time)) ==>
        && (old(time) + CallsUp(old(watched.value.depth), m) <= limit ==> finished)
        && (finished ==> watched.value.depth == Max(old(watched.value.depth), m))
    {
      var path := watched.value.depth;
      if path != target {
        ghost var before := events;
        finished := UpdateUp(path, limit);
        if finished {
          SettledAfter(before);
        }
      } else {
        AlternatesAppend(events, Written);
        events := events + [Written];
        finished := true;
      }
    }

    /** Upper bound on the calls of one callback once the filesystem stays as it is. */
    ghost function CallsNotice(n: Notice, m: nat): nat
      reads this
      requires watched.Some? && (n.Gone? ==> watched.value.depth > 0)
    {
      match n
      case Gone => CallsDown(watched.value.depth - 1, target, m)
      case Changed => CallsUp(watched.value.depth, m)
      case Other => 0
    }

    /**
     `internal_callback`. The root is never deleted or renamed. If the filesystem stays as it is from
     the call on, the watch ends where `DepthAfter` says, within a stated number of calls.
     */
    method OnNotice(n: Notice, limit: nat) returns (finished: bool)
      requires Settled()
      requires n.Gone? ==> watched.value.depth > 0
      modifies this
      ensures finished ==> Settled()
      ensures finished ==>
        events == old(events) + Reported(n, old(watched.value.depth), watched.value.depth, target)
      ensures old(time) <= time
      ensures forall m: nat :: FixedFrom(fs, target, m, old(time)) ==>
        && (old(time) + old(CallsNotice(n, m)) <= limit ==> finished)
        && (finished ==> watched.value.depth == DepthAfter(n, old(watched.value.depth), m))
    {
      match n
      case Gone => finished := OnGone(limit);
      case Changed => finished := OnChanged(limit);
      case Other => finished := true;
    }

    /**
     The kernel events of some stretch of time, except that a watched root is not reported gone. If the
     filesystem no longer changes, the watch is moved by the first event that reveals a change, to the
     longest openable prefix, and stays there; every event reports what `Reported` says.
     */
    method OnNotices(notices: seq<Notice>, limit: nat) returns (finished: bool)
      requires Settled()
      modifies this
      ensures finished ==> Settled()
      ensures old(time) <= time
      ensures forall m: nat :: finished && FixedFrom(fs, target, m, old(time)) ==>
        && watched.value.depth == DepthAfterAll(notices, old(watched.value.depth), m)
        && events == old(events) + ReportedAll(notices, old(watched.value.depth), target, m)
    {
      finished := true;
      ghost var d, before := watched.value.depth, events;
      var i := 0;
      while finished && i < |notices|
        invariant 0 <= i <= |notices|
        invariant finished ==> Settled()
        invariant old(time) <= time
        invariant forall m: nat :: finished && FixedFrom(fs, target, m, old(time)) ==>
          Follows(notices[..i], d, before, watched.value.depth, events, target, m)
      {
        assert notices[..i + 1] == notices[..i] + [notices[i]];
        ghost var now, c, after := time, watched.value.depth, events;
        assert forall m: nat :: FixedFrom(fs, target, m, old(time)) ==> FixedFrom(fs, target, m, now);
        if !(notices[i].Gone? && watched.value.depth == 0) {
          finished := OnNotice(notices[i], limit);
        }
        if finished {
          forall m: nat | FixedFrom(fs, target, m, old(time))
            ensures Follows(notices[..i + 1], d, before, watched.value.depth, events, target, m)
          {
            FollowsOn(notices[..i], notices[i], d, before, c, after, watched.value.depth, events, target, m);
          }
        }
        i := i + 1;
      }
      assert finished ==> notices[..i] == notices;
    }

    /**
     The whole life of a watch. However it goes, leaving the context leaves no descriptor open, and the
     events form creations, writes and deletions in turn; over a filesystem that stays as it is, the
     last of them tells whether the target exists.
     */
    method Watch(notices: seq<Notice>, limit: nat) returns (finished: bool)
      requires Tidy() && watched.None? && events == []
      modifies this
      ensures finished ==> open == {} && Alternates(events)
      ensures forall m: nat :: finished && FixedFrom(fs, target, m, old(time)) ==> (Present(events) <==> m == target)
    {
      finished := Start(limit);
      ghost var now := time;
      assert forall m: nat :: FixedFrom(fs, target, m, old(time)) ==> FixedFrom(fs, target, m, now);
      if finished {
        finished := OnNotices(notices, limit);
      }
      if finished {
        Close(watched.value.fd);
      }
    }
  }
}
