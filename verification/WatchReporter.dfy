/**
 The debounced reporter of src/aiodrive/modules/watch.py, with `call_immediately` and a debounce
 delay: `eager_callback` gets every event of the watch, `late_callback` runs from a timer.
 */
module WatchReporter {
  import opened Wrappers
  import opened WatchEvents

  type TimerHandle = nat

  /** `live` holds the timers that are scheduled and neither cancelled nor fired. */
  datatype Reporter = Reporter(
    lastReportedExists: Option<bool>,
    queuedEvent: Option<Event>,
    callbackHandle: Option<TimerHandle>,
    live: set<TimerHandle>,
    nextHandle: TimerHandle,
    emitted: seq<Event>)

  const INITIAL := Reporter(None, None, None, {}, 0, [])

  function CancelHandle(r: Reporter): Reporter {
    if r.callbackHandle.Some? then r.(live := r.live - {r.callbackHandle.value}) else r
  }

  function Schedule(r: Reporter): Reporter {
    r.(callbackHandle := Some(r.nextHandle), live := r.live + {r.nextHandle}, nextHandle := r.nextHandle + 1)
  }

  function Eager(r: Reporter, e: Event): Reporter {
    var queued := r.(queuedEvent := Some(e));
    if r.lastReportedExists.None? then
      queued.(lastReportedExists := Some(e.Created?), emitted := r.emitted + [e])
    else if !r.lastReportedExists.value && e.Deleted? then
      CancelHandle(queued).(callbackHandle := None)
    else
      Schedule(CancelHandle(queued))
  }

  /**
   The first event is reported at once. A later one is not, but waits for a timer that is started anew; only a
   deletion of a path that the caller does not know to exist just cancels the timer.
   */
  lemma EagerDoes(r: Reporter, e: Event)
    ensures var t := Eager(r, e);
      var others := if r.callbackHandle.Some? then r.live - {r.callbackHandle.value} else r.live;
      && t.queuedEvent == Some(e)
      && (r.lastReportedExists.None? ==>
        t.emitted == r.emitted + [e] && t.lastReportedExists == Some(e.Created?) && t.live == r.live)
      && (r.lastReportedExists.Some? ==>
        && t.emitted == r.emitted && t.lastReportedExists == r.lastReportedExists
        && if !r.lastReportedExists.value && e.Deleted? then t.live == others && t.callbackHandle.None?
           else t.callbackHandle == Some(r.nextHandle) && t.live == others + {r.nextHandle})
  {
  }

  /** The arm of `late_callback` that raises `RuntimeError('Unreachable')`. */
  predicate Unreachable(r: Reporter) {
    r.lastReportedExists == Some(false) && r.queuedEvent == Some(Deleted)
  }

  function Late(r: Reporter, h: TimerHandle): Reporter
    requires !Unreachable(r)
  {
    var fired := r.(live := r.live - {h});
    match (r.lastReportedExists, r.queuedEvent)
    case (Some(false), Some(_)) =>
      fired.(emitted := r.emitted + [Created], lastReportedExists := Some(true))
    case (Some(true), Some(Deleted)) =>
      fired.(emitted := r.emitted + [Deleted], lastReportedExists := Some(false))
    case (Some(true), Some(_)) => fired.(emitted := r.emitted + [Written])
    case _ => fired
  }

  class PathReporter {
    var lastReportedExists: Option<bool>
    var queuedEvent: Option<Event>
    var callbackHandle: Option<TimerHandle>
    var live: set<TimerHandle>
    var nextHandle: TimerHandle
    var emitted: seq<Event>

    ghost function View(): Reporter
      reads this
    {
      Reporter(lastReportedExists, queuedEvent, callbackHandle, live, nextHandle, emitted)
    }

    constructor ()
      ensures View() == INITIAL
    {
      lastReportedExists, queuedEvent, callbackHandle := None, None, None;
      live, nextHandle, emitted := {}, 0, [];
    }

    /**
     Reports the first event at once. After that the event waits for a timer that is started anew, except
     that a deletion of a path of which the caller does not know only cancels it.
     */
    method EagerCallback(event: Event)
      modifies this
      ensures View() == Eager(old(View()), event)
    {
      queuedEvent := Some(event);

      if lastReportedExists.None? {
        lastReportedExists := Some(event.Created?);
        emitted := emitted + [event];
        return;
      }

      if !lastReportedExists.value && event.Deleted? {
        if callbackHandle.Some? {
          live := live - {callbackHandle.value};
          callbackHandle := None;
        }
        return;
      }

      if callbackHandle.Some? {
        live := live - {callbackHandle.value};
      }
      callbackHandle := Some(nextHandle);
      live := live + {nextHandle};
      nextHandle := nextHandle + 1;
    }

    /**
     Run by the timer `h`: reports one event. It is a deletion or a write of a path that the caller knows to
     exist, or the creation of one that it does not, and the caller knows better afterwards.
     */
    method LateCallback(h: TimerHandle)
      requires h in live && !Unreachable(View())
      modifies this
      ensures View() == Late(old(View()), h)
      ensures live == old(live) - {h} && queuedEvent == old(queuedEvent)
      ensures lastReportedExists.Some? && queuedEvent.Some? ==>
        && emitted == old(emitted) +
          [if queuedEvent == Some(Deleted) then Deleted
           else if old(lastReportedExists) == Some(true) then Written else Created]
        && lastReportedExists == Some(queuedEvent != Some(Deleted))
    {
      live := live - {h};
      if lastReportedExists == Some(false) && queuedEvent.Some? {
        emitted := emitted + [Created];
        lastReportedExists := Some(true);
      } else if lastReportedExists == Some(true) && queuedEvent == Some(Deleted) {
        emitted := emitted + [Deleted];
        lastReportedExists := Some(false);
      } else if lastReportedExists == Some(true) && queuedEvent.Some? {
        emitted := emitted + [Written];
      }
    }

    /** Leaving the context cancels a pending call. */
    method Leave()
      requires forall h :: h in live ==> callbackHandle == Some(h)
      modifies this
      ensures View() == old(View()).(live := {})
    {
      if callbackHandle.Some? {
        live := live - {callbackHandle.value};
      }
      assert live == {};
    }
  }

  // ---------- runs ----------

  /** Either the watch reports an event, or a scheduled timer fires. */
  datatype Step = Watched(event: Event) | Fire(handle: TimerHandle)

  /** The reporter, the events it was given so far, and whether a timer met the arm that raises. */
  datatype State = State(reporter: Reporter, given: seq<Event>, raised: bool)

  function Begin(): State {
    State(INITIAL, [], false)
  }

  predicate Enabled(s: State, step: Step) {
    match step
    case Watched(e) => e.Created? <==> !Present(s.given)
    case Fire(h) => h in s.reporter.live
  }

  function Apply(s: State, step: Step): State
    requires Enabled(s, step)
  {
    match step
    case Watched(e) => s.(reporter := Eager(s.reporter, e), given := s.given + [e])
    case Fire(h) =>
      if Unreachable(s.reporter) then s.(raised := true, reporter := s.reporter.(live := s.reporter.live - {h}))
      else s.(reporter := Late(s.reporter, h))
  }

  predicate IsRun(s: State, steps: seq<Step>)
    decreases |steps|
  {
    steps == [] || (Enabled(s, steps[0]) && IsRun(Apply(s, steps[0]), steps[1..]))
  }

  function After(s: State, steps: seq<Step>): State
    requires IsRun(s, steps)
    decreases |steps|
  {
    if steps == [] then s else After(Apply(s, steps[0]), steps[1..])
  }

  ghost predicate StreamInv(s: State) {
    Alternates(s.given) && Alternates(s.reporter.emitted)
  }

  ghost predicate TimerInv(r: Reporter) {
    && (forall h :: h in r.live ==> r.callbackHandle == Some(h))
    && (forall h :: r.callbackHandle == Some(h) ==> h < r.nextHandle)
    && (r.lastReportedExists.None? ==> r.live == {})
  }

  /** What the reporter knows: the last event, what it last reported, and that a timer fixes the rest. */
  ghost predicate AgreeInv(s: State) {
    var r := s.reporter;
    && !s.raised
    && (if s.given == [] then r.lastReportedExists.None? && r.emitted == []
        else r.lastReportedExists == Some(Present(r.emitted)) && r.queuedEvent == Some(s.given[|s.given| - 1]))
    && (r.live != {} ==> !Unreachable(r))
    && (r.live == {} && r.lastReportedExists.Some? ==> r.lastReportedExists.value == Present(s.given))
  }

  ghost predicate Inv(s: State) {
    StreamInv(s) && TimerInv(s.reporter) && AgreeInv(s)
  }

  lemma StreamStep(s: State, step: Step)
    requires Inv(s) && Enabled(s, step)
    ensures StreamInv(Apply(s, step))
  {
    var emitted, emitted' := s.reporter.emitted, Apply(s, step).reporter.emitted;
    if step.Watched? {
      AlternatesAppend(s.given, step.event);
    }
    if emitted' != emitted {
      var e := emitted'[|emitted|];
      assert emitted' == emitted + [e];
      AlternatesAppend(emitted, e);
    }
  }

  lemma TimerStep(s: State, step: Step)
    requires Inv(s) && Enabled(s, step)
    ensures TimerInv(Apply(s, step).reporter)
  {
  }

  lemma AgreeStep(s: State, step: Step)
    requires Inv(s) && Enabled(s, step)
    ensures AgreeInv(Apply(s, step))
  {
    if step.Fire? {
      assert s.reporter.live == {step.handle};
      assert Apply(s, step).reporter.live == {};
    } else if s.given != [] {
      var t := Apply(s, step);
      assert t.reporter.live == {} <==> !s.reporter.lastReportedExists.value && step.event.Deleted? by {
        assert CancelHandle(s.reporter).live == {};
        assert s.reporter.nextHandle in Schedule(CancelHandle(s.reporter)).live;
      }
    }
  }

  lemma InvStep(s: State, step: Step)
    requires Inv(s) && Enabled(s, step)
    ensures Inv(Apply(s, step))
  {
    StreamStep(s, step);
    TimerStep(s, step);
    AgreeStep(s, step);
  }

  lemma {:induction false} InvRun(s: State, steps: seq<Step>)
    requires Inv(s) && IsRun(s, steps)
    ensures Inv(After(s, steps))
    decreases |steps|
  {
    if steps != [] {
      InvStep(s, steps[0]);
      InvRun(Apply(s, steps[0]), steps[1..]);
    }
  }

  /**
   For every stream of events the watch can produce and every schedule of the timers: the caller
   sees creations, writes and deletions in turn, at most one timer is live, no timer ever meets the
   arm that raises, and without a live timer the last report agrees with the last event.
   */
  lemma ReporterIsSound(steps: seq<Step>)
    requires IsRun(Begin(), steps)
    ensures var s := After(Begin(), steps);
      && Alternates(s.reporter.emitted)
      && (forall h, k :: h in s.reporter.live && k in s.reporter.live ==> h == k)
      && !s.raised
      && (s.reporter.live == {} && s.given != [] ==>
        s.reporter.lastReportedExists == Some(Present(s.given)) && Present(s.reporter.emitted) == Present(s.given))
  {
    InvRun(Begin(), steps);
  }

  /**
   In every run, a timer that fires reports exactly one event: a deletion if that was the last event of the
   watch, else a write if the caller was told last that the path exists, else a creation.
   */
  lemma TimersReport(steps: seq<Step>, h: TimerHandle)
    requires IsRun(Begin(), steps) && Enabled(After(Begin(), steps), Fire(h))
    ensures var s := After(Begin(), steps);
      var t := Apply(s, Fire(h));
      && s.given != [] && t.given == s.given && t.reporter.live == {}
      && t.reporter.emitted == s.reporter.emitted +
        [if s.given[|s.given| - 1].Deleted? then Deleted else if Present(s.reporter.emitted) then Written else Created]
  {
    InvRun(Begin(), steps);
    var s := After(Begin(), steps);
    assert s.reporter.live == {h};
  }

  /**
   In every run, the first event is reported at once and no later one is. Each later one leaves exactly one
   timer running, unless it deletes a path of which the caller does not know.
   */
  lemma EventsStartTimers(steps: seq<Step>, e: Event)
    requires IsRun(Begin(), steps) && Enabled(After(Begin(), steps), Watched(e))
    ensures var s := After(Begin(), steps);
      var t := Apply(s, Watched(e));
      && t.given == s.given + [e]
      && t.reporter.emitted == (if s.given == [] then [e] else s.reporter.emitted)
      && |t.reporter.live| == if s.given == [] || (e.Deleted? && !Present(s.reporter.emitted)) then 0 else 1
  {
    InvRun(Begin(), steps);
    var s := After(Begin(), steps);
    if s.given != [] {
      assert CancelHandle(s.reporter).live == {};
    } else {
      assert s.reporter.emitted + [e] == [e];
    }
  }

  /** The caller knows that the path exists and has something to hear, or has heard of more than `n` events. */
  ghost predicate Owes(s: State, n: nat) {
    |s.reporter.emitted| > n || (|s.reporter.emitted| == n && Present(s.reporter.emitted) && s.reporter.live != {})
  }

  lemma OwesStep(s: State, step: Step, n: nat)
    requires Inv(s) && Enabled(s, step) && Owes(s, n)
    ensures Owes(Apply(s, step), n)
  {
    if step.Watched? && s.given != [] {
      assert s.reporter.nextHandle in Schedule(CancelHandle(s.reporter)).live;
    }
  }

  lemma {:induction false} OwesRun(s: State, steps: seq<Step>, n: nat)
    requires Inv(s) && IsRun(s, steps) && Owes(s, n)
    ensures Owes(After(s, steps), n)
    decreases |steps|
  {
    if steps != [] {
      OwesStep(s, steps[0], n);
      InvStep(s, steps[0]);
      OwesRun(Apply(s, steps[0]), steps[1..], n);
    }
  }

  /**
   No change of an existing path is swallowed: an event of a path that the caller knows to exist is followed
   by at least one more report by the time that no timer is live.
   */
  lemma ChangesAreHeard(before: seq<Step>, e: Event, later: seq<Step>)
    requires IsRun(Begin(), before) && Enabled(After(Begin(), before), Watched(e))
    requires var s := After(Begin(), before);
      && Present(s.reporter.emitted) && IsRun(Apply(s, Watched(e)), later)
      && After(Apply(s, Watched(e)), later).reporter.live == {}
    ensures var s := After(Begin(), before);
      |After(Apply(s, Watched(e)), later).reporter.emitted| > |s.reporter.emitted|
  {
    InvRun(Begin(), before);
    EventsStartTimers(before, e);
    var s := After(Begin(), before);
    InvStep(s, Watched(e));
    OwesRun(Apply(s, Watched(e)), later, |s.reporter.emitted|);
  }
}
