/**
 Shielding, from src/aiodrive/modules/shield.py: the pair of callbacks that `shield` installs, and
 `shield_wait` against every schedule of the inner task and of cancellations.
 */
module Shield {
  import opened Wrappers
  import opened Futures

  // ---------- the callbacks of shield ----------

  /**
   One call to `shield` on a pending inner future. `armed` says that `inner_callback` is still among
   the callbacks of the inner future, `queued` that the event loop is about to run it, and
   `outerQueued` the same for `outer_callback`.
   */
  datatype Shielding<+T> = Shielding(
    inner: Future<T>,
    outer: Future<T>,
    armed: bool,
    queued: bool,
    outerQueued: bool,
    completions: nat,          // how often `inner_callback` completed the outer future
    violated: bool)            // it ran the assertion in `transfer` on a done future

  datatype Step<+T> =
    | InnerEnds(outcome: Outcome<T>)
    | CancelOuter              // the task awaiting the outer future is cancelled
    | RunInnerCallback
    | RunOuterCallback

  function Begin<T>(): Shielding<T> {
    Shielding(Pending, Pending, true, false, false, 0, false)
  }

  predicate Enabled<T>(s: Shielding<T>, step: Step<T>) {
    match step
    case InnerEnds(_) => s.inner.Pending?
    case CancelOuter => s.outer.Pending?
    case RunInnerCallback => s.queued
    case RunOuterCallback => s.outerQueued
  }

  function Apply<T>(s: Shielding<T>, step: Step<T>): Shielding<T>
    requires Enabled(s, step)
  {
    match step
    case InnerEnds(o) => s.(inner := Done(o), queued := s.armed, armed := false)
    case CancelOuter => s.(outer := Done(Cancelled), outerQueued := true)
    case RunInnerCallback =>
      var t := s.(queued := false);
      if s.outer == Done(Cancelled) then t
      else if s.outer.Done? then t.(violated := true)
      else t.(outer := s.inner, outerQueued := true, completions := s.completions + 1)
    case RunOuterCallback => s.(outerQueued := false, armed := false)
  }

  predicate IsRun<T(==)>(s: Shielding<T>, steps: seq<Step<T>>)
    decreases |steps|
  {
    steps == [] || (Enabled(s, steps[0]) && IsRun(Apply(s, steps[0]), steps[1..]))
  }

  function After<T(==)>(s: Shielding<T>, steps: seq<Step<T>>): Shielding<T>
    requires IsRun(s, steps)
    decreases |steps|
  {
    if steps == [] then s else After(Apply(s, steps[0]), steps[1..])
  }

  ghost predicate Inv<T>(s: Shielding<T>) {
    && !s.violated
    && (s.queued ==> s.inner.Done? && !s.armed && s.completions == 0)
    && (s.armed ==> s.inner.Pending? && s.completions == 0)
    && (s.outer.Pending? ==> (s.armed || s.queued) && !s.outerQueued)
    && (s.queued && s.outer.Done? ==> s.outer == Done(Cancelled))
    && (s.completions == 0 ==> s.outer.Pending? || s.outer == Done(Cancelled))
    && (s.completions > 0 ==> s.completions == 1 && s.inner.Done? && s.outer == s.inner)
    && (s.outer.Done? && !s.outerQueued ==> !s.armed)
  }

  /**
   The outer future is completed at most once, the assertion in `transfer` cannot fail, and in the
   end the outer future has the outcome of the inner one or was cancelled before it got it. Once it is
   done and its callback has run, no callback is left on the inner future.
   */
  lemma ShieldCompletesOnce<T>(steps: seq<Step<T>>)
    requires IsRun(Begin(), steps)
    ensures var t := After(Begin(), steps);
      && !t.violated && t.completions <= 1
      && (t.completions == 1 ==> t.outer == t.inner)
      && (t.inner.Done? && !t.queued && t.completions == 0 ==> t.outer == Done(Cancelled))
      && (t.outer.Done? && !t.outerQueued ==> !t.armed)
  {
    InvRun(Begin(), steps);
  }

  /** A cancellation ends the outer future at once and for good, and leaves the inner one alone. */
  lemma CancellationIsImmediate<T>(s: Shielding<T>, steps: seq<Step<T>>)
    requires Inv(s) && IsRun(s, [CancelOuter] + steps)
    ensures Apply(s, CancelOuter).inner == s.inner && Apply(s, CancelOuter).outer == Done(Cancelled)
    ensures After(s, [CancelOuter] + steps).outer == Done(Cancelled)
  {
    assert ([CancelOuter] + steps)[1..] == steps;
    CancelledStays(Apply(s, CancelOuter), steps);
  }

  lemma {:induction false} CancelledStays<T>(s: Shielding<T>, steps: seq<Step<T>>)
    requires IsRun(s, steps) && s.outer == Done(Cancelled)
    ensures After(s, steps).outer == Done(Cancelled)
    decreases |steps|
  {
    if steps != [] {
      CancelledStays(Apply(s, steps[0]), steps[1..]);
    }
  }

  lemma {:induction false} InvRun<T>(s: Shielding<T>, steps: seq<Step<T>>)
    requires Inv(s) && IsRun(s, steps)
    ensures Inv(After(s, steps))
    decreases |steps|
  {
    if steps != [] {
      InvRun(Apply(s, steps[0]), steps[1..]);
    }
  }

  // ---------- shield_wait ----------

  datatype Event<+T> = Ends(outcome: Outcome<T>) | OuterCancel | Turn

  /** `cancels` counts the calls to `cancel` on the inner task, `delivered` the outer cancellations. */
  datatype World<+T> = World(inner: Future<T>, cancels: nat, delivered: nat, schedule: seq<Event<T>>)

  /** How one await inside `shield_wait` ends. */
  datatype Await<+T> = Got(outcome: Outcome<T>) | Interrupted | Suspended

  /** One event of the schedule; a cancellation is counted, and passed on to the inner task if `forward`. */
  function AfterEvent<T>(w: World<T>, forward: bool): World<T>
    requires w.schedule != []
  {
    var e := w.schedule[0];
    World(
      if e.Ends? && w.inner.Pending? then Done(e.outcome) else w.inner,
      w.cancels + One(forward && e.OuterCancel?),
      w.delivered + One(e.OuterCancel?),
      w.schedule[1..])
  }

  /** `await shield(task)`: a cancellation interrupts it and does not reach the inner task. */
  function AwaitShielded<T>(w: World<T>): (World<T>, Await<T>) {
    if w.inner.Done? then (w, Got(w.inner.outcome)) else AwaitOuter(w)
  }

  function AwaitOuter<T>(w: World<T>): (World<T>, Await<T>)
    decreases |w.schedule|
  {
    if w.schedule == [] then (w, Suspended)
    else
      var next := AfterEvent(w, false);
      if w.schedule[0].OuterCancel? then (next, Interrupted)
      else if w.schedule[0].Turn? && w.inner.Done? then (next, Got(w.inner.outcome))
      else AwaitOuter(next)
  }

  /**
   `await task`: a cancellation is passed on to the inner task, and only interrupts this await when
   the inner task is done already.
   */
  function AwaitDirect<T>(w: World<T>): (World<T>, Await<T>) {
    if w.inner.Done? then (w, Got(w.inner.outcome)) else AwaitInner(w)
  }

  function AwaitInner<T>(w: World<T>): (World<T>, Await<T>)
    decreases |w.schedule|
  {
    if w.schedule == [] then (w, Suspended)
    else
      var next := AfterEvent(w, true);
      if w.schedule[0].OuterCancel? && w.inner.Done? then (next, Interrupted)
      else if w.schedule[0].Turn? && w.inner.Done? then (next, Got(w.inner.outcome))
      else AwaitInner(next)
  }

  // ---------- what the schedule alone tells ----------

  function Cancellations<T>(schedule: seq<Event<T>>): nat {
    if schedule == [] then 0 else One(schedule[0].OuterCancel?) + Cancellations(schedule[1..])
  }

  /** How the inner task ends, if the schedule says so: it ends once. */
  function Fate<T>(inner: Future<T>, schedule: seq<Event<T>>): Future<T> {
    if inner.Done? || schedule == [] then inner
    else if schedule[0].Ends? then Done(schedule[0].outcome)
    else Fate(inner, schedule[1..])
  }

  /** A cancellation comes before the driver has had its next turn. */
  ghost predicate Struck<T>(schedule: seq<Event<T>>) {
    exists j :: 0 <= j < |schedule| && schedule[j].OuterCancel? && NoTurn(schedule[..j])
  }

  ghost predicate NoTurn<T>(schedule: seq<Event<T>>) {
    forall m :: 0 <= m < |schedule| ==> !schedule[m].Turn?
  }

  ghost predicate NoEnd<T>(schedule: seq<Event<T>>) {
    forall m :: 0 <= m < |schedule| ==> !schedule[m].Ends?
  }

  /**
   A cancellation strikes the last, unshielded await when the inner task is done already: the task
   ends when as many cancellations as there are shields have come, and one more beats the next turn.
   */
  ghost predicate StrikesLate<T>(w: World<T>, shields: nat) {
    w.inner.Pending? && exists i :: 0 <= i < |w.schedule| && EndsStruck(w.schedule, shields, i)
  }

  ghost predicate EndsStruck<T>(schedule: seq<Event<T>>, shields: nat, i: nat)
    requires i < |schedule|
  {
    && schedule[i].Ends? && NoEnd(schedule[..i])
    && Cancellations(schedule[..i]) >= shields
    && Struck(schedule[i + 1..])
  }

  /** ... and the inner task has failed. */
  ghost predicate HidesFailure<T>(w: World<T>, shields: nat) {
    StrikesLate(w, shields) && Fate(w.inner, w.schedule).Done? && Fate(w.inner, w.schedule).outcome.Failure?
  }

  // The same conditions event by event.

  predicate StruckFrom<T>(schedule: seq<Event<T>>) {
    schedule != [] && (schedule[0].OuterCancel? || (!schedule[0].Turn? && StruckFrom(schedule[1..])))
  }

  predicate LateFrom<T>(schedule: seq<Event<T>>, shields: nat) {
    schedule != [] &&
    if schedule[0].Ends? then shields == 0 && StruckFrom(schedule[1..])
    else LateFrom(schedule[1..], if schedule[0].OuterCancel? && shields > 0 then shields - 1 else shields)
  }

  lemma ConsNoneOf<T>(e: Event<T>, s: seq<Event<T>>)
    ensures NoTurn([e] + s) <==> !e.Turn? && NoTurn(s)
    ensures NoEnd([e] + s) <==> !e.Ends? && NoEnd(s)
  {
    assert ([e] + s)[0] == e;
    assert forall m :: 0 <= m < |s| ==> s[m] == ([e] + s)[1 + m];
  }

  lemma {:induction false} StruckIff<T>(s: seq<Event<T>>)
    ensures Struck(s) <==> StruckFrom(s)
  {
    if s != [] {
      var t := s[1..];
      StruckIff(t);
      if s[0].OuterCancel? {
        assert NoTurn(s[..0]);
      }
      if j :| 0 <= j < |t| && t[j].OuterCancel? && NoTurn(t[..j]) && !s[0].Turn? {
        assert s[..j + 1] == [s[0]] + t[..j];
        ConsNoneOf(s[0], t[..j]);
        assert s[j + 1].OuterCancel?;
      }
      if j :| 0 <= j < |s| && s[j].OuterCancel? && NoTurn(s[..j]) && j > 0 {
        assert s[..j] == [s[0]] + t[..j - 1];
        ConsNoneOf(s[0], t[..j - 1]);
        assert t[j - 1].OuterCancel?;
      }
    }
  }

  lemma EndsStruckTail<T>(s: seq<Event<T>>, shields: nat, i: nat)
    requires i + 1 < |s| && !s[0].Ends?
    ensures EndsStruck(s, shields, i + 1) <==>
      EndsStruck(s[1..], if s[0].OuterCancel? && shields > 0 then shields - 1 else shields, i)
  {
    var t := s[1..];
    assert s[..i + 1] == [s[0]] + t[..i];
    assert s[..i + 1][1..] == t[..i];
    assert s[i + 2..] == t[i + 1..];
    ConsNoneOf(s[0], t[..i]);
  }

  lemma {:induction false} LateIff<T>(w: World<T>, shields: nat)
    requires w.inner.Pending?
    ensures StrikesLate(w, shields) <==> LateFrom(w.schedule, shields)
    decreases |w.schedule|
  {
    var s := w.schedule;
    if s != [] {
      if s[0].Ends? {
        StruckIff(s[1..]);
        assert EndsStruck(s, shields, 0) <==> LateFrom(s, shields);
        assert forall i :: 0 < i < |s| ==> s[..i][0] == s[0];
      } else {
        var left := if s[0].OuterCancel? && shields > 0 then shields - 1 else shields;
        var tail := w.(schedule := s[1..]);
        LateIff(tail, left);
        forall i: nat | i + 1 < |s|
          ensures EndsStruck(s, shields, i + 1) <==> EndsStruck(s[1..], left, i)
        {
          EndsStruckTail(s, shields, i);
        }
        if i :| 0 <= i < |s[1..]| && EndsStruck(s[1..], left, i) {
          assert EndsStruck(s, shields, i + 1);
        }
        if i :| 0 <= i < |s| && EndsStruck(s, shields, i) {
          assert EndsStruck(s[1..], left, i - 1);
        }
      }
    }
  }

  /** Time has passed from `w` to `v`: events were consumed, cancellations counted, the inner task kept its fate. */
  ghost predicate Passes<T>(w: World<T>, v: World<T>) {
    && |v.schedule| <= |w.schedule| && v.schedule == w.schedule[|w.schedule| - |v.schedule|..]
    && v.delivered + Cancellations(v.schedule) == w.delivered + Cancellations(w.schedule)
    && v.delivered >= w.delivered
    && Fate(v.inner, v.schedule) == Fate(w.inner, w.schedule)
    && (w.inner.Done? ==> v.inner == w.inner)
  }

  lemma PassesOn<T>(u: World<T>, w: World<T>, v: World<T>)
    requires Passes(u, w) && Passes(w, v)
    ensures Passes(u, v)
  {
  }

  lemma PassesOne<T>(w: World<T>, forward: bool)
    requires w.schedule != []
    ensures Passes(w, AfterEvent(w, forward))
  {
  }

  lemma OuterUnfolds<T>(w: World<T>)
    requires w.schedule != []
    ensures AwaitOuter(w).0 == AfterEvent(w, false) || AwaitOuter(w) == AwaitOuter(AfterEvent(w, false))
  {
  }

  lemma InnerUnfolds<T>(w: World<T>)
    requires w.schedule != []
    ensures AwaitInner(w).0 == AfterEvent(w, true) || AwaitInner(w) == AwaitInner(AfterEvent(w, true))
  {
  }

  lemma {:induction false} AwaitOuterPasses<T>(w: World<T>)
    ensures Passes(w, AwaitOuter(w).0)
    decreases |w.schedule|
  {
    if w.schedule != [] {
      var next := AfterEvent(w, false);
      PassesOne(w, false);
      AwaitOuterPasses(next);
      PassesOn(w, next, AwaitOuter(next).0);
      OuterUnfolds(w);
    }
  }

  lemma {:induction false} AwaitInnerPasses<T>(w: World<T>)
    ensures Passes(w, AwaitInner(w).0)
    decreases |w.schedule|
  {
    if w.schedule != [] {
      var next := AfterEvent(w, true);
      PassesOne(w, true);
      AwaitInnerPasses(next);
      PassesOn(w, next, AwaitInner(next).0);
      InnerUnfolds(w);
    }
  }

  lemma {:induction false} AwaitOuterEffect<T>(w: World<T>)
    ensures var (v, a) := AwaitOuter(w);
      && v.cancels == w.cancels && v.delivered == w.delivered + One(a.Interrupted?)
      && (a.Got? ==> v.inner == Done(a.outcome))
      && (a.Suspended? ==> v.schedule == [])
    decreases |w.schedule|
  {
    if w.schedule != [] {
      AwaitOuterEffect(AfterEvent(w, false));
    }
  }

  lemma {:induction false} AwaitInnerEffect<T>(w: World<T>)
    ensures var (v, a) := AwaitInner(w);
      && v.cancels - w.cancels == v.delivered - w.delivered >= 0
      && (a.Got? ==> v.inner == Done(a.outcome))
      && (a.Interrupted? ==> v.inner.Done? && v.delivered > w.delivered)
      && (a.Suspended? ==> v.schedule == [])
    decreases |w.schedule|
  {
    if w.schedule != [] {
      AwaitInnerEffect(AfterEvent(w, true));
    }
  }

  /** A late strike is still to come as long as each shielded await is interrupted with the task running. */
  predicate StillLate<T>(w: World<T>, shields: nat) {
    w.inner.Pending? && LateFrom(w.schedule, shields)
  }

  lemma {:induction false} OuterKeepsDone<T>(w: World<T>)
    requires w.inner.Done?
    ensures AwaitOuter(w).0.inner == w.inner
    decreases |w.schedule|
  {
    if w.schedule != [] {
      OuterKeepsDone(AfterEvent(w, false));
    }
  }

  lemma {:induction false} OuterStrikes<T>(w: World<T>, shields: nat)
    requires w.inner.Pending? && shields > 0
    ensures var (v, a) := AwaitOuter(w);
      LateFrom(w.schedule, shields) <==> a.Interrupted? && StillLate(v, shields - 1)
    decreases |w.schedule|
  {
    if w.schedule != [] && !w.schedule[0].OuterCancel? {
      var next := AfterEvent(w, false);
      if next.inner.Done? {
        OuterKeepsDone(next);
      } else {
        OuterStrikes(next, shields);
      }
    }
  }

  lemma {:induction false} InnerStrikes<T>(w: World<T>)
    ensures AwaitInner(w).1.Interrupted? <==>
      if w.inner.Done? then StruckFrom(w.schedule) else LateFrom(w.schedule, 0)
    decreases |w.schedule|
  {
    if w.schedule != [] {
      InnerStrikes(AfterEvent(w, true));
    }
  }

  lemma FateIsSealed<T>(w0: World<T>, w: World<T>)
    requires Passes(w0, w) && w.inner.Done?
    ensures w.inner == Fate(w0.inner, w0.schedule)
  {
  }

  lemma ShieldedEffect<T>(w0: World<T>, w: World<T>, shields: nat)
    requires Passes(w0, w) && shields > 0
    ensures var (v, a) := AwaitShielded(w);
      && Passes(w0, v)
      && v.cancels == w.cancels && v.delivered == w.delivered + One(a.Interrupted?)
      && (a.Got? ==> v.inner == Done(a.outcome) == Fate(w0.inner, w0.schedule))
      && (a.Suspended? ==> v.schedule == [])
      && (w.inner.Done? ==> a.Got?)
      && (StillLate(w, shields) <==> a.Interrupted? && StillLate(v, shields - 1))
  {
    var (v, a) := AwaitShielded(w);
    if w.inner.Pending? {
      AwaitOuterPasses(w);
      AwaitOuterEffect(w);
      OuterStrikes(w, shields);
      PassesOn(w0, w, v);
    }
    if a.Got? {
      FateIsSealed(w0, v);
    }
  }

  lemma DirectEffect<T>(w0: World<T>, w: World<T>)
    requires Passes(w0, w)
    ensures var (v, a) := AwaitDirect(w);
      && Passes(w0, v)
      && v.cancels - w.cancels == v.delivered - w.delivered >= 0
      && (a.Got? ==> v.inner == Done(a.outcome))
      && (!a.Suspended? ==> v.inner.Done? && v.inner == Fate(w0.inner, w0.schedule))
      && (a.Interrupted? ==> v.delivered > w.delivered)
      && (a.Suspended? ==> v.schedule == [])
      && (w.inner.Done? ==> v == w)
      && (a.Interrupted? <==> StillLate(w, 0))
  {
    var (v, a) := AwaitDirect(w);
    if w.inner.Pending? {
      AwaitInnerPasses(w);
      AwaitInnerEffect(w);
      InnerStrikes(w);
      PassesOn(w0, w, v);
    }
    if !a.Suspended? {
      FateIsSealed(w0, v);
    }
  }

  /** What the caller is promised: the inner exception, else the cancellation, else the result. */
  function Promised<T>(inner: Outcome<T>, cancelled: bool): Outcome<T> {
    if inner.Failure? then inner else if cancelled then Cancelled else inner
  }

  lemma StrikesLateIff<T>(w: World<T>, shields: nat)
    ensures StrikesLate(w, shields) <==> StillLate(w, shields)
  {
    if w.inner.Pending? {
      LateIff(w, shields);
    }
  }

  /**
   The loop over the shields. `leftOver` tells that it ran to its end, so that the task is awaited once
   more, unshielded; otherwise it returned with `result`.
   */
  method AwaitShields<T>(w0: World<T>, shieldCount: nat)
    returns (w: World<T>, result: Await<T>, cancelled: bool, leftOver: bool)
    requires shieldCount > 0
    ensures Passes(w0, w) && w.cancels == w0.cancels && w.delivered - w0.delivered <= shieldCount
    ensures cancelled ==> w.delivered > w0.delivered || w.inner == Done(Cancelled)
    ensures w.delivered > w0.delivered ==> cancelled
    ensures leftOver ==> cancelled && (w.inner.Pending? ==> w.delivered - w0.delivered == shieldCount)
    ensures leftOver ==> (StillLate(w0, shieldCount) <==> StillLate(w, 0))
    ensures !leftOver ==> !StillLate(w0, shieldCount) && !result.Interrupted?
    ensures !leftOver && result.Suspended? ==> w.schedule == []
    ensures !leftOver && result.Got? ==>
      w.inner == Done(result.outcome) && !result.outcome.Cancelled? && w.inner == Fate(w0.inner, w0.schedule)
  {
    w, cancelled, leftOver, result := w0, false, false, Suspended;
    for i := 0 to shieldCount
      invariant Passes(w0, w) && w.delivered - w0.delivered <= i && w.cancels == w0.cancels
      invariant cancelled ==> w.delivered > w0.delivered || w.inner == Done(Cancelled)
      invariant w.delivered > w0.delivered || i > 0 ==> cancelled
      invariant w.inner.Pending? ==> w.delivered - w0.delivered == i
      invariant StillLate(w0, shieldCount) <==> StillLate(w, shieldCount - i)
    {
      ShieldedEffect(w0, w, shieldCount - i);
      var (v, a) := AwaitShielded(w);
      w := v;
      match a {
        case Interrupted => cancelled := true;
        case Got(Cancelled) => cancelled := true;
        case _ =>
          result := a;
          return;
      }
    }
    leftOver := true;
  }

  /**
   `shield_wait` against every schedule. With `n` cancellations delivered, the inner task gets the ones
   beyond the shield and is done in the end, as the schedule ended it. The outcome is the promised one
   if and only if the schedule does not strike the last, unshielded await after the inner task failed.
   */
  method ShieldWait<T>(w0: World<T>, shieldCount: int) returns (w: World<T>, result: Await<T>)
    ensures !result.Interrupted? && (result.Suspended? ==> w.schedule == [])
    ensures Passes(w0, w)
    ensures var n := w.delivered - w0.delivered; w.cancels == w0.cancels + Max(0, n - Max(0, shieldCount))
    ensures result.Got? ==> w.inner.Done? && w.inner == Fate(w0.inner, w0.schedule)
    ensures result.Got? && shieldCount > 0 ==>
      (result == Got(Promised(w.inner.outcome, w.delivered > w0.delivered)) <==> !HidesFailure(w0, shieldCount))
    ensures result.Got? && StrikesLate(w0, Max(0, shieldCount)) ==> result == Got(Cancelled)
    ensures result.Got? && w.delivered == w0.delivered ==> result == Got(w.inner.outcome)
    ensures result.Got? && w.delivered > w0.delivered && shieldCount > 0 && !w.inner.outcome.Failure? ==>
      result == Got(Cancelled)
    ensures result.Got? && shieldCount > 0 && w.inner.outcome.Failure? && !StrikesLate(w0, shieldCount) ==>
      result == Got(w.inner.outcome)
    ensures result.Got? && shieldCount <= 0 && !StrikesLate(w0, 0) ==> result == Got(w.inner.outcome)
  {
    StrikesLateIff(w0, Max(0, shieldCount));
    if shieldCount <= 0 {
      DirectEffect(w0, w0);
      var (v, a) := AwaitDirect(w0);
      return v, if a.Interrupted? then Got(Cancelled) else a;
    }

    var cancelled, leftOver;
    w, result, cancelled, leftOver := AwaitShields(w0, shieldCount);
    if !leftOver {
      if cancelled && result.Got? && result.outcome.Success? {
        result := Got(Cancelled);
      }
      return;
    }

    DirectEffect(w0, w);
    var (v, a) := AwaitDirect(w);
    w := v;
    match a
    case Suspended => result := Suspended;
    case Interrupted => result := Got(Cancelled);
    case Got(o) => result := if o.Success? && cancelled then Got(Cancelled) else a;
  }

  /** A late cancellation does hide a failure: cancel twice, let the inner task fail, cancel again. */
  lemma LateCancellationHidesFailure<T>(error: nat)
    ensures var w0: World<T> := World(Pending, 0, 0, [OuterCancel, OuterCancel, Ends(Failure(error)), OuterCancel]);
      var (w1, a1) := AwaitShielded(w0);
      var (w2, a2) := AwaitDirect(w1);
      HidesFailure(w0, 1) && a1.Interrupted? && a2.Interrupted? && w2.inner == Done(Failure(error))
  {
    var w0: World<T> := World(Pending, 0, 0, [OuterCancel, OuterCancel, Ends(Failure(error)), OuterCancel]);
    var w1: World<T> := World(Pending, 0, 1, [OuterCancel, Ends(Failure(error)), OuterCancel]);
    var v1: World<T> := World(Pending, 1, 2, [Ends(Failure(error)), OuterCancel]);
    var v2: World<T> := World(Done(Failure(error)), 1, 2, [OuterCancel]);
    assert AwaitOuter(w0) == (w1, Interrupted);
    assert AwaitInner(w1) == AwaitInner(v1);
    assert AwaitInner(v1) == AwaitInner(v2);
    LateIff(w0, 1);
    assert LateFrom(w1.schedule, 0) <==> LateFrom(v1.schedule, 0);
    assert Fate(w0.inner, w0.schedule) == Fate(w1.inner, w1.schedule) == Done(Failure(error));
  }

  /** `ShieldContext.shield`: the cancellations requested before the context was made use up the shield. */
  method ShieldInContext<T>(w0: World<T>, initialCount: nat, shieldCount: int)
    returns (w: World<T>, result: Await<T>)
    ensures Passes(w0, w) && !result.Interrupted? && (result.Suspended? ==> w.schedule == [])
    ensures var n := w.delivered - w0.delivered;
      w.cancels == w0.cancels + Max(0, n - Max(0, shieldCount - initialCount))
    ensures result.Got? ==> w.inner.Done? && w.inner == Fate(w0.inner, w0.schedule)
    ensures result.Got? && shieldCount > initialCount ==>
      (result == Got(Promised(w.inner.outcome, w.delivered > w0.delivered)) <==>
        !HidesFailure(w0, shieldCount - initialCount))
    ensures result.Got? && shieldCount <= initialCount ==>
      result == Got(if StrikesLate(w0, 0) then Cancelled else w.inner.outcome)
  {
    w, result := ShieldWait(w0, shieldCount - initialCount);
  }
}
