/**
 `amass` of src/aiodrive/modules/amass.py, against every schedule. The awaitables are numbered
 from 0 in the order of the iterable; awaitable `i` runs as task `i` of the world, and so does the
 task that terminates it when it was never started.

 The loop of the generator is a step machine, one step for each stretch of code between two points
 where something can happen; its theorems hold in every reachable state. The methods below have the
 loops of the source, and their contracts say that they are runs of this machine.
 */
module Amass {
  import opened Wrappers
  import opened Futures
  import opened TaskWaits
  import Gathering = Gather

  /** Why the loop was left. */
  datatype Why = Exhausted | SawFailed | WasInterrupted | Closed

  datatype Pc =
    | Starting                // in the loop that starts awaitables
    | Waiting                 // suspended in `asyncio.wait`
    | Processing              // in the loop over the done futures
    | Yielded                 // suspended at the yield in that loop
    | Over(why: Why)

  /**
   The variables of the generator. `unprocessed` is what the loop over the done futures has left,
   `order` has the tasks whose results were yielded, `waits` counts the calls to `asyncio.wait`.
   */
  datatype State<T> = State(
    w: World<T>,
    limit: Option<nat>,
    sensitive: bool,
    pc: Pc,
    next: nat,
    pending: set<nat>,
    unprocessed: set<nat>,
    processed: set<nat>,
    order: seq<nat>,
    output: seq<T>,
    waits: nat)

  function Begin<T>(w: World<T>, limit: Option<nat>, sensitive: bool): State<T> {
    State(w, limit, sensitive, Starting, 0, {}, {}, {}, [], [], 0)
  }

  datatype Step =
    | StartOne
    | Block                   // nothing more can be started
    | Event                   // the next event of the schedule, while suspended
    | Process(task: nat)
    | NextPass

  predicate CanStart<T>(s: State<T>) {
    (s.limit.None? || |s.pending| < s.limit.value) && s.next < |s.w.tasks|
  }

  predicate Suspends(pc: Pc) {
    pc.Waiting? || pc.Yielded?
  }

  predicate Enabled<T>(s: State<T>, step: Step) {
    match step
    case StartOne => s.pc.Starting? && CanStart(s)
    case Block => s.pc.Starting? && !CanStart(s)
    case Event => Suspends(s.pc) && s.w.schedule != []
    case Process(i) => s.pc.Processing? && i in s.unprocessed && i < |s.w.tasks| && s.w.tasks[i].Done?
    case NextPass => s.pc.Processing? && s.unprocessed == {}
  }

  /** The wait has returned: the done futures are no longer pending. */
  function WakeUp<T>(s: State<T>): State<T> {
    var done := set i | i in s.pending && i < |s.w.tasks| && s.w.tasks[i].Done?;
    s.(pending := s.pending - done, unprocessed := done, pc := Processing)
  }

  /** The generator after a wait or a yield that ended as `r`. */
  function Resume<T>(s: State<T>, r: WaitResult): State<T> {
    match r
    case Suspended => s
    case Interrupted => s.(pc := Over(if s.pc.Waiting? then WasInterrupted else Closed))
    case Ready => if s.pc.Waiting? then WakeUp(s) else s.(pc := Processing)
  }

  function Happens<T>(s: State<T>): State<T>
    requires Suspends(s.pc) && s.w.schedule != []
  {
    var e := s.w.schedule[0];
    var t := s.(w := Happen(s.w, e).(schedule := s.w.schedule[1..]));
    if s.pc.Yielded? then
      Resume(t, if e.CloseGenerator? then Interrupted else if e.Turn? then Ready else Suspended)
    else if e.OuterCancel? then Resume(t.(w := t.w.(delivered := s.w.delivered + 1)), Interrupted)
    else Resume(t, if e.Turn? && Met(s.w.tasks, FirstCompleted(s.pending)) then Ready else Suspended)
  }

  function Processed<T>(s: State<T>, i: nat): State<T>
    requires i < |s.w.tasks| && s.w.tasks[i].Done?
  {
    var t := s.(unprocessed := s.unprocessed - {i}, processed := s.processed + {i});
    if s.w.tasks[i].outcome.Success? then
      t.(order := s.order + [i], output := s.output + [s.w.tasks[i].outcome.value], pc := Yielded)
    else if s.sensitive then t.(pc := Over(SawFailed))
    else t
  }

  function Apply<T>(s: State<T>, step: Step): State<T>
    requires Enabled(s, step)
  {
    match step
    case StartOne =>
      s.(w := s.w.(active := s.w.active + {s.next}), pending := s.pending + {s.next}, next := s.next + 1)
    case Block => if s.pending == {} then s.(pc := Over(Exhausted)) else s.(pc := Waiting, waits := s.waits + 1)
    case Event => Happens(s)
    case Process(i) => Processed(s, i)
    case NextPass => s.(pc := Starting)
  }

  predicate IsRun<T>(s: State<T>, steps: seq<Step>)
    decreases |steps|
  {
    steps == [] || (Enabled(s, steps[0]) && IsRun(Apply(s, steps[0]), steps[1..]))
  }

  function After<T>(s: State<T>, steps: seq<Step>): State<T>
    requires IsRun(s, steps)
    decreases |steps|
  {
    if steps == [] then s else After(Apply(s, steps[0]), steps[1..])
  }

  ghost predicate Reaches<T>(s: State<T>, t: State<T>) {
    exists steps :: IsRun(s, steps) && After(s, steps) == t
  }

  lemma {:induction false} RunThenStep<T>(s: State<T>, steps: seq<Step>, step: Step)
    requires IsRun(s, steps) && Enabled(After(s, steps), step)
    ensures IsRun(s, steps + [step]) && After(s, steps + [step]) == Apply(After(s, steps), step)
    decreases |steps|
  {
    if steps == [] {
      assert [] + [step] == [step] && [step][1..] == [];
    } else {
      assert (steps + [step])[1..] == steps[1..] + [step];
      RunThenStep(Apply(s, steps[0]), steps[1..], step);
    }
  }

  lemma OverIsOver<T>(s: State<T>, steps: seq<Step>)
    requires IsRun(s, steps) && s.pc.Over?
    ensures steps == []
  {
  }

  lemma ReachesSelf<T>(s: State<T>)
    ensures Reaches(s, s)
  {
    assert IsRun(s, []) && After(s, []) == s;
  }

  lemma ReachesStep<T>(b: State<T>, s: State<T>, step: Step)
    requires Reaches(b, s) && Enabled(s, step)
    ensures Reaches(b, Apply(s, step))
  {
    var steps :| IsRun(b, steps) && After(b, steps) == s;
    RunThenStep(b, steps, step);
  }

  lemma {:induction false} RunConcat<T>(s: State<T>, a: seq<Step>, b: seq<Step>)
    requires IsRun(s, a) && IsRun(After(s, a), b)
    ensures IsRun(s, a + b) && After(s, a + b) == After(After(s, a), b)
    decreases |a|
  {
    if a == [] {
      assert a + b == b;
    } else {
      assert (a + b)[1..] == a[1..] + b;
      RunConcat(Apply(s, a[0]), a[1..], b);
    }
  }

  lemma ReachesOn<T>(s: State<T>, t: State<T>, u: State<T>)
    requires Reaches(s, t) && Reaches(t, u)
    ensures Reaches(s, u)
  {
    var a :| IsRun(s, a) && After(s, a) == t;
    var b :| IsRun(t, b) && After(t, b) == u;
    RunConcat(s, a, b);
  }

  /** A whole wait is a run of events. */
  lemma {:induction false} ReachesWait<T>(b: State<T>, s: State<T>)
    requires Reaches(b, s) && s.pc.Waiting?
    ensures var (v, r) := Wait(s.w, FirstCompleted(s.pending)); Reaches(b, Resume(s.(w := v), r))
    decreases |s.w.schedule|
  {
    if s.w.schedule != [] {
      ReachesStep(b, s, Event);
      var t := Apply(s, Event);
      if t.pc.Waiting? {
        ReachesWait(b, t);
      }
    }
  }

  /** So is everything that happens while the consumer has the result. */
  lemma {:induction false} ReachesYield<T>(b: State<T>, s: State<T>)
    requires Reaches(b, s) && s.pc.Yielded?
    ensures var (v, r) := AtYield(s.w); Reaches(b, Resume(s.(w := v), r))
    decreases |s.w.schedule|
  {
    if s.w.schedule != [] {
      ReachesStep(b, s, Event);
      var t := Apply(s, Event);
      if t.pc.Yielded? {
        ReachesYield(b, t);
      }
    }
  }

  // ---------- the invariant ----------

  function Places<T>(s: State<T>, i: nat): nat {
    One(s.next <= i < |s.w.tasks|) + One(i in s.pending) + One(i in s.unprocessed) + One(i in s.processed)
  }

  /**
   Every awaitable is in one place: not started, running, done but not processed, or processed. The
   running ones respect the limit.
   */
  ghost predicate Splits<T>(s: State<T>) {
    && (forall i: nat :: Places(s, i) == One(i < |s.w.tasks|))
    && (s.limit.Some? ==> |s.pending| <= s.limit.value)
  }

  ghost predicate TaskInv<T>(s: State<T>) {
    && s.next <= |s.w.tasks|
    && (forall i :: i in s.unprocessed ==> i < |s.w.tasks| && s.w.tasks[i].Done?)
    && (forall i: nat :: i in s.w.active <==> i < s.next)
  }

  /** The output is the results of the tasks in `order`, each once: all processed tasks that succeeded. */
  ghost predicate OutInv<T>(s: State<T>) {
    && |s.output| == |s.order| && Distinct(s.order)
    && (forall k :: 0 <= k < |s.order| ==>
      && s.order[k] in s.processed && s.order[k] < |s.w.tasks|
      && s.w.tasks[s.order[k]] == Done(Success(s.output[k])))
    && (forall i :: i in s.processed ==>
      i < |s.w.tasks| && s.w.tasks[i].Done? && (s.w.tasks[i].outcome.Success? ==> i in s.order))
  }

  ghost predicate NoneFailed<T>(s: State<T>) {
    forall i :: i in s.processed ==> i < |s.w.tasks| && !Failed(s.w.tasks[i])
  }

  ghost predicate PcInv<T>(s: State<T>) {
    && (s.pc.Starting? || s.pc.Waiting? || s.pc == Over(Exhausted) ==> s.unprocessed == {})
    && (InWait(s.pc) ==> s.pending != {})
    && (s.pc == Over(Exhausted) ==> s.pending == {} && (s.next == |s.w.tasks| || s.limit == Some(0)))
    && (s.pc == Over(SawFailed) ==> s.sensitive && !NoneFailed(s))
    && (s.sensitive && s.pc != Over(SawFailed) ==> NoneFailed(s))
  }

  /** The generator is in a wait, or was interrupted in one. */
  predicate InWait(pc: Pc) {
    pc.Waiting? || pc == Over(WasInterrupted)
  }

  /** Each wait but the current one has taken an awaitable from those not started or running. */
  ghost predicate WaitInv<T>(s: State<T>) {
    s.waits + |s.w.tasks| - s.next + |s.pending| <= |s.w.tasks| + One(InWait(s.pc))
  }

  ghost predicate Inv<T>(s: State<T>) {
    Splits(s) && TaskInv(s) && OutInv(s) && PcInv(s) && WaitInv(s)
  }

  /** What a run changes in the world, and what it needs from the schedule to end as it does. */
  ghost predicate Since<T>(b: State<T>, s: State<T>) {
    && s.limit == b.limit && s.sensitive == b.sensitive
    && |s.w.tasks| == |b.w.tasks| && s.w.cancels == b.w.cancels
    && |s.w.schedule| <= |b.w.schedule| && s.w.schedule == b.w.schedule[|b.w.schedule| - |s.w.schedule|..]
    && s.w.delivered == b.w.delivered + One(s.pc == Over(WasInterrupted))
    && (forall i :: s.next <= i < |s.w.tasks| ==> s.w.tasks[i] == b.w.tasks[i])
    && (s.pc == Over(WasInterrupted) ==> OuterCancel in b.w.schedule)
    && (s.pc == Over(Closed) ==> CloseGenerator in b.w.schedule)
  }

  lemma TimeKeepsInv<T>(s: State<T>, v: World<T>)
    requires Inv(s) && Later(s.w, v)
    ensures Inv(s.(w := v))
  {
    var t := s.(w := v);
    assert forall i: nat :: Places(t, i) == Places(s, i);
    assert forall i :: i in s.processed ==> t.w.tasks[i] == s.w.tasks[i];
  }

  lemma WakeUpSplits<T>(s: State<T>)
    requires Splits(s) && s.unprocessed == {}
    ensures Splits(WakeUp(s)) && |WakeUp(s).pending| + |WakeUp(s).unprocessed| == |s.pending|
  {
    var t := WakeUp(s);
    assert s.pending == t.pending + t.unprocessed;
    forall i: nat
      ensures Places(t, i) == One(i < |s.w.tasks|)
    {
      assert Places(s, i) == One(i < |s.w.tasks|);
    }
  }

  lemma ResumeKeepsInv<T>(s: State<T>, r: WaitResult)
    requires Inv(s) && Suspends(s.pc)
    requires s.pc.Waiting? && r.Ready? ==> Met(s.w.tasks, FirstCompleted(s.pending))
    ensures Inv(Resume(s, r))
  {
    var t := Resume(s, r);
    if s.pc.Waiting? && r.Ready? {
      WakeUpSplits(s);
      var i :| 0 <= i < |s.w.tasks| && i in s.pending && s.w.tasks[i].Done?;
      assert i in t.unprocessed;
    } else {
      assert forall i: nat :: Places(t, i) == Places(s, i);
    }
  }

  lemma EventKeepsInv<T>(s: State<T>)
    requires Inv(s) && Enabled(s, Event)
    ensures Inv(Happens(s))
  {
    var e := s.w.schedule[0];
    var v := Happen(s.w, e).(schedule := s.w.schedule[1..]);
    if s.pc.Waiting? && e.OuterCancel? {
      v := v.(delivered := s.w.delivered + 1);
    }
    TimeKeepsInv(s, v);
    var r := if s.pc.Yielded? then if e.CloseGenerator? then Interrupted else if e.Turn? then Ready else Suspended
      else if e.OuterCancel? then Interrupted
      else if e.Turn? && Met(s.w.tasks, FirstCompleted(s.pending)) then Ready else Suspended;
    ResumeKeepsInv(s.(w := v), r);
  }

  lemma StartKeepsInv<T>(s: State<T>)
    requires Inv(s) && Enabled(s, StartOne)
    ensures Inv(Apply(s, StartOne))
  {
    var t := Apply(s, StartOne);
    assert Places(s, s.next) == 1;
    forall i: nat
      ensures Places(t, i) == One(i < |s.w.tasks|)
    {
      assert Places(s, i) == One(i < |s.w.tasks|);
    }
  }

  lemma BlockKeepsInv<T>(s: State<T>)
    requires Inv(s) && Enabled(s, Block)
    ensures Inv(Apply(s, Block))
  {
    assert forall i: nat :: Places(Apply(s, Block), i) == Places(s, i);
  }

  lemma ProcessKeepsSplit<T>(s: State<T>, i: nat)
    requires Inv(s) && Enabled(s, Process(i))
    ensures var t := Processed(s, i); Splits(t) && TaskInv(t) && WaitInv(t)
  {
    forall k: nat
      ensures Places(Processed(s, i), k) == One(k < |s.w.tasks|)
    {
      assert Places(s, k) == One(k < |s.w.tasks|);
    }
  }

  lemma ProcessKeepsOut<T>(s: State<T>, i: nat)
    requires Inv(s) && Enabled(s, Process(i))
    ensures OutInv(Processed(s, i)) && PcInv(Processed(s, i))
  {
    assert Places(s, i) == One(i < |s.w.tasks|);
    assert i !in s.processed && i !in s.order;
    assert i in Processed(s, i).processed;
  }

  lemma InvStep<T>(s: State<T>, step: Step)
    requires Inv(s) && Enabled(s, step)
    ensures Inv(Apply(s, step))
  {
    match step
    case StartOne => StartKeepsInv(s);
    case Block => BlockKeepsInv(s);
    case Event => EventKeepsInv(s);
    case Process(i) =>
      ProcessKeepsSplit(s, i);
      ProcessKeepsOut(s, i);
    case NextPass => assert forall i: nat :: Places(Apply(s, NextPass), i) == Places(s, i);
  }

  lemma SinceLater<T>(b: State<T>, s: State<T>, v: World<T>)
    requires Since(b, s) && TaskInv(s) && Suspends(s.pc) && s.w.schedule != []
    requires Later(s.w, v) && v.schedule == s.w.schedule[1..] && v.delivered == s.w.delivered
    ensures Since(b, s.(w := v))
  {
  }

  lemma SinceResume<T>(b: State<T>, s: State<T>, r: WaitResult)
    requires Since(b, s) && Suspends(s.pc) && (s.pc.Waiting? ==> !r.Interrupted?)
    requires r.Interrupted? ==> CloseGenerator in b.w.schedule
    ensures Since(b, Resume(s, r))
  {
  }

  lemma SinceInterrupt<T>(b: State<T>, s: State<T>)
    requires Since(b, s) && s.pc.Waiting? && OuterCancel in b.w.schedule
    ensures Since(b, Resume(s.(w := s.w.(delivered := s.w.delivered + 1)), Interrupted))
  {
  }

  lemma SinceEvent<T>(b: State<T>, s: State<T>)
    requires Since(b, s) && TaskInv(s) && Enabled(s, Event)
    ensures Since(b, Happens(s))
  {
    var e := s.w.schedule[0];
    assert e in b.w.schedule;
    var t := s.(w := Happen(s.w, e).(schedule := s.w.schedule[1..]));
    SinceLater(b, s, t.w);
    if s.pc.Yielded? {
      SinceResume(b, t, if e.CloseGenerator? then Interrupted else if e.Turn? then Ready else Suspended);
    } else if e.OuterCancel? {
      SinceInterrupt(b, t);
    } else {
      SinceResume(b, t, if e.Turn? && Met(s.w.tasks, FirstCompleted(s.pending)) then Ready else Suspended);
    }
  }

  lemma SinceStep<T>(b: State<T>, s: State<T>, step: Step)
    requires Since(b, s) && TaskInv(s) && Enabled(s, step)
    ensures Since(b, Apply(s, step))
  {
    match step
    case Event => SinceEvent(b, s);
    case _ =>
  }

  lemma {:induction false} InvRun<T>(b: State<T>, s: State<T>, steps: seq<Step>)
    requires Inv(s) && Since(b, s) && IsRun(s, steps)
    ensures Inv(After(s, steps)) && Since(b, After(s, steps))
    decreases |steps|
  {
    if steps != [] {
      InvStep(s, steps[0]);
      SinceStep(b, s, steps[0]);
      InvRun(b, Apply(s, steps[0]), steps[1..]);
    }
  }

  /** The world before the generator has run. */
  ghost predicate Fresh<T>(w: World<T>) {
    Sound(w) && w.active == {}
  }

  lemma ReachableInv<T>(w: World<T>, limit: Option<nat>, sensitive: bool, s: State<T>)
    requires Fresh(w) && Reaches(Begin(w, limit, sensitive), s)
    ensures Inv(s) && Since(Begin(w, limit, sensitive), s)
  {
    var b := Begin(w, limit, sensitive);
    var steps :| IsRun(b, steps) && After(b, steps) == s;
    assert forall i: nat :: Places(b, i) == One(i < |w.tasks|);
    InvRun(b, b, steps);
  }

  // ---------- what every run keeps ----------

  /** At every point the awaitables are split, the limit is kept, and there were at most as many waits as awaitables. */
  lemma AlwaysSplit<T>(w: World<T>, limit: Option<nat>, sensitive: bool, steps: seq<Step>)
    requires Fresh(w) && IsRun(Begin(w, limit, sensitive), steps)
    ensures var s := After(Begin(w, limit, sensitive), steps);
      && (forall i: nat :: Places(s, i) == One(i < |w.tasks|))
      && (limit.Some? ==> |s.pending| <= limit.value)
      && s.waits <= |w.tasks|
  {
    var s := After(Begin(w, limit, sensitive), steps);
    assert Reaches(Begin(w, limit, sensitive), s);
    ReachableInv(w, limit, sensitive, s);
    WaitsBounded(s);
  }

  lemma WaitsBounded<T>(s: State<T>)
    requires Inv(s)
    ensures s.waits <= |s.w.tasks|
  {
    if InWait(s.pc) {
      assert |s.pending| > 0;
    }
  }

  /** How many steps there are still to come at most. */
  function Potential<T>(s: State<T>): int {
    |s.w.schedule| + 4 * (|s.w.tasks| - s.next) + 3 * |s.pending| + |s.unprocessed| +
    match s.pc
    case Starting => 1
    case Waiting => 0
    case Processing => 2
    case Yielded => 2
    case Over(_) => 0
  }

  lemma WakeUpLowersPotential<T>(s: State<T>)
    requires Inv(s) && s.pc.Waiting? && Met(s.w.tasks, FirstCompleted(s.pending))
    ensures Potential(WakeUp(s)) <= Potential(s)
  {
    WakeUpSplits(s);
    var i :| 0 <= i < |s.w.tasks| && i in s.pending && s.w.tasks[i].Done?;
    assert i in WakeUp(s).unprocessed;
  }

  lemma EventLowersPotential<T>(s: State<T>)
    requires Inv(s) && Enabled(s, Event)
    ensures Potential(Happens(s)) < Potential(s)
  {
    if s.pc.Waiting? && Happens(s).pc.Processing? {
      var t := s.(w := s.w.(schedule := s.w.schedule[1..]));
      TimeKeepsInv(s, t.w);
      WakeUpLowersPotential(t);
    }
  }

  lemma StepLowersPotential<T>(s: State<T>, step: Step)
    requires Inv(s) && Enabled(s, step)
    ensures Potential(Apply(s, step)) < Potential(s)
  {
    match step
    case StartOne => assert Places(s, s.next) == 1;
    case Event => EventLowersPotential(s);
    case _ =>
  }

  lemma {:induction false} PotentialFalls<T>(s: State<T>, steps: seq<Step>)
    requires Inv(s) && IsRun(s, steps)
    ensures 0 <= Potential(After(s, steps)) <= Potential(s) - |steps|
    decreases |steps|
  {
    if steps != [] {
      InvStep(s, steps[0]);
      StepLowersPotential(s, steps[0]);
      PotentialFalls(Apply(s, steps[0]), steps[1..]);
    }
  }

  /** The generator never loops: it takes at most one step for each event and four for each awaitable, and one more. */
  lemma RunsAreBounded<T>(w: World<T>, limit: Option<nat>, sensitive: bool, steps: seq<Step>)
    requires Fresh(w) && IsRun(Begin(w, limit, sensitive), steps)
    ensures |steps| <= |w.schedule| + 4 * |w.tasks| + 1
  {
    var b := Begin(w, limit, sensitive);
    ReachesSelf(b);
    ReachableInv(w, limit, sensitive, b);
    PotentialFalls(b, steps);
  }

  /** Why a generator that goes no further does not, or what it waits for. */
  ghost predicate HasReason<T>(w: World<T>, s: State<T>) {
    match s.pc
    case Over(Exhausted) => s.pending == {} && (s.next == |s.w.tasks| || s.limit == Some(0))
    case Over(SawFailed) =>
      s.sensitive && exists i :: 0 <= i < |s.w.tasks| && i < s.next && Failed(s.w.tasks[i])
    case Over(WasInterrupted) => OuterCancel in w.schedule
    case Over(Closed) => CloseGenerator in w.schedule
    case Waiting => s.pending != {} && s.w.schedule == []
    case Yielded => s.w.schedule == []
    case _ => false
  }

  lemma ReachableHasReason<T>(w: World<T>, limit: Option<nat>, sensitive: bool, s: State<T>)
    requires Fresh(w) && Reaches(Begin(w, limit, sensitive), s)
    requires s.pc.Over? || (Suspends(s.pc) && s.w.schedule == [])
    ensures HasReason(w, s)
  {
    ReachableInv(w, limit, sensitive, s);
    if s.pc == Over(SawFailed) {
      var i :| i in s.processed && Failed(s.w.tasks[i]);
      assert Places(s, i) == 1;
    }
  }

  /**
   The generator is never stuck between two suspensions. When it can go no further, it is over for a
   reason that is in the schedule, or is suspended with nothing left in the schedule.
   */
  lemma EndsForAReason<T>(w: World<T>, limit: Option<nat>, sensitive: bool, steps: seq<Step>)
    requires Fresh(w) && IsRun(Begin(w, limit, sensitive), steps)
    requires forall step :: !Enabled(After(Begin(w, limit, sensitive), steps), step)
    ensures HasReason(w, After(Begin(w, limit, sensitive), steps))
  {
    var s := After(Begin(w, limit, sensitive), steps);
    assert Reaches(Begin(w, limit, sensitive), s);
    ReachableInv(w, limit, sensitive, s);
    assert !Enabled(s, StartOne) && !Enabled(s, Block) && !Enabled(s, Event) && !Enabled(s, NextPass);
    if s.pc.Processing? {
      var i :| i in s.unprocessed;
      assert Enabled(s, Process(i));
    }
    ReachableHasReason(w, limit, sensitive, s);
  }

  // ---------- closing and cancelling ----------

  predicate SomeDone<T>(pending: set<nat>, tasks: seq<Future<T>>) {
    exists i :: 0 <= i < |tasks| && i in pending && tasks[i].Done?
  }

  /** Nothing ends the wait before event `j`: no cancellation, and no turn with a pending task done. */
  ghost predicate WaitsUntil<T>(s: State<T>, j: nat) {
    && j < |s.w.schedule|
    && forall k :: 0 <= k < j ==>
      !s.w.schedule[k].OuterCancel? && !(s.w.schedule[k].Turn? && SomeDone(s.pending, TasksAt(s.w, k)))
  }

  ghost predicate InterruptsAt<T>(s: State<T>, j: nat) {
    WaitsUntil(s, j) && s.w.schedule[j].OuterCancel?
  }

  ghost predicate WakesAt<T>(s: State<T>, j: nat) {
    WaitsUntil(s, j) && s.w.schedule[j].Turn? && SomeDone(s.pending, TasksAt(s.w, j))
  }

  ghost predicate Interrupts<T>(s: State<T>) {
    exists j :: InterruptsAt(s, j)
  }

  ghost predicate Wakes<T>(s: State<T>) {
    exists j :: WakesAt(s, j)
  }

  /** How a wait of the generator ends, by the schedule alone. */
  lemma WaitEndsIff<T>(s: State<T>)
    ensures var r := Wait(s.w, FirstCompleted(s.pending)).1;
      (r.Interrupted? <==> Interrupts(s)) && (r.Ready? <==> Wakes(s))
  {
    var when := FirstCompleted(s.pending);
    forall j: nat | InterruptsAt(s, j) || WakesAt(s, j)
      ensures StopsFirst(s.w, when, j)
    {
    }
    if j: nat :| InterruptsAt(s, j) {
      WaitStops(s.w, when, j);
    }
    if j: nat :| WakesAt(s, j) {
      WaitStops(s.w, when, j);
    }
    WaitsOn(s.w, when);
    if j: nat :| StopsFirst(s.w, when, j) {
      WaitStops(s.w, when, j);
      forall k | 0 <= k < j
        ensures !s.w.schedule[k].OuterCancel? && !(s.w.schedule[k].Turn? && SomeDone(s.pending, TasksAt(s.w, k)))
      {
        assert !StopsAt(s.w, when, k);
      }
      assert InterruptsAt(s, j) || WakesAt(s, j);
    }
  }

  /**
   A generator suspended at a yield whose consumer closes it, before it asks for more, ends closed with the
   close, in every run, and yields nothing more.
   */
  lemma {:induction false} CloseEnds<T>(s: State<T>, steps: seq<Step>, j: nat)
    requires IsRun(s, steps) && s.pc.Yielded? && ClosesAt(s.w, j)
    ensures |steps| <= j + 1 && After(s, steps).output == s.output
    ensures if |steps| == j + 1 then After(s, steps).pc == Over(Closed) else After(s, steps).pc.Yielded?
    decreases |steps|
  {
    if steps != [] {
      var t := Apply(s, steps[0]);
      assert steps[0] == Event;
      if j > 0 {
        assert t.w.schedule == s.w.schedule[1..];
        assert ClosesAt(t.w, j - 1);
        CloseEnds(t, steps[1..], j - 1);
      } else {
        OverIsOver(t, steps[1..]);
      }
    }
  }

  /**
   A generator in a wait that is cancelled before any turn at which a pending task is done ends interrupted
   with that cancellation, in every run.
   */
  lemma {:induction false} CancelEnds<T>(s: State<T>, steps: seq<Step>, j: nat)
    requires IsRun(s, steps) && s.pc.Waiting? && InterruptsAt(s, j)
    ensures |steps| <= j + 1 && After(s, steps).output == s.output && After(s, steps).pending == s.pending
    ensures if |steps| == j + 1 then After(s, steps).pc == Over(WasInterrupted) else After(s, steps).pc.Waiting?
    decreases |steps|
  {
    if steps != [] {
      var t := Apply(s, steps[0]);
      assert steps[0] == Event;
      if j > 0 {
        TasksAtStart(s.w);
        assert !s.w.schedule[0].OuterCancel? && !(s.w.schedule[0].Turn? && SomeDone(s.pending, TasksAt(s.w, 0)));
        assert t == s.(w := Happen(s.w, s.w.schedule[0]).(schedule := s.w.schedule[1..]));
        forall k: nat | k < j
          ensures TasksAt(t.w, k) == TasksAt(s.w, k + 1)
        {
          TasksAtNext(s.w, k);
        }
        assert InterruptsAt(t, j - 1);
        CancelEnds(t, steps[1..], j - 1);
      } else {
        OverIsOver(t, steps[1..]);
      }
    }
  }

  // ---------- the results ----------

  function Results<T>(tasks: seq<Future<T>>): seq<T>
    requires Gathering.AllSucceeded(tasks)
  {
    seq(|tasks|, i requires 0 <= i < |tasks| => tasks[i].outcome.value)
  }

  /** `order` and `output` without the entry at `k`. */
  function Without<X>(s: seq<X>, k: nat): seq<X>
    requires k < |s|
  {
    s[..k] + s[k + 1..]
  }

  lemma DropLast<T>(tasks: seq<Future<T>>, order: seq<nat>, output: seq<T>, k: nat)
    requires tasks != [] && Distinct(order) && |output| == |order| && k < |order| && order[k] == |tasks| - 1
    requires forall j :: 0 <= j < |order| ==> order[j] < |tasks| && tasks[order[j]] == Done(Success(output[j]))
    requires forall i :: 0 <= i < |tasks| ==> i in order
    ensures var shorter, order', output' := tasks[..|tasks| - 1], Without(order, k), Without(output, k);
      && Distinct(order') && |output'| == |order'| == |order| - 1
      && (forall j :: 0 <= j < |order'| ==> order'[j] < |shorter| && shorter[order'[j]] == Done(Success(output'[j])))
      && (forall i :: 0 <= i < |shorter| ==> i in order')
  {
    var order' := Without(order, k);
    assert forall j :: 0 <= j < |order'| ==> order'[j] == order[if j < k then j else j + 1];
    forall i | 0 <= i < |tasks| - 1
      ensures i in order'
    {
      assert i in order;
      var j :| 0 <= j < |order| && order[j] == i;
      assert order'[if j < k then j else j - 1] == i;
    }
  }

  lemma WithoutMultiset<X>(s: seq<X>, k: nat)
    requires k < |s|
    ensures multiset(s) == multiset(Without(s, k)) + multiset{s[k]}
  {
    assert s == s[..k] + [s[k]] + s[k + 1..];
  }

  lemma ResultsInit<T>(tasks: seq<Future<T>>)
    requires tasks != [] && Gathering.AllSucceeded(tasks)
    ensures var n := |tasks| - 1;
      Results(tasks) == Results(tasks[..n]) + [tasks[n].outcome.value]
  {
  }

  lemma {:induction false} PermutationOfResults<T>(tasks: seq<Future<T>>, order: seq<nat>, output: seq<T>)
    requires Gathering.AllSucceeded(tasks) && Distinct(order) && |output| == |order|
    requires forall k :: 0 <= k < |order| ==> order[k] < |tasks| && tasks[order[k]] == Done(Success(output[k]))
    requires forall i :: 0 <= i < |tasks| ==> i in order
    ensures |order| == |tasks| && multiset(output) == multiset(Results(tasks))
  {
    if order == [] {
      assert tasks == [] || 0 in order;
    } else {
      assert order[0] < |tasks|;
      var n := |tasks| - 1;
      assert n in order;
      var k :| 0 <= k < |order| && order[k] == n;
      DropLast(tasks, order, output, k);
      PermutationOfResults(tasks[..n], Without(order, k), Without(output, k));
      WithoutMultiset(output, k);
      ResultsInit(tasks);
    }
  }

  /**
   Exhausted, the generator has processed all awaitables, whatever the limit (but 0); if all succeeded,
   what it has yielded is a permutation of all results.
   */
  lemma ExhaustedYieldsAll<T>(w: World<T>, limit: Option<nat>, sensitive: bool, s: State<T>)
    requires Fresh(w) && Reaches(Begin(w, limit, sensitive), s)
    requires s.pc == Over(Exhausted) && limit != Some(0)
    ensures forall i :: 0 <= i < |s.w.tasks| ==> s.w.tasks[i].Done? && (s.w.tasks[i].outcome.Success? ==> i in s.order)
    ensures sensitive ==> forall i :: 0 <= i < |s.w.tasks| ==> !Failed(s.w.tasks[i])
    ensures Gathering.AllSucceeded(s.w.tasks) ==>
      |s.order| == |w.tasks| && multiset(s.output) == multiset(Results(s.w.tasks))
  {
    ReachableInv(w, limit, sensitive, s);
    forall i: nat | i < |s.w.tasks|
      ensures i in s.processed
    {
      assert Places(s, i) == 1;
    }
    if Gathering.AllSucceeded(s.w.tasks) {
      PermutationOfResults(s.w.tasks, s.order, s.output);
    }
  }

  // ---------- the generator ----------

  /** `a` is `a0` and the awaitables from `lo` up to `hi`. */
  ghost predicate Adds(a0: set<nat>, a: set<nat>, lo: nat, hi: nat) {
    forall i: nat :: i in a <==> i in a0 || lo <= i < hi
  }

  /** The inner loop that starts awaitables while the limit allows it. */
  method StartMore<T>(s0: State<T>) returns (s: State<T>)
    requires Inv(s0) && s0.pc.Starting?
    ensures Reaches(s0, s) && Inv(s) && !CanStart(s)
    ensures s == s0.(w := s0.w.(active := s.w.active), next := s.next, pending := s.pending)
    ensures s0.next <= s.next <= |s0.w.tasks|
    ensures Adds(s0.w.active, s.w.active, s0.next, s.next) && Adds(s0.pending, s.pending, s0.next, s.next)
    ensures |s.pending| - |s0.pending| == s.next - s0.next
    ensures s.next == |s0.w.tasks| || (s.limit.Some? && |s.pending| == s.limit.value)
  {
    s := s0;
    ReachesSelf(s0);
    while s.limit.None? || |s.pending| < s.limit.value
      invariant Reaches(s0, s) && Inv(s)
      invariant s == s0.(w := s0.w.(active := s.w.active), next := s.next, pending := s.pending)
      invariant s0.next <= s.next <= |s0.w.tasks|
      invariant Adds(s0.w.active, s.w.active, s0.next, s.next) && Adds(s0.pending, s.pending, s0.next, s.next)
      invariant |s.pending| - |s0.pending| == s.next - s0.next
      decreases |s0.w.tasks| - s.next
    {
      if s.next == |s.w.tasks| {
        break;
      }
      StartKeepsInv(s);
      ReachesStep(s0, s, StartOne);
      assert Places(s, s.next) == 1;
      s := s.(w := s.w.(active := s.w.active + {s.next}), pending := s.pending + {s.next}, next := s.next + 1);
    }
  }

  /** The generator has yielded; the consumer comes back, closes it, or neither before the schedule ends. */
  method YieldOnce<T>(s0: State<T>) returns (s: State<T>)
    requires Inv(s0) && s0.pc.Yielded?
    ensures Reaches(s0, s) && Inv(s)
    ensures s == s0.(w := s.w, pc := s.pc) && |s.w.tasks| == |s0.w.tasks|
    ensures s.pc.Processing? || s.pc == Over(Closed) || (s.pc.Yielded? && s.w.schedule == [])
    ensures s.pc == Over(Closed) <==> exists j :: ClosesAt(s0.w, j)
  {
    YieldCloses(s0.w);
    YieldIsLater(s0.w);
    var (v, r) := AtYield(s0.w);
    TimeKeepsInv(s0, v);
    ResumeKeepsInv(s0.(w := v), r);
    ReachesSelf(s0);
    ReachesYield(s0, s0);
    s := s0.(w := v);
    match r
    case Suspended =>
    case Interrupted => s := s.(pc := Over(Closed));
    case Ready => s := s.(pc := Processing);
  }

  /** Between two points of the loop over the done futures: they are processed, and results only added. */
  ghost predicate Progressed<T>(s: State<T>, t: State<T>) {
    && t.next == s.next && t.pending == s.pending && |t.w.tasks| == |s.w.tasks|
    && t.processed + t.unprocessed == s.processed + s.unprocessed && s.order <= t.order
  }

  /** One future that the wait reported done: its result is yielded, or its failure noticed. */
  method ProcessOne<T>(s0: State<T>, i: nat) returns (s: State<T>)
    requires Inv(s0) && Enabled(s0, Process(i))
    ensures Reaches(s0, s) && Inv(s) && Progressed(s0, s)
    ensures s.unprocessed == s0.unprocessed - {i}
    ensures s.pc.Processing? || s.pc in {Over(SawFailed), Over(Closed)} || (s.pc.Yielded? && s.w.schedule == [])
    ensures s.order == if s0.w.tasks[i].outcome.Success? then s0.order + [i] else s0.order
    ensures s.pc == Over(SawFailed) <==> s0.sensitive && !s0.w.tasks[i].outcome.Success?
  {
    InvStep(s0, Process(i));
    ReachesSelf(s0);
    ReachesStep(s0, s0, Process(i));
    s := s0.(unprocessed := s0.unprocessed - {i}, processed := s0.processed + {i});
    if !s.w.tasks[i].outcome.Success? {
      if s.sensitive {
        s := s.(pc := Over(SawFailed));
      }
    } else {
      s := s.(order := s.order + [i], output := s.output + [s.w.tasks[i].outcome.value], pc := Yielded);
      var yielded := s;
      s := YieldOnce(s);
      ReachesOn(s0, yielded, s);
    }
  }

  /**
   The loop over the futures that the wait reported done, in any order. It yields the results and
   stops at a failure if `sensitive`, or when the consumer closes the generator.
   */
  method ProcessDone<T>(s0: State<T>) returns (s: State<T>)
    requires Inv(s0) && s0.pc.Processing?
    ensures Reaches(s0, s) && Inv(s) && Progressed(s0, s)
    ensures
      || s.pc.Starting? || s.pc in {Over(SawFailed), Over(Closed)}
      || (s.pc.Yielded? && s.w.schedule == [])
    ensures s.pc.Starting? ==> s.unprocessed == {}
  {
    s := s0;
    ReachesSelf(s0);
    while s.unprocessed != {}
      invariant Reaches(s0, s) && Inv(s) && s.pc.Processing? && Progressed(s0, s)
      decreases |s.unprocessed|
    {
      var i :| i in s.unprocessed;
      var next := ProcessOne(s, i);
      ReachesOn(s0, s, next);
      s := next;
      if !s.pc.Processing? {
        return;
      }
    }
    InvStep(s, NextPass);
    ReachesStep(s0, s, NextPass);
    s := s.(pc := Starting);
  }

  lemma WaitLeads<T>(s: State<T>)
    requires Inv(s) && s.pc.Waiting?
    ensures var (v, r) := Wait(s.w, FirstCompleted(s.pending));
      var t := Resume(s.(w := v), r);
      && Reaches(s, t) && Inv(t) && |v.tasks| == |s.w.tasks| && (r.Suspended? ==> v.schedule == [])
      && (r.Ready? ==> t.pending < s.pending && |t.pending| < |s.pending|)
  {
    WaitIsLater(s.w, FirstCompleted(s.pending));
    var (v, r) := Wait(s.w, FirstCompleted(s.pending));
    TimeKeepsInv(s, v);
    ResumeKeepsInv(s.(w := v), r);
    ReachesSelf(s);
    ReachesWait(s, s);
    if r.Ready? {
      WakeUpSplits(s.(w := v));
      var i :| 0 <= i < |v.tasks| && i in s.pending && v.tasks[i].Done?;
      assert i in WakeUp(s.(w := v)).unprocessed;
    }
  }

  /** The wait of one pass; when it returns, some of the running tasks are done. */
  method WaitOnce<T>(s0: State<T>) returns (s: State<T>)
    requires Inv(s0) && s0.pc.Waiting?
    ensures Reaches(s0, s) && Inv(s) && s.next == s0.next && |s.w.tasks| == |s0.w.tasks|
    ensures s.pc.Processing? || s.pc == Over(WasInterrupted) || (s.pc.Waiting? && s.w.schedule == [])
    ensures s.pc.Processing? ==> s.pending < s0.pending && |s.pending| < |s0.pending|
    ensures s.pc == Over(WasInterrupted) <==> Interrupts(s0)
    ensures s.pc.Processing? <==> Wakes(s0)
    ensures s.pc.Processing? ==>
      && s.pending == s0.pending - s.unprocessed
      && forall i: nat :: i in s.unprocessed <==> i in s0.pending && i < |s.w.tasks| && s.w.tasks[i].Done?
  {
    WaitEndsIff(s0);
    WaitLeads(s0);
    var (v, r) := Wait(s0.w, FirstCompleted(s0.pending));
    s := s0.(w := v);
    match r
    case Suspended =>
    case Interrupted => s := s.(pc := Over(WasInterrupted));
    case Ready =>
      var done := set i | i in s.pending && i < |v.tasks| && v.tasks[i].Done?;
      s := s.(pending := s.pending - done, unprocessed := done, pc := Processing);
  }

  /** All of the outer loop. */
  method RunLoop<T>(s0: State<T>) returns (s: State<T>)
    requires Inv(s0) && s0.pc.Starting?
    ensures Reaches(s0, s)
    ensures s.pc.Over? || (Suspends(s.pc) && s.w.schedule == [])
  {
    s := s0;
    ReachesSelf(s0);
    while true
      invariant Reaches(s0, s) && Inv(s) && s.pc.Starting?
      decreases |s.w.tasks| - s.next + |s.pending|
    {
      var more := StartMore(s);
      ReachesOn(s0, s, more);
      s := more;
      InvStep(s, Block);
      ReachesStep(s0, s, Block);
      if s.pending == {} {
        s := s.(pc := Over(Exhausted));
        return;
      }
      s := s.(pc := Waiting, waits := s.waits + 1);

      var woken := WaitOnce(s);
      ReachesOn(s0, s, woken);
      s := woken;
      if !s.pc.Processing? {
        return;
      }
      var done := ProcessDone(s);
      ReachesOn(s0, s, done);
      s := done;
      if !s.pc.Starting? {
        return;
      }
    }
  }

  /** How the generator ends. */
  datatype Exit =
    | Stopped                          // without an exception
    | RaisedGroup(errors: seq<nat>)
    | RaisedCancelled
    | NotOver                          // the schedule ended first

  /** The new task `terminate(awaitable)` takes the place of an awaitable that was never started. */
  function Terminating<T>(tasks: seq<Future<T>>, from: nat): (r: seq<Future<T>>)
    requires from <= |tasks|
    ensures |r| == |tasks|
    ensures forall i :: 0 <= i < |tasks| ==> r[i] == if i < from then tasks[i] else Pending
  {
    tasks[..from] + seq(|tasks| - from, i => Pending)
  }

  /** The world that the `finally` block hands to `gather`. */
  function InFinally<T>(s: State<T>): World<T>
    requires s.next <= |s.w.tasks|
  {
    CancelAll(s.w, s.pending).(tasks := Terminating(s.w.tasks, s.next), active := Range(0, |s.w.tasks|))
  }

  /** What the `finally` block does to a world, and whether it ends within the schedule. */
  function CleanedUp<T>(s: State<T>): (World<T>, bool)
    requires s.next <= |s.w.tasks|
  {
    Gathering.Gathered(InFinally(s), false)
  }

  /**
   A condition on the schedule that is left when the loop is: all tasks, the terminating ones included,
   succeed before some turn, and no cancellation comes before it.
   */
  ghost predicate EndsQuietly<T>(s: State<T>)
    requires s.next <= |s.w.tasks|
  {
    s.w.tasks == [] || Gathering.Quiet(InFinally(s))
  }

  /** The exceptions of all tasks, else a cancellation of anybody in the `finally` block, else none. */
  ghost predicate EndsAs<T>(exit: Exit, tasks: seq<Future<T>>, cancelled: bool) {
    if Gathering.Errors(tasks) != [] then exit == RaisedGroup(Gathering.Errors(tasks))
    else if cancelled || Gathering.AnyCancelled(tasks) then exit == RaisedCancelled
    else exit == Stopped
  }

  /**
   What comes out of the `finally` block and the lines after it. The `return`s and a close of the
   generator end there; only its `break` goes on to the `raise`.
   */
  function Leaves<T>(gathered: Gathering.Result<T>, why: Why, cancelled: bool): Exit {
    match gathered
    case Unfinished => NotOver
    case Group(errors) => RaisedGroup(errors)
    case RaisedCancelled => RaisedCancelled
    case Values(_) => if why.Exhausted? && cancelled then RaisedCancelled else Stopped
  }

  lemma LeavesAs<T>(gathered: Gathering.Result<T>, why: Why, tasks: seq<Future<T>>, cancelled: bool)
    requires !gathered.Unfinished? ==> Gathering.Explains(gathered, tasks, cancelled)
    ensures var exit := Leaves(gathered, why, why.WasInterrupted?);
      exit.NotOver? == gathered.Unfinished? && (!exit.NotOver? ==> EndsAs(exit, tasks, cancelled))
  {
  }

  lemma StopsIff<T>(exit: Exit, tasks: seq<Future<T>>, cancelled: bool)
    requires AllDone(tasks) && EndsAs(exit, tasks, cancelled)
    ensures exit.Stopped? <==> Gathering.AllSucceeded(tasks) && !cancelled
  {
    Gathering.NoErrorsIff(tasks);
  }

  lemma EndsQuietlyIff<T>(s: State<T>, w: World<T>, exit: Exit)
    requires s.next <= |s.w.tasks| && (w, !exit.NotOver?) == CleanedUp(s)
    requires !exit.NotOver? ==> AllDone(w.tasks) && EndsAs(exit, w.tasks, w.delivered > s.w.delivered)
    ensures exit.Stopped? <==> EndsQuietly(s)
  {
    if s.w.tasks == [] {
      assert InFinally(s).tasks == [];
    } else {
      Gathering.DrainsQuietlyIff(InFinally(s));
    }
    if !exit.NotOver? {
      StopsIff(exit, w.tasks, w.delivered > s.w.delivered);
    }
  }

  /** The loop over the awaitables that were never started. */
  method TerminateRest<T>(w0: World<T>, from: nat) returns (w: World<T>)
    requires from <= |w0.tasks| && forall k: nat :: k in w0.active <==> k < from
    ensures w == w0.(tasks := Terminating(w0.tasks, from), active := Range(0, |w0.tasks|))
  {
    w := w0;
    for i := from to |w0.tasks|
      invariant w == w0.(tasks := w.tasks, active := w.active) && |w.tasks| == |w0.tasks|
      invariant forall k :: 0 <= k < |w.tasks| ==> w.tasks[k] == if from <= k < i then Pending else w0.tasks[k]
      invariant forall k: nat :: k in w.active <==> k < i
    {
      w := w.(tasks := w.tasks[i := Pending], active := w.active + {i});
    }
    assert w.tasks == Terminating(w0.tasks, from) && w.active == Range(0, |w0.tasks|);
  }

  /**
   The `finally` block, and what follows it. It cancels the running tasks, and replaces exactly the
   awaitables that were never started by tasks that terminate them; all of these are done in the end.
   */
  method CleanUp<T>(s: State<T>) returns (w: World<T>, exit: Exit)
    requires TaskInv(s) && Sound(s.w) && s.pc.Over?
    ensures (w, !exit.NotOver?) == CleanedUp(s)
    ensures |w.tasks| == |s.w.tasks| && Sound(w) && w.delivered >= s.w.delivered
    ensures if exit.NotOver? then w.schedule == [] else AllDone(w.tasks)
    ensures forall i :: 0 <= i < s.next && s.w.tasks[i].Done? ==> w.tasks[i] == s.w.tasks[i]
    ensures forall i :: 0 <= i < |w.tasks| ==>
      w.cancels[i] == s.w.cancels[i] + One(i in s.pending) + (w.delivered - s.w.delivered)
    ensures !exit.NotOver? ==> EndsAs(exit, w.tasks, w.delivered > s.w.delivered)
    ensures exit.Stopped? <==> EndsQuietly(s)
  {
    var v := CancelEach(s.w, s.pending);
    v := TerminateRest(v, s.next);
    assert v == InFinally(s);

    var cancelled := s.pc.why.WasInterrupted?;
    var gathered;
    w, gathered := Gathering.Gather(v, false);
    exit := Leaves(gathered, s.pc.why, cancelled);
    LeavesAs(gathered, s.pc.why, w.tasks, w.delivered > s.w.delivered);
    EndsQuietlyIff(s, w, exit);
  }

  /** `left` is the state in which the loop was left, `w` the world after the `finally` block. */
  datatype Ending<T> = Ending(left: State<T>, w: World<T>, exit: Exit)

  /** Cleaning up changes none of the results that were yielded. */
  lemma OutputStands<T>(s: State<T>, w: World<T>)
    requires Inv(s) && |w.tasks| == |s.w.tasks|
    requires forall i :: 0 <= i < s.next && s.w.tasks[i].Done? ==> w.tasks[i] == s.w.tasks[i]
    ensures forall k :: 0 <= k < |s.order| ==>
      s.order[k] < s.next && w.tasks[s.order[k]] == Done(Success(s.output[k]))
    ensures forall i :: i in s.processed ==> i < s.next && w.tasks[i] == s.w.tasks[i]
  {
    forall i | i in s.processed
      ensures i < s.next && w.tasks[i] == s.w.tasks[i]
    {
      assert Places(s, i) == One(i < |s.w.tasks|);
    }
    forall k | 0 <= k < |s.order|
      ensures s.order[k] < s.next && w.tasks[s.order[k]] == Done(Success(s.output[k]))
    {
      assert s.order[k] in s.processed;
    }
  }

  /** Futures that are done stay as they are. */
  lemma DoneStand<T>(before: seq<Future<T>>, after: seq<Future<T>>)
    requires |after| == |before| && Gathering.AllSucceeded(after)
    requires forall i :: 0 <= i < |before| ==> before[i].Done? && after[i] == before[i]
    ensures after == before && Gathering.AllSucceeded(before)
  {
  }

  /**
   `amass` against every schedule: its loop is a run of the machine above, so at every point the
   awaitables are split and the limit is kept. The output is the results of distinct tasks. However the
   generator ends, every started future is done, and exactly the awaitables that were never started are
   terminated, by tasks that are done as well. Exhausted, it has yielded a permutation of all results.
   It ends without an exception, even if it was cancelled in a wait, if and only if the rest of the
   schedule lets all tasks succeed before another cancellation.
   */
  method Amass<T>(w0: World<T>, limit: Option<nat>, sensitive: bool) returns (e: Ending<T>)
    requires Fresh(w0)
    ensures Reaches(Begin(w0, limit, sensitive), e.left) && HasReason(w0, e.left)
    ensures e.left.waits <= |w0.tasks|
    ensures |e.w.tasks| == |e.left.w.tasks| == |w0.tasks| && e.left.next <= |w0.tasks|
    ensures e.left.pc.Over? ==> (e.w, !e.exit.NotOver?) == CleanedUp(e.left)
    ensures !e.left.pc.Over? ==> e.exit.NotOver? && e.w == e.left.w
    ensures if e.exit.NotOver? then e.w.schedule == [] else AllDone(e.w.tasks)
    ensures Distinct(e.left.order) && |e.left.output| == |e.left.order|
    ensures forall k :: 0 <= k < |e.left.order| ==>
      e.left.order[k] < e.left.next && e.w.tasks[e.left.order[k]] == Done(Success(e.left.output[k]))
    ensures e.left.pc == Over(Exhausted) && limit != Some(0) && Gathering.AllSucceeded(e.w.tasks) ==>
      multiset(e.left.output) == multiset(Results(e.w.tasks))
    ensures !e.exit.NotOver? ==>
      EndsAs(e.exit, e.w.tasks, e.w.delivered > w0.delivered + One(e.left.pc == Over(WasInterrupted)))
    ensures e.left.pc.Over? ==> (e.exit.Stopped? <==> EndsQuietly(e.left))
    ensures !e.exit.NotOver? ==>
      (e.exit.Stopped? <==>
        Gathering.AllSucceeded(e.w.tasks) && e.w.delivered == w0.delivered + One(e.left.pc == Over(WasInterrupted)))
  {
    var b := Begin(w0, limit, sensitive);
    ReachesSelf(b);
    ReachableInv(w0, limit, sensitive, b);
    var left := RunLoop(b);
    ReachableInv(w0, limit, sensitive, left);
    ReachableHasReason(w0, limit, sensitive, left);
    WaitsBounded(left);
    if !left.pc.Over? {
      OutputStands(left, left.w);
      return Ending(left, left.w, NotOver);
    }
    var w, exit := CleanUp(left);
    OutputStands(left, w);
    if left.pc == Over(Exhausted) && limit != Some(0) {
      ExhaustedYieldsAll(w0, limit, sensitive, left);
      if Gathering.AllSucceeded(w.tasks) {
        DoneStand(left.w.tasks, w.tasks);
      }
    }
    if !exit.NotOver? {
      StopsIff(exit, w.tasks, w.delivered > left.w.delivered);
    }
    e := Ending(left, w, exit);
  }

  /** One task, and a consumer that is cancelled in the wait for it; the task then ignores its own cancellation. */
  function Unlucky<T>(v: T): World<T> {
    World([Pending], {}, [0], 0, [OuterCancel, Completes(0, Success(v)), Turn])
  }

  /** Where the generator is when it was cancelled. */
  function Struck<T>(v: T): State<T> {
    Begin(Unlucky(v).(active := {0}, delivered := 1, schedule := [Completes(0, Success(v)), Turn]), None, true)
      .(pc := Over(WasInterrupted), next := 1, pending := {0}, waits := 1)
  }

  lemma UnluckyIsStruck<T>(v: T)
    ensures var steps := [StartOne, Block, Event];
      IsRun(Begin(Unlucky(v), None, true), steps) && After(Begin(Unlucky(v), None, true), steps) == Struck(v)
  {
    var s0 := Begin(Unlucky(v), None, true);
    var s1 := Apply(s0, StartOne);
    var s2 := Apply(s1, Block);
    assert Apply(s2, Event) == Struck(v);
    RunThenStep(s0, [], StartOne);
    assert [] + [StartOne] == [StartOne];
    RunThenStep(s0, [StartOne], Block);
    assert [StartOne] + [Block] == [StartOne, Block];
    RunThenStep(s0, [StartOne, Block], Event);
    assert [StartOne, Block] + [Event] == [StartOne, Block, Event];
  }

  /** This happens: the generator is cancelled in its wait, and its `finally` block ends without an exception. */
  lemma CancellationGetsLost<T>(v: T)
    ensures Fresh(Unlucky(v)) && Reaches(Begin(Unlucky(v), None, true), Struck(v))
    ensures Struck(v).pc == Over(WasInterrupted)
    ensures EndsQuietly(Struck(v))
    ensures var (w, over) := CleanedUp(Struck(v));
      over && EndsAs(Stopped, w.tasks, w.delivered > Struck(v).w.delivered)
  {
    UnluckyIsStruck(v);
    var g := InFinally(Struck(v));
    assert g.tasks == [Pending];
    var g1 := g.(tasks := [Done(Success(v))], schedule := [Turn]);
    assert Happen(g, g.schedule[0]).(schedule := g.schedule[1..]) == g1;
    assert Wait(g, AllCompleted) == Wait(g1, AllCompleted);
    assert Wait(g1, AllCompleted) == (g1.(schedule := []), Ready);
    Gathering.QuietIff(g);
  }
}
