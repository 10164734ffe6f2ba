/**
 The ordered case of src/aiodrive/modules/map.py: a chain of jobs, each of which takes one item,
 starts its successor, reserves a place in the queue and fills it when its mapper returns.

 The mappers succeed and the task factory is not eager, so a new job starts in a later step.
 `results` lists what the mapper returns for each item of the iterable.
 */
module OrderedMap {
  import opened Wrappers
  import opened OrderedQueues
  import Runs = OrderedQueueRuns

  datatype Job =
    | NotStarted
    | Fetching                // inside `anext(iterator)`
    | Mapping(index: nat)     // awaiting the mapper, with a reservation
    | Ended

  /** The jobs by age, and the variable `job_count`. */
  datatype Crew = Crew(jobs: seq<Job>, jobCount: int)

  predicate StartsSuccessor(limit: Option<nat>, jobCount: int) {
    limit.None? || jobCount < limit.value
  }

  /** A job got an item: successor first, then the reservation. */
  function GotItem(c: Crew, j: nat, limit: Option<nat>, index: nat): Crew
    requires j < |c.jobs|
  {
    var jobs := c.jobs[j := Mapping(index)];
    if StartsSuccessor(limit, c.jobCount) then Crew(jobs + [NotStarted], c.jobCount + 1) else Crew(jobs, c.jobCount)
  }

  function EndJob(c: Crew, j: nat): Crew
    requires j < |c.jobs|
  {
    Crew(c.jobs[j := Ended], c.jobCount - 1)
  }

  /** The variables of the generator and the stretches of `job` between two awaits. */
  class Generator<S> {
    const limit: Option<nat>
    const queue: OrderedQueue<S>
    var jobs: seq<Job>
    var jobCount: int

    ghost function View(): Crew
      reads this
    {
      Crew(jobs, jobCount)
    }

    constructor (limit: Option<nat>)
      ensures this.limit == limit && fresh(queue) && queue.View() == New()
      ensures View() == Crew([NotStarted], 1)
    {
      this.limit := limit;
      queue := new OrderedQueue();
      jobs, jobCount := [NotStarted], 1;
    }

    method OnItem(j: nat) returns (index: nat)
      requires j < |jobs| && jobs[j].Fetching? && !queue.closed
      modifies this, queue
      ensures index == old(queue.reservedCount) && queue.View() == Reserve(old(queue.View()))
      ensures View() == GotItem(old(View()), j, limit, index)
    {
      var spawn := limit.None? || jobCount < limit.value;
      if spawn {
        jobs := jobs + [NotStarted];
        jobCount := jobCount + 1;
      }
      index := queue.ReserveNext();
      jobs := jobs[j := Mapping(index)];
      assert spawn ==> jobs == old(jobs)[j := Mapping(index)] + [NotStarted];
    }

    method OnExhausted(j: nat)
      requires j < |jobs| && jobs[j].Fetching? && !queue.closed
      modifies this, queue
      ensures queue.View() == Close(old(queue.View()))
      ensures View() == EndJob(old(View()), j)
    {
      queue.CloseQueue();
      jobs := jobs[j := Ended];
      jobCount := jobCount - 1;
    }

    method OnMapped(j: nat, value: S)
      requires j < |jobs| && jobs[j].Mapping?
      modifies this, queue
      ensures queue.View() == Put(old(queue.View()), old(jobs)[j].index, value)
      ensures View() == EndJob(old(View()), j)
    {
      queue.PutItem(jobs[j].index, value);
      jobs := jobs[j := Ended];
      jobCount := jobCount - 1;
    }
  }

  // ---------- runs ----------

  /** `position` is how many items the iterator has handed out. */
  datatype State<S> = State(
    results: seq<S>,
    limit: Option<nat>,
    q: Runs.State<S>,
    position: nat,
    crew: Crew)

  datatype Step = StartJob(j: nat) | Fetch(j: nat) | Exhaust(j: nat) | Mapped(j: nat) | Consume

  function Begin<S>(results: seq<S>, limit: Option<nat>): State<S> {
    State(results, limit, Runs.Begin(), 0, Crew([NotStarted], 1))
  }

  predicate Enabled<S>(s: State<S>, step: Step) {
    var jobs := s.crew.jobs;
    match step
    case StartJob(j) => j < |jobs| && jobs[j].NotStarted?
    case Fetch(j) => j < |jobs| && jobs[j].Fetching? && s.position < |s.results|
    case Exhaust(j) => j < |jobs| && jobs[j].Fetching? && s.position >= |s.results|
    case Mapped(j) => j < |jobs| && jobs[j].Mapping? && jobs[j].index < |s.results|
    case Consume => Runs.CanPoll(s.q)
  }

  /** The queue operation of a step, if any. */
  function QueueStep<S>(s: State<S>, step: Step): Option<Runs.Step<S>>
    requires Enabled(s, step)
  {
    match step
    case StartJob(j) => None
    case Fetch(j) => Some(Runs.DoReserve)
    case Exhaust(j) => Some(Runs.DoClose)
    case Mapped(j) => Some(Runs.DoPut(s.crew.jobs[j].index, s.results[s.crew.jobs[j].index]))
    case Consume => Some(Runs.Poll)
  }

  /** `reserve` and `close` assert that the queue is open, and a reservation is filled once. */
  predicate QueueAllows<S>(s: State<S>, step: Step)
    requires Enabled(s, step)
  {
    var op := QueueStep(s, step);
    op.Some? ==> Runs.Enabled(s.q, op.value)
  }

  function Apply<S>(s: State<S>, step: Step): State<S>
    requires Enabled(s, step) && QueueAllows(s, step)
  {
    var op := QueueStep(s, step);
    var t := s.(q := if op.Some? then Runs.Apply(s.q, op.value) else s.q);
    match step
    case StartJob(j) => t.(crew := s.crew.(jobs := s.crew.jobs[j := Fetching]))
    case Fetch(j) =>
      t.(crew := GotItem(s.crew, j, s.limit, s.q.queue.reservedCount), position := s.position + 1)
    case Exhaust(j) => t.(crew := EndJob(s.crew, j))
    case Mapped(j) => t.(crew := EndJob(s.crew, j))
    case Consume => t
  }

  ghost predicate Inv<S>(s: State<S>) {
    QueueInv(s) && ChainInv(s) && HoldsInv(s) && UniqueInv(s) && HeldInv(s) && CountInv(s)
  }

  /** Reservations follow the iterator, and what was put is the result for that item. */
  ghost predicate QueueInv<S>(s: State<S>) {
    && Runs.Inv(s.q)
    && s.q.queue.reservedCount == s.position <= |s.results|
    && (forall i :: i in s.q.given ==> s.q.given[i] == s.results[i])
    && (s.q.queue.closed ==> s.position == |s.results|)
  }

  predicate Fetcher(job: Job) {
    job.NotStarted? || job.Fetching?
  }

  /** At most one job is in `anext` or on its way there, and none once the queue is closed. */
  ghost predicate ChainInv<S>(s: State<S>) {
    var jobs := s.crew.jobs;
    && (forall i, j :: 0 <= i < |jobs| && 0 <= j < |jobs| && Fetcher(jobs[i]) && Fetcher(jobs[j]) ==> i == j)
    && (forall i :: 0 <= i < |jobs| && Fetcher(jobs[i]) ==> !s.q.queue.closed)
  }

  /** A job in a mapper holds an unfilled reservation. */
  ghost predicate HoldsInv<S>(s: State<S>) {
    var jobs := s.crew.jobs;
    forall i :: 0 <= i < |jobs| && jobs[i].Mapping? ==> jobs[i].index < s.position && jobs[i].index !in s.q.given
  }

  /** No two jobs hold the same reservation. */
  ghost predicate UniqueInv<S>(s: State<S>) {
    var jobs := s.crew.jobs;
    forall i, j :: 0 <= i < j < |jobs| && jobs[i].Mapping? && jobs[j].Mapping? ==> jobs[i].index != jobs[j].index
  }

  predicate Held(jobs: seq<Job>, k: nat) {
    Mapping(k) in jobs
  }

  /** Every unfilled reservation is held by some job. */
  ghost predicate HeldInv<S>(s: State<S>) {
    forall k: nat :: k < s.position && k !in s.q.given ==> Held(s.crew.jobs, k)
  }

  function Live(jobs: seq<Job>): nat {
    if jobs == [] then 0 else (if jobs[0].Ended? then 0 else 1) + Live(jobs[1..])
  }

  ghost predicate CountInv<S>(s: State<S>) {
    && s.crew.jobCount == Live(s.crew.jobs)
    && (s.limit.Some? && s.limit.value >= 1 ==> s.crew.jobCount <= s.limit.value)
  }

  lemma {:induction false} LiveUpdate(jobs: seq<Job>, j: nat, job: Job)
    requires j < |jobs|
    ensures Live(jobs[j := job]) == Live(jobs) - (if jobs[j].Ended? then 0 else 1) + (if job.Ended? then 0 else 1)
  {
    if j > 0 {
      LiveUpdate(jobs[1..], j - 1, job);
      assert jobs[j := job][1..] == jobs[1..][j - 1 := job];
    }
  }

  lemma {:induction false} LiveAppend(jobs: seq<Job>, job: Job)
    ensures Live(jobs + [job]) == Live(jobs) + if job.Ended? then 0 else 1
  {
    if jobs != [] {
      assert (jobs + [job])[1..] == jobs[1..] + [job];
      LiveAppend(jobs[1..], job);
    }
  }

  lemma StepAllowed<S>(s: State<S>, step: Step)
    requires Inv(s) && Enabled(s, step)
    ensures QueueAllows(s, step)
  {
  }

  lemma QueueInvStep<S>(s: State<S>, step: Step)
    requires Inv(s) && Enabled(s, step) && QueueAllows(s, step)
    ensures QueueInv(Apply(s, step))
  {
    var op := QueueStep(s, step);
    if op.Some? {
      Runs.InvStep(s.q, op.value);
    }
  }

  lemma ChainInvStep<S>(s: State<S>, step: Step)
    requires Inv(s) && Enabled(s, step) && QueueAllows(s, step)
    ensures ChainInv(Apply(s, step))
  {
  }

  lemma HoldsInvStep<S>(s: State<S>, step: Step)
    requires Inv(s) && Enabled(s, step) && QueueAllows(s, step)
    ensures HoldsInv(Apply(s, step))
  {
  }

  lemma UniqueInvStep<S>(s: State<S>, step: Step)
    requires HoldsInv(s) && UniqueInv(s) && QueueInv(s) && Enabled(s, step) && QueueAllows(s, step)
    ensures UniqueInv(Apply(s, step))
  {
  }

  lemma HeldInvStep<S>(s: State<S>, step: Step)
    requires HeldInv(s) && QueueInv(s) && Enabled(s, step) && QueueAllows(s, step)
    ensures HeldInv(Apply(s, step))
  {
    var t := Apply(s, step);
    forall k: nat | k < t.position && k !in t.q.given
      ensures Held(t.crew.jobs, k)
    {
      if k < s.position {
        assert Held(s.crew.jobs, k);
        var i :| 0 <= i < |s.crew.jobs| && s.crew.jobs[i] == Mapping(k);
        assert t.crew.jobs[i] == Mapping(k);
      } else {
        assert t.crew.jobs[step.j] == Mapping(k);
      }
    }
  }

  lemma CountInvStep<S>(s: State<S>, step: Step)
    requires Inv(s) && Enabled(s, step) && QueueAllows(s, step)
    ensures CountInv(Apply(s, step))
  {
    if !step.Consume? {
      var jobs, j := s.crew.jobs, step.j;
      LiveUpdate(jobs, j, Apply(s, step).crew.jobs[j]);
      LiveAppend(jobs[j := Apply(s, step).crew.jobs[j]], NotStarted);
    }
  }

  lemma InvStep<S>(s: State<S>, step: Step)
    requires Inv(s) && Enabled(s, step)
    ensures QueueAllows(s, step) && Inv(Apply(s, step))
  {
    StepAllowed(s, step);
    QueueInvStep(s, step);
    ChainInvStep(s, step);
    HoldsInvStep(s, step);
    UniqueInvStep(s, step);
    HeldInvStep(s, step);
    CountInvStep(s, step);
  }

  /** A run is legal only while `reserve`, `close` and `put` are; InvStep shows they always are. */
  predicate IsRun<S>(s: State<S>, steps: seq<Step>)
    decreases |steps|
  {
    steps == []
    || (Enabled(s, steps[0]) && QueueAllows(s, steps[0]) && IsRun(Apply(s, steps[0]), steps[1..]))
  }

  function After<S>(s: State<S>, steps: seq<Step>): State<S>
    requires IsRun(s, steps)
    decreases |steps|
  {
    if steps == [] then s else After(Apply(s, steps[0]), steps[1..])
  }

  lemma {:induction false} InvRun<S>(s: State<S>, steps: seq<Step>)
    requires Inv(s) && IsRun(s, steps)
    ensures Inv(After(s, steps))
    decreases |steps|
  {
    if steps != [] {
      InvStep(s, steps[0]);
      InvRun(Apply(s, steps[0]), steps[1..]);
    }
  }

  lemma BeginInv<S>(results: seq<S>, limit: Option<nat>)
    ensures Inv(Begin(results, limit))
  {
    assert Live([NotStarted]) == 1;
  }

  // ---------- safety, with or without a limit ----------

  /**
   In every interleaving: the output so far is a prefix of the mapped iterable and is all of it once
   the generator stops; at most one job is inside `anext`; `close` happens once and no reservation
   follows it; `job_count` is the number of live jobs and stays within the limit.
   */
  lemma OutputIsAPrefix<A, S>(input: seq<A>, f: A -> S, limit: Option<nat>, steps: seq<Step>, step: Step)
    requires limit.None? || limit.value >= 1
    requires IsRun(Begin(seq(|input|, i requires 0 <= i < |input| => f(input[i])), limit), steps)
    ensures var results := seq(|input|, i requires 0 <= i < |input| => f(input[i]));
      var s := After(Begin(results, limit), steps);
      && s.q.out <= results
      && (s.q.consumer.Stopped? ==> s.q.out == results)
      && (forall i, j | 0 <= i < j < |s.crew.jobs| :: !(s.crew.jobs[i].Fetching? && s.crew.jobs[j].Fetching?))
      && (Enabled(s, step) ==> QueueAllows(s, step))
      && (Enabled(s, step) && (step.Fetch? || step.Exhaust?) ==> !s.q.queue.closed)
      && s.crew.jobCount == Live(s.crew.jobs)
      && (limit.Some? ==> s.crew.jobCount <= limit.value)
  {
    var results := seq(|input|, i requires 0 <= i < |input| => f(input[i]));
    var start := Begin(results, limit);
    BeginInv(results, limit);
    InvRun(start, steps);
    ConstantsKept(start, steps);
    var s := After(start, steps);
    assert s.results == results && s.limit == limit;
    if Enabled(s, step) {
      InvStep(s, step);
    }
  }

  lemma {:induction false} ConstantsKept<S>(s: State<S>, steps: seq<Step>)
    requires IsRun(s, steps)
    ensures After(s, steps).results == s.results && After(s, steps).limit == s.limit
    decreases |steps|
  {
    if steps != [] {
      ConstantsKept(Apply(s, steps[0]), steps[1..]);
    }
  }

  // ---------- every run ends ----------

  function JobWeight(job: Job): nat {
    match job
    case NotStarted => 3
    case Fetching => 2
    case Mapping(_) => 2
    case Ended => 0
  }

  function Weight(jobs: seq<Job>): nat {
    if jobs == [] then 0 else JobWeight(jobs[0]) + Weight(jobs[1..])
  }

  lemma {:induction false} WeightUpdate(jobs: seq<Job>, j: nat, job: Job)
    requires j < |jobs|
    ensures Weight(jobs[j := job]) == Weight(jobs) - JobWeight(jobs[j]) + JobWeight(job)
  {
    if j > 0 {
      WeightUpdate(jobs[1..], j - 1, job);
      assert jobs[j := job][1..] == jobs[1..][j - 1 := job];
    }
  }

  lemma {:induction false} WeightAppend(jobs: seq<Job>, job: Job)
    ensures Weight(jobs + [job]) == Weight(jobs) + JobWeight(job)
  {
    if jobs != [] {
      assert (jobs + [job])[1..] == jobs[1..] + [job];
      WeightAppend(jobs[1..], job);
    }
  }

  /** How much can still happen. */
  function Potential<S>(s: State<S>): int {
    4 * (|s.results| - s.position) + Weight(s.crew.jobs)
      + (|s.results| - s.q.queue.currentIndex) + if Runs.CanPoll(s.q) then 1 else 0
  }

  lemma ConsumeDrops<S>(s: State<S>)
    requires Inv(s) && Enabled(s, Consume)
    ensures Potential(Apply(s, Consume)) < Potential(s)
  {
  }

  lemma JobDrops<S>(s: State<S>, step: Step)
    requires Inv(s) && Enabled(s, step) && QueueAllows(s, step) && !step.Consume?
    ensures Potential(Apply(s, step)) < Potential(s)
  {
    var jobs, j := s.crew.jobs, step.j;
    WeightUpdate(jobs, j, Apply(s, step).crew.jobs[j]);
    WeightAppend(jobs[j := Apply(s, step).crew.jobs[j]], NotStarted);
  }

  lemma PotentialDrops<S>(s: State<S>, step: Step)
    requires Inv(s) && Enabled(s, step) && QueueAllows(s, step)
    ensures 0 <= Potential(Apply(s, step)) < Potential(s)
  {
    if step.Consume? {
      ConsumeDrops(s);
    } else {
      JobDrops(s, step);
    }
    InvStep(s, step);
    PotentialIsNatural(Apply(s, step));
  }

  lemma PotentialIsNatural<S>(s: State<S>)
    requires QueueInv(s)
    ensures Potential(s) >= 0
  {
  }

  /** No interleaving goes on forever: the length of a run is bounded by the size of the input. */
  lemma {:induction false} RunsAreBounded<S>(s: State<S>, steps: seq<Step>)
    requires Inv(s) && IsRun(s, steps)
    ensures |steps| <= Potential(s)
    decreases |steps|
  {
    if steps == [] {
      assert Runs.ItemInv(s.q);
    } else {
      InvStep(s, steps[0]);
      PotentialDrops(s, steps[0]);
      RunsAreBounded(Apply(s, steps[0]), steps[1..]);
    }
  }

  ghost predicate Quiet<S>(s: State<S>) {
    forall step :: !Enabled(s, step)
  }

  /** Every run can be continued until nothing is left to do. */
  lemma {:induction false} RunToTheEnd<S>(s: State<S>) returns (steps: seq<Step>)
    requires Inv(s)
    ensures IsRun(s, steps) && Quiet(After(s, steps))
    decreases Potential(s)
  {
    if Quiet(s) {
      steps := [];
    } else {
      var step :| Enabled(s, step);
      InvStep(s, step);
      PotentialDrops(s, step);
      var rest := RunToTheEnd(Apply(s, step));
      RunCons(s, step, rest);
      steps := [step] + rest;
    }
  }

  // ---------- exactly when the map is complete ----------

  /** The generator yields everything and stops, in every run followed to its end. */
  ghost predicate Complete<S>(results: seq<S>, limit: Option<nat>) {
    forall steps :: IsRun(Begin(results, limit), steps) && Quiet(After(Begin(results, limit), steps)) ==>
      var s := After(Begin(results, limit), steps);
      s.q.consumer.Stopped? && s.q.out == results
  }

  /** The chain is unbroken: the queue is open only while some job will fetch the next item. */
  ghost predicate Chained<S>(s: State<S>) {
    && |s.crew.jobs| == s.position + 1
    && (!s.q.queue.closed ==> exists i :: 0 <= i < |s.crew.jobs| && Fetcher(s.crew.jobs[i]))
  }

  lemma {:induction false} LiveBound(jobs: seq<Job>)
    ensures Live(jobs) <= |jobs|
  {
    if jobs != [] {
      LiveBound(jobs[1..]);
    }
  }

  lemma ChainedStep<S>(s: State<S>, step: Step)
    requires Inv(s) && Chained(s) && Enabled(s, step) && QueueAllows(s, step)
    requires s.limit.None? || s.limit.value > |s.results|
    ensures Chained(Apply(s, step))
  {
    var t := Apply(s, step);
    LiveBound(s.crew.jobs);
    if step.Fetch? {
      assert Fetcher(t.crew.jobs[|s.crew.jobs|]);
    } else if !s.q.queue.closed && !step.Exhaust? {
      var i :| 0 <= i < |s.crew.jobs| && Fetcher(s.crew.jobs[i]);
      assert Fetcher(t.crew.jobs[i]);
    }
  }

  lemma {:induction false} ChainedRun<S>(s: State<S>, steps: seq<Step>)
    requires Inv(s) && Chained(s) && IsRun(s, steps)
    requires s.limit.None? || s.limit.value > |s.results|
    ensures Chained(After(s, steps))
    decreases |steps|
  {
    if steps != [] {
      InvStep(s, steps[0]);
      ChainedStep(s, steps[0]);
      ChainedRun(Apply(s, steps[0]), steps[1..]);
    }
  }

  lemma QuietChainIsDone<S>(s: State<S>)
    requires Inv(s) && Chained(s) && Quiet(s)
    ensures s.q.consumer.Stopped? && s.q.out == s.results
  {
    var jobs := s.crew.jobs;
    forall i | 0 <= i < |jobs|
      ensures jobs[i].Ended?
    {
      assert !Enabled(s, StartJob(i)) && !Enabled(s, Fetch(i)) && !Enabled(s, Exhaust(i)) && !Enabled(s, Mapped(i));
    }
    assert s.q.queue.closed;
    assert !Enabled(s, Consume);
    assert forall k: nat :: k < s.position && k !in s.q.given ==> Held(jobs, k);
  }

  /** Nobody will fetch the next item, and nobody will close the queue. */
  ghost predicate Broken<S>(s: State<S>) {
    !s.q.queue.closed && forall i :: 0 <= i < |s.crew.jobs| ==> !Fetcher(s.crew.jobs[i])
  }

  lemma BrokenStays<S>(s: State<S>, step: Step)
    requires Broken(s) && Enabled(s, step) && QueueAllows(s, step)
    ensures Broken(Apply(s, step))
  {
    assert !step.Consume? ==> !Fetcher(s.crew.jobs[step.j]);
  }

  lemma {:induction false} BrokenForever<S>(s: State<S>, steps: seq<Step>)
    requires Inv(s) && Broken(s) && IsRun(s, steps)
    ensures Broken(After(s, steps)) && !After(s, steps).q.consumer.Stopped?
    decreases |steps|
  {
    if steps != [] {
      InvStep(s, steps[0]);
      BrokenStays(s, steps[0]);
      BrokenForever(Apply(s, steps[0]), steps[1..]);
    }
  }

  /** The first `n` jobs are in their mappers, and the next one is about to start. */
  ghost predicate Waiting<S>(s: State<S>, n: nat) {
    && s.position == n && s.crew.jobCount == n + 1 && |s.crew.jobs| == n + 1
    && (forall i :: 0 <= i < n ==> s.crew.jobs[i].Mapping?)
    && s.crew.jobs[n].NotStarted?
  }

  lemma RunConcat<S>(s: State<S>, a: seq<Step>, b: seq<Step>)
    requires IsRun(s, a) && IsRun(After(s, a), b)
    ensures IsRun(s, a + b) && After(s, a + b) == After(After(s, a), b)
    decreases |a|
  {
    if a == [] {
      assert a + b == b;
    } else {
      assert (a + b)[1..] == a[1..] + b;
      RunConcat(Apply(s, a[0]), a[1..], b);
    }
  }

  /** A job starts and gets its item while all earlier mappers are still running. */
  lemma OneMore<S>(s: State<S>, n: nat) returns (steps: seq<Step>)
    requires Inv(s) && Waiting(s, n) && n < |s.results| && s.limit.Some?
    ensures IsRun(s, steps)
    ensures var t := After(s, steps);
      if n + 1 < s.limit.value then Waiting(t, n + 1) else Broken(t)
  {
    var t := Apply(s, StartJob(n));
    InvStep(s, StartJob(n));
    assert t.crew.jobs[n].Fetching? && Enabled(t, Fetch(n));
    assert Fetcher(t.crew.jobs[n]) && !t.q.queue.closed;
    var u := Apply(t, Fetch(n));
    assert u.crew.jobs[n] == Mapping(t.q.queue.reservedCount);
    RunCons(t, Fetch(n), []);
    RunCons(s, StartJob(n), [Fetch(n)]);
    steps := [StartJob(n)] + [Fetch(n)];
  }

  lemma RunCons<S>(s: State<S>, step: Step, rest: seq<Step>)
    requires Enabled(s, step) && QueueAllows(s, step) && IsRun(Apply(s, step), rest)
    ensures IsRun(s, [step] + rest) && After(s, [step] + rest) == After(Apply(s, step), rest)
  {
    assert ([step] + rest)[1..] == rest;
  }

  lemma {:induction false} SlowMappers<S>(s: State<S>, n: nat) returns (steps: seq<Step>)
    requires Inv(s) && Waiting(s, n) && s.limit.Some? && n < s.limit.value <= |s.results|
    ensures IsRun(s, steps) && Broken(After(s, steps))
    decreases s.limit.value - n
  {
    steps := OneMore(s, n);
    if n + 1 < s.limit.value {
      InvRun(s, steps);
      ConstantsKept(s, steps);
      var rest := SlowMappers(After(s, steps), n + 1);
      RunConcat(s, steps, rest);
      steps := steps + rest;
    }
  }

  /**
   The ordered map yields exactly the mapped iterable, in order, and then stops, in every run, if and
   only if there is no limit or the limit exceeds the number of items. Otherwise slow mappers fill
   the limit, the last job finds no room for a successor, and the generator waits forever.
   */
  lemma CompleteIffRoomForAll<S>(results: seq<S>, limit: Option<nat>)
    requires limit.None? || limit.value >= 1
    ensures Complete(results, limit) <==> limit.None? || limit.value > |results|
  {
    var start := Begin(results, limit);
    BeginInv(results, limit);
    if limit.None? || limit.value > |results| {
      assert Fetcher(start.crew.jobs[0]);
      forall steps | IsRun(start, steps) && Quiet(After(start, steps))
        ensures After(start, steps).q.consumer.Stopped? && After(start, steps).q.out == results
      {
        InvRun(start, steps);
        ConstantsKept(start, steps);
        ChainedRun(start, steps);
        QuietChainIsDone(After(start, steps));
      }
    } else {
      var steps := SlowMappers(start, 0);
      InvRun(start, steps);
      var rest := RunToTheEnd(After(start, steps));
      BrokenForever(After(start, steps), rest);
      RunConcat(start, steps, rest);
    }
  }
}
