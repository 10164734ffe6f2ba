/**
 ThreadsafeLock under every interleaving of any number of blocking threads and async tasks,
 on any number of loops, with waiters cancelled and loops closed at any time.

 A step is one critical section or one wait, except that a section is split where it touches
 `_sync_lock`, the one field that threads outside the section also touch. `stateLock` says who
 is inside a section between the two halves.
 */
module ThreadsafeLockRuns {
  import opened Wrappers
  import opened ThreadsafeLocks

  type Loop = nat

  /** Where one request stands. Each request is one call to acquire and its later release. */
  datatype Pc =
    | SyncNested              // in the section of acquire_sync, about to take the free inner lock
    | SyncBlocked             // counted, blocked on `_sync_lock`
    | SyncCounted             // took `_sync_lock`, still counted
    | AsyncNested             // in the section of acquire_async, about to take the free inner lock
    | AsyncWaiting(loop: Loop)
    | AsyncCancelled          // cancelled while its future was still in `_waiters`
    | HandedOff(loop: Loop)   // popped by a release, task not resumed yet
    | LateCancelled           // cancelled after it was popped
    | Holding
    | Unlocking               // in the section of a release, about to open `_sync_lock`
    | Released

  datatype State = State(
    shared: Shared,
    stateLock: Option<Request>,
    pcs: map<Request, Pc>,
    closed: set<Loop>)

  function Begin(): State {
    State(INITIAL, None, map[], {})
  }

  datatype Step =
    | BeginSync(r: Request)
    | BeginAsync(r: Request, loop: Loop)
    | FinishNested(r: Request)
    | TakeSyncLock(r: Request)
    | LeaveSync(r: Request)
    | CancelWaiting(r: Request)
    | CancelHandedOff(r: Request)
    | Resume(r: Request)
    | BeginRelease(r: Request)
    | FinishRelease(r: Request)
    | CloseLoop(loop: Loop)

  /** The queued futures that a release would skip. */
  function Dead(s: State): set<Request> {
    set r | r in s.pcs && (s.pcs[r].AsyncCancelled? || (s.pcs[r].AsyncWaiting? && s.pcs[r].loop in s.closed))
  }

  predicate At(s: State, r: Request) {
    r in s.pcs
  }

  predicate Enabled(s: State, step: Step) {
    match step
    case BeginSync(r) => r !in s.pcs && s.stateLock.None?
    case BeginAsync(r, l) => r !in s.pcs && s.stateLock.None? && l !in s.closed
    case FinishNested(r) => At(s, r) && (s.pcs[r].SyncNested? || s.pcs[r].AsyncNested?) && !s.shared.syncHeld
    case TakeSyncLock(r) => At(s, r) && s.pcs[r].SyncBlocked? && !s.shared.syncHeld
    case LeaveSync(r) => At(s, r) && s.pcs[r].SyncCounted? && s.stateLock.None?
    case CancelWaiting(r) => At(s, r) && s.pcs[r].AsyncWaiting? && s.pcs[r].loop !in s.closed
    case CancelHandedOff(r) => At(s, r) && s.pcs[r].HandedOff? && s.pcs[r].loop !in s.closed
    case Resume(r) => At(s, r) && s.pcs[r].HandedOff? && s.pcs[r].loop !in s.closed
    case BeginRelease(r) => At(s, r) && s.pcs[r].Holding? && s.stateLock.None?
    case FinishRelease(r) => At(s, r) && s.pcs[r].Unlocking?
    case CloseLoop(l) => true
  }

  function Apply(s: State, step: Step): State
    requires Enabled(s, step)
  {
    match step
    case BeginSync(r) =>
      if !s.shared.locked then s.(stateLock := Some(r), pcs := s.pcs[r := SyncNested])
      else s.(shared := CountThread(s.shared), pcs := s.pcs[r := SyncBlocked])
    case BeginAsync(r, l) =>
      if !s.shared.locked then s.(stateLock := Some(r), pcs := s.pcs[r := AsyncNested])
      else s.(shared := Enqueue(s.shared, r), pcs := s.pcs[r := AsyncWaiting(l)])
    case FinishNested(r) => s.(shared := TakeFree(s.shared), stateLock := None, pcs := s.pcs[r := Holding])
    case TakeSyncLock(r) => s.(shared := s.shared.(syncHeld := true), pcs := s.pcs[r := SyncCounted])
    case LeaveSync(r) => s.(shared := UncountThread(s.shared), pcs := s.pcs[r := Holding])
    case CancelWaiting(r) => s.(pcs := s.pcs[r := AsyncCancelled])
    case CancelHandedOff(r) => s.(pcs := s.pcs[r := LateCancelled])
    case Resume(r) => s.(pcs := s.pcs[r := Holding])
    case BeginRelease(r) =>
      var shared' := PopWaiters(s.shared, Dead(s));
      if HandsOff(s.shared, Dead(s)) then
        var heir := Heir(s.shared, Dead(s));
        var l := if heir in s.pcs && s.pcs[heir].AsyncWaiting? then s.pcs[heir].loop else 0;
        s.(shared := shared', pcs := s.pcs[r := Released][heir := HandedOff(l)])
      else
        s.(shared := shared', stateLock := Some(r), pcs := s.pcs[r := Unlocking])
    case FinishRelease(r) => s.(shared := Unlock(s.shared), stateLock := None, pcs := s.pcs[r := Released])
    case CloseLoop(l) => s.(closed := s.closed + {l})
  }

  predicate IsRun(s: State, steps: seq<Step>)
    decreases |steps|
  {
    steps == [] || (Enabled(s, steps[0]) && IsRun(Apply(s, steps[0]), steps[1..]))
  }

  function After(s: State, steps: seq<Step>): State
    requires IsRun(s, steps)
    decreases |steps|
  {
    if steps == [] then s else After(Apply(s, steps[0]), steps[1..])
  }

  // ---------- the invariant ----------

  /** The request carries the one ownership of `_sync_lock`, usable or not. */
  predicate HasToken(pc: Pc) {
    pc.Holding? || pc.SyncCounted? || pc.HandedOff? || pc.LateCancelled? || pc.Unlocking?
  }

  function Tokens(pcs: map<Request, Pc>): set<Request> {
    set r | r in pcs && HasToken(pcs[r])
  }

  predicate Counted(pc: Pc) {
    pc.SyncBlocked? || pc.SyncCounted?
  }

  /** The threads between the increment and the decrement of `_sync_waiter_count`. */
  function Blocked(pcs: map<Request, Pc>): set<Request> {
    set r | r in pcs && Counted(pcs[r])
  }

  predicate InSection(pc: Pc) {
    pc.SyncNested? || pc.AsyncNested? || pc.Unlocking?
  }

  ghost predicate TokenInv(s: State) {
    |Tokens(s.pcs)| == if s.shared.syncHeld then 1 else 0
  }

  ghost predicate CountInv(s: State) {
    s.shared.syncWaiterCount == |Blocked(s.pcs)|
  }

  /** Between sections the flag is coupled; inside a release it already shows what comes next. */
  ghost predicate FlagInv(s: State) {
    && (forall r :: r in s.pcs && InSection(s.pcs[r]) <==> s.stateLock == Some(r))
    && (s.stateLock.Some? && s.pcs[s.stateLock.value].Unlocking? ==>
      s.shared.waiters == [] && (s.shared.locked <==> s.shared.syncWaiterCount > 0))
    && (s.stateLock.Some? && !s.pcs[s.stateLock.value].Unlocking? ==> Coupled(s.shared) && !s.shared.locked)
    && (s.stateLock.None? ==> Coupled(s.shared))
  }

  ghost predicate QueueInv(s: State) {
    && Distinct(s.shared.waiters)
    && (forall r :: r in s.shared.waiters ==> r in s.pcs && (s.pcs[r].AsyncWaiting? || s.pcs[r].AsyncCancelled?))
    && (forall r :: r in s.pcs && s.pcs[r].AsyncWaiting? && s.pcs[r].loop !in s.closed ==> r in s.shared.waiters)
  }

  ghost predicate Inv(s: State) {
    TokenInv(s) && CountInv(s) && FlagInv(s) && QueueInv(s)
  }

  lemma CardMove<T>(a: set<T>, x: T, stays: bool)
    ensures |if stays then a + {x} else a - {x}| == |a| - One(x in a) + One(stays)
  {
    if x in a {
      assert a + {x} == a;
    } else {
      assert a - {x} == a;
    }
  }

  lemma BlockedMove(pcs: map<Request, Pc>, r: Request, pc: Pc)
    ensures |Blocked(pcs[r := pc])| == |Blocked(pcs)| - One(r in pcs && Counted(pcs[r])) + One(Counted(pc))
  {
    CardMove(Blocked(pcs), r, Counted(pc));
    assert Blocked(pcs[r := pc]) == if Counted(pc) then Blocked(pcs) + {r} else Blocked(pcs) - {r};
  }

  lemma TokensMove(pcs: map<Request, Pc>, r: Request, pc: Pc)
    ensures |Tokens(pcs[r := pc])| == |Tokens(pcs)| - One(r in pcs && HasToken(pcs[r])) + One(HasToken(pc))
  {
    CardMove(Tokens(pcs), r, HasToken(pc));
    assert Tokens(pcs[r := pc]) == if HasToken(pc) then Tokens(pcs) + {r} else Tokens(pcs) - {r};
  }

  /** One request moving changes the two counts by its own share only. */
  lemma CountsMove(pcs: map<Request, Pc>, r: Request, pc: Pc)
    ensures |Blocked(pcs[r := pc])| == |Blocked(pcs)| - One(r in pcs && Counted(pcs[r])) + One(Counted(pc))
    ensures |Tokens(pcs[r := pc])| == |Tokens(pcs)| - One(r in pcs && HasToken(pcs[r])) + One(HasToken(pc))
  {
    BlockedMove(pcs, r, pc);
    TokensMove(pcs, r, pc);
  }

  lemma MemberCounts(pcs: map<Request, Pc>, r: Request)
    requires r in pcs
    ensures Counted(pcs[r]) ==> |Blocked(pcs)| > 0
    ensures HasToken(pcs[r]) ==> |Tokens(pcs)| > 0
  {
    assert Counted(pcs[r]) ==> r in Blocked(pcs);
    assert HasToken(pcs[r]) ==> r in Tokens(pcs);
  }

  lemma AtMostOne<T>(s: set<T>, x: T, y: T)
    requires |s| <= 1 && x in s && y in s
    ensures x == y
  {
    assert |s - {x}| == 0;
    assert y !in s - {x};
  }

  /** The request to which a release hands the lock is a live waiter. */
  lemma HeirWaits(s: State)
    requires QueueInv(s) && HandsOff(s.shared, Dead(s))
    ensures var heir := Heir(s.shared, Dead(s));
      heir in s.shared.waiters && heir in s.pcs && s.pcs[heir].AsyncWaiting? && s.pcs[heir].loop !in s.closed
  {
    var n := DeadPrefix(s.shared.waiters, Dead(s));
    assert s.shared.waiters[n] in s.shared.waiters;
  }

  lemma MoveCounts(s: State, step: Step)
    requires Inv(s) && Enabled(s, step) && !step.BeginRelease? && !step.CloseLoop?
    ensures var t := Apply(s, step); TokenInv(t) && CountInv(t)
  {
    CountsMove(s.pcs, step.r, Apply(s, step).pcs[step.r]);
  }

  lemma MoveFlag(s: State, step: Step)
    requires Inv(s) && Enabled(s, step) && !step.BeginRelease? && !step.CloseLoop?
    ensures FlagInv(Apply(s, step))
  {
    var t := Apply(s, step);
    var r := step.r;
    assert forall o :: o != r ==> (o in t.pcs <==> o in s.pcs) && (o in s.pcs ==> t.pcs[o] == s.pcs[o]);
    if r in s.pcs {
      MemberCounts(s.pcs, r);
    }
  }

  lemma ReleaseCounts(s: State, r: Request)
    requires Inv(s) && Enabled(s, BeginRelease(r))
    ensures var t := Apply(s, BeginRelease(r)); TokenInv(t) && CountInv(t)
  {
    if HandsOff(s.shared, Dead(s)) {
      var heir := Heir(s.shared, Dead(s));
      HeirWaits(s);
      CountsMove(s.pcs, r, Released);
      CountsMove(s.pcs[r := Released], heir, HandedOff(s.pcs[heir].loop));
    } else {
      CountsMove(s.pcs, r, Unlocking);
    }
  }

  lemma ReleaseFlag(s: State, r: Request)
    requires Inv(s) && Enabled(s, BeginRelease(r))
    ensures FlagInv(Apply(s, BeginRelease(r)))
  {
    MemberCounts(s.pcs, r);
    if HandsOff(s.shared, Dead(s)) {
      HeirWaits(s);
    }
  }

  lemma MoveQueueStep(s: State, step: Step)
    requires Inv(s) && Enabled(s, step) && !step.BeginRelease? && !step.CloseLoop?
    ensures QueueInv(Apply(s, step))
  {
  }

  /** The pops of one release split the queue in the dead it drops, the heir and the rest. */
  lemma PopSplits(q: seq<Request>, dead: set<Request>)
    requires DeadPrefix(q, dead) < |q|
    ensures var n := DeadPrefix(q, dead); q == q[..n] + [q[n]] + q[n + 1..]
    ensures forall r :: r in q ==> r in dead || r == q[DeadPrefix(q, dead)] || r in q[DeadPrefix(q, dead) + 1..]
  {
    var n := DeadPrefix(q, dead);
    assert forall r :: r in q[..n] ==> r in dead;
  }

  lemma DistinctSuffix(q: seq<Request>, n: nat)
    requires Distinct(q) && n < |q|
    ensures Distinct(q[n + 1..]) && q[n] !in q[n + 1..]
    ensures forall o :: o in q[n + 1..] ==> o in q
  {
  }

  lemma ReleaseKeepsOrder(s: State, r: Request)
    requires QueueInv(s) && Enabled(s, BeginRelease(r))
    ensures Distinct(Apply(s, BeginRelease(r)).shared.waiters)
  {
    if HandsOff(s.shared, Dead(s)) {
      DistinctSuffix(s.shared.waiters, DeadPrefix(s.shared.waiters, Dead(s)));
    }
  }

  lemma ReleaseKeepsMembers(s: State, r: Request)
    requires QueueInv(s) && Enabled(s, BeginRelease(r))
    ensures var t := Apply(s, BeginRelease(r));
      forall o :: o in t.shared.waiters ==> o in t.pcs && (t.pcs[o].AsyncWaiting? || t.pcs[o].AsyncCancelled?)
  {
    if HandsOff(s.shared, Dead(s)) {
      DistinctSuffix(s.shared.waiters, DeadPrefix(s.shared.waiters, Dead(s)));
    }
  }

  lemma ReleaseLosesNobody(s: State, r: Request, o: Request)
    requires QueueInv(s) && Enabled(s, BeginRelease(r))
    requires var t := Apply(s, BeginRelease(r)); o in t.pcs && t.pcs[o].AsyncWaiting? && t.pcs[o].loop !in t.closed
    ensures o in Apply(s, BeginRelease(r)).shared.waiters
  {
    assert o in s.shared.waiters && o !in Dead(s);
    if HandsOff(s.shared, Dead(s)) {
      HeirWaits(s);
      PopSplits(s.shared.waiters, Dead(s));
    }
  }

  lemma ReleaseQueueStep(s: State, r: Request)
    requires QueueInv(s) && Enabled(s, BeginRelease(r))
    ensures QueueInv(Apply(s, BeginRelease(r)))
  {
    var t := Apply(s, BeginRelease(r));
    ReleaseKeepsOrder(s, r);
    ReleaseKeepsMembers(s, r);
    forall o | o in t.pcs && t.pcs[o].AsyncWaiting? && t.pcs[o].loop !in t.closed
      ensures o in t.shared.waiters
    {
      ReleaseLosesNobody(s, r, o);
    }
  }

  lemma InvStep(s: State, step: Step)
    requires Inv(s) && Enabled(s, step)
    ensures Inv(Apply(s, step))
  {
    match step
    case BeginRelease(r) =>
      ReleaseCounts(s, r);
      ReleaseFlag(s, r);
      ReleaseQueueStep(s, r);
    case CloseLoop(l) =>
    case _ =>
      MoveCounts(s, step);
      MoveFlag(s, step);
      MoveQueueStep(s, step);
  }

  lemma {:induction false} InvRun(s: State, steps: seq<Step>)
    requires Inv(s) && IsRun(s, steps)
    ensures Inv(After(s, steps))
    decreases |steps|
  {
    if steps != [] {
      InvStep(s, steps[0]);
      InvRun(Apply(s, steps[0]), steps[1..]);
    }
  }

  lemma StartInv()
    ensures Inv(Begin())
  {
  }

  // ---------- safety of every run ----------

  /** The request is between the return of an acquire and the end of its release. */
  predicate Inside(s: State, r: Request) {
    r in s.pcs && (s.pcs[r].Holding? || s.pcs[r].Unlocking?)
  }

  /**
   Mutual exclusion: whatever the schedule, the cancellations and the closed loops, there is
   exactly one ownership of the lock while `_sync_lock` is held and none while it is not.
   */
  lemma MutualExclusion(steps: seq<Step>)
    requires IsRun(Begin(), steps)
    ensures var s := After(Begin(), steps);
      && |Tokens(s.pcs)| == One(s.shared.syncHeld)
      && (forall r, t :: Inside(s, r) && Inside(s, t) ==> r == t)
      && (forall r :: Inside(s, r) ==> s.shared.syncHeld)
  {
    StartInv();
    InvRun(Begin(), steps);
    var s := After(Begin(), steps);
    forall r, t | Inside(s, r) && Inside(s, t)
      ensures r == t
    {
      AtMostOne(Tokens(s.pcs), r, t);
    }
    forall r | Inside(s, r)
      ensures s.shared.syncHeld
    {
      MemberCounts(s.pcs, r);
    }
  }

  /**
   The flag, the counter and the inner lock agree whenever no release is in the middle of its
   section, and a request that found the flag clear never blocks on `_sync_lock` while it
   holds `_state_lock`: the lock is free and nobody else can take it.
   */
  lemma FlagsAgree(steps: seq<Step>)
    requires IsRun(Begin(), steps)
    ensures var s := After(Begin(), steps);
      && s.shared.syncWaiterCount == |Blocked(s.pcs)|
      && ((forall r :: r in s.pcs ==> !s.pcs[r].Unlocking?) ==> Coupled(s.shared))
      && (!s.shared.locked ==> s.shared.waiters == [])
      && (forall r :: r in s.pcs && (s.pcs[r].SyncNested? || s.pcs[r].AsyncNested?) ==>
        && Enabled(s, FinishNested(r))
        && forall o :: !Enabled(s, TakeSyncLock(o)))
  {
    StartInv();
    InvRun(Begin(), steps);
    var s := After(Begin(), steps);
    forall r, o | r in s.pcs && (s.pcs[r].SyncNested? || s.pcs[r].AsyncNested?)
      ensures !Enabled(s, TakeSyncLock(o))
    {
      if o in s.pcs {
        MemberCounts(s.pcs, o);
      }
    }
  }

  // ---------- who can be stranded ----------

  /** The request is queued or blocked and could still be served. */
  predicate Waits(s: State, r: Request) {
    r in s.pcs && (s.pcs[r].SyncBlocked? || (s.pcs[r].AsyncWaiting? && s.pcs[r].loop !in s.closed))
  }

  ghost predicate SomeoneWaits(s: State) {
    exists r :: Waits(s, r)
  }

  /** Ownership that nobody will ever give back. */
  predicate Stuck(s: State, r: Request) {
    r in s.pcs && (s.pcs[r].LateCancelled? || (s.pcs[r].HandedOff? && s.pcs[r].loop in s.closed))
  }

  /** The lock will move on: a usable owner, or a blocked thread facing a free `_sync_lock`. */
  ghost predicate WillMove(s: State) {
    exists r :: r in s.pcs
      && ((HasToken(s.pcs[r]) && !Stuck(s, r)) || (s.pcs[r].SyncBlocked? && !s.shared.syncHeld))
  }

  lemma WillMoveIff(s: State)
    requires Inv(s) && SomeoneWaits(s)
    ensures WillMove(s) <==> !exists r :: Stuck(s, r)
  {
    var w :| Waits(s, w);
    MemberCounts(s.pcs, w);
    if r :| Stuck(s, r) {
      MemberCounts(s.pcs, r);
      forall o | o in s.pcs && HasToken(s.pcs[o])
        ensures o == r
      {
        assert o in Tokens(s.pcs) && r in Tokens(s.pcs);
        AtMostOne(Tokens(s.pcs), o, r);
      }
    } else if s.shared.syncHeld {
      var o :| o in Tokens(s.pcs);
    } else {
      assert Tokens(s.pcs) == {};
      var o :| o in Blocked(s.pcs);
      assert s.pcs[o].SyncCounted? ==> o in Tokens(s.pcs);
    }
  }

  // What the able owner and the able threads can do.

  /** Some run brings a request that waits now inside. */
  ghost predicate WaiterCanEnter(s: State) {
    exists steps, w :: IsRun(s, steps) && Waits(s, w) && Inside(After(s, steps), w)
  }

  /** A step after which a waiter of `s` can get inside. */
  lemma EnterAfter(s: State, step: Step)
    requires Enabled(s, step) && WaiterCanEnter(Apply(s, step))
    requires forall w :: Waits(Apply(s, step), w) ==> Waits(s, w)
    ensures WaiterCanEnter(s)
  {
    var t := Apply(s, step);
    var steps, w :| IsRun(t, steps) && Waits(t, w) && Inside(After(t, steps), w);
    RunOne(s, step, steps);
  }

  /** A blocked thread takes the open lock. */
  lemma ThreadCanEnter(s: State, t: Request)
    requires BlockedThread(s, t) && !s.shared.syncHeld && s.stateLock.None?
    ensures WaiterCanEnter(s)
  {
    var u := Apply(s, TakeSyncLock(t));
    RunOne(u, LeaveSync(t), []);
    RunOne(s, TakeSyncLock(t), [LeaveSync(t)]);
    assert Waits(s, t) && Inside(After(s, [TakeSyncLock(t)] + [LeaveSync(t)]), t);
  }

  /** With the lock open, it is a thread that waits. */
  lemma OpenLockCanBeTaken(s: State)
    requires Inv(s) && SomeoneWaits(s) && !s.shared.syncHeld && s.stateLock.None?
    ensures WaiterCanEnter(s)
  {
    WillMoveIff(s);
    assert forall r :: r in s.pcs && HasToken(s.pcs[r]) ==> r in Tokens(s.pcs);
    var t :| t in s.pcs && s.pcs[t].SyncBlocked?;
    ThreadCanEnter(s, t);
  }

  /** A release in the middle of its section opens the lock. */
  lemma UnlockingCanFinish(s: State, o: Request)
    requires Inv(s) && SomeoneWaits(s) && o in s.pcs && s.pcs[o].Unlocking?
    ensures WaiterCanEnter(s)
  {
    var step := FinishRelease(o);
    InvStep(s, step);
    var t := Apply(s, step);
    var w :| Waits(s, w);
    assert Waits(t, w);
    OpenLockCanBeTaken(t);
    EnterAfter(s, step);
  }

  /** A holder releases, to a live async waiter or to the threads. */
  lemma HolderCanRelease(s: State, o: Request)
    requires Inv(s) && SomeoneWaits(s) && o in s.pcs && s.pcs[o].Holding? && s.stateLock.None?
    ensures WaiterCanEnter(s)
  {
    var step := BeginRelease(o);
    InvStep(s, step);
    var t := Apply(s, step);
    if HandsOff(s.shared, Dead(s)) {
      HeirWaits(s);
      var h := Heir(s.shared, Dead(s));
      RunOne(t, Resume(h), []);
      RunOne(s, step, [Resume(h)]);
      assert Waits(s, h) && Inside(After(s, [step] + [Resume(h)]), h);
    } else {
      var w :| Waits(s, w);
      assert Waits(t, w);
      UnlockingCanFinish(t, o);
      EnterAfter(s, step);
    }
  }

  /** An owner on its way gets inside first. */
  lemma OwnerCanMove(s: State, o: Request)
    requires Inv(s) && SomeoneWaits(s) && o in s.pcs && HasToken(s.pcs[o]) && !Stuck(s, o)
    ensures WaiterCanEnter(s)
  {
    if s.pcs[o].Unlocking? {
      UnlockingCanFinish(s, o);
    } else {
      NoSection(s, o);
      if s.pcs[o].Holding? {
        HolderCanRelease(s, o);
      } else {
        var step := if s.pcs[o].SyncCounted? then LeaveSync(o) else Resume(o);
        InvStep(s, step);
        var t := Apply(s, step);
        var w :| Waits(s, w);
        assert Waits(t, w);
        HolderCanRelease(t, o);
        EnterAfter(s, step);
      }
    }
  }

  /** With the lock owned by somebody else, no section is under way. */
  lemma NoSection(s: State, o: Request)
    requires Inv(s) && o in s.pcs && HasToken(s.pcs[o]) && !s.pcs[o].Unlocking?
    ensures s.stateLock.None?
  {
    MemberCounts(s.pcs, o);
    if s.stateLock.Some? && s.pcs[s.stateLock.value].Unlocking? {
      assert s.stateLock.value in Tokens(s.pcs) && o in Tokens(s.pcs);
      AtMostOne(Tokens(s.pcs), o, s.stateLock.value);
    }
  }

  /**
   No waiter is stranded, exactly when no ownership was handed to a waiter that then went away: then the lock
   will move on, and some waiter can get inside; otherwise none ever can.
   */
  lemma StrandedIffTokenLost(steps: seq<Step>)
    requires IsRun(Begin(), steps) && SomeoneWaits(After(Begin(), steps))
    ensures var s := After(Begin(), steps);
      && (WillMove(s) <==> !exists r :: Stuck(s, r))
      && (WaiterCanEnter(s) <==> !exists r :: Stuck(s, r))
  {
    StartInv();
    InvRun(Begin(), steps);
    var s := After(Begin(), steps);
    WillMoveIff(s);
    if r :| Stuck(s, r) {
      forall later | IsRun(s, later)
        ensures forall w :: !Inside(After(s, later), w)
      {
        LostForever(s, later, r);
      }
    } else {
      var o :| o in s.pcs
        && ((HasToken(s.pcs[o]) && !Stuck(s, o)) || (s.pcs[o].SyncBlocked? && !s.shared.syncHeld));
      if HasToken(s.pcs[o]) && !Stuck(s, o) {
        OwnerCanMove(s, o);
      } else {
        NobodyInside(s, o);
        ThreadCanEnter(s, o);
      }
    }
  }

  /** With the lock open and a thread counted, no section is under way. */
  lemma NobodyInside(s: State, t: Request)
    requires Inv(s) && BlockedThread(s, t) && !s.shared.syncHeld
    ensures s.stateLock.None?
  {
    MemberCounts(s.pcs, t);
    forall r | r in s.pcs
      ensures !s.pcs[r].Unlocking?
    {
      MemberCounts(s.pcs, r);
    }
  }

  /** A waiter that is cancelled in the queue is never handed the lock. */
  lemma {:induction false} CancelledNeverEnters(s: State, steps: seq<Step>, r: Request)
    requires Inv(s) && IsRun(s, [CancelWaiting(r)] + steps)
    ensures r in After(s, [CancelWaiting(r)] + steps).pcs
    ensures After(s, [CancelWaiting(r)] + steps).pcs[r].AsyncCancelled?
  {
    assert ([CancelWaiting(r)] + steps)[1..] == steps;
    InvStep(s, CancelWaiting(r));
    StaysCancelled(Apply(s, CancelWaiting(r)), steps, r);
  }

  lemma {:induction false} StaysCancelled(s: State, steps: seq<Step>, r: Request)
    requires Inv(s) && IsRun(s, steps) && r in s.pcs && s.pcs[r].AsyncCancelled?
    ensures r in After(s, steps).pcs && After(s, steps).pcs[r].AsyncCancelled?
    decreases |steps|
  {
    if steps != [] {
      InvStep(s, steps[0]);
      if steps[0].BeginRelease? && HandsOff(s.shared, Dead(s)) {
        HeirWaits(s);
      }
      StaysCancelled(Apply(s, steps[0]), steps[1..], r);
    }
  }

  /** Once ownership is lost, no later step of anybody brings the lock back. */
  lemma {:induction false} LostForever(s: State, steps: seq<Step>, r: Request)
    requires Inv(s) && IsRun(s, steps) && Stuck(s, r)
    ensures var t := After(s, steps); Stuck(t, r) && forall o :: !Inside(t, o)
    decreases |steps|
  {
    if steps == [] {
      forall o | Inside(s, o)
        ensures false
      {
        assert o in Tokens(s.pcs) && r in Tokens(s.pcs);
        AtMostOne(Tokens(s.pcs), o, r);
      }
    } else {
      InvStep(s, steps[0]);
      if steps[0].BeginRelease? && HandsOff(s.shared, Dead(s)) {
        HeirWaits(s);
      }
      LostForever(Apply(s, steps[0]), steps[1..], r);
    }
  }

  /** Such a loss is reachable: a task cancelled between the hand-off and its next step. */
  lemma LateCancellationLosesTheLock()
    ensures var steps :=
        [BeginAsync(0, 7), FinishNested(0), BeginAsync(1, 7), BeginRelease(0), CancelHandedOff(1), BeginSync(2)];
      && IsRun(Begin(), steps)
      && Stuck(After(Begin(), steps), 1)
      && SomeoneWaits(After(Begin(), steps))
  {
    var s1 := Apply(Begin(), BeginAsync(0, 7));
    var s2 := Apply(s1, FinishNested(0));
    var s3 := Apply(s2, BeginAsync(1, 7));
    assert s3.shared.waiters == [1] && 1 !in Dead(s3);
    assert HandsOff(s3.shared, Dead(s3)) && Heir(s3.shared, Dead(s3)) == 1;
    var s4 := Apply(s3, BeginRelease(0));
    var s5 := Apply(s4, CancelHandedOff(1));
    var s6 := Apply(s5, BeginSync(2));
    assert Waits(s6, 2);
    RunOne(s5, BeginSync(2), []);
    RunOne(s4, CancelHandedOff(1), [BeginSync(2)]);
    RunOne(s3, BeginRelease(0), [CancelHandedOff(1), BeginSync(2)]);
    RunOne(s2, BeginAsync(1, 7), [BeginRelease(0), CancelHandedOff(1), BeginSync(2)]);
    RunOne(s1, FinishNested(0), [BeginAsync(1, 7), BeginRelease(0), CancelHandedOff(1), BeginSync(2)]);
    RunOne(Begin(), BeginAsync(0, 7),
      [FinishNested(0), BeginAsync(1, 7), BeginRelease(0), CancelHandedOff(1), BeginSync(2)]);
  }

  lemma RunOne(s: State, step: Step, rest: seq<Step>)
    requires Enabled(s, step) && IsRun(Apply(s, step), rest)
    ensures IsRun(s, [step] + rest)
    ensures After(s, [step] + rest) == After(Apply(s, step), rest)
    ensures Releases([step] + rest) == One(step.BeginRelease?) + Releases(rest)
  {
    assert ([step] + rest)[1..] == rest;
  }

  // ---------- bounded bypass and arrival order ----------

  function Releases(steps: seq<Step>): (n: nat)
    ensures n <= |steps|
  {
    if steps == [] then 0 else (if steps[0].BeginRelease? then 1 else 0) + Releases(steps[1..])
  }

  /** `r` is not cancelled and its loop is not closed during the run. */
  predicate StaysLive(s: State, steps: seq<Step>, r: Request) {
    && CancelWaiting(r) !in steps
    && (r in s.pcs && s.pcs[r].AsyncWaiting? ==> s.pcs[r].loop !in s.closed && CloseLoop(s.pcs[r].loop) !in steps)
  }

  predicate Queued(s: State, r: Request, k: nat) {
    k < |s.shared.waiters| && s.shared.waiters[k] == r && r in s.pcs && s.pcs[r].AsyncWaiting?
  }

  /** A live waiter is live for the first step and, if it still waits, for the rest. */
  lemma StaysLiveTail(s: State, steps: seq<Step>, r: Request)
    requires IsRun(s, steps) && steps != [] && StaysLive(s, steps, r) && r in s.pcs && s.pcs[r].AsyncWaiting?
    ensures StaysLive(s, [steps[0]], r) && StaysLive(Apply(s, steps[0]), steps[1..], r)
  {
    assert steps == [steps[0]] + steps[1..];
  }

  /** A release moves every live waiter behind the heir forward. */
  lemma PositionAtRelease(s: State, o: Request, r: Request, k: nat)
    requires QueueInv(s) && Enabled(s, BeginRelease(o)) && Queued(s, r, k) && r !in Dead(s)
    ensures var t := Apply(s, BeginRelease(o));
      var n := DeadPrefix(s.shared.waiters, Dead(s));
      n <= k && if n == k then t.pcs[r].HandedOff? else Queued(t, r, k - n - 1)
  {
    HeirWaits(s);
  }

  /** No other step moves one back. */
  lemma PositionStep(s: State, step: Step, r: Request, k: nat)
    requires Inv(s) && Enabled(s, step) && Queued(s, r, k)
    requires StaysLive(s, [step], r)
    ensures var t := Apply(s, step);
      || (step.BeginRelease? && t.pcs[r].HandedOff?)
      || exists j :: 0 <= j && Queued(t, r, j) && j + One(step.BeginRelease?) <= k
  {
    if step.BeginRelease? {
      PositionAtRelease(s, step.r, r, k);
    } else {
      assert step in [step];
      assert Queued(Apply(s, step), r, k);
    }
  }

  /**
   Bounded bypass: a live waiter at index `k` of `_waiters` is handed the lock no later than the
   (k+1)-th release that follows, whatever else is requested in the meantime.
   */
  lemma {:induction false} BoundedBypass(s: State, steps: seq<Step>, r: Request, k: nat)
    requires Inv(s) && IsRun(s, steps) && Queued(s, r, k) && StaysLive(s, steps, r)
    ensures var t := After(s, steps);
      Served(t, r) || exists j :: 0 <= j && Queued(t, r, j) && j + Releases(steps) <= k
    ensures Releases(steps) > k ==> Served(After(s, steps), r)
    decreases |steps|
  {
    if steps == [] {
    } else {
      var t := Apply(s, steps[0]);
      InvStep(s, steps[0]);
      StaysLiveTail(s, steps, r);
      PositionStep(s, steps[0], r, k);
      if t.pcs[r].AsyncWaiting? {
        var j :| 0 <= j && Queued(t, r, j) && j + One(steps[0].BeginRelease?) <= k;
        BoundedBypass(t, steps[1..], r, j);
      } else {
        ServedStays(t, steps[1..], r);
      }
    }
  }

  /** The request got past its wait with the lock in hand. */
  predicate Served(s: State, r: Request) {
    && r in s.pcs
    && var pc := s.pcs[r];
       pc.HandedOff? || pc.LateCancelled? || pc.Holding? || pc.Unlocking? || pc.Released?
  }

  lemma ServedStep(s: State, step: Step, r: Request)
    requires QueueInv(s) && Enabled(s, step) && Served(s, r)
    ensures Served(Apply(s, step), r)
  {
    match step
    case BeginRelease(o) =>
      if HandsOff(s.shared, Dead(s)) {
        HeirWaits(s);
      }
    case CloseLoop(l) =>
    case _ => assert step.r == r || Apply(s, step).pcs[r] == s.pcs[r];
  }

  lemma {:induction false} ServedStays(s: State, steps: seq<Step>, r: Request)
    requires Inv(s) && IsRun(s, steps) && Served(s, r)
    ensures Served(After(s, steps), r)
    decreases |steps|
  {
    if steps != [] {
      InvStep(s, steps[0]);
      ServedStep(s, steps[0], r);
      ServedStays(Apply(s, steps[0]), steps[1..], r);
    }
  }

  /** Live waiters are served in the order in which they arrived. */
  lemma {:induction false} ServedInOrder(s: State, steps: seq<Step>, first: Request, second: Request, i: nat, j: nat)
    requires Inv(s) && IsRun(s, steps) && Queued(s, first, i) && Queued(s, second, j) && i < j
    requires StaysLive(s, steps, first) && StaysLive(s, steps, second)
    ensures Served(After(s, steps), second) ==> Served(After(s, steps), first)
    decreases |steps|
  {
    if steps != [] {
      var t := Apply(s, steps[0]);
      InvStep(s, steps[0]);
      StaysLiveTail(s, steps, first);
      StaysLiveTail(s, steps, second);
      var served, i', j' := OrderStep(s, steps[0], first, second, i, j);
      if served {
        ServedStays(t, steps[1..], first);
      } else {
        ServedInOrder(t, steps[1..], first, second, i', j');
      }
    }
  }

  /** One step either serves the first of two live waiters or leaves both queued in their order. */
  lemma OrderStep(s: State, step: Step, first: Request, second: Request, i: nat, j: nat)
    returns (served: bool, i': nat, j': nat)
    requires Inv(s) && Enabled(s, step) && Queued(s, first, i) && Queued(s, second, j) && i < j
    requires StaysLive(s, [step], first) && StaysLive(s, [step], second)
    ensures var t := Apply(s, step);
      if served then Served(t, first) else Queued(t, first, i') && Queued(t, second, j') && i' < j'
  {
    if step.BeginRelease? {
      served, i', j' := OrderAtRelease(s, step.r, first, second, i, j);
    } else {
      assert step in [step];
      served, i', j' := false, i, j;
    }
  }

  lemma OrderAtRelease(s: State, r: Request, first: Request, second: Request, i: nat, j: nat)
    returns (served: bool, i': nat, j': nat)
    requires QueueInv(s) && Enabled(s, BeginRelease(r)) && Queued(s, first, i) && Queued(s, second, j) && i < j
    requires first !in Dead(s)
    ensures var t := Apply(s, BeginRelease(r));
      if served then Served(t, first) else Queued(t, first, i') && Queued(t, second, j') && i' < j'
  {
    var n := DeadPrefix(s.shared.waiters, Dead(s));
    assert n <= i;
    HeirWaits(s);
    served := n == i;
    if served {
      i', j' := i, j;
    } else {
      i', j' := i - n - 1, j - n - 1;
    }
  }

  // ---------- blocked threads ----------

  predicate BlockedThread(s: State, t: Request) {
    t in s.pcs && s.pcs[t].SyncBlocked?
  }

  /** Every release in this run finds a live async waiter. */
  predicate HandsOver(s: State, steps: seq<Step>)
    requires IsRun(s, steps)
    decreases |steps|
  {
    || steps == []
    || ((steps[0].BeginRelease? ==> HandsOff(s.shared, Dead(s))) && HandsOver(Apply(s, steps[0]), steps[1..]))
  }

  /** The lock is held, and no release is about to open it. */
  ghost predicate StaysShut(s: State) {
    s.shared.syncHeld && forall r :: r in s.pcs ==> !s.pcs[r].Unlocking?
  }

  lemma ShutStep(s: State, step: Step, t: Request)
    requires QueueInv(s) && Enabled(s, step) && StaysShut(s) && BlockedThread(s, t)
    requires step.BeginRelease? ==> HandsOff(s.shared, Dead(s))
    ensures StaysShut(Apply(s, step)) && BlockedThread(Apply(s, step), t)
  {
    match step
    case BeginRelease(r) => HeirWaits(s);
    case CloseLoop(l) =>
    case _ => assert step.r != t;
  }

  /**
   A blocked thread gets the lock only after a release that finds no live async waiter: as long as every
   release hands over, it stays blocked.
   */
  lemma {:induction false} ThreadsNeedAnEmptyQueue(s: State, steps: seq<Step>, t: Request)
    requires Inv(s) && IsRun(s, steps) && StaysShut(s) && BlockedThread(s, t) && HandsOver(s, steps)
    ensures BlockedThread(After(s, steps), t)
    decreases |steps|
  {
    if steps != [] {
      InvStep(s, steps[0]);
      ShutStep(s, steps[0], t);
      ThreadsNeedAnEmptyQueue(Apply(s, steps[0]), steps[1..], t);
    }
  }

  /** `h` has the lock, `w` is the only async waiter and the newest request, and thread 1 is blocked. */
  ghost predicate Busy(s: State, h: Request, w: Request) {
    && s.shared == Shared(true, true, 1, [w]) && s.stateLock.None? && s.closed == {}
    && h in s.pcs && s.pcs[h].Holding? && w in s.pcs && s.pcs[w] == AsyncWaiting(0)
    && BlockedThread(s, 1)
    && forall r :: r in s.pcs ==> r <= w
  }

  /** The waiter gets the lock, and the next one is there before it releases. */
  lemma BusyRound(s: State, h: Request, w: Request)
    requires Busy(s, h, w)
    ensures Enabled(s, BeginRelease(h))
    ensures var s1 := Apply(s, BeginRelease(h));
      && Enabled(s1, Resume(w))
      && var s2 := Apply(s1, Resume(w));
        Enabled(s2, BeginAsync(w + 1, 0)) && Busy(Apply(s2, BeginAsync(w + 1, 0)), w, w + 1)
  {
    assert w !in Dead(s);
    assert DeadPrefix([w], Dead(s)) == 0;
    assert HandsOff(s.shared, Dead(s)) && Heir(s.shared, Dead(s)) == w;
    var s1 := Apply(s, BeginRelease(h));
    assert s1.shared.waiters == [];
  }

  lemma {:induction false} BusyForever(s: State, h: Request, w: Request, n: nat) returns (steps: seq<Step>)
    requires Busy(s, h, w)
    ensures IsRun(s, steps) && Releases(steps) == n && BlockedThread(After(s, steps), 1)
    decreases n
  {
    if n == 0 {
      return [];
    }
    BusyRound(s, h, w);
    var s1 := Apply(s, BeginRelease(h));
    var s2 := Apply(s1, Resume(w));
    var rest := BusyForever(Apply(s2, BeginAsync(w + 1, 0)), w, w + 1, n - 1);
    RunOne(s2, BeginAsync(w + 1, 0), rest);
    RunOne(s1, Resume(w), [BeginAsync(w + 1, 0)] + rest);
    RunOne(s, BeginRelease(h), [Resume(w)] + ([BeginAsync(w + 1, 0)] + rest));
    steps := [BeginRelease(h)] + ([Resume(w)] + ([BeginAsync(w + 1, 0)] + rest));
  }

  /** Blocked threads have no bound: for any `n`, some run has `n` releases that all pass one of them by. */
  lemma BypassWithoutBound(n: nat) returns (steps: seq<Step>)
    ensures IsRun(Begin(), steps) && Releases(steps) == n && BlockedThread(After(Begin(), steps), 1)
  {
    var s1 := Apply(Begin(), BeginAsync(0, 0));
    var s2 := Apply(s1, FinishNested(0));
    var s3 := Apply(s2, BeginSync(1));
    var s4 := Apply(s3, BeginAsync(2, 0));
    assert s4.shared.waiters == [2];
    var rest := BusyForever(s4, 0, 2, n);
    RunOne(s3, BeginAsync(2, 0), rest);
    RunOne(s2, BeginSync(1), [BeginAsync(2, 0)] + rest);
    RunOne(s1, FinishNested(0), [BeginSync(1)] + ([BeginAsync(2, 0)] + rest));
    steps := [BeginAsync(0, 0)] + ([FinishNested(0)] + ([BeginSync(1)] + ([BeginAsync(2, 0)] + rest)));
    RunOne(Begin(), BeginAsync(0, 0), [FinishNested(0)] + ([BeginSync(1)] + ([BeginAsync(2, 0)] + rest)));
  }
}
