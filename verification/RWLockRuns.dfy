/**
 ThreadsafeRWLock in every run: any number of readers and writers on any number of event loops,
 cancelled while queued, after they were granted the lock, or while they use it, and with loops that
 close, so that a release raises when it has to tell one of them.
 */
module RWLockRuns {
  import opened RWLocks

  datatype Pc =
    | Queued
    | Woken       // granted by a release, not resumed yet
    | Active
    | Abandoned   // cancelled while queued; its entry stays in the queue
    | Finished

  type Loop = nat

  datatype User = User(kind: Kind, loop: Loop, pc: Pc)

  datatype State = State(fields: Fields, users: map<Id, User>, closed: set<Loop>)

  function Begin(): State {
    State(FREE, map[], {})
  }

  datatype Step =
    | Enter(kind: Kind, loop: Loop)
    | Resume(id: Id)
    | Finish(id: Id)
    | CancelQueued(id: Id)
    | CancelWoken(id: Id)
    | CloseLoop(loop: Loop)

  predicate Is(s: State, id: Id, pc: Pc) {
    id in s.users && s.users[id].pc == pc
  }

  /** The request is where `pc` says, and its loop can still run it. */
  predicate Runs(s: State, id: Id, pc: Pc) {
    Is(s, id, pc) && s.users[id].loop !in s.closed
  }

  predicate Enabled(s: State, step: Step) {
    match step
    case Enter(_, l) => l !in s.closed
    case Resume(id) => Runs(s, id, Woken)
    case Finish(id) => Runs(s, id, Active)
    case CancelQueued(id) => Runs(s, id, Queued)
    case CancelWoken(id) => Runs(s, id, Woken)
    case CloseLoop(_) => true
  }

  /** The requests whose loop takes no callback any more. */
  function Dead(s: State): set<Id> {
    set id | id in s.users && s.users[id].loop in s.closed
  }

  /** The release that is this step meets a closed loop. */
  predicate Troubles(s: State, step: Step) {
    (step.Finish? || step.CancelWoken? || step.CancelQueued?) && Raises(s.fields, step.id, Dead(s))
  }

  /** Completing the futures of the granted requests wakes those that still wait for them. */
  function Wake(users: map<Id, User>, granted: set<Id>): map<Id, User> {
    map id | id in users ::
      if id in granted && users[id].pc == Queued then users[id].(pc := Woken) else users[id]
  }

  function Leave(s: State, id: Id, pc: Pc): State
    requires id in s.users
  {
    s.(
      fields := Release(s.fields, id, Dead(s)),
      users := Wake(s.users[id := s.users[id].(pc := pc)], Granted(s.fields, id, Dead(s))))
  }

  function Apply(s: State, step: Step): State
    requires Enabled(s, step)
  {
    match step
    case Enter(k, l) =>
      var pc := if GrantsAtOnce(s.fields, k) then Active else Queued;
      s.(fields := Request(s.fields, k), users := s.users[s.fields.nextId := User(k, l, pc)])
    case Resume(id) => s.(users := s.users[id := s.users[id].(pc := Active)])
    case Finish(id) => Leave(s, id, Finished)
    case CancelQueued(id) => Leave(s, id, Abandoned)
    case CancelWoken(id) => Leave(s, id, Finished)
    case CloseLoop(l) => s.(closed := s.closed + {l})
  }

  predicate IsRun(s: State, steps: seq<Step>)
    decreases |steps|
  {
    steps == [] || (Enabled(s, steps[0]) && IsRun(Apply(s, steps[0]), steps[1..]))
  }

  function After(s: State, steps: seq<Step>): State
    requires IsRun(s, steps)
    decreases |steps|
  {
    if steps == [] then s else After(Apply(s, steps[0]), steps[1..])
  }

  /** A run in which no release meets a closed loop. */
  predicate Smooth(s: State, steps: seq<Step>): (r: bool)
    ensures r ==> IsRun(s, steps)
    decreases |steps|
  {
    || steps == []
    || (Enabled(s, steps[0]) && !Troubles(s, steps[0]) && Smooth(Apply(s, steps[0]), steps[1..]))
  }

  // ---------- the invariant of every run ----------

  ghost predicate Consists(q: seq<Id>, s: State, k: Kind) {
    forall id :: id in q ==> id in s.users && s.users[id].kind == k
  }

  ghost predicate UserInv(s: State) {
    && (forall id :: id in s.users ==> id < s.fields.nextId)
    && (forall id :: id in s.users && s.users[id].pc in {Woken, Active} ==> id in s.fields.owners)
    && (forall id :: id in s.fields.owners ==> id in s.users && ModeOf(s.users[id].kind) == s.fields.mode)
  }

  /** What survives a hand-over that raised: users are owners, and owners fit the mode. */
  ghost predicate SafeInv(s: State) {
    && UserInv(s)
    && (s.fields.mode.Exclusive? ==> |s.fields.owners| <= 1)
    && (s.fields.mode.Unlocked? ==> s.fields.queueRead == [] && s.fields.queueWrite == [])
    && Consists(s.fields.queueRead, s, Read) && Consists(s.fields.queueWrite, s, Write)
  }

  lemma EnterIsSafe(s: State, k: Kind, l: Loop)
    requires SafeInv(s) && l !in s.closed
    ensures SafeInv(Apply(s, Enter(k, l)))
  {
  }

  predicate MayLeave(s: State, id: Id, pc: Pc) {
    id in s.users && pc in {Finished, Abandoned}
  }

  lemma OthersStaySafe(s: State, id: Id, pc: Pc)
    requires SafeInv(s) && MayLeave(s, id, pc) && s.fields.owners - {id} != {}
    ensures SafeInv(Leave(s, id, pc))
  {
    assert s.fields.mode.Exclusive? ==> |s.fields.owners - {id}| <= |s.fields.owners|;
  }

  lemma OnlyOwner(owners: set<Id>, id: Id)
    requires owners - {id} == {}
    ensures owners <= {id}
  {
    forall o | o in owners
      ensures o == id
    {
      assert o !in owners - {id};
    }
  }

  /** A hand-over to requests of one kind, after the last owner has left. */
  lemma HandOverUsers(s: State, id: Id, pc: Pc, fields: Fields, granted: set<Id>)
    requires UserInv(s) && MayLeave(s, id, pc) && s.fields.owners <= {id}
    requires fields.owners == granted && fields.nextId == s.fields.nextId
    requires forall r :: r in granted ==> r in s.users && ModeOf(s.users[r].kind) == fields.mode
    ensures UserInv(s.(fields := fields, users := Wake(s.users[id := s.users[id].(pc := pc)], granted)))
  {
  }

  lemma WriterUsers(s: State, id: Id, pc: Pc)
    requires SafeInv(s) && MayLeave(s, id, pc) && s.fields.owners - {id} == {} && s.fields.queueWrite != []
    ensures UserInv(Leave(s, id, pc))
  {
    OnlyOwner(s.fields.owners, id);
    HandOverUsers(s, id, pc, Release(s.fields, id, Dead(s)), Granted(s.fields, id, Dead(s)));
  }

  lemma KindsStay(s: State, id: Id, pc: Pc, q: seq<Id>, k: Kind)
    requires id in s.users && Consists(q, s, k)
    ensures Consists(q, Leave(s, id, pc), k)
  {
  }

  lemma WriterIsSafe(s: State, id: Id, pc: Pc)
    requires SafeInv(s) && MayLeave(s, id, pc) && s.fields.owners - {id} == {} && s.fields.queueWrite != []
    ensures SafeInv(Leave(s, id, pc))
  {
    WriterUsers(s, id, pc);
    KindsStay(s, id, pc, s.fields.queueRead, Read);
    assert Consists(s.fields.queueWrite[1..], s, Write);
    KindsStay(s, id, pc, s.fields.queueWrite[1..], Write);
    var t := Leave(s, id, pc);
    assert t.fields.owners <= {s.fields.queueWrite[0]};
    assert |t.fields.owners| <= 1 by {
      if t.fields.owners != {} {
        assert t.fields.owners == {s.fields.queueWrite[0]};
      }
    }
  }

  lemma ReadersUsers(s: State, id: Id, pc: Pc)
    requires SafeInv(s) && MayLeave(s, id, pc) && s.fields.owners - {id} == {} && s.fields.queueWrite == []
    ensures UserInv(Leave(s, id, pc))
  {
    OnlyOwner(s.fields.owners, id);
    HandOverUsers(s, id, pc, Release(s.fields, id, Dead(s)), Granted(s.fields, id, Dead(s)));
  }

  lemma ReadersAreSafe(s: State, id: Id, pc: Pc)
    requires SafeInv(s) && MayLeave(s, id, pc) && s.fields.owners - {id} == {} && s.fields.queueWrite == []
    ensures SafeInv(Leave(s, id, pc))
  {
    ReadersUsers(s, id, pc);
    KindsStay(s, id, pc, s.fields.queueRead, Read);
  }

  lemma LeaveIsSafe(s: State, id: Id, pc: Pc)
    requires SafeInv(s) && MayLeave(s, id, pc)
    ensures SafeInv(Leave(s, id, pc))
  {
    if s.fields.owners - {id} != {} {
      OthersStaySafe(s, id, pc);
    } else if s.fields.queueWrite != [] {
      WriterIsSafe(s, id, pc);
    } else {
      ReadersAreSafe(s, id, pc);
    }
  }

  lemma {:induction false} SafeRun(s: State, steps: seq<Step>)
    requires SafeInv(s) && IsRun(s, steps)
    ensures SafeInv(After(s, steps))
    decreases |steps|
  {
    if steps != [] {
      match steps[0] {
        case Enter(k, l) => EnterIsSafe(s, k, l);
        case Finish(id) => LeaveIsSafe(s, id, Finished);
        case CancelWoken(id) => LeaveIsSafe(s, id, Finished);
        case CancelQueued(id) => LeaveIsSafe(s, id, Abandoned);
        case _ =>
      }
      SafeRun(Apply(s, steps[0]), steps[1..]);
    }
  }

  // ---------- the invariant of smooth runs ----------

  ghost predicate ModeInv(f: Fields) {
    && (f.mode.Unlocked? <==> f.owners == {})
    && (f.mode.Exclusive? ==> |f.owners| == 1)
    && (f.mode.Unlocked? ==> f.queueRead == [] && f.queueWrite == [])
    && (f.mode.Shared? ==> f.queueRead == [])
  }

  ghost predicate OwnerInv(s: State) {
    && (forall id :: id in s.users ==> id < s.fields.nextId)
    && (forall id :: id in s.fields.owners ==> id in s.users && s.users[id].pc in {Woken, Active, Abandoned})
    && (forall id :: id in s.users && s.users[id].pc in {Woken, Active} ==> id in s.fields.owners)
    && (forall id :: id in s.fields.owners ==> ModeOf(s.users[id].kind) == s.fields.mode)
  }

  ghost predicate Ascending(q: seq<Id>) {
    forall i, j :: 0 <= i < j < |q| ==> q[i] < q[j]
  }

  /** A queue holds the queued requests of its kind in the order of their arrival. */
  ghost predicate Waits(s: State, q: seq<Id>, k: Kind) {
    && (forall id :: id in q ==>
      && id in s.users && s.users[id].kind == k && s.users[id].pc in {Queued, Abandoned}
      && id !in s.fields.owners)
    && (forall id :: id in s.users && s.users[id].kind == k && s.users[id].pc == Queued ==> id in q)
  }

  ghost predicate Inv(s: State) {
    && ModeInv(s.fields) && OwnerInv(s)
    && Waits(s, s.fields.queueRead, Read) && Waits(s, s.fields.queueWrite, Write)
    && Ascending(s.fields.queueRead) && Ascending(s.fields.queueWrite)
  }

  lemma EnterOwners(s: State, k: Kind, l: Loop)
    requires Inv(s) && l !in s.closed
    ensures OwnerInv(Apply(s, Enter(k, l)))
  {
  }

  lemma EnterStep(s: State, k: Kind, l: Loop)
    requires Inv(s) && l !in s.closed
    ensures Inv(Apply(s, Enter(k, l)))
  {
    var f := s.fields;
    if f.mode.Unlocked? {
      assert f.owners + {f.nextId} == {f.nextId};
    }
    EnterOwners(s, k, l);
    EnterQueue(s, k, l, f.queueRead, Read);
    EnterQueue(s, k, l, f.queueWrite, Write);
  }

  lemma EnterQueue(s: State, k: Kind, l: Loop, q: seq<Id>, of: Kind)
    requires l !in s.closed && OwnerInv(s) && Waits(s, q, of) && Ascending(q)
    ensures var q' := if k == of && !GrantsAtOnce(s.fields, k) then q + [s.fields.nextId] else q;
      Ascending(q') && Waits(Apply(s, Enter(k, l)), q', of)
  {
    assert forall i :: 0 <= i < |q| ==> q[i] in q;
  }

  /** A queued request is no owner, and somebody else is. */
  lemma QueuedHasOwner(s: State, id: Id)
    requires Inv(s) && Is(s, id, Queued)
    ensures s.fields.owners - {id} == s.fields.owners != {}
  {
    assert id in (if s.users[id].kind.Read? then s.fields.queueRead else s.fields.queueWrite);
  }

  function Abandon(s: State, id: Id): State
    requires id in s.users
  {
    s.(users := s.users[id := s.users[id].(pc := Abandoned)])
  }

  /** So the cancellation of a queued request changes no field. */
  lemma CancelQueuedChangesNothing(s: State, id: Id)
    requires Inv(s) && Enabled(s, CancelQueued(id))
    ensures !Troubles(s, CancelQueued(id))
    ensures Apply(s, CancelQueued(id)) == Abandon(s, id)
  {
    QueuedHasOwner(s, id);
    assert Granted(s.fields, id, Dead(s)) == {};
    assert Release(s.fields, id, Dead(s)) == s.fields;
    assert Wake(Abandon(s, id).users, {}) == Abandon(s, id).users;
  }

  lemma AbandonKeepsInv(s: State, id: Id)
    requires Inv(s) && Is(s, id, Queued)
    ensures Inv(Abandon(s, id))
  {
  }

  lemma LeaveMode(s: State, id: Id)
    requires Inv(s) && id in s.fields.owners && !Raises(s.fields, id, Dead(s))
    ensures ModeInv(Release(s.fields, id, Dead(s)))
  {
    var f := s.fields;
    if f.owners - {id} != {} {
      assert f.mode.Exclusive? ==> |f.owners - {id}| == 0;
    } else if f.queueWrite != [] {
      assert Release(f, id, Dead(s)).owners == {f.queueWrite[0]};
    } else if f.queueRead != [] {
      assert f.queueRead[0] in Release(f, id, Dead(s)).owners;
    }
  }

  lemma LeaveOwners(s: State, id: Id)
    requires Inv(s) && id in s.fields.owners && s.users[id].pc in {Woken, Active} && !Raises(s.fields, id, Dead(s))
    ensures OwnerInv(Leave(s, id, Finished))
  {
    var f := s.fields;
    assert f.queueWrite != [] ==> f.queueWrite[0] in f.queueWrite;
  }

  lemma LeaveReaders(s: State, id: Id)
    requires Inv(s) && id in s.fields.owners && s.users[id].pc in {Woken, Active} && !Raises(s.fields, id, Dead(s))
    ensures var t := Leave(s, id, Finished); Waits(t, t.fields.queueRead, Read)
  {
    var f := s.fields;
    assert f.queueWrite != [] ==> f.queueWrite[0] in f.queueWrite;
  }

  lemma AscendingTail(q: seq<Id>)
    requires Ascending(q) && q != []
    ensures Ascending(q[1..]) && q[0] !in q[1..]
    ensures forall r :: r in q <==> r == q[0] || r in q[1..]
  {
    assert q == [q[0]] + q[1..];
  }

  lemma LeaveWriters(s: State, id: Id)
    requires Inv(s) && id in s.fields.owners && s.users[id].pc in {Woken, Active} && !Raises(s.fields, id, Dead(s))
    ensures var t := Leave(s, id, Finished); Waits(t, t.fields.queueWrite, Write)
  {
    if s.fields.queueWrite != [] {
      AscendingTail(s.fields.queueWrite);
    }
  }

  lemma LeaveStep(s: State, id: Id)
    requires Inv(s) && id in s.fields.owners && s.users[id].pc in {Woken, Active} && !Raises(s.fields, id, Dead(s))
    ensures Inv(Leave(s, id, Finished))
  {
    LeaveMode(s, id);
    LeaveOwners(s, id);
    LeaveReaders(s, id);
    LeaveWriters(s, id);
    if s.fields.queueWrite != [] {
      AscendingTail(s.fields.queueWrite);
    }
  }

  lemma ResumeStep(s: State, id: Id)
    requires Inv(s) && Enabled(s, Resume(id))
    ensures Inv(Apply(s, Resume(id)))
  {
  }

  lemma CancelQueuedStep(s: State, id: Id)
    requires Inv(s) && Enabled(s, CancelQueued(id))
    ensures Inv(Apply(s, CancelQueued(id)))
  {
    CancelQueuedChangesNothing(s, id);
    AbandonKeepsInv(s, id);
  }

  lemma InvStep(s: State, step: Step)
    requires Inv(s) && Enabled(s, step) && !Troubles(s, step)
    ensures Inv(Apply(s, step))
  {
    match step
    case Enter(k, l) => EnterStep(s, k, l);
    case CloseLoop(_) =>
    case Resume(id) => ResumeStep(s, id);
    case CancelQueued(id) => CancelQueuedStep(s, id);
    case Finish(id) => LeaveStep(s, id);
    case CancelWoken(id) => LeaveStep(s, id);
  }

  lemma {:induction false} InvRun(s: State, steps: seq<Step>)
    requires Inv(s) && Smooth(s, steps)
    ensures Inv(After(s, steps))
    decreases |steps|
  {
    if steps != [] {
      InvStep(s, steps[0]);
      InvRun(Apply(s, steps[0]), steps[1..]);
    }
  }

  /** Some run from the free lock leads here, without a hand-over to a closed loop. */
  ghost predicate Reachable(s: State) {
    exists steps :: Smooth(Begin(), steps) && After(Begin(), steps) == s
  }

  lemma {:induction false} RunThenStep(s: State, steps: seq<Step>, step: Step)
    requires Smooth(s, steps) && Enabled(After(s, steps), step) && !Troubles(After(s, steps), step)
    ensures Smooth(s, steps + [step]) && After(s, steps + [step]) == Apply(After(s, steps), step)
    decreases |steps|
  {
    if steps == [] {
      assert [] + [step] == [step] && [step][1..] == [];
    } else {
      assert (steps + [step])[1..] == steps[1..] + [step];
      RunThenStep(Apply(s, steps[0]), steps[1..], step);
    }
  }

  lemma ReachableStep(s: State, step: Step)
    requires Reachable(s) && Enabled(s, step) && !Troubles(s, step)
    ensures Reachable(Apply(s, step))
  {
    var steps :| Smooth(Begin(), steps) && After(Begin(), steps) == s;
    RunThenStep(Begin(), steps, step);
  }

  lemma ReachableInv(s: State)
    requires Reachable(s)
    ensures Inv(s)
  {
    var steps :| Smooth(Begin(), steps) && After(Begin(), steps) == s;
    InvRun(Begin(), steps);
  }

  // ---------- exclusion ----------

  /** Users inside are owners, and a writer inside is alone. */
  ghost predicate Excludes(s: State) {
    && (forall id :: Is(s, id, Active) ==> id in s.fields.owners)
    && (forall w, id :: Is(s, w, Active) && s.users[w].kind.Write? && Is(s, id, Active) ==> id == w)
  }

  lemma SafeExcludes(s: State)
    requires SafeInv(s)
    ensures Excludes(s)
  {
    forall w, id | Is(s, w, Active) && s.users[w].kind.Write? && Is(s, id, Active)
      ensures id == w
    {
      assert w in s.fields.owners && s.fields.mode.Exclusive?;
      assert |s.fields.owners - {w}| == 0;
      assert id !in s.fields.owners - {w};
    }
  }

  /**
   Reader/writer exclusion, whatever is cancelled and when, and even if a release raised because of a
   closed loop: users inside are owners, a writer is alone, and nobody owns or queues for a free lock.
   */
  lemma ReaderWriterExclusion(steps: seq<Step>)
    requires IsRun(Begin(), steps)
    ensures var s := After(Begin(), steps); var f := s.fields;
      && Excludes(s)
      && (f.mode.Exclusive? ==> |f.owners| <= 1)
      && (f.mode.Unlocked? ==> f.owners == {} && f.queueRead == [] && f.queueWrite == [])
  {
    SafeRun(Begin(), steps);
    SafeExcludes(After(Begin(), steps));
  }

  /**
   As long as no release raised, the fields agree: the lock is free exactly when it has no owner, a
   writer's lock has one owner, nobody queues for a free lock, and no reader queues behind readers.
   */
  lemma FieldsAgree(steps: seq<Step>)
    requires Smooth(Begin(), steps)
    ensures var f := After(Begin(), steps).fields;
      && (f.mode.Unlocked? <==> f.owners == {})
      && (f.mode.Exclusive? ==> |f.owners| == 1)
      && (f.mode.Unlocked? ==> f.queueRead == [] && f.queueWrite == [])
      && (f.mode.Shared? ==> f.queueRead == [])
  {
    InvRun(Begin(), steps);
  }

  /** A step makes the fields disagree exactly if it is a release whose hand-over meets a closed loop. */
  lemma DisagreeIffRaised(s: State, step: Step)
    requires Reachable(s) && Enabled(s, step)
    ensures ModeInv(Apply(s, step).fields) <==> !Troubles(s, step)
  {
    ReachableInv(s);
    if !Troubles(s, step) {
      InvStep(s, step);
    } else if s.fields.queueWrite == [] {
      assert Apply(s, step).fields.queueRead != [];
    }
  }

  /** This happens: the queued writer's loop is closed, and the lock stays taken without an owner. */
  lemma ClosedLoopJams()
    ensures var steps := [Enter(Write, 0), Enter(Write, 1), CloseLoop(1), Finish(0)];
      && IsRun(Begin(), steps)
      && var f := After(Begin(), steps).fields;
        f.mode == Exclusive && f.owners == {} && f.queueRead == [] && f.queueWrite == []
  {
    var s1 := Apply(Begin(), Enter(Write, 0));
    var s2 := Apply(s1, Enter(Write, 1));
    assert s2.fields.queueWrite == [1] && s2.fields.owners == {0};
    var s3 := Apply(s2, CloseLoop(1));
    assert Dead(s3) == {1};
    RunCons(s3, Finish(0), []);
    RunCons(s2, CloseLoop(1), [Finish(0)]);
    RunCons(s1, Enter(Write, 1), [CloseLoop(1), Finish(0)]);
    RunCons(Begin(), Enter(Write, 0), [Enter(Write, 1), CloseLoop(1), Finish(0)]);
  }

  // ---------- hand-over ----------

  /** The step takes the last owner away. */
  predicate Empties(s: State, step: Step) {
    (step.Finish? || step.CancelWoken? || step.CancelQueued?) && s.fields.owners - {step.id} == {}
  }

  function Emptyings(s: State, steps: seq<Step>): nat
    requires IsRun(s, steps)
    decreases |steps|
  {
    if steps == [] then 0
    else (if Empties(s, steps[0]) then 1 else 0) + Emptyings(Apply(s, steps[0]), steps[1..])
  }

  predicate WriterAt(s: State, w: Id, k: nat) {
    k < |s.fields.queueWrite| && s.fields.queueWrite[k] == w && Is(s, w, Queued)
  }

  predicate Entered(s: State, w: Id) {
    w in s.users && s.users[w].pc in {Woken, Active, Finished}
  }

  lemma EnteredStays(s: State, step: Step, w: Id)
    requires w < s.fields.nextId && Enabled(s, step) && Entered(s, w)
    ensures w < Apply(s, step).fields.nextId && Entered(Apply(s, step), w)
  {
  }

  lemma LeaveMovesWriter(s: State, id: Id, w: Id, k: nat)
    requires Inv(s) && WriterAt(s, w, k) && id in s.fields.owners && id in s.users && !Raises(s.fields, id, Dead(s))
    ensures var t := Leave(s, id, Finished);
      if s.fields.owners - {id} != {} then WriterAt(t, w, k)
      else if k > 0 then WriterAt(t, w, k - 1)
      else Entered(t, w)
  {
    var q := s.fields.queueWrite;
    assert w in q && w !in s.fields.owners;
    if k > 0 {
      assert q[1..][k - 1] == w && q[0] < w;
    }
  }

  lemma WriterStep(s: State, step: Step, w: Id, k: nat)
    requires Reachable(s) && Enabled(s, step) && !Troubles(s, step)
    requires WriterAt(s, w, k) && step != CancelQueued(w)
    ensures w < Apply(s, step).fields.nextId
    ensures var t := Apply(s, step);
      if !Empties(s, step) then WriterAt(t, w, k)
      else if k > 0 then WriterAt(t, w, k - 1)
      else Entered(t, w)
  {
    ReachableInv(s);
    match step
    case Enter(kind, l) => EnterKeepsWriter(s, kind, l, w, k);
    case CloseLoop(_) =>
    case Resume(id) =>
    case CancelQueued(id) => CancelQueuedKeepsWriter(s, id, w, k);
    case Finish(id) => LeaveMovesWriter(s, id, w, k);
    case CancelWoken(id) => LeaveMovesWriter(s, id, w, k);
  }

  lemma EnterKeepsWriter(s: State, kind: Kind, l: Loop, w: Id, k: nat)
    requires Inv(s) && WriterAt(s, w, k) && l !in s.closed
    ensures WriterAt(Apply(s, Enter(kind, l)), w, k)
  {
    assert w < s.fields.nextId;
  }

  lemma CancelQueuedKeepsWriter(s: State, id: Id, w: Id, k: nat)
    requires Inv(s) && WriterAt(s, w, k) && Enabled(s, CancelQueued(id)) && id != w
    ensures WriterAt(Apply(s, CancelQueued(id)), w, k) && !Empties(s, CancelQueued(id))
  {
    CancelQueuedChangesNothing(s, id);
    assert id in s.fields.queueRead || id in s.fields.queueWrite;
    assert s.fields.owners - {id} == s.fields.owners;
  }

  lemma RunHead(s: State, steps: seq<Step>) returns (t: State, rest: seq<Step>)
    requires Smooth(s, steps) && steps != []
    ensures Enabled(s, steps[0]) && !Troubles(s, steps[0]) && t == Apply(s, steps[0]) && rest == steps[1..]
    ensures Smooth(t, rest) && After(s, steps) == After(t, rest)
    ensures Emptyings(s, steps) == (if Empties(s, steps[0]) then 1 else 0) + Emptyings(t, rest)
  {
    t, rest := Apply(s, steps[0]), steps[1..];
  }

  /** After `e` emptyings: still queued, `e` places further, or let in once its turn came. */
  predicate InTurn(s: State, w: Id, k: nat, e: nat) {
    if e <= k then WriterAt(s, w, k - e) else Entered(s, w)
  }

  /**
   A queued writer at index `k` enters exactly at the (k+1)-th time the owner set empties, whoever
   arrives or is cancelled in the meantime.
   */
  lemma {:induction false} WriterEntersInTurn(s: State, steps: seq<Step>, w: Id, k: nat)
    requires Reachable(s) && Smooth(s, steps) && WriterAt(s, w, k) && CancelQueued(w) !in steps
    ensures InTurn(After(s, steps), w, k, Emptyings(s, steps))
    decreases |steps|
  {
    if steps != [] {
      var t, rest := RunHead(s, steps);
      assert steps == [steps[0]] + rest;
      ReachableStep(s, steps[0]);
      WriterStep(s, steps[0], w, k);
      if Empties(s, steps[0]) && k == 0 {
        EnteredRun(t, rest, w);
      } else {
        WriterEntersInTurn(t, rest, w, if Empties(s, steps[0]) then k - 1 else k);
      }
    }
  }

  lemma {:induction false} EnteredRun(s: State, steps: seq<Step>, w: Id)
    requires w < s.fields.nextId && IsRun(s, steps) && Entered(s, w)
    ensures Entered(After(s, steps), w)
    decreases |steps|
  {
    if steps != [] {
      EnteredStays(s, steps[0], w);
      EnteredRun(Apply(s, steps[0]), steps[1..], w);
    }
  }

  /** Writers enter in the order of their requests. */
  lemma WritersEnterInOrder(s: State, steps: seq<Step>, first: Id, second: Id)
    requires Reachable(s) && Smooth(s, steps) && first < second
    requires Is(s, first, Queued) && s.users[first].kind.Write? && CancelQueued(first) !in steps
    requires Is(s, second, Queued) && s.users[second].kind.Write? && CancelQueued(second) !in steps
    ensures Entered(After(s, steps), second) ==> Entered(After(s, steps), first)
  {
    ReachableInv(s);
    var q := s.fields.queueWrite;
    assert first in q && second in q;
    var i :| 0 <= i < |q| && q[i] == first;
    var j :| 0 <= j < |q| && q[j] == second;
    WriterEntersInTurn(s, steps, first, i);
    WriterEntersInTurn(s, steps, second, j);
  }

  /** When the owner set empties and no writer queues, all queued readers enter together. */
  lemma ReadersEnterTogether(s: State, step: Step)
    requires Reachable(s) && Enabled(s, step) && !Troubles(s, step) && Empties(s, step)
    requires s.fields.queueWrite == [] && s.fields.queueRead != []
    ensures var t := Apply(s, step);
      && t.fields.mode == Shared && t.fields.queueRead == []
      && t.fields.owners == (set r | r in s.fields.queueRead)
      && forall id :: Is(s, id, Queued) && id != step.id ==> Is(t, id, Woken)
  {
    ReachableInv(s);
    assert forall id :: Is(s, id, Queued) ==> id in s.fields.queueRead || id in s.fields.queueWrite;
  }

  /** Without requests abandoned in a queue, whoever waits has an owner inside or on its way. */
  lemma WaitersHaveALiveOwner(steps: seq<Step>)
    requires Smooth(Begin(), steps)
    requires forall step :: step in steps ==> !step.CancelQueued?
    ensures var s := After(Begin(), steps);
      s.fields.queueRead != [] || s.fields.queueWrite != [] ==>
        exists id :: id in s.fields.owners && (Is(s, id, Woken) || Is(s, id, Active))
  {
    InvRun(Begin(), steps);
    NobodyAbandons(Begin(), steps);
    var s := After(Begin(), steps);
    if s.fields.queueRead != [] || s.fields.queueWrite != [] {
      var id :| id in s.fields.owners;
      assert !Is(s, id, Abandoned);
    }
  }

  lemma {:induction false} NobodyAbandons(s: State, steps: seq<Step>)
    requires IsRun(s, steps) && (forall step :: step in steps ==> !step.CancelQueued?)
    requires forall id :: !Is(s, id, Abandoned)
    ensures forall id :: !Is(After(s, steps), id, Abandoned)
    decreases |steps|
  {
    if steps != [] {
      assert steps[0] in steps;
      var t := Apply(s, steps[0]);
      forall id
        ensures !Is(t, id, Abandoned)
      {
        assert !Is(s, id, Abandoned);
      }
      NobodyAbandons(t, steps[1..]);
    }
  }

  // ---------- exactly when the lock can move on ----------

  /** Nobody will take this owner away: it was abandoned in a queue, or its loop is closed. */
  predicate Immovable(s: State, id: Id) {
    id in s.fields.owners && id in s.users && (s.users[id].pc.Abandoned? || s.users[id].loop in s.closed)
  }

  ghost predicate Jammed(s: State) {
    exists id :: Immovable(s, id)
  }

  ghost predicate CanEmpty(s: State) {
    exists steps :: IsRun(s, steps) && Emptyings(s, steps) > 0
  }

  lemma JamStays(s: State, step: Step, id: Id)
    requires Inv(s) && Enabled(s, step) && Immovable(s, id)
    ensures Immovable(Apply(s, step), id) && !Empties(s, step) && !Troubles(s, step)
  {
    if step.CloseLoop? {
    } else if !step.Enter? {
      assert step.id != id;
      assert id in s.fields.owners - {step.id};
    } else {
      assert id < s.fields.nextId;
    }
  }

  lemma {:induction false} JammedForever(s: State, steps: seq<Step>, id: Id)
    requires Inv(s) && IsRun(s, steps) && Immovable(s, id)
    ensures Emptyings(s, steps) == 0 && id in After(s, steps).fields.owners
    decreases |steps|
  {
    if steps != [] {
      var t := Apply(s, steps[0]);
      JamStays(s, steps[0], id);
      InvStep(s, steps[0]);
      JammedForever(t, steps[1..], id);
    }
  }

  lemma RunCons(s: State, step: Step, rest: seq<Step>)
    requires Enabled(s, step) && IsRun(Apply(s, step), rest)
    ensures IsRun(s, [step] + rest) && After(s, [step] + rest) == After(Apply(s, step), rest)
    ensures Emptyings(s, [step] + rest) == (if Empties(s, step) then 1 else 0) + Emptyings(Apply(s, step), rest)
  {
    assert ([step] + rest)[1..] == rest;
  }

  /** Nothing happens to the queues, the queued requests and the loops. */
  ghost predicate KeepsQueues(s: State, t: State) {
    && t.closed == s.closed
    && t.fields.queueRead == s.fields.queueRead && t.fields.queueWrite == s.fields.queueWrite
    && (forall id :: Is(s, id, Queued) ==> Is(t, id, Queued))
    && (forall id :: id in s.users ==>
      id in t.users && t.users[id].loop == s.users[id].loop && t.users[id].kind == s.users[id].kind)
  }

  lemma KeepsOn(s: State, t: State, u: State)
    requires KeepsQueues(s, t) && KeepsQueues(t, u)
    ensures KeepsQueues(s, u)
  {
  }

  /** An owner that can run is inside or gets inside. */
  lemma OwnerEnters(s: State, id: Id) returns (steps: seq<Step>, u: State)
    requires Inv(s) && id in s.fields.owners && !Immovable(s, id)
    ensures Runs(u, id, Active) && u == s.(users := s.users[id := s.users[id].(pc := Active)]) && Inv(u)
    ensures Smooth(s, steps) && After(s, steps) == u && Emptyings(s, steps) == 0 && KeepsQueues(s, u)
  {
    if s.users[id].pc == Woken {
      u := Apply(s, Resume(id));
      steps := [Resume(id)] + [];
      RunCons(s, Resume(id), []);
      InvStep(s, Resume(id));
    } else {
      steps, u := [], s;
      assert s.users[id := s.users[id].(pc := Active)] == s.users;
    }
  }

  lemma {:induction false} RunConcat(s: State, a: seq<Step>, b: seq<Step>)
    requires IsRun(s, a) && IsRun(After(s, a), b)
    ensures IsRun(s, a + b) && After(s, a + b) == After(After(s, a), b)
    ensures Emptyings(s, a + b) == Emptyings(s, a) + Emptyings(After(s, a), b)
    decreases |a|
  {
    if a == [] {
      assert a + b == b;
    } else {
      assert (a + b)[1..] == a[1..] + b;
      RunConcat(Apply(s, a[0]), a[1..], b);
    }
  }

  /** An owner leaves while others stay. */
  lemma OneLeaves(s: State, id: Id)
    requires Inv(s) && Runs(s, id, Active) && id in s.fields.owners && !Empties(s, Finish(id))
    ensures var t := Apply(s, Finish(id));
      && Inv(t) && KeepsQueues(s, t) && t.fields.owners == s.fields.owners - {id}
      && forall o :: Immovable(t, o) ==> Immovable(s, o)
  {
    InvStep(s, Finish(id));
  }

  /** The live owners leave one after the other; `t` is the state before the last of them does. */
  lemma {:induction false} OwnersLeave(s: State) returns (steps: seq<Step>, t: State, last: Id)
    requires Inv(s) && s.fields.owners != {} && !Jammed(s)
    ensures IsRun(s, steps) && After(s, steps) == t && Emptyings(s, steps) == 0
    ensures Inv(t) && Enabled(t, Finish(last)) && Empties(t, Finish(last)) && KeepsQueues(s, t)
    decreases |s.fields.owners|
  {
    var id :| id in s.fields.owners;
    assert !Immovable(s, id);
    var u;
    steps, u := OwnerEnters(s, id);
    if Empties(u, Finish(id)) {
      return steps, u, id;
    }
    OneLeaves(u, id);
    var v := Apply(u, Finish(id));
    NoneJams(s, u, v, id);
    var rest;
    rest, t, last := OwnersLeave(v);
    KeepsOn(s, u, v);
    KeepsOn(s, v, t);
    steps := RunThrough(s, steps, Finish(id), rest);
  }

  /** A run, one step, and another run. */
  lemma RunThrough(s: State, a: seq<Step>, step: Step, b: seq<Step>) returns (steps: seq<Step>)
    requires IsRun(s, a) && Enabled(After(s, a), step) && IsRun(Apply(After(s, a), step), b)
    ensures IsRun(s, steps) && After(s, steps) == After(Apply(After(s, a), step), b)
    ensures Emptyings(s, steps) ==
      Emptyings(s, a) + (if Empties(After(s, a), step) then 1 else 0) + Emptyings(Apply(After(s, a), step), b)
  {
    RunCons(After(s, a), step, b);
    RunConcat(s, a, [step] + b);
    steps := a + ([step] + b);
  }

  lemma NoneJams(s: State, u: State, v: State, id: Id)
    requires !Jammed(s) && id in s.users && u == s.(users := s.users[id := s.users[id].(pc := Active)])
    requires Runs(u, id, Active) && forall o :: Immovable(v, o) ==> Immovable(u, o)
    ensures !Jammed(v)
  {
    forall o
      ensures !Immovable(v, o)
    {
      assert !Immovable(s, o);
    }
  }

  /** The owner set can still empty, and so the queues move, iff no owner is an abandoned entry or on a closed loop. */
  lemma CanEmptyIffNotJammed(s: State)
    requires Reachable(s) && s.fields.owners != {}
    ensures CanEmpty(s) <==> !Jammed(s)
  {
    ReachableInv(s);
    if Jammed(s) {
      var id :| Immovable(s, id);
      forall steps | IsRun(s, steps)
        ensures Emptyings(s, steps) == 0
      {
        JammedForever(s, steps, id);
      }
    } else {
      var steps, t, last := OwnersLeave(s);
      RunCons(t, Finish(last), []);
      RunConcat(s, steps, [Finish(last)] + []);
    }
  }

  ghost predicate CanEnter(s: State, id: Id) {
    exists steps :: IsRun(s, steps) && Is(After(s, steps), id, Active)
  }

  /** What is woken by the last owner that leaves gets inside. */
  lemma WokenEnters(s: State, steps: seq<Step>, t: State, last: Id, id: Id)
    requires IsRun(s, steps) && After(s, steps) == t && Enabled(t, Finish(last))
    requires Runs(Apply(t, Finish(last)), id, Woken)
    ensures CanEnter(s, id)
  {
    var u := Apply(t, Finish(last));
    RunCons(u, Resume(id), []);
    RunCons(t, Finish(last), [Resume(id)] + []);
    RunConcat(s, steps, [Finish(last)] + ([Resume(id)] + []));
  }

  /** Unless the lock is jammed, the first queued writer can get inside, if its loop is open. */
  lemma FirstWriterCanEnter(s: State, w: Id)
    requires Reachable(s) && !Jammed(s) && WriterAt(s, w, 0) && s.users[w].loop !in s.closed
    ensures CanEnter(s, w)
  {
    ReachableInv(s);
    QueuedHasOwner(s, w);
    var steps, t, last := OwnersLeave(s);
    LastWakesWriter(t, last, w);
    WokenEnters(s, steps, t, last, w);
  }

  lemma LastWakesWriter(s: State, last: Id, w: Id)
    requires Inv(s) && Enabled(s, Finish(last)) && Empties(s, Finish(last))
    requires WriterAt(s, w, 0) && s.users[w].loop !in s.closed
    ensures Runs(Apply(s, Finish(last)), w, Woken)
  {
    assert Granted(s.fields, last, Dead(s)) == {w};
  }

  /** So can every queued reader while no writer queues, if the loops of the queued readers are open. */
  lemma ReadersCanEnter(s: State, r: Id)
    requires Reachable(s) && !Jammed(s) && Is(s, r, Queued) && s.users[r].kind.Read? && s.fields.queueWrite == []
    requires forall id :: id in s.fields.queueRead ==> id in s.users && s.users[id].loop !in s.closed
    ensures CanEnter(s, r)
  {
    ReachableInv(s);
    QueuedHasOwner(s, r);
    var steps, t, last := OwnersLeave(s);
    LastWakesReader(t, last, r);
    WokenEnters(s, steps, t, last, r);
  }

  lemma LastWakesReader(s: State, last: Id, r: Id)
    requires Inv(s) && Enabled(s, Finish(last)) && Empties(s, Finish(last)) && s.fields.queueWrite == []
    requires Is(s, r, Queued) && s.users[r].kind.Read?
    requires forall id :: id in s.fields.queueRead ==> id in s.users && s.users[id].loop !in s.closed
    ensures Runs(Apply(s, Finish(last)), r, Woken)
  {
    var q := s.fields.queueRead;
    assert forall id :: id in q ==> id !in Dead(s);
    assert r in q && q[..Live(q, Dead(s))] == q;
    assert r in Granted(s.fields, last, Dead(s));
  }

  /** A jam is reachable: a writer cancelled while queued is granted the lock all the same. */
  lemma CancelledWriterJams()
    ensures var steps := [Enter(Write, 0), Enter(Write, 0), CancelQueued(1), Finish(0)];
      IsRun(Begin(), steps) && Jammed(After(Begin(), steps))
  {
    var s1 := Apply(Begin(), Enter(Write, 0));
    var s2 := Apply(s1, Enter(Write, 0));
    assert s2.fields.queueWrite == [1] && s2.fields.owners == {0};
    var s3 := Apply(s2, CancelQueued(1));
    assert s3.fields.owners == {0} && s3.fields.queueWrite == [1];
    var s4 := Apply(s3, Finish(0));
    assert s4.fields.owners == {1} && Immovable(s4, 1);
    RunCons(s3, Finish(0), []);
    RunCons(s2, CancelQueued(1), [Finish(0)]);
    RunCons(s1, Enter(Write, 0), [CancelQueued(1), Finish(0)]);
    RunCons(Begin(), Enter(Write, 0), [Enter(Write, 0), CancelQueued(1), Finish(0)]);
  }
}
