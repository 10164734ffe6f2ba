/** Nested cancellation scopes on one task, from src/aiodrive/modules/scope.py. */
module Scopes {
  import opened Wrappers

  // ---------- one scope ----------

  /** The counter of the task after one more request. */
  function Requested(cancelling: nat): nat {
    cancelling + 1
  }

  /** The counter after a scope with `count` requests has taken them back; it never falls below zero. */
  function TakenBack(cancelling: nat, count: nat): nat {
    if cancelling >= count then cancelling - count else 0
  }

  /** The cancellation counter of an asyncio task. */
  class Task {
    var cancelling: nat

    constructor ()
      ensures cancelling == 0
    {
      cancelling := 0;
    }

    method Cancel()
      modifies this
      ensures cancelling == Requested(old(cancelling))
    {
      cancelling := cancelling + 1;
    }

    method Uncancel()
      modifies this
      ensures cancelling == TakenBack(old(cancelling), 1)
    {
      if cancelling > 0 {
        cancelling := cancelling - 1;
      }
    }
  }

  class Scope {
    var cancellationCount: nat
    var task: Task?

    constructor (task: Task)
      ensures cancellationCount == 0 && this.task == task
    {
      cancellationCount := 0;
      this.task := task;
    }

    /** `Scope.cancel`; false stands for the RuntimeError of a scope that was exited. */
    method Cancel() returns (ok: bool)
      modifies this, task
      ensures ok <==> old(task) != null
      ensures task == old(task)
      ensures cancellationCount == old(cancellationCount) + if ok then 1 else 0
      ensures ok ==> task.cancelling == Requested(old(task.cancelling))
    {
      if task == null {
        return false;
      }
      task.Cancel();
      cancellationCount := cancellationCount + 1;
      return true;
    }

    /** Leaving `use_scope` otherwise: the task keeps the requests of the scope. */
    method ExitOtherwise()
      modifies this
      ensures task == null && cancellationCount == old(cancellationCount)
    {
      task := null;
    }

    /** Leaving `use_scope` with a CancelledError: the scope takes its own requests back. */
    method ExitCancelled(t: Task) returns (raises: bool)
      modifies this, t
      ensures task == null && cancellationCount == old(cancellationCount)
      ensures t.cancelling == TakenBack(old(t.cancelling), cancellationCount)
      ensures raises <==> t.cancelling != 0
    {
      for i := 0 to cancellationCount
        invariant cancellationCount == old(cancellationCount)
        invariant t.cancelling == TakenBack(old(t.cancelling), i)
      {
        t.Uncancel();
      }
      raises := t.cancelling != 0;
      task := null;
    }
  }

  /** The counts of a stack of scopes, outermost first. */
  ghost function Counts(scopes: seq<Scope>): seq<nat>
    reads scopes
  {
    seq(|scopes|, i requires 0 <= i < |scopes| reads scopes => scopes[i].cancellationCount)
  }

  function Sum(counts: seq<nat>): nat {
    if counts == [] then 0 else Sum(counts[..|counts| - 1]) + counts[|counts| - 1]
  }

  /**
   The innermost of these scopes with nothing left to cancel outside it: its index, if the requests of
   the scopes around it and the `rest` (external and left-over requests) sum to zero.
   */
  ghost predicate Absorbs(counts: seq<nat>, rest: nat, i: nat) {
    && i < |counts|
    && rest + Sum(counts[..i]) == 0
    && forall j :: i < j < |counts| ==> rest + Sum(counts[..j]) > 0
  }

  // ---------- runs ----------

  /** The counter of the task, the live scopes with their counts, and where the other requests come from. */
  datatype State = State(cancelling: nat, counts: seq<nat>, external: nat, leftOver: nat)

  function Begin(): State {
    State(0, [], 0, 0)
  }

  datatype Step =
    | EnterScope
    | CancelScope(i: nat)       // any live scope, not only the innermost
    | CancelExternally
    | LeaveNormally             // the innermost scope is left without a CancelledError
    | LeaveCancelled            // a CancelledError reaches the end of the innermost scope

  predicate Enabled(s: State, step: Step) {
    match step
    case CancelScope(i) => i < |s.counts|
    case LeaveNormally => s.counts != []
    case LeaveCancelled => s.counts != []
    case _ => true
  }

  function Apply(s: State, step: Step): State
    requires Enabled(s, step)
  {
    match step
    case EnterScope => s.(counts := s.counts + [0])
    case CancelScope(i) => s.(cancelling := Requested(s.cancelling), counts := s.counts[i := s.counts[i] + 1])
    case CancelExternally => s.(cancelling := Requested(s.cancelling), external := s.external + 1)
    case LeaveNormally =>
      var n := |s.counts| - 1;
      s.(counts := s.counts[..n], leftOver := s.leftOver + s.counts[n])
    case LeaveCancelled =>
      var n := |s.counts| - 1;
      s.(counts := s.counts[..n], cancelling := TakenBack(s.cancelling, s.counts[n]))
  }

  predicate IsRun(s: State, steps: seq<Step>)
    decreases |steps|
  {
    steps == [] || (Enabled(s, steps[0]) && IsRun(Apply(s, steps[0]), steps[1..]))
  }

  function After(s: State, steps: seq<Step>): State
    requires IsRun(s, steps)
    decreases |steps|
  {
    if steps == [] then s else After(Apply(s, steps[0]), steps[1..])
  }

  ghost predicate Balanced(s: State) {
    s.cancelling == s.external + s.leftOver + Sum(s.counts)
  }

  lemma {:induction false} SumUpdate(counts: seq<nat>, i: nat)
    requires i < |counts|
    ensures Sum(counts[i := counts[i] + 1]) == Sum(counts) + 1
  {
    var n := |counts| - 1;
    if i < n {
      SumUpdate(counts[..n], i);
      assert counts[i := counts[i] + 1][..n] == counts[..n][i := counts[i] + 1];
    } else {
      assert counts[i := counts[i] + 1][..n] == counts[..n];
    }
  }

  /**
   Nested scopes balance: after any run, the counter is the external requests, plus the counts of the
   live scopes, plus what scopes left without a CancelledError had requested.
   */
  lemma {:induction false} ScopesBalance(s: State, steps: seq<Step>)
    requires Balanced(s) && IsRun(s, steps)
    ensures Balanced(After(s, steps))
    decreases |steps|
  {
    if steps != [] {
      match steps[0] {
        case EnterScope => assert (s.counts + [0])[..|s.counts|] == s.counts;
        case CancelScope(i) => SumUpdate(s.counts, i);
        case _ =>
      }
      ScopesBalance(Apply(s, steps[0]), steps[1..]);
    }
  }

  predicate Asks(step: Step) {
    step.CancelScope? || step.CancelExternally?
  }

  function Asked(steps: seq<Step>): nat {
    if steps == [] then 0 else One(Asks(steps[0])) + Asked(steps[1..])
  }

  function AskedExternally(steps: seq<Step>): nat {
    if steps == [] then 0 else One(steps[0].CancelExternally?) + AskedExternally(steps[1..])
  }

  /** The requests of the scopes that were left with a CancelledError, or otherwise. */
  function AskedByLeft(s: State, steps: seq<Step>, cancelled: bool): nat
    requires IsRun(s, steps)
    decreases |steps|
  {
    if steps == [] then 0
    else
      (if steps[0] == (if cancelled then LeaveCancelled else LeaveNormally) then s.counts[|s.counts| - 1] else 0)
      + AskedByLeft(Apply(s, steps[0]), steps[1..], cancelled)
  }

  /**
   In every run, each request raises the counter by one, and only leaving a scope with a CancelledError
   lowers it, by the requests of that scope; those of a scope left otherwise stay.
   */
  lemma {:induction false} RequestsAreAccounted(s: State, steps: seq<Step>)
    requires Balanced(s) && IsRun(s, steps)
    ensures var t := After(s, steps);
      && t.cancelling + AskedByLeft(s, steps, true) == s.cancelling + Asked(steps)
      && t.leftOver == s.leftOver + AskedByLeft(s, steps, false)
      && t.external == s.external + AskedExternally(steps)
    decreases |steps|
  {
    if steps != [] {
      ScopesBalance(s, steps[..1]);
      assert steps[..1][1..] == [] && steps[..1][0] == steps[0];
      assert After(s, steps[..1]) == Apply(s, steps[0]);
      RequestsAreAccounted(Apply(s, steps[0]), steps[1..]);
    }
  }

  /** A CancelledError passes scope `i` on its way out, absorbed where the counter is down to zero. */
  function Escape(s: State): (State, Option<nat>)
    decreases |s.counts|
  {
    if s.counts == [] then (s, None)
    else
      var t := Apply(s, LeaveCancelled);
      if t.cancelling == 0 then (t, Some(|t.counts|)) else Escape(t)
  }

  lemma {:induction false} EscapesIffRestIsPositive(s: State)
    requires Balanced(s) && s.counts != []
    ensures var (t, at) := Escape(s);
      && Balanced(t) && (at.Some? ==> t.cancelling == 0)
      && (at.None? ==> t.counts == [])
      && (at.None? <==> s.external + s.leftOver > 0)
      && (at.Some? ==> Absorbs(s.counts, s.external + s.leftOver, at.value) && t.counts == s.counts[..at.value])
    decreases |s.counts|
  {
    var n := |s.counts| - 1;
    var t := Apply(s, LeaveCancelled);
    assert Balanced(t) && t.counts == s.counts[..n];
    if t.cancelling != 0 && t.counts != [] {
      EscapesIffRestIsPositive(t);
      var (_, at) := Escape(t);
      if at.Some? {
        AbsorbsInPrefix(s.counts, n, s.external + s.leftOver, at.value);
      }
    }
  }

  lemma AbsorbsInPrefix(counts: seq<nat>, n: nat, rest: nat, i: nat)
    requires |counts| == n + 1 && Absorbs(counts[..n], rest, i) && rest + Sum(counts[..n]) > 0
    ensures Absorbs(counts, rest, i) && counts[..n][..i] == counts[..i]
  {
    forall j | 0 <= j < n
      ensures counts[..j] == counts[..n][..j]
    {
    }
  }

  /**
   A CancelledError unwinds through the whole stack, one scope after the other, as `Escape` says. So,
   if the counter is balanced, it is absorbed by the innermost scope at which the rest of the counter is
   zero, and escapes iff the external and left-over part is positive.
   */
  method Unwind(t: Task, scopes: seq<Scope>, ghost external: nat, ghost leftOver: nat)
    returns (absorbedAt: Option<nat>)
    requires scopes != [] && Distinct(scopes)
    requires t.cancelling == external + leftOver + Sum(Counts(scopes))
    modifies t, scopes
    ensures Counts(scopes) == old(Counts(scopes))
    ensures var (s, at) := Escape(State(old(t.cancelling), Counts(scopes), external, leftOver));
      t.cancelling == s.cancelling && absorbedAt == at
    ensures absorbedAt.None? <==> external + leftOver > 0
    ensures absorbedAt.None? ==> t.cancelling == external + leftOver
    ensures absorbedAt.Some? ==>
      Absorbs(Counts(scopes), external + leftOver, absorbedAt.value) && t.cancelling == 0
  {
    ghost var counts := Counts(scopes);
    ghost var start := State(t.cancelling, counts, external, leftOver);
    EscapesIffRestIsPositive(start);
    var i := |scopes|;
    assert counts[..i] == counts;
    while i > 0
      invariant 0 <= i <= |scopes|
      invariant Counts(scopes) == counts
      invariant Escape(start) == Escape(State(t.cancelling, counts[..i], external, leftOver))
    {
      i := i - 1;
      assert counts[..i + 1][..i] == counts[..i];
      var raises := scopes[i].ExitCancelled(t);
      assert Counts(scopes) == counts;
      if !raises {
        return Some(i);
      }
    }
    return None;
  }
}
