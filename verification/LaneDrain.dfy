/**
 Stopping a write lane (app/dbwriter.py, stop): when a drain leaves nothing behind, when it does not,
 and how many steps it can take.
 */
module LaneDrain {
  import opened Options
  import opened WriteLane

  lemma {:induction false} DoneForGood(l: Lane, more: seq<Action>)
    requires AllDone(l) && !l.accepting && IsRun(l, more)
    ensures AllDone(Run(l, more))
    decreases |more|
  {
    hide Enabled, Apply, AllDone;
    if more != [] {
      DoneStays(l, more[0]);
      StopStays(l, more[0]);
      DoneForGood(Apply(l, more[0]), more[1..]);
    }
  }

  lemma StopStays(l: Lane, a: Action)
    requires !l.accepting && Enabled(l, a)
    ensures !Apply(l, a).accepting
  {
    hide Any, NotAfter;
  }

  /**
   A drain that was released with no put call woken leaves nothing unexecuted, not even a put that the
   full queue had suspended, and every awaited submit has its result.
   */
  lemma DrainComplete(capacity: nat, actions: seq<Action>)
    requires IsRun(Start(capacity), actions) && Run(Start(capacity), actions).drain == Joined(false)
    ensures AllDone(Run(Start(capacity), actions))
    ensures var l := Run(Start(capacity), actions);
            |l.commands| == |l.status| && forall i | 0 <= i < |l.status| && l.commands[i].awaited :: i in l.resolved
  {
    hide IsRun, Run, Apply, Enabled, Backed, RanOnce;
    ReachableKeeps(capacity, actions);
  }

  /** Whenever the drain ends after this, everything is done. */
  ghost predicate LeavesNothing(l: Lane) {
    forall more | IsRun(l, more) && Enabled(Run(l, more), Drained) :: AllDone(Run(l, more))
  }

  /**
   The exact statement: from the step that releases the waiting stop, the drain leaves nothing behind
   in any continuation if and only if no put call was woken at that step.
   */
  lemma DrainExactly(capacity: nat, actions: seq<Action>, a: Action)
    requires IsRun(Start(capacity), actions) && Enabled(Run(Start(capacity), actions), a)
    requires !Run(Start(capacity), actions).drain.Joined?
    requires var r := Apply(Run(Start(capacity), actions), a); r.drain.Joined? && r.worker
    ensures var r := Apply(Run(Start(capacity), actions), a);
            LeavesNothing(r) <==> !Any(r, Woken)
  {
    hide IsRun, Run, Enabled, Apply, Any, AllDone;
    var l := Run(Start(capacity), actions);
    var r := Apply(l, a);
    ReachableKeeps(capacity, actions);
    ApplyKeeps(l, a);
    ReleaseMarks(l, a);
    if r.drain.behind {
      NoActions(r);
      WokenNotDone(r);
      assert Enabled(r, Drained) by { JoinedDrains(r); }
      assert IsRun(r, []) && !AllDone(Run(r, []));
    } else {
      forall more | IsRun(r, more) && Enabled(Run(r, more), Drained) ensures AllDone(Run(r, more)) {
        DoneForGood(r, more);
      }
    }
  }

  lemma ReleaseMarks(l: Lane, a: Action)
    requires Enabled(l, a) && !l.drain.Joined? && Apply(l, a).drain.Joined?
    ensures Apply(l, a).drain.behind <==> Any(Apply(l, a), Woken)
  {
  }

  lemma JoinedDrains(l: Lane)
    requires |l.commands| == |l.status| && l.worker && l.drain.Joined?
    ensures Enabled(l, Drained)
  {
  }

  lemma WokenNotDone(l: Lane)
    requires Any(l, Woken)
    ensures !AllDone(l)
  {
    var i :| 0 <= i < |l.status| && l.status[i] == Woken;
    assert !Ended(l.status[i]);
  }

  // ---- when submitters are answered and the worker stops ---------------------------------

  /** Nobody has an answer for a put that is still suspended. */
  ghost predicate NoneEarly(l: Lane) {
    |l.commands| == |l.status| && forall i | i in l.resolved :: i < |l.status| && l.status[i] !in {Waiting, Woken}
  }

  lemma EarlyStep(l: Lane, a: Action)
    requires NoneEarly(l) && Enabled(l, a)
    ensures NoneEarly(Apply(l, a))
  {
    hide NotAfter, Any, Full;
  }

  lemma {:induction false} EarlyRun(l: Lane, actions: seq<Action>)
    requires NoneEarly(l) && IsRun(l, actions)
    ensures NoneEarly(Run(l, actions))
    decreases |actions|
  {
    hide NoneEarly, Enabled, Apply;
    if actions != [] {
      EarlyStep(l, actions[0]);
      EarlyRun(Apply(l, actions[0]), actions[1..]);
    }
  }

  /** A submitter goes on only once its command has entered the queue or was withdrawn. */
  lemma AnsweredEntered(capacity: nat, actions: seq<Action>, i: nat)
    requires IsRun(Start(capacity), actions) && i in Run(Start(capacity), actions).resolved
    ensures var l := Run(Start(capacity), actions);
            i < |l.status| && l.status[i] != Waiting && l.status[i] != Woken
  {
    hide IsRun, Run;
    EarlyRun(Start(capacity), actions);
  }

  /** A stop comes first: only then a wait begins, and only then the worker goes. */
  ghost predicate StopFirst(l: Lane) { (l.drain.Idle? || !l.accepting) && (l.worker || !l.accepting) }

  lemma StopStep(l: Lane, a: Action)
    requires StopFirst(l) && Enabled(l, a)
    ensures StopFirst(Apply(l, a)) && (l.drain.Joined? ==> Apply(l, a).drain.Joined?)
    ensures !Apply(l, a).worker ==> !l.worker || a.Cut? || l.drain.Joined?
  {
    hide Any, NotAfter, Full, Wakes;
  }

  lemma {:induction false} StoppedFrom(l: Lane, actions: seq<Action>, cut: bool)
    requires IsRun(l, actions) && StopFirst(l) && (l.worker || l.drain.Joined? || cut)
    ensures var r := Run(l, actions);
            StopFirst(r) && (r.worker || r.drain.Joined? || cut || Cut in actions)
    decreases |actions|
  {
    hide Enabled, Apply, StopFirst;
    if actions != [] {
      StopStep(l, actions[0]);
      assert actions == [actions[0]] + actions[1..];
      StoppedFrom(Apply(l, actions[0]), actions[1..], cut || actions[0].Cut?);
    }
  }

  /** The worker stops only after a stop was asked for: when the wait was released, or when it was cut short. */
  lemma WorkerStops(capacity: nat, actions: seq<Action>)
    requires IsRun(Start(capacity), actions)
    ensures var l := Run(Start(capacity), actions);
            !l.worker ==> !l.accepting && (l.drain.Joined? || Cut in actions)
  {
    StoppedFrom(Start(capacity), actions, false);
  }

  /** An action by which a submitter gives up on its own. */
  predicate GivesUp(a: Action, i: nat) { (a.CancelCaller? || a.Withdraw?) && a.i == i }

  /** Once the worker is gone, a submitter without a result waits until it gives up. */
  lemma {:induction false} LeftWaiting(l: Lane, more: seq<Action>, i: nat)
    requires IsRun(l, more) && !l.worker && i !in l.resolved && forall a | a in more :: !GivesUp(a, i)
    ensures i !in Run(l, more).resolved && Run(l, more).ran == l.ran
    decreases |more|
  {
    hide Any, NotAfter;
    if more != [] {
      assert !GivesUp(more[0], i);
      LeftWaiting(Apply(l, more[0]), more[1..], i);
    }
  }

  // ---- a losing run ----------------------------------------------------------------------

  function Four(): seq<Command> { seq(4, i => Command(0, true)) }

  lemma FourPuts() returns (actions: seq<Action>)
    ensures IsRun(Start(1), actions)
    ensures Run(Start(1), actions) ==
            Lane(1, true, true, Idle, Four(), [Queued, Waiting, Waiting, Waiting], 1, 1, 0, 0, 1, [], {})
  {
    hide IsRun, Run, Count;
    NoActions(Start(1));
    actions := Then(1, [], Put(0, true), Lane(1, true, true, Idle, Four()[..1], [Queued], 1, 1, 0, 0, 1, [], {}));
    actions := Then(1, actions, Put(0, true),
      Lane(1, true, true, Idle, Four()[..2], [Queued, Waiting], 1, 1, 0, 0, 1, [], {}));
    actions := Then(1, actions, Put(0, true),
      Lane(1, true, true, Idle, Four()[..3], [Queued, Waiting, Waiting], 1, 1, 0, 0, 1, [], {}));
    actions := Then(1, actions, Put(0, true),
      Lane(1, true, true, Idle, Four(), [Queued, Waiting, Waiting, Waiting], 1, 1, 0, 0, 1, [], {}));
  }

  lemma StopAndPick() returns (actions: seq<Action>)
    ensures IsRun(Start(1), actions)
    ensures Run(Start(1), actions) ==
            Lane(1, false, true, Joining, Four(), [Running, Woken, Waiting, Waiting], 0, 1, 0, 0, 1, [0], {})
  {
    hide IsRun, Run, Count;
    actions := FourPuts();
    actions := Then(1, actions, StopBegin,
      Lane(1, false, true, Idle, Four(), [Queued, Waiting, Waiting, Waiting], 1, 1, 0, 0, 1, [], {}));
    actions := Then(1, actions, Join,
      Lane(1, false, true, Joining, Four(), [Queued, Waiting, Waiting, Waiting], 1, 1, 0, 0, 1, [], {}));
    actions := Then(1, actions, Get(0, Some(1)),
      Lane(1, false, true, Joining, Four(), [Running, Woken, Waiting, Waiting], 0, 1, 0, 0, 1, [0], {}));
  }

  lemma TwoGiveUp() returns (actions: seq<Action>)
    ensures IsRun(Start(1), actions)
    ensures Run(Start(1), actions) ==
            Lane(1, false, true, Joined(true), Four(), [Completed, Withdrawn, Withdrawn, Woken],
                 0, 0, 1, 0, 1, [0], {0, 1, 2})
  {
    hide IsRun, Run, Count;
    actions := StopAndPick();
    actions := Then(1, actions, Withdraw(1, Some(2)),
      Lane(1, false, true, Joining, Four(), [Running, Withdrawn, Woken, Waiting], 0, 1, 0, 0, 1, [0], {1}));
    actions := Then(1, actions, Withdraw(2, Some(3)),
      Lane(1, false, true, Joining, Four(), [Running, Withdrawn, Withdrawn, Woken], 0, 1, 0, 0, 1, [0], {1, 2}));
    assert [Completed, Withdrawn, Withdrawn, Woken][3] == Woken && {1, 2} + {0} == {0, 1, 2};
    assert [Running, Withdrawn, Withdrawn, Woken][0 := Completed] == [Completed, Withdrawn, Withdrawn, Woken];
    actions := Then(1, actions, Finish(0, true),
      Lane(1, false, true, Joined(true), Four(), [Completed, Withdrawn, Withdrawn, Woken],
           0, 0, 1, 0, 1, [0], {0, 1, 2}));
  }

  /**
   A queue of one and three suspended puts. The first is woken by the pick and canceled, which wakes the
   second, which is canceled just before the pick finishes, which wakes the third. The stop is released
   with the queue empty; the third command enters it after that and is never run.
   */
  lemma DrainLoses()
    ensures exists actions | IsRun(Start(1), actions) ::
              var l := Run(Start(1), actions);
              !l.worker && l.drain.Joined? && l.unfinished == 1
              && l.status == [Completed, Withdrawn, Withdrawn, Queued]
              && l.commands == Four() && 3 !in l.resolved
  {
    hide IsRun, Run, Count;
    var actions := TwoGiveUp();
    actions := Then(1, actions, Admit(3),
      Lane(1, false, true, Joined(true), Four(), [Completed, Withdrawn, Withdrawn, Queued],
           1, 1, 1, 0, 2, [0], {0, 1, 2}));
    actions := Then(1, actions, Drained,
      Lane(1, false, false, Joined(true), Four(), [Completed, Withdrawn, Withdrawn, Queued],
           1, 1, 1, 0, 2, [0], {0, 1, 2}));
  }

  // ---- a bound on draining ---------------------------------------------------------------

  /** The steps the lane still owes: three for a command to be picked, one more while it is woken. */
  function Work(l: Lane): nat {
    3 * Count(l.status, Waiting) + 4 * Count(l.status, Woken) + 3 * Count(l.status, Queued) + Count(l.status, Running)
  }

  lemma GetWork(l: Lane, i: nat, wake: Option<nat>)
    requires Enabled(l, Get(i, wake))
    ensures Work(Apply(l, Get(i, wake))) < Work(l)
  {
    hide Count, Any, NotAfter;
    CountAll(l.status, i, Running);
    if wake.Some? { CountAll(l.status[i := Running], wake.value, Woken); }
  }

  lemma WithdrawWork(l: Lane, i: nat, wake: Option<nat>)
    requires Enabled(l, Withdraw(i, wake))
    ensures Work(Apply(l, Withdraw(i, wake))) < Work(l)
  {
    hide Count, Any, NotAfter;
    CountAll(l.status, i, Withdrawn);
    if wake.Some? { CountAll(l.status[i := Withdrawn], wake.value, Woken); }
  }

  lemma AdmitWork(l: Lane, i: nat)
    requires Enabled(l, Admit(i))
    ensures Work(Apply(l, Admit(i))) < Work(l)
  {
    hide Count, Any, NotAfter;
    CountAll(l.status, i, Waiting);
    CountAll(l.status, i, Queued);
  }

  lemma FinishWork(l: Lane, i: nat, ok: bool)
    requires Enabled(l, Finish(i, ok))
    ensures Work(Apply(l, Finish(i, ok))) < Work(l)
  {
    hide Count, Any, NotAfter;
    CountAll(l.status, i, if ok then Completed else Failed);
  }

  lemma WorkFalls(l: Lane, a: Action)
    requires Enabled(l, a) && !a.Put?
    ensures Work(Apply(l, a)) <= Work(l)
    ensures Progress(a) ==> Work(Apply(l, a)) < Work(l)
  {
    hide Count, Any, NotAfter;
    match a
    case Get(i, wake) => GetWork(l, i, wake);
    case Admit(i) => AdmitWork(l, i);
    case Finish(i, ok) => FinishWork(l, i, ok);
    case Withdraw(i, wake) => WithdrawWork(l, i, wake);
    case _ =>
  }

  /** The steps of the worker and of woken puts in a run. */
  function ProgressSteps(actions: seq<Action>): nat {
    if actions == [] then 0 else (if Progress(actions[0]) then 1 else 0) + ProgressSteps(actions[1..])
  }

  /** After a stop has begun the lane makes at most this many steps, whatever is canceled meanwhile. */
  lemma {:induction false} DrainBounded(l: Lane, more: seq<Action>)
    requires !l.accepting && IsRun(l, more)
    ensures ProgressSteps(more) + Work(Run(l, more)) <= Work(l)
    decreases |more|
  {
    hide Enabled, Apply, Work;
    if more != [] {
      NoPuts(l, more[0]);
      WorkFalls(l, more[0]);
      StopStays(l, more[0]);
      DrainBounded(Apply(l, more[0]), more[1..]);
    }
  }

  lemma NoPuts(l: Lane, a: Action)
    requires !l.accepting && Enabled(l, a)
    ensures !a.Put?
  {
  }
}
