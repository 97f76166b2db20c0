/** What the event lifecycle can always still do: no task is stuck, and a terminal state settles its event. */
module LifecycleProgress {
  import opened Lifecycle
  import opened LifecycleRuns
  import opened LifecycleSteps

  // ---- no task is stuck ------------------------------------------------------------------

  /** A step that task t makes by itself, its awaits returning normally. */
  predicate OwnStep(a: Action, t: TaskId) {
    match a
    case Acquire(u) => u == t
    case Resume(u) => u == t
    case MarkDone(u, _, _) => u == t
    case PlaceDone(u, _) => u == t
    case EvictNext(u, _) => u == t
    case _ => false
  }

  /** Only a task that waits for a lock may have to wait for another task. */
  lemma RunningSteps(s: State, t: TaskId)
    requires t in s.tasks && (Waiting(s.tasks[t]) ==> s.tasks[t].lock !in s.held)
    ensures exists a: Action :: OwnStep(a, t) && Enabled(s, a)
  {
    var pc := s.tasks[t];
    var a := if Waiting(pc) then Acquire(t)
             else if pc.phase.RecordMark? then MarkDone(t, 0, true)
             else if pc.phase.RecordPlace? then PlaceDone(t, 0)
             else if pc.phase.EvictLoop? then EvictNext(t, 0)
             else Resume(t);
    assert OwnStep(a, t) && Enabled(s, a);
  }

  /** The task, or the one that holds the lock it waits for, can go on: no interleaving ends in a deadlock. */
  lemma NeverStuck(s: State, t: TaskId)
    requires Reachable(s) && t in s.tasks
    ensures exists u, a: Action :: OwnStep(a, u) && Enabled(s, a)
              && (u == t || (Waiting(s.tasks[t]) && s.tasks[t].lock in s.held && s.held[s.tasks[t].lock] == u))
  {
    hide Enabled, OwnStep, Books;
    ReachableKeeps(s);
    var pc := s.tasks[t];
    if Waiting(pc) && pc.lock in s.held { RunningSteps(s, s.held[pc.lock]); } else { RunningSteps(s, t); }
  }

  // ---- a terminal state settles its event ------------------------------------------------

  /** Nobody is in the event's section. */
  predicate SectionFree(s: State, id: Id) { id in s.locks ==> s.locks[id] !in s.held }

  /** The event is finalized as canceled or final, with nothing open, and no other event's bets have changed. */
  ghost predicate SettledAs(s: State, r: State, id: Id, canceled: bool) {
    && id in r.finalized && id in r.terminal && r.terminal[id] == (if canceled then Canceled else Final)
    && OpenOf(r, id) == 0 && forall other | other != id :: OpenOf(r, other) == OpenOf(s, other)
  }

  lemma SettleSteps(s: State, t: TaskId, id: Id, lock: Lock, canceled: bool)
    requires t in s.tasks && s.tasks[t] == Pc(FinalizeWait(canceled), id, lock) && lock !in s.held
    requires id in s.store && id in s.hasState && id !in s.finalized
    ensures var run := [Acquire(t), Resume(t), Resume(t), Resume(t)];
            IsRun(s, run) && SettledAs(s, Run(s, run), id, canceled)
  {
    hide Enabled, Apply, SettledAs;
    var s1 := At(s.(held := s.held[lock := t]), t, Pc(FinalizeCancel(canceled), id, lock));
    LockStep(s, t, id, lock, canceled);
    var s2 := At(s1, t, Pc(FinalizeWrite(canceled, true, true), id, lock));
    CancelStep(s1, t, id, lock, canceled);
    var s3 := At(s2.(open := s2.open[id := 0]), t, Pc(FinalizePersist(canceled), id, lock));
    WriteStep(s2, t, id, lock, canceled);
    PersistStep(s3, t, id, lock, canceled);
    var s4 := Apply(s3, Resume(t));
    ClosedSame(s, s3, s4, id, canceled);
    FourSteps(s, s1, s2, s3, s4, Acquire(t), Resume(t));
  }

  lemma LockStep(s: State, t: TaskId, id: Id, lock: Lock, canceled: bool)
    requires t in s.tasks && s.tasks[t] == Pc(FinalizeWait(canceled), id, lock) && lock !in s.held
    requires id !in s.finalized
    ensures Enabled(s, Acquire(t))
    ensures Apply(s, Acquire(t)) == At(s.(held := s.held[lock := t]), t, Pc(FinalizeCancel(canceled), id, lock))
  {
  }

  lemma CancelStep(s: State, t: TaskId, id: Id, lock: Lock, canceled: bool)
    requires t in s.tasks && s.tasks[t] == Pc(FinalizeCancel(canceled), id, lock)
    requires id in s.store && id in s.hasState
    ensures Enabled(s, Resume(t))
    ensures Apply(s, Resume(t)) == At(s, t, Pc(FinalizeWrite(canceled, true, true), id, lock))
  {
  }

  lemma WriteStep(s: State, t: TaskId, id: Id, lock: Lock, canceled: bool)
    requires t in s.tasks && s.tasks[t] == Pc(FinalizeWrite(canceled, true, true), id, lock)
    ensures Enabled(s, Resume(t))
    ensures Apply(s, Resume(t)) == At(s.(open := s.open[id := 0]), t, Pc(FinalizePersist(canceled), id, lock))
  {
  }

  lemma PersistStep(s: State, t: TaskId, id: Id, lock: Lock, canceled: bool)
    requires t in s.tasks && s.tasks[t] == Pc(FinalizePersist(canceled), id, lock) && OpenOf(s, id) == 0
    ensures Enabled(s, Resume(t)) && SettledAs(s, Apply(s, Resume(t)), id, canceled)
  {
    hide Removed;
  }

  /** Closing the event's own bets first makes no difference to the others. */
  lemma ClosedSame(s: State, closed: State, r: State, id: Id, canceled: bool)
    requires closed.open == s.open[id := 0] && SettledAs(closed, r, id, canceled)
    ensures SettledAs(s, r, id, canceled)
  {
  }

  lemma FourSteps(s: State, s1: State, s2: State, s3: State, s4: State, a: Action, b: Action)
    requires Enabled(s, a) && Apply(s, a) == s1 && Enabled(s1, b) && Apply(s1, b) == s2
    requires Enabled(s2, b) && Apply(s2, b) == s3 && Enabled(s3, b) && Apply(s3, b) == s4
    ensures IsRun(s, [a, b, b, b]) && Run(s, [a, b, b, b]) == s4
  {
    hide Enabled, Apply;
    assert [b][1..] == [] && [b, b][1..] == [b] && [b, b, b][1..] == [b, b] && [a, b, b, b][1..] == [b, b, b];
    assert IsRun(s4, []) && Run(s4, []) == s4;
    assert IsRun(s3, [b]) && Run(s3, [b]) == s4;
    assert IsRun(s2, [b, b]) && Run(s2, [b, b]) == s4;
    assert IsRun(s1, [b, b, b]) && Run(s1, [b, b, b]) == s4;
  }

  /** The report is recorded, and its task waits for the event's free lock. */
  lemma Told(s: State, t: TaskId, id: Id, canceled: bool) returns (told: State, next: State)
    requires Inv(s) && id in s.store && id !in s.finalized && t !in s.tasks && SectionFree(s, id)
    requires id in s.terminal ==> !s.terminal[id].Deleted?
    ensures Enabled(s, TerminalState(t, id, canceled)) && told == Apply(s, TerminalState(t, id, canceled))
    ensures Enabled(told, Resume(t)) && next == Apply(told, Resume(t)) && t in next.tasks && id in next.locks
    ensures var c := canceled || (id in s.terminal && s.terminal[id] == Canceled);
            next.tasks[t] == Pc(FinalizeWait(c), id, next.locks[id]) && next.locks[id] !in next.held
    ensures id in next.store && id in next.hasState && id !in next.finalized && next.open == s.open
  {
    hide Books;
    told := Apply(s, TerminalState(t, id, canceled));
    next := Apply(told, Resume(t));
  }

  lemma SettledSame(s: State, next: State, r: State, id: Id, canceled: bool)
    requires next.open == s.open && SettledAs(next, r, id, canceled)
    ensures SettledAs(s, r, id, canceled)
  {
  }

  lemma TwoMore(s: State, s1: State, s2: State, a: Action, b: Action, rest: seq<Action>)
    requires Enabled(s, a) && Apply(s, a) == s1 && Enabled(s1, b) && Apply(s1, b) == s2 && IsRun(s2, rest)
    ensures IsRun(s, [a, b] + rest) && Run(s, [a, b] + rest) == Run(s2, rest)
  {
    hide Enabled, Apply;
    assert ([a, b] + rest)[1..] == [b] + rest && ([b] + rest)[1..] == rest;
    assert IsRun(s1, [b] + rest);
  }

  /**
   A feed that reports the end of a tracked event can always settle it: from every reachable state in which
   the event is not finalized, not being deleted and nobody is in its section, six steps of one task do.
   */
  lemma TerminalSettles(s: State, t: TaskId, id: Id, canceled: bool)
    requires Reachable(s) && id in s.store && id !in s.finalized && t !in s.tasks && SectionFree(s, id)
    requires id in s.terminal ==> !s.terminal[id].Deleted?
    ensures var run := [TerminalState(t, id, canceled), Resume(t), Acquire(t), Resume(t), Resume(t), Resume(t)];
            var was := id in s.terminal && s.terminal[id] == Canceled;
            IsRun(s, run) && SettledAs(s, Run(s, run), id, canceled || was)
  {
    hide Books, Resumed, Acquired, SettledAs, IsRun, Run;
    ReachableKeeps(s);
    var told, next := Told(s, t, id, canceled);
    var c := canceled || (id in s.terminal && s.terminal[id] == Canceled);
    SettleSteps(next, t, id, next.locks[id], c);
    var rest := [Acquire(t), Resume(t), Resume(t), Resume(t)];
    SettledSame(s, next, Run(next, rest), id, c);
    TwoMore(s, told, next, TerminalState(t, id, canceled), Resume(t), rest);
    assert [TerminalState(t, id, canceled), Resume(t)] + rest
        == [TerminalState(t, id, canceled), Resume(t), Acquire(t), Resume(t), Resume(t), Resume(t)];
  }
}
