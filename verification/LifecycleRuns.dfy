/** What the event lifecycle guarantees over whole runs, and what it does not. */
module LifecycleRuns {
  import opened Lifecycle
  import opened LifecycleSteps

  // ---- whole runs ------------------------------------------------------------------------

  /** The process after its start-up: the restored events are tracked, whatever bets they have. */
  function Initial(restored: set<Id>, open: map<Id, nat>): State {
    State(restored, restored, {}, map[], {}, [], map[], 0, map[], map[], open, {})
  }

  predicate IsRun(s: State, actions: seq<Action>)
    decreases |actions|
  {
    actions == [] || (Enabled(s, actions[0]) && IsRun(Apply(s, actions[0]), actions[1..]))
  }

  function Run(s: State, actions: seq<Action>): State
    requires IsRun(s, actions)
    decreases |actions|
  {
    if actions == [] then s else Run(Apply(s, actions[0]), actions[1..])
  }

  lemma InitialHolds(restored: set<Id>, open: map<Id, nat>)
    ensures Inv(Initial(restored, open))
  {
  }

  lemma {:induction false} RunKeeps(s: State, actions: seq<Action>)
    requires Inv(s) && IsRun(s, actions)
    ensures Inv(Run(s, actions))
    decreases |actions|
  {
    hide Inv, Enabled, Apply;
    if actions != [] {
      ApplyKeeps(s, actions[0]);
      RunKeeps(Apply(s, actions[0]), actions[1..]);
    }
  }

  lemma OverStaysRecord(s: State, t: TaskId, id: Id)
    requires Enabled(s, Resume(t)) && Over(s, id)
    requires s.tasks[t].phase.StateLogged? || s.tasks[t].phase.RecordScoring?
             || s.tasks[t].phase.RecordLedger? || s.tasks[t].phase.RecordPlaced?
    ensures Over(Resumed(s, t), id)
  {
    hide End, Finalizing, Release, Without, SetDefault, Removed, OpenOf;
  }

  lemma OverStaysFinalize(s: State, t: TaskId, id: Id)
    requires Enabled(s, Resume(t)) && Over(s, id)
    requires s.tasks[t].phase.FinalizeCancel? || s.tasks[t].phase.FinalizeWrite? || s.tasks[t].phase.FinalizePersist?
    ensures Over(Resumed(s, t), id)
  {
    hide End, Finalizing, Release, Without, SetDefault, Removed, OpenOf;
  }

  lemma OverStaysRemove(s: State, t: TaskId, id: Id)
    requires Enabled(s, Resume(t)) && Over(s, id)
    requires s.tasks[t].phase.EvictCount? || s.tasks[t].phase.EvictDecide? || s.tasks[t].phase.DeletePersist?
    ensures Over(Resumed(s, t), id)
  {
    hide End, Finalizing, Release, Without, SetDefault, Removed, OpenOf;
  }

  lemma OverStaysDelete(s: State, t: TaskId, id: Id)
    requires Enabled(s, Resume(t)) && Over(s, id)
    requires s.tasks[t].phase.DeleteCount? || s.tasks[t].phase.DeleteDecide? || s.tasks[t].phase.DeleteGather?
    ensures Over(Resumed(s, t), id)
  {
    hide End, Finalizing, Release, Without, SetDefault, Removed, OpenOf;
  }

  lemma OverStaysResumed(s: State, t: TaskId, id: Id)
    requires Enabled(s, Resume(t)) && Over(s, id)
    ensures Over(Resumed(s, t), id)
  {
    hide Resumed, Over;
    match s.tasks[t].phase
    case FinalizeCancel(_) => OverStaysFinalize(s, t, id);
    case FinalizeWrite(_, _, _) => OverStaysFinalize(s, t, id);
    case FinalizePersist(_) => OverStaysFinalize(s, t, id);
    case EvictCount => OverStaysRemove(s, t, id);
    case EvictDecide(_) => OverStaysRemove(s, t, id);
    case DeletePersist => OverStaysRemove(s, t, id);
    case DeleteCount => OverStaysDelete(s, t, id);
    case DeleteDecide(_) => OverStaysDelete(s, t, id);
    case DeleteGather => OverStaysDelete(s, t, id);
    case _ => OverStaysRecord(s, t, id);
  }

  lemma OverStays(s: State, a: Action, id: Id)
    requires Enabled(s, a) && Over(s, id)
    ensures Over(Apply(s, a), id)
  {
    hide End, Finalizing, Acquired, Resumed, Without, SetDefault, Removed, OpenOf;
    if a.Resume? {
      OverStaysResumed(s, a.t, id);
    }
  }

  /**
   Safety of the protocol: once an event is finalized it has no open bet, nobody is entering one, and
   no interleaving of any length ever opens one again, not even after the event is evicted or deleted.
   */
  lemma {:induction false} FinalizedStaysClosed(s: State, actions: seq<Action>, id: Id)
    requires Inv(s) && IsRun(s, actions) && Over(s, id)
    ensures OpenOf(Run(s, actions), id) == 0
    ensures forall t | t in Run(s, actions).tasks && Entering(Run(s, actions).tasks[t]) ::
              Run(s, actions).tasks[t].id != id
    decreases |actions|
  {
    hide Inv, Enabled, Apply;
    if actions == [] {
      NoEntryFinalized(s, id);
    } else {
      ApplyKeeps(s, actions[0]);
      OverStays(s, actions[0], id);
      FinalizedStaysClosed(Apply(s, actions[0]), actions[1..], id);
    }
  }

  /** Some run from some start-up ends here. */
  ghost predicate Reachable(s: State) {
    exists restored, open, actions | IsRun(Initial(restored, open), actions) ::
      Run(Initial(restored, open), actions) == s
  }

  lemma ReachableKeeps(s: State)
    requires Reachable(s)
    ensures Inv(s)
  {
    hide Inv, Enabled, Apply, Run, IsRun, Initial;
    var restored, open, actions :|
      IsRun(Initial(restored, open), actions) && Run(Initial(restored, open), actions) == s;
    InitialHolds(restored, open);
    RunKeeps(Initial(restored, open), actions);
  }

  lemma FinalizedHasNoBets(s: State, after: seq<Action>, id: Id)
    requires Reachable(s) && id in s.finalized && IsRun(s, after)
    ensures OpenOf(Run(s, after), id) == 0
  {
    hide Inv, Enabled, Apply, OpenOf;
    ReachableKeeps(s);
    FinalizedAdded(s);
    FinalizedStaysClosed(s, after, id);
  }

  lemma FinalizedAdded(s: State)
    requires Inv(s)
    ensures s.finalized <= s.added
  {
  }

  /** What an entry rests on: the event's current lock, its presence in the store, and no finalization. */
  lemma EntryNeeds(s: State, a: Action, id: Id)
    requires Inv(s) && Enabled(s, a) && OpenOf(Apply(s, a), id) > OpenOf(s, id)
    ensures a.PlaceDone? && s.tasks[a.t].id == id && id in s.store && id !in s.finalized
    ensures id in s.locks && s.locks[id] in s.held && s.held[s.locks[id]] == a.t
  {
    hide Inv, Apply, Enabled, OpenOf;
    OnlyPlacing(s, a, id);
    EntryLock(s, a.t);
  }

  lemma OnlyPlacing(s: State, a: Action, id: Id)
    requires Inv(s) && Enabled(s, a) && OpenOf(Apply(s, a), id) > OpenOf(s, id)
    ensures a.PlaceDone? && a.t in s.tasks && s.tasks[a.t].phase.RecordPlace? && s.tasks[a.t].id == id
  {
    hide Inv, End, Finalizing, Release, Acquired, Resumed, Without, SetDefault, Removed;
    RecordFacts(s);
    if a.Resume? { ResumeOpen(s, a.t, id); }
  }

  lemma ResumeOpen(s: State, t: TaskId, id: Id)
    requires Enabled(s, Resume(t))
    ensures OpenOf(Resumed(s, t), id) <= OpenOf(s, id)
  {
    hide Resumed;
    if s.tasks[t].phase.FinalizeWrite? { WriteOpen(s, t, id); } else { ResumeKeepsOpen(s, t); }
  }

  lemma ResumeKeepsOpen(s: State, t: TaskId)
    requires Enabled(s, Resume(t)) && !s.tasks[t].phase.FinalizeWrite?
    ensures Resumed(s, t).open == s.open
  {
    hide End, Finalizing, Release, Without, SetDefault, Removed, Gated;
  }

  lemma WriteOpen(s: State, t: TaskId, id: Id)
    requires Enabled(s, Resume(t)) && s.tasks[t].phase.FinalizeWrite?
    ensures OpenOf(Resumed(s, t), id) <= OpenOf(s, id)
  {
    hide End, Finalizing, Release, Without, SetDefault, Removed, Gated;
  }

  lemma EntryLock(s: State, t: TaskId)
    requires Inv(s) && t in s.tasks && Entering(s.tasks[t])
    ensures var id := s.tasks[t].id;
            && id in s.store && id !in s.finalized && id in s.locks
            && s.locks[id] in s.held && s.held[s.locks[id]] == t
  {
    Facts(s, t);
    assert LockOk(s, t, s.tasks[t]);
  }

  // ---- the terminal flag alone -----------------------------------------------------------

  /** A record of the event is past its last look at the terminal flag. */
  predicate Committed(pc: Pc, id: Id) { (pc.phase.RecordMark? || pc.phase.RecordPlace?) && pc.id == id }

  predicate Quiet(s: State, id: Id) { forall t | t in s.tasks :: !Committed(s.tasks[t], id) }

  lemma CommitOther(s: State, a: Action, t: TaskId, id: Id)
    requires Enabled(s, a) && (t in s.tasks ==> !Committed(s.tasks[t], id))
    requires a.TerminalState? || a.CancelStatus? || a.StartRecord? || a.StartDelete? || a.EvictNext?
    ensures t in Apply(s, a).tasks ==> !Committed(Apply(s, a).tasks[t], id)
  {
    hide End, Finalizing, SetDefault, Removed, OpenOf;
  }

  lemma CommitEnd(s: State, a: Action, t: TaskId, id: Id)
    requires Enabled(s, a) && (t in s.tasks ==> !Committed(s.tasks[t], id))
    requires a.MarkDone? || a.PlaceDone? || a.WriteFailed? || a.Fail? || a.CancelFeed?
    ensures t in Apply(s, a).tasks ==> !Committed(Apply(s, a).tasks[t], id)
  {
    hide End, Without, OpenOf;
  }

  lemma CommitAcquired(s: State, u: TaskId, t: TaskId, id: Id)
    requires Enabled(s, Acquire(u)) && (t in s.tasks ==> !Committed(s.tasks[t], id))
    ensures t in Acquired(s, u).tasks ==> !Committed(Acquired(s, u).tasks[t], id)
  {
    hide End, Gated;
  }

  /** The only step past the last check is made by a record that finds the flag down. */
  lemma CommitStep(s: State, a: Action, t: TaskId, id: Id)
    requires Enabled(s, a) && t in Apply(s, a).tasks && Committed(Apply(s, a).tasks[t], id)
    requires t in s.tasks ==> !Committed(s.tasks[t], id)
    ensures !Gated(s, id)
  {
    hide Committed, Resumed, Acquired, Gated, End, WithLock, Finalizing, SetDefault, OpenOf;
    if a.Resume? {
      CommitResumed(s, a.t, t, id);
    } else if a.Acquire? {
      CommitAcquired(s, a.t, t, id);
    } else if a.MarkDone? || a.PlaceDone? || a.WriteFailed? || a.Fail? || a.CancelFeed? {
      CommitEnd(s, a, t, id);
    } else if a.TerminalState? || a.CancelStatus? || a.StartRecord? || a.StartDelete? || a.EvictNext? {
      CommitOther(s, a, t, id);
    }
  }

  lemma CommitResumed(s: State, u: TaskId, t: TaskId, id: Id)
    requires Enabled(s, Resume(u)) && t in Resumed(s, u).tasks && Committed(Resumed(s, u).tasks[t], id)
    requires t in s.tasks ==> !Committed(s.tasks[t], id)
    ensures !Gated(s, id)
  {
    hide Resumed, Gated;
  }

  /** Under a raised flag a quiet event stays quiet, and its open bets can only go down. */
  lemma QuietStays(s: State, a: Action, id: Id)
    requires Inv(s) && Enabled(s, a) && Quiet(s, id) && id in s.terminal
    ensures Quiet(Apply(s, a), id) && OpenOf(Apply(s, a), id) <= OpenOf(s, id)
  {
    hide Inv, Apply, Enabled, OpenOf;
    forall t | t in Apply(s, a).tasks ensures !Committed(Apply(s, a).tasks[t], id) {
      if Committed(Apply(s, a).tasks[t], id) { CommitStep(s, a, t, id); }
    }
    if OpenOf(Apply(s, a), id) > OpenOf(s, id) { PlacesCommitted(s, a, id); }
  }

  lemma PlacesCommitted(s: State, a: Action, id: Id)
    requires Inv(s) && Enabled(s, a) && OpenOf(Apply(s, a), id) > OpenOf(s, id)
    ensures a.PlaceDone? && a.t in s.tasks && Committed(s.tasks[a.t], id)
  {
    hide Inv, OpenOf;
    OnlyPlacing(s, a, id);
  }

  /** The event is flagged before every action of the run. */
  predicate StaysFlagged(s: State, actions: seq<Action>, id: Id)
    requires IsRun(s, actions)
    decreases |actions|
  {
    id in s.terminal && (actions != [] ==> StaysFlagged(Apply(s, actions[0]), actions[1..], id))
  }

  lemma {:induction false} QuietRun(s: State, actions: seq<Action>, id: Id)
    requires Inv(s) && IsRun(s, actions) && StaysFlagged(s, actions, id) && Quiet(s, id)
    ensures OpenOf(Run(s, actions), id) <= OpenOf(s, id)
    decreases |actions|
  {
    hide Inv, Apply, Enabled, OpenOf, Quiet;
    if actions != [] {
      ApplyKeeps(s, actions[0]);
      QuietStays(s, actions[0], id);
      QuietRun(Apply(s, actions[0]), actions[1..], id);
    }
  }

  /** Some continuation opens a bet while the flag is up throughout. */
  ghost predicate CanGain(s: State, id: Id) {
    exists actions | IsRun(s, actions) ::
      StaysFlagged(s, actions, id) && OpenOf(Run(s, actions), id) > OpenOf(s, id)
  }

  lemma PlaceGains(s: State, t: TaskId, id: Id)
    requires t in s.tasks && s.tasks[t].phase.RecordPlace? && s.tasks[t].id == id && id in s.terminal
    ensures IsRun(s, [PlaceDone(t, 1)]) && StaysFlagged(s, [PlaceDone(t, 1)], id)
    ensures OpenOf(Run(s, [PlaceDone(t, 1)]), id) == OpenOf(s, id) + 1
  {
    hide Resumed, Acquired, Finalizing, End;
    var place := PlaceDone(t, 1);
    assert [place][1..] == [];
    assert IsRun(Apply(s, place), []) && Run(Apply(s, place), []) == Apply(s, place);
    assert StaysFlagged(Apply(s, place), [], id);
  }

  lemma MarkGains(s: State, t: TaskId, id: Id)
    requires t in s.tasks && s.tasks[t].phase.RecordMark? && s.tasks[t].id == id && id in s.terminal
    ensures CanGain(s, id)
  {
    hide Resumed, Acquired, Finalizing, End;
    var mark := MarkDone(t, 0, true);
    assert Enabled(s, mark);
    var marked := Apply(s, mark);
    assert OpenOf(marked, id) == OpenOf(s, id);
    PlaceGains(marked, t, id);
    var all := [mark, PlaceDone(t, 1)];
    assert all[1..] == [PlaceDone(t, 1)];
    assert IsRun(s, all) && StaysFlagged(s, all, id) && Run(s, all) == Run(marked, all[1..]);
  }

  lemma CommittedGains(s: State, t: TaskId, id: Id)
    requires t in s.tasks && Committed(s.tasks[t], id) && id in s.terminal
    ensures CanGain(s, id)
  {
    hide IsRun, Run, StaysFlagged;
    if s.tasks[t].phase.RecordPlace? { PlaceGains(s, t, id); } else { MarkGains(s, t, id); }
  }

  /**
   The comment on the last check promises that no entry begins after the flag. The exact statement:
   a flagged event can still gain a bet if and only if some record had passed that check.
   */
  lemma FlagStopsEntriesExactly(s: State, id: Id)
    requires Inv(s) && id in s.terminal
    ensures CanGain(s, id) <==> !Quiet(s, id)
  {
    hide Inv, Apply, Enabled, OpenOf;
    if Quiet(s, id) {
      forall actions | IsRun(s, actions) && StaysFlagged(s, actions, id)
        ensures OpenOf(Run(s, actions), id) <= OpenOf(s, id)
      {
        QuietRun(s, actions, id);
      }
    } else {
      var t :| t in s.tasks && Committed(s.tasks[t], id);
      CommittedGains(s, t, id);
    }
  }
}
