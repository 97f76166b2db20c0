/**
 The end of an eviction (app/main.py, _evict_finalized_overflow): it never stops because of an open
 position, and when it is through, no more finalized events are resident than are to be retained.
 */
module LifecycleEviction {
  import opened Lifecycle
  import opened LifecycleRuns
  import opened LifecycleSteps

  predicate Evicting(pc: Pc) { pc.phase.EvictLoop? || pc.phase.EvictCount? || pc.phase.EvictDecide? }

  /** The finalized events that are still in memory. */
  function Resident(s: State): set<Id> { s.store * s.finalized }

  /** They are all in the eviction order. */
  predicate Ordered(s: State) { forall id | id in Resident(s) :: id in s.order }

  lemma ResumeOrdered(s: State, t: TaskId)
    requires Ordered(s) && Enabled(s, Resume(t))
    ensures Ordered(Resumed(s, t))
  {
    hide End, Finalizing, Without, SetDefault, OpenOf, Gated;
    if s.tasks[t].phase.FinalizePersist? {
      CommitOrdered(s, t);
    } else if s.tasks[t].phase.EvictDecide? || s.tasks[t].phase.DeletePersist? {
      DropOrdered(s, t);
    } else {
      SameOrder(s, t);
    }
  }

  lemma CommitOrdered(s: State, t: TaskId)
    requires Ordered(s) && Enabled(s, Resume(t)) && s.tasks[t].phase.FinalizePersist?
    ensures Ordered(Resumed(s, t))
  {
    hide End, Finalizing, Without, SetDefault, OpenOf, Gated;
    var r, id := Resumed(s, t), s.tasks[t].id;
    forall x | x in Resident(r) ensures x in r.order {
      assert x in Removed(s.order, id) <==> x in s.order && x != id;
    }
  }

  lemma DropOrdered(s: State, t: TaskId)
    requires Ordered(s) && Enabled(s, Resume(t)) && (s.tasks[t].phase.EvictDecide? || s.tasks[t].phase.DeletePersist?)
    ensures Ordered(Resumed(s, t))
  {
    hide Finalizing, Without, SetDefault, OpenOf, Gated;
    var r, id := Resumed(s, t), s.tasks[t].id;
    forall x | x in Resident(r) ensures x in r.order {
      assert x in Removed(s.order, id) <==> x in s.order && x != id;
    }
  }

  lemma SameOrder(s: State, t: TaskId)
    requires Ordered(s) && Enabled(s, Resume(t))
    requires !(s.tasks[t].phase.FinalizePersist? || s.tasks[t].phase.EvictDecide? || s.tasks[t].phase.DeletePersist?)
    ensures Ordered(Resumed(s, t))
  {
    hide Resumed;
    match s.tasks[t].phase
    case FinalizeCancel(_) => SettlingOrder(s, t);
    case FinalizeWrite(_, _, _) => SettlingOrder(s, t);
    case EvictCount => RemovalOrder(s, t);
    case DeleteCount => RemovalOrder(s, t);
    case DeleteDecide(_) => RemovalOrder(s, t);
    case DeleteGather => RemovalOrder(s, t);
    case _ => RecordOrder(s, t);
  }

  lemma RecordOrder(s: State, t: TaskId)
    requires Enabled(s, Resume(t))
    requires s.tasks[t].phase.StateLogged? || s.tasks[t].phase.RecordScoring?
             || s.tasks[t].phase.RecordLedger? || s.tasks[t].phase.RecordPlaced?
    ensures var r := Resumed(s, t); r.store == s.store && r.finalized == s.finalized && r.order == s.order
  {
    hide Gated, End, Finalizing;
  }

  lemma SettlingOrder(s: State, t: TaskId)
    requires Enabled(s, Resume(t)) && (s.tasks[t].phase.FinalizeCancel? || s.tasks[t].phase.FinalizeWrite?)
    ensures var r := Resumed(s, t); r.store == s.store && r.finalized == s.finalized && r.order == s.order
  {
  }

  lemma RemovalOrder(s: State, t: TaskId)
    requires Enabled(s, Resume(t))
    requires s.tasks[t].phase.EvictCount? || s.tasks[t].phase.DeleteCount? || s.tasks[t].phase.DeleteDecide?
             || s.tasks[t].phase.DeleteGather?
    ensures var r := Resumed(s, t); r.store == s.store && r.finalized == s.finalized && r.order == s.order
  {
    hide SetDefault, OpenOf, Without, End;
  }

  lemma StepOrdered(s: State, a: Action)
    requires Inv(s) && Ordered(s) && Enabled(s, a)
    ensures Ordered(Apply(s, a))
  {
    hide Inv, Resumed, Without, SetDefault, OpenOf, Gated;
    RecordFacts(s);
    match a
    case AddEvent(id) => AddOrdered(s, id);
    case Resume(t) => ResumeOrdered(s, t);
    case EvictNext(t, retention) => NextOrdered(s, t, retention);
    case _ => OtherOrdered(s, a);
  }

  lemma AddOrdered(s: State, id: Id)
    requires Ordered(s) && Enabled(s, AddEvent(id)) && s.finalized <= s.added
    ensures Ordered(Apply(s, AddEvent(id)))
  {
  }

  lemma NextOrdered(s: State, t: TaskId, retention: nat)
    requires Ordered(s) && Enabled(s, EvictNext(t, retention))
    ensures Ordered(Apply(s, EvictNext(t, retention)))
  {
    hide Without;
    var r := Apply(s, EvictNext(t, retention));
    forall x | x in Resident(r) ensures x in r.order {
      assert x in s.order;
      assert |s.order| > 0 ==> s.order == [s.order[0]] + s.order[1..];
    }
  }

  lemma OtherOrdered(s: State, a: Action)
    requires Ordered(s) && Enabled(s, a) && !a.AddEvent? && !a.Resume? && !a.EvictNext?
    ensures Ordered(Apply(s, a))
  {
    hide Without, SetDefault, OpenOf, Gated, End, Finalizing, Acquired, Resumed;
  }

  lemma {:induction false} RunOrdered(s: State, actions: seq<Action>)
    requires Inv(s) && Ordered(s) && IsRun(s, actions)
    ensures Ordered(Run(s, actions))
    decreases |actions|
  {
    hide Inv, Ordered, Enabled, Apply;
    if actions != [] {
      ApplyKeeps(s, actions[0]);
      StepOrdered(s, actions[0]);
      RunOrdered(Apply(s, actions[0]), actions[1..]);
    }
  }

  lemma ReachableOrdered(s: State)
    requires Reachable(s)
    ensures Inv(s) && Ordered(s)
  {
    hide IsRun, Run, Inv;
    var restored, open, actions :|
      IsRun(Initial(restored, open), actions) && Run(Initial(restored, open), actions) == s;
    InitialHolds(restored, open);
    RunKeeps(Initial(restored, open), actions);
    RunOrdered(Initial(restored, open), actions);
  }

  /** The stop at an open position is dead: a finalized event has none when they are counted. */
  lemma EvictionNeverBreaks(s: State, t: TaskId)
    requires Reachable(s) && t in s.tasks && s.tasks[t].phase.EvictDecide?
    ensures s.tasks[t].phase.count == 0
    ensures s.tasks[t].id !in Resumed(s, t).store && t in Resumed(s, t).tasks
  {
    hide Reachable;
    ReachableOrdered(s);
    Facts(s, t);
  }

  lemma {:induction false} SmallerSet(small: set<Id>, order: seq<Id>)
    requires forall x | x in small :: x in order
    ensures |small| <= |order|
    decreases |order|
  {
    if order == [] {
      assert small == {};
    } else {
      var rest := small - {order[0]};
      assert order == [order[0]] + order[1..];
      SmallerSet(rest, order[1..]);
      assert small <= rest + {order[0]};
      SubsetSize(small, rest + {order[0]});
    }
  }

  lemma {:induction false} SubsetSize(a: set<Id>, b: set<Id>)
    requires a <= b
    ensures |a| <= |b|
    decreases |a|
  {
    if a != {} {
      var x :| x in a;
      SubsetSize(a - {x}, b - {x});
    }
  }

  /**
   An eviction that is neither canceled nor fails only ends with at most `retention` finalized events in
   memory, because it is through with the rest.
   */
  lemma EvictionBounds(s: State, a: Action, t: TaskId)
    requires Reachable(s) && Enabled(s, a) && t in s.tasks && Evicting(s.tasks[t]) && t !in Apply(s, a).tasks
    requires !(a.Fail? && a.t == t) && !(a.CancelFeed? && a.victim == t)
    ensures a.EvictNext? && a.t == t && |Resident(Apply(s, a))| <= a.retention
  {
    hide Reachable, Apply, Enabled, Inv;
    ReachableOrdered(s);
    KnowsFacts(s, t);
    EndsInLoop(s, a, t);
    SmallerSet(Resident(s), s.order);
  }

  lemma ResumeLeaves(s: State, u: TaskId, t: TaskId)
    requires Enabled(s, Resume(u)) && t in s.tasks && u != t
    ensures t in Resumed(s, u).tasks
  {
    hide Resumed;
    match s.tasks[u].phase
    case StateLogged(c) =>
      LoggedStep(s, u);
      FinalizingLeaves(s, u, t, s.tasks[u].id, c);
    case RecordScoring => RecordLeaves(s, u, t);
    case RecordLedger(_) => RecordLeaves(s, u, t);
    case RecordPlaced => RecordLeaves(s, u, t);
    case FinalizeCancel(_) => FinalizeLeaves(s, u, t);
    case FinalizeWrite(_, _, _) => FinalizeLeaves(s, u, t);
    case FinalizePersist(_) => FinalizeLeaves(s, u, t);
    case _ => RemovalLeaves(s, u, t);
  }

  lemma LoggedStep(s: State, u: TaskId)
    requires Enabled(s, Resume(u)) && s.tasks[u].phase.StateLogged?
    ensures Resumed(s, u) == Finalizing(s, u, s.tasks[u].id, s.tasks[u].phase.canceled)
  {
    hide Finalizing;
  }

  lemma RecordLeaves(s: State, u: TaskId, t: TaskId)
    requires Enabled(s, Resume(u)) && t in s.tasks && u != t
    requires s.tasks[u].phase.RecordScoring? || s.tasks[u].phase.RecordLedger? || s.tasks[u].phase.RecordPlaced?
    ensures t in Resumed(s, u).tasks
  {
    hide Gated, Without, End;
  }

  lemma FinalizeLeaves(s: State, u: TaskId, t: TaskId)
    requires Enabled(s, Resume(u)) && t in s.tasks && u != t
    requires s.tasks[u].phase.FinalizeCancel? || s.tasks[u].phase.FinalizeWrite? || s.tasks[u].phase.FinalizePersist?
    ensures t in Resumed(s, u).tasks
  {
    hide Without, Release, Removed, OpenOf;
  }

  lemma RemovalLeaves(s: State, u: TaskId, t: TaskId)
    requires Enabled(s, Resume(u)) && t in s.tasks && u != t
    requires s.tasks[u].phase.EvictCount? || s.tasks[u].phase.EvictDecide? || s.tasks[u].phase.DeleteCount?
             || s.tasks[u].phase.DeleteDecide? || s.tasks[u].phase.DeletePersist? || s.tasks[u].phase.DeleteGather?
    ensures t in Resumed(s, u).tasks
  {
    hide SetDefault, OpenOf, Removed, Without, End, Release;
  }

  lemma FinalizingLeaves(s: State, u: TaskId, t: TaskId, id: Id, canceled: bool)
    requires (u in s.tasks ==> !Holds(s.tasks[u])) && t in s.tasks && u != t
    ensures t in Finalizing(s, u, id, canceled).tasks
  {
    hide SetDefault;
  }

  lemma AcquireLeaves(s: State, u: TaskId, t: TaskId)
    requires Enabled(s, Acquire(u)) && t in s.tasks && u != t
    ensures t in Acquired(s, u).tasks
  {
    hide Gated, Without, End;
  }

  lemma ResumeStays(s: State, t: TaskId)
    requires Enabled(s, Resume(t)) && Evicting(s.tasks[t])
    requires s.tasks[t].phase.EvictDecide? ==> s.tasks[t].phase.count == 0
    ensures t in Resumed(s, t).tasks
  {
    hide SetDefault, OpenOf, Gated, Removed, Without, Finalizing;
  }

  lemma OtherLeaves(s: State, a: Action, t: TaskId)
    requires Enabled(s, a) && t in s.tasks && Evicting(s.tasks[t]) && !a.Resume? && !a.Acquire?
    requires !(a.Fail? && a.t == t) && !(a.CancelFeed? && a.victim == t) && !(a.EvictNext? && a.t == t)
    ensures t in Apply(s, a).tasks
  {
    hide SetDefault, OpenOf, Gated, Removed, Resumed, Acquired, End, Finalizing, Without;
    if a.CancelStatus? {
      FinalizingLeaves(s.(terminal := SetDefault(s.terminal, a.id, Canceled)), a.t, t, a.id, true);
    }
  }

  lemma NextEnds(s: State, t: TaskId, retention: nat)
    requires Enabled(s, EvictNext(t, retention)) && t !in Apply(s, EvictNext(t, retention)).tasks
    ensures var r := Apply(s, EvictNext(t, retention));
            |s.order| <= retention && r.store == s.store && r.finalized == s.finalized
  {
    hide Without;
  }

  lemma EndsInLoop(s: State, a: Action, t: TaskId)
    requires Enabled(s, a) && t in s.tasks && Evicting(s.tasks[t]) && t !in Apply(s, a).tasks
    requires s.tasks[t].phase.EvictDecide? ==> s.tasks[t].phase.count == 0
    requires !(a.Fail? && a.t == t) && !(a.CancelFeed? && a.victim == t)
    ensures a.EvictNext? && a.t == t && |s.order| <= a.retention
    ensures Resident(Apply(s, a)) == Resident(s)
  {
    hide Resumed, Acquired, SetDefault, OpenOf, Gated, Removed, Without, End, Finalizing, Release;
    if a.Resume? {
      if a.t == t { ResumeStays(s, t); } else { ResumeLeaves(s, a.t, t); }
    } else if a.Acquire? {
      AcquireLeaves(s, a.t, t);
    } else if a.EvictNext? && a.t == t {
      NextEnds(s, t, a.retention);
    } else {
      OtherLeaves(s, a, t);
    }
  }
}
