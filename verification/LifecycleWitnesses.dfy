/** Two reachable states that show what the guarantees of the event lifecycle do not rest on. */
module LifecycleWitnesses {
  import opened Lifecycle
  import opened LifecycleRuns
  import opened LifecycleSteps

  lemma {:induction false} RunExtends(s: State, actions: seq<Action>, a: Action)
    requires IsRun(s, actions) && Enabled(Run(s, actions), a)
    ensures IsRun(s, actions + [a]) && Run(s, actions + [a]) == Apply(Run(s, actions), a)
    decreases |actions|
  {
    hide Enabled, Apply;
    var all := actions + [a];
    if actions == [] {
      assert all == [a] && all[1..] == [];
      assert IsRun(Apply(s, a), []);
    } else {
      assert all[0] == actions[0] && all[1..] == actions[1..] + [a];
      RunExtends(Apply(s, actions[0]), actions[1..], a);
    }
  }

  lemma ReachableStep(s: State, a: Action)
    requires Reachable(s) && Enabled(s, a)
    ensures Reachable(Apply(s, a))
  {
    hide Enabled, Apply, Run, IsRun, Initial;
    var restored, open, actions :|
      IsRun(Initial(restored, open), actions) && Run(Initial(restored, open), actions) == s;
    RunExtends(Initial(restored, open), actions, a);
  }

  lemma ReachableStart(restored: set<Id>, open: map<Id, nat>)
    ensures Reachable(Initial(restored, open))
  {
    assert IsRun(Initial(restored, open), []) && Run(Initial(restored, open), []) == Initial(restored, open);
  }

  /** With its gate open, a record that has its free lock goes on to score. */
  lemma AcquireStep(s: State, t: TaskId, id: Id, lock: Lock)
    requires t in s.tasks && s.tasks[t] == Pc(RecordWait, id, lock) && lock !in s.held && !Gated(s, id)
    ensures Enabled(s, Acquire(t))
    ensures Apply(s, Acquire(t)) == At(s.(held := s.held[lock := t]), t, Pc(RecordScoring, id, lock))
  {
  }

  lemma ScoringStep(s: State, t: TaskId, id: Id, lock: Lock)
    requires t in s.tasks && s.tasks[t] == Pc(RecordScoring, id, lock) && !Gated(s, id)
    ensures Enabled(s, Resume(t)) && Apply(s, Resume(t)) == At(s, t, Pc(RecordLedger(id in s.store), id, lock))
  {
  }

  lemma LedgerStep(s: State, t: TaskId, id: Id, lock: Lock)
    requires t in s.tasks && s.tasks[t] == Pc(RecordLedger(true), id, lock) && !Gated(s, id)
    ensures Enabled(s, Resume(t)) && Apply(s, Resume(t)) == At(s, t, Pc(RecordMark, id, lock))
  {
  }

  /** A record that waits for the free lock of a tracked event with an open gate reaches the mark. */
  lemma RecordReaches(s: State, t: TaskId, id: Id, lock: Lock) returns (marking: State)
    requires Reachable(s) && t in s.tasks && s.tasks[t] == Pc(RecordWait, id, lock) && lock !in s.held
    requires id in s.store && !Gated(s, id)
    ensures Reachable(marking) && marking == At(s.(held := s.held[lock := t]), t, Pc(RecordMark, id, lock))
  {
    hide Reachable, Apply, Enabled;
    AcquireStep(s, t, id, lock);
    ReachableStep(s, Acquire(t));
    var scoring := At(s.(held := s.held[lock := t]), t, Pc(RecordScoring, id, lock));
    ScoringStep(scoring, t, id, lock);
    ReachableStep(scoring, Resume(t));
    var ledger := At(scoring, t, Pc(RecordLedger(true), id, lock));
    LedgerStep(ledger, t, id, lock);
    ReachableStep(ledger, Resume(t));
    marking := At(ledger, t, Pc(RecordMark, id, lock));
    assert marking.tasks == s.tasks[t := Pc(RecordMark, id, lock)];
  }

  /**
   The comment is false as it stands: the flag can rise during the mark, after the last check, and the
   entry then begins and places a bet under a raised flag.
   */
  lemma EntryAfterFlag(id: Id)
    ensures exists s | Reachable(s) :: id in s.terminal && OpenOf(s, id) == 0 && CanGain(s, id)
  {
    hide Reachable, CanGain;
    var start := Initial({id}, map[]);
    ReachableStart({id}, map[]);
    ReachableStep(start, StartRecord(1, id));
    var marking := RecordReaches(Apply(start, StartRecord(1, id)), 1, id, 0);
    var flag := Flag(id, Final);
    ReachableStep(marking, flag);
    var flagged := Apply(marking, flag);
    assert flagged.tasks[1] == marking.tasks[1];
    CommittedGains(flagged, 1, id);
    assert Reachable(flagged) && id in flagged.terminal && OpenOf(flagged, id) == 0 && CanGain(flagged, id);
  }

  lemma DeleteAcquires(s: State, t: TaskId, id: Id, lock: Lock)
    requires t in s.tasks && s.tasks[t] == Pc(DeleteWait, id, lock) && lock !in s.held && id in s.store
    ensures Enabled(s, Acquire(t))
    ensures Apply(s, Acquire(t)) == At(s.(held := s.held[lock := t]), t, Pc(DeleteCount, id, lock))
  {
  }

  lemma DeleteCounts(s: State, t: TaskId, id: Id, lock: Lock)
    requires t in s.tasks && s.tasks[t] == Pc(DeleteCount, id, lock)
    ensures Enabled(s, Resume(t)) && Apply(s, Resume(t)) == At(s, t, Pc(DeleteDecide(OpenOf(s, id)), id, lock))
  {
  }

  lemma DeleteDecides(s: State, t: TaskId, id: Id, lock: Lock)
    requires t in s.tasks && s.tasks[t] == Pc(DeleteDecide(0), id, lock)
    ensures Enabled(s, Resume(t))
    ensures Apply(s, Resume(t)) ==
            At(s.(terminal := SetDefault(s.terminal, id, Deleted)), t, Pc(DeletePersist, id, lock))
  {
  }

  lemma DeleteReleases(s: State, t: TaskId, id: Id, lock: Lock)
    requires t in s.tasks && s.tasks[t] == Pc(DeletePersist, id, lock)
    ensures Enabled(s, Resume(t))
    ensures Apply(s, Resume(t)) ==
            Release(Drop(s, id).(finalized := s.finalized - {id}), t, Pc(DeleteGather, id, 0))
  {
  }

  lemma DeleteEnds(s: State, t: TaskId, id: Id)
    requires t in s.tasks && s.tasks[t] == Pc(DeleteGather, id, 0)
    ensures Enabled(s, Resume(t))
    ensures Apply(s, Resume(t)) ==
            End(s.(terminal := Without(s.terminal, id), locks := Without(s.locks, id)), t)
  {
  }

  /** A deletion that gets its free lock and finds nothing open raises its flag. */
  lemma DeletionFlags(s: State, t: TaskId, id: Id, lock: Lock) returns (dropping: State)
    requires Reachable(s) && t in s.tasks && s.tasks[t] == Pc(DeleteWait, id, lock) && lock !in s.held
    requires id in s.store && OpenOf(s, id) == 0
    ensures Reachable(dropping)
    ensures dropping == At(s.(terminal := SetDefault(s.terminal, id, Deleted), held := s.held[lock := t]),
                           t, Pc(DeletePersist, id, lock))
  {
    hide Reachable, Apply, Enabled, SetDefault;
    DeleteAcquires(s, t, id, lock);
    ReachableStep(s, Acquire(t));
    var counting := At(s.(held := s.held[lock := t]), t, Pc(DeleteCount, id, lock));
    DeleteCounts(counting, t, id, lock);
    ReachableStep(counting, Resume(t));
    var deciding := At(counting, t, Pc(DeleteDecide(0), id, lock));
    DeleteDecides(deciding, t, id, lock);
    ReachableStep(deciding, Resume(t));
    dropping := At(deciding.(terminal := SetDefault(s.terminal, id, Deleted)), t, Pc(DeletePersist, id, lock));
    assert dropping.tasks == s.tasks[t := Pc(DeletePersist, id, lock)];
  }

  /** It then takes the event, its flag and its lock out of the dictionaries. */
  lemma DeletionDrops(s: State, t: TaskId, id: Id, lock: Lock) returns (gone: State)
    requires Reachable(s) && t in s.tasks && s.tasks[t] == Pc(DeletePersist, id, lock)
    ensures Reachable(gone) && gone.nextLock == s.nextLock
    ensures gone.tasks == Without(s.tasks, t) && gone.held == Without(s.held, lock)
    ensures id !in gone.terminal && id !in gone.locks && id !in gone.finalized
  {
    hide Reachable, Apply, Enabled, Removed;
    DeleteReleases(s, t, id, lock);
    ReachableStep(s, Resume(t));
    var gathering := Release(Drop(s, id).(finalized := s.finalized - {id}), t, Pc(DeleteGather, id, 0));
    DeleteEnds(gathering, t, id);
    ReachableStep(gathering, Resume(t));
    gone := End(gathering.(terminal := Without(gathering.terminal, id), locks := Without(gathering.locks, id)), t);
    assert gone.tasks == Without(s.tasks, t);
  }

  /** Two tasks are inside the locked section of the same event. */
  ghost predicate TwoHolders(s: State, id: Id) {
    exists t, u | t in s.tasks && u in s.tasks ::
      t != u && Holds(s.tasks[t]) && Holds(s.tasks[u]) && s.tasks[t].id == id && s.tasks[u].id == id
  }

  lemma TrackedOneHolder(s: State, id: Id)
    requires Reachable(s) && id in s.store
    ensures !TwoHolders(s, id)
  {
    hide Reachable, Locks, Books;
    ReachableKeeps(s);
    if TwoHolders(s, id) {
      var t, u :| t in s.tasks && u in s.tasks && t != u && Holds(s.tasks[t]) && Holds(s.tasks[u])
                  && s.tasks[t].id == id && s.tasks[u].id == id;
      Exclusive(s, t, u);
    }
  }

  /**
   Popping the lock does let two tasks into the section of one event: one still waits on the old lock
   while another creates a new one. Only the event's absence from the store keeps them harmless.
   */
  lemma LockNotExclusive(id: Id)
    ensures exists s | Reachable(s) :: TwoHolders(s, id)
  {
    hide Reachable, Apply, Enabled, Acquired, Resumed;
    var start := Initial({id}, map[]);
    ReachableStart({id}, map[]);
    var waiting := TwoWait(start, id);
    var dropping := DeletionFlags(waiting, 1, id, 0);
    var gone := DeletionDrops(dropping, 1, id, 0);
    AcquireStep(gone, 2, id, 0);
    ReachableStep(gone, Acquire(2));
    var first := At(gone.(held := gone.held[0 := 2]), 2, Pc(RecordScoring, id, 0));
    RecordStarts(first, 3, id);
    ReachableStep(first, StartRecord(3, id));
    var both := Apply(first, StartRecord(3, id));
    AcquireStep(both, 3, id, 1);
    ReachableStep(both, Acquire(3));
    var last := At(both.(held := both.held[1 := 3]), 3, Pc(RecordScoring, id, 1));
    assert 2 in last.tasks && 3 in last.tasks && TwoHolders(last, id);
  }

  lemma RecordStarts(s: State, t: TaskId, id: Id)
    requires t !in s.tasks && id !in s.locks
    ensures Enabled(s, StartRecord(t, id))
    ensures Apply(s, StartRecord(t, id)) ==
            At(s.(locks := s.locks[id := s.nextLock], nextLock := s.nextLock + 1), t, Pc(RecordWait, id, s.nextLock))
  {
  }

  /** A deletion and a record both wait for the first lock of a fresh event. */
  lemma TwoWait(s: State, id: Id) returns (waiting: State)
    requires Reachable(s) && s == Initial({id}, map[])
    ensures Reachable(waiting) && waiting.tasks == map[1 := Pc(DeleteWait, id, 0), 2 := Pc(RecordWait, id, 0)]
    ensures id in waiting.store && OpenOf(waiting, id) == 0 && waiting.held == map[] && waiting.nextLock == 1
  {
    hide Reachable, Acquired, Resumed;
    ReachableStep(s, StartDelete(1, id));
    var one := Apply(s, StartDelete(1, id));
    ReachableStep(one, StartRecord(2, id));
    waiting := Apply(one, StartRecord(2, id));
  }
}
