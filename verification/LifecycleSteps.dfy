/** Every step of every interleaving keeps the invariant of the event lifecycle. */
module LifecycleSteps {
  import opened Lifecycle

  /** Two tasks that hold the lock of one tracked event are the same task. */
  lemma Exclusive(s: State, t: TaskId, u: TaskId)
    requires Locks(s) && t in s.tasks && u in s.tasks
    requires Holds(s.tasks[t]) && Holds(s.tasks[u]) && s.tasks[t].id == s.tasks[u].id && s.tasks[t].id in s.store
    ensures t == u
  {
    assert LockOk(s, t, s.tasks[t]) && LockOk(s, u, s.tasks[u]);
  }

  /** While a task holds an event's lock, nobody else is entering. */
  lemma NoEntryBeside(s: State, t: TaskId)
    requires Inv(s) && t in s.tasks && Holds(s.tasks[t])
    ensures forall u | u in s.tasks && u != t && Entering(s.tasks[u]) :: s.tasks[u].id != s.tasks[t].id
  {
    hide Locks;
    forall u | u in s.tasks && u != t && Entering(s.tasks[u]) ensures s.tasks[u].id != s.tasks[t].id {
      assert TaskOk(s, s.tasks[u]);
      if s.tasks[u].id == s.tasks[t].id { Exclusive(s, t, u); }
    }
  }

  lemma Facts(s: State, t: TaskId)
    requires Books(s) && t in s.tasks
    ensures TaskOk(s, s.tasks[t])
  {
  }

  lemma RecordFacts(s: State)
    requires Inv(s)
    ensures s.store <= s.added && s.finalized <= s.added && s.orphans == {}
    ensures forall id | id in s.order :: id in s.finalized
  {
  }

  // ---- every action keeps the invariant --------------------------------------------------

  lemma EndLocks(s: State, t: TaskId)
    requires Locks(s) && t in s.tasks
    ensures Locks(End(s, t))
  {
    assert LockOk(s, t, s.tasks[t]);
    forall u | u in End(s, t).tasks ensures LockOk(End(s, t), u, s.tasks[u]) {
      assert LockOk(s, u, s.tasks[u]);
    }
  }

  /** The books do not mention locks, and one task less leaves them in order. */
  lemma FewerTasks(s: State, r: State)
    requires Books(s) && SameRecords(s, r) && r.hasState == s.hasState && r.order == s.order && r.orphans == s.orphans
    requires forall u | u in r.tasks :: u in s.tasks && r.tasks[u] == s.tasks[u]
    ensures Books(r)
  {
    assert forall id :: Over(r, id) == Over(s, id) && OpenOf(r, id) == OpenOf(s, id);
    forall u | u in r.tasks ensures TaskOk(r, r.tasks[u]) {
      assert TaskOk(s, s.tasks[u]);
    }
  }

  lemma EndKeeps(s: State, t: TaskId)
    requires Inv(s) && t in s.tasks
    ensures Inv(End(s, t))
  {
    hide Locks, Books;
    EndLocks(s, t);
    FewerTasks(s, End(s, t));
  }

  lemma WithLockLocks(s: State, id: Id)
    requires Locks(s)
    ensures Locks(WithLock(s, id))
  {
    forall u | u in s.tasks ensures LockOk(WithLock(s, id), u, s.tasks[u]) {
      assert LockOk(s, u, s.tasks[u]);
    }
  }

  lemma WithLockKeeps(s: State, id: Id)
    requires Inv(s)
    ensures Inv(WithLock(s, id)) && id in WithLock(s, id).locks
  {
    hide Locks, Books;
    WithLockLocks(s, id);
    FewerTasks(s, WithLock(s, id));
  }

  lemma TerminalKeeps(s: State, terminal: map<Id, Kind>)
    requires Inv(s)
    ensures Inv(s.(terminal := terminal))
  {
    hide Locks, Books;
    var after := s.(terminal := terminal);
    SameLocks(s, after);
    FewerTasks(s, after);
  }

  lemma SameLocks(s: State, r: State)
    requires Locks(s) && r.tasks == s.tasks && r.held == s.held && r.nextLock == s.nextLock
    requires r.locks == s.locks && r.store == s.store && r.added == s.added
    ensures Locks(r)
  {
    forall u | u in r.tasks ensures LockOk(r, u, r.tasks[u]) {
      assert LockOk(s, u, s.tasks[u]);
    }
  }

  /** The coroutine may be suspended at that place: its lock is right, and it neither takes nor drops one. */
  predicate Fits(s: State, t: TaskId, pc: Pc) {
    && LockOk(s, t, pc) && TaskOk(s, pc)
    && (Holds(pc) <==> t in s.tasks && Holds(s.tasks[t])) && (Holds(pc) ==> pc.lock == s.tasks[t].lock)
  }

  lemma AtLocks(s: State, t: TaskId, pc: Pc)
    requires Locks(s) && LockOk(s, t, pc)
    requires (Holds(pc) <==> t in s.tasks && Holds(s.tasks[t])) && (Holds(pc) ==> pc.lock == s.tasks[t].lock)
    ensures Locks(At(s, t, pc))
  {
    hide Waiting, HasLock;
    forall u | u in At(s, t, pc).tasks ensures LockOk(At(s, t, pc), u, At(s, t, pc).tasks[u]) {
      if u != t { assert LockOk(s, u, s.tasks[u]); }
    }
  }

  lemma AtBooks(s: State, t: TaskId, pc: Pc)
    requires Books(s) && TaskOk(s, pc)
    ensures Books(At(s, t, pc))
  {
    var after := At(s, t, pc);
    assert forall id :: Over(after, id) == Over(s, id) && OpenOf(after, id) == OpenOf(s, id);
    assert TaskOk(after, pc);
    forall u | u in s.tasks ensures TaskOk(after, s.tasks[u]) {
      assert TaskOk(s, s.tasks[u]);
    }
  }

  lemma AtKeeps(s: State, t: TaskId, pc: Pc)
    requires Inv(s) && Fits(s, t, pc)
    ensures Inv(At(s, t, pc))
  {
    hide Locks, Books, LockOk, TaskOk;
    AtLocks(s, t, pc);
    AtBooks(s, t, pc);
  }

  lemma WaitKeeps(s: State, t: TaskId, pc: Pc)
    requires Inv(s) && (t in s.tasks ==> !Holds(s.tasks[t])) && Waiting(pc) && Knows(s, pc)
    requires pc.id in s.locks && s.locks[pc.id] == pc.lock
    ensures Inv(At(s, t, pc))
  {
    hide Books, Knows;
    AtKeeps(s, t, pc);
  }

  lemma FinalizingKeeps(s: State, t: TaskId, id: Id, canceled: bool)
    requires Inv(s) && (t in s.tasks ==> !Holds(s.tasks[t])) && Knows(s, Pc(StateLogged(canceled), id, 0))
    ensures Inv(Finalizing(s, t, id, canceled))
  {
    hide Inv, Locks, Books;
    if id in s.finalized {
      if t in s.tasks { EndKeeps(s, t); } else { assert Without(s.tasks, t) == s.tasks; }
    } else {
      var c := canceled || (id in s.terminal && s.terminal[id] == Canceled);
      var flagged := s.(terminal := SetDefault(s.terminal, id, if c then Canceled else Final));
      TerminalKeeps(s, flagged.terminal);
      WithLockKeeps(flagged, id);
      var s1 := WithLock(flagged, id);
      WaitKeeps(s1, t, Pc(FinalizeWait(c), id, s1.locks[id]));
    }
  }

  function Taken(s: State, t: TaskId, pc: Pc): State {
    At(s.(held := s.held[pc.lock := t]), t, pc)
  }

  lemma TakeLocks(s: State, t: TaskId, pc: Pc)
    requires Locks(s) && t in s.tasks && Waiting(s.tasks[t]) && s.tasks[t].lock !in s.held
    requires Holds(pc) && pc.id == s.tasks[t].id && pc.lock == s.tasks[t].lock
    ensures Locks(Taken(s, t, pc))
  {
    assert LockOk(s, t, s.tasks[t]);
    forall u | u in s.tasks && u != t ensures LockOk(Taken(s, t, pc), u, s.tasks[u]) {
      assert LockOk(s, u, s.tasks[u]);
    }
  }

  /** A task that takes a free lock and starts its section. */
  lemma TakeKeeps(s: State, t: TaskId, pc: Pc)
    requires Inv(s) && t in s.tasks && Waiting(s.tasks[t]) && s.tasks[t].lock !in s.held
    requires Holds(pc) && pc.id == s.tasks[t].id && pc.lock == s.tasks[t].lock && TaskOk(s, pc)
    ensures Inv(Taken(s, t, pc))
  {
    hide Locks, Books;
    TakeLocks(s, t, pc);
    FewerTasks(s, s.(held := s.held[pc.lock := t]));
    AtBooks(s.(held := s.held[pc.lock := t]), t, pc);
  }

  lemma AcquireKeeps(s: State, t: TaskId)
    requires Inv(s) && Enabled(s, Acquire(t))
    ensures Inv(Acquired(s, t))
  {
    hide Locks, Books, End;
    RecordFacts(s);
    Facts(s, t);
    match s.tasks[t]
    case Pc(RecordWait, id, lock) =>
      if Gated(s, id) { EndKeeps(s, t); } else { TakeKeeps(s, t, Pc(RecordScoring, id, lock)); }
    case Pc(FinalizeWait(c), id, lock) =>
      if id in s.finalized { EndKeeps(s, t); } else { TakeKeeps(s, t, Pc(FinalizeCancel(c), id, lock)); }
    case Pc(DeleteWait, id, lock) =>
      if id !in s.store { EndKeeps(s, t); } else { TakeKeeps(s, t, Pc(DeleteCount, id, lock)); }
  }

  /** A task moves on inside its section. */
  lemma MoveKeeps(s: State, t: TaskId, pc: Pc)
    requires Inv(s) && t in s.tasks && Holds(s.tasks[t]) && Holds(pc)
    requires pc.id == s.tasks[t].id && pc.lock == s.tasks[t].lock && TaskOk(s, pc)
    ensures Inv(At(s, t, pc))
  {
    hide Books, TaskOk;
    assert LockOk(s, t, s.tasks[t]);
    AtKeeps(s, t, pc);
  }

  /** A change of the open count by the coroutine that holds the lock. */
  lemma OpenKeeps(s: State, t: TaskId, n: nat)
    requires Inv(s) && t in s.tasks && Holds(s.tasks[t])
    requires n <= OpenOf(s, s.tasks[t].id) || Entering(s.tasks[t])
    ensures Inv(s.(open := s.open[s.tasks[t].id := n]))
  {
    hide Locks, Books;
    var id := s.tasks[t].id;
    SameLocks(s, s.(open := s.open[id := n]));
    if Entering(s.tasks[t]) {
      Facts(s, t);
      forall u | u in s.tasks && Closing(s.tasks[u]) ensures s.tasks[u].id != id {
        if s.tasks[u].id == id { Exclusive(s, t, u); }
      }
    }
    OpenBooks(s, id, n);
  }

  lemma OpenBooks(s: State, id: Id, n: nat)
    requires Books(s)
    requires n <= OpenOf(s, id)
             || (!Over(s, id) && forall u | u in s.tasks && Closing(s.tasks[u]) :: s.tasks[u].id != id)
    ensures Books(s.(open := s.open[id := n]))
  {
    var after := s.(open := s.open[id := n]);
    assert forall x :: Over(after, x) == Over(s, x);
    forall u | u in s.tasks ensures TaskOk(after, s.tasks[u]) {
      assert TaskOk(s, s.tasks[u]);
    }
  }

  lemma DropLocks(s: State, r: State, id: Id)
    requires Locks(s) && id in s.added && r.tasks == s.tasks && r.held == s.held && r.nextLock == s.nextLock
    requires r.store == s.store - {id} && r.added == s.added && (r.locks == s.locks || r.locks == Without(s.locks, id))
    ensures Locks(r)
  {
    forall u | u in r.tasks ensures LockOk(r, u, r.tasks[u]) {
      assert LockOk(s, u, s.tasks[u]);
    }
  }

  /** Forgetting a tracked event that has nothing open and nobody entering. */
  lemma DropBooks(s: State, id: Id)
    requires Books(s) && id in s.added && OpenOf(s, id) == 0
    requires forall u | u in s.tasks && Entering(s.tasks[u]) :: s.tasks[u].id != id
    ensures Books(Drop(s, id))
  {
    hide Removed;
    var after := Drop(s, id);
    assert forall x :: Over(after, x) <==> Over(s, x) || x == id;
    forall u | u in s.tasks ensures TaskOk(after, s.tasks[u]) {
      assert TaskOk(s, s.tasks[u]);
    }
  }

  lemma DropKeeps(s: State, id: Id)
    requires Inv(s) && id in s.added && OpenOf(s, id) == 0
    requires forall u | u in s.tasks && Entering(s.tasks[u]) :: s.tasks[u].id != id
    ensures Inv(Drop(s, id))
  {
    hide Locks, Books;
    DropLocks(s, Drop(s, id), id);
    DropBooks(s, id);
  }

  /** Giving the lock back and going on without it. */
  lemma ReleaseKeeps(s: State, t: TaskId, next: Pc)
    requires Inv(s) && t in s.tasks && Holds(s.tasks[t]) && !HasLock(next) && Knows(s, next)
    ensures Inv(Release(s, t, next))
  {
    hide Inv;
    EndKeeps(s, t);
    IdleKeeps(End(s, t), t, next);
    ReleaseIsEnd(s, t, next);
  }

  lemma ReleaseIsEnd(s: State, t: TaskId, next: Pc)
    requires t in s.tasks && Holds(s.tasks[t])
    ensures Release(s, t, next) == At(End(s, t), t, next)
  {
    assert s.tasks[t := next] == Without(s.tasks, t)[t := next];
  }

  /** A task without a lock moves to another place without one. */
  lemma IdleKeeps(s: State, t: TaskId, next: Pc)
    requires Inv(s) && (t in s.tasks ==> !Holds(s.tasks[t])) && !HasLock(next) && Knows(s, next)
    ensures Inv(At(s, t, next))
  {
    hide Books, Knows;
    AtKeeps(s, t, next);
  }

  lemma ForgetLockKeeps(s: State, id: Id)
    requires Inv(s) && id in s.added && id !in s.store
    ensures Inv(s.(locks := Without(s.locks, id)))
  {
    hide Locks, Books;
    var after := s.(locks := Without(s.locks, id));
    DropLocks(s, after, id);
    FewerTasks(s, after);
  }

  lemma FinalizedBooks(s: State, id: Id, order: seq<Id>)
    requires Books(s) && id in s.added && OpenOf(s, id) == 0 && forall x | x in order :: x in s.order || x == id
    requires forall u | u in s.tasks && Entering(s.tasks[u]) :: s.tasks[u].id != id
    ensures Books(s.(finalized := s.finalized + {id}, order := order))
  {
    var after := s.(finalized := s.finalized + {id}, order := order);
    assert forall x :: Over(after, x) <==> Over(s, x) || x == id;
    forall u | u in s.tasks ensures TaskOk(after, s.tasks[u]) {
      assert TaskOk(s, s.tasks[u]);
    }
  }

  lemma MarkFinalizedKeeps(s: State, t: TaskId, order: seq<Id>, terminal: map<Id, Kind>)
    requires Inv(s) && t in s.tasks && s.tasks[t].phase.FinalizePersist?
    requires forall x | x in order :: x in s.order || x == s.tasks[t].id
    ensures Inv(s.(finalized := s.finalized + {s.tasks[t].id}, order := order, terminal := terminal))
  {
    hide Locks, Books;
    NoEntryBeside(s, t);
    Facts(s, t);
    FinalizedBooks(s, s.tasks[t].id, order);
    var after := s.(finalized := s.finalized + {s.tasks[t].id}, order := order);
    SameLocks(s, after);
    TerminalKeeps(after, terminal);
  }

  lemma CommitKeeps(s: State, t: TaskId)
    requires Inv(s) && t in s.tasks && s.tasks[t].phase.FinalizePersist?
    ensures Inv(Resumed(s, t))
  {
    hide Locks, Books, Inv;
    var id, c := s.tasks[t].id, s.tasks[t].phase.canceled;
    var order := if id in s.store then Removed(s.order, id) + [id] else s.order;
    var terminal := s.terminal[id := if c then Canceled else Final];
    MarkFinalizedKeeps(s, t, order, terminal);
    ReleaseKeeps(s.(finalized := s.finalized + {id}, order := order, terminal := terminal), t, Pc(EvictLoop, id, 0));
  }

  lemma NoEntryFinalized(s: State, id: Id)
    requires Inv(s) && Over(s, id)
    ensures OpenOf(s, id) == 0
    ensures forall u | u in s.tasks && Entering(s.tasks[u]) :: s.tasks[u].id != id
  {
    forall u | u in s.tasks && Entering(s.tasks[u]) ensures s.tasks[u].id != id {
      assert TaskOk(s, s.tasks[u]);
    }
  }

  lemma EvictKeeps(s: State, t: TaskId)
    requires Inv(s) && t in s.tasks && s.tasks[t].phase.EvictDecide?
    ensures Inv(Resumed(s, t))
  {
    hide Locks, Books, Removed;
    var id := s.tasks[t].id;
    Facts(s, t);
    NoEntryFinalized(s, id);
    DropKeeps(s, id);
    ForgetLockKeeps(Drop(s, id), id);
    IdleKeeps(Drop(s, id).(locks := Without(s.locks, id)), t, Pc(EvictLoop, id, 0));
  }

  lemma UnfinalizeBooks(s: State, id: Id)
    requires Books(s) && id in s.added && id !in s.store && id !in s.order
    ensures Books(s.(finalized := s.finalized - {id}))
  {
    var after := s.(finalized := s.finalized - {id});
    assert forall x :: Over(after, x) == Over(s, x);
    forall u | u in s.tasks ensures TaskOk(after, s.tasks[u]) {
      assert TaskOk(s, s.tasks[u]);
    }
  }

  lemma DeleteKeeps(s: State, t: TaskId)
    requires Inv(s) && t in s.tasks && s.tasks[t].phase.DeletePersist?
    ensures Inv(Resumed(s, t))
  {
    hide Locks, Books;
    var id := s.tasks[t].id;
    Facts(s, t);
    NoEntryBeside(s, t);
    DropKeeps(s, id);
    var dropped := Drop(s, id);
    var freed := dropped.(finalized := s.finalized - {id});
    UnfinalizeBooks(dropped, id);
    SameLocks(dropped, freed);
    ReleaseKeeps(freed, t, Pc(DeleteGather, id, 0));
  }

  /** Settlement leaves nothing open: it runs with a score, or as a void, or the event was gone. */
  lemma WriteKeeps(s: State, t: TaskId)
    requires Inv(s) && t in s.tasks && s.tasks[t].phase.FinalizeWrite?
    ensures Inv(Resumed(s, t))
  {
    hide Inv, Locks, Books;
    InvFacts(s, t);
    var pc, after := s.tasks[t], s.(open := s.open[s.tasks[t].id := 0]);
    if pc.phase.canceled || (pc.phase.event && pc.phase.states) {
      OpenKeeps(s, t, 0);
      MoveKeeps(after, t, Pc(FinalizePersist(pc.phase.canceled), pc.id, pc.lock));
    } else {
      MoveKeeps(s, t, Pc(FinalizePersist(pc.phase.canceled), pc.id, pc.lock));
    }
  }

  /** The invariant's word on one task and on its event. */
  lemma InvFacts(s: State, t: TaskId)
    requires Inv(s) && t in s.tasks
    ensures TaskOk(s, s.tasks[t]) && s.store <= s.added && forall id | Over(s, id) :: OpenOf(s, id) == 0
  {
    Facts(s, t);
  }

  lemma ResumeRecordKeeps(s: State, t: TaskId)
    requires Inv(s) && Enabled(s, Resume(t))
    requires s.tasks[t].phase.RecordScoring? || s.tasks[t].phase.RecordLedger? || s.tasks[t].phase.RecordPlaced?
    ensures Inv(Resumed(s, t))
  {
    hide Inv, End;
    InvFacts(s, t);
    match s.tasks[t]
    case Pc(RecordScoring, id, lock) =>
      if Gated(s, id) { EndKeeps(s, t); } else { MoveKeeps(s, t, Pc(RecordLedger(id in s.store), id, lock)); }
    case Pc(RecordLedger(event), id, lock) =>
      if Gated(s, id) || !event { EndKeeps(s, t); } else { MoveKeeps(s, t, Pc(RecordMark, id, lock)); }
    case Pc(RecordPlaced, _, _) => EndKeeps(s, t);
  }

  lemma ResumeDeleteKeeps(s: State, t: TaskId)
    requires Inv(s) && Enabled(s, Resume(t))
    requires s.tasks[t].phase.DeleteCount? || s.tasks[t].phase.DeleteDecide? || s.tasks[t].phase.DeleteGather?
    ensures Inv(Resumed(s, t))
  {
    hide Inv, End;
    InvFacts(s, t);
    match s.tasks[t]
    case Pc(DeleteCount, id, lock) => MoveKeeps(s, t, Pc(DeleteDecide(OpenOf(s, id)), id, lock));
    case Pc(DeleteDecide(count), id, lock) =>
      if count > 0 {
        EndKeeps(s, t);
      } else {
        var flagged := s.(terminal := SetDefault(s.terminal, id, Deleted));
        TerminalKeeps(s, flagged.terminal);
        MoveKeeps(flagged, t, Pc(DeletePersist, id, lock));
      }
    case Pc(DeleteGather, id, _) =>
      var s1 := s.(terminal := Without(s.terminal, id));
      TerminalKeeps(s, s1.terminal);
      ForgetLockKeeps(s1, id);
      EndKeeps(s1.(locks := Without(s.locks, id)), t);
  }

  lemma ResumeKeeps(s: State, t: TaskId)
    requires Inv(s) && Enabled(s, Resume(t))
    ensures Inv(Resumed(s, t))
  {
    hide Inv, Drop, Release, TaskOk, Without, Removed;
    match s.tasks[t]
    case Pc(StateLogged(c), id, _) =>
      KnowsFacts(s, t);
      FinalizingKeeps(s, t, id, c);
    case Pc(FinalizeCancel(c), id, lock) =>
      KnowsFacts(s, t);
      CancelDone(s, t);
    case Pc(FinalizeWrite(_, _, _), _, _) => WriteKeeps(s, t);
    case Pc(FinalizePersist(_), _, _) => CommitKeeps(s, t);
    case Pc(EvictCount, id, _) =>
      KnowsFacts(s, t);
      NoEntryFinalized(s, id);
      IdleKeeps(s, t, Pc(EvictDecide(OpenOf(s, id)), id, 0));
    case Pc(EvictDecide(_), _, _) => EvictKeeps(s, t);
    case Pc(DeletePersist, _, _) => DeleteKeeps(s, t);
    case Pc(DeleteCount, _, _) => ResumeDeleteKeeps(s, t);
    case Pc(DeleteDecide(_), _, _) => ResumeDeleteKeeps(s, t);
    case Pc(DeleteGather, _, _) => ResumeDeleteKeeps(s, t);
    case _ => ResumeRecordKeeps(s, t);
  }

  lemma KnowsFacts(s: State, t: TaskId)
    requires Inv(s) && t in s.tasks
    ensures Knows(s, s.tasks[t]) && s.store <= s.added
  {
    Facts(s, t);
  }

  lemma CancelDone(s: State, t: TaskId)
    requires Inv(s) && t in s.tasks && s.tasks[t].phase.FinalizeCancel?
    ensures Inv(Resumed(s, t))
  {
    hide Inv;
    InvFacts(s, t);
    var pc := s.tasks[t];
    var tracked := pc.id in s.store;
    MoveKeeps(s, t, Pc(FinalizeWrite(pc.phase.canceled, tracked, tracked && pc.id in s.hasState), pc.id, pc.lock));
  }

  /** A canceled feed task is never in the middle of an entry, so no entry is orphaned. */
  lemma CancelKeeps(s: State, t: TaskId, victim: TaskId)
    requires Inv(s) && Enabled(s, CancelFeed(t, victim))
    ensures !s.tasks[victim].phase.RecordPlace? && Inv(Apply(s, CancelFeed(t, victim)))
  {
    hide Inv, End;
    CancelFacts(s, t, victim);
    EndKeeps(s, victim);
  }

  lemma CancelFacts(s: State, t: TaskId, victim: TaskId)
    requires Inv(s) && Enabled(s, CancelFeed(t, victim))
    ensures !Entering(s.tasks[victim])
  {
    hide Inv;
    if s.tasks[t].phase.DeleteGather? {
      InvFacts(s, t);
      InvFacts(s, victim);
    } else {
      NoEntryBeside(s, t);
    }
  }

  lemma AddLocks(s: State, r: State, id: Id)
    requires Locks(s) && id !in s.added && r.tasks == s.tasks && r.held == s.held && r.nextLock == s.nextLock
    requires r.locks == s.locks && r.store == s.store + {id} && r.added == s.added + {id}
    ensures Locks(r)
  {
    forall u | u in r.tasks ensures LockOk(r, u, r.tasks[u]) {
      assert LockOk(s, u, s.tasks[u]);
    }
  }

  lemma AddKeeps(s: State, id: Id)
    requires Inv(s) && id !in s.added
    ensures Inv(s.(store := s.store + {id}, added := s.added + {id}))
  {
    hide Locks;
    var after := s.(store := s.store + {id}, added := s.added + {id});
    AddLocks(s, after, id);
    assert forall x :: Over(after, x) == Over(s, x);
    forall u | u in s.tasks ensures TaskOk(after, s.tasks[u]) {
      assert TaskOk(s, s.tasks[u]);
    }
  }

  lemma LiveStateKeeps(s: State, id: Id)
    requires Inv(s) && id in s.store
    ensures Inv(s.(hasState := s.hasState + {id}))
  {
    hide Locks;
    var after := s.(hasState := s.hasState + {id});
    SameLocks(s, after);
    assert forall x :: Over(after, x) == Over(s, x);
    forall u | u in s.tasks ensures TaskOk(after, s.tasks[u]) {
      assert TaskOk(s, s.tasks[u]);
    }
  }

  lemma OrderKeeps(s: State)
    requires Inv(s) && s.order != []
    ensures Inv(s.(order := s.order[1..]))
  {
    hide Locks;
    var after := s.(order := s.order[1..]);
    SameLocks(s, after);
    assert forall x :: Over(after, x) == Over(s, x);
    forall u | u in s.tasks ensures TaskOk(after, s.tasks[u]) {
      assert TaskOk(s, s.tasks[u]);
    }
  }

  lemma StartKeeps(s: State, a: Action)
    requires Inv(s) && Enabled(s, a)
    requires a.TerminalState? || a.CancelStatus? || a.StartRecord? || a.StartDelete?
    ensures Inv(Apply(s, a))
  {
    hide Inv, Finalizing;
    RecordFacts(s);
    match a
    case TerminalState(t, id, c) =>
      var s1 := s.(terminal := SetDefault(s.terminal, id, if c then Canceled else Final));
      TerminalKeeps(s, s1.terminal);
      LiveStateKeeps(s1, id);
      IdleKeeps(s1.(hasState := s1.hasState + {id}), t, Pc(StateLogged(c), id, 0));
    case CancelStatus(t, id) =>
      var s1 := s.(terminal := SetDefault(s.terminal, id, Canceled));
      TerminalKeeps(s, s1.terminal);
      FinalizingKeeps(s1, t, id, true);
    case StartRecord(t, id) =>
      WithLockKeeps(s, id);
      WaitKeeps(WithLock(s, id), t, Pc(RecordWait, id, WithLock(s, id).locks[id]));
    case StartDelete(t, id) =>
      WithLockKeeps(s, id);
      WaitKeeps(WithLock(s, id), t, Pc(DeleteWait, id, WithLock(s, id).locks[id]));
  }

  lemma MarkKeeps(s: State, t: TaskId, closed: nat, entries: bool)
    requires Inv(s) && Enabled(s, MarkDone(t, closed, entries))
    ensures Inv(Apply(s, MarkDone(t, closed, entries)))
  {
    hide Inv, End;
    InvFacts(s, t);
    var pc, n := s.tasks[t], OpenOf(s, s.tasks[t].id) - closed;
    OpenKeeps(s, t, n);
    if entries {
      MoveKeeps(s.(open := s.open[pc.id := n]), t, Pc(RecordPlace, pc.id, pc.lock));
    } else {
      EndKeeps(s.(open := s.open[pc.id := n]), t);
    }
  }

  lemma PlaceKeeps(s: State, t: TaskId, placed: nat)
    requires Inv(s) && Enabled(s, PlaceDone(t, placed))
    ensures Inv(Apply(s, PlaceDone(t, placed)))
  {
    hide Inv, End;
    InvFacts(s, t);
    var pc, n := s.tasks[t], OpenOf(s, s.tasks[t].id) + placed;
    OpenKeeps(s, t, n);
    MoveKeeps(s.(open := s.open[pc.id := n]), t, Pc(RecordPlaced, pc.id, pc.lock));
  }

  lemma EvictNextKeeps(s: State, t: TaskId, retention: nat)
    requires Inv(s) && Enabled(s, EvictNext(t, retention))
    ensures Inv(Apply(s, EvictNext(t, retention)))
  {
    hide Inv, End;
    RecordFacts(s);
    if |s.order| <= retention {
      EndKeeps(s, t);
    } else if s.order[0] !in s.store {
      OrderKeeps(s);
    } else {
      IdleKeeps(s, t, Pc(EvictCount, s.order[0], 0));
    }
  }

  lemma StopKeeps(s: State, a: Action)
    requires Inv(s) && Enabled(s, a) && (a.WriteFailed? || a.Fail?)
    ensures Inv(Apply(s, a))
  {
    hide Inv, End;
    match a
    case WriteFailed(t, left) =>
      OpenKeeps(s, t, left);
      EndKeeps(s.(open := s.open[s.tasks[t].id := left]), t);
    case Fail(t) =>
      if s.tasks[t].phase.DeletePersist? {
        TerminalKeeps(s, Without(s.terminal, s.tasks[t].id));
        EndKeeps(s.(terminal := Without(s.terminal, s.tasks[t].id)), t);
      } else {
        EndKeeps(s, t);
      }
  }

  /** Every step of every interleaving keeps the invariant. */
  lemma ApplyKeeps(s: State, a: Action)
    requires Inv(s) && Enabled(s, a)
    ensures Inv(Apply(s, a))
  {
    hide Inv, End, Finalizing, Resumed, Acquired, WithLock, OpenOf;
    match a
    case AddEvent(id) => AddKeeps(s, id);
    case Flag(id, kind) => TerminalKeeps(s, SetDefault(s.terminal, id, kind));
    case LiveState(id) => LiveStateKeeps(s, id);
    case TerminalState(_, _, _) => StartKeeps(s, a);
    case CancelStatus(_, _) => StartKeeps(s, a);
    case StartRecord(_, _) => StartKeeps(s, a);
    case StartDelete(_, _) => StartKeeps(s, a);
    case Acquire(t) => AcquireKeeps(s, t);
    case Resume(t) => ResumeKeeps(s, t);
    case MarkDone(t, closed, entries) => MarkKeeps(s, t, closed, entries);
    case PlaceDone(t, placed) => PlaceKeeps(s, t, placed);
    case WriteFailed(_, _) => StopKeeps(s, a);
    case Fail(_) => StopKeeps(s, a);
    case CancelFeed(t, victim) => CancelKeeps(s, t, victim);
    case EvictNext(t, retention) => EvictNextKeeps(s, t, retention);
    case OrphanPlaces(id, _) =>
      RecordFacts(s);
      assert false;
  }
}
