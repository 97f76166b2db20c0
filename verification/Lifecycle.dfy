/**
 The event lifecycle (app/main.py: record, on_state, on_sports_status, finalize_event, eviction and
 deletion) as a state machine with one atomic step between two awaits. Per-event locks live in a
 dictionary from which they are removed, so two lock objects can exist for one event; the proof
 shows why no bet is ever placed on a finalized event all the same.
 */
module Lifecycle {

  type Id = nat
  type TaskId = nat
  type Lock = nat

  datatype Kind = Final | Canceled | Deleted

  /** Where a task is suspended: waiting for the event's lock, inside the lock, or outside it. */
  datatype Phase =
    | RecordWait | RecordScoring | RecordLedger(event: bool) | RecordMark | RecordPlace | RecordPlaced
    | StateLogged(canceled: bool)
    | FinalizeWait(canceled: bool) | FinalizeCancel(canceled: bool)
    | FinalizeWrite(canceled: bool, event: bool, states: bool) | FinalizePersist(canceled: bool)
    | EvictLoop | EvictCount | EvictDecide(count: nat)
    | DeleteWait | DeleteCount | DeleteDecide(count: nat) | DeletePersist | DeleteGather

  /** A suspended task, its event, and the lock it waits for or holds (0 where there is none). */
  datatype Pc = Pc(phase: Phase, id: Id, lock: Lock)

  /** `added` and `orphans` only serve the proof: ids ever tracked, and entries left running by a canceled task. */
  datatype State = State(store: set<Id>, added: set<Id>, hasState: set<Id>, terminal: map<Id, Kind>,
                         finalized: set<Id>, order: seq<Id>, locks: map<Id, Lock>, nextLock: Lock,
                         held: map<Lock, TaskId>, tasks: map<TaskId, Pc>, open: map<Id, nat>, orphans: set<Id>)

  function OpenOf(s: State, id: Id): nat { if id in s.open then s.open[id] else 0 }

  predicate Waiting(pc: Pc) { pc.phase.RecordWait? || pc.phase.FinalizeWait? || pc.phase.DeleteWait? }

  predicate HasLock(pc: Pc) {
    !(pc.phase.StateLogged? || pc.phase.EvictLoop? || pc.phase.EvictCount? || pc.phase.EvictDecide?
      || pc.phase.DeleteGather?)
  }

  predicate Holds(pc: Pc) { HasLock(pc) && !Waiting(pc) }

  /** The coroutine has seen the event in the store and may still open bets on it. */
  predicate Entering(pc: Pc) {
    (pc.phase.RecordLedger? && pc.phase.event)
    || pc.phase.RecordMark? || pc.phase.RecordPlace? || pc.phase.RecordPlaced?
  }

  // ---- pieces of steps -------------------------------------------------------------------

  function SetDefault(m: map<Id, Kind>, id: Id, k: Kind): map<Id, Kind> { if id in m then m else m[id := k] }

  function Without<T>(m: map<nat, T>, key: nat): (r: map<nat, T>)
    ensures r.Keys == m.Keys - {key} && forall x | x in r :: r[x] == m[x]
  {
    map x | x in m && x != key :: m[x]
  }

  function Removed(order: seq<Id>, id: Id): (r: seq<Id>)
    ensures forall x :: x in r <==> x in order && x != id
  {
    if order == [] then []
    else
      assert order == [order[0]] + order[1..];
      (if order[0] == id then [] else [order[0]]) + Removed(order[1..], id)
  }

  function At(s: State, t: TaskId, pc: Pc): State { s.(tasks := s.tasks[t := pc]) }

  /** Neither the records of events nor the bets differ. */
  predicate SameRecords(s: State, r: State) {
    && r.store == s.store && r.added == s.added && r.finalized == s.finalized && r.open == s.open
    && r.order == s.order
  }

  /** The coroutine ends, releasing the lock it holds. */
  function End(s: State, t: TaskId): (r: State)
    requires t in s.tasks
    ensures SameRecords(s, r) && t !in r.tasks && forall u | u in r.tasks :: u in s.tasks && r.tasks[u] == s.tasks[u]
    ensures forall u | u in s.tasks && u != t :: u in r.tasks
  {
    var pc := s.tasks[t];
    s.(tasks := Without(s.tasks, t), held := if Holds(pc) then Without(s.held, pc.lock) else s.held)
  }

  /** The coroutine goes on without the lock it holds. */
  function Release(s: State, t: TaskId, next: Pc): (r: State)
    requires t in s.tasks && Holds(s.tasks[t])
    ensures SameRecords(s, r) && r.tasks == s.tasks[t := next]
  {
    s.(tasks := s.tasks[t := next], held := Without(s.held, s.tasks[t].lock))
  }

  /** The event's lock, created on first use. */
  function WithLock(s: State, id: Id): State {
    if id in s.locks then s else s.(locks := s.locks[id := s.nextLock], nextLock := s.nextLock + 1)
  }

  predicate Gated(s: State, id: Id) { id in s.terminal || id in s.finalized }

  /** The head of finalize_event, up to waiting for the lock. */
  function Finalizing(s: State, t: TaskId, id: Id, canceled: bool): (r: State)
    requires t in s.tasks ==> !Holds(s.tasks[t])
    ensures SameRecords(s, r) && (t in r.tasks ==> r.tasks[t].phase.FinalizeWait?)
    ensures forall u | u in r.tasks && u != t :: u in s.tasks && r.tasks[u] == s.tasks[u]
  {
    if id in s.finalized then s.(tasks := Without(s.tasks, t))
    else
      var c := canceled || (id in s.terminal && s.terminal[id] == Canceled);
      var s1 := WithLock(s.(terminal := SetDefault(s.terminal, id, if c then Canceled else Final)), id);
      At(s1, t, Pc(FinalizeWait(c), id, s1.locks[id]))
  }

  // ---- actions ---------------------------------------------------------------------------

  datatype Action =
    | AddEvent(id: Id)
    | Flag(id: Id, kind: Kind)
    | LiveState(id: Id)
    | TerminalState(t: TaskId, id: Id, canceled: bool)
    | CancelStatus(t: TaskId, id: Id)
    | StartRecord(t: TaskId, id: Id)
    | StartDelete(t: TaskId, id: Id)
    | Acquire(t: TaskId)
    | Resume(t: TaskId)
    | MarkDone(t: TaskId, closed: nat, entries: bool)
    | PlaceDone(t: TaskId, placed: nat)
    | WriteFailed(t: TaskId, left: nat)
    | Fail(t: TaskId)
    | CancelFeed(t: TaskId, victim: TaskId)
    | EvictNext(t: TaskId, retention: nat)
    | OrphanPlaces(id: Id, placed: nat)

  predicate Is(s: State, t: TaskId, test: Pc -> bool) { t in s.tasks && test(s.tasks[t]) }

  predicate Enabled(s: State, a: Action) {
    match a
    case AddEvent(id) => id !in s.added
    case Flag(id, kind) => id in s.store && kind != Deleted
    case LiveState(id) => id in s.store
    case TerminalState(t, id, _) => t !in s.tasks && id in s.store && !(id in s.terminal && s.terminal[id] == Deleted)
    case CancelStatus(t, id) => t !in s.tasks && id in s.store
    case StartRecord(t, id) => t !in s.tasks
    case StartDelete(t, id) => t !in s.tasks
    case Acquire(t) => t in s.tasks && Waiting(s.tasks[t]) && s.tasks[t].lock !in s.held
    case Resume(t) =>
      t in s.tasks && var pc := s.tasks[t];
      (pc.phase.StateLogged? || pc.phase.RecordScoring? || pc.phase.RecordLedger? || pc.phase.RecordPlaced?
       || pc.phase.FinalizeCancel? || pc.phase.FinalizeWrite? || pc.phase.FinalizePersist?
       || pc.phase.EvictCount? || pc.phase.EvictDecide? || pc.phase.DeleteCount?
       || pc.phase.DeleteDecide? || pc.phase.DeletePersist? || pc.phase.DeleteGather?)
    case MarkDone(t, closed, _) => t in s.tasks && s.tasks[t].phase.RecordMark? && closed <= OpenOf(s, s.tasks[t].id)
    case PlaceDone(t, _) => t in s.tasks && s.tasks[t].phase.RecordPlace?
    case WriteFailed(t, left) => t in s.tasks && s.tasks[t].phase.FinalizeWrite? && left <= OpenOf(s, s.tasks[t].id)
    case Fail(t) => t in s.tasks
    case CancelFeed(t, victim) =>
      t in s.tasks && victim in s.tasks && victim != t
      && (s.tasks[t].phase.FinalizeCancel? || s.tasks[t].phase.DeletePersist? || s.tasks[t].phase.DeleteGather?)
      && s.tasks[victim].id == s.tasks[t].id
    case EvictNext(t, _) => t in s.tasks && s.tasks[t].phase.EvictLoop?
    case OrphanPlaces(id, _) => id in s.orphans
  }

  /** A waiting task gets its lock and makes the checks that follow at once. */
  function Acquired(s: State, t: TaskId): (r: State)
    requires t in s.tasks && Waiting(s.tasks[t])
    ensures SameRecords(s, r)
  {
    var pc := s.tasks[t];
    match pc
    case Pc(RecordWait, id, lock) =>
      if Gated(s, id) then End(s, t) else At(s.(held := s.held[lock := t]), t, Pc(RecordScoring, id, lock))
    case Pc(FinalizeWait(c), id, lock) =>
      if id in s.finalized then End(s, t) else At(s.(held := s.held[lock := t]), t, Pc(FinalizeCancel(c), id, lock))
    case Pc(DeleteWait, id, lock) =>
      if id !in s.store then End(s, t) else At(s.(held := s.held[lock := t]), t, Pc(DeleteCount, id, lock))
  }

  function Drop(s: State, id: Id): State {
    s.(store := s.store - {id}, hasState := s.hasState - {id}, order := Removed(s.order, id))
  }

  /** The step a suspended task makes when its await returns normally. */
  function Resumed(s: State, t: TaskId): (r: State)
    requires Enabled(s, Resume(t))
    ensures forall u | u in r.tasks && u != t :: u in s.tasks && r.tasks[u] == s.tasks[u]
    ensures t in r.tasks && (r.tasks[t].phase.RecordMark? || r.tasks[t].phase.RecordPlace?) ==> !Gated(s, r.tasks[t].id)
  {
    match s.tasks[t]
    case Pc(StateLogged(c), id, _) => Finalizing(s, t, id, c)
    case Pc(RecordScoring, id, lock) =>
      if Gated(s, id) then End(s, t) else At(s, t, Pc(RecordLedger(id in s.store), id, lock))
    case Pc(RecordLedger(event), id, lock) =>
      if Gated(s, id) || !event then End(s, t) else At(s, t, Pc(RecordMark, id, lock))
    case Pc(RecordPlaced, id, lock) => End(s, t)
    case Pc(FinalizeCancel(c), id, lock) =>
      At(s, t, Pc(FinalizeWrite(c, id in s.store, id in s.store && id in s.hasState), id, lock))
    case Pc(FinalizeWrite(c, event, states), id, lock) =>
      At(if c || (event && states) then s.(open := s.open[id := 0]) else s, t, Pc(FinalizePersist(c), id, lock))
    case Pc(FinalizePersist(c), id, lock) =>
      Release(s.(finalized := s.finalized + {id}, terminal := s.terminal[id := if c then Canceled else Final],
                 order := if id in s.store then Removed(s.order, id) + [id] else s.order), t, Pc(EvictLoop, id, 0))
    case Pc(EvictCount, id, _) => At(s, t, Pc(EvictDecide(OpenOf(s, id)), id, 0))
    case Pc(EvictDecide(count), id, _) =>
      if count > 0 then End(s, t) else At(Drop(s, id).(locks := Without(s.locks, id)), t, Pc(EvictLoop, id, 0))
    case Pc(DeleteCount, id, lock) => At(s, t, Pc(DeleteDecide(OpenOf(s, id)), id, lock))
    case Pc(DeleteDecide(count), id, lock) =>
      if count > 0 then End(s, t)
      else At(s.(terminal := SetDefault(s.terminal, id, Deleted)), t, Pc(DeletePersist, id, lock))
    case Pc(DeletePersist, id, lock) =>
      Release(Drop(s, id).(finalized := s.finalized - {id}), t, Pc(DeleteGather, id, 0))
    case Pc(DeleteGather, id, _) => End(s.(terminal := Without(s.terminal, id), locks := Without(s.locks, id)), t)
  }

  function Apply(s: State, a: Action): State
    requires Enabled(s, a)
  {
    match a
    case AddEvent(id) => s.(store := s.store + {id}, added := s.added + {id})
    case Flag(id, kind) => s.(terminal := SetDefault(s.terminal, id, kind))
    case LiveState(id) => s.(hasState := s.hasState + {id})
    case TerminalState(t, id, c) =>
      At(s.(terminal := SetDefault(s.terminal, id, if c then Canceled else Final), hasState := s.hasState + {id}),
         t, Pc(StateLogged(c), id, 0))
    case CancelStatus(t, id) => Finalizing(s.(terminal := SetDefault(s.terminal, id, Canceled)), t, id, true)
    case StartRecord(t, id) => var s1 := WithLock(s, id); At(s1, t, Pc(RecordWait, id, s1.locks[id]))
    case StartDelete(t, id) => var s1 := WithLock(s, id); At(s1, t, Pc(DeleteWait, id, s1.locks[id]))
    case Acquire(t) => Acquired(s, t)
    case Resume(t) => Resumed(s, t)
    case MarkDone(t, closed, entries) =>
      var pc := s.tasks[t];
      var s1 := s.(open := s.open[pc.id := OpenOf(s, pc.id) - closed]);
      if entries then At(s1, t, Pc(RecordPlace, pc.id, pc.lock)) else End(s1, t)
    case PlaceDone(t, placed) =>
      var pc := s.tasks[t];
      At(s.(open := s.open[pc.id := OpenOf(s, pc.id) + placed]), t, Pc(RecordPlaced, pc.id, pc.lock))
    case WriteFailed(t, left) => End(s.(open := s.open[s.tasks[t].id := left]), t)
    case Fail(t) =>
      var pc := s.tasks[t];
      End(if pc.phase.DeletePersist? then s.(terminal := Without(s.terminal, pc.id)) else s, t)
    case CancelFeed(t, victim) =>
      var pc := s.tasks[victim];
      End(if pc.phase.RecordPlace? then s.(orphans := s.orphans + {pc.id}) else s, victim)
    case EvictNext(t, retention) =>
      if |s.order| <= retention then End(s, t)
      else if s.order[0] !in s.store then s.(order := s.order[1..])
      else At(s, t, Pc(EvictCount, s.order[0], 0))
    case OrphanPlaces(id, placed) => s.(open := s.open[id := OpenOf(s, id) + placed], orphans := s.orphans - {id})
  }

  // ---- the invariant ---------------------------------------------------------------------

  /** The event is tracked or never was: its lock has not been taken out of the dictionary. */
  predicate Kept(s: State, id: Id) { id in s.store || id !in s.added }

  /** A task's lock is the one in the dictionary until the event is dropped, and a holder is recorded. */
  predicate LockOk(s: State, t: TaskId, pc: Pc) {
    HasLock(pc) ==>
      && pc.lock < s.nextLock
      && (Kept(s, pc.id) ==> pc.id in s.locks && s.locks[pc.id] == pc.lock)
      && (!Waiting(pc) ==> pc.lock in s.held && s.held[pc.lock] == t)
  }

  /** A lock is held by one task, which knows it; lock numbers are used once. */
  ghost predicate HeldOk(s: State) {
    && (forall l | l in s.held ::
          l < s.nextLock && s.held[l] in s.tasks && Holds(s.tasks[s.held[l]]) && s.tasks[s.held[l]].lock == l)
    && (forall id | id in s.locks :: s.locks[id] < s.nextLock)
  }

  ghost predicate Locks(s: State) { HeldOk(s) && forall t | t in s.tasks :: LockOk(s, t, s.tasks[t]) }

  /** The settled phases of finalization and deletion know there is nothing open. */
  predicate Closing(pc: Pc) {
    pc.phase.FinalizePersist? || pc.phase.DeletePersist? || (pc.phase.DeleteDecide? && pc.phase.count == 0)
  }

  /** What the phases after the terminal flag know; a final settlement of a tracked event has a score. */
  predicate Knows(s: State, pc: Pc) {
    match pc
    case Pc(StateLogged(c), id, _) => id in s.added && (id in s.store && !c ==> id in s.hasState)
    case Pc(FinalizeWait(c), id, _) => id in s.added && (id in s.store && !c ==> id in s.hasState)
    case Pc(FinalizeCancel(c), id, _) => id in s.added && (id in s.store && !c ==> id in s.hasState)
    case Pc(FinalizeWrite(c, event, states), id, _) =>
      id in s.added && (event && !c ==> states) && (!event ==> id !in s.store)
    case Pc(FinalizePersist(_), id, _) => id in s.added
    case Pc(EvictCount, id, _) => Over(s, id)
    case Pc(EvictDecide(count), id, _) => Over(s, id) && count == 0
    case Pc(DeletePersist, id, _) => id in s.added
    case Pc(DeleteDecide(_), id, _) => id in s.added
    case Pc(DeleteCount, id, _) => id in s.added
    case Pc(DeleteGather, id, _) => id in s.added && id !in s.store
    case _ => true
  }

  /** The event was settled, or it is gone. */
  predicate Over(s: State, id: Id) { id in s.added && (id in s.store ==> id in s.finalized) }

  /** Entries run only on tracked events that are not finalized. */
  predicate TaskOk(s: State, pc: Pc) {
    && (Entering(pc) ==> pc.id in s.store && pc.id !in s.finalized)
    && (Closing(pc) ==> OpenOf(s, pc.id) == 0)
    && Knows(s, pc)
  }

  ghost predicate RecordsOk(s: State) {
    && s.store <= s.added && s.finalized <= s.added && s.hasState <= s.store && s.orphans == {}
    && (forall id | id in s.order :: id in s.finalized)
    && (forall id | Over(s, id) :: OpenOf(s, id) == 0)
  }

  ghost predicate Books(s: State) { RecordsOk(s) && forall t | t in s.tasks :: TaskOk(s, s.tasks[t]) }

  ghost predicate Inv(s: State) { Locks(s) && Books(s) }
}
