/**
 A write lane (app/dbwriter.py): submitters, a bounded priority queue and one worker, with one atomic
 step between two awaits. A command's number is drawn before a full queue admits it, so its position
 in `commands` is its sequence number whether or not it is queued yet.
 */
module WriteLane {
  import opened Options

  /** awaited: the submitter waits for the result (submit), rather than only for acceptance (schedule). */
  datatype Command = Command(priority: nat, awaited: bool)

  /** Waiting and Woken commands are put calls that a full queue has suspended. */
  datatype Status = Waiting | Woken | Queued | Running | Completed | Failed | Withdrawn

  /** How far a stop's wait for the queue to empty has come; behind: a put was woken when it was released. */
  datatype Drain = Idle | Joining | Joined(behind: bool)

  /** admitted, ran and resolved are history: puts that entered the queue, picks, and submitters that went on. */
  datatype Lane = Lane(capacity: nat, accepting: bool, worker: bool, drain: Drain,
                       commands: seq<Command>, status: seq<Status>,
                       depth: int, unfinished: int, completed: nat, failed: nat,
                       admitted: nat, ran: seq<nat>, resolved: set<nat>)

  function Start(capacity: nat): Lane { Lane(capacity, true, true, Idle, [], [], 0, 0, 0, 0, 0, [], {}) }

  predicate Full(l: Lane) { l.capacity > 0 && l.depth >= l.capacity }

  predicate Is(l: Lane, i: nat, s: Status) { i < |l.status| && l.status[i] == s }

  predicate Any(l: Lane, s: Status) { s in l.status }

  /** i is not after j in the heap: smaller priority number, then smaller sequence number. */
  predicate NotAfter(l: Lane, i: nat, j: nat)
    requires i < |l.commands| && j < |l.commands|
  {
    l.commands[i].priority < l.commands[j].priority || (l.commands[i].priority == l.commands[j].priority && i <= j)
  }

  datatype Action =
    | Put(priority: nat, awaited: bool)
    | Get(i: nat, wake: Option<nat>)
    | Admit(i: nat)
    | Finish(i: nat, ok: bool)
    | Withdraw(i: nat, wake: Option<nat>)
    | CancelCaller(i: nat)
    | StopBegin
    | Join
    | Drained
    | Cut

  /** The put call that is woken: one of those waiting, if any. */
  predicate Wakes(l: Lane, wake: Option<nat>, except: nat) {
    if wake.Some? then Is(l, wake.value, Waiting) && wake.value != except
    else forall j | 0 <= j < |l.status| && j != except :: l.status[j] != Waiting
  }

  predicate Enabled(l: Lane, a: Action) {
    |l.commands| == |l.status| &&
    match a
    case Put(_, _) => l.accepting && l.worker
    case Get(i, wake) =>
      l.worker && !Any(l, Running) && Is(l, i, Queued) && Wakes(l, wake, i)
      && forall j | 0 <= j < |l.status| && l.status[j] == Queued :: NotAfter(l, i, j)
    case Admit(i) => Is(l, i, Woken)
    case Finish(i, _) => l.worker && Is(l, i, Running)
    case Withdraw(i, wake) =>
      (Is(l, i, Waiting) && wake.None?) || (Is(l, i, Woken) && if Full(l) then wake.None? else Wakes(l, wake, i))
    case CancelCaller(i) => i < |l.status| && l.status[i] != Waiting && l.status[i] != Woken
    case StopBegin => true
    case Join => !l.accepting && l.drain.Idle?
    case Drained => l.worker && l.drain.Joined?
    case Cut => !l.accepting
  }

  function Set(l: Lane, i: nat, s: Status): Lane
    requires i < |l.status|
  {
    l.(status := l.status[i := s])
  }

  function Wake(l: Lane, wake: Option<nat>): Lane
    requires wake.Some? ==> wake.value < |l.status|
  {
    if wake.Some? then Set(l, wake.value, Woken) else l
  }

  function Enter(l: Lane, i: nat): Lane
    requires i < |l.status|
  {
    Set(l, i, Queued).(depth := l.depth + 1, unfinished := l.unfinished + 1, admitted := l.admitted + 1)
  }

  /** The wait for the queue to empty is released for good, whatever is put afterwards. */
  function Released(l: Lane): Lane { l.(drain := Joined(Any(l, Woken))) }

  function Apply(l: Lane, a: Action): Lane
    requires Enabled(l, a)
  {
    match a
    case Put(priority, awaited) =>
      var grown := l.(commands := l.commands + [Command(priority, awaited)], status := l.status + [Waiting]);
      if Full(l) then grown else Enter(grown, |l.status|)
    case Get(i, wake) =>
      Wake(Set(l, i, Running).(depth := l.depth - 1, ran := l.ran + [i]), wake)
    case Admit(i) => if Full(l) then Set(l, i, Waiting) else Enter(l, i)
    case Finish(i, ok) =>
      var after := Set(l, i, if ok then Completed else Failed).(unfinished := l.unfinished - 1);
      var counted := if ok then after.(completed := l.completed + 1) else after.(failed := l.failed + 1);
      var answered := if l.commands[i].awaited then counted.(resolved := l.resolved + {i}) else counted;
      if l.drain.Joining? && answered.unfinished == 0 then Released(answered) else answered
    case Withdraw(i, wake) => Wake(Set(l, i, Withdrawn).(resolved := l.resolved + {i}), wake)
    case CancelCaller(i) => l.(resolved := l.resolved + {i})
    case StopBegin => l.(accepting := false)
    case Join => if l.unfinished == 0 then Released(l) else l.(drain := Joining)
    case Drained => l.(worker := false)
    case Cut => l.(worker := false)
  }

  // ---- counting --------------------------------------------------------------------------

  function Count(status: seq<Status>, s: Status): nat {
    if status == [] then 0 else Count(status[..|status| - 1], s) + if status[|status| - 1] == s then 1 else 0
  }

  lemma {:induction false} CountUpdate(status: seq<Status>, i: nat, t: Status, s: Status)
    requires i < |status|
    ensures Count(status[i := t], s) ==
            Count(status, s) - (if status[i] == s then 1 else 0) + (if t == s then 1 else 0)
  {
    var n := |status| - 1;
    if i == n {
      assert status[i := t][..n] == status[..n];
    } else {
      assert status[i := t][..n] == status[..n][i := t];
      CountUpdate(status[..n], i, t, s);
    }
  }

  lemma CountGrow(status: seq<Status>, t: Status, s: Status)
    ensures Count(status + [t], s) == Count(status, s) + if t == s then 1 else 0
  {
    assert (status + [t])[..|status|] == status;
  }

  lemma {:induction false} CountZero(status: seq<Status>, s: Status)
    ensures Count(status, s) == 0 <==> s !in status
  {
    if status != [] {
      CountZero(status[..|status| - 1], s);
      assert status == status[..|status| - 1] + [status[|status| - 1]];
    }
  }

  // ---- the invariant ---------------------------------------------------------------------

  /** The counters the lane reports are the numbers of commands in each status. */
  ghost predicate Counted(l: Lane) {
    && |l.commands| == |l.status|
    && l.depth == Count(l.status, Queued) && l.completed == Count(l.status, Completed)
    && l.failed == Count(l.status, Failed) && l.unfinished == l.depth + Count(l.status, Running)
    && l.admitted == l.completed + l.failed + l.unfinished
    && (l.capacity > 0 ==> l.depth <= l.capacity)
  }

  predicate Ended(s: Status) { s.Completed? || s.Failed? || s.Withdrawn? }

  predicate Started(s: Status) { s.Running? || s.Completed? || s.Failed? }

  /** The picks so far: each command at most once, and exactly those that were started. */
  ghost predicate RanOnce(l: Lane) {
    && (forall a, b | 0 <= a < b < |l.ran| :: l.ran[a] != l.ran[b])
    && (forall i :: i in l.ran <==> 0 <= i < |l.status| && Started(l.status[i]))
    && (forall i, j | 0 <= i < j < |l.status| :: !(l.status[i] == Running && l.status[j] == Running))
  }

  /** Puts wait only while the queue and the puts already woken fill the capacity. */
  ghost predicate Backed(l: Lane) {
    && (Any(l, Waiting) ==> l.capacity > 0 && l.depth + Count(l.status, Woken) >= l.capacity)
    && (l.capacity == 0 ==> !Any(l, Woken))
  }

  ghost predicate Resolved(l: Lane) {
    forall i | 0 <= i < |l.status| && |l.commands| == |l.status| && l.commands[i].awaited ::
      Ended(l.status[i]) ==> i in l.resolved
  }

  /** Nothing is outstanding: every command was run to an end or withdrawn by its caller. */
  predicate AllDone(l: Lane) { forall i | 0 <= i < |l.status| :: Ended(l.status[i]) }

  /** A wait released with no put woken found everything done. */
  ghost predicate DrainOk(l: Lane) {
    (!l.drain.Idle? ==> !l.accepting) && (l.drain == Joined(false) ==> AllDone(l))
  }

  ghost predicate Inv(l: Lane) { Counted(l) && RanOnce(l) && Backed(l) && Resolved(l) && DrainOk(l) }

  lemma CountAll(status: seq<Status>, i: nat, t: Status)
    requires i < |status|
    ensures forall s :: Count(status[i := t], s) ==
                        Count(status, s) - (if status[i] == s then 1 else 0) + (if t == s then 1 else 0)
  {
    forall s { CountUpdate(status, i, t, s); }
  }

  // ---- every action keeps the invariant --------------------------------------------------

  lemma PutCounts(l: Lane, a: Action)
    requires Counted(l) && Backed(l) && Enabled(l, a) && a.Put?
    ensures Counted(Apply(l, a)) && Backed(Apply(l, a))
  {
    hide Count;
    var i := |l.status|;
    forall s { CountGrow(l.status, Waiting, s); }
    CountAll(l.status + [Waiting], i, Queued);
    assert (l.status + [Waiting])[i := Queued] == l.status + [Queued];
  }

  lemma AdmitCounts(l: Lane, i: nat)
    requires Counted(l) && Backed(l) && Enabled(l, Admit(i))
    ensures Counted(Apply(l, Admit(i))) && Backed(Apply(l, Admit(i)))
  {
    hide Count;
    CountAll(l.status, i, Waiting);
    CountAll(l.status, i, Queued);
    SetMembers(l.status, i, Waiting);
    SetMembers(l.status, i, Queued);
    CountZero(l.status[i := Waiting], Woken);
  }

  /** Changing one status adds the new one and may remove the old one. */
  lemma SetMembers(status: seq<Status>, i: nat, t: Status)
    requires i < |status|
    ensures t in status[i := t]
    ensures forall s | s != t && s != status[i] :: s in status[i := t] <==> s in status
    ensures forall s | s in status[i := t] :: s == t || s in status
  {
    var after := status[i := t];
    assert after[i] == t;
    forall s | s != t && s != status[i] && s in status ensures s in after {
      var j :| 0 <= j < |status| && status[j] == s;
      assert after[j] == s;
    }
  }

  lemma GetCounts(l: Lane, i: nat, wake: Option<nat>)
    requires Counted(l) && Backed(l) && Enabled(l, Get(i, wake))
    ensures Counted(Apply(l, Get(i, wake))) && Backed(Apply(l, Get(i, wake)))
  {
    hide Count;
    var one := l.status[i := Running];
    CountAll(l.status, i, Running);
    SetMembers(l.status, i, Running);
    if wake.Some? {
      CountAll(one, wake.value, Woken);
      SetMembers(one, wake.value, Woken);
    } else {
      assert Waiting !in one;
    }
  }

  lemma FinishCounts(l: Lane, i: nat, ok: bool)
    requires Counted(l) && Backed(l) && RanOnce(l) && Enabled(l, Finish(i, ok))
    ensures Counted(Apply(l, Finish(i, ok))) && Backed(Apply(l, Finish(i, ok)))
  {
    hide Count, RanOnce;
    var s := if ok then Completed else Failed;
    CountAll(l.status, i, s);
    SetMembers(l.status, i, s);
  }

  lemma WithdrawCounts(l: Lane, i: nat, wake: Option<nat>)
    requires Counted(l) && Backed(l) && Enabled(l, Withdraw(i, wake))
    ensures Counted(Apply(l, Withdraw(i, wake))) && Backed(Apply(l, Withdraw(i, wake)))
  {
    hide Count;
    var one := l.status[i := Withdrawn];
    CountAll(l.status, i, Withdrawn);
    SetMembers(l.status, i, Withdrawn);
    if wake.Some? {
      CountAll(one, wake.value, Woken);
      SetMembers(one, wake.value, Woken);
    }
  }

  lemma CountsKeep(l: Lane, a: Action)
    requires Counted(l) && Backed(l) && RanOnce(l) && Enabled(l, a)
    ensures Counted(Apply(l, a)) && Backed(Apply(l, a))
  {
    hide RanOnce, Count;
    match a
    case Put(_, _) => PutCounts(l, a);
    case Get(i, wake) => GetCounts(l, i, wake);
    case Admit(i) => AdmitCounts(l, i);
    case Finish(i, ok) => FinishCounts(l, i, ok);
    case Withdraw(i, wake) => WithdrawCounts(l, i, wake);
    case _ =>
  }

  /** A step that changes the status of commands that were not started, to one that is not. */
  lemma RanSame(l: Lane, r: Lane)
    requires RanOnce(l) && r.ran == l.ran && |l.status| <= |r.status|
    requires forall i | 0 <= i < |l.status| ::
               r.status[i] == l.status[i] || (!Started(l.status[i]) && !Started(r.status[i]))
    requires forall i | |l.status| <= i < |r.status| :: !Started(r.status[i])
    ensures RanOnce(r)
  {
    assert forall s: Status :: s == Running ==> Started(s);
    hide Started;
  }

  lemma GetRan(l: Lane, i: nat, wake: Option<nat>)
    requires |l.commands| == |l.status| && RanOnce(l) && Enabled(l, Get(i, wake))
    ensures RanOnce(Apply(l, Get(i, wake)))
  {
    var one := Set(l, i, Running).(depth := l.depth - 1, ran := l.ran + [i]);
    assert forall j | 0 <= j < |l.status| :: l.status[j] in l.status;
    assert RanOnce(one);
    RanSame(one, Wake(one, wake));
  }

  lemma FinishRan(l: Lane, i: nat, ok: bool)
    requires |l.commands| == |l.status| && RanOnce(l) && Enabled(l, Finish(i, ok))
    ensures RanOnce(Apply(l, Finish(i, ok)))
  {
    hide Any;
  }

  lemma RanKeeps(l: Lane, a: Action)
    requires |l.commands| == |l.status| && RanOnce(l) && Enabled(l, a)
    ensures RanOnce(Apply(l, a))
  {
    hide RanOnce;
    match a
    case Get(i, wake) => GetRan(l, i, wake);
    case Finish(i, ok) => FinishRan(l, i, ok);
    case _ => RanSame(l, Apply(l, a));
  }

  /** With nothing queued, in flight or woken, no put call can be suspended. */
  lemma NothingLeft(l: Lane)
    requires Counted(l) && Backed(l) && l.unfinished == 0 && !Any(l, Woken)
    ensures AllDone(l)
  {
    hide Count;
    CountZero(l.status, Running);
    CountZero(l.status, Queued);
    CountZero(l.status, Woken);
    forall i | 0 <= i < |l.status| ensures Ended(l.status[i]) { assert l.status[i] in l.status; }
  }

  lemma DoneStays(l: Lane, a: Action)
    requires AllDone(l) && !l.accepting && Enabled(l, a)
    ensures AllDone(Apply(l, a)) && Apply(l, a).status == l.status
  {
  }

  lemma DrainKeeps(l: Lane, a: Action)
    requires DrainOk(l) && Enabled(l, a)
    requires Counted(Apply(l, a)) && Backed(Apply(l, a))
    ensures DrainOk(Apply(l, a))
  {
    hide Counted, Backed, AllDone;
    var after := Apply(l, a);
    if l.drain == Joined(false) {
      DoneStays(l, a);
    } else if after.drain == Joined(false) {
      ReleasedEmpty(l, a);
      NothingLeft(after);
    }
  }

  lemma ReleasedEmpty(l: Lane, a: Action)
    requires Enabled(l, a) && l.drain != Joined(false) && Apply(l, a).drain == Joined(false)
    ensures Apply(l, a).unfinished == 0 && !Any(Apply(l, a), Woken)
  {
  }

  lemma ResolvedKeeps(l: Lane, a: Action)
    requires |l.commands| == |l.status| && Resolved(l) && Enabled(l, a)
    ensures Resolved(Apply(l, a))
  {
    hide NotAfter, Any, Full, Wakes;
    var after := Apply(l, a);
    assert l.resolved <= after.resolved;
    forall i | 0 <= i < |after.status| && |after.commands| == |after.status| && after.commands[i].awaited
               && Ended(after.status[i])
      ensures i in after.resolved
    {
      assert i < |l.status| && (Ended(l.status[i]) || i in after.resolved);
    }
  }

  /** Every step of every interleaving keeps the invariant. */
  lemma ApplyKeeps(l: Lane, a: Action)
    requires Inv(l) && Enabled(l, a)
    ensures Inv(Apply(l, a))
  {
    hide Apply, Enabled;
    hide Backed, RanOnce, Resolved, DrainOk;
    CountsKeep(l, a);
    RanKeeps(l, a);
    ResolvedKeeps(l, a);
    DrainKeeps(l, a);
  }

  // ---- whole runs ------------------------------------------------------------------------

  predicate IsRun(l: Lane, actions: seq<Action>)
    decreases |actions|
  {
    actions == [] || (Enabled(l, actions[0]) && IsRun(Apply(l, actions[0]), actions[1..]))
  }

  function Run(l: Lane, actions: seq<Action>): Lane
    requires IsRun(l, actions)
    decreases |actions|
  {
    if actions == [] then l else Run(Apply(l, actions[0]), actions[1..])
  }

  lemma {:induction false} RunKeeps(l: Lane, actions: seq<Action>)
    requires Inv(l) && IsRun(l, actions)
    ensures Inv(Run(l, actions))
    decreases |actions|
  {
    hide Inv, Enabled, Apply;
    if actions != [] {
      ApplyKeeps(l, actions[0]);
      RunKeeps(Apply(l, actions[0]), actions[1..]);
    }
  }

  lemma ReachableKeeps(capacity: nat, actions: seq<Action>)
    requires IsRun(Start(capacity), actions)
    ensures Inv(Run(Start(capacity), actions))
  {
    hide IsRun, Run;
    RunKeeps(Start(capacity), actions);
  }

  /**
   In every run: admitted commands = completed + failed + in flight + queued, the counters are the true
   numbers, and no command is run twice.
   */
  lemma LaneConserves(capacity: nat, actions: seq<Action>)
    requires IsRun(Start(capacity), actions)
    ensures var l := Run(Start(capacity), actions);
            && l.admitted == l.completed + l.failed + Count(l.status, Running) + Count(l.status, Queued)
            && l.completed == Count(l.status, Completed) && l.failed == Count(l.status, Failed)
            && (forall a, b | 0 <= a < b < |l.ran| :: l.ran[a] != l.ran[b])
            && (capacity > 0 ==> Count(l.status, Queued) <= capacity)
  {
    hide IsRun, Apply, Enabled;
    RunKeeps(Start(capacity), actions);
    CapacityFixed(Start(capacity), actions);
  }

  lemma {:induction false} CapacityFixed(l: Lane, actions: seq<Action>)
    requires IsRun(l, actions)
    ensures Run(l, actions).capacity == l.capacity
    decreases |actions|
  {
    if actions != [] { CapacityFixed(Apply(l, actions[0]), actions[1..]); }
  }

  /** Some step of the worker or of a woken put call. */
  predicate Progress(a: Action) { a.Get? || a.Admit? || a.Finish? }

  /** Until everything is done, a lane with its worker can always move: no submitter waits for ever. */
  lemma NeverStuck(capacity: nat, actions: seq<Action>)
    requires IsRun(Start(capacity), actions)
    requires Run(Start(capacity), actions).worker && !AllDone(Run(Start(capacity), actions))
    ensures exists a: Action :: Progress(a) && Enabled(Run(Start(capacity), actions), a)
  {
    hide IsRun, Run, Apply, Enabled;
    RunKeeps(Start(capacity), actions);
    CanMove(Run(Start(capacity), actions));
  }

  lemma CanMove(l: Lane)
    requires Inv(l) && l.worker && !AllDone(l)
    ensures exists a: Action :: Progress(a) && Enabled(l, a)
  {
    hide Count, RanOnce;
    if Any(l, Woken) {
      var w :| 0 <= w < |l.status| && l.status[w] == Woken;
      assert Progress(Admit(w)) && Enabled(l, Admit(w));
    } else if Any(l, Running) {
      var r :| 0 <= r < |l.status| && l.status[r] == Running;
      assert Progress(Finish(r, true)) && Enabled(l, Finish(r, true));
    } else {
      CountZero(l.status, Running);
      CountZero(l.status, Queued);
      if !Any(l, Queued) { NothingLeft(l); }
      GetPossible(l);
    }
  }

  lemma GetPossible(l: Lane)
    requires |l.commands| == |l.status| && l.worker && !Any(l, Running) && Any(l, Queued)
    ensures exists a: Action :: Progress(a) && Enabled(l, a)
  {
    var i := LeastQueued(l, |l.status|);
    var wake: Option<nat> := None;
    if Any(l, Waiting) {
      var w: nat :| w < |l.status| && l.status[w] == Waiting;
      wake := Some(w);
    }
    assert Progress(Get(i, wake)) && Enabled(l, Get(i, wake));
  }

  lemma {:induction false} LeastQueued(l: Lane, n: nat) returns (i: nat)
    requires n <= |l.status| == |l.commands| && Queued in l.status[..n]
    ensures i < n && l.status[i] == Queued
    ensures forall j | 0 <= j < n && l.status[j] == Queued :: NotAfter(l, i, j)
  {
    assert l.status[..n] == l.status[..n - 1] + [l.status[n - 1]];
    if Queued !in l.status[..n - 1] {
      i := n - 1;
      forall j | 0 <= j < n - 1 ensures l.status[j] != Queued { assert l.status[..n - 1][j] == l.status[j]; }
    } else {
      i := LeastQueued(l, n - 1);
      if l.status[n - 1] == Queued && !NotAfter(l, i, n - 1) { i := n - 1; }
    }
  }

  /** Without a worker nothing more is run, and only a caller that gives up stops waiting. */
  lemma {:induction false} StoppedRunsNothing(l: Lane, actions: seq<Action>)
    requires IsRun(l, actions) && !l.worker
    ensures Run(l, actions).ran == l.ran && Run(l, actions).completed == l.completed
    ensures Run(l, actions).failed == l.failed && !Run(l, actions).worker
    decreases |actions|
  {
    if actions != [] { StoppedRunsNothing(Apply(l, actions[0]), actions[1..]); }
  }

  lemma {:induction false} RunExtends(l: Lane, actions: seq<Action>, a: Action)
    requires IsRun(l, actions) && Enabled(Run(l, actions), a)
    ensures IsRun(l, actions + [a]) && Run(l, actions + [a]) == Apply(Run(l, actions), a)
    decreases |actions|
  {
    hide Enabled, Apply;
    var all := actions + [a];
    if actions == [] {
      assert all == [a] && all[1..] == [];
      assert IsRun(Apply(l, a), []);
    } else {
      assert all[0] == actions[0] && all[1..] == actions[1..] + [a];
      RunExtends(Apply(l, actions[0]), actions[1..], a);
    }
  }

  lemma NoActions(l: Lane)
    ensures IsRun(l, []) && Run(l, []) == l
  {
  }

  /** A run from the start, one step longer. */
  lemma Then(capacity: nat, actions: seq<Action>, a: Action, next: Lane) returns (longer: seq<Action>)
    requires IsRun(Start(capacity), actions) && Enabled(Run(Start(capacity), actions), a)
    requires Apply(Run(Start(capacity), actions), a) == next
    ensures longer == actions + [a] && IsRun(Start(capacity), longer) && Run(Start(capacity), longer) == next
  {
    RunExtends(Start(capacity), actions, a);
    longer := actions + [a];
  }
}
