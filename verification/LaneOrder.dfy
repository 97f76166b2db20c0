/** The order in which a write lane runs its commands (app/dbwriter.py, _put), over whole runs. */
module LaneOrder {
  import opened Options
  import opened WriteLane

  /** Commands of one priority were picked in the order of their sequence numbers. */
  ghost predicate Fifo(l: Lane) {
    forall a, b | 0 <= a < b < |l.ran| && l.ran[a] < |l.commands| && l.ran[b] < |l.commands| ::
      l.commands[l.ran[a]].priority == l.commands[l.ran[b]].priority ==> l.ran[a] < l.ran[b]
  }

  /** No put of the run finds the queue full. */
  predicate NeverFull(l: Lane, actions: seq<Action>)
    requires IsRun(l, actions)
    decreases |actions|
  {
    actions != [] ==> (actions[0].Put? ==> !Full(l)) && NeverFull(Apply(l, actions[0]), actions[1..])
  }

  /** Nothing was kept out, and what is queued comes after what ran before it in its priority. */
  ghost predicate Straight(l: Lane) {
    && |l.commands| == |l.status| && !Any(l, Waiting) && !Any(l, Woken)
    && (forall r | r in l.ran :: r < |l.commands|)
    && (forall r, j | r in l.ran && 0 <= j < |l.status| && l.status[j] == Queued && r < |l.commands| ::
          l.commands[r].priority == l.commands[j].priority ==> r < j)
  }

  lemma GetStraight(l: Lane, i: nat, wake: Option<nat>)
    requires Straight(l) && Fifo(l) && Enabled(l, Get(i, wake))
    ensures Straight(Apply(l, Get(i, wake))) && Fifo(Apply(l, Get(i, wake)))
  {
    var put := if wake.Some? then wake.value else 0;
    NobodyWoken(l, put);
    assert wake.None?;
    var after := Apply(l, Get(i, wake));
    SetMembers(l.status, i, Running);
    assert forall j | 0 <= j < |after.status| && after.status[j] == Queued :: l.status[j] == Queued && j != i;
  }

  lemma PutStraight(l: Lane, a: Action)
    requires Straight(l) && Fifo(l) && Enabled(l, a) && a.Put? && !Full(l)
    ensures Straight(Apply(l, a)) && Fifo(Apply(l, a))
  {
    assert (l.status + [Waiting])[|l.status| := Queued] == l.status + [Queued];
  }

  lemma FinishStraight(l: Lane, i: nat, ok: bool)
    requires Straight(l) && Fifo(l) && Enabled(l, Finish(i, ok))
    ensures Straight(Apply(l, Finish(i, ok))) && Fifo(Apply(l, Finish(i, ok)))
  {
    hide NotAfter;
    SetMembers(l.status, i, if ok then Completed else Failed);
  }

  lemma StraightKeeps(l: Lane, a: Action)
    requires Straight(l) && Fifo(l) && Enabled(l, a) && (a.Put? ==> !Full(l))
    ensures Straight(Apply(l, a)) && Fifo(Apply(l, a))
  {
    hide Straight, Fifo;
    match a
    case Put(_, _) => PutStraight(l, a);
    case Get(i, wake) => GetStraight(l, i, wake);
    case Finish(i, ok) => FinishStraight(l, i, ok);
    case Admit(i) => NobodyWoken(l, i);
    case Withdraw(i, _) => NobodyWoken(l, i);
    case _ => SameOrder(l, Apply(l, a));
  }

  lemma NobodyWoken(l: Lane, i: nat)
    requires Straight(l)
    ensures !Is(l, i, Woken) && !Is(l, i, Waiting)
  {
  }

  lemma SameOrder(l: Lane, r: Lane)
    requires Straight(l) && Fifo(l) && r.commands == l.commands && r.status == l.status && r.ran == l.ran
    ensures Straight(r) && Fifo(r)
  {
  }

  lemma {:induction false} StraightRun(l: Lane, actions: seq<Action>)
    requires Straight(l) && Fifo(l) && IsRun(l, actions) && NeverFull(l, actions)
    ensures Fifo(Run(l, actions))
    decreases |actions|
  {
    hide Straight, Fifo, Apply, Enabled;
    if actions != [] {
      StraightKeeps(l, actions[0]);
      StraightRun(Apply(l, actions[0]), actions[1..]);
    }
  }

  /** As long as no put finds the queue full, a whole run is first in, first out inside each priority. */
  lemma FifoUnlessFull(capacity: nat, actions: seq<Action>)
    requires IsRun(Start(capacity), actions) && NeverFull(Start(capacity), actions)
    ensures Fifo(Run(Start(capacity), actions))
  {
    hide IsRun, Run, NeverFull;
    StraightRun(Start(capacity), actions);
  }

  /** Every run of a lane of this capacity is first in, first out inside each priority. */
  ghost predicate AlwaysFifo(capacity: nat) {
    forall actions | IsRun(Start(capacity), actions) :: Fifo(Run(Start(capacity), actions))
  }

  /** The promise of the comment holds of a lane exactly when its queue is unbounded. */
  lemma FifoExactly(capacity: nat)
    ensures AlwaysFifo(capacity) <==> capacity == 0
  {
    hide IsRun, Run, NeverFull, Fifo;
    if capacity == 0 {
      forall actions | IsRun(Start(0), actions) ensures Fifo(Run(Start(0), actions)) {
        UnboundedNeverFull(Start(0), actions);
        FifoUnlessFull(0, actions);
      }
    } else {
      Overtakes(capacity);
    }
  }

  lemma {:induction false} UnboundedNeverFull(l: Lane, actions: seq<Action>)
    requires l.capacity == 0 && IsRun(l, actions)
    ensures NeverFull(l, actions)
    decreases |actions|
  {
    hide Any, NotAfter;
    if actions != [] { UnboundedNeverFull(Apply(l, actions[0]), actions[1..]); }
  }

  // ---- overtaking, over whole runs -------------------------------------------------------

  /** Not run, not withdrawn. */
  predicate Outstanding(s: Status) { s.Waiting? || s.Woken? || s.Queued? }

  /** At each pick, a command that ranks before the picked one is outstanding only if a full queue kept it out. */
  lemma PickedFirst(l: Lane, i: nat, wake: Option<nat>, j: nat)
    requires Inv(l) && Enabled(l, Get(i, wake)) && j < |l.commands| && j != i && NotAfter(l, j, i)
    ensures Outstanding(Apply(l, Get(i, wake)).status[j]) <==> l.status[j].Waiting? || l.status[j].Woken?
  {
    hide Count;
  }

  /** Command i was run, and command j after it. */
  ghost predicate Before(ran: seq<nat>, i: nat, j: nat) {
    exists a, b | 0 <= a < b < |ran| :: ran[a] == i && ran[b] == j
  }

  /** At some moment of the run, i is picked while the full queue keeps j suspended. */
  predicate PickedPast(l: Lane, more: seq<Action>, i: nat, j: nat)
    requires IsRun(l, more)
    decreases |more|
  {
    more != [] &&
    ((more[0].Get? && more[0].i == i && (Is(l, j, Waiting) || Is(l, j, Woken)))
     || PickedPast(Apply(l, more[0]), more[1..], i, j))
  }

  /** A step only appends to the picks and to the commands. */
  lemma StepAppends(l: Lane, a: Action)
    requires Enabled(l, a)
    ensures l.commands <= Apply(l, a).commands && Apply(l, a).ran == l.ran + (if a.Get? then [a.i] else [])
  {
    hide NotAfter, Any, Full, Wakes;
  }

  lemma WithdrawnStays(l: Lane, a: Action, j: nat)
    requires Enabled(l, a) && Is(l, j, Withdrawn)
    ensures Is(Apply(l, a), j, Withdrawn)
  {
    hide NotAfter, Any, Full;
  }

  lemma {:induction false} RunAppends(l: Lane, more: seq<Action>)
    requires IsRun(l, more)
    ensures l.commands <= Run(l, more).commands && l.ran <= Run(l, more).ran
    decreases |more|
  {
    hide Enabled, Apply;
    if more != [] {
      StepAppends(l, more[0]);
      RunAppends(Apply(l, more[0]), more[1..]);
    }
  }

  lemma {:induction false} RunWithdrawn(l: Lane, more: seq<Action>, j: nat)
    requires IsRun(l, more) && Is(l, j, Withdrawn)
    ensures Is(Run(l, more), j, Withdrawn)
    decreases |more|
  {
    hide Enabled, Apply, Is;
    if more != [] {
      WithdrawnStays(l, more[0], j);
      RunWithdrawn(Apply(l, more[0]), more[1..], j);
    }
  }

  /** Once run, a command is not suspended any more. */
  lemma {:induction false} RunNotPast(l: Lane, more: seq<Action>, i: nat, j: nat)
    requires Inv(l) && IsRun(l, more) && j in l.ran
    ensures !PickedPast(l, more, i, j)
    decreases |more|
  {
    hide Enabled, Apply, Counted, Backed, Resolved, DrainOk;
    if more != [] {
      ApplyKeeps(l, more[0]);
      StepAppends(l, more[0]);
      RunNotPast(Apply(l, more[0]), more[1..], i, j);
    }
  }

  /** A command put before the picked one with its priority, and run later, is suspended at the pick. */
  lemma SuspendedAtPick(l: Lane, a: Action, more: seq<Action>, j: nat)
    requires Inv(l) && a.Get? && Enabled(l, a) && IsRun(Apply(l, a), more) && j < a.i && j !in l.ran
    requires var r := Run(Apply(l, a), more);
      j in r.ran && a.i < |r.commands| && r.commands[a.i].priority == r.commands[j].priority
    ensures Is(l, j, Waiting) || Is(l, j, Woken)
  {
    hide Run, IsRun, Apply, Counted, Backed, Resolved, DrainOk;
    var next := Apply(l, a);
    ApplyKeeps(l, a);
    StepAppends(l, a);
    RunAppends(next, more);
    RunKeeps(next, more);
    PickFacts(l, a, j);
    PickedFirst(l, a.i, a.wake, j);
    if Is(next, j, Withdrawn) { RunWithdrawn(next, more, j); }
  }

  lemma PickFacts(l: Lane, a: Action, j: nat)
    requires a.Get? && Enabled(l, a) && j < a.i
    ensures a.i < |l.status| == |l.commands| == |Apply(l, a).status|
    ensures l.commands[j].priority == l.commands[a.i].priority ==> NotAfter(l, j, a.i)
  {
  }

  /** What was run first and what then, after a pick. */
  lemma FirstOfTwo(before: seq<nat>, ran: seq<nat>, i: nat, j: nat)
    requires before + [i] <= ran && i !in before && j !in before && j in ran && i != j
    requires forall a, b | 0 <= a < b < |ran| :: ran[a] != ran[b]
    ensures Before(ran, i, j) && !Before(ran, j, i)
  {
    var b :| 0 <= b < |ran| && ran[b] == j;
    assert ran[|before|] == (before + [i])[|before|] == i;
    assert forall a | 0 <= a < |before| :: ran[a] == (before + [i])[a] == before[a];
  }

  lemma {:induction false} OvertakesFrom(l: Lane, more: seq<Action>, i: nat, j: nat)
    requires Inv(l) && IsRun(l, more) && j < i && i !in l.ran && j !in l.ran
    requires var r := Run(l, more);
      i in r.ran && j in r.ran && i < |r.commands| && r.commands[i].priority == r.commands[j].priority
    ensures Before(Run(l, more).ran, i, j) <==> PickedPast(l, more, i, j)
    decreases |more|
  {
    hide Enabled, Apply, Inv, Before;
    if more != [] {
      var a, next := more[0], Apply(l, more[0]);
      ApplyKeeps(l, a);
      StepAppends(l, a);
      RunAppends(next, more[1..]);
      if a.Get? && a.i == i {
        SuspendedAtPick(l, a, more[1..], j);
        DistinctRan(next, more[1..]);
        FirstOfTwo(l.ran, Run(next, more[1..]).ran, i, j);
      } else if a.Get? && a.i == j {
        DistinctRan(next, more[1..]);
        FirstOfTwo(l.ran, Run(next, more[1..]).ran, j, i);
        RunNotPast(next, more[1..], i, j);
      } else {
        OvertakesFrom(next, more[1..], i, j);
      }
    }
  }

  lemma DistinctRan(l: Lane, more: seq<Action>)
    requires Inv(l) && IsRun(l, more)
    ensures var ran := Run(l, more).ran; forall a, b | 0 <= a < b < |ran| :: ran[a] != ran[b]
  {
    hide Run, IsRun, Counted, Backed, Resolved, DrainOk;
    RunKeeps(l, more);
  }

  /**
   Exactly when order inside a priority is broken: of two commands that a run both runs, the later one goes
   first if and only if it is picked at a moment at which the full queue keeps the earlier one suspended.
   */
  lemma OvertakesExactly(capacity: nat, actions: seq<Action>, i: nat, j: nat)
    requires IsRun(Start(capacity), actions) && j < i
    requires var l := Run(Start(capacity), actions);
      i in l.ran && j in l.ran && i < |l.commands| && l.commands[i].priority == l.commands[j].priority
    ensures Before(Run(Start(capacity), actions).ran, i, j) <==> PickedPast(Start(capacity), actions, i, j)
  {
    hide IsRun, Run, PickedPast, Before;
    OvertakesFrom(Start(capacity), actions, i, j);
  }

  // ---- a run that overtakes, for every bound ---------------------------------------------

  /** A full queue of research commands, then two durable ones: one put while it is full, one after a pick. */
  predicate Shape(l: Lane, k: nat, n: nat, first: Status, waiter: Status, late: Status, depth: int, ran: seq<nat>) {
    && l.capacity == k && l.accepting && l.worker && l.drain.Idle? && k > 0
    && |l.commands| == |l.status| == n && k <= n <= k + 2
    && (forall i | 0 <= i < k :: l.commands[i].priority == 10)
    && l.status[0] == first && (forall i | 1 <= i < k :: l.status[i] == Queued)
    && (n > k ==> l.commands[k].priority == 0 && l.status[k] == waiter)
    && (n > k + 1 ==> l.commands[k + 1].priority == 0 && l.status[k + 1] == late)
    && l.depth == depth && l.ran == ran
  }

  lemma {:induction false} Fill(k: nat, n: nat) returns (actions: seq<Action>)
    requires n <= k && k > 0
    ensures IsRun(Start(k), actions)
    ensures var l := Run(Start(k), actions);
            && l.capacity == k && l.accepting && l.worker && l.drain.Idle? && |l.commands| == |l.status| == n
            && l.depth == n && l.ran == []
            && forall i | 0 <= i < n :: l.commands[i].priority == 10 && l.status[i] == Queued
  {
    hide IsRun, Run;
    if n == 0 {
      NoActions(Start(k));
      actions := [];
    } else {
      var before := Fill(k, n - 1);
      var l := Run(Start(k), before);
      actions := Then(k, before, Put(10, false), Apply(l, Put(10, false)));
    }
  }

  lemma PutStep(l: Lane, k: nat, n: nat, first: Status, waiter: Status, late: Status, depth: int, ran: seq<nat>)
    requires Shape(l, k, n, first, waiter, late, depth, ran) && n <= k + 1
    ensures Enabled(l, Put(0, true))
    ensures var here := if depth >= k then Waiting else Queued;
            var more := if depth >= k then depth else depth + 1;
            if n == k then Shape(Apply(l, Put(0, true)), k, n + 1, first, here, late, more, ran)
            else Shape(Apply(l, Put(0, true)), k, n + 1, first, waiter, here, more, ran)
  {
  }

  lemma FirstPick(l: Lane, k: nat)
    requires Shape(l, k, k + 1, Queued, Waiting, Queued, k, [])
    ensures Enabled(l, Get(0, Some(k)))
    ensures Shape(Apply(l, Get(0, Some(k))), k, k + 1, Running, Woken, Queued, k - 1, [0])
  {
    assert !Any(l, Running);
  }

  lemma AdmitStep(l: Lane, k: nat, first: Status, late: Status, depth: int, ran: seq<nat>)
    requires Shape(l, k, k + 2, first, Woken, late, depth, ran)
    ensures Enabled(l, Admit(k))
    ensures Shape(Apply(l, Admit(k)), k, k + 2, first, if depth >= k then Waiting else Queued, late,
                  if depth >= k then depth else depth + 1, ran)
  {
  }

  lemma FinishStep(l: Lane, k: nat, i: nat, first: Status, waiter: Status, late: Status, depth: int, ran: seq<nat>)
    requires Shape(l, k, k + 2, first, waiter, late, depth, ran)
    requires (i == 0 && first == Running) || (i == k + 1 && late == Running)
    ensures Enabled(l, Finish(i, true))
    ensures Shape(Apply(l, Finish(i, true)), k, k + 2, if i == 0 then Completed else first, waiter,
                  if i == 0 then late else Completed, depth, ran)
  {
  }

  lemma LatePick(l: Lane, k: nat)
    requires Shape(l, k, k + 2, Completed, Waiting, Queued, k, [0])
    ensures Enabled(l, Get(k + 1, Some(k)))
    ensures Shape(Apply(l, Get(k + 1, Some(k))), k, k + 2, Completed, Woken, Running, k - 1, [0, k + 1])
  {
    assert !Any(l, Running);
  }

  lemma LastPick(l: Lane, k: nat)
    requires Shape(l, k, k + 2, Completed, Queued, Completed, k, [0, k + 1])
    ensures Enabled(l, Get(k, None))
    ensures Apply(l, Get(k, None)).ran == [0, k + 1, k] && Apply(l, Get(k, None)).commands == l.commands
  {
    assert !Any(l, Running);
  }

  lemma FullPut(k: nat) returns (actions: seq<Action>)
    requires k > 0
    ensures IsRun(Start(k), actions)
    ensures Shape(Run(Start(k), actions), k, k + 2, Running, Woken, Queued, k, [0])
  {
    hide IsRun, Run, Apply, Enabled;
    var filled := Fill(k, k);
    var l := Run(Start(k), filled);
    PutStep(l, k, k, Queued, Queued, Queued, k, []);
    actions := Then(k, filled, Put(0, true), Apply(l, Put(0, true)));
    l := Run(Start(k), actions);
    FirstPick(l, k);
    actions := Then(k, actions, Get(0, Some(k)), Apply(l, Get(0, Some(k))));
    l := Run(Start(k), actions);
    PutStep(l, k, k + 1, Running, Woken, Queued, k - 1, [0]);
    actions := Then(k, actions, Put(0, true), Apply(l, Put(0, true)));
  }

  lemma LatePutRuns(k: nat) returns (actions: seq<Action>)
    requires k > 0
    ensures IsRun(Start(k), actions)
    ensures Shape(Run(Start(k), actions), k, k + 2, Completed, Woken, Running, k - 1, [0, k + 1])
  {
    hide IsRun, Run, Apply, Enabled;
    actions := FullPut(k);
    var l := Run(Start(k), actions);
    AdmitStep(l, k, Running, Queued, k, [0]);
    actions := Then(k, actions, Admit(k), Apply(l, Admit(k)));
    l := Run(Start(k), actions);
    FinishStep(l, k, 0, Running, Waiting, Queued, k, [0]);
    actions := Then(k, actions, Finish(0, true), Apply(l, Finish(0, true)));
    l := Run(Start(k), actions);
    LatePick(l, k);
    actions := Then(k, actions, Get(k + 1, Some(k)), Apply(l, Get(k + 1, Some(k))));
  }

  /**
   For every bound: a durable command is put while the queue is full; the first pick wakes it, but another
   durable put takes the slot before it resumes, and runs before it.
   */
  lemma Overtakes(k: nat)
    requires k > 0
    ensures exists actions | IsRun(Start(k), actions) ::
              Run(Start(k), actions).ran == [0, k + 1, k] && !Fifo(Run(Start(k), actions))
  {
    hide IsRun, Run, Apply, Enabled;
    var actions := LatePutRuns(k);
    var l := Run(Start(k), actions);
    AdmitStep(l, k, Completed, Running, k - 1, [0, k + 1]);
    actions := Then(k, actions, Admit(k), Apply(l, Admit(k)));
    l := Run(Start(k), actions);
    FinishStep(l, k, k + 1, Completed, Queued, Running, k, [0, k + 1]);
    actions := Then(k, actions, Finish(k + 1, true), Apply(l, Finish(k + 1, true)));
    l := Run(Start(k), actions);
    LastPick(l, k);
    actions := Then(k, actions, Get(k, None), Apply(l, Get(k, None)));
    var last := Run(Start(k), actions);
    assert last.ran[1] == k + 1 && last.ran[2] == k;
    assert last.commands[k + 1].priority == last.commands[k].priority;
  }
}
