/**
  Progress of the grading queue: nobody waits behind more rounds than the batch size makes
  unavoidable, and once arrivals stop the feeder comes to rest with both queues empty.
*/
module QueueProgress {
  import opened Common
  import opened Ordering
  import opened SubmissionStatus
  import opened GradingQueue

  // ---- Bounded waiting ----

  /** Submissions of the same queue that are served before x. */
  function Rivals(rows: Rows, st: Status, x: int): set<int> {
    set y | y in rows && y < x && rows[y].status == st
  }

  /** The submission the feeder has marked Working and not yet let go of. */
  predicate Running(feeder: Feeder, x: int) {
    match feeder
    case Executing(id, _, _) => id == x
    case Closing(id, _, _) => id == x
    case Reexecuting(id, _, _) => id == x
    case Reclosing(id, _, _) => id == x
    case _ => false
  }

  /** This step is the feeder marking x as Working. */
  predicate Starts(s: State, step: Step, x: int) {
    step.FeederMoves? &&
    match s.feeder
    case Draining(todo, _) => todo != [] && todo[0] == x
    case Starting(id, _, _) => id == x
    case _ => false
  }

  /** This step is the feeder resetting the reevaling submission x. */
  predicate Resets(s: State, step: Step, x: int) {
    step.FeederMoves? && s.feeder.Resetting? && s.feeder.todo != [] && s.feeder.todo[0] == x
  }

  /** A move starts x exactly when it makes x working, and resets x exactly when it makes x waiting. */
  lemma StartsMeans(s: State, x: int)
    requires FeederEnabled(s) && x in s.rows
    ensures s.rows[x].status != Working ==>
      (Starts(s, FeederMoves, x) <==> x in FeederStep(s).rows && FeederStep(s).rows[x].status == Working)
    ensures s.rows[x].status != Waiting ==>
      (Resets(s, FeederMoves, x) <==> x in FeederStep(s).rows && FeederStep(s).rows[x].status == Waiting)
    ensures Starts(s, FeederMoves, x) ==> Running(FeederStep(s).feeder, x)
    ensures !Starts(s, FeederMoves, x) && !Running(s.feeder, x) ==> !Running(FeederStep(s).feeder, x)
  {
    hide FirstIds;
  }

  /** Other goroutines leave row x alone and put no smaller id into its queue. */
  ghost predicate Undisturbed(s: State, step: Step, st: Status, x: int)
    requires Enabled(s, step)
  {
    !step.FeederMoves? ==>
      var t := Do(s, step);
      && x in t.rows && x in s.rows && t.rows[x] == s.rows[x]
      && Rivals(t.rows, st, x) <= Rivals(s.rows, st, x)
  }

  ghost predicate UndisturbedRun(s: State, steps: seq<Step>, st: Status, x: int)
    requires Enabledness(s, steps)
    decreases |steps|
  {
    steps == [] || (Undisturbed(s, steps[0], st, x) && UndisturbedRun(Do(s, steps[0]), steps[1..], st, x))
  }

  /** The run contains the step that `wanted` describes. */
  ghost predicate StartedIn(s: State, steps: seq<Step>, x: int)
    requires Enabledness(s, steps)
    decreases |steps|
  {
    steps != [] && (Starts(s, steps[0], x) || StartedIn(Do(s, steps[0]), steps[1..], x))
  }

  ghost predicate ResetIn(s: State, steps: seq<Step>, x: int)
    requires Enabledness(s, steps)
    decreases |steps|
  {
    steps != [] && (Resets(s, steps[0], x) || ResetIn(Do(s, steps[0]), steps[1..], x))
  }

  /** The step that ends the loop over the waiting (reevaling) snapshot. */
  predicate EndsWaitingLoop(s: State, step: Step) {
    step.FeederMoves? && s.feeder.Draining? && s.feeder.todo == []
  }

  predicate EndsReevalLoop(s: State, step: Step) {
    step.FeederMoves? && s.feeder.Resetting? && s.feeder.todo == []
  }

  ghost function WaitingLoops(s: State, steps: seq<Step>): nat
    requires Enabledness(s, steps)
    decreases |steps|
  {
    if steps == [] then 0
    else (if EndsWaitingLoop(s, steps[0]) then 1 else 0) + WaitingLoops(Do(s, steps[0]), steps[1..])
  }

  ghost function ReevalLoops(s: State, steps: seq<Step>): nat
    requires Enabledness(s, steps)
    decreases |steps|
  {
    if steps == [] then 0
    else (if EndsReevalLoop(s, steps[0]) then 1 else 0) + ReevalLoops(Do(s, steps[0]), steps[1..])
  }

  // ---- The snapshots the feeder is working through ----

  function ReevalTodo(feeder: Feeder): seq<int> {
    match feeder
    case Resetting(todo, _) => todo
    case Nudging(_, todo, _) => todo
    case Starting(_, todo, _) => todo
    case Reexecuting(_, todo, _) => todo
    case Reclosing(_, todo, _) => todo
    case _ => []
  }

  function WaitingTodo(feeder: Feeder): seq<int> {
    match feeder
    case Draining(todo, _) => todo
    case Executing(_, todo, _) => todo
    case Closing(_, todo, _) => todo
    case _ => []
  }

  /** The ids the feeder is about to mark Working: its waiting snapshot, or the one it has just reset. */
  function Taken(feeder: Feeder): seq<int> {
    if feeder.Nudging? || feeder.Starting? then [feeder.id] else WaitingTodo(feeder)
  }

  predicate InWaitingLoop(feeder: Feeder) {
    feeder.Draining? || feeder.Executing? || feeder.Closing?
  }

  predicate InReevalLoop(feeder: Feeder) {
    !InWaitingLoop(feeder) && !feeder.Parked? && !feeder.Woken?
  }

  ghost predicate IsQueued(s: State, st: Status, x: int) {
    x in s.rows && s.rows[x].status == st
  }

  /** What waits untaken after a move, waited untaken before it. */
  lemma NothingNewWaits(s: State, y: int)
    requires FeederEnabled(s) && !s.feeder.Woken?
    requires IsQueued(FeederStep(s), Waiting, y) && y !in Taken(FeederStep(s).feeder)
    ensures IsQueued(s, Waiting, y) && y !in Taken(s.feeder)
  {
    hide FirstIds;
    if s.feeder.Draining? && s.feeder.todo != [] {
      assert s.feeder.todo == [s.feeder.todo[0]] + s.feeder.todo[1..];
    }
  }

  /** The same for reevaluations, except when their snapshot is taken. */
  lemma NothingNewReevals(s: State, y: int)
    requires FeederEnabled(s) && !EndsWaitingLoop(s, FeederMoves)
    requires IsQueued(FeederStep(s), Reevaling, y) && y !in ReevalTodo(FeederStep(s).feeder)
    ensures IsQueued(s, Reevaling, y) && y !in ReevalTodo(s.feeder)
  {
    hide FirstIds;
    if s.feeder.Resetting? && s.feeder.todo != [] {
      assert s.feeder.todo == [s.feeder.todo[0]] + s.feeder.todo[1..];
    }
  }

  /** n / batch, by repeated subtraction: the whole batches that fit before the next one. */
  function Batches(n: nat, batch: nat): nat
    requires batch > 0
  {
    if n < batch then 0 else 1 + Batches(n - batch, batch)
  }

  lemma {:induction false} BatchesIsQuotient(n: nat)
    ensures Batches(n, WAITING_BATCH) == n / WAITING_BATCH
    ensures Batches(n, REEVAL_BATCH) == n / REEVAL_BATCH
  {
    if n >= WAITING_BATCH {
      BatchesIsQuotient(n - WAITING_BATCH);
    }
    if n >= REEVAL_BATCH {
      BatchesIsQuotient(n - REEVAL_BATCH);
    }
  }

  lemma {:induction false} BatchesMonotone(a: nat, b: nat, batch: nat)
    requires batch > 0 && a <= b
    ensures Batches(a, batch) <= Batches(b, batch)
  {
    if a >= batch {
      BatchesMonotone(a - batch, b - batch, batch);
    }
  }

  lemma BatchesOfSubset(a: set<int>, b: set<int>, batch: nat)
    requires batch > 0 && a <= b
    ensures Batches(|a|, batch) <= Batches(|b|, batch)
  {
    SubsetCardinality(a, b);
    BatchesMonotone(|a|, |b|, batch);
  }

  /** The snapshot cut down to a batch is the front of the whole queue in order. */
  lemma TruncatedSnapshot(rows: Rows, st: Status, batch: nat)
    ensures
      var all := Sorted(WithStatus(rows, st));
      Truncate(FirstIds(rows, st, batch + 1), batch) == if |all| <= batch then all else all[..batch]
  {
  }

  lemma SnapshotHoldsOnlyRivals(rows: Rows, st: Status, x: int, batch: nat)
    requires x in rows && rows[x].status == st
    requires x !in Truncate(FirstIds(rows, st, batch + 1), batch)
    ensures |Truncate(FirstIds(rows, st, batch + 1), batch)| == batch
    ensures Elements(Truncate(FirstIds(rows, st, batch + 1), batch)) <= Rivals(rows, st, x)
  {
    hide Sorted;
    var all := Sorted(WithStatus(rows, st));
    TruncatedSnapshot(rows, st, batch);
    assert x in all;
    assert all == all[..batch] + all[batch..];
    var j :| 0 <= j < |all[batch..]| && all[batch..][j] == x;
    forall y | y in all[..batch] ensures y in Rivals(rows, st, x) {
      var i :| 0 <= i < batch && all[..batch][i] == y;
      assert all[i] < all[batch + j] && all[i] in WithStatus(rows, st);
    }
  }

  lemma TruncateKeepsOrder(ids: seq<int>, batch: nat)
    requires Ascending(ids)
    ensures Ascending(Truncate(ids, batch))
    ensures forall x | x in Truncate(ids, batch) :: x in ids
  {
  }

  /** A snapshot either holds x or takes a whole batch of rivals off its hands. */
  lemma SnapshotServesRivals(rows: Rows, st: Status, x: int, batch: nat)
    requires batch > 0 && x in rows && rows[x].status == st
    requires x !in Truncate(FirstIds(rows, st, batch + 1), batch)
    ensures
      var todo := Truncate(FirstIds(rows, st, batch + 1), batch);
      var rivals := Rivals(rows, st, x);
      Batches(|rivals - Elements(todo)|, batch) + 1 == Batches(|rivals|, batch)
  {
    var todo := Truncate(FirstIds(rows, st, batch + 1), batch);
    var rivals := Rivals(rows, st, x);
    SnapshotHoldsOnlyRivals(rows, st, x, batch);
    FirstIdsAreFirst(rows, st, batch + 1);
    TruncateKeepsOrder(FirstIds(rows, st, batch + 1), batch);
    DistinctCardinality(todo);
    SubsetCardinality(Elements(todo), rivals);
    assert |rivals - Elements(todo)| == |rivals| - batch;
  }

  // ---- Waiting submissions ----

  /** The rivals no snapshot has taken yet; one that is being reset passes through Waiting unseen. */
  ghost function WaitingAhead(s: State, x: int): set<int> {
    Rivals(s.rows, Waiting, x) - Elements(Taken(s.feeder))
  }

  /** How many more waiting loops can end before x is started. */
  ghost function WaitingBudget(s: State, x: int): nat {
    if x in WaitingTodo(s.feeder) then 0
    else Batches(|WaitingAhead(s, x)|, WAITING_BATCH) + if InWaitingLoop(s.feeder) then 1 else 0
  }

  lemma EnvironmentKeepsWaitingBudget(s: State, step: Step, x: int)
    requires Enabled(s, step) && !step.FeederMoves? && Undisturbed(s, step, Waiting, x)
    ensures WaitingBudget(Do(s, step), x) <= WaitingBudget(s, x)
  {
    assert WaitingAhead(Do(s, step), x) <= WaitingAhead(s, x);
    BatchesOfSubset(WaitingAhead(Do(s, step), x), WaitingAhead(s, x), WAITING_BATCH);
  }

  lemma WaitsUntilStarted(s: State, x: int)
    requires FeederEnabled(s) && !s.feeder.Woken?
    requires IsQueued(s, Waiting, x) && !Running(s.feeder, x) && !Starts(s, FeederMoves, x)
    ensures
      var t := FeederStep(s);
      && IsQueued(t, Waiting, x) && !Running(t.feeder, x)
      && (x in WaitingTodo(s.feeder) <==> x in WaitingTodo(t.feeder))
  {
    hide FirstIds;
    if s.feeder.Draining? && s.feeder.todo != [] {
      assert s.feeder.todo == [s.feeder.todo[0]] + s.feeder.todo[1..];
    }
  }

  lemma FeederKeepsWaitingAhead(s: State, x: int)
    requires FeederEnabled(s) && !s.feeder.Woken?
    ensures WaitingAhead(FeederStep(s), x) <= WaitingAhead(s, x)
  {
    hide FeederStep, Taken;
    var t := FeederStep(s);
    forall y | y in WaitingAhead(t, x) ensures y in WaitingAhead(s, x) {
      NothingNewWaits(s, y);
    }
  }

  lemma WaitingSnapshotShrinksBudget(s: State, t: State, x: int)
    requires s.feeder.Woken? && t.feeder.Draining? && t == s.(feeder := t.feeder)
    requires
      var rivals := Rivals(s.rows, Waiting, x);
      x !in t.feeder.todo ==>
        Batches(|rivals - Elements(t.feeder.todo)|, WAITING_BATCH) + 1 == Batches(|rivals|, WAITING_BATCH)
    ensures WaitingBudget(t, x) <= WaitingBudget(s, x)
  {
    hide Batches, Rivals;
    assert WaitingAhead(s, x) == Rivals(s.rows, Waiting, x);
    assert WaitingAhead(t, x) == Rivals(s.rows, Waiting, x) - Elements(t.feeder.todo);
  }

  lemma SmallerWaitingBudget(s: State, t: State, x: int, ended: bool)
    requires x in WaitingTodo(s.feeder) <==> x in WaitingTodo(t.feeder)
    requires WaitingAhead(t, x) <= WaitingAhead(s, x)
    requires if ended then x !in WaitingTodo(s.feeder) && InWaitingLoop(s.feeder) && !InWaitingLoop(t.feeder)
             else InWaitingLoop(t.feeder) <==> InWaitingLoop(s.feeder)
    ensures WaitingBudget(t, x) + (if ended then 1 else 0) <= WaitingBudget(s, x)
  {
    BatchesOfSubset(WaitingAhead(t, x), WaitingAhead(s, x), WAITING_BATCH);
  }

  lemma FeederShrinksWaitingBudget(s: State, x: int)
    requires FeederEnabled(s)
    requires IsQueued(s, Waiting, x) && !Running(s.feeder, x) && !Starts(s, FeederMoves, x)
    ensures
      var t := FeederStep(s);
      && IsQueued(t, Waiting, x) && !Running(t.feeder, x)
      && WaitingBudget(t, x) + (if EndsWaitingLoop(s, FeederMoves) then 1 else 0) <= WaitingBudget(s, x)
  {
    hide Batches, Rivals, FirstIds, WithStatus, WaitingAhead, WaitingBudget;
    if s.feeder.Woken? {
      if x !in WaitingTodo(FeederStep(s).feeder) {
        SnapshotServesRivals(s.rows, Waiting, x, WAITING_BATCH);
      }
      WaitingSnapshotShrinksBudget(s, FeederStep(s), x);
    } else {
      WaitsUntilStarted(s, x);
      FeederKeepsWaitingAhead(s, x);
      SmallerWaitingBudget(s, FeederStep(s), x, EndsWaitingLoop(s, FeederMoves));
    }
  }

  lemma {:induction false} WaitingLoopsWithinBudget(s: State, steps: seq<Step>, x: int)
    requires Enabledness(s, steps) && UndisturbedRun(s, steps, Waiting, x)
    requires IsQueued(s, Waiting, x) && !Running(s.feeder, x)
    requires !StartedIn(s, steps, x)
    ensures WaitingLoops(s, steps) <= WaitingBudget(s, x)
    decreases |steps|
  {
    if steps != [] {
      if steps[0].FeederMoves? {
        FeederShrinksWaitingBudget(s, x);
      } else {
        EnvironmentKeepsWaitingBudget(s, steps[0], x);
      }
      WaitingLoopsWithinBudget(Do(s, steps[0]), steps[1..], x);
    }
  }

  /**
    A waiting submission with k smaller waiting ids is started by the time the feeder has gone
    through its waiting loop k/40 + 1 times, whatever larger ids arrive meanwhile.
  */
  lemma WaitingIsBounded(s: State, steps: seq<Step>, x: int)
    requires Enabledness(s, steps) && UndisturbedRun(s, steps, Waiting, x)
    requires s.feeder.Parked? && IsQueued(s, Waiting, x)
    requires WaitingLoops(s, steps) >= |Rivals(s.rows, Waiting, x)| / 40 + 1
    ensures StartedIn(s, steps, x)
  {
    if !StartedIn(s, steps, x) {
      BatchesIsQuotient(|Rivals(s.rows, Waiting, x)|);
      WaitingLoopsWithinBudget(s, steps, x);
      assert false;
    }
  }

  /** One that arrives in the middle of a round may have to wait for that round's loop to end. */
  lemma WaitingIsBoundedAtAnyTime(s: State, steps: seq<Step>, x: int)
    requires Enabledness(s, steps) && UndisturbedRun(s, steps, Waiting, x)
    requires IsQueued(s, Waiting, x) && !Running(s.feeder, x)
    requires WaitingLoops(s, steps) >= |Rivals(s.rows, Waiting, x)| / 40 + 2
    ensures StartedIn(s, steps, x)
  {
    if !StartedIn(s, steps, x) {
      BatchesOfSubset(WaitingAhead(s, x), Rivals(s.rows, Waiting, x), WAITING_BATCH);
      BatchesIsQuotient(|Rivals(s.rows, Waiting, x)|);
      WaitingLoopsWithinBudget(s, steps, x);
      assert false;
    }
  }

  // ---- Reevaluations ----

  ghost function ReevalAhead(s: State, x: int): set<int> {
    Rivals(s.rows, Reevaling, x) - Elements(ReevalTodo(s.feeder))
  }

  /** How many more reevaluation loops can end before x is reset. */
  ghost function ReevalBudget(s: State, x: int): nat {
    if x in ReevalTodo(s.feeder) then 0
    else Batches(|ReevalAhead(s, x)|, REEVAL_BATCH) + if InReevalLoop(s.feeder) then 1 else 0
  }

  /** While x is reevaling, the feeder is not in the middle of doing something else to it. */
  predicate Untouched(feeder: Feeder, x: int) {
    !Running(feeder, x) && x !in Taken(feeder)
  }

  lemma EnvironmentKeepsReevalBudget(s: State, step: Step, x: int)
    requires Enabled(s, step) && !step.FeederMoves? && Undisturbed(s, step, Reevaling, x)
    ensures ReevalBudget(Do(s, step), x) <= ReevalBudget(s, x)
  {
    assert ReevalAhead(Do(s, step), x) <= ReevalAhead(s, x);
    BatchesOfSubset(ReevalAhead(Do(s, step), x), ReevalAhead(s, x), REEVAL_BATCH);
  }

  lemma ReevalsUntilReset(s: State, x: int)
    requires FeederEnabled(s) && !EndsWaitingLoop(s, FeederMoves) && !s.feeder.Woken?
    requires IsQueued(s, Reevaling, x) && Untouched(s.feeder, x) && !Resets(s, FeederMoves, x)
    ensures
      var t := FeederStep(s);
      IsQueued(t, Reevaling, x) && (x in ReevalTodo(s.feeder) <==> x in ReevalTodo(t.feeder))
  {
    hide FirstIds;
    if s.feeder.Resetting? && s.feeder.todo != [] {
      assert s.feeder.todo == [s.feeder.todo[0]] + s.feeder.todo[1..];
    }
  }

  lemma StaysUntouched(s: State, x: int)
    requires FeederEnabled(s) && !s.feeder.Woken? && Untouched(s.feeder, x) && !Resets(s, FeederMoves, x)
    ensures Untouched(FeederStep(s).feeder, x)
  {
    hide FirstIds, SetStatus;
    if s.feeder.Draining? && s.feeder.todo != [] {
      assert s.feeder.todo == [s.feeder.todo[0]] + s.feeder.todo[1..];
    }
  }

  lemma ReevalLoopGoesOn(s: State)
    requires FeederEnabled(s) && !EndsWaitingLoop(s, FeederMoves) && !s.feeder.Woken?
    ensures InReevalLoop(FeederStep(s).feeder) <==> InReevalLoop(s.feeder) && !EndsReevalLoop(s, FeederMoves)
  {
    hide FirstIds, SetStatus;
  }

  lemma FeederKeepsReevalAhead(s: State, x: int)
    requires FeederEnabled(s) && !EndsWaitingLoop(s, FeederMoves)
    ensures ReevalAhead(FeederStep(s), x) <= ReevalAhead(s, x)
  {
    hide FeederStep, ReevalTodo;
    var t := FeederStep(s);
    forall y | y in ReevalAhead(t, x) ensures y in ReevalAhead(s, x) {
      NothingNewReevals(s, y);
    }
  }

  lemma ReevalSnapshotShrinksBudget(s: State, t: State, x: int)
    requires s.feeder.Draining? && s.feeder.todo == [] && t.feeder.Resetting? && t == s.(feeder := t.feeder)
    requires
      var rivals := Rivals(s.rows, Reevaling, x);
      x !in t.feeder.todo ==>
        Batches(|rivals - Elements(t.feeder.todo)|, REEVAL_BATCH) + 1 == Batches(|rivals|, REEVAL_BATCH)
    ensures ReevalBudget(t, x) <= ReevalBudget(s, x)
  {
    hide Batches, Rivals;
    assert ReevalAhead(s, x) == Rivals(s.rows, Reevaling, x);
    assert ReevalAhead(t, x) == Rivals(s.rows, Reevaling, x) - Elements(t.feeder.todo);
  }

  lemma SmallerReevalBudget(s: State, t: State, x: int, ended: bool)
    requires x in ReevalTodo(s.feeder) <==> x in ReevalTodo(t.feeder)
    requires ReevalAhead(t, x) <= ReevalAhead(s, x)
    requires if ended then x !in ReevalTodo(s.feeder) && InReevalLoop(s.feeder) && !InReevalLoop(t.feeder)
             else InReevalLoop(t.feeder) <==> InReevalLoop(s.feeder)
    ensures ReevalBudget(t, x) + (if ended then 1 else 0) <= ReevalBudget(s, x)
  {
    BatchesOfSubset(ReevalAhead(t, x), ReevalAhead(s, x), REEVAL_BATCH);
  }

  /** The waiting snapshot does not hold the reevaling x. */
  lemma WaitingSnapshotLeavesReevals(s: State, x: int)
    requires s.feeder.Woken? && IsQueued(s, Reevaling, x)
    ensures
      var t := FeederStep(s);
      && IsQueued(t, Reevaling, x) && Untouched(t.feeder, x)
      && ReevalTodo(t.feeder) == [] && !InReevalLoop(t.feeder)
      && ReevalAhead(t, x) == ReevalAhead(s, x)
  {
    hide Sorted, FirstIds;
    TruncatedSnapshot(s.rows, Waiting, WAITING_BATCH);
    var all := Sorted(WithStatus(s.rows, Waiting));
    assert x !in all;
  }

  lemma FeederShrinksReevalBudget(s: State, x: int)
    requires FeederEnabled(s)
    requires IsQueued(s, Reevaling, x) && Untouched(s.feeder, x) && !Resets(s, FeederMoves, x)
    ensures
      var t := FeederStep(s);
      && IsQueued(t, Reevaling, x) && Untouched(t.feeder, x)
      && ReevalBudget(t, x) + (if EndsReevalLoop(s, FeederMoves) then 1 else 0) <= ReevalBudget(s, x)
  {
    hide Batches, Rivals, FirstIds, WithStatus, ReevalAhead, ReevalBudget, SetStatus;
    if EndsWaitingLoop(s, FeederMoves) {
      if x !in ReevalTodo(FeederStep(s).feeder) {
        SnapshotServesRivals(s.rows, Reevaling, x, REEVAL_BATCH);
      }
      ReevalSnapshotShrinksBudget(s, FeederStep(s), x);
    } else {
      if s.feeder.Woken? {
        WaitingSnapshotLeavesReevals(s, x);
      } else {
        ReevalsUntilReset(s, x);
        StaysUntouched(s, x);
        ReevalLoopGoesOn(s);
        FeederKeepsReevalAhead(s, x);
      }
      SmallerReevalBudget(s, FeederStep(s), x, EndsReevalLoop(s, FeederMoves));
    }
  }

  lemma {:induction false} ReevalLoopsWithinBudget(s: State, steps: seq<Step>, x: int)
    requires Enabledness(s, steps) && UndisturbedRun(s, steps, Reevaling, x)
    requires IsQueued(s, Reevaling, x) && Untouched(s.feeder, x)
    requires !ResetIn(s, steps, x)
    ensures ReevalLoops(s, steps) <= ReevalBudget(s, x)
    decreases |steps|
  {
    if steps != [] {
      if steps[0].FeederMoves? {
        FeederShrinksReevalBudget(s, x);
      } else {
        EnvironmentKeepsReevalBudget(s, steps[0], x);
      }
      ReevalLoopsWithinBudget(Do(s, steps[0]), steps[1..], x);
    }
  }

  /** The same for a reevaluation, five at a time. */
  lemma ReevalIsBounded(s: State, steps: seq<Step>, x: int)
    requires Enabledness(s, steps) && UndisturbedRun(s, steps, Reevaling, x)
    requires s.feeder.Parked? && IsQueued(s, Reevaling, x)
    requires ReevalLoops(s, steps) >= |Rivals(s.rows, Reevaling, x)| / 5 + 1
    ensures ResetIn(s, steps, x)
  {
    if !ResetIn(s, steps, x) {
      BatchesIsQuotient(|Rivals(s.rows, Reevaling, x)|);
      ReevalLoopsWithinBudget(s, steps, x);
      assert false;
    }
  }

  lemma ReevalIsBoundedAtAnyTime(s: State, steps: seq<Step>, x: int)
    requires Enabledness(s, steps) && UndisturbedRun(s, steps, Reevaling, x)
    requires IsQueued(s, Reevaling, x) && Untouched(s.feeder, x)
    requires ReevalLoops(s, steps) >= |Rivals(s.rows, Reevaling, x)| / 5 + 2
    ensures ResetIn(s, steps, x)
  {
    if !ResetIn(s, steps, x) {
      BatchesOfSubset(ReevalAhead(s, x), Rivals(s.rows, Reevaling, x), REEVAL_BATCH);
      BatchesIsQuotient(|Rivals(s.rows, Reevaling, x)|);
      ReevalLoopsWithinBudget(s, steps, x);
      assert false;
    }
  }

  // ---- Marks that are lost ----

  /** The ids in the feeder's hands: the one it works on, then those still to come. */
  function Hands(feeder: Feeder): seq<int> {
    match feeder
    case Parked => []
    case Woken => []
    case Draining(todo, _) => todo
    case Executing(id, todo, _) => [id] + todo
    case Closing(id, todo, _) => [id] + todo
    case Resetting(todo, _) => todo
    case Nudging(id, todo, _) => [id] + todo
    case Starting(id, todo, _) => [id] + todo
    case Reexecuting(id, todo, _) => [id] + todo
    case Reclosing(id, todo, _) => [id] + todo
  }

  ghost predicate AllDifferent(ids: seq<int>) {
    forall i, j | 0 <= i < j < |ids| :: ids[i] != ids[j]
  }

  /** No id is in the feeder's hands twice. */
  ghost predicate DistinctWork(feeder: Feeder) {
    AllDifferent(Hands(feeder))
  }

  lemma HeadAndTail(x: int, ids: seq<int>)
    ensures [x] + ids != [] && ([x] + ids)[1..] == ids
    ensures ids != [] ==> [ids[0]] + ids[1..] == ids
  {
  }

  /** Taking up the next id keeps it in hand. */
  lemma HandsTakeUp(s: State)
    requires s.feeder.Draining? || s.feeder.Resetting?
    requires s.feeder.todo != []
    ensures Hands(FeederStep(s).feeder) == Hands(s.feeder)
  {
    hide FirstIds, SetStatus, Truncate;
    HeadAndTail(0, s.feeder.todo);
  }

  /** Only closing lets go of an id. */
  lemma HandsWork(s: State)
    requires FeederEnabled(s) && !s.feeder.Draining? && !s.feeder.Resetting? && !s.feeder.Woken?
    ensures
      var (before, after) := (Hands(s.feeder), Hands(FeederStep(s).feeder));
      if s.feeder.Closing? || s.feeder.Reclosing? then before != [] && after == before[1..] else after == before
  {
    hide FirstIds, SetStatus, Truncate;
    if s.feeder.Closing? || s.feeder.Reclosing? {
      HeadAndTail(s.feeder.id, s.feeder.todo);
    }
  }

  lemma HandsPassOn(s: State)
    requires FeederEnabled(s) && !s.feeder.Woken? && !EndsWaitingLoop(s, FeederMoves)
    ensures
      var (before, after) := (Hands(s.feeder), Hands(FeederStep(s).feeder));
      after == before || (before != [] && after == before[1..])
  {
    if (s.feeder.Draining? || s.feeder.Resetting?) && s.feeder.todo != [] {
      HandsTakeUp(s);
    } else if !s.feeder.Resetting? {
      hide FeederStep, Hands;
      HandsWork(s);
    }
  }

  /** A move passes its ids on, drops the first, or takes a snapshot. */
  lemma HandsMoveOn(s: State)
    requires FeederEnabled(s)
    ensures
      var (before, after) := (Hands(s.feeder), Hands(FeederStep(s).feeder));
      || after == before || (before != [] && after == before[1..])
      || after == Truncate(FirstIds(s.rows, Waiting, WAITING_BATCH + 1), WAITING_BATCH)
      || after == Truncate(FirstIds(s.rows, Reevaling, REEVAL_BATCH + 1), REEVAL_BATCH)
  {
    hide FirstIds, SetStatus, Truncate;
    if !s.feeder.Woken? && !EndsWaitingLoop(s, FeederMoves) {
      hide FeederStep, Hands;
      HandsPassOn(s);
    }
  }

  lemma FeederKeepsDistinctWork(s: State)
    requires FeederEnabled(s) && DistinctWork(s.feeder)
    ensures DistinctWork(FeederStep(s).feeder)
  {
    hide FirstIds, FeederStep, Truncate, Hands;
    HandsMoveOn(s);
    FirstIdsAreFirst(s.rows, Waiting, WAITING_BATCH + 1);
    TruncateKeepsOrder(FirstIds(s.rows, Waiting, WAITING_BATCH + 1), WAITING_BATCH);
    FirstIdsAreFirst(s.rows, Reevaling, REEVAL_BATCH + 1);
    TruncateKeepsOrder(FirstIds(s.rows, Reevaling, REEVAL_BATCH + 1), REEVAL_BATCH);
  }

  lemma {:induction false} RunKeepsDistinctWork(s: State, steps: seq<Step>)
    requires Enabledness(s, steps) && DistinctWork(s.feeder)
    ensures DistinctWork(After(s, steps).feeder)
    decreases |steps|
  {
    hide FeederStep, DistinctWork;
    if steps != [] {
      if steps[0].FeederMoves? {
        FeederKeepsDistinctWork(s);
      }
      RunKeepsDistinctWork(Do(s, steps[0]), steps[1..]);
    }
  }

  /** The feeder has x in its hands, or is through with it: it will not reset x unless x is queued again. */
  ghost predicate PastResetting(s: State, x: int) {
    && x in s.rows && DistinctWork(s.feeder)
    && (!Untouched(s.feeder, x) || (s.rows[x].status == Finished && x !in ReevalTodo(s.feeder)))
  }

  /** What the feeder works on, or is about to start, it does not have to reset as well. */
  lemma NotToBeReset(feeder: Feeder, x: int)
    requires DistinctWork(feeder) && !Untouched(feeder, x)
    ensures x !in ReevalTodo(feeder)
  {
    var ids := Hands(feeder);
    assert forall i | 0 < i < |ids| :: ids[i] != ids[0];
    if ReevalTodo(feeder) != [] && !feeder.Resetting? {
      assert ids[1..] == ReevalTodo(feeder);
    }
  }

  lemma FinishedIsNotTaken(s: State, x: int)
    requires FeederEnabled(s) && x in s.rows && s.rows[x].status == Finished
    requires Untouched(s.feeder, x) && x !in ReevalTodo(s.feeder)
    ensures
      var t := FeederStep(s);
      x in t.rows && t.rows[x].status == Finished && Untouched(t.feeder, x) && x !in ReevalTodo(t.feeder)
  {
    hide FirstIds;
    if s.feeder.Woken? {
      FinishedIsNotListed(s.rows, Waiting, x, WAITING_BATCH);
    } else if EndsWaitingLoop(s, FeederMoves) {
      FinishedIsNotListed(s.rows, Reevaling, x, REEVAL_BATCH);
    }
  }

  lemma FinishedIsNotListed(rows: Rows, st: Status, x: int, batch: nat)
    requires x in rows && rows[x].status != st
    ensures x !in Truncate(FirstIds(rows, st, batch + 1), batch)
  {
    hide FirstIds;
    FirstIdsAreFirst(rows, st, batch + 1);
    assert x !in WithStatus(rows, st);
  }

  /** Letting go of what it runs, the feeder leaves it finished and does not hold it again. */
  lemma RunningIsFinished(s: State, x: int)
    requires FeederEnabled(s) && DistinctWork(s.feeder) && x in s.rows && Running(s.feeder, x)
    ensures
      var t := FeederStep(s);
      && x in t.rows
      && (Running(t.feeder, x) ||
          (t.rows[x].status == Finished && Untouched(t.feeder, x) && x !in ReevalTodo(t.feeder)))
  {
    hide FirstIds;
    var ids := Hands(s.feeder);
    assert forall i | 0 < i < |ids| :: ids[i] != ids[0];
    assert ids == [ids[0]] + s.feeder.todo && ids[1..] == s.feeder.todo;
  }

  lemma TakenIsKept(s: State, x: int)
    requires FeederEnabled(s) && x in s.rows && x in Taken(s.feeder)
    ensures
      var t := FeederStep(s);
      x in t.rows && (x in Taken(t.feeder) || Running(t.feeder, x))
  {
    hide FirstIds, ReevalTodo;
    if s.feeder.Draining? {
      assert s.feeder.todo == [s.feeder.todo[0]] + s.feeder.todo[1..];
    }
  }

  lemma HandledIsFinished(s: State, x: int)
    requires FeederEnabled(s) && DistinctWork(s.feeder) && x in s.rows && !Untouched(s.feeder, x)
    ensures
      var t := FeederStep(s);
      && x in t.rows && (!Untouched(t.feeder, x) || (t.rows[x].status == Finished && x !in ReevalTodo(t.feeder)))
  {
    hide FeederStep, Running, Taken, ReevalTodo, DistinctWork;
    if Running(s.feeder, x) {
      RunningIsFinished(s, x);
    } else {
      TakenIsKept(s, x);
    }
  }

  lemma FeederStaysPastResetting(s: State, x: int)
    requires FeederEnabled(s) && PastResetting(s, x)
    ensures !Resets(s, FeederMoves, x) && PastResetting(FeederStep(s), x)
  {
    hide FirstIds, DistinctWork, FeederStep, Hands;
    FeederKeepsDistinctWork(s);
    if Untouched(s.feeder, x) {
      FinishedIsNotTaken(s, x);
    } else {
      NotToBeReset(s.feeder, x);
      HandledIsFinished(s, x);
    }
  }

  lemma {:induction false} NeverReset(s: State, steps: seq<Step>, x: int)
    requires Enabledness(s, steps) && UndisturbedRun(s, steps, Reevaling, x) && PastResetting(s, x)
    ensures !ResetIn(s, steps, x)
    decreases |steps|
  {
    hide FeederStep, DistinctWork, Untouched;
    if steps != [] {
      if steps[0].FeederMoves? {
        FeederStaysPastResetting(s, x);
      }
      NeverReset(Do(s, steps[0]), steps[1..], x);
    }
  }

  /**
    A submission that is marked for reevaluation, at whatever point of a run, is reset if and only if
    the feeder is neither running it nor about to start it at that moment; otherwise finishing the
    run takes the mark away.
  */
  lemma MarkLeadsToReset(start: State, before: seq<Step>, mark: Step, steps: seq<Step>, x: int)
    requires Initial(start) && Enabledness(start, before)
    requires mark.MarkProblem? && Enabled(After(start, before), mark)
    requires x in After(start, before).rows && After(start, before).rows[x].problem == mark.problem
    requires
      var t := Do(After(start, before), mark);
      && Enabledness(t, steps) && UndisturbedRun(t, steps, Reevaling, x)
      && ReevalLoops(t, steps) >= |Rivals(t.rows, Reevaling, x)| / 5 + 2
    ensures ResetIn(Do(After(start, before), mark), steps, x) <==> Untouched(After(start, before).feeder, x)
  {
    hide DistinctWork, Untouched, UndisturbedRun, Enabledness, After, ReevalLoops;
    assert DistinctWork(start.feeder) by { NothingInHands(start.feeder); }
    RunKeepsDistinctWork(start, before);
    var t := Do(After(start, before), mark);
    if Untouched(t.feeder, x) {
      ReevalIsBoundedAtAnyTime(t, steps, x);
    } else {
      NeverReset(t, steps, x);
    }
  }

  lemma NothingInHands(feeder: Feeder)
    ensures feeder.Parked? ==> DistinctWork(feeder)
  {
  }

  // ---- Resets that are lost ----

  /** The feeder runs x, or is through with it: it will not start x unless x is queued again. */
  ghost predicate PastStarting(s: State, x: int) {
    && x in s.rows && DistinctWork(s.feeder)
    && (Running(s.feeder, x) ||
        (s.rows[x].status == Finished && Untouched(s.feeder, x) && x !in ReevalTodo(s.feeder)))
  }

  lemma NotAboutToStart(s: State, x: int)
    requires FeederEnabled(s) && (Running(s.feeder, x) || Untouched(s.feeder, x))
    ensures !Starts(s, FeederMoves, x)
  {
  }

  lemma FeederStaysPastStarting(s: State, x: int)
    requires FeederEnabled(s) && PastStarting(s, x)
    ensures !Starts(s, FeederMoves, x) && PastStarting(FeederStep(s), x)
  {
    hide FeederStep, DistinctWork, Running, Untouched, ReevalTodo, Starts;
    NotAboutToStart(s, x);
    FeederKeepsDistinctWork(s);
    if Running(s.feeder, x) {
      RunningIsFinished(s, x);
    } else {
      FinishedIsNotTaken(s, x);
    }
  }

  lemma {:induction false} NeverStarted(s: State, steps: seq<Step>, x: int)
    requires Enabledness(s, steps) && UndisturbedRun(s, steps, Waiting, x) && PastStarting(s, x)
    ensures !StartedIn(s, steps, x)
    decreases |steps|
  {
    hide FeederStep, DistinctWork, Running, Untouched, ReevalTodo;
    if steps != [] {
      if steps[0].FeederMoves? {
        FeederStaysPastStarting(s, x);
      }
      NeverStarted(Do(s, steps[0]), steps[1..], x);
    }
  }

  lemma WaitingLeadsToStart(start: State, before: seq<Step>, step: Step, steps: seq<Step>, x: int)
    requires Initial(start) && Enabledness(start, before)
    requires Enabled(After(start, before), step) && !step.FeederMoves?
    requires IsQueued(Do(After(start, before), step), Waiting, x)
    requires
      var t := Do(After(start, before), step);
      && Enabledness(t, steps) && UndisturbedRun(t, steps, Waiting, x)
      && WaitingLoops(t, steps) >= |Rivals(t.rows, Waiting, x)| / 40 + 2
    ensures StartedIn(Do(After(start, before), step), steps, x) <==> !Running(After(start, before).feeder, x)
  {
    hide DistinctWork, Running, UndisturbedRun, Enabledness, After, WaitingLoops;
    assert DistinctWork(start.feeder) by { NothingInHands(start.feeder); }
    RunKeepsDistinctWork(start, before);
    var t := Do(After(start, before), step);
    if Running(t.feeder, x) {
      NeverStarted(t, steps, x);
    } else {
      WaitingIsBoundedAtAnyTime(t, steps, x);
    }
  }

  /**
    A submission that has been inserted, and is initialised at whatever point of a run, is started
    if and only if the feeder is not running it at that moment, as it can only be when it was reset
    before it was initialised.
  */
  lemma InitLeadsToStart(start: State, before: seq<Step>, w: int, steps: seq<Step>, x: int)
    requires Initial(start) && Enabledness(start, before)
    requires
      var s := After(start, before);
      Enabled(s, InitRow(w)) && s.writers[w] == Inserted(x) && x in s.rows
    requires
      var t := Do(After(start, before), InitRow(w));
      && Enabledness(t, steps) && UndisturbedRun(t, steps, Waiting, x)
      && WaitingLoops(t, steps) >= |Rivals(t.rows, Waiting, x)| / 40 + 2
    ensures StartedIn(Do(After(start, before), InitRow(w)), steps, x) <==> !Running(After(start, before).feeder, x)
  {
    hide Enabledness, After, Do, Running, UndisturbedRun, WaitingLoops;
    OneRowChanges(After(start, before), InitRow(w));
    WaitingLeadsToStart(start, before, InitRow(w), steps, x);
  }

  /**
    A submission that is put back to waiting by others, at whatever point of a run, is started again
    if and only if the feeder is not running it at that moment; otherwise finishing the run takes the
    reset away.
  */
  lemma ResetLeadsToStart(start: State, before: seq<Step>, reset: Step, steps: seq<Step>, x: int)
    requires Initial(start) && Enabledness(start, before)
    requires Enabled(After(start, before), reset) && x in After(start, before).rows
    requires
      || (reset.ResetOne? && reset.id == x)
      || (reset.ResetListed? && x in After(start, before).writers[reset.writer].ids)
    requires
      var t := Do(After(start, before), reset);
      && Enabledness(t, steps) && UndisturbedRun(t, steps, Waiting, x)
      && WaitingLoops(t, steps) >= |Rivals(t.rows, Waiting, x)| / 40 + 2
    ensures StartedIn(Do(After(start, before), reset), steps, x) <==> !Running(After(start, before).feeder, x)
  {
    hide Enabledness, After, Do, Running, UndisturbedRun, WaitingLoops;
    OneRowChanges(After(start, before), reset);
    ManyRowsChange(After(start, before), reset);
    WaitingLeadsToStart(start, before, reset, steps, x);
  }

  // ---- Quiescence ----

  function RewakeOf(feeder: Feeder): bool {
    !feeder.Parked? && !feeder.Woken? && feeder.rewake
  }

  function Position(feeder: Feeder): (nat, nat, nat) {
    match feeder
    case Parked => (0, 0, 0)
    case Woken => (3, 0, 0)
    case Draining(todo, _) => (2, |todo|, 0)
    case Closing(_, todo, _) => (2, |todo|, 1)
    case Executing(_, todo, _) => (2, |todo|, 2)
    case Resetting(todo, _) => (1, |todo|, 0)
    case Reclosing(_, todo, _) => (1, |todo|, 1)
    case Reexecuting(_, todo, _) => (1, |todo|, 2)
    case Starting(_, todo, _) => (1, |todo|, 3)
    case Nudging(_, todo, _) => (1, |todo|, 4)
  }

  ghost function UnseenReevals(s: State): set<int> {
    WithStatus(s.rows, Reevaling) - Elements(ReevalTodo(s.feeder))
  }

  ghost function UnseenWaiting(s: State): set<int> {
    WithStatus(s.rows, Waiting) - Elements(Taken(s.feeder))
  }

  /** Reevaluations left, those not in a snapshot yet, waiting ones not in a snapshot, wake-ups pending. */
  ghost function Remaining(s: State): (nat, nat, nat, nat) {
    ( |UnseenReevals(s)| + |ReevalTodo(s.feeder)| + (if s.feeder.Nudging? then 1 else 0),
      |UnseenReevals(s)|,
      |UnseenWaiting(s)|,
      (if s.token then 1 else 0) + (if RewakeOf(s.feeder) then 1 else 0) )
  }

  /** Taking a snapshot of a queue: its first ids leave the unseen part. */
  lemma SnapshotLeavesFewerUnseen(rows: Rows, st: Status, batch: nat)
    ensures
      var subs := FirstIds(rows, st, batch + 1);
      var todo := Truncate(subs, batch);
      && |WithStatus(rows, st) - Elements(todo)| + |todo| == |WithStatus(rows, st)|
      && (|subs| > batch ==> |todo| == batch)
  {
    TruncatedSnapshot(rows, st, batch);
    var all := Sorted(WithStatus(rows, st));
    var todo := Truncate(FirstIds(rows, st, batch + 1), batch);
    forall x | x in todo ensures x in WithStatus(rows, st) {
      assert x in all;
    }
    DistinctCardinality(todo);
    assert Elements(todo) <= WithStatus(rows, st);
  }

  lemma FeederStepSeesNoNewWork(s: State)
    requires FeederEnabled(s) && !s.feeder.Woken? && !EndsWaitingLoop(s, FeederMoves)
    ensures UnseenReevals(FeederStep(s)) <= UnseenReevals(s)
    ensures UnseenWaiting(FeederStep(s)) <= UnseenWaiting(s)
  {
    hide FeederStep, Taken, ReevalTodo;
    var t := FeederStep(s);
    forall y | y in UnseenReevals(t) ensures y in UnseenReevals(s) {
      NothingNewReevals(s, y);
    }
    forall y | y in UnseenWaiting(t) ensures y in UnseenWaiting(s) {
      NothingNewWaits(s, y);
    }
  }

  /** The four quantities of `Remaining` and then the position, compared lexicographically. */
  ghost predicate Progress(s: State, t: State) {
    var (a, b, c, d) := Remaining(s);
    var (e, f, g) := Position(s.feeder);
    var (a', b', c', d') := Remaining(t);
    var (e', f', g') := Position(t.feeder);
    || a' < a
    || (a' == a && b' < b)
    || (a' == a && b' == b && c' < c)
    || (a' == a && b' == b && c' == c && d' < d)
    || (a' == a && b' == b && c' == c && d' == d && e' < e)
    || (a' == a && b' == b && c' == c && d' == d && e' == e && f' < f)
    || (a' == a && b' == b && c' == c && d' == d && e' == e && f' == f && g' < g)
  }

  lemma WaitingSnapshotProgresses(s: State, t: State)
    requires s.feeder.Woken? && t.feeder.Draining? && t == s.(feeder := t.feeder)
    requires
      var waiting := WithStatus(s.rows, Waiting);
      && |waiting - Elements(t.feeder.todo)| + |t.feeder.todo| == |waiting|
      && (t.feeder.rewake ==> |t.feeder.todo| == WAITING_BATCH)
    ensures Progress(s, t)
  {
    hide WithStatus;
    var waiting := WithStatus(s.rows, Waiting);
    assert UnseenReevals(t) == UnseenReevals(s);
    assert UnseenWaiting(s) == waiting;
    assert UnseenWaiting(t) == waiting - Elements(t.feeder.todo);
  }

  lemma ReevalSnapshotProgresses(s: State, t: State)
    requires s.feeder.Draining? && s.feeder.todo == [] && t.feeder.Resetting? && t == s.(feeder := t.feeder)
    requires
      var reevals := WithStatus(s.rows, Reevaling);
      && |reevals - Elements(t.feeder.todo)| + |t.feeder.todo| == |reevals|
      && (t.feeder.rewake ==> s.feeder.rewake || |t.feeder.todo| == REEVAL_BATCH)
    ensures Progress(s, t)
  {
    hide WithStatus;
    var reevals := WithStatus(s.rows, Reevaling);
    assert UnseenReevals(s) == reevals;
    assert UnseenReevals(t) == reevals - Elements(t.feeder.todo);
    assert UnseenWaiting(t) == UnseenWaiting(s);
  }

  lemma ReevalStepProgresses(s: State)
    requires FeederEnabled(s) && InReevalLoop(s.feeder)
    requires |UnseenReevals(FeederStep(s))| <= |UnseenReevals(s)|
    requires |UnseenWaiting(FeederStep(s))| <= |UnseenWaiting(s)|
    ensures Progress(s, FeederStep(s))
  {
    hide FirstIds, Truncate, SetStatus, UnseenReevals, UnseenWaiting;
  }

  lemma WaitingStepProgresses(s: State)
    requires FeederEnabled(s) && !InReevalLoop(s.feeder) && !s.feeder.Woken? && !EndsWaitingLoop(s, FeederMoves)
    requires |UnseenReevals(FeederStep(s))| <= |UnseenReevals(s)|
    requires |UnseenWaiting(FeederStep(s))| <= |UnseenWaiting(s)|
    ensures Progress(s, FeederStep(s))
  {
    hide FirstIds, Truncate, SetStatus, UnseenReevals, UnseenWaiting;
  }

  lemma FeederStepProgresses(s: State)
    requires FeederEnabled(s)
    ensures Progress(s, FeederStep(s))
  {
    hide FirstIds, WithStatus, SetStatus, UnseenReevals, UnseenWaiting, Elements, Progress;
    if s.feeder.Woken? {
      SnapshotLeavesFewerUnseen(s.rows, Waiting, WAITING_BATCH);
      WaitingSnapshotProgresses(s, FeederStep(s));
    } else if EndsWaitingLoop(s, FeederMoves) {
      SnapshotLeavesFewerUnseen(s.rows, Reevaling, REEVAL_BATCH);
      ReevalSnapshotProgresses(s, FeederStep(s));
    } else {
      FeederStepSeesNoNewWork(s);
      SubsetCardinality(UnseenReevals(FeederStep(s)), UnseenReevals(s));
      SubsetCardinality(UnseenWaiting(FeederStep(s)), UnseenWaiting(s));
      if InReevalLoop(s.feeder) {
        ReevalStepProgresses(s);
      } else {
        WaitingStepProgresses(s);
      }
    }
  }

  /** Where the feeder ends up when it is left alone; the recursion ends because every move makes progress. */
  ghost function Settle(s: State): State
    decreases Remaining(s).0, Remaining(s).1, Remaining(s).2, Remaining(s).3,
              Position(s.feeder).0, Position(s.feeder).1, Position(s.feeder).2
  {
    if FeederEnabled(s) then
      FeederStepProgresses(s);
      Settle(FeederStep(s))
    else s
  }

  lemma FeederLeavesWriters(s: State)
    requires FeederEnabled(s)
    ensures FeederStep(s).writers == s.writers
  {
  }

  /** Left alone, the feeder parks with both queues empty, by finitely many moves of its own. */
  lemma {:induction false} FeederSettles(s: State) returns (steps: seq<Step>)
    requires AllCovered(s)
    requires forall w | w in s.writers :: !s.writers[w].Owing?
    ensures forall i | 0 <= i < |steps| :: steps[i].FeederMoves?
    ensures Enabledness(s, steps) && After(s, steps) == Settle(s)
    ensures
      var t := Settle(s);
      && t.feeder.Parked? && !t.token
      && forall x | x in t.rows :: t.rows[x].status != Waiting && t.rows[x].status != Reevaling
    decreases Remaining(s).0, Remaining(s).1, Remaining(s).2, Remaining(s).3,
              Position(s.feeder).0, Position(s.feeder).1, Position(s.feeder).2
  {
    hide FeederStep, Remaining, Position;
    if FeederEnabled(s) {
      FeederStepProgresses(s);
      FeederKeepsCovered(s);
      FeederLeavesWriters(s);
      var rest := FeederSettles(FeederStep(s));
      steps := [FeederMoves] + rest;
      assert steps[1..] == rest;
    } else {
      steps := [];
    }
  }
}
