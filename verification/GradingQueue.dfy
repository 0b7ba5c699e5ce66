/** The life of a submission in the grading queue, as its `status` column records it. */
module SubmissionStatus {
  datatype Status = Creating | Waiting | Working | Finished | Reevaling

  /** The statuses the feeder polls for. */
  predicate Queued(st: Status) {
    st == Waiting || st == Reevaling
  }
}

/**
  The protocol between the single feeder goroutine and the goroutines that put submissions in
  its queue: who changes which row, when the snapshots are taken, and who touches the wake
  channel. The channel holds at most one token and sending never blocks, so it is one bit.

  Every database statement and every channel operation is one atomic step; steps of different
  goroutines interleave freely.
*/
module GradingQueue {
  import opened Ordering
  import opened SubmissionStatus

  const WAITING_BATCH: nat := 40
  const REEVAL_BATCH: nat := 5

  datatype Row = Row(problem: int, status: Status)

  type Rows = map<int, Row>

  /** Where a goroutine that writes to the queue stands. `Owing` has changed rows and not yet called Wake. */
  datatype Writer =
    | Idle
    | Inserted(id: int)
    | Listed(ids: set<int>)
    | Owing(ids: set<int>)

  /** Where the feeder stands in its loop. */
  datatype Feeder =
    | Parked
    | Woken
    | Draining(todo: seq<int>, rewake: bool)
    | Executing(id: int, todo: seq<int>, rewake: bool)
    | Closing(id: int, todo: seq<int>, rewake: bool)
    | Resetting(todo: seq<int>, rewake: bool)
    | Nudging(id: int, todo: seq<int>, rewake: bool)
    | Starting(id: int, todo: seq<int>, rewake: bool)
    | Reexecuting(id: int, todo: seq<int>, rewake: bool)
    | Reclosing(id: int, todo: seq<int>, rewake: bool)

  datatype State = State(rows: Rows, token: bool, feeder: Feeder, writers: map<int, Writer>)

  // ---- Queries and updates on the submissions table ----

  function WithStatus(rows: Rows, st: Status): set<int> {
    set x | x in rows && rows[x].status == st
  }

  /** The ids of one status in ascending order, cut at a limit. */
  function FirstIds(rows: Rows, st: Status, limit: nat): seq<int> {
    var all := Sorted(WithStatus(rows, st));
    if |all| < limit then all else all[..limit]
  }

  /** The snapshot is in order, within its queue, and leaves out only ids that come later than a full snapshot. */
  lemma FirstIdsAreFirst(rows: Rows, st: Status, limit: nat)
    ensures
      var ids := FirstIds(rows, st, limit);
      var queue := WithStatus(rows, st);
      && |ids| == (if |queue| < limit then |queue| else limit)
      && Ascending(ids)
      && (forall x | x in ids :: x in queue)
      && (forall x, y | x in ids && y in queue && y !in ids :: x < y)
      && (forall y | y in queue && y !in ids :: |ids| == limit)
  {
    hide Sorted;
    var queue := WithStatus(rows, st);
    var all := Sorted(queue);
    if |all| >= limit {
      var ids := all[..limit];
      assert all == ids + all[limit..];
      forall x | x in ids ensures x in queue {
        assert x in all;
      }
      forall x, y | x in ids && y in queue && y !in ids ensures x < y {
        assert y in all;
        var i :| 0 <= i < limit && ids[i] == x;
        var j :| 0 <= j < |all| - limit && all[limit..][j] == y;
        assert all[i] < all[limit + j];
      }
    }
  }

  /** The rows of these ids get the status; ids that are absent match no row. */
  function SetStatus(rows: Rows, ids: set<int>, st: Status): Rows {
    map x | x in rows :: if x in ids then rows[x].(status := st) else rows[x]
  }

  function OfProblem(rows: Rows, problem: int): set<int> {
    set x | x in rows && rows[x].problem == problem
  }

  function Truncate(ids: seq<int>, batch: nat): seq<int> {
    if |ids| > batch then ids[..batch] else ids
  }

  // ---- Steps ----

  /** What one atomic step is; every goroutine but the feeder is part of the environment. */
  datatype Step =
    | FeederMoves
    | Tick
    | InsertRow(writer: int, id: int, problem: int)
    | InitRow(writer: int)
    | MarkProblem(writer: int, problem: int)
    | ListWorking(writer: int)
    | ResetListed(writer: int)
    | ResetOne(writer: int, id: int)
    | CallWake(writer: int)
    | DeleteRow(id: int)

  function WriterOf(s: State, w: int): Writer {
    if w in s.writers then s.writers[w] else Idle
  }

  predicate FeederEnabled(s: State) {
    s.feeder.Parked? ==> s.token
  }

  predicate Enabled(s: State, step: Step) {
    match step
    case FeederMoves => FeederEnabled(s)
    case Tick => true
    case InsertRow(w, id, _) => WriterOf(s, w).Idle? && id !in s.rows
    case InitRow(w) => WriterOf(s, w).Inserted?
    case MarkProblem(w, _) => WriterOf(s, w).Idle?
    case ListWorking(w) => WriterOf(s, w).Idle?
    case ResetListed(w) => WriterOf(s, w).Listed?
    case ResetOne(w, _) => WriterOf(s, w).Idle?
    case CallWake(w) => WriterOf(s, w).Owing?
    case DeleteRow(_) => true
  }

  /** One move of the feeder: the statement its position points at. */
  function FeederStep(s: State): State
    requires FeederEnabled(s)
  {
    match s.feeder
    case Parked => s.(token := false, feeder := Woken)
    case Woken =>
      var subs := FirstIds(s.rows, Waiting, WAITING_BATCH + 1);
      s.(feeder := Draining(Truncate(subs, WAITING_BATCH), |subs| > WAITING_BATCH))
    case Draining(todo, rewake) =>
      if todo != [] then
        s.(rows := SetStatus(s.rows, {todo[0]}, Working), feeder := Executing(todo[0], todo[1..], rewake))
      else
        var subs := FirstIds(s.rows, Reevaling, REEVAL_BATCH + 1);
        s.(feeder := Resetting(Truncate(subs, REEVAL_BATCH), rewake || |subs| > REEVAL_BATCH))
    case Executing(id, todo, rewake) =>
      s.(rows := SetStatus(s.rows, {id}, Finished), feeder := Closing(id, todo, rewake))
    case Closing(id, todo, rewake) =>
      s.(rows := SetStatus(s.rows, {id}, Finished), feeder := Draining(todo, rewake))
    case Resetting(todo, rewake) =>
      if todo != [] then
        s.(rows := SetStatus(s.rows, {todo[0]}, Waiting), feeder := Nudging(todo[0], todo[1..], rewake))
      else
        s.(token := s.token || rewake, feeder := Parked)
    case Nudging(id, todo, rewake) =>
      s.(token := true, feeder := Starting(id, todo, rewake))
    case Starting(id, todo, rewake) =>
      s.(rows := SetStatus(s.rows, {id}, Working), feeder := Reexecuting(id, todo, rewake))
    case Reexecuting(id, todo, rewake) =>
      s.(rows := SetStatus(s.rows, {id}, Finished), feeder := Reclosing(id, todo, rewake))
    case Reclosing(id, todo, rewake) =>
      s.(rows := SetStatus(s.rows, {id}, Finished), feeder := Resetting(todo, rewake))
  }

  function Do(s: State, step: Step): State
    requires Enabled(s, step)
  {
    match step
    case FeederMoves => FeederStep(s)
    case Tick => s.(token := true)
    case InsertRow(w, id, problem) =>
      s.(rows := s.rows[id := Row(problem, Creating)], writers := s.writers[w := Inserted(id)])
    case InitRow(w) =>
      var id := s.writers[w].id;
      s.(rows := SetStatus(s.rows, {id}, Waiting), writers := s.writers[w := Owing({id})])
    case MarkProblem(w, problem) =>
      var ids := OfProblem(s.rows, problem);
      s.(rows := SetStatus(s.rows, ids, Reevaling), writers := s.writers[w := Owing(ids)])
    case ListWorking(w) =>
      s.(writers := s.writers[w := Listed(WithStatus(s.rows, Working))])
    case ResetListed(w) =>
      var ids := s.writers[w].ids;
      s.(rows := SetStatus(s.rows, ids, Waiting), writers := s.writers[w := Owing(ids)])
    case ResetOne(w, id) =>
      s.(rows := SetStatus(s.rows, {id}, Waiting), writers := s.writers[w := Owing({id})])
    case CallWake(w) =>
      s.(token := true, writers := s.writers[w := Idle])
    case DeleteRow(id) =>
      s.(rows := s.rows - {id})
  }

  // ---- What a step does, row by row ----

  /** The row of x stays and gets this status; nothing else about it changes. */
  predicate Becomes(before: Rows, after: Rows, x: int, st: Status) {
    x in before && x in after && after[x].problem == before[x].problem && after[x].status == st
  }

  /** Every row but that of x is there afterwards as it was before. */
  ghost predicate OthersStay(before: Rows, after: Rows, x: int) {
    forall y | y != x :: (y in after <==> y in before) && (y in before ==> after[y] == before[y])
  }

  /** A new row is `Creating`; only initialising it, or resetting it, puts it in the queue, and no other row with it. */
  lemma OneRowChanges(s: State, step: Step)
    requires Enabled(s, step)
    ensures step.InsertRow? ==>
      var rows := Do(s, step).rows;
      step.id !in s.rows && step.id in rows && rows[step.id] == Row(step.problem, Creating)
      && OthersStay(s.rows, rows, step.id)
    ensures step.InitRow? ==>
      var rows, id := Do(s, step).rows, s.writers[step.writer].id;
      OthersStay(s.rows, rows, id) && (if id in s.rows then Becomes(s.rows, rows, id, Waiting) else id !in rows)
    ensures step.ResetOne? ==>
      var rows, id := Do(s, step).rows, step.id;
      OthersStay(s.rows, rows, id) && (if id in s.rows then Becomes(s.rows, rows, id, Waiting) else id !in rows)
    ensures step.DeleteRow? ==> step.id !in Do(s, step).rows && OthersStay(s.rows, Do(s, step).rows, step.id)
  {
  }

  /** Marking changes exactly the rows of the problem, and resetting a list exactly the rows on it. */
  lemma ManyRowsChange(s: State, step: Step)
    requires Enabled(s, step)
    ensures step.MarkProblem? || step.ResetListed? || step.ListWorking? || step.Tick? || step.CallWake? ==>
      forall x :: x in Do(s, step).rows <==> x in s.rows
    ensures step.MarkProblem? ==>
      forall x | x in s.rows ::
        if s.rows[x].problem == step.problem then Becomes(s.rows, Do(s, step).rows, x, Reevaling)
        else Do(s, step).rows[x] == s.rows[x]
    ensures step.ResetListed? ==>
      forall x | x in s.rows ::
        if x in s.writers[step.writer].ids then Becomes(s.rows, Do(s, step).rows, x, Waiting)
        else Do(s, step).rows[x] == s.rows[x]
    ensures step.ListWorking? || step.Tick? || step.CallWake? ==>
      forall x | x in s.rows :: Do(s, step).rows[x] == s.rows[x]
  {
  }

  /** A writer inserts and then initialises, marks, resets one, or lists and then resets; in the end it wakes. */
  lemma WritersTakeTurns(s: State, step: Step)
    requires Enabled(s, step) && !step.FeederMoves?
    ensures Do(s, step).feeder == s.feeder
    ensures Do(s, step).token <==> s.token || step.Tick? || step.CallWake?
    ensures step.Tick? || step.DeleteRow? ==> Do(s, step).writers == s.writers
    ensures step.InsertRow? ==>
      WriterOf(s, step.writer) == Idle && WriterOf(Do(s, step), step.writer) == Inserted(step.id)
    ensures step.InitRow? ==>
      WriterOf(s, step.writer).Inserted? && WriterOf(Do(s, step), step.writer) == Owing({s.writers[step.writer].id})
    ensures step.MarkProblem? ==>
      WriterOf(s, step.writer) == Idle && WriterOf(Do(s, step), step.writer).Owing?
      && forall x :: x in Do(s, step).writers[step.writer].ids <==> x in s.rows && s.rows[x].problem == step.problem
    ensures step.ListWorking? ==>
      WriterOf(s, step.writer) == Idle && WriterOf(Do(s, step), step.writer).Listed?
      && forall x :: x in Do(s, step).writers[step.writer].ids <==> x in s.rows && s.rows[x].status == Working
    ensures step.ResetListed? ==>
      WriterOf(s, step.writer).Listed? && WriterOf(Do(s, step), step.writer) == Owing(s.writers[step.writer].ids)
    ensures step.ResetOne? ==>
      WriterOf(s, step.writer) == Idle && WriterOf(Do(s, step), step.writer) == Owing({step.id})
    ensures step.CallWake? ==> WriterOf(s, step.writer).Owing? && WriterOf(Do(s, step), step.writer) == Idle
    ensures !step.Tick? && !step.DeleteRow? ==>
      forall w | w != step.writer :: WriterOf(Do(s, step), w) == WriterOf(s, w)
  {
  }

  /** Each move of the feeder changes at most one row: to working, to finished, or back to waiting. */
  lemma FeederRows(s: State)
    requires FeederEnabled(s)
    ensures FeederStep(s).writers == s.writers
    ensures s.feeder.Parked? || s.feeder.Woken? || s.feeder.Nudging? ==> FeederStep(s).rows == s.rows
    ensures s.feeder.Draining? || s.feeder.Resetting? ==>
      var rows, todo := FeederStep(s).rows, s.feeder.todo;
      if todo == [] then rows == s.rows
      else
        OthersStay(s.rows, rows, todo[0])
        && (todo[0] in s.rows ==> Becomes(s.rows, rows, todo[0], if s.feeder.Draining? then Working else Waiting))
    ensures
      s.feeder.Starting? || s.feeder.Executing? || s.feeder.Closing? || s.feeder.Reexecuting? || s.feeder.Reclosing? ==>
      var rows, id := FeederStep(s).rows, s.feeder.id;
      OthersStay(s.rows, rows, id)
      && (id in s.rows ==> Becomes(s.rows, rows, id, if s.feeder.Starting? then Working else Finished))
  {
    hide FirstIds;
  }

  // ---- Runs ----

  ghost predicate Enabledness(s: State, steps: seq<Step>)
    decreases |steps|
  {
    steps == [] || (Enabled(s, steps[0]) && Enabledness(Do(s, steps[0]), steps[1..]))
  }

  /** The state a run ends in. */
  ghost function After(s: State, steps: seq<Step>): State
    requires Enabledness(s, steps)
    decreases |steps|
  {
    if steps == [] then s else After(Do(s, steps[0]), steps[1..])
  }

  /** The feeder has just been registered: it is parked, nobody owes a wake-up, and old work has a token. */
  ghost predicate Initial(s: State) {
    && s.feeder.Parked?
    && (forall w | w in s.writers :: s.writers[w].Idle?)
    && (s.token || forall x | x in s.rows :: s.rows[x].status != Waiting && s.rows[x].status != Reevaling)
  }

  lemma EnabledOne(s: State, a: Step)
    requires Enabled(s, a)
    ensures Enabledness(s, [a])
  {
    assert [a][1..] == [];
  }

  lemma EnabledTwo(s: State, a: Step, b: Step)
    requires Enabled(s, a) && Enabled(Do(s, a), b)
    ensures Enabledness(s, [a, b])
  {
    hide Do, Enabled;
    EnabledOne(Do(s, a), b);
    assert [a, b][1..] == [b];
  }

  lemma EnabledThree(s: State, a: Step, b: Step, c: Step)
    requires Enabled(s, a) && Enabled(Do(s, a), b) && Enabled(Do(Do(s, a), b), c)
    ensures Enabledness(s, [a, b, c])
  {
    hide Do, Enabled;
    EnabledTwo(Do(s, a), b, c);
    assert [a, b, c][1..] == [b, c];
  }

  lemma CreationRunsThrough(s: State, w: int, id: int, problem: int)
    requires WriterOf(s, w) == Idle && id !in s.rows
    ensures Enabledness(s, [InsertRow(w, id, problem), InitRow(w), CallWake(w)])
  {
    hide SetStatus, Enabledness;
    EnabledThree(s, InsertRow(w, id, problem), InitRow(w), CallWake(w));
  }

  lemma ListedResetRunsThrough(s: State, w: int)
    requires WriterOf(s, w) == Idle
    ensures Enabledness(s, [ListWorking(w), ResetListed(w), CallWake(w)])
  {
    hide SetStatus, WithStatus, Enabledness;
    EnabledThree(s, ListWorking(w), ResetListed(w), CallWake(w));
  }

  lemma MarkRunsThrough(s: State, w: int, problem: int)
    requires WriterOf(s, w) == Idle
    ensures Enabledness(s, [MarkProblem(w, problem), CallWake(w)])
  {
    hide SetStatus, OfProblem, Enabledness;
    EnabledTwo(s, MarkProblem(w, problem), CallWake(w));
  }

  lemma ResetRunsThrough(s: State, w: int, id: int)
    requires WriterOf(s, w) == Idle
    ensures Enabledness(s, [ResetOne(w, id), CallWake(w)])
  {
    hide SetStatus, Enabledness;
    EnabledTwo(s, ResetOne(w, id), CallWake(w));
  }

  /** Whatever else goes on: a goroutine with nothing begun can go through any of its calls, and rows can always go. */
  lemma CallsRunThrough(s: State, w: int, id: int, problem: int)
    requires WriterOf(s, w) == Idle
    ensures Enabledness(s, [Tick]) && Enabledness(s, [DeleteRow(id)])
    ensures id !in s.rows ==> Enabledness(s, [InsertRow(w, id, problem), InitRow(w), CallWake(w)])
    ensures Enabledness(s, [MarkProblem(w, problem), CallWake(w)])
    ensures Enabledness(s, [ListWorking(w), ResetListed(w), CallWake(w)])
    ensures Enabledness(s, [ResetOne(w, id), CallWake(w)])
    ensures s.token || !s.feeder.Parked? ==> Enabledness(s, [FeederMoves])
  {
    hide Do, Enabledness;
    EnabledOne(s, Tick);
    EnabledOne(s, DeleteRow(id));
    if id !in s.rows {
      CreationRunsThrough(s, w, id, problem);
    }
    MarkRunsThrough(s, w, problem);
    ListedResetRunsThrough(s, w);
    ResetRunsThrough(s, w, id);
    if s.token || !s.feeder.Parked? {
      EnabledOne(s, FeederMoves);
    }
  }

  // ---- No lost wake-up ----

  /** A goroutine has changed row x and its wake call is still to come. */
  ghost predicate Owed(s: State, x: int) {
    exists w :: w in s.writers && s.writers[w].Owing? && x in s.writers[w].ids
  }

  /** The feeder, from where it stands, is still going to look at row x, or to wake itself. */
  predicate WillSee(feeder: Feeder, x: int, st: Status) {
    match feeder
    case Parked => false
    case Woken => true
    case Draining(todo, rewake) => rewake || st == Reevaling || x in todo
    case Executing(_, todo, rewake) => rewake || st == Reevaling || x in todo
    case Closing(_, todo, rewake) => rewake || st == Reevaling || x in todo
    case Resetting(todo, rewake) => rewake || x in todo
    case Nudging(id, todo, rewake) => rewake || x == id || x in todo
    case Starting(_, todo, rewake) => rewake || x in todo
    case Reexecuting(_, todo, rewake) => rewake || x in todo
    case Reclosing(_, todo, rewake) => rewake || x in todo
  }

  ghost predicate Covered(s: State, x: int) {
    s.token || Owed(s, x) || (x in s.rows && WillSee(s.feeder, x, s.rows[x].status))
  }

  ghost predicate AllCovered(s: State) {
    forall x | x in s.rows && Queued(s.rows[x].status) :: Covered(s, x)
  }

  lemma FeederKeepsCovered(s: State)
    requires AllCovered(s) && FeederEnabled(s)
    ensures AllCovered(FeederStep(s))
  {
    var t := FeederStep(s);
    forall x | x in t.rows && Queued(t.rows[x].status)
      ensures Covered(t, x)
    {
      assert Owed(s, x) ==> Owed(t, x) by {
        if Owed(s, x) {
          var w :| w in s.writers && s.writers[w].Owing? && x in s.writers[w].ids;
          assert w in t.writers && t.writers[w].Owing? && x in t.writers[w].ids;
        }
      }
      if s.feeder.Woken? {
        FirstIdsAreFirst(s.rows, Waiting, WAITING_BATCH + 1);
        if s.rows[x].status == Waiting {
          assert x in WithStatus(s.rows, Waiting);
        }
      } else if s.feeder.Draining? && s.feeder.todo == [] {
        FirstIdsAreFirst(s.rows, Reevaling, REEVAL_BATCH + 1);
        if s.rows[x].status == Reevaling {
          assert x in WithStatus(s.rows, Reevaling);
        }
      }
    }
  }

  lemma EnvironmentKeepsCovered(s: State, step: Step)
    requires AllCovered(s) && Enabled(s, step) && !step.FeederMoves?
    ensures AllCovered(Do(s, step))
  {
    var t := Do(s, step);
    forall x | x in t.rows && Queued(t.rows[x].status)
      ensures Covered(t, x)
    {
      if !t.token {
        if x in s.rows && s.rows[x] == t.rows[x] {
          if Owed(s, x) {
            var w :| w in s.writers && s.writers[w].Owing? && x in s.writers[w].ids;
            assert w in t.writers && t.writers[w].Owing? && x in t.writers[w].ids;
          }
        } else {
          assert step.InitRow? || step.MarkProblem? || step.ResetListed? || step.ResetOne?;
          assert t.writers[step.writer].Owing? && x in t.writers[step.writer].ids;
        }
      }
    }
  }

  lemma {:induction false} RunKeepsCovered(s: State, steps: seq<Step>)
    requires AllCovered(s) && Enabledness(s, steps)
    ensures AllCovered(After(s, steps))
    decreases |steps|
  {
    if steps != [] {
      if steps[0].FeederMoves? {
        FeederKeepsCovered(s);
      } else {
        EnvironmentKeepsCovered(s, steps[0]);
      }
      RunKeepsCovered(Do(s, steps[0]), steps[1..]);
    }
  }

  /**
    In every reachable state where the feeder is parked with nothing in the channel, a submission is
    waiting or reevaling only if some writer changed it and has its wake call still ahead.
  */
  lemma NoLostWakeup(s: State, steps: seq<Step>)
    requires Initial(s) && Enabledness(s, steps)
    ensures
      var t := After(s, steps);
      t.feeder.Parked? && !t.token ==>
        forall x | x in t.rows && (t.rows[x].status == Waiting || t.rows[x].status == Reevaling) :: Owed(t, x)
  {
    assert AllCovered(s);
    RunKeepsCovered(s, steps);
  }
}
