/**
  The feeder as the program it is: a loop body that is run once for each token received from the
  wake channel. Nobody else writes while it runs here; the interleaved protocol is in
  `GradingQueue`, and the loop body is proved to be a run of that protocol's feeder steps.
*/
module GraderHandler {
  import opened Ordering
  import opened SubmissionStatus
  import opened GradingQueue
  import opened QueueProgress

  // ---- What one round does to the table ----

  /** The rows once the first waiting submissions, then the first reevaling ones, are graded. */
  ghost function AfterRound(rows: Rows): Rows {
    var served := Elements(Truncate(FirstIds(rows, Waiting, WAITING_BATCH + 1), WAITING_BATCH));
    var graded := SetStatus(rows, served, Finished);
    SetStatus(graded, Elements(Truncate(FirstIds(graded, Reevaling, REEVAL_BATCH + 1), REEVAL_BATCH)), Finished)
  }

  function Less(n: nat, batch: nat): nat {
    if n <= batch then 0 else n - batch
  }

  /** Rounds until the feeder parks for good, from w waiting and r reevaling submissions and one token. */
  function RoundsNeeded(w: nat, r: nat): nat
    decreases w + r
  {
    if w > WAITING_BATCH || r > 0 then 1 + RoundsNeeded(Less(w, WAITING_BATCH), Less(r, REEVAL_BATCH)) else 1
  }

  function Ceiling(n: nat, batch: nat): nat
    requires batch > 0
  {
    (n + batch - 1) / batch
  }

  function Max(a: nat, b: nat): nat {
    if a < b then b else a
  }

  /**
    The closed form. A round that reevaluates anything wakes the feeder once more, because resetting
    a submission calls Wake by itself; that is the extra round a non-empty reevaluation queue costs.
  */
  lemma {:induction false} RoundsNeededClosedForm(w: nat, r: nat)
    ensures RoundsNeeded(w, r) ==
      Max(Max(1, Ceiling(w, WAITING_BATCH)), if r > 0 then Ceiling(r, REEVAL_BATCH) + 1 else 0)
    decreases w + r
  {
    if w > WAITING_BATCH || r > 0 {
      RoundsNeededClosedForm(Less(w, WAITING_BATCH), Less(r, REEVAL_BATCH));
    }
  }

  lemma RowsAfterSetStatus(rows: Rows, ids: set<int>, st: Status, other: Status)
    ensures WithStatus(SetStatus(rows, ids, st), st) == WithStatus(rows, st) + (ids * rows.Keys)
    ensures other != st ==> WithStatus(SetStatus(rows, ids, st), other) == WithStatus(rows, other) - ids
  {
    var after := SetStatus(rows, ids, st);
    assert WithStatus(after, st) <= WithStatus(rows, st) + (ids * rows.Keys);
    assert WithStatus(rows, st) + (ids * rows.Keys) <= WithStatus(after, st);
    if other != st {
      assert WithStatus(after, other) <= WithStatus(rows, other) - ids;
      assert WithStatus(rows, other) - ids <= WithStatus(after, other);
    }
  }

  lemma SnapshotTakesABatch(rows: Rows, st: Status, batch: nat)
    ensures
      var todo := Elements(Truncate(FirstIds(rows, st, batch + 1), batch));
      && todo <= WithStatus(rows, st)
      && |WithStatus(rows, st) - todo| == Less(|WithStatus(rows, st)|, batch)
  {
    SnapshotLeavesFewerUnseen(rows, st, batch);
    TruncatedSnapshot(rows, st, batch);
    var all := Sorted(WithStatus(rows, st));
    forall x | x in Truncate(FirstIds(rows, st, batch + 1), batch) ensures x in WithStatus(rows, st) {
      assert x in all;
    }
  }

  /** Each queue is a batch shorter after the round. */
  lemma AfterRoundShortens(rows: Rows)
    ensures |WithStatus(AfterRound(rows), Waiting)| == Less(|WithStatus(rows, Waiting)|, WAITING_BATCH)
    ensures |WithStatus(AfterRound(rows), Reevaling)| == Less(|WithStatus(rows, Reevaling)|, REEVAL_BATCH)
  {
    hide FirstIds, Truncate, Elements, WithStatus, SetStatus;
    var first := Elements(Truncate(FirstIds(rows, Waiting, WAITING_BATCH + 1), WAITING_BATCH));
    var graded := SetStatus(rows, first, Finished);
    var second := Elements(Truncate(FirstIds(graded, Reevaling, REEVAL_BATCH + 1), REEVAL_BATCH));
    SnapshotTakesABatch(rows, Waiting, WAITING_BATCH);
    SnapshotTakesABatch(graded, Reevaling, REEVAL_BATCH);
    RowsAfterSetStatus(rows, first, Finished, Waiting);
    RowsAfterSetStatus(rows, first, Finished, Reevaling);
    RowsAfterSetStatus(graded, second, Finished, Waiting);
    RowsAfterSetStatus(graded, second, Finished, Reevaling);
    QueuesAreDisjoint(rows, first, Waiting, Reevaling);
    QueuesAreDisjoint(graded, second, Reevaling, Waiting);
  }

  lemma QueuesAreDisjoint(rows: Rows, ids: set<int>, st: Status, other: Status)
    requires ids <= WithStatus(rows, st) && st != other
    ensures WithStatus(rows, other) - ids == WithStatus(rows, other)
  {
    assert WithStatus(rows, other) <= WithStatus(rows, other) - ids;
  }

  lemma SetStatusAgain(rows: Rows, a: set<int>, b: set<int>, first: Status, second: Status)
    ensures a <= b ==> SetStatus(SetStatus(rows, a, first), b, second) == SetStatus(rows, b, second)
    ensures SetStatus(SetStatus(rows, a, second), b, second) == SetStatus(rows, a + b, second)
  {
  }

  lemma NothingSet(rows: Rows, ids: seq<int>)
    ensures SetStatus(rows, Elements(ids[..0]), Finished) == rows
  {
  }

  lemma OneMoreSet(rows: Rows, ids: seq<int>, i: nat)
    requires i < |ids|
    ensures SetStatus(SetStatus(rows, Elements(ids[..i]), Finished), {ids[i]}, Finished)
         == SetStatus(rows, Elements(ids[..i + 1]), Finished)
  {
    SetStatusAgain(rows, Elements(ids[..i]), {ids[i]}, Finished, Finished);
    assert Elements(ids[..i + 1]) == Elements(ids[..i]) + {ids[i]};
  }

  lemma {:induction false} RunSnoc(s: State, steps: seq<Step>, step: Step)
    requires Enabledness(s, steps) && Enabled(After(s, steps), step)
    ensures Enabledness(s, steps + [step])
    ensures After(s, steps + [step]) == Do(After(s, steps), step)
    decreases |steps|
  {
    hide FeederStep;
    if steps == [] {
      assert [step][1..] == [];
    } else {
      RunSnoc(Do(s, steps[0]), steps[1..], step);
      assert (steps + [step])[1..] == steps[1..] + [step];
    }
  }

  // ---- One run of a submission, in either loop ----

  function Started(waiting: bool, id: int, todo: seq<int>, rewake: bool): Feeder {
    if waiting then Executing(id, todo, rewake) else Reexecuting(id, todo, rewake)
  }

  function Ended(waiting: bool, id: int, todo: seq<int>, rewake: bool): Feeder {
    if waiting then Closing(id, todo, rewake) else Reclosing(id, todo, rewake)
  }

  function LetGo(waiting: bool, todo: seq<int>, rewake: bool): Feeder {
    if waiting then Draining(todo, rewake) else Resetting(todo, rewake)
  }

  lemma StartStep(s: State, id: int)
    requires if s.feeder.Draining? then s.feeder.todo != [] && s.feeder.todo[0] == id
             else s.feeder.Starting? && s.feeder.id == id
    ensures
      var waiting := s.feeder.Draining?;
      var todo := if waiting then s.feeder.todo[1..] else s.feeder.todo;
      var started := Started(waiting, id, todo, s.feeder.rewake);
      FeederStep(s) == s.(rows := SetStatus(s.rows, {id}, Working), feeder := started)
  {
    hide SetStatus, FirstIds;
  }

  lemma EndStep(s: State, waiting: bool, id: int, todo: seq<int>, rewake: bool)
    requires s.feeder == Started(waiting, id, todo, rewake)
    ensures FeederStep(s) == s.(rows := SetStatus(s.rows, {id}, Finished), feeder := Ended(waiting, id, todo, rewake))
  {
    hide SetStatus, FirstIds;
  }

  lemma LetGoStep(s: State, waiting: bool, id: int, todo: seq<int>, rewake: bool)
    requires s.feeder == Ended(waiting, id, todo, rewake)
    ensures FeederStep(s) == s.(rows := SetStatus(s.rows, {id}, Finished), feeder := LetGo(waiting, todo, rewake))
  {
    hide SetStatus, FirstIds;
  }

  // ---- The program ----

  class Handler {
    var rows: Rows
    var wakeChan: bool

    /** The protocol's view: where the feeder stands, and the run of its steps that led here. */
    ghost var feeder: Feeder
    ghost var origin: State
    ghost var steps: seq<Step>

    ghost function View(): State
      reads this
    {
      State(rows, wakeChan, feeder, map[])
    }

    /** `s` is where the protocol is after the feeder steps recorded so far. */
    ghost predicate Traced(s: State)
      reads this
    {
      && Enabledness(origin, steps) && After(origin, steps) == s
      && forall i | 0 <= i < |steps| :: steps[i].FeederMoves?
    }

    ghost predicate Valid()
      reads this
    {
      Traced(View())
    }

    constructor (rows: Rows)
      ensures this.rows == rows && wakeChan && feeder == Parked
      ensures Valid() && origin == View()
    {
      this.rows := rows;
      wakeChan := true;
      feeder := Parked;
      origin := State(rows, true, Parked, map[]);
      steps := [];
    }

    /** What the code has just done is the protocol's next feeder step from `before`. */
    ghost method Record(before: State, position: Feeder)
      requires Traced(before) && FeederEnabled(before)
      requires FeederStep(before) == State(rows, wakeChan, position, map[])
      modifies this`feeder, this`steps
      ensures Valid() && feeder == position
    {
      RunSnoc(origin, steps, FeederMoves);
      steps := steps + [FeederMoves];
      feeder := position;
    }

    /** A non-blocking send: with a token already there, nothing changes. */
    method Wake()
      modifies this`wakeChan
      ensures wakeChan
    {
      wakeChan := true;
    }

    method UpdateStatus(id: int, st: Status)
      modifies this`rows
      ensures rows == SetStatus(old(rows), {id}, st)
    {
      rows := SetStatus(rows, {id}, st);
    }

    /** Marks the submission Working, executes it, and leaves it Finished whatever its status was. */
    method RunSubmission(id: int)
      requires Valid()
      requires feeder.Draining? || feeder.Starting?
      requires feeder.Draining? ==> feeder.todo != [] && feeder.todo[0] == id
      requires feeder.Starting? ==> feeder.id == id
      modifies this`rows, this`feeder, this`steps
      ensures Valid()
      ensures rows == SetStatus(old(rows), {id}, Finished)
      ensures feeder ==
        if old(feeder).Draining? then Draining(old(feeder).todo[1..], old(feeder).rewake)
        else Resetting(old(feeder).todo, old(feeder).rewake)
    {
      hide FeederStep, SetStatus, Enabledness, After;
      var waiting := feeder.Draining?;
      ghost var todo, rewake := if waiting then feeder.todo[1..] else feeder.todo, feeder.rewake;
      ghost var before := View();
      UpdateStatus(id, Working);
      StartStep(before, id);
      Record(before, Started(waiting, id, todo, rewake));
      before := View();
      UpdateStatus(id, Finished);
      EndStep(before, waiting, id, todo, rewake);
      Record(before, Ended(waiting, id, todo, rewake));
      before := View();
      UpdateStatus(id, Finished);
      LetGoStep(before, waiting, id, todo, rewake);
      Record(before, LetGo(waiting, todo, rewake));
      SetStatusAgain(old(rows), {id}, {id}, Working, Finished);
      SetStatusAgain(old(rows), {id}, {id}, Finished, Finished);
    }

    /** Puts the submission back to Waiting and wakes the feeder, as every caller of the reset does. */
    method ResetSubmission(id: int)
      requires Valid() && feeder.Resetting? && feeder.todo != [] && feeder.todo[0] == id
      modifies this
      ensures Valid() && origin == old(origin)
      ensures rows == SetStatus(old(rows), {id}, Waiting) && wakeChan
      ensures feeder == Starting(id, old(feeder).todo[1..], old(feeder).rewake)
    {
      hide FirstIds, SetStatus, Enabledness, After;
      ghost var todo, rewake := feeder.todo[1..], feeder.rewake;
      ghost var before := View();
      UpdateStatus(id, Waiting);
      Record(before, Nudging(id, todo, rewake));
      before := View();
      Wake();
      Record(before, Starting(id, todo, rewake));
    }

    /** Every submission of the snapshot is run, in its order. */
    method RunAll(subs: seq<int>, ghost rewake: bool)
      requires Valid() && feeder == Draining(subs, rewake)
      modifies this`rows, this`feeder, this`steps
      ensures Valid() && feeder == Draining([], rewake)
      ensures rows == SetStatus(old(rows), Elements(subs), Finished)
    {
      hide FirstIds, FeederStep, SetStatus, Enabledness, After;
      NothingSet(rows, subs);
      for i := 0 to |subs|
        invariant Valid() && feeder == Draining(subs[i..], rewake)
        invariant rows == SetStatus(old(rows), Elements(subs[..i]), Finished)
      {
        RunSubmission(subs[i]);
        OneMoreSet(old(rows), subs, i);
      }
      assert subs[..|subs|] == subs;
    }

    /** The waiting half of the loop body; reports whether it left any behind. */
    method DrainWaiting() returns (rewake: bool)
      requires Valid() && feeder == Woken
      modifies this`rows, this`feeder, this`steps
      ensures Valid() && feeder == Draining([], rewake)
      ensures rewake <==> |WithStatus(old(rows), Waiting)| > WAITING_BATCH
      ensures
        var served := Elements(Truncate(FirstIds(old(rows), Waiting, WAITING_BATCH + 1), WAITING_BATCH));
        rows == SetStatus(old(rows), served, Finished)
    {
      hide FirstIds, SetStatus, Enabledness, After, Elements;
      rewake := false;
      var subs := FirstIds(rows, Waiting, WAITING_BATCH + 1);
      FirstIdsAreFirst(rows, Waiting, WAITING_BATCH + 1);
      if |subs| > WAITING_BATCH {
        subs := subs[..WAITING_BATCH];
        rewake := true;
      }
      Record(View(), Draining(subs, rewake));
      RunAll(subs, rewake);
    }

    /** Each submission of the snapshot is reset and then run; every reset leaves a token behind. */
    method ResetAll(reevalQueue: seq<int>, ghost rewake: bool)
      requires Valid() && feeder == Resetting(reevalQueue, rewake)
      modifies this
      ensures Valid() && origin == old(origin) && feeder == Resetting([], rewake)
      ensures wakeChan <==> old(wakeChan) || reevalQueue != []
      ensures rows == SetStatus(old(rows), Elements(reevalQueue), Finished)
    {
      hide FirstIds, FeederStep, SetStatus, Enabledness, After;
      NothingSet(rows, reevalQueue);
      for i := 0 to |reevalQueue|
        invariant Valid() && origin == old(origin) && feeder == Resetting(reevalQueue[i..], rewake)
        invariant wakeChan <==> old(wakeChan) || i > 0
        invariant rows == SetStatus(old(rows), Elements(reevalQueue[..i]), Finished)
      {
        ghost var graded := rows;
        ResetSubmission(reevalQueue[i]);
        RunSubmission(reevalQueue[i]);
        SetStatusAgain(graded, {reevalQueue[i]}, {reevalQueue[i]}, Waiting, Finished);
        OneMoreSet(old(rows), reevalQueue, i);
      }
      assert reevalQueue[..|reevalQueue|] == reevalQueue;
    }

    /** The reevaluation half of the loop body. */
    method DrainReevals(pending: bool) returns (rewake: bool)
      requires Valid() && feeder == Draining([], pending)
      modifies this
      ensures Valid() && origin == old(origin) && feeder == Resetting([], rewake)
      ensures rewake <==> pending || |WithStatus(old(rows), Reevaling)| > REEVAL_BATCH
      ensures wakeChan <==> old(wakeChan) || WithStatus(old(rows), Reevaling) != {}
      ensures
        var served := Elements(Truncate(FirstIds(old(rows), Reevaling, REEVAL_BATCH + 1), REEVAL_BATCH));
        rows == SetStatus(old(rows), served, Finished)
    {
      hide FirstIds, SetStatus, Enabledness, After, Elements;
      rewake := pending;
      var reevalQueue := FirstIds(rows, Reevaling, REEVAL_BATCH + 1);
      FirstIdsAreFirst(rows, Reevaling, REEVAL_BATCH + 1);
      if |reevalQueue| > REEVAL_BATCH {
        reevalQueue := reevalQueue[..REEVAL_BATCH];
        rewake := true;
      }
      Record(View(), Resetting(reevalQueue, rewake));
      ResetAll(reevalQueue, rewake);
    }

    /**
      One iteration of the loop, run when a token can be received. It is a run of the protocol's
      feeder steps from parked to parked, and a token is left exactly when there is, or may be, more to do.
    */
    method Handle()
      requires Valid() && feeder == Parked && wakeChan
      modifies this
      ensures Valid() && origin == old(origin) && feeder == Parked
      ensures rows == AfterRound(old(rows))
      ensures wakeChan <==>
        |WithStatus(old(rows), Waiting)| > WAITING_BATCH || WithStatus(old(rows), Reevaling) != {}
    {
      hide FirstIds, Truncate, Enabledness, After;
      ghost var before := View();
      wakeChan := false;
      Record(before, Woken);
      var rewake := DrainWaiting();
      ghost var graded := rows;
      rewake := DrainReevals(rewake);
      before := View();
      if rewake {
        Wake();
      }
      Record(before, Parked);
      ReevalsSurviveWaitingLoop(old(rows), graded);
    }

    /** Runs until the feeder would block; the number of rounds is exactly the closed form's. */
    method HandleUntilParked() returns (rounds: nat)
      requires Valid() && feeder == Parked && wakeChan
      modifies this
      ensures Valid() && feeder == Parked && !wakeChan
      ensures WithStatus(rows, Waiting) == {} && WithStatus(rows, Reevaling) == {}
      ensures rounds == RoundsNeeded(|WithStatus(old(rows), Waiting)|, |WithStatus(old(rows), Reevaling)|)
    {
      rounds := 0;
      hide AfterRound;
      ghost var total := RoundsNeeded(|WithStatus(rows, Waiting)|, |WithStatus(rows, Reevaling)|);
      while wakeChan
        invariant Valid() && feeder == Parked
        invariant wakeChan ==>
          rounds + RoundsNeeded(|WithStatus(rows, Waiting)|, |WithStatus(rows, Reevaling)|) == total
        invariant !wakeChan ==>
          rounds == total && WithStatus(rows, Waiting) == {} && WithStatus(rows, Reevaling) == {}
        decreases |WithStatus(rows, Waiting)| + |WithStatus(rows, Reevaling)|, wakeChan
      {
        AfterRoundShortens(rows);
        Handle();
        rounds := rounds + 1;
      }
    }
  }

  lemma ReevalsSurviveWaitingLoop(rows: Rows, graded: Rows)
    requires
      var served := Elements(Truncate(FirstIds(rows, Waiting, WAITING_BATCH + 1), WAITING_BATCH));
      graded == SetStatus(rows, served, Finished)
    ensures WithStatus(graded, Reevaling) == WithStatus(rows, Reevaling)
  {
    hide FirstIds, Truncate, WithStatus, SetStatus;
    var served := Elements(Truncate(FirstIds(rows, Waiting, WAITING_BATCH + 1), WAITING_BATCH));
    SnapshotTakesABatch(rows, Waiting, WAITING_BATCH);
    RowsAfterSetStatus(rows, served, Finished, Reevaling);
    QueuesAreDisjoint(rows, served, Waiting, Reevaling);
  }
}
