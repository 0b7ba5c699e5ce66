/** What freezing a leaderboard shows and hides. */
module ContestResults {
  import opened Common
  import opened RealSums
  import opened SubmissionTable
  import opened SubmissionTables
  import opened ContestWindows
  import opened ContestScoring
  import opened ContestFreeze
  import opened ContestBoard

  ghost function HistoryOf(d: ContestData, q: Query, scales: map<int, real>): History {
    History(SubmissionAttempts(d.submissions, q), SubtaskAttempts(d.subtaskScores, q), scales)
  }

  function Whole(c: int, cutoff: int): Query {
    Query(c, cutoff, None, None)
  }

  /** An earlier cutoff keeps the earlier attempts. */
  lemma CutIsUpTo(d: ContestData, q: Query, t: int)
    requires t <= q.cutoff
    ensures SubmissionAttempts(d.submissions, q.(cutoff := t)) == UpTo(SubmissionAttempts(d.submissions, q), t)
    ensures SubtaskAttempts(d.subtaskScores, q.(cutoff := t)) == UpTo(SubtaskAttempts(d.subtaskScores, q), t)
  {
    CutSubmissions(d.submissions, q, t);
    CutSubtasks(d.subtaskScores, q, t);
  }

  lemma CutSubmissions(rows: seq<Submission>, q: Query, t: int)
    requires t <= q.cutoff
    ensures SubmissionAttempts(rows, q.(cutoff := t)) == UpTo(SubmissionAttempts(rows, q), t)
  {
    var a, b := SubmissionAttempts(rows, q.(cutoff := t)), UpTo(SubmissionAttempts(rows, q), t);
    forall r | r in rows ensures KeepsSubmission(q.(cutoff := t), r) <==> KeepsSubmission(q, r) && r.createdAt <= t {
    }
    assert a <= b;
    assert b <= a;
  }

  lemma CutSubtasks(rows: seq<SubtaskScore>, q: Query, t: int)
    requires t <= q.cutoff
    ensures SubtaskAttempts(rows, q.(cutoff := t)) == UpTo(SubtaskAttempts(rows, q), t)
  {
    var a, b := SubtaskAttempts(rows, q.(cutoff := t)), UpTo(SubtaskAttempts(rows, q), t);
    forall r | r in rows ensures KeepsSubtask(q.(cutoff := t), r) <==> KeepsSubtask(q, r) && r.createdAt <= t {
    }
    assert a <= b;
    assert b <= a;
  }

  lemma WindowsOf(d: ContestData, c: int, t: int, u: int, r: ScoreTable, scales: map<int, real>) returns (w: Windows)
    requires t <= u && Gives(d, Whole(c, t), r)
    ensures Shows(HistoryOf(d, Whole(c, u), scales), t, w) && r == Join(d, Whole(c, t), w.ms, w.st)
  {
    hide Window, Join, SubmissionAttempts, SubtaskAttempts;
    var ms, st :| Window(SubmissionAttempts(d.submissions, Whole(c, t)), ms)
      && Window(SubtaskAttempts(d.subtaskScores, Whole(c, t)), st) && r == Join(d, Whole(c, t), ms, st);
    CutIsUpTo(d, Whole(c, u), t);
    w := Windows(ms, st);
  }

  lemma JoinAt(d: ContestData, c: int, t: int, w: Windows, u: int, p: int)
    ensures
      var r := Join(d, Whole(c, t), w.ms, w.st);
      && ((u, p) in r <==> u in Registered(d, c) && p in ProblemsOf(d, c) && p in d.problems)
      && ((u, p) in r ==> r[(u, p)] == MaxScore(d.problems[p], w.ms, w.st, u, p))
  {
    hide MaxScore, Registered, ProblemsOf;
  }

  /** A row sent up to `u` that one of the contestant's positive scores rests on. */
  ghost predicate CellRestsOn(d: ContestData, c: int, u: int, scales: map<int, real>, user: int, p: int, a: Attempt) {
    p in d.problems && RestsOn(HistoryOf(d, Whole(c, u), scales), d.problems[p], u, user, p, a)
  }

  /** Everything the freeze can do to one score: hold it back, or show it as it is. */
  lemma ScoreAtFreeze(d: ContestData, c: int, t: int, u: int, rt: ScoreTable, ru: ScoreTable,
      scales: map<int, real>, k: (int, int))
    requires t <= u && Gives(d, Whole(c, t), rt) && Gives(d, Whole(c, u), ru) && Fair(HistoryOf(d, Whole(c, u), scales))
    ensures k in ru <==> k in rt
    ensures k in ru ==> rt[k].score <= ru[k].score
    ensures k in ru && ru[k].score > 0.0 ==> ru[k].minTime.Some?
    ensures k in ru && ru[k].score > 0.0 && ru[k].minTime.value <= t ==> rt[k].score == ru[k].score
    ensures k in ru && ru[k].score > 0.0 ==>
      (rt[k].score == ru[k].score <==> forall a | CellRestsOn(d, c, u, scales, k.0, k.1, a) :: a.at <= t)
    ensures k in ru && ru[k].score > 0.0 ==>
      forall a | CellRestsOn(d, c, u, scales, k.0, k.1, a) :: a.at <= ru[k].minTime.value
  {
    hide Gives, Fair, Shows, Join, MaxScore, RestsOn, HistoryOf;
    var h := HistoryOf(d, Whole(c, u), scales);
    var v := WindowsOf(d, c, t, u, rt, scales);
    var w := WindowsOf(d, c, u, u, ru, scales);
    var (user, p) := k;
    JoinAt(d, c, t, v, user, p);
    JoinAt(d, c, u, w, user, p);
    if k in ru {
      ScoreNeverFalls(h, t, u, v, w, d.problems[p], user, p);
      ScoreIsTimely(h, t, u, v, w, d.problems[p], user, p);
      if ru[k].score > 0.0 {
        ScoreIsWholeIff(h, t, u, v, w, d.problems[p], user, p);
      }
    }
  }

  lemma PositiveGrows(d: ContestData, c: int, t: int, u: int, rt: ScoreTable, ru: ScoreTable,
      scales: map<int, real>, user: int, ps: set<int>)
    requires t <= u && Gives(d, Whole(c, t), rt) && Gives(d, Whole(c, u), ru) && Fair(HistoryOf(d, Whole(c, u), scales))
    ensures Positive(rt, user, ps) <= Positive(ru, user, ps)
    ensures forall p | p in Positive(rt, user, ps) :: PositiveScores(rt, user, ps)[p] <= PositiveScores(ru, user, ps)[p]
    ensures forall p | p in Positive(ru, user, ps) :: 0.0 <= PositiveScores(ru, user, ps)[p]
  {
    hide Gives, Fair, HistoryOf, Sum, CellRestsOn;
    forall p | p in Positive(rt, user, ps)
      ensures p in Positive(ru, user, ps) && PositiveScores(rt, user, ps)[p] <= PositiveScores(ru, user, ps)[p]
    {
      ScoreAtFreeze(d, c, t, u, rt, ru, scales, (user, p));
    }
  }

  /** Totals never fall as the freeze moves on. */
  lemma TotalsGrow(d: ContestData, c: int, t: int, u: int, rt: ScoreTable, ru: ScoreTable, scales: map<int, real>,
      user: int, ps: set<int>)
    requires t <= u && Gives(d, Whole(c, t), rt) && Gives(d, Whole(c, u), ru) && Fair(HistoryOf(d, Whole(c, u), scales))
    ensures Total(rt, user, ps) <= Total(ru, user, ps)
  {
    hide Gives, Fair, HistoryOf, Sum;
    PositiveGrows(d, c, t, u, rt, ru, scales, user, ps);
    SumGrows(Positive(rt, user, ps), PositiveScores(rt, user, ps),
             Positive(ru, user, ps), PositiveScores(ru, user, ps));
  }

  /** A single score held back keeps the total down. */
  lemma TotalLess(d: ContestData, c: int, t: int, u: int, rt: ScoreTable, ru: ScoreTable, scales: map<int, real>,
      user: int, ps: set<int>, p: int)
    requires t <= u && Gives(d, Whole(c, t), rt) && Gives(d, Whole(c, u), ru) && Fair(HistoryOf(d, Whole(c, u), scales))
    requires p in Positive(ru, user, ps) && (user, p) in rt && rt[(user, p)].score < ru[(user, p)].score
    ensures Total(rt, user, ps) < Total(ru, user, ps)
  {
    hide Gives, Fair, HistoryOf, Sum;
    PositiveGrows(d, c, t, u, rt, ru, scales, user, ps);
    assert p in Positive(rt, user, ps) ==> PositiveScores(rt, user, ps)[p] < PositiveScores(ru, user, ps)[p];
    SumGrows(Positive(rt, user, ps), PositiveScores(rt, user, ps),
             Positive(ru, user, ps), PositiveScores(ru, user, ps));
  }

  /** From last_time on, the frozen total is the whole total. */
  lemma TotalIsTimely(d: ContestData, c: int, t: int, u: int, rt: ScoreTable, ru: ScoreTable,
      scales: map<int, real>, user: int, ps: set<int>)
    requires t <= u && Gives(d, Whole(c, t), rt) && Gives(d, Whole(c, u), ru) && Fair(HistoryOf(d, Whole(c, u), scales))
    requires LastTime(ru, user, ps).None? || LastTime(ru, user, ps).value <= t
    ensures Total(rt, user, ps) == Total(ru, user, ps)
  {
    hide Gives, Fair, HistoryOf, Sum, Latest, CellRestsOn;
    var times := PositiveTimes(ru, user, ps);
    if times.Keys != {} {
      var _ := LatestIsMax(times.Keys, times);
    }
    forall p | p in Positive(ru, user, ps)
      ensures p in Positive(rt, user, ps) && PositiveScores(rt, user, ps)[p] == PositiveScores(ru, user, ps)[p]
    {
      ScoreAtFreeze(d, c, t, u, rt, ru, scales, (user, p));
      assert p in times;
      assert times[p] <= t;
    }
    PositiveGrows(d, c, t, u, rt, ru, scales, user, ps);
    assert Positive(rt, user, ps) == Positive(ru, user, ps);
    SumSame(Positive(ru, user, ps), PositiveScores(rt, user, ps), PositiveScores(ru, user, ps));
  }

  /** A freeze hides nothing of a total exactly when it hides no row that one of its scores rests on. */
  lemma TotalIsWholeIff(d: ContestData, c: int, t: int, u: int, rt: ScoreTable, ru: ScoreTable,
      scales: map<int, real>, user: int, ps: set<int>)
    requires t <= u && Gives(d, Whole(c, t), rt) && Gives(d, Whole(c, u), ru) && Fair(HistoryOf(d, Whole(c, u), scales))
    ensures Total(rt, user, ps) == Total(ru, user, ps) <==>
      forall p, a | p in Positive(ru, user, ps) && CellRestsOn(d, c, u, scales, user, p, a) :: a.at <= t
  {
    hide Gives, Fair, HistoryOf, Sum, CellRestsOn;
    forall p | p in Positive(ru, user, ps)
      ensures (user, p) in rt && rt[(user, p)].score <= ru[(user, p)].score
      ensures rt[(user, p)].score == ru[(user, p)].score <==>
        forall a | CellRestsOn(d, c, u, scales, user, p, a) :: a.at <= t
    {
      ScoreAtFreeze(d, c, t, u, rt, ru, scales, (user, p));
    }
    if p :| p in Positive(ru, user, ps) && rt[(user, p)].score < ru[(user, p)].score {
      TotalLess(d, c, t, u, rt, ru, scales, user, ps, p);
    } else {
      PositiveGrows(d, c, t, u, rt, ru, scales, user, ps);
      assert Positive(rt, user, ps) == Positive(ru, user, ps);
      SumSame(Positive(ru, user, ps), PositiveScores(rt, user, ps), PositiveScores(ru, user, ps));
    }
  }

  /** Some row that a positive score rests on was sent at last_time. */
  ghost predicate Decided(d: ContestData, c: int, u: int, scales: map<int, real>, ru: ScoreTable, user: int,
      ps: set<int>) {
    LastTime(ru, user, ps).Some? ==>
      exists p, a :: p in Positive(ru, user, ps) && CellRestsOn(d, c, u, scales, user, p, a)
        && a.at == LastTime(ru, user, ps).value
  }

  /** No row that a positive score rests on is later than last_time. */
  lemma NothingAfterLastTime(d: ContestData, c: int, u: int, ru: ScoreTable, scales: map<int, real>, user: int,
      ps: set<int>, p: int, a: Attempt)
    requires Gives(d, Whole(c, u), ru) && Fair(HistoryOf(d, Whole(c, u), scales))
    requires p in Positive(ru, user, ps) && CellRestsOn(d, c, u, scales, user, p, a)
    ensures LastTime(ru, user, ps).Some? && a.at <= LastTime(ru, user, ps).value
  {
    hide Gives, Fair, HistoryOf, CellRestsOn, Latest;
    ScoreAtFreeze(d, c, u, u, ru, ru, scales, (user, p));
    var times := PositiveTimes(ru, user, ps);
    assert p in times;
    var _ := LatestIsMax(times.Keys, times);
    assert times[p] <= LastTime(ru, user, ps).value;
  }

  /** last_time is the first moment at which a freeze hides nothing of the total, if it is decided by a scoring row. */
  lemma LastTimeIsExact(d: ContestData, c: int, t: int, u: int, rt: ScoreTable, ru: ScoreTable,
      scales: map<int, real>, user: int)
    requires t <= u && Gives(d, Whole(c, t), rt) && Gives(d, Whole(c, u), ru) && Fair(HistoryOf(d, Whole(c, u), scales))
    requires Decided(d, c, u, scales, ru, user, ProblemsOf(d, c))
    ensures
      var now := EntryOf(ru, user, ProblemsOf(d, c));
      EntryOf(rt, user, ProblemsOf(d, c)).total == now.total <==> now.lastTime.None? || now.lastTime.value <= t
  {
    hide Gives, Fair, HistoryOf, Total, LastTime, CellRestsOn, Positive;
    var ps := ProblemsOf(d, c);
    if LastTime(ru, user, ps).None? || LastTime(ru, user, ps).value <= t {
      TotalIsTimely(d, c, t, u, rt, ru, scales, user, ps);
    } else {
      TotalIsWholeIff(d, c, t, u, rt, ru, scales, user, ps);
    }
  }

  /** A cutoff always has a score table. */
  lemma TableExists(d: ContestData, c: int, t: int) returns (r: ScoreTable)
    ensures Gives(d, Whole(c, t), r)
  {
    hide Window, Join;
    var ms := WindowExists(SubmissionAttempts(d.submissions, Whole(c, t)));
    var st := WindowExists(SubtaskAttempts(d.subtaskScores, Whole(c, t)));
    r := Join(d, Whole(c, t), ms, st);
  }

  /** At a freeze the total is the whole one exactly when the freeze is not before last_time. */
  predicate ExactAt(t: int, rt: ScoreTable, ru: ScoreTable, user: int, ps: set<int>) {
    Total(rt, user, ps) == Total(ru, user, ps) <==>
      LastTime(ru, user, ps).None? || LastTime(ru, user, ps).value <= t
  }

  ghost predicate ExactUpTo(d: ContestData, c: int, u: int, ru: ScoreTable, user: int, ps: set<int>) {
    forall t, rt | t <= u && Gives(d, Whole(c, t), rt) :: ExactAt(t, rt, ru, user, ps)
  }

  /**
    last_time is exact at every freeze up to the present if and only if a row that a positive score
    rests on was sent then.
  */
  lemma LastTimeIsExactIff(d: ContestData, c: int, u: int, ru: ScoreTable, scales: map<int, real>, user: int)
    requires Gives(d, Whole(c, u), ru) && Fair(HistoryOf(d, Whole(c, u), scales))
    ensures ExactUpTo(d, c, u, ru, user, ProblemsOf(d, c)) <==> Decided(d, c, u, scales, ru, user, ProblemsOf(d, c))
  {
    hide Gives, Fair, HistoryOf, Total, LastTime, CellRestsOn, Positive;
    var ps := ProblemsOf(d, c);
    if Decided(d, c, u, scales, ru, user, ps) {
      forall t, rt | t <= u && Gives(d, Whole(c, t), rt)
        ensures ExactAt(t, rt, ru, user, ps)
      {
        LastTimeIsExact(d, c, t, u, rt, ru, scales, user);
      }
    } else {
      WholeBeforeLastTime(d, c, u, ru, scales, user, ps);
    }
  }

  /** Otherwise the total is whole a moment before last_time. */
  lemma WholeBeforeLastTime(d: ContestData, c: int, u: int, ru: ScoreTable, scales: map<int, real>, user: int,
      ps: set<int>)
    requires Gives(d, Whole(c, u), ru) && Fair(HistoryOf(d, Whole(c, u), scales))
    requires !Decided(d, c, u, scales, ru, user, ps)
    ensures !ExactUpTo(d, c, u, ru, user, ps)
  {
    hide Gives, Fair, HistoryOf, Total, CellRestsOn, Positive, LastTime;
    var last := LastTime(ru, user, ps).value;
    var t := (if last <= u then last else u + 1) - 1;
    var rt := TableExists(d, c, t);
    forall p, a | p in Positive(ru, user, ps) && CellRestsOn(d, c, u, scales, user, p, a) ensures a.at <= t {
      NothingAfterLastTime(d, c, u, ru, scales, user, ps, p, a);
      CellRowIsSent(d, c, u, scales, user, p, a);
    }
    TotalIsWholeIff(d, c, t, u, rt, ru, scales, user, ps);
  }

  lemma CellRowIsSent(d: ContestData, c: int, u: int, scales: map<int, real>, user: int, p: int, a: Attempt)
    requires CellRestsOn(d, c, u, scales, user, p, a)
    ensures a.at <= u
  {
    hide Scaled, HistoryOf;
  }

  /** When everyone scored on one subtask of a problem is scored on all of them, last_time is decided. */
  lemma AllSubtasksMakeItExact(d: ContestData, c: int, u: int, ru: ScoreTable, scales: map<int, real>, user: int,
      ps: set<int>)
    requires Gives(d, Whole(c, u), ru) && Fair(HistoryOf(d, Whole(c, u), scales))
    requires AllSubtasks(HistoryOf(d, Whole(c, u), scales).subtasks)
    ensures Decided(d, c, u, scales, ru, user, ps)
  {
    hide Gives, Fair, Shows, HistoryOf, Join, MaxScore, RestsOn, AllSubtasks, Latest;
    var times := PositiveTimes(ru, user, ps);
    if times.Keys != {} {
      var p := LatestIsMax(times.Keys, times);
      var w := WindowsOf(d, c, u, u, ru, scales);
      JoinAt(d, c, u, w, user, p);
      var a := AllSubtasksDecide(HistoryOf(d, Whole(c, u), scales), u, w, d.problems[p], user, p);
      assert CellRestsOn(d, c, u, scales, user, p, a) && a.at == times[p];
    }
  }

  /** last_time is NULL exactly when no problem scores above 0. */
  lemma NoLastTime(d: ContestData, c: int, u: int, ru: ScoreTable, scales: map<int, real>, user: int, ps: set<int>)
    requires Gives(d, Whole(c, u), ru) && Fair(HistoryOf(d, Whole(c, u), scales))
    ensures LastTime(ru, user, ps).None? <==> Positive(ru, user, ps) == {}
  {
    hide Gives, Fair, HistoryOf, CellRestsOn, Latest;
    forall p | p in Positive(ru, user, ps) ensures p in PositiveTimes(ru, user, ps) {
      ScoreAtFreeze(d, c, u, u, ru, ru, scales, (user, p));
    }
    assert PositiveTimes(ru, user, ps).Keys == Positive(ru, user, ps);
  }

  // ---- What comes after the freeze ----

  /** The two contests agree on everything created up to the cutoff. */
  ghost predicate SameUntil(a: ContestData, b: ContestData, cutoff: int) {
    && a.contestProblems == b.contestProblems && a.problems == b.problems
    && a.registrations == b.registrations && a.access == b.access
    && (forall r: Submission :: r.createdAt <= cutoff ==> (r in a.submissions <==> r in b.submissions))
    && (forall r: SubtaskScore :: r.createdAt <= cutoff ==> (r in a.subtaskScores <==> r in b.subtaskScores))
  }

  /** Whatever is submitted after the freeze, the frozen board stays what it was. */
  lemma LaterRowsDoNotShow(a: ContestData, b: ContestData, c: int, freeze: int, now: int, includeEditors: bool,
      r: ScoreTable, board: seq<Entry>)
    requires SameUntil(a, b, freeze)
    ensures Gives(a, Whole(c, Cutoff(Some(freeze), now)), r) <==> Gives(b, Whole(c, Cutoff(Some(freeze), now)), r)
    ensures IsBoard(board, Entries(a, c, includeEditors, r)) <==> IsBoard(board, Entries(b, c, includeEditors, r))
  {
    var q := Whole(c, freeze);
    SameAttempts(a, b, q);
    forall ms, st ensures Join(a, q, ms, st) == Join(b, q, ms, st) {
      SameJoin(a, b, q, ms, st);
    }
    assert Entries(a, c, includeEditors, r) == Entries(b, c, includeEditors, r);
  }

  lemma SameJoin(a: ContestData, b: ContestData, q: Query, ms: map<Key, Attempt>, st: map<Key, Attempt>)
    requires a.contestProblems == b.contestProblems && a.problems == b.problems && a.registrations == b.registrations
    ensures Join(a, q, ms, st) == Join(b, q, ms, st)
  {
    hide MaxScore, Asked;
    assert Registered(a, q.contestId) == Registered(b, q.contestId);
    assert ProblemsOf(a, q.contestId) == ProblemsOf(b, q.contestId);
  }

  lemma SameAttempts(a: ContestData, b: ContestData, q: Query)
    requires SameUntil(a, b, q.cutoff)
    ensures SubmissionAttempts(a.submissions, q) == SubmissionAttempts(b.submissions, q)
    ensures SubtaskAttempts(a.subtaskScores, q) == SubtaskAttempts(b.subtaskScores, q)
  {
    forall r: Submission | KeepsSubmission(q, r) ensures r in a.submissions <==> r in b.submissions {
    }
    forall r: SubtaskScore | KeepsSubtask(q, r) ensures r in a.subtaskScores <==> r in b.subtaskScores {
    }
  }

  // ---- Where the conditions are needed ----

  /** No row is dated after the present. */
  ghost predicate NothingAfter(d: ContestData, now: int) {
    (forall r | r in d.submissions :: r.createdAt <= now) && (forall r | r in d.subtaskScores :: r.createdAt <= now)
  }

  /** A freeze in the future is no freeze. */
  lemma FutureFreeze(d: ContestData, c: int, now: int, t: int, r: ScoreTable)
    requires NothingAfter(d, now) && now <= t
    ensures Gives(d, Whole(c, t), r) <==> Gives(d, Whole(c, now), r)
  {
    hide Window;
    assert SubmissionAttempts(d.submissions, Whole(c, t)) == SubmissionAttempts(d.submissions, Whole(c, now));
    assert SubtaskAttempts(d.subtaskScores, Whole(c, t)) == SubtaskAttempts(d.subtaskScores, Whole(c, now));
    forall ms, st ensures Join(d, Whole(c, t), ms, st) == Join(d, Whole(c, now), ms, st) {
      SameJoinAtAnyTime(d, c, now, t, ms, st);
    }
  }

  lemma SameJoinAtAnyTime(d: ContestData, c: int, now: int, t: int, ms: map<Key, Attempt>, st: map<Key, Attempt>)
    ensures Join(d, Whole(c, t), ms, st) == Join(d, Whole(c, now), ms, st)
  {
    hide MaxScore, Registered, ProblemsOf;
  }

  /** The same at every freeze time, past or future, against the board of this moment. */
  ghost predicate ExactAlways(d: ContestData, c: int, now: int, ru: ScoreTable, user: int) {
    forall t, rt | Gives(d, Whole(c, Cutoff(Some(t), now)), rt) :: ExactAt(t, rt, ru, user, ProblemsOf(d, c))
  }

  lemma LastTimeIsExactAlwaysIff(d: ContestData, c: int, now: int, ru: ScoreTable, scales: map<int, real>, user: int)
    requires Gives(d, Whole(c, Cutoff(None, now)), ru)
    requires NothingAfter(d, now) && Fair(HistoryOf(d, Whole(c, now), scales))
    ensures ExactAlways(d, c, now, ru, user) <==> Decided(d, c, now, scales, ru, user, ProblemsOf(d, c))
  {
    hide Gives, Fair, HistoryOf, Decided, Total, LastTime, NothingAfter;
    var ps := ProblemsOf(d, c);
    LastTimeIsExactIff(d, c, now, ru, scales, user);
    if Decided(d, c, now, scales, ru, user, ps) {
      forall t, rt | Gives(d, Whole(c, Cutoff(Some(t), now)), rt)
        ensures ExactAt(t, rt, ru, user, ps)
      {
        if t > now {
          FutureFreeze(d, c, now, t, rt);
          LastTimeIsExact(d, c, now, now, ru, ru, scales, user);
          LastTimeIsExact(d, c, now, now, rt, ru, scales, user);
        }
      }
    }
    if ExactAlways(d, c, now, ru, user) {
      forall t, rt | t <= now && Gives(d, Whole(c, t), rt)
        ensures ExactAt(t, rt, ru, user, ps)
      {
        assert Gives(d, Whole(c, Cutoff(Some(t), now)), rt);
      }
    }
  }

  const FIRST := Attempt(Key(3, 7, Some(1)), 10, 50.0, 100.0)
  const SECOND := Attempt(Key(3, 7, Some(2)), 20, 0.0, 100.0)
  const THIRD := Attempt(Key(3, 7, Some(1)), 20, 0.0, 100.0)
  const SENT := {FIRST, SECOND, THIRD}

  /**
    A subtask added between two submissions: only the second one has a row for it, next to one for
    the old subtask, and both are worth nothing. The first submission already gives the final score,
    and yet mintime is the time of the second: no row that the score rests on was sent then.
  */
  lemma AddedSubtaskMakesItLate(st10: map<Key, Attempt>, st20: map<Key, Attempt>)
    requires Window(UpTo(SENT, 10), st10) && Window(UpTo(SENT, 20), st20)
    ensures MaxScore(SumSubtasks, map[], st10, 3, 7).score == MaxScore(SumSubtasks, map[], st20, 3, 7).score == 50.0
    ensures MaxScore(SumSubtasks, map[], st20, 3, 7).minTime == Some(20)
    ensures forall a | RestsOn(History({}, SENT, map[7 := 100.0]), SumSubtasks, 20, 3, 7, a) :: a.at == 10
  {
    hide Sum, Latest, Window, UpTo, SubtasksOf, Best;
    WindowsOfThree(st10, st20);
    SubtasksOfThree(st10, st20);
    SumOfOne(BestScores(st10, 3, 7), 1);
    SumWithout({1, 2}, BestScores(st20, 3, 7), 2);
    assert {1, 2} - {2} == {1};
    SumOfOne(BestScores(st20, 3, 7), 1);
    var _ := LatestIsMax({1, 2}, BestTimes(st20, 3, 7));
    OnlyTheFirstScores();
  }

  lemma OnlyTheFirstScores()
    ensures forall a | RestsOn(History({}, SENT, map[7 := 100.0]), SumSubtasks, 20, 3, 7, a) :: a.at == 10
  {
  }

  lemma WindowsOfThree(st10: map<Key, Attempt>, st20: map<Key, Attempt>)
    requires Window(UpTo(SENT, 10), st10) && Window(UpTo(SENT, 20), st20)
    ensures st10 == map[FIRST.key := FIRST] && st20 == map[FIRST.key := FIRST, SECOND.key := SECOND]
  {
    assert FIRST in UpTo(SENT, 10) && FIRST in UpTo(SENT, 20) && SECOND in UpTo(SENT, 20);
    assert forall k | k in st10 :: IsFirst(UpTo(SENT, 10), k, st10[k]);
    assert forall k | k in st20 :: IsFirst(UpTo(SENT, 20), k, st20[k]);
  }

  lemma SubtasksOfThree(st10: map<Key, Attempt>, st20: map<Key, Attempt>)
    requires st10 == map[FIRST.key := FIRST] && st20 == map[FIRST.key := FIRST, SECOND.key := SECOND]
    ensures SubtasksOf(st10, 3, 7) == {1} && SubtasksOf(st20, 3, 7) == {1, 2}
  {
    forall s ensures s in SubtasksOf(st10, 3, 7) <==> s == 1 {
      InSubtasksOf(st10, 3, 7, s);
    }
    forall s ensures s in SubtasksOf(st20, 3, 7) <==> s == 1 || s == 2 {
      InSubtasksOf(st20, 3, 7, s);
    }
  }

  lemma SumOfOne(v: map<int, real>, k: int)
    requires k in v
    ensures Sum({k}, v) == v[k]
  {
    SumWithout({k}, v, k);
    assert {k} - {k} == {};
  }
}
