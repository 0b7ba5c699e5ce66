/** What the scoring query reads and gives, said of the rows of the tables. */
module ContestRows {
  import opened Common
  import opened RealSums
  import opened SubmissionStatus
  import opened SubmissionTable
  import opened SubmissionTables
  import opened ContestWindows
  import opened ContestScoring
  import opened ContestFreeze

  /** A submission of the contest that has been graded, or is being graded again, sent up to the cutoff. */
  predicate Graded(x: Submission, c: int, cutoff: int) {
    x.contestId == Some(c) && x.createdAt <= cutoff && (x.status == Finished || x.status == Reevaling)
  }

  /** A result of the contest on a subtask that still exists, whatever became of the submission. */
  predicate Assessed(x: SubtaskScore, c: int, cutoff: int) {
    x.contestId == Some(c) && x.createdAt <= cutoff && x.subtaskId.Some?
  }

  predicate SentBy(x: Submission, user: int, p: int) {
    x.userId == user && x.problemId == p
  }

  predicate ResultOf(x: SubtaskScore, user: int, p: int, s: int) {
    x.userId == user && x.problemId == p && x.subtaskId == Some(s)
  }

  // ---- Nothing else is read ----

  /** The contests agree on the rows of one contest that count at the cutoff, and on who takes part in it and how. */
  ghost predicate SameContest(a: ContestData, b: ContestData, c: int, cutoff: int) {
    && a.problems == b.problems
    && (forall p :: (c, p) in a.contestProblems <==> (c, p) in b.contestProblems)
    && (forall u :: (c, u) in a.registrations <==> (c, u) in b.registrations)
    && (forall x: Submission | Graded(x, c, cutoff) :: x in a.submissions <==> x in b.submissions)
    && (forall x: SubtaskScore | Assessed(x, c, cutoff) :: x in a.subtaskScores <==> x in b.subtaskScores)
  }

  /** Rows of other contests, of no contest, after the cutoff, ungraded or without a subtask change nothing. */
  lemma OnlyContestRowsMatter(a: ContestData, b: ContestData, q: Query, r: ScoreTable)
    requires SameContest(a, b, q.contestId, q.cutoff)
    ensures Gives(a, q, r) <==> Gives(b, q, r)
  {
    hide Window, Join;
    SameAttempts(a, b, q);
    forall ms, st ensures Join(a, q, ms, st) == Join(b, q, ms, st) {
      SameJoin(a, b, q, ms, st);
    }
  }

  lemma SameAttempts(a: ContestData, b: ContestData, q: Query)
    requires SameContest(a, b, q.contestId, q.cutoff)
    ensures SubmissionAttempts(a.submissions, q) == SubmissionAttempts(b.submissions, q)
    ensures SubtaskAttempts(a.subtaskScores, q) == SubtaskAttempts(b.subtaskScores, q)
  {
    forall x: Submission | KeepsSubmission(q, x) ensures x in a.submissions <==> x in b.submissions {
      assert Graded(x, q.contestId, q.cutoff);
    }
    forall x: SubtaskScore | KeepsSubtask(q, x) ensures x in a.subtaskScores <==> x in b.subtaskScores {
      assert Assessed(x, q.contestId, q.cutoff);
    }
  }

  lemma SameJoin(a: ContestData, b: ContestData, q: Query, ms: map<Key, Attempt>, st: map<Key, Attempt>)
    requires SameContest(a, b, q.contestId, q.cutoff)
    ensures Join(a, q, ms, st) == Join(b, q, ms, st)
  {
    hide MaxScore, Asked;
    forall u ensures u in Registered(a, q.contestId) <==> u in Registered(b, q.contestId) {
      IsRegistered(a, q.contestId, u);
      IsRegistered(b, q.contestId, u);
    }
    forall p ensures p in ProblemsOf(a, q.contestId) <==> p in ProblemsOf(b, q.contestId) {
      IsProblemOf(a, q.contestId, p);
      IsProblemOf(b, q.contestId, p);
    }
    assert Registered(a, q.contestId) == Registered(b, q.contestId);
    assert ProblemsOf(a, q.contestId) == ProblemsOf(b, q.contestId);
  }

  lemma IsRegistered(d: ContestData, c: int, u: int)
    ensures u in Registered(d, c) <==> (c, u) in d.registrations
  {
    assert (c, u).0 == c && (c, u).1 == u;
  }

  lemma IsProblemOf(d: ContestData, c: int, p: int)
    ensures p in ProblemsOf(d, c) <==> (c, p) in d.contestProblems && p in d.problems
  {
    assert (c, p).0 == c && (c, p).1 == p;
  }

  /** One cell for everyone registered and every problem of the contest, unless one user or problem is asked for. */
  lemma CellsOfTable(d: ContestData, q: Query, r: ScoreTable, user: int, p: int)
    requires Gives(d, q, r)
    ensures (user, p) in r <==>
      && (q.contestId, user) in d.registrations && (q.contestId, p) in d.contestProblems && p in d.problems
      && (q.userId == None || q.userId == Some(user)) && (q.problemId == None || q.problemId == Some(p))
  {
    hide Window, MaxScore, Registered, ProblemsOf;
    IsRegistered(d, q.contestId, user);
    IsProblemOf(d, q.contestId, p);
  }

  // ---- Which row a score comes from ----

  /** One scale for each problem, not negative, and no negative score, among the contest's rows. */
  ghost predicate RegularRows(d: ContestData, c: int, scales: map<int, real>) {
    && (forall x | x in d.submissions && x.contestId == Some(c) ::
          x.problemId in scales && x.scoreScale == scales[x.problemId] >= 0.0 && x.score >= 0.0)
    && (forall x | x in d.subtaskScores && x.contestId == Some(c) ::
          x.problemId in scales && x.scoreScale == scales[x.problemId] >= 0.0 && x.computedScore >= 0.0)
  }

  lemma RowsAreRegular(d: ContestData, q: Query, scales: map<int, real>)
    requires RegularRows(d, q.contestId, scales)
    ensures Regular(SubmissionAttempts(d.submissions, q), scales)
    ensures Regular(SubtaskAttempts(d.subtaskScores, q), scales)
  {
  }

  /** The rows of one contestant and problem are what the query ranks for them. */
  lemma RankedSubmission(d: ContestData, q: Query, user: int, p: int, x: Submission)
    requires Asked(q, user, p) && x in d.submissions && Graded(x, q.contestId, q.cutoff) && SentBy(x, user, p)
    ensures
      var a := Attempt(Key(user, p, None), x.createdAt, x.score, x.scoreScale);
      Counted(SubmissionAttempts(d.submissions, q), a.key, q.cutoff, a)
  {
    assert KeepsSubmission(q, x);
    assert SubmissionAttempt(x) in SubmissionAttempts(d.submissions, q);
  }

  lemma SubmissionOf(d: ContestData, q: Query, user: int, p: int, a: Attempt) returns (x: Submission)
    requires Counted(SubmissionAttempts(d.submissions, q), Key(user, p, None), q.cutoff, a)
    ensures x in d.submissions && Graded(x, q.contestId, q.cutoff) && SentBy(x, user, p)
    ensures a == Attempt(Key(user, p, None), x.createdAt, x.score, x.scoreScale)
  {
    x :| x in d.submissions && KeepsSubmission(q, x) && a == SubmissionAttempt(x);
  }

  lemma RankedResult(d: ContestData, q: Query, user: int, p: int, s: int, x: SubtaskScore)
    requires x in d.subtaskScores && Assessed(x, q.contestId, q.cutoff) && ResultOf(x, user, p, s)
    ensures
      var a := Attempt(Key(user, p, Some(s)), x.createdAt, x.computedScore, x.scoreScale);
      Counted(SubtaskAttempts(d.subtaskScores, q), a.key, q.cutoff, a)
  {
    assert KeepsSubtask(q, x);
    assert SubtaskAttempt(x) in SubtaskAttempts(d.subtaskScores, q);
  }

  lemma ResultRow(d: ContestData, q: Query, user: int, p: int, s: int, a: Attempt) returns (x: SubtaskScore)
    requires Counted(SubtaskAttempts(d.subtaskScores, q), Key(user, p, Some(s)), q.cutoff, a)
    ensures x in d.subtaskScores && Assessed(x, q.contestId, q.cutoff) && ResultOf(x, user, p, s)
    ensures a == Attempt(Key(user, p, Some(s)), x.createdAt, x.computedScore, x.scoreScale)
  {
    x :| x in d.subtaskScores && KeepsSubtask(q, x) && a == SubtaskAttempt(x);
  }

  /** No counting submission of theirs to the problem is worth more, and none of as high a score was sent earlier. */
  ghost predicate BestSubmission(d: ContestData, c: int, cutoff: int, user: int, p: int, x: Submission) {
    && x in d.submissions && Graded(x, c, cutoff) && SentBy(x, user, p)
    && forall y | y in d.submissions && Graded(y, c, cutoff) && SentBy(y, user, p) ::
      && y.score * (y.scoreScale / 100.0) <= x.score * (x.scoreScale / 100.0)
      && (y.score >= x.score ==> x.createdAt <= y.createdAt)
  }

  ghost predicate BestResult(d: ContestData, c: int, cutoff: int, user: int, p: int, s: int, x: SubtaskScore) {
    && x in d.subtaskScores && Assessed(x, c, cutoff) && ResultOf(x, user, p, s)
    && forall y | y in d.subtaskScores && Assessed(y, c, cutoff) && ResultOf(y, user, p, s) ::
      && y.computedScore * (y.scoreScale / 100.0) <= x.computedScore * (x.scoreScale / 100.0)
      && (y.computedScore >= x.computedScore ==> x.createdAt <= y.createdAt)
  }

  /** What a partition shows is what its best row is worth, and when that was created. */
  lemma ShownSubmission(d: ContestData, q: Query, scales: map<int, real>, ms: map<Key, Attempt>, user: int, p: int)
    requires RegularRows(d, q.contestId, scales) && Asked(q, user, p)
    requires Window(SubmissionAttempts(d.submissions, q), ms)
    ensures
      var k := Key(user, p, None);
      if k in ms then
        exists x :: BestSubmission(d, q.contestId, q.cutoff, user, p, x)
          && Scaled(ms[k]) == x.score * (x.scoreScale / 100.0) && ms[k].at == x.createdAt
      else forall x | x in d.submissions :: !(Graded(x, q.contestId, q.cutoff) && SentBy(x, user, p))
  {
    hide SubmissionAttempts, Counted, Graded, SentBy, RegularRows, Regular, Window, Asked;
    var all, k := SubmissionAttempts(d.submissions, q), Key(user, p, None);
    RowsAreRegular(d, q, scales);
    AllUpToCutoff(d, q);
    FirstIsBest(all, scales, q.cutoff, ms, k);
    forall y | y in d.submissions && Graded(y, q.contestId, q.cutoff) && SentBy(y, user, p)
      ensures Counted(all, k, q.cutoff, Attempt(k, y.createdAt, y.score, y.scoreScale))
    {
      RankedSubmission(d, q, user, p, y);
    }
    if k in ms {
      var x := SubmissionOf(d, q, user, p, ms[k]);
      assert BestSubmission(d, q.contestId, q.cutoff, user, p, x);
    }
  }

  lemma AllUpToCutoff(d: ContestData, q: Query)
    ensures UpTo(SubmissionAttempts(d.submissions, q), q.cutoff) == SubmissionAttempts(d.submissions, q)
    ensures UpTo(SubtaskAttempts(d.subtaskScores, q), q.cutoff) == SubtaskAttempts(d.subtaskScores, q)
  {
  }

  lemma ShownResult(d: ContestData, q: Query, scales: map<int, real>, st: map<Key, Attempt>, user: int, p: int, s: int)
    requires RegularRows(d, q.contestId, scales) && Window(SubtaskAttempts(d.subtaskScores, q), st)
    ensures
      var k := Key(user, p, Some(s));
      if k in st then
        exists x :: BestResult(d, q.contestId, q.cutoff, user, p, s, x)
          && Scaled(st[k]) == x.computedScore * (x.scoreScale / 100.0) && st[k].at == x.createdAt
      else forall x | x in d.subtaskScores :: !(Assessed(x, q.contestId, q.cutoff) && ResultOf(x, user, p, s))
  {
    hide SubtaskAttempts, Counted, Assessed, ResultOf, RegularRows, Regular, Window;
    var all, k := SubtaskAttempts(d.subtaskScores, q), Key(user, p, Some(s));
    RowsAreRegular(d, q, scales);
    AllUpToCutoff(d, q);
    FirstIsBest(all, scales, q.cutoff, st, k);
    forall y | y in d.subtaskScores && Assessed(y, q.contestId, q.cutoff) && ResultOf(y, user, p, s)
      ensures Counted(all, k, q.cutoff, Attempt(k, y.createdAt, y.computedScore, y.scoreScale))
    {
      RankedResult(d, q, user, p, s, y);
    }
    if k in st {
      var x := ResultRow(d, q, user, p, s, st[k]);
      assert BestResult(d, q.contestId, q.cutoff, user, p, s, x);
    }
  }

  /** Unless subtasks are summed: the worth and time of the best submission, or -1 and no time without any. */
  lemma CellIsBestSubmission(d: ContestData, q: Query, scales: map<int, real>, r: ScoreTable, user: int, p: int)
    requires RegularRows(d, q.contestId, scales) && Gives(d, q, r)
    requires (user, p) in r && p in d.problems && !d.problems[p].SumSubtasks?
    ensures
      match r[(user, p)].minTime
      case None =>
        && r[(user, p)].score == -1.0
        && forall x | x in d.submissions :: !(Graded(x, q.contestId, q.cutoff) && SentBy(x, user, p))
      case Some(t) => exists x ::
        BestSubmission(d, q.contestId, q.cutoff, user, p, x)
        && r[(user, p)].score == x.score * (x.scoreScale / 100.0) && t == x.createdAt
  {
    hide Window, Registered, ProblemsOf, RegularRows, BestSubmission, Scaled;
    var ms, st :| Window(SubmissionAttempts(d.submissions, q), ms)
      && Window(SubtaskAttempts(d.subtaskScores, q), st) && r == Join(d, q, ms, st);
    ShownSubmission(d, q, scales, ms, user, p);
  }

  function Worth(best: map<int, SubtaskScore>): map<int, real> {
    map s | s in best :: best[s].computedScore * (best[s].scoreScale / 100.0)
  }

  /** When they are: the best result of every subtask that has one, added up, and the latest of their times. */
  lemma CellSumsBestResults(d: ContestData, q: Query, scales: map<int, real>, r: ScoreTable, user: int, p: int)
    returns (best: map<int, SubtaskScore>)
    requires RegularRows(d, q.contestId, scales) && Gives(d, q, r)
    requires (user, p) in r && p in d.problems && d.problems[p].SumSubtasks?
    ensures forall s | s in best :: BestResult(d, q.contestId, q.cutoff, user, p, s, best[s])
    ensures forall s, x | x in d.subtaskScores && Assessed(x, q.contestId, q.cutoff) && ResultOf(x, user, p, s) ::
      s in best
    ensures best.Keys == {} ==> r[(user, p)] == ScoreRow(-1.0, None)
    ensures best.Keys != {} ==> r[(user, p)].score == Sum(best.Keys, Worth(best)) && r[(user, p)].minTime.Some?
    ensures best.Keys != {} ==> exists s :: s in best && best[s].createdAt == r[(user, p)].minTime.value
    ensures forall s | s in best :: best[s].createdAt <= r[(user, p)].minTime.value
  {
    hide Window, Registered, ProblemsOf, RegularRows, BestResult, Scaled, Sum, Latest, Assessed, ResultOf;
    var ms, st :| Window(SubmissionAttempts(d.submissions, q), ms)
      && Window(SubtaskAttempts(d.subtaskScores, q), st) && r == Join(d, q, ms, st);
    best := BestResults(d, q, scales, st, user, p);
    var keys := SubtasksOf(st, user, p);
    if keys != {} {
      SumSame(keys, BestScores(st, user, p), Worth(best));
      var late := LatestIsMax(keys, BestTimes(st, user, p));
    }
  }

  lemma BestResults(d: ContestData, q: Query, scales: map<int, real>, st: map<Key, Attempt>, user: int, p: int)
    returns (best: map<int, SubtaskScore>)
    requires RegularRows(d, q.contestId, scales) && Window(SubtaskAttempts(d.subtaskScores, q), st)
    ensures best.Keys == SubtasksOf(st, user, p)
    ensures forall s | s in best :: BestResult(d, q.contestId, q.cutoff, user, p, s, best[s])
    ensures forall s | s in best ::
      Worth(best)[s] == BestScores(st, user, p)[s] && best[s].createdAt == BestTimes(st, user, p)[s]
    ensures forall s, x | x in d.subtaskScores && Assessed(x, q.contestId, q.cutoff) && ResultOf(x, user, p, s) ::
      s in best
  {
    hide Window, RegularRows, BestResult, Scaled, Assessed, ResultOf;
    forall s
      ensures s in SubtasksOf(st, user, p) ==> exists x :: Shown(d, q, st, user, p, s, x)
      ensures s !in SubtasksOf(st, user, p) ==>
        forall x | x in d.subtaskScores :: !(Assessed(x, q.contestId, q.cutoff) && ResultOf(x, user, p, s))
    {
      InSubtasksOf(st, user, p, s);
      ShownResult(d, q, scales, st, user, p, s);
      if s in SubtasksOf(st, user, p) {
        var k := Key(user, p, Some(s));
        var x :| BestResult(d, q.contestId, q.cutoff, user, p, s, x)
          && Scaled(st[k]) == x.computedScore * (x.scoreScale / 100.0) && st[k].at == x.createdAt;
        assert Shown(d, q, st, user, p, s, x);
      }
    }
    best := map s | s in SubtasksOf(st, user, p) :: ShownRow(d, q, st, user, p, s);
  }

  /** The row that the window shows for a subtask. */
  ghost predicate Shown(d: ContestData, q: Query, st: map<Key, Attempt>, user: int, p: int, s: int, x: SubtaskScore) {
    var k := Key(user, p, Some(s));
    k in st && BestResult(d, q.contestId, q.cutoff, user, p, s, x)
    && Scaled(st[k]) == x.computedScore * (x.scoreScale / 100.0) && st[k].at == x.createdAt
  }

  ghost function ShownRow(d: ContestData, q: Query, st: map<Key, Attempt>, user: int, p: int, s: int): (x: SubtaskScore)
    requires exists x :: Shown(d, q, st, user, p, s, x)
    ensures Shown(d, q, st, user, p, s, x)
  {
    var x :| Shown(d, q, st, user, p, s, x);
    x
  }
}
