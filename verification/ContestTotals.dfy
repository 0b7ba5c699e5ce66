/** Exactly when moving the freeze on can lower a total. */
module ContestTotals {
  import opened Common
  import opened RealSums
  import opened SubmissionStatus
  import opened SubmissionTable
  import opened SubmissionTables
  import opened ContestWindows
  import opened ContestScoring
  import opened ContestFreeze
  import opened ContestBoard
  import opened ContestResults
  import opened ContestRecords

  /** Everything sent to the contest up to the present. */
  ghost function SentUntil(d: ContestData, c: int, now: int): History {
    HistoryOf(d, Whole(c, now), map[])
  }

  /** The problems that can add to a total. */
  function Cells(d: ContestData, c: int, user: int, ps: set<int>): set<int> {
    set p | p in ps && user in Registered(d, c) && p in ProblemsOf(d, c) && p in d.problems
  }

  /** Only positive scores are added up. */
  function Gain(score: real): real {
    if score > 0.0 then score else 0.0
  }

  function Gains(w: Windows, problems: map<int, Strategy>, user: int, cells: set<int>): map<int, real>
    requires cells <= problems.Keys
  {
    map p | p in cells :: Gain(MaxScore(problems[p], w.ms, w.st, user, p).score)
  }

  ghost function ExtremeGains(h: History, side: Side, t: int, problems: map<int, Strategy>, user: int,
      cells: set<int>): map<int, real>
    requires cells <= problems.Keys
  {
    map p | p in cells :: Gain(ExtremeScore(h, side, t, problems[p], user, p))
  }

  /** The most, or the least, that the rows up to a time allow a total to be. */
  ghost function ExtremeTotal(d: ContestData, c: int, now: int, side: Side, t: int, user: int, ps: set<int>): real {
    var cells := Cells(d, c, user, ps);
    Sum(cells, ExtremeGains(SentUntil(d, c, now), side, t, d.problems, user, cells))
  }

  // ---- Every total lies between the extremes, and some result reaches them ----

  lemma TotalOfGains(d: ContestData, c: int, t: int, w: Windows, user: int, ps: set<int>)
    ensures
      var cells := Cells(d, c, user, ps);
      Total(Join(d, Whole(c, t), w.ms, w.st), user, ps) == Sum(cells, Gains(w, d.problems, user, cells))
  {
    hide MaxScore, Registered, ProblemsOf, Sum, Join;
    var r := Join(d, Whole(c, t), w.ms, w.st);
    var cells := Cells(d, c, user, ps);
    forall p ensures (user, p) in r && p in ps <==> p in cells {
      JoinAt(d, c, t, w, user, p);
    }
    forall p | p in cells ensures r[(user, p)] == MaxScore(d.problems[p], w.ms, w.st, user, p) {
      JoinAt(d, c, t, w, user, p);
    }
    SumSkipsZeros(Positive(r, user, ps), PositiveScores(r, user, ps), cells, Gains(w, d.problems, user, cells));
  }

  lemma TotalIsWithin(d: ContestData, c: int, now: int, side: Side, t: int, rt: ScoreTable, user: int, ps: set<int>)
    requires t <= now && Gives(d, Whole(c, t), rt)
    ensures Within(side, Total(rt, user, ps), ExtremeTotal(d, c, now, side, t, user, ps))
  {
    hide Gives, HistoryOf, Shows, Join, MaxScore, ExtremeScore, Sum, Total;
    var h := SentUntil(d, c, now);
    var w := WindowsOf(d, c, t, now, rt, map[]);
    TotalOfGains(d, c, t, w, user, ps);
    var cells := Cells(d, c, user, ps);
    forall p | p in cells ensures
      Within(side, Gains(w, d.problems, user, cells)[p], ExtremeGains(h, side, t, d.problems, user, cells)[p])
    {
      ScoreIsWithin(h, side, t, w, d.problems[p], user, p);
    }
    SumIsWithin(side, cells, Gains(w, d.problems, user, cells), ExtremeGains(h, side, t, d.problems, user, cells));
  }

  lemma ExtremeTable(d: ContestData, c: int, now: int, side: Side, t: int, user: int, ps: set<int>)
    returns (rt: ScoreTable)
    requires t <= now
    ensures Gives(d, Whole(c, t), rt) && Total(rt, user, ps) == ExtremeTotal(d, c, now, side, t, user, ps)
  {
    hide Window, Join, MaxScore, ExtremeScore, Sum, Total, SubmissionAttempts, SubtaskAttempts;
    var h := SentUntil(d, c, now);
    var w := ExtremeResult(h, side, t);
    CutIsUpTo(d, Whole(c, now), t);
    rt := Join(d, Whole(c, t), w.ms, w.st);
    TotalOfGains(d, c, t, w, user, ps);
    var cells := Cells(d, c, user, ps);
    SumSame(cells, Gains(w, d.problems, user, cells), ExtremeGains(h, side, t, d.problems, user, cells));
  }

  // ---- Only the moments at which something was sent matter ----

  /** Whatever the contestant sent, for whichever problem. */
  ghost function RowsOf(d: ContestData, c: int, now: int, user: int): set<Attempt> {
    set a | a in SentUntil(d, c, now).submissions + SentUntil(d, c, now).subtasks && a.key.userId == user
  }

  lemma SameExtremeTotal(d: ContestData, c: int, now: int, side: Side, x: int, y: int, user: int, ps: set<int>)
    requires x <= y && forall a | a in RowsOf(d, c, now, user) :: a.at <= x || y < a.at
    ensures ExtremeTotal(d, c, now, side, x, user, ps) == ExtremeTotal(d, c, now, side, y, user, ps)
  {
    hide ExtremeScore, HistoryOf, Sum;
    var h := SentUntil(d, c, now);
    var cells := Cells(d, c, user, ps);
    assert forall a | a in h.submissions || a in h.subtasks :: a.key.userId == user ==> a in RowsOf(d, c, now, user);
    forall p | p in cells
      ensures ExtremeScore(h, side, x, d.problems[p], user, p) == ExtremeScore(h, side, y, d.problems[p], user, p)
    {
      SameExtremeScore(h, side, x, y, d.problems[p], user, p);
    }
    SumSame(cells, ExtremeGains(h, side, x, d.problems, user, cells),
            ExtremeGains(h, side, y, d.problems, user, cells));
  }

  /** Before anything is sent there is only one total. */
  lemma NoTotal(d: ContestData, c: int, now: int, t: int, user: int, ps: set<int>)
    requires forall a | a in RowsOf(d, c, now, user) :: t < a.at
    ensures ExtremeTotal(d, c, now, Most, t, user, ps) == ExtremeTotal(d, c, now, Least, t, user, ps)
  {
    hide ExtremeScore, HistoryOf, Sum;
    var h := SentUntil(d, c, now);
    var cells := Cells(d, c, user, ps);
    assert forall a | a in h.submissions || a in h.subtasks :: a.key.userId == user ==> a in RowsOf(d, c, now, user);
    forall p | p in cells ensures
      ExtremeScore(h, Most, t, d.problems[p], user, p) == ExtremeScore(h, Least, t, d.problems[p], user, p)
    {
      NothingSent(h, Most, t, d.problems[p], user, p);
      NothingSent(h, Least, t, d.problems[p], user, p);
    }
    SumSame(cells, ExtremeGains(h, Most, t, d.problems, user, cells),
            ExtremeGains(h, Least, t, d.problems, user, cells));
  }

  lemma LeastTotalIsLess(d: ContestData, c: int, now: int, t: int, user: int, ps: set<int>)
    ensures ExtremeTotal(d, c, now, Least, t, user, ps) <= ExtremeTotal(d, c, now, Most, t, user, ps)
  {
    hide ExtremeScore, HistoryOf, Sum;
    var h := SentUntil(d, c, now);
    var cells := Cells(d, c, user, ps);
    forall p | p in cells ensures
      ExtremeScore(h, Least, t, d.problems[p], user, p) <= ExtremeScore(h, Most, t, d.problems[p], user, p)
    {
      LeastIsLess(h, t, d.problems[p], user, p);
    }
    SumMonotone(cells, ExtremeGains(h, Least, t, d.problems, user, cells),
                ExtremeGains(h, Most, t, d.problems, user, cells));
  }

  // ---- The exact condition ----

  /** Whatever two freezes show up to the present, the later one shows no smaller total. */
  ghost predicate TotalsNeverFall(d: ContestData, c: int, now: int, user: int, ps: set<int>) {
    forall t, u, rt, ru | t <= u <= now && Gives(d, Whole(c, t), rt) && Gives(d, Whole(c, u), ru) ::
      Total(rt, user, ps) <= Total(ru, user, ps)
  }

  /** At every row of the contestant the most the total may have been is no more than the least it may be then. */
  ghost predicate RowsGrow(d: ContestData, c: int, now: int, user: int, ps: set<int>) {
    forall b, t | b in RowsOf(d, c, now, user) && b.at - 1 <= t <= b.at ::
      ExtremeTotal(d, c, now, Most, t, user, ps) <= ExtremeTotal(d, c, now, Least, b.at, user, ps)
  }

  lemma RowsAreSent(d: ContestData, c: int, now: int, user: int, b: Attempt)
    requires b in RowsOf(d, c, now, user)
    ensures b.at <= now
  {
  }

  lemma TotalsGrowWithRows(d: ContestData, c: int, now: int, t: int, u: int, user: int, ps: set<int>)
    requires RowsGrow(d, c, now, user, ps) && t <= u
    ensures ExtremeTotal(d, c, now, Most, t, user, ps) <= ExtremeTotal(d, c, now, Least, u, user, ps)
  {
    hide ExtremeTotal, RowsOf;
    var rows := RowsOf(d, c, now, user);
    var moments := set b | b in rows :: b.at;
    var most := x => ExtremeTotal(d, c, now, Most, x, user, ps);
    var least := x => ExtremeTotal(d, c, now, Least, x, user, ps);
    assert forall b | b in rows :: b.at in moments;
    forall x, y | x <= y && Quiet(moments, x, y) ensures most(x) == most(y) && least(x) == least(y) {
      SameExtremeTotal(d, c, now, Most, x, y, user, ps);
      SameExtremeTotal(d, c, now, Least, x, y, user, ps);
    }
    forall x ensures least(x) <= most(x) {
      LeastTotalIsLess(d, c, now, x, user, ps);
    }
    forall x | BeforeAny(moments, x) ensures most(x) == least(x) {
      NoTotal(d, c, now, x, user, ps);
    }
    GrowsFromMomentToMoment(moments, most, least, t, u);
  }

  /**
    With no assumption on scales or signs, a total never falls as the freeze moves on if and only if
    it cannot at any moment at which the contestant sent something.
  */
  lemma TotalsGrowIff(d: ContestData, c: int, now: int, user: int, ps: set<int>)
    ensures TotalsNeverFall(d, c, now, user, ps) <==> RowsGrow(d, c, now, user, ps)
  {
    hide Gives, Total, ExtremeTotal, RowsOf;
    if TotalsNeverFall(d, c, now, user, ps) {
      forall b, t | b in RowsOf(d, c, now, user) && b.at - 1 <= t <= b.at
        ensures ExtremeTotal(d, c, now, Most, t, user, ps) <= ExtremeTotal(d, c, now, Least, b.at, user, ps)
      {
        RowsAreSent(d, c, now, user, b);
        var rt := ExtremeTable(d, c, now, Most, t, user, ps);
        var ru := ExtremeTable(d, c, now, Least, b.at, user, ps);
      }
    }
    if RowsGrow(d, c, now, user, ps) {
      forall t, u, rt, ru | t <= u <= now && Gives(d, Whole(c, t), rt) && Gives(d, Whole(c, u), ru)
        ensures Total(rt, user, ps) <= Total(ru, user, ps)
      {
        TotalsGrowWithRows(d, c, now, t, u, user, ps);
        TotalIsWithin(d, c, now, Most, t, rt, user, ps);
        TotalIsWithin(d, c, now, Least, u, ru, user, ps);
      }
    }
  }

  // ---- A total that falls ----

  function Graded(id: int, at: int, score: real, scale: real): Submission {
    Submission(id, at, 3, 7, Some(5), "", Finished, Classic, None, None, None, None, score, 0, scale, 0.0, 0)
  }

  const RESCALED :=
    ContestData([Graded(1, 10, 50.0, 100.0), Graded(2, 20, 60.0, 50.0)], [], {(5, 7)}, map[7 := MaxSubmission],
                {(5, 3)}, {})

  lemma ShownSubmissions(h: History, t: int, w: Windows)
    requires Shows(h, t, w)
    ensures Window(UpTo(h.submissions, t), w.ms)
  {
  }

  lemma RescaledRows()
    ensures HistoryOf(RESCALED, Whole(5, 20), map[]).submissions == {FULL, HALVED}
    ensures Cells(RESCALED, 5, 3, {7}) == {7}
  {
    var rows := RESCALED.submissions;
    assert rows[0] == Graded(1, 10, 50.0, 100.0) && rows[1] == Graded(2, 20, 60.0, 50.0);
    assert SubmissionAttempt(rows[0]) == FULL && SubmissionAttempt(rows[1]) == HALVED;
    assert rows[0] in rows && rows[1] in rows;
    assert SubmissionAttempts(rows, Whole(5, 20)) == {FULL, HALVED};
    assert (5, 3) in RESCALED.registrations && (5, 7) in RESCALED.contestProblems;
    assert 3 in Registered(RESCALED, 5) && 7 in ProblemsOf(RESCALED, 5);
  }

  lemma OneGain(gains: map<int, real>)
    requires 7 in gains
    ensures Sum({7}, gains) == gains[7]
  {
    SumWithout({7}, gains, 7);
    assert {7} - {7} == {};
  }

  lemma RescaledTotals(r10: ScoreTable, r20: ScoreTable)
    requires Gives(RESCALED, Whole(5, 10), r10) && Gives(RESCALED, Whole(5, 20), r20)
    ensures Total(r10, 3, {7}) == 50.0 && Total(r20, 3, {7}) == 30.0
  {
    hide Gives, HistoryOf, Join, Sum, Total, Cells, Shows, Window;
    var h := HistoryOf(RESCALED, Whole(5, 20), map[]);
    var v := WindowsOf(RESCALED, 5, 10, 20, r10, map[]);
    var w := WindowsOf(RESCALED, 5, 20, 20, r20, map[]);
    RescaledRows();
    ShownSubmissions(h, 10, v);
    ShownSubmissions(h, 20, w);
    ScoreCanFall(v.ms, w.ms);
    TotalOfGains(RESCALED, 5, 10, v, 3, {7});
    TotalOfGains(RESCALED, 5, 20, w, 3, {7});
    OneGain(Gains(v, RESCALED.problems, 3, {7}));
    OneGain(Gains(w, RESCALED.problems, 3, {7}));
  }

  /** The better of two submissions was sent after the scale was halved: the total falls from 50 to 30. */
  lemma TotalCanFall() returns (r10: ScoreTable, r20: ScoreTable)
    ensures Gives(RESCALED, Whole(5, 10), r10) && Total(r10, 3, {7}) == 50.0
    ensures Gives(RESCALED, Whole(5, 20), r20) && Total(r20, 3, {7}) == 30.0
    ensures !TotalsNeverFall(RESCALED, 5, 20, 3, {7})
  {
    hide Gives, Total;
    r10 := TableExists(RESCALED, 5, 10);
    r20 := TableExists(RESCALED, 5, 20);
    RescaledTotals(r10, r20);
  }
}
