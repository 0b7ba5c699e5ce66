/** How scores move with the freeze time, one contestant and one problem at a time. */
module ContestFreeze {
  import opened Common
  import opened RealSums
  import opened SubmissionTables
  import opened ContestWindows
  import opened ContestScoring

  /** No negative scores, and one scale for each problem. */
  ghost predicate Regular(all: set<Attempt>, scales: map<int, real>) {
    forall a | a in all ::
      a.key.problemId in scales && a.scale == scales[a.key.problemId] && a.scale >= 0.0 && a.score >= 0.0
  }

  /** Whenever someone was scored on one subtask of a problem, they were scored on all of them. */
  ghost predicate AllSubtasks(all: set<Attempt>) {
    forall a, b | a in all && b in all && a.key.userId == b.key.userId && a.key.problemId == b.key.problemId ::
      ScoredAt(all, b.key, a.at)
  }

  ghost predicate ScoredAt(all: set<Attempt>, k: Key, t: int) {
    exists x :: x in all && x.key == k && x.at == t
  }

  /** The two windows of one query. */
  datatype Windows = Windows(ms: map<Key, Attempt>, st: map<Key, Attempt>)

  /** Everything that can be scored in a contest. */
  datatype History = History(submissions: set<Attempt>, subtasks: set<Attempt>, scales: map<int, real>)

  ghost predicate Fair(h: History) {
    Regular(h.submissions, h.scales) && Regular(h.subtasks, h.scales)
  }

  ghost predicate Shows(h: History, t: int, w: Windows) {
    Window(UpTo(h.submissions, t), w.ms) && Window(UpTo(h.subtasks, t), w.st)
  }

  lemma ScaledGrows(a: Attempt, b: Attempt)
    requires a.scale == b.scale >= 0.0 && 0.0 <= a.score <= b.score
    ensures 0.0 <= Scaled(a) <= Scaled(b)
    ensures a.score < b.score && 0.0 < Scaled(b) ==> Scaled(a) < Scaled(b)
  {
    var c := a.scale / 100.0;
    assert a.score * c <= b.score * c;
    if a.score < b.score && c > 0.0 {
      assert a.score * c < b.score * c;
    }
  }

  lemma OfPartition(all: set<Attempt>, scales: map<int, real>, t: int, m: map<Key, Attempt>, k: Key)
    requires Regular(all, scales) && Window(UpTo(all, t), m) && k in m
    ensures m[k] in all && m[k].key == k && m[k].at <= t
    ensures k.problemId in scales && m[k].scale == scales[k.problemId] >= 0.0 && m[k].score >= 0.0
  {
    assert IsFirst(UpTo(all, t), k, m[k]);
  }

  lemma PartitionGrows(all: set<Attempt>, scales: map<int, real>, t: int, u: int, m: map<Key, Attempt>,
      n: map<Key, Attempt>, k: Key)
    requires Regular(all, scales) && t <= u && Window(UpTo(all, t), m) && Window(UpTo(all, u), n) && k in m
    ensures k in n && 0.0 <= Scaled(m[k]) <= Scaled(n[k])
  {
    hide Window, Regular, Scaled;
    BestGrows(all, t, u, m, n, k);
    OfPartition(all, scales, t, m, k);
    OfPartition(all, scales, u, n, k);
    ScaledGrows(m[k], n[k]);
  }

  lemma PartitionAppears(all: set<Attempt>, scales: map<int, real>, t: int, u: int, m: map<Key, Attempt>,
      n: map<Key, Attempt>, k: Key)
    requires Regular(all, scales) && t <= u && Window(UpTo(all, t), m) && Window(UpTo(all, u), n) && k in n
    ensures 0.0 <= Scaled(n[k])
    ensures n[k].at <= t ==> k in m && Scaled(m[k]) == Scaled(n[k]) && m[k].at == n[k].at
    ensures n[k].at > t && k in m && Scaled(n[k]) > 0.0 ==> Scaled(m[k]) < Scaled(n[k])
  {
    hide Window, Regular;
    BestAppears(all, t, u, m, n, k);
    OfPartition(all, scales, u, n, k);
    ScaledGrows(n[k], n[k]);
    if k in m {
      OfPartition(all, scales, t, m, k);
      if m[k].score < n[k].score {
        ScaledGrows(m[k], n[k]);
      }
    }
  }

  // ---- Sums over subtasks ----

  lemma InSubtasksOf(m: map<Key, Attempt>, u: int, p: int, s: int)
    ensures s in SubtasksOf(m, u, p) <==> Key(u, p, Some(s)) in m
  {
    if Key(u, p, Some(s)) in m {
      var k := Key(u, p, Some(s));
      assert k in m && k.userId == u && k.problemId == p && k.subtaskId.Some? && k.subtaskId.value == s;
    }
  }

  lemma SubtasksGrow(all: set<Attempt>, scales: map<int, real>, t: int, u: int, m: map<Key, Attempt>,
      n: map<Key, Attempt>, user: int, p: int)
    requires Regular(all, scales) && t <= u && Window(UpTo(all, t), m) && Window(UpTo(all, u), n)
    ensures SubtasksOf(m, user, p) <= SubtasksOf(n, user, p)
    ensures forall s | s in SubtasksOf(m, user, p) :: BestScores(m, user, p)[s] <= BestScores(n, user, p)[s]
    ensures forall s | s in SubtasksOf(n, user, p) :: 0.0 <= BestScores(n, user, p)[s]
    ensures SubtaskSum(m, user, p) <= SubtaskSum(n, user, p)
  {
    hide Window, Regular, Scaled, Sum;
    forall s | s in SubtasksOf(m, user, p)
      ensures s in SubtasksOf(n, user, p) && BestScores(m, user, p)[s] <= BestScores(n, user, p)[s]
    {
      InSubtasksOf(m, user, p, s);
      PartitionGrows(all, scales, t, u, m, n, Key(user, p, Some(s)));
      InSubtasksOf(n, user, p, s);
    }
    forall s | s in SubtasksOf(n, user, p) ensures 0.0 <= BestScores(n, user, p)[s] {
      InSubtasksOf(n, user, p, s);
      PartitionAppears(all, scales, t, u, m, n, Key(user, p, Some(s)));
    }
    SumGrows(SubtasksOf(m, user, p), BestScores(m, user, p), SubtasksOf(n, user, p), BestScores(n, user, p));
  }

  /** Once the best result on every subtask was there, so was the sum. */
  lemma SumIsTimely(all: set<Attempt>, scales: map<int, real>, t: int, u: int, m: map<Key, Attempt>,
      n: map<Key, Attempt>, user: int, p: int)
    requires Regular(all, scales) && t <= u && Window(UpTo(all, t), m) && Window(UpTo(all, u), n)
    requires SubtasksOf(n, user, p) != {} && SubtaskLatest(n, user, p) <= t
    ensures SubtasksOf(m, user, p) == SubtasksOf(n, user, p)
    ensures SubtaskSum(m, user, p) == SubtaskSum(n, user, p)
  {
    hide Window, Regular, Scaled, Sum, Latest;
    var ids := SubtasksOf(n, user, p);
    var _ := LatestIsMax(ids, BestTimes(n, user, p));
    SubtasksGrow(all, scales, t, u, m, n, user, p);
    forall s | s in ids ensures s in SubtasksOf(m, user, p) && BestScores(m, user, p)[s] == BestScores(n, user, p)[s] {
      InSubtasksOf(n, user, p, s);
      PartitionAppears(all, scales, t, u, m, n, Key(user, p, Some(s)));
      InSubtasksOf(m, user, p, s);
    }
    assert SubtasksOf(m, user, p) == ids;
    SumSame(ids, BestScores(m, user, p), BestScores(n, user, p));
  }

  /** A subtask that never scored was there from the first attempt on, so a positive one is as late. */
  lemma LatestPositive(all: set<Attempt>, scales: map<int, real>, u: int, n: map<Key, Attempt>, user: int,
      p: int) returns (s: int)
    requires Regular(all, scales) && AllSubtasks(all) && Window(UpTo(all, u), n)
    requires SubtasksOf(n, user, p) != {} && SubtaskSum(n, user, p) > 0.0
    ensures s in SubtasksOf(n, user, p) && BestScores(n, user, p)[s] > 0.0
    ensures BestTimes(n, user, p)[s] >= SubtaskLatest(n, user, p)
  {
    hide Window, Sum, Latest, Regular, AllSubtasks;
    var ids := SubtasksOf(n, user, p);
    var late := LatestIsMax(ids, BestTimes(n, user, p));
    var good := PositiveTerm(ids, BestScores(n, user, p));
    InSubtasksOf(n, user, p, late);
    InSubtasksOf(n, user, p, good);
    if BestScores(n, user, p)[late] > 0.0 {
      s := late;
    } else {
      s := good;
      ZeroIsEarly(all, scales, u, n, Key(user, p, Some(late)), Key(user, p, Some(good)));
    }
  }

  lemma AlsoScored(all: set<Attempt>, a: Attempt, b: Attempt) returns (x: Attempt)
    requires AllSubtasks(all) && a in all && b in all
    requires a.key.userId == b.key.userId && a.key.problemId == b.key.problemId
    ensures x in all && x.key == b.key && x.at == a.at
  {
    assert ScoredAt(all, b.key, a.at);
    x :| x in all && x.key == b.key && x.at == a.at;
  }

  lemma NoLaterThan(all: set<Attempt>, u: int, n: map<Key, Attempt>, x: Attempt)
    requires Window(UpTo(all, u), n) && x in all && x.at <= u
    ensures x.key in n && !Before(x, n[x.key])
  {
    assert x in UpTo(all, u) && IsFirst(UpTo(all, u), x.key, n[x.key]);
  }

  lemma ZeroIsEarly(all: set<Attempt>, scales: map<int, real>, u: int, n: map<Key, Attempt>, zero: Key, good: Key)
    requires Regular(all, scales) && AllSubtasks(all) && Window(UpTo(all, u), n) && zero in n && good in n
    requires zero.userId == good.userId && zero.problemId == good.problemId
    requires Scaled(n[zero]) <= 0.0 < Scaled(n[good])
    ensures n[zero].at <= n[good].at
  {
    hide Regular, AllSubtasks, Window, Scaled;
    OfPartition(all, scales, u, n, zero);
    OfPartition(all, scales, u, n, good);
    var x := AlsoScored(all, n[good], n[zero]);
    NoLaterThan(all, u, n, x);
    AttemptIsRegular(all, scales, x);
    ZeroScore(n[zero], n[good]);
  }

  lemma AttemptIsRegular(all: set<Attempt>, scales: map<int, real>, x: Attempt)
    requires Regular(all, scales) && x in all
    ensures x.score >= 0.0
  {
  }

  lemma ZeroScore(a: Attempt, b: Attempt)
    requires a.scale == b.scale >= 0.0 && Scaled(a) <= 0.0 < Scaled(b)
    ensures a.score <= 0.0
  {
    ScaleOfPositive(b);
    ScaledPositive(a);
  }

  lemma ScaleOfPositive(b: Attempt)
    requires b.scale >= 0.0 && Scaled(b) > 0.0
    ensures b.scale > 0.0
  {
    assert b.scale == 0.0 ==> Scaled(b) == b.score * 0.0;
  }

  lemma ScaledPositive(a: Attempt)
    requires a.scale > 0.0
    ensures a.score > 0.0 ==> Scaled(a) > 0.0
  {
    var c := a.scale / 100.0;
    assert a.score > 0.0 ==> a.score * c > 0.0;
  }

  /** The frozen sum is the whole sum exactly when every subtask that adds to it already had its best row. */
  lemma SumIsWholeIff(all: set<Attempt>, scales: map<int, real>, t: int, u: int, m: map<Key, Attempt>,
      n: map<Key, Attempt>, user: int, p: int)
    requires Regular(all, scales) && t <= u && Window(UpTo(all, t), m) && Window(UpTo(all, u), n)
    ensures SubtaskSum(m, user, p) == SubtaskSum(n, user, p) <==>
      forall s | s in SubtasksOf(n, user, p) && BestScores(n, user, p)[s] > 0.0 :: BestTimes(n, user, p)[s] <= t
  {
    hide Window, Regular, Scaled, Sum;
    SubtasksGrow(all, scales, t, u, m, n, user, p);
    SubtasksGrow(all, scales, t, t, m, m, user, p);
    forall s | s in SubtasksOf(n, user, p)
      ensures BestTimes(n, user, p)[s] <= t ==>
        s in SubtasksOf(m, user, p) && BestScores(m, user, p)[s] == BestScores(n, user, p)[s]
      ensures BestTimes(n, user, p)[s] > t && BestScores(n, user, p)[s] > 0.0 ==>
        s !in SubtasksOf(m, user, p) || BestScores(m, user, p)[s] < BestScores(n, user, p)[s]
    {
      InSubtasksOf(n, user, p, s);
      InSubtasksOf(m, user, p, s);
      PartitionAppears(all, scales, t, u, m, n, Key(user, p, Some(s)));
    }
    SumGrows(SubtasksOf(m, user, p), BestScores(m, user, p), SubtasksOf(n, user, p), BestScores(n, user, p));
    if forall s | s in SubtasksOf(n, user, p) && BestScores(n, user, p)[s] > 0.0 :: BestTimes(n, user, p)[s] <= t {
      SumSkipsZeros(SubtasksOf(m, user, p), BestScores(m, user, p), SubtasksOf(n, user, p), BestScores(n, user, p));
    }
  }

  // ---- One contestant, one problem ----

  /** The attempts of one partition up to a time. */
  ghost predicate Counted(all: set<Attempt>, k: Key, t: int, a: Attempt) {
    a in all && a.key == k && a.at <= t
  }

  /** Nothing that counts is worth more, and this was the first to be ranked so high. */
  ghost predicate Best(all: set<Attempt>, k: Key, t: int, a: Attempt) {
    Counted(all, k, t, a) && forall x | Counted(all, k, t, x) ::
      Scaled(x) <= Scaled(a) && (x.score >= a.score ==> a.at <= x.at)
  }

  lemma FirstIsBest(all: set<Attempt>, scales: map<int, real>, t: int, m: map<Key, Attempt>, k: Key)
    requires Regular(all, scales) && Window(UpTo(all, t), m)
    ensures k in m ==> Best(all, k, t, m[k])
    ensures k !in m ==> forall x :: !Counted(all, k, t, x)
  {
    hide Scaled;
    forall x | Counted(all, k, t, x)
      ensures k in m && Scaled(x) <= Scaled(m[k]) && (x.score >= m[k].score ==> m[k].at <= x.at)
    {
      assert x in UpTo(all, t) && IsFirst(UpTo(all, t), k, m[k]);
      ScaledGrows(x, m[k]);
    }
    if k in m {
      OfPartition(all, scales, t, m, k);
    }
  }

  /**
    Unless subtasks are summed, a score is the highest scaled score up to the freeze, and mintime
    when it was first sent.
  */
  lemma ScoreIsBestSubmission(h: History, t: int, w: Windows, strategy: Strategy, user: int, p: int)
    requires Fair(h) && Shows(h, t, w) && !strategy.SumSubtasks?
    ensures
      var row := MaxScore(strategy, w.ms, w.st, user, p);
      if row.minTime.None? then row.score == -1.0 && forall x :: !Counted(h.submissions, Key(user, p, None), t, x)
      else exists a ::
        Best(h.submissions, Key(user, p, None), t, a) && Scaled(a) == row.score && a.at == row.minTime.value
  {
    hide Scaled, Window, Regular, Best, Counted;
    FirstIsBest(h.submissions, h.scales, t, w.ms, Key(user, p, None));
  }

  /** Summed or not, each subtask enters with its best result, and only if anything counts for it. */
  lemma SubtaskIsBest(h: History, t: int, w: Windows, user: int, p: int, s: int)
    requires Fair(h) && Shows(h, t, w)
    ensures s !in SubtasksOf(w.st, user, p) ==> forall x :: !Counted(h.subtasks, Key(user, p, Some(s)), t, x)
    ensures s in SubtasksOf(w.st, user, p) ==> exists a ::
      Best(h.subtasks, Key(user, p, Some(s)), t, a)
      && BestScores(w.st, user, p)[s] == Scaled(a) && BestTimes(w.st, user, p)[s] == a.at
  {
    hide Scaled, Window, Regular, Best, Counted;
    InSubtasksOf(w.st, user, p, s);
    FirstIsBest(h.subtasks, h.scales, t, w.st, Key(user, p, Some(s)));
  }

  /** A score never falls as the freeze moves on, and it is -1 or not negative. */
  lemma ScoreNeverFalls(h: History, t: int, u: int, v: Windows, w: Windows, strategy: Strategy, user: int, p: int)
    requires Fair(h) && t <= u && Shows(h, t, v) && Shows(h, u, w)
    ensures MaxScore(strategy, v.ms, v.st, user, p).score <= MaxScore(strategy, w.ms, w.st, user, p).score
    ensures
      var score := MaxScore(strategy, w.ms, w.st, user, p).score;
      score >= 0.0 || score == -1.0
  {
    hide Window, Regular, SubtaskSum, SubtaskLatest, SubtasksOf, Scaled;
    if strategy.SumSubtasks? {
      SubtasksGrow(h.subtasks, h.scales, t, u, v.st, w.st, user, p);
      SubtaskSumNotNegative(h.subtasks, h.scales, u, w.st, user, p);
    } else {
      var k := Key(user, p, None);
      if k in v.ms {
        PartitionGrows(h.submissions, h.scales, t, u, v.ms, w.ms, k);
      }
      if k in w.ms {
        PartitionGrows(h.submissions, h.scales, u, u, w.ms, w.ms, k);
      }
    }
  }

  lemma SubtaskSumNotNegative(all: set<Attempt>, scales: map<int, real>, t: int, m: map<Key, Attempt>, user: int,
      p: int)
    requires Regular(all, scales) && Window(UpTo(all, t), m)
    ensures 0.0 <= SubtaskSum(m, user, p)
  {
    hide Regular, Window, Scaled;
    SubtasksGrow(all, scales, t, t, m, m, user, p);
    assert Sum({}, BestScores(m, user, p)) == 0.0;
    SumGrows({}, BestScores(m, user, p), SubtasksOf(m, user, p), BestScores(m, user, p));
  }

  /** From its mintime on, a positive score is what it will be. */
  lemma ScoreIsTimely(h: History, t: int, u: int, v: Windows, w: Windows, strategy: Strategy, user: int, p: int)
    requires Fair(h) && t <= u && Shows(h, t, v) && Shows(h, u, w)
    ensures
      var row := MaxScore(strategy, w.ms, w.st, user, p);
      row.score > 0.0 ==>
        row.minTime.Some? && (row.minTime.value <= t ==> MaxScore(strategy, v.ms, v.st, user, p).score == row.score)
  {
    hide Window, Regular, SubtaskSum, SubtaskLatest, SubtasksOf, Scaled;
    if strategy.SumSubtasks? {
      if SubtasksOf(w.st, user, p) != {} && SubtaskLatest(w.st, user, p) <= t {
        SumIsTimely(h.subtasks, h.scales, t, u, v.st, w.st, user, p);
      }
    } else {
      var k := Key(user, p, None);
      if k in w.ms {
        PartitionAppears(h.submissions, h.scales, t, u, v.ms, w.ms, k);
      }
    }
  }

  /** A row that a positive score rests on: the best of its partition, and worth something. */
  ghost predicate RestsOn(h: History, strategy: Strategy, u: int, user: int, p: int, a: Attempt) {
    && a.key.userId == user && a.key.problemId == p && Scaled(a) > 0.0
    && (if strategy.SumSubtasks? then a.key.subtaskId.Some? && Best(h.subtasks, a.key, u, a)
        else a.key.subtaskId.None? && Best(h.submissions, a.key, u, a))
  }

  /** The best positive row of a partition is the one its window shows. */
  lemma BestIsShown(all: set<Attempt>, scales: map<int, real>, u: int, n: map<Key, Attempt>, k: Key, a: Attempt)
    requires Regular(all, scales) && Window(UpTo(all, u), n) && Best(all, k, u, a) && Scaled(a) > 0.0
    ensures k in n && n[k] == a
  {
    hide Scaled, Regular, Window;
    FirstIsBest(all, scales, u, n, k);
    OfPartition(all, scales, u, n, k);
    PartitionRegular(all, scales, k, a);
    if n[k].score < a.score {
      ScaledGrows(n[k], a);
    } else if a.score < n[k].score {
      ScaledGrows(a, n[k]);
    }
  }

  lemma PartitionRegular(all: set<Attempt>, scales: map<int, real>, k: Key, a: Attempt)
    requires Regular(all, scales) && a in all && a.key == k
    ensures k.problemId in scales && a.scale == scales[k.problemId] >= 0.0 && a.score >= 0.0
  {
  }

  /** A subtask that adds to the sum has a row that the sum rests on, and the other way round. */
  lemma AddsMeansRestsOn(h: History, u: int, w: Windows, user: int, p: int, s: int)
    requires Fair(h) && Shows(h, u, w) && s in SubtasksOf(w.st, user, p) && BestScores(w.st, user, p)[s] > 0.0
    ensures Key(user, p, Some(s)) in w.st
    ensures RestsOn(h, SumSubtasks, u, user, p, w.st[Key(user, p, Some(s))])
    ensures w.st[Key(user, p, Some(s))].at == BestTimes(w.st, user, p)[s]
  {
    hide Scaled, Regular, Window, Best;
    InSubtasksOf(w.st, user, p, s);
    FirstIsBest(h.subtasks, h.scales, u, w.st, Key(user, p, Some(s)));
    OfPartition(h.subtasks, h.scales, u, w.st, Key(user, p, Some(s)));
  }

  lemma RestsOnMeansAdds(h: History, u: int, w: Windows, user: int, p: int, a: Attempt)
    requires Fair(h) && Shows(h, u, w) && RestsOn(h, SumSubtasks, u, user, p, a)
    ensures
      var s := a.key.subtaskId.value;
      s in SubtasksOf(w.st, user, p) && BestScores(w.st, user, p)[s] > 0.0 && BestTimes(w.st, user, p)[s] == a.at
  {
    hide Scaled, Regular, Window, Best;
    BestIsShown(h.subtasks, h.scales, u, w.st, a.key, a);
    assert a.key == Key(user, p, Some(a.key.subtaskId.value));
    InSubtasksOf(w.st, user, p, a.key.subtaskId.value);
  }

  lemma SumRestsOn(h: History, u: int, w: Windows, user: int, p: int, t: int)
    requires Fair(h) && Shows(h, u, w)
    ensures (forall a | RestsOn(h, SumSubtasks, u, user, p, a) :: a.at <= t) <==>
      forall s | s in SubtasksOf(w.st, user, p) && BestScores(w.st, user, p)[s] > 0.0 ::
        BestTimes(w.st, user, p)[s] <= t
  {
    hide Fair, Shows, RestsOn, Scaled;
    if forall a | RestsOn(h, SumSubtasks, u, user, p, a) :: a.at <= t {
      forall s | s in SubtasksOf(w.st, user, p) && BestScores(w.st, user, p)[s] > 0.0
        ensures BestTimes(w.st, user, p)[s] <= t
      {
        AddsMeansRestsOn(h, u, w, user, p, s);
      }
    }
    if forall s | s in SubtasksOf(w.st, user, p) && BestScores(w.st, user, p)[s] > 0.0 ::
        BestTimes(w.st, user, p)[s] <= t
    {
      forall a | RestsOn(h, SumSubtasks, u, user, p, a) ensures a.at <= t {
        RestsOnMeansAdds(h, u, w, user, p, a);
      }
    }
  }

  lemma RestsOnBeforeLatest(h: History, u: int, w: Windows, user: int, p: int, a: Attempt)
    requires Fair(h) && Shows(h, u, w) && RestsOn(h, SumSubtasks, u, user, p, a)
    ensures SubtasksOf(w.st, user, p) != {} && a.at <= SubtaskLatest(w.st, user, p)
  {
    hide Fair, Shows, RestsOn, Scaled, Latest;
    RestsOnMeansAdds(h, u, w, user, p, a);
    var _ := LatestIsMax(SubtasksOf(w.st, user, p), BestTimes(w.st, user, p));
  }

  lemma SubmissionRestsOn(h: History, strategy: Strategy, u: int, w: Windows, user: int, p: int)
    requires Fair(h) && Shows(h, u, w) && !strategy.SumSubtasks?
    ensures
      var k := Key(user, p, None);
      forall a :: RestsOn(h, strategy, u, user, p, a) <==> k in w.ms && a == w.ms[k] && Scaled(a) > 0.0
  {
    hide Scaled, Regular, Window, Best;
    var k := Key(user, p, None);
    FirstIsBest(h.submissions, h.scales, u, w.ms, k);
    if k in w.ms {
      OfPartition(h.submissions, h.scales, u, w.ms, k);
    }
    forall a | RestsOn(h, strategy, u, user, p, a) ensures k in w.ms && a == w.ms[k] {
      assert a.key == k;
      BestIsShown(h.submissions, h.scales, u, w.ms, k, a);
    }
  }

  /** A freeze shows the whole of a positive score exactly when it hides no row that the score rests on. */
  lemma ScoreIsWholeIff(h: History, t: int, u: int, v: Windows, w: Windows, strategy: Strategy, user: int, p: int)
    requires Fair(h) && t <= u && Shows(h, t, v) && Shows(h, u, w)
    requires MaxScore(strategy, w.ms, w.st, user, p).score > 0.0
    ensures MaxScore(strategy, v.ms, v.st, user, p).score == MaxScore(strategy, w.ms, w.st, user, p).score <==>
      forall a | RestsOn(h, strategy, u, user, p, a) :: a.at <= t
    ensures
      var row := MaxScore(strategy, w.ms, w.st, user, p);
      forall a | RestsOn(h, strategy, u, user, p, a) :: row.minTime.Some? && a.at <= row.minTime.value
  {
    hide Window, Regular, SubtaskLatest, SubtasksOf, BestScores, BestTimes, Scaled, RestsOn, Sum;
    if strategy.SumSubtasks? {
      SumRestsOn(h, u, w, user, p, t);
      forall a | RestsOn(h, strategy, u, user, p, a)
        ensures SubtasksOf(w.st, user, p) != {} && a.at <= SubtaskLatest(w.st, user, p)
      {
        RestsOnBeforeLatest(h, u, w, user, p, a);
      }
      SumIsWholeIff(h.subtasks, h.scales, t, u, v.st, w.st, user, p);
      SumOfNone(v.st, user, p);
    } else {
      var k := Key(user, p, None);
      SubmissionRestsOn(h, strategy, u, w, user, p);
      if k in w.ms {
        PartitionAppears(h.submissions, h.scales, t, u, v.ms, w.ms, k);
      }
    }
  }

  lemma SumOfNone(m: map<Key, Attempt>, user: int, p: int)
    ensures SubtasksOf(m, user, p) == {} ==> SubtaskSum(m, user, p) == 0.0
  {
  }

  /**
    When everyone scored on one subtask is scored on all of them, some row that a positive score
    rests on is dated mintime.
  */
  lemma AllSubtasksDecide(h: History, u: int, w: Windows, strategy: Strategy, user: int, p: int) returns (a: Attempt)
    requires Fair(h) && Shows(h, u, w) && AllSubtasks(h.subtasks)
    requires MaxScore(strategy, w.ms, w.st, user, p).score > 0.0
    ensures RestsOn(h, strategy, u, user, p, a)
    ensures MaxScore(strategy, w.ms, w.st, user, p).minTime == Some(a.at)
  {
    hide Window, Regular, Scaled, Best, AllSubtasks, Latest, Sum;
    if strategy.SumSubtasks? {
      var s := LatestPositive(h.subtasks, h.scales, u, w.st, user, p);
      var k := Key(user, p, Some(s));
      InSubtasksOf(w.st, user, p, s);
      FirstIsBest(h.subtasks, h.scales, u, w.st, k);
      OfPartition(h.subtasks, h.scales, u, w.st, k);
      var _ := LatestIsMax(SubtasksOf(w.st, user, p), BestTimes(w.st, user, p));
      a := w.st[k];
    } else {
      var k := Key(user, p, None);
      FirstIsBest(h.submissions, h.scales, u, w.ms, k);
      OfPartition(h.submissions, h.scales, u, w.ms, k);
      a := w.ms[k];
    }
  }
}
