/** Exactly when moving the freeze on can lower a score. */
module ContestRecords {
  import opened Common
  import opened RealSums
  import opened SubmissionTables
  import opened ContestWindows
  import opened ContestScoring
  import opened ContestFreeze

  /** At its own time the row was ranked first in its partition. */
  ghost predicate Record(all: set<Attempt>, k: Key, a: Attempt) {
    IsFirst(UpTo(all, a.at), k, a)
  }

  /** Whatever two freezes show of the partition, the later one is worth no less. */
  ghost predicate NeverFalls(all: set<Attempt>, k: Key) {
    forall t, u, m, n | t <= u && Window(UpTo(all, t), m) && Window(UpTo(all, u), n) && k in m ::
      k in n && Scaled(m[k]) <= Scaled(n[k])
  }

  /** No record is worth less than an earlier one, or than another at the same time. */
  ghost predicate RecordsGrow(all: set<Attempt>, k: Key) {
    forall a, b | Record(all, k, a) && Record(all, k, b) && a.at <= b.at :: Scaled(a) <= Scaled(b)
  }

  lemma ShownIsRecord(all: set<Attempt>, t: int, m: map<Key, Attempt>, k: Key)
    requires Window(UpTo(all, t), m) && k in m
    ensures Record(all, k, m[k]) && m[k].at <= t
  {
    assert IsFirst(UpTo(all, t), k, m[k]);
  }

  /** What a later freeze shows was not sent earlier. */
  lemma ShownInOrder(all: set<Attempt>, t: int, u: int, m: map<Key, Attempt>, n: map<Key, Attempt>, k: Key)
    requires t <= u && Window(UpTo(all, t), m) && Window(UpTo(all, u), n) && k in m
    ensures k in n && m[k].at <= n[k].at
  {
    assert IsFirst(UpTo(all, t), k, m[k]) && m[k] in UpTo(all, u);
    assert IsFirst(UpTo(all, u), k, n[k]);
    assert n[k].at <= t ==> n[k] in UpTo(all, t);
  }

  /** A record is what some result at its time shows. */
  lemma RecordIsShown(all: set<Attempt>, k: Key, a: Attempt) returns (m: map<Key, Attempt>)
    requires Record(all, k, a)
    ensures Window(UpTo(all, a.at), m) && k in m && m[k] == a
  {
    var some := WindowExists(UpTo(all, a.at));
    m := some[k := a];
    forall j | j in m ensures IsFirst(UpTo(all, a.at), j, m[j]) {
      if j != k {
        assert IsFirst(UpTo(all, a.at), j, some[j]);
      }
    }
  }

  /** A partition's scaled score never falls if and only if its records never do. */
  lemma NeverFallsIffRecordsGrow(all: set<Attempt>, k: Key)
    ensures NeverFalls(all, k) <==> RecordsGrow(all, k)
  {
    hide Window, Record, Scaled, UpTo;
    if RecordsGrow(all, k) {
      forall t, u, m, n | t <= u && Window(UpTo(all, t), m) && Window(UpTo(all, u), n) && k in m
        ensures k in n && Scaled(m[k]) <= Scaled(n[k])
      {
        ShownInOrder(all, t, u, m, n, k);
        ShownIsRecord(all, t, m, k);
        ShownIsRecord(all, u, n, k);
      }
    }
    if NeverFalls(all, k) {
      forall a, b | Record(all, k, a) && Record(all, k, b) && a.at <= b.at ensures Scaled(a) <= Scaled(b) {
        var m := RecordIsShown(all, k, a);
        var n := RecordIsShown(all, k, b);
      }
    }
  }

  // ---- The score of a problem that is not summed ----

  ghost predicate ScoreGrows(h: History, strategy: Strategy, user: int, p: int) {
    forall t, u, v, w | t <= u && Shows(h, t, v) && Shows(h, u, w) ::
      MaxScore(strategy, v.ms, v.st, user, p).score <= MaxScore(strategy, w.ms, w.st, user, p).score
  }

  lemma {:induction false} BeforeAll(all: set<Attempt>) returns (t: int)
    ensures forall a | a in all :: t < a.at
    decreases |all|
  {
    if all == {} {
      t := 0;
    } else {
      var a := Pick(all);
      t := BeforeAll(all - {a});
      assert forall x | x in all :: x == a || x in all - {a};
      t := if a.at <= t then a.at - 1 else t;
    }
  }

  /** Some result of both queries at a time, with one window given. */
  lemma Completed(h: History, t: int, ms: map<Key, Attempt>) returns (w: Windows)
    requires Window(UpTo(h.submissions, t), ms)
    ensures Shows(h, t, w) && w.ms == ms
  {
    hide Window;
    var st := WindowExists(UpTo(h.subtasks, t));
    w := Windows(ms, st);
  }

  /**
    Unless subtasks are summed, a score never falls as the freeze moves on if and only if the records
    of its partition never do and none is worth less than -1, which stands for having sent nothing.
  */
  lemma ScoreGrowsIff(h: History, strategy: Strategy, user: int, p: int)
    requires !strategy.SumSubtasks?
    ensures
      var k := Key(user, p, None);
      ScoreGrows(h, strategy, user, p) <==>
        RecordsGrow(h.submissions, k) && forall b | Record(h.submissions, k, b) :: Scaled(b) >= -1.0
  {
    hide Window, Record, Scaled, UpTo, RecordsGrow, NeverFalls;
    var k := Key(user, p, None);
    NeverFallsIffRecordsGrow(h.submissions, k);
    if ScoreGrows(h, strategy, user, p) {
      RecordsGrowWithScore(h, strategy, user, p);
      RecordsAboveNothing(h, strategy, user, p);
    }
    if NeverFalls(h.submissions, k) && forall b | Record(h.submissions, k, b) :: Scaled(b) >= -1.0 {
      ScoreGrowsWithRecords(h, strategy, user, p);
    }
  }

  lemma RecordsGrowWithScore(h: History, strategy: Strategy, user: int, p: int)
    requires !strategy.SumSubtasks? && ScoreGrows(h, strategy, user, p)
    ensures NeverFalls(h.submissions, Key(user, p, None))
  {
    hide Scaled, UpTo, Window;
    var k := Key(user, p, None);
    var all := h.submissions;
    forall t, u, m, n | t <= u && Window(UpTo(all, t), m) && Window(UpTo(all, u), n) && k in m
      ensures k in n && Scaled(m[k]) <= Scaled(n[k])
    {
      ShownInOrder(all, t, u, m, n, k);
      var v := Completed(h, t, m);
      var w := Completed(h, u, n);
      assert MaxScore(strategy, v.ms, v.st, user, p).score <= MaxScore(strategy, w.ms, w.st, user, p).score;
    }
  }

  lemma RecordsAboveNothing(h: History, strategy: Strategy, user: int, p: int)
    requires !strategy.SumSubtasks? && ScoreGrows(h, strategy, user, p)
    ensures forall b | Record(h.submissions, Key(user, p, None), b) :: Scaled(b) >= -1.0
  {
    hide Scaled, Window, Record;
    var k := Key(user, p, None);
    var all := h.submissions;
    forall b | Record(all, k, b) ensures Scaled(b) >= -1.0 {
      var n := RecordIsShown(all, k, b);
      var w := Completed(h, b.at, n);
      var before := BeforeAll(all);
      var t := if before <= b.at then before else b.at;
      var m := WindowExists(UpTo(all, t));
      var v := Completed(h, t, m);
      if k in m {
        ShownIsRecord(all, t, m, k);
        RecordIsSent(all, k, m[k]);
      }
      RecordIsSent(all, k, b);
      assert MaxScore(strategy, v.ms, v.st, user, p).score <= MaxScore(strategy, w.ms, w.st, user, p).score;
    }
  }

  lemma RecordIsSent(all: set<Attempt>, k: Key, a: Attempt)
    requires Record(all, k, a)
    ensures a in all
  {
  }

  lemma ScoreGrowsWithRecords(h: History, strategy: Strategy, user: int, p: int)
    requires !strategy.SumSubtasks? && NeverFalls(h.submissions, Key(user, p, None))
    requires forall b | Record(h.submissions, Key(user, p, None), b) :: Scaled(b) >= -1.0
    ensures ScoreGrows(h, strategy, user, p)
  {
    hide Scaled, UpTo, Window, Record;
    var k := Key(user, p, None);
    forall t, u, v, w | t <= u && Shows(h, t, v) && Shows(h, u, w)
      ensures MaxScore(strategy, v.ms, v.st, user, p).score <= MaxScore(strategy, w.ms, w.st, user, p).score
    {
      if k in w.ms {
        ShownIsRecord(h.submissions, u, w.ms, k);
      }
      if k in v.ms {
        ShownInOrder(h.submissions, t, u, v.ms, w.ms, k);
      }
    }
  }

  // ---- The score of a problem that is summed ----

  /** A summed score never falls if the records of no subtask do and none is negative. */
  lemma SummedScoreGrows(h: History, user: int, p: int)
    requires forall s :: RecordsGrow(h.subtasks, Key(user, p, Some(s)))
    requires forall s, b | Record(h.subtasks, Key(user, p, Some(s)), b) :: Scaled(b) >= 0.0
    ensures ScoreGrows(h, SumSubtasks, user, p)
  {
    hide Scaled, UpTo, Window, Record, SubtasksOf, BestScores, SubtaskSum, RecordsGrow;
    forall t, u, v, w | t <= u && Shows(h, t, v) && Shows(h, u, w)
      ensures MaxScore(SumSubtasks, v.ms, v.st, user, p).score <= MaxScore(SumSubtasks, w.ms, w.st, user, p).score
    {
      SumsGrow(h.subtasks, t, u, v.st, w.st, user, p);
    }
  }

  lemma SumsGrow(all: set<Attempt>, t: int, u: int, m: map<Key, Attempt>, n: map<Key, Attempt>, user: int, p: int)
    requires t <= u && Window(UpTo(all, t), m) && Window(UpTo(all, u), n)
    requires forall s :: RecordsGrow(all, Key(user, p, Some(s)))
    requires forall s, b | Record(all, Key(user, p, Some(s)), b) :: Scaled(b) >= 0.0
    ensures SubtasksOf(m, user, p) <= SubtasksOf(n, user, p)
    ensures 0.0 <= SubtaskSum(n, user, p) && SubtaskSum(m, user, p) <= SubtaskSum(n, user, p)
  {
    hide Scaled, UpTo, Window, Record, Sum, RecordsGrow;
    forall s | s in SubtasksOf(n, user, p) ensures 0.0 <= BestScores(n, user, p)[s] {
      InSubtasksOf(n, user, p, s);
      ShownIsRecord(all, u, n, Key(user, p, Some(s)));
    }
    forall s | s in SubtasksOf(m, user, p)
      ensures s in SubtasksOf(n, user, p) && BestScores(m, user, p)[s] <= BestScores(n, user, p)[s]
    {
      var k := Key(user, p, Some(s));
      InSubtasksOf(m, user, p, s);
      NeverFallsIffRecordsGrow(all, k);
      ShownInOrder(all, t, u, m, n, k);
      InSubtasksOf(n, user, p, s);
    }
    SumGrows(SubtasksOf(m, user, p), BestScores(m, user, p), SubtasksOf(n, user, p), BestScores(n, user, p));
    SumGrows({}, BestScores(n, user, p), SubtasksOf(n, user, p), BestScores(n, user, p));
    SumOfNothing(BestScores(n, user, p));
  }

  lemma SumOfNothing(v: map<int, real>)
    ensures Sum({}, v) == 0.0
  {
  }

  // ---- What the rows allow a score to be ----

  /** Which of the rows that are ranked first together is taken. */
  datatype Side = Most | Least

  predicate Within(side: Side, x: real, bound: real) {
    if side.Most? then x <= bound else bound <= x
  }

  lemma {:induction false} ExtremeExists(values: set<real>, side: Side)
    requires values != {}
    ensures exists m :: m in values && forall x | x in values :: Within(side, x, m)
  {
    var a := Pick(values);
    if values == {a} {
      assert a in values && forall x | x in values :: Within(side, x, a);
    } else {
      ExtremeExists(values - {a}, side);
      var m :| m in values - {a} && forall x | x in values - {a} :: Within(side, x, m);
      var e := if Within(side, a, m) then m else a;
      assert forall x | x in values :: x == a || x in values - {a};
      assert e in values && forall x | x in values :: Within(side, x, e);
    }
  }

  /** The greatest or the least of some values. */
  ghost function Extreme(values: set<real>, side: Side): (m: real)
    requires values != {}
    ensures m in values && forall x | x in values :: Within(side, x, m)
  {
    ExtremeExists(values, side);
    var m :| m in values && forall x | x in values :: Within(side, x, m);
    m
  }

  /** What the rows ranked first in a partition up to a time are worth. */
  ghost function FirstScores(all: set<Attempt>, t: int, k: Key): set<real> {
    set a | a in all && IsFirst(UpTo(all, t), k, a) :: Scaled(a)
  }

  ghost function FirstScore(all: set<Attempt>, side: Side, t: int, k: Key): real {
    if FirstScores(all, t, k) == {} then -1.0 else Extreme(FirstScores(all, t, k), side)
  }

  /** The subtasks of a problem for which the contestant had something sent. */
  ghost function SentSubtasks(all: set<Attempt>, t: int, user: int, p: int): set<int> {
    set a | a in UpTo(all, t) && Belongs(a, user, p) && a.key.subtaskId.Some? :: a.key.subtaskId.value
  }

  ghost function SubtaskScores(all: set<Attempt>, side: Side, t: int, user: int, p: int): map<int, real> {
    map s | s in SentSubtasks(all, t, user, p) :: FirstScore(all, side, t, Key(user, p, Some(s)))
  }

  /** The most, or the least, that the rows up to a time allow a score to be. */
  ghost function ExtremeScore(h: History, side: Side, t: int, strategy: Strategy, user: int, p: int): real {
    if strategy.SumSubtasks? then
      var sent := SentSubtasks(h.subtasks, t, user, p);
      if sent == {} then -1.0 else Sum(sent, SubtaskScores(h.subtasks, side, t, user, p))
    else FirstScore(h.submissions, side, t, Key(user, p, None))
  }

  /** A row for one of the contestant's results on the problem or its subtasks. */
  predicate Belongs(a: Attempt, user: int, p: int) {
    a.key.userId == user && a.key.problemId == p
  }

  // ---- Every result lies between the extremes, and some result reaches them ----

  lemma ShownIsWithin(all: set<Attempt>, side: Side, t: int, m: map<Key, Attempt>, k: Key)
    requires Window(UpTo(all, t), m) && k in m
    ensures Within(side, Scaled(m[k]), FirstScore(all, side, t, k))
  {
    hide Scaled, Within;
    assert IsFirst(UpTo(all, t), k, m[k]) && m[k] in all;
    assert Scaled(m[k]) in FirstScores(all, t, k);
  }

  lemma NoneShown(all: set<Attempt>, t: int, m: map<Key, Attempt>, k: Key)
    requires Window(UpTo(all, t), m) && k !in m
    ensures FirstScores(all, t, k) == {}
  {
  }

  lemma SubtasksShown(all: set<Attempt>, t: int, m: map<Key, Attempt>, user: int, p: int)
    requires Window(UpTo(all, t), m)
    ensures SubtasksOf(m, user, p) == SentSubtasks(all, t, user, p)
  {
    hide UpTo;
    var sent := SentSubtasks(all, t, user, p);
    forall s ensures s in SubtasksOf(m, user, p) <==> s in sent {
      var k := Key(user, p, Some(s));
      InSubtasksOf(m, user, p, s);
      if k in m {
        assert IsFirst(UpTo(all, t), k, m[k]);
      }
    }
  }

  lemma SumIsWithin(side: Side, keys: set<int>, v: map<int, real>, w: map<int, real>)
    requires keys <= v.Keys && keys <= w.Keys && forall s | s in keys :: Within(side, v[s], w[s])
    ensures Within(side, Sum(keys, v), Sum(keys, w))
  {
    if side.Most? {
      SumMonotone(keys, v, w);
    } else {
      SumMonotone(keys, w, v);
    }
  }

  lemma ScoreIsWithin(h: History, side: Side, t: int, w: Windows, strategy: Strategy, user: int, p: int)
    requires Shows(h, t, w)
    ensures Within(side, MaxScore(strategy, w.ms, w.st, user, p).score, ExtremeScore(h, side, t, strategy, user, p))
  {
    hide Window, UpTo, Scaled, Sum, FirstScore, SentSubtasks, SubtasksOf;
    if strategy.SumSubtasks? {
      SubtasksShown(h.subtasks, t, w.st, user, p);
      forall s | s in SubtasksOf(w.st, user, p)
        ensures Within(side, BestScores(w.st, user, p)[s], FirstScore(h.subtasks, side, t, Key(user, p, Some(s))))
      {
        InSubtasksOf(w.st, user, p, s);
        ShownIsWithin(h.subtasks, side, t, w.st, Key(user, p, Some(s)));
      }
      var sent := SentSubtasks(h.subtasks, t, user, p);
      SumIsWithin(side, sent, BestScores(w.st, user, p), SubtaskScores(h.subtasks, side, t, user, p));
    } else {
      SubmissionIsWithin(h.submissions, side, t, w.ms, Key(user, p, None));
    }
  }

  lemma SubmissionIsWithin(all: set<Attempt>, side: Side, t: int, m: map<Key, Attempt>, k: Key)
    requires Window(UpTo(all, t), m)
    ensures Within(side, if k in m then Scaled(m[k]) else -1.0, FirstScore(all, side, t, k))
  {
    hide Window, UpTo, Scaled, FirstScores;
    if k in m {
      ShownIsWithin(all, side, t, m, k);
    } else {
      NoneShown(all, t, m, k);
    }
  }

  /** A row ranked first that is worth the most, or the least. */
  lemma ExtremeRow(all: set<Attempt>, side: Side, t: int, k: Key)
    requires FirstScores(all, t, k) != {}
    ensures exists a :: IsFirst(UpTo(all, t), k, a) && Scaled(a) == FirstScore(all, side, t, k)
  {
    hide Scaled, IsFirst;
    var a :| a in all && IsFirst(UpTo(all, t), k, a) && Scaled(a) == Extreme(FirstScores(all, t, k), side);
  }

  ghost function ExtremeAttempt(all: set<Attempt>, side: Side, t: int, k: Key): (a: Attempt)
    requires FirstScores(all, t, k) != {}
    ensures IsFirst(UpTo(all, t), k, a) && Scaled(a) == FirstScore(all, side, t, k)
  {
    ExtremeRow(all, side, t, k);
    var a :| IsFirst(UpTo(all, t), k, a) && Scaled(a) == FirstScore(all, side, t, k);
    a
  }

  /** One result of a windowed query takes the extreme row of every partition. */
  lemma ExtremeWindow(all: set<Attempt>, side: Side, t: int) returns (m: map<Key, Attempt>)
    ensures Window(UpTo(all, t), m)
    ensures forall k | k in m :: Scaled(m[k]) == FirstScore(all, side, t, k)
  {
    hide FirstScore, Scaled;
    var some := WindowExists(UpTo(all, t));
    forall k | k in some ensures FirstScores(all, t, k) != {} {
      assert IsFirst(UpTo(all, t), k, some[k]) && some[k] in all;
      assert Scaled(some[k]) in FirstScores(all, t, k);
    }
    m := map k | k in some :: ExtremeAttempt(all, side, t, k);
  }

  /** Some result of both queries gives every contestant the extreme score on every problem. */
  lemma ExtremeResult(h: History, side: Side, t: int) returns (w: Windows)
    ensures Shows(h, t, w)
    ensures forall strategy, user, p ::
      MaxScore(strategy, w.ms, w.st, user, p).score == ExtremeScore(h, side, t, strategy, user, p)
  {
    hide Window, Scaled, FirstScore, MaxScore, ExtremeScore;
    var ms := ExtremeWindow(h.submissions, side, t);
    var st := ExtremeWindow(h.subtasks, side, t);
    w := Windows(ms, st);
    forall strategy, user, p
      ensures MaxScore(strategy, ms, st, user, p).score == ExtremeScore(h, side, t, strategy, user, p)
    {
      ExtremesGiveTheScore(h, side, t, w, strategy, user, p);
    }
  }

  lemma ExtremesGiveTheScore(h: History, side: Side, t: int, w: Windows, strategy: Strategy, user: int, p: int)
    requires Shows(h, t, w)
    requires forall k | k in w.ms :: Scaled(w.ms[k]) == FirstScore(h.submissions, side, t, k)
    requires forall k | k in w.st :: Scaled(w.st[k]) == FirstScore(h.subtasks, side, t, k)
    ensures MaxScore(strategy, w.ms, w.st, user, p).score == ExtremeScore(h, side, t, strategy, user, p)
  {
    hide Window, UpTo, Scaled, Sum, FirstScores, SentSubtasks, SubtasksOf;
    if strategy.SumSubtasks? {
      SubtasksShown(h.subtasks, t, w.st, user, p);
      forall s | s in SubtasksOf(w.st, user, p)
        ensures BestScores(w.st, user, p)[s] == SubtaskScores(h.subtasks, side, t, user, p)[s]
      {
        InSubtasksOf(w.st, user, p, s);
      }
      SumSame(SubtasksOf(w.st, user, p), BestScores(w.st, user, p), SubtaskScores(h.subtasks, side, t, user, p));
    } else if Key(user, p, None) !in w.ms {
      NoneShown(h.submissions, t, w.ms, Key(user, p, None));
    }
  }

  // ---- Only the moments at which something was sent matter ----

  /** Nothing happens after x and up to t. */
  ghost predicate Quiet(moments: set<int>, x: int, t: int) {
    forall m | m in moments :: m <= x || t < m
  }

  /** The last moment up to a time, if there is one. */
  lemma {:induction false} LastMoment(moments: set<int>, t: int) returns (last: Option<int>)
    ensures last.None? ==> BeforeAny(moments, t)
    ensures last.Some? ==> last.value in moments && last.value <= t && Quiet(moments, last.value, t)
    decreases |moments|
  {
    if moments == {} {
      last := None;
    } else {
      var m := Pick(moments);
      last := LastMoment(moments - {m}, t);
      assert forall x | x in moments :: x == m || x in moments - {m};
      if m <= t && (last.None? || last.value < m) {
        last := Some(m);
      }
    }
  }

  ghost predicate BeforeAny(moments: set<int>, t: int) {
    forall m | m in moments :: t < m
  }

  /** Bounds that change at certain moments only; before all of them there is no choice. */
  ghost predicate ChangesAt(moments: set<int>, most: int -> real, least: int -> real) {
    && (forall x, y | x <= y && Quiet(moments, x, y) :: most(x) == most(y) && least(x) == least(y))
    && (forall x :: least(x) <= most(x))
    && (forall x | BeforeAny(moments, x) :: most(x) == least(x))
  }

  /** Just before a moment, and at it, the most is no more than the least at it. */
  ghost predicate GrowsAt(m: int, most: int -> real, least: int -> real) {
    most(m - 1) <= least(m) && most(m) <= least(m)
  }

  lemma QuietBefore(moments: set<int>, t: int, u: int)
    requires BeforeAny(moments, u)
    ensures t <= u ==> Quiet(moments, t, u)
  {
  }

  lemma QuietUntil(moments: set<int>, x: int, t: int, u: int)
    requires Quiet(moments, x, u) && t <= u
    ensures Quiet(moments, x, t)
  {
  }

  lemma {:induction false} GrowsFromMomentToMoment(moments: set<int>, most: int -> real, least: int -> real, t: int,
      u: int)
    requires ChangesAt(moments, most, least) && forall m | m in moments :: GrowsAt(m, most, least)
    requires t <= u
    ensures most(t) <= least(u)
    decreases u - t
  {
    hide BeforeAny, Quiet;
    var last := LastMoment(moments, u);
    if last.None? {
      assert Quiet(moments, t, u) by { QuietBefore(moments, t, u); }
    } else {
      var m := last.value;
      assert GrowsAt(m, most, least);
      if m <= t {
        assert Quiet(moments, m, t) by { QuietUntil(moments, m, t, u); }
      } else {
        GrowsFromMomentToMoment(moments, most, least, t, m - 1);
      }
    }
  }

  // ---- The exact condition ----

  /** While nothing is sent for a partition the same rows are ranked first. */
  lemma SameFirstScore(all: set<Attempt>, side: Side, x: int, y: int, k: Key)
    requires x <= y && forall a | a in all && a.key == k :: a.at <= x || y < a.at
    ensures FirstScore(all, side, x, k) == FirstScore(all, side, y, k)
  {
    hide Scaled;
    forall a | a in all ensures IsFirst(UpTo(all, x), k, a) <==> IsFirst(UpTo(all, y), k, a) {
      assert forall b: Attempt | b.key == k :: b in UpTo(all, x) <==> b in UpTo(all, y);
    }
    assert FirstScores(all, x, k) == FirstScores(all, y, k);
  }

  lemma SameExtremeScore(h: History, side: Side, x: int, y: int, strategy: Strategy, user: int, p: int)
    requires x <= y
    requires forall a | a in h.submissions && Belongs(a, user, p) && !strategy.SumSubtasks? :: a.at <= x || y < a.at
    requires forall a | a in h.subtasks && Belongs(a, user, p) && strategy.SumSubtasks? :: a.at <= x || y < a.at
    ensures ExtremeScore(h, side, x, strategy, user, p) == ExtremeScore(h, side, y, strategy, user, p)
  {
    hide FirstScore, Sum;
    if strategy.SumSubtasks? {
      forall s
        ensures
          var k := Key(user, p, Some(s));
          FirstScore(h.subtasks, side, x, k) == FirstScore(h.subtasks, side, y, k)
      {
        SameFirstScore(h.subtasks, side, x, y, Key(user, p, Some(s)));
      }
      assert SentSubtasks(h.subtasks, x, user, p) == SentSubtasks(h.subtasks, y, user, p);
      assert SubtaskScores(h.subtasks, side, x, user, p) == SubtaskScores(h.subtasks, side, y, user, p);
    } else {
      SameFirstScore(h.submissions, side, x, y, Key(user, p, None));
    }
  }

  /** Before anything is sent for a problem its score is -1. */
  lemma NothingSent(h: History, side: Side, t: int, strategy: Strategy, user: int, p: int)
    requires forall a | a in h.submissions && Belongs(a, user, p) && !strategy.SumSubtasks? :: t < a.at
    requires forall a | a in h.subtasks && Belongs(a, user, p) && strategy.SumSubtasks? :: t < a.at
    ensures ExtremeScore(h, side, t, strategy, user, p) == -1.0
  {
    hide Scaled;
    if strategy.SumSubtasks? {
      assert SentSubtasks(h.subtasks, t, user, p) == {};
      assert SubtaskScores(h.subtasks, side, t, user, p).Keys == {};
    } else {
      assert FirstScores(h.submissions, t, Key(user, p, None)) == {};
    }
  }

  lemma LeastIsLess(h: History, t: int, strategy: Strategy, user: int, p: int)
    ensures ExtremeScore(h, Least, t, strategy, user, p) <= ExtremeScore(h, Most, t, strategy, user, p)
  {
    hide ExtremeScore, Shows, MaxScore;
    var w := ExtremeResult(h, Most, t);
    ScoreIsWithin(h, Least, t, w, strategy, user, p);
  }

  /**
    A summed score never falls as the freeze moves on if and only if, at every row sent for the
    problem, the best results its subtasks may have shown until then, or show at the same time, add
    up to no more than the worst they may show at that time.
  */
  lemma SummedScoreGrowsIff(h: History, user: int, p: int)
    ensures ScoreGrows(h, SumSubtasks, user, p) <==>
      forall b, t | b in h.subtasks && Belongs(b, user, p) && b.at - 1 <= t <= b.at ::
        ExtremeScore(h, Most, t, SumSubtasks, user, p) <= ExtremeScore(h, Least, b.at, SumSubtasks, user, p)
  {
    hide ExtremeScore, Shows, MaxScore;
    if ScoreGrows(h, SumSubtasks, user, p) {
      forall b, t | b in h.subtasks && Belongs(b, user, p) && b.at - 1 <= t <= b.at
        ensures ExtremeScore(h, Most, t, SumSubtasks, user, p) <= ExtremeScore(h, Least, b.at, SumSubtasks, user, p)
      {
        var v := ExtremeResult(h, Most, t);
        var w := ExtremeResult(h, Least, b.at);
        assert MaxScore(SumSubtasks, v.ms, v.st, user, p).score <= MaxScore(SumSubtasks, w.ms, w.st, user, p).score;
      }
    }
    if forall b, t | b in h.subtasks && Belongs(b, user, p) && b.at - 1 <= t <= b.at ::
        ExtremeScore(h, Most, t, SumSubtasks, user, p) <= ExtremeScore(h, Least, b.at, SumSubtasks, user, p)
    {
      forall t, u, v, w | t <= u && Shows(h, t, v) && Shows(h, u, w)
        ensures MaxScore(SumSubtasks, v.ms, v.st, user, p).score <= MaxScore(SumSubtasks, w.ms, w.st, user, p).score
      {
        SummedScoreGrowsWithRows(h, t, u, user, p);
        ScoreIsWithin(h, Most, t, v, SumSubtasks, user, p);
        ScoreIsWithin(h, Least, u, w, SumSubtasks, user, p);
      }
    }
  }

  lemma SummedScoreGrowsWithRows(h: History, t: int, u: int, user: int, p: int)
    requires forall b, x | b in h.subtasks && Belongs(b, user, p) && b.at - 1 <= x <= b.at ::
      ExtremeScore(h, Most, x, SumSubtasks, user, p) <= ExtremeScore(h, Least, b.at, SumSubtasks, user, p)
    requires t <= u
    ensures ExtremeScore(h, Most, t, SumSubtasks, user, p) <= ExtremeScore(h, Least, u, SumSubtasks, user, p)
  {
    hide ExtremeScore, Belongs;
    var moments := set b | b in h.subtasks && Belongs(b, user, p) :: b.at;
    var most := x => ExtremeScore(h, Most, x, SumSubtasks, user, p);
    var least := x => ExtremeScore(h, Least, x, SumSubtasks, user, p);
    forall x, y | x <= y && Quiet(moments, x, y) ensures most(x) == most(y) && least(x) == least(y) {
      assert forall b | b in h.subtasks && Belongs(b, user, p) :: b.at in moments;
      SameExtremeScore(h, Most, x, y, SumSubtasks, user, p);
      SameExtremeScore(h, Least, x, y, SumSubtasks, user, p);
    }
    forall x ensures least(x) <= most(x) {
      LeastIsLess(h, x, SumSubtasks, user, p);
    }
    forall x | BeforeAny(moments, x) ensures most(x) == least(x) {
      assert forall b | b in h.subtasks && Belongs(b, user, p) :: b.at in moments;
      NothingSent(h, Most, x, SumSubtasks, user, p);
      NothingSent(h, Least, x, SumSubtasks, user, p);
    }
    GrowsFromMomentToMoment(moments, most, least, t, u);
  }

  // ---- Scores that fall ----

  const FULL := Attempt(Key(3, 7, None), 10, 50.0, 100.0)
  const HALVED := Attempt(Key(3, 7, None), 20, 60.0, 50.0)
  const NEGATIVE := Attempt(Key(3, 7, None), 10, -2.0, 100.0)

  /** With two scales on one problem a better submission can lower the score: rows are ranked before scaling. */
  lemma ScoreCanFall(ms10: map<Key, Attempt>, ms20: map<Key, Attempt>)
    requires Window(UpTo({FULL, HALVED}, 10), ms10) && Window(UpTo({FULL, HALVED}, 20), ms20)
    ensures MaxScore(MaxSubmission, ms10, map[], 3, 7).score == 50.0
    ensures MaxScore(MaxSubmission, ms20, map[], 3, 7).score == 30.0
    ensures !RecordsGrow({FULL, HALVED}, FULL.key)
  {
    var all := {FULL, HALVED};
    assert FULL in UpTo(all, 10) && FULL in UpTo(all, 20) && HALVED in UpTo(all, 20);
    assert IsFirst(UpTo(all, 10), FULL.key, ms10[FULL.key]);
    assert IsFirst(UpTo(all, 20), FULL.key, ms20[FULL.key]);
    assert Record(all, FULL.key, FULL) && Record(all, FULL.key, HALVED);
  }

  lemma NothingShown(m: map<Key, Attempt>, k: Key)
    requires Window({}, m)
    ensures k !in m
  {
  }

  /** A first submission worth less than -1 lowers the score of someone who has sent nothing. */
  lemma NegativeScoreFalls(ms9: map<Key, Attempt>, ms10: map<Key, Attempt>)
    requires Window(UpTo({NEGATIVE}, 9), ms9) && Window(UpTo({NEGATIVE}, 10), ms10)
    ensures MaxScore(MaxSubmission, ms9, map[], 3, 7).score == -1.0
    ensures MaxScore(MaxSubmission, ms10, map[], 3, 7).score == -2.0
  {
    var all := {NEGATIVE};
    assert UpTo(all, 9) == {};
    NothingShown(ms9, NEGATIVE.key);
    assert NEGATIVE in UpTo(all, 10);
    assert IsFirst(UpTo(all, 10), NEGATIVE.key, ms10[NEGATIVE.key]);
  }

  const WHOLE1 := Attempt(Key(3, 7, Some(1)), 10, 50.0, 100.0)
  const WHOLE2 := Attempt(Key(3, 7, Some(2)), 10, 20.0, 100.0)
  const HALF1 := Attempt(Key(3, 7, Some(1)), 20, 60.0, 50.0)
  const HALF2 := Attempt(Key(3, 7, Some(2)), 20, 20.0, 50.0)
  const TWICE := {WHOLE1, WHOLE2, HALF1, HALF2}

  /**
    Two submissions scored on both subtasks, the second one after the scale was halved: it is better
    on the first subtask and as good on the second, and the sum falls from 70 to 50.
  */
  lemma SummedScoreCanFall(st10: map<Key, Attempt>, st20: map<Key, Attempt>)
    requires Window(UpTo(TWICE, 10), st10) && Window(UpTo(TWICE, 20), st20)
    ensures MaxScore(SumSubtasks, map[], st10, 3, 7).score == 70.0
    ensures MaxScore(SumSubtasks, map[], st20, 3, 7).score == 50.0
  {
    hide Sum, Latest, Window, UpTo, SubtasksOf;
    WindowsOfTwice(st10, st20);
    SumOfTwo(st10, 3, 7);
    SumOfTwo(st20, 3, 7);
  }

  /** A row that ranks before all others of its partition is the one that is shown. */
  lemma OnlyFirst(all: set<Attempt>, m: map<Key, Attempt>, a: Attempt)
    requires Window(all, m) && a in all && forall x | x in all && x.key == a.key && x != a :: Before(a, x)
    ensures a.key in m && m[a.key] == a
  {
    assert IsFirst(all, a.key, m[a.key]);
  }

  lemma OnlyKeysShown(all: set<Attempt>, m: map<Key, Attempt>, keys: set<Key>)
    requires Window(all, m) && forall a | a in all :: a.key in keys
    ensures m.Keys <= keys
  {
    assert forall k | k in m :: IsFirst(all, k, m[k]);
  }

  lemma WindowsOfTwice(st10: map<Key, Attempt>, st20: map<Key, Attempt>)
    requires Window(UpTo(TWICE, 10), st10) && Window(UpTo(TWICE, 20), st20)
    ensures st10 == map[WHOLE1.key := WHOLE1, WHOLE2.key := WHOLE2]
    ensures st20 == map[WHOLE1.key := HALF1, WHOLE2.key := WHOLE2]
  {
    hide Window;
    var keys := {WHOLE1.key, WHOLE2.key};
    OnlyKeysShown(UpTo(TWICE, 10), st10, keys);
    OnlyKeysShown(UpTo(TWICE, 20), st20, keys);
    OnlyFirst(UpTo(TWICE, 10), st10, WHOLE1);
    OnlyFirst(UpTo(TWICE, 10), st10, WHOLE2);
    OnlyFirst(UpTo(TWICE, 20), st20, HALF1);
    OnlyFirst(UpTo(TWICE, 20), st20, WHOLE2);
  }

  lemma SumOfTwo(m: map<Key, Attempt>, user: int, p: int)
    requires m.Keys == {Key(user, p, Some(1)), Key(user, p, Some(2))}
    ensures SubtasksOf(m, user, p) == {1, 2}
    ensures SubtaskSum(m, user, p) == Scaled(m[Key(user, p, Some(1))]) + Scaled(m[Key(user, p, Some(2))])
  {
    hide Scaled;
    forall s ensures s in SubtasksOf(m, user, p) <==> s == 1 || s == 2 {
      InSubtasksOf(m, user, p, s);
    }
    var v := BestScores(m, user, p);
    SumWithout({1, 2}, v, 1);
    assert {1, 2} - {1} == {2};
    SumWithout({2}, v, 2);
    assert {2} - {2} == {};
    SumOfNothing(v);
  }
}
