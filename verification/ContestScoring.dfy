/**
  Contest scores: for each contestant and problem the best submission, or the sum of the best
  result on each subtask, among what was sent up to the freeze.
*/
module ContestScoring {
  import opened Common
  import opened Ordering
  import opened RealSums
  import opened SubmissionStatus
  import opened SubmissionTable
  import opened SubmissionTables
  import opened ContestWindows

  /** A row of submission_subtasks, with its generated score column. */
  datatype SubtaskScore = SubtaskScore(
    userId: int, problemId: int, subtaskId: Option<int>, contestId: Option<int>,
    createdAt: int, computedScore: real, scoreScale: real)

  /** Registrations, problems and access entries pair a contest with a user or a problem. */
  datatype ContestData = ContestData(
    submissions: seq<Submission>, subtaskScores: seq<SubtaskScore>,
    contestProblems: set<(int, int)>, problems: map<int, Strategy>,
    registrations: set<(int, int)>, access: set<(int, int)>)

  datatype Query = Query(contestId: int, cutoff: int, userId: Option<int>, problemId: Option<int>)

  /** The freeze, or the present when there is none. */
  function Cutoff(freeze: Option<int>, now: int): int {
    if freeze.Some? then freeze.value else now
  }

  predicate Asked(q: Query, userId: int, problemId: int) {
    (q.userId.Some? ==> userId == q.userId.value) && (q.problemId.Some? ==> problemId == q.problemId.value)
  }

  // ---- The two windowed queries ----

  predicate KeepsSubmission(q: Query, r: Submission) {
    && r.contestId == Some(q.contestId) && r.createdAt <= q.cutoff && (r.status == Finished || r.status == Reevaling)
    && Asked(q, r.userId, r.problemId)
  }

  function SubmissionAttempt(r: Submission): Attempt {
    Attempt(Key(r.userId, r.problemId, None), r.createdAt, r.score, r.scoreScale)
  }

  ghost function SubmissionAttempts(rows: seq<Submission>, q: Query): set<Attempt> {
    set r | r in rows && KeepsSubmission(q, r) :: SubmissionAttempt(r)
  }

  /** Neither the user nor the problem is asked for here, nor is the submission's status. */
  predicate KeepsSubtask(q: Query, r: SubtaskScore) {
    r.contestId == Some(q.contestId) && r.subtaskId.Some? && r.createdAt <= q.cutoff
  }

  function SubtaskAttempt(r: SubtaskScore): Attempt {
    Attempt(Key(r.userId, r.problemId, r.subtaskId), r.createdAt, r.computedScore, r.scoreScale)
  }

  ghost function SubtaskAttempts(rows: seq<SubtaskScore>, q: Query): set<Attempt> {
    set r | r in rows && KeepsSubtask(q, r) :: SubtaskAttempt(r)
  }

  method MaxSubmissionStrat(rows: seq<Submission>, q: Query) returns (m: map<Key, Attempt>)
    ensures Window(SubmissionAttempts(rows, q), m)
  {
    hide Window, Consider, KeepsSubmission, SubmissionAttempt;
    m := map[];
    EmptyWindow();
    assert SubmissionAttempts(rows[..0], q) == {};
    for i := 0 to |rows|
      invariant Window(SubmissionAttempts(rows[..i], q), m)
    {
      NextSubmission(rows, i, q);
      if KeepsSubmission(q, rows[i]) {
        ConsiderKeepsWindow(SubmissionAttempts(rows[..i], q), m, SubmissionAttempt(rows[i]));
        m := Consider(m, SubmissionAttempt(rows[i]));
      }
    }
    assert rows[..|rows|] == rows;
  }

  lemma EmptyWindow()
    ensures Window({}, map[])
  {
  }

  lemma NextSubmission(rows: seq<Submission>, i: nat, q: Query)
    requires i < |rows|
    ensures SubmissionAttempts(rows[..i + 1], q) ==
      if KeepsSubmission(q, rows[i]) then SubmissionAttempts(rows[..i], q) + {SubmissionAttempt(rows[i])}
      else SubmissionAttempts(rows[..i], q)
  {
    hide KeepsSubmission, SubmissionAttempt;
    assert rows[..i + 1] == rows[..i] + [rows[i]];
  }

  method SubtaskMaxScores(rows: seq<SubtaskScore>, q: Query) returns (m: map<Key, Attempt>)
    ensures Window(SubtaskAttempts(rows, q), m)
  {
    hide Window, Consider, KeepsSubtask, SubtaskAttempt;
    m := map[];
    EmptyWindow();
    assert SubtaskAttempts(rows[..0], q) == {};
    for i := 0 to |rows|
      invariant Window(SubtaskAttempts(rows[..i], q), m)
    {
      NextSubtask(rows, i, q);
      if KeepsSubtask(q, rows[i]) {
        ConsiderKeepsWindow(SubtaskAttempts(rows[..i], q), m, SubtaskAttempt(rows[i]));
        m := Consider(m, SubtaskAttempt(rows[i]));
      }
    }
    assert rows[..|rows|] == rows;
  }

  lemma NextSubtask(rows: seq<SubtaskScore>, i: nat, q: Query)
    requires i < |rows|
    ensures SubtaskAttempts(rows[..i + 1], q) ==
      if KeepsSubtask(q, rows[i]) then SubtaskAttempts(rows[..i], q) + {SubtaskAttempt(rows[i])}
      else SubtaskAttempts(rows[..i], q)
  {
    hide KeepsSubtask, SubtaskAttempt;
    assert rows[..i + 1] == rows[..i] + [rows[i]];
  }

  // ---- Scores from windows ----

  datatype ScoreRow = ScoreRow(score: real, minTime: Option<int>)

  function Scaled(a: Attempt): real {
    a.score * (a.scale / 100.0)
  }

  function SubtasksOf(m: map<Key, Attempt>, u: int, p: int): set<int> {
    set k | k in m && k.userId == u && k.problemId == p && k.subtaskId.Some? :: k.subtaskId.value
  }

  function BestScores(m: map<Key, Attempt>, u: int, p: int): map<int, real> {
    map s | s in SubtasksOf(m, u, p) :: Scaled(m[Key(u, p, Some(s))])
  }

  function BestTimes(m: map<Key, Attempt>, u: int, p: int): map<int, int> {
    map s | s in SubtasksOf(m, u, p) :: m[Key(u, p, Some(s))].at
  }

  /** The latest time of a group that is not empty. */
  function Latest(keys: set<int>, times: map<int, int>): (t: int)
    requires keys != {} && keys <= times.Keys
    decreases |keys|
  {
    var k := Min(keys);
    if keys == {k} then times[k]
    else
      var rest := Latest(keys - {k}, times);
      if times[k] > rest then times[k] else rest
  }

  lemma {:induction false} LatestIsMax(keys: set<int>, times: map<int, int>) returns (at: int)
    requires keys != {} && keys <= times.Keys
    ensures at in keys && times[at] == Latest(keys, times)
    ensures forall k | k in keys :: times[k] <= Latest(keys, times)
    decreases |keys|
  {
    var k := Min(keys);
    if keys == {k} {
      at := k;
    } else {
      at := LatestIsMax(keys - {k}, times);
      if times[k] > Latest(keys - {k}, times) {
        at := k;
      }
    }
  }

  /** The best results on the subtasks of one problem added up, and the latest of their times. */
  function SubtaskSum(m: map<Key, Attempt>, u: int, p: int): real {
    Sum(SubtasksOf(m, u, p), BestScores(m, u, p))
  }

  function SubtaskLatest(m: map<Key, Attempt>, u: int, p: int): int
    requires SubtasksOf(m, u, p) != {}
  {
    Latest(SubtasksOf(m, u, p), BestTimes(m, u, p))
  }

  /** The columns score and mintime of one contestant and problem; -1 and NULL when nothing counts. */
  function MaxScore(strategy: Strategy, ms: map<Key, Attempt>, st: map<Key, Attempt>, u: int, p: int): ScoreRow {
    match strategy
    case SumSubtasks =>
      if SubtasksOf(st, u, p) == {} then ScoreRow(-1.0, None)
      else ScoreRow(SubtaskSum(st, u, p), Some(SubtaskLatest(st, u, p)))
    case _ =>
      var k := Key(u, p, None);
      if k in ms then ScoreRow(Scaled(ms[k]), Some(ms[k].at)) else ScoreRow(-1.0, None)
  }

  function Registered(d: ContestData, c: int): set<int> {
    set r | r in d.registrations && r.0 == c :: r.1
  }

  function ProblemsOf(d: ContestData, c: int): set<int> {
    set r | r in d.contestProblems && r.0 == c && r.1 in d.problems :: r.1
  }

  type ScoreTable = map<(int, int), ScoreRow>

  function Join(d: ContestData, q: Query, ms: map<Key, Attempt>, st: map<Key, Attempt>): ScoreTable {
    map u, p | u in Registered(d, q.contestId) && p in ProblemsOf(d, q.contestId) && p in d.problems && Asked(q, u, p)
      :: (u, p) := MaxScore(d.problems[p], ms, st, u, p)
  }

  /** A result contestMaxScores may give; it is the only one unless equal rows carry different scales. */
  ghost predicate Gives(d: ContestData, q: Query, r: ScoreTable) {
    exists ms, st :: Window(SubmissionAttempts(d.submissions, q), ms)
      && Window(SubtaskAttempts(d.subtaskScores, q), st) && r == Join(d, q, ms, st)
  }

  method ContestMaxScores(d: ContestData, contestId: int, freeze: Option<int>, now: int, user: Option<int>,
      problem: Option<int>)
    returns (r: ScoreTable)
    ensures Gives(d, Query(contestId, Cutoff(freeze, now), user, problem), r)
  {
    hide Window, Join;
    var q := Query(contestId, Cutoff(freeze, now), user, problem);
    var ms := MaxSubmissionStrat(d.submissions, q);
    var st := SubtaskMaxScores(d.subtaskScores, q);
    r := Join(d, q, ms, st);
  }

  // ---- Filtering one inner query is enough ----

  function Everything(q: Query): Query {
    q.(userId := None, problemId := None)
  }

  function Restrict(r: ScoreTable, q: Query): ScoreTable {
    map k | k in r && Asked(q, k.0, k.1) :: r[k]
  }

  lemma AskedPartitions(d: ContestData, q: Query) returns (keys: set<Key>)
    ensures SubmissionAttempts(d.submissions, q) <= SubmissionAttempts(d.submissions, Everything(q))
    ensures forall a | a in SubmissionAttempts(d.submissions, Everything(q)) ::
      a in SubmissionAttempts(d.submissions, q) <==> a.key in keys
    ensures forall a | a in SubmissionAttempts(d.submissions, Everything(q)) ::
      a.key in keys <==> Asked(q, a.key.userId, a.key.problemId)
  {
    var all := SubmissionAttempts(d.submissions, Everything(q));
    keys := set a | a in all && Asked(q, a.key.userId, a.key.problemId) :: a.key;
    forall a | a in all ensures a in SubmissionAttempts(d.submissions, q) <==> a.key in keys {
    }
  }

  /** The same windows where it matters give the matching rows of the joined table. */
  lemma JoinRestricts(d: ContestData, q: Query, ms: map<Key, Attempt>, all: map<Key, Attempt>, st: map<Key, Attempt>)
    requires forall u, p | Asked(q, u, p) :: Key(u, p, None) in ms <==> Key(u, p, None) in all
    requires forall k | k in ms && k in all :: ms[k] == all[k]
    ensures Join(d, q, ms, st) == Restrict(Join(d, Everything(q), all, st), q)
  {
    hide Asked, Scaled, SubtasksOf, SubtaskSum, SubtaskLatest, Registered, ProblemsOf;
    forall u, p | Asked(q, u, p) && p in d.problems
      ensures MaxScore(d.problems[p], ms, st, u, p) == MaxScore(d.problems[p], all, st, u, p)
    {
    }
    assert forall u, p :: Asked(Everything(q), u, p) by { AskedEverything(q); }
    var a, b := Join(d, q, ms, st), Restrict(Join(d, Everything(q), all, st), q);
    forall k ensures k in a <==> k in b {
      var (u, p) := k;
    }
  }

  lemma AskedEverything(q: Query)
    ensures forall u, p :: Asked(Everything(q), u, p)
  {
  }

  /**
    Pushing the filter into only one of the inner queries loses nothing: the results of the
    filtered query are exactly the matching rows of the results of the whole one.
  */
  lemma PushdownIsSound(d: ContestData, q: Query, r: ScoreTable)
    ensures Gives(d, q, r) <==> exists whole :: Gives(d, Everything(q), whole) && r == Restrict(whole, q)
  {
    hide Window, Join, Restrict, Asked;
    assert SubtaskAttempts(d.subtaskScores, Everything(q)) == SubtaskAttempts(d.subtaskScores, q) by {
      SameSubtasks(d.subtaskScores, q);
    }
    if Gives(d, q, r) {
      var ms, st :| Window(SubmissionAttempts(d.submissions, q), ms)
        && Window(SubtaskAttempts(d.subtaskScores, q), st) && r == Join(d, q, ms, st);
      PushdownLosesNothing(d, q, ms, st);
    }
    if exists whole :: Gives(d, Everything(q), whole) && r == Restrict(whole, q) {
      var whole :| Gives(d, Everything(q), whole) && r == Restrict(whole, q);
      var all, st :| Window(SubmissionAttempts(d.submissions, Everything(q)), all)
        && Window(SubtaskAttempts(d.subtaskScores, q), st) && whole == Join(d, Everything(q), all, st);
      PushdownAddsNothing(d, q, all, st);
    }
  }

  lemma SameSubtasks(rows: seq<SubtaskScore>, q: Query)
    ensures SubtaskAttempts(rows, Everything(q)) == SubtaskAttempts(rows, q)
  {
    assert forall r :: KeepsSubtask(Everything(q), r) <==> KeepsSubtask(q, r);
  }

  lemma PushdownLosesNothing(d: ContestData, q: Query, ms: map<Key, Attempt>, st: map<Key, Attempt>)
    requires Window(SubmissionAttempts(d.submissions, q), ms)
    requires Window(SubtaskAttempts(d.subtaskScores, Everything(q)), st)
    ensures exists whole :: Gives(d, Everything(q), whole) && Join(d, q, ms, st) == Restrict(whole, q)
  {
    hide Join, Restrict, Asked;
    var keys := AskedPartitions(d, q);
    var some, whole := SubmissionAttempts(d.submissions, q), SubmissionAttempts(d.submissions, Everything(q));
    var all := WindowExtends(whole, some, keys, ms);
    forall u, p | Asked(q, u, p) ensures Key(u, p, None) in ms <==> Key(u, p, None) in all {
      var k := Key(u, p, None);
      if k in all {
        assert IsFirst(whole, k, all[k]);
      }
    }
    JoinRestricts(d, q, ms, all, st);
    assert Gives(d, Everything(q), Join(d, Everything(q), all, st));
  }

  lemma PushdownAddsNothing(d: ContestData, q: Query, all: map<Key, Attempt>, st: map<Key, Attempt>)
    requires Window(SubmissionAttempts(d.submissions, Everything(q)), all)
    requires Window(SubtaskAttempts(d.subtaskScores, q), st)
    ensures Gives(d, q, Restrict(Join(d, Everything(q), all, st), q))
  {
    hide Join, Restrict, Asked;
    var keys := AskedPartitions(d, q);
    var some, whole := SubmissionAttempts(d.submissions, q), SubmissionAttempts(d.submissions, Everything(q));
    WindowRestricts(whole, some, keys, all);
    var ms := map k | k in all && k in keys :: all[k];
    forall u, p | Asked(q, u, p) ensures Key(u, p, None) in ms <==> Key(u, p, None) in all {
      var k := Key(u, p, None);
      if k in all {
        assert IsFirst(whole, k, all[k]);
      }
    }
    JoinRestricts(d, q, ms, all, st);
  }
}
