/** Totals, the time of the last relevant submission, and the ranked board. */
module ContestBoard {
  import opened Common
  import opened RealSums
  import opened ContestScoring

  datatype Entry = Entry(userId: int, total: real, lastTime: Option<int>)

  // ---- Totals ----

  /** Only problems with a positive score count. */
  function Positive(r: ScoreTable, u: int, ps: set<int>): set<int> {
    set p | p in ps && (u, p) in r && r[(u, p)].score > 0.0
  }

  function PositiveScores(r: ScoreTable, u: int, ps: set<int>): map<int, real> {
    map p | p in Positive(r, u, ps) :: r[(u, p)].score
  }

  function PositiveTimes(r: ScoreTable, u: int, ps: set<int>): map<int, int> {
    map p | p in Positive(r, u, ps) && r[(u, p)].minTime.Some? :: r[(u, p)].minTime.value
  }

  /** The sum of the positive scores, 0 without any. */
  function Total(r: ScoreTable, u: int, ps: set<int>): real {
    Sum(Positive(r, u, ps), PositiveScores(r, u, ps))
  }

  /** The latest time of a positive score, none without one. */
  function LastTime(r: ScoreTable, u: int, ps: set<int>): Option<int> {
    var times := PositiveTimes(r, u, ps);
    if times.Keys == {} then None else Some(Latest(times.Keys, times))
  }

  function EntryOf(r: ScoreTable, u: int, ps: set<int>): Entry {
    Entry(u, Total(r, u, ps), LastTime(r, u, ps))
  }

  /** Those registered for the contest, without those it gives access to unless they are asked for. */
  function Contestants(d: ContestData, c: int, includeEditors: bool): set<int> {
    set u | u in Registered(d, c) && (includeEditors || (c, u) !in d.access)
  }

  function EntriesOf(r: ScoreTable, us: set<int>, ps: set<int>): set<Entry> {
    set u | u in us :: EntryOf(r, u, ps)
  }

  function Entries(d: ContestData, c: int, includeEditors: bool, r: ScoreTable): set<Entry> {
    EntriesOf(r, Contestants(d, c, includeEditors), ProblemsOf(d, c))
  }

  // ---- Ranking ----

  /** Having no last time comes after any. */
  predicate Earlier(a: Option<int>, b: Option<int>) {
    a.Some? && (b.None? || a.value < b.value)
  }

  /** The higher total first, then the earlier last time, then the smaller user id. */
  predicate RanksBefore(a: Entry, b: Entry) {
    a.total > b.total || (a.total == b.total &&
      (Earlier(a.lastTime, b.lastTime) || (a.lastTime == b.lastTime && a.userId < b.userId)))
  }

  ghost predicate Ranked(s: seq<Entry>) {
    forall i, j | 0 <= i < j < |s| :: RanksBefore(s[i], s[j])
  }

  ghost predicate IsBoard(s: seq<Entry>, all: set<Entry>) {
    Ranked(s) && (forall i | 0 <= i < |s| :: s[i] in all) && (forall e | e in all :: e in s)
  }

  function Insert(s: seq<Entry>, e: Entry): seq<Entry> {
    if s == [] || RanksBefore(e, s[0]) then [e] + s else [s[0]] + Insert(s[1..], e)
  }

  lemma {:induction false} InsertHolds(s: seq<Entry>, e: Entry, x: Entry)
    ensures x in Insert(s, e) <==> x == e || x in s
  {
    hide RanksBefore;
    if s != [] && !RanksBefore(e, s[0]) {
      InsertHolds(s[1..], e, x);
      assert s == [s[0]] + s[1..];
    }
  }

  /** The key is total: of two different contestants one ranks before the other. */
  lemma RankingIsTotal(a: Entry, b: Entry)
    requires a.userId != b.userId
    ensures RanksBefore(a, b) <==> !RanksBefore(b, a)
  {
  }

  lemma RankingIsTransitive(a: Entry, b: Entry, c: Entry)
    requires RanksBefore(a, b) && RanksBefore(b, c)
    ensures RanksBefore(a, c)
  {
  }

  lemma {:induction false} InsertKeepsRank(s: seq<Entry>, e: Entry)
    requires Ranked(s) && forall i | 0 <= i < |s| :: s[i].userId != e.userId
    ensures Ranked(Insert(s, e))
  {
    hide RanksBefore;
    var r := Insert(s, e);
    if s != [] {
      if RanksBefore(e, s[0]) {
        forall j | 0 < j < |r| ensures RanksBefore(e, r[j]) {
          if j > 1 {
            RankingIsTransitive(e, s[0], s[j - 1]);
          }
        }
      } else {
        InsertKeepsRank(s[1..], e);
        RankingIsTotal(s[0], e);
        forall j | 0 < j < |r| ensures RanksBefore(s[0], r[j]) {
          InsertHolds(s[1..], e, r[j]);
        }
      }
    }
  }

  lemma InsertKeepsBoard(board: seq<Entry>, r: ScoreTable, done: set<int>, u: int, ps: set<int>)
    requires IsBoard(board, EntriesOf(r, done, ps)) && u !in done
    ensures IsBoard(Insert(board, EntryOf(r, u, ps)), EntriesOf(r, done + {u}, ps))
  {
    hide Ranked, Total, LastTime, Insert;
    var e := EntryOf(r, u, ps);
    assert EntriesOf(r, done + {u}, ps) == EntriesOf(r, done, ps) + {e};
    forall i | 0 <= i < |board| ensures board[i].userId != u {
      assert board[i] in EntriesOf(r, done, ps);
    }
    InsertKeepsRank(board, e);
    var more := Insert(board, e);
    forall x | x in EntriesOf(r, done, ps) + {e} ensures x in more {
      InsertHolds(board, e, x);
    }
    forall i | 0 <= i < |more| ensures more[i] in EntriesOf(r, done, ps) + {e} {
      InsertHolds(board, e, more[i]);
    }
  }

  /** Higher totals come first; among equal ones earlier last times, none at all last; then smaller user ids. */
  lemma BoardInOrder(board: seq<Entry>, all: set<Entry>)
    requires IsBoard(board, all)
    ensures forall i, j | 0 <= i < j < |board| :: board[i].total >= board[j].total
    ensures forall i, j | 0 <= i < j < |board| && board[i].total == board[j].total ::
      match (board[i].lastTime, board[j].lastTime)
      case (Some(a), Some(b)) => a <= b
      case (None, Some(_)) => false
      case _ => true
    ensures forall i, j | 0 <= i < j < |board| ::
      board[i].total == board[j].total && board[i].lastTime == board[j].lastTime ==> board[i].userId < board[j].userId
  {
    hide RanksBefore;
    forall i, j | 0 <= i < j < |board| ensures RanksBefore(board[i], board[j]) {
    }
    forall a, b | RanksBefore(a, b)
      ensures a.total >= b.total
      ensures a.total == b.total && a.lastTime.None? ==> b.lastTime.None?
      ensures a.total == b.total && a.lastTime.Some? && b.lastTime.Some? ==> a.lastTime.value <= b.lastTime.value
      ensures a.total == b.total && a.lastTime == b.lastTime ==> a.userId < b.userId
    {
      RankedBefore(a, b);
    }
  }

  lemma RankedBefore(a: Entry, b: Entry)
    requires RanksBefore(a, b)
    ensures a.total >= b.total
    ensures a.total == b.total && a.lastTime.None? ==> b.lastTime.None?
    ensures a.total == b.total && a.lastTime.Some? && b.lastTime.Some? ==> a.lastTime.value <= b.lastTime.value
    ensures a.total == b.total && a.lastTime == b.lastTime ==> a.userId < b.userId
  {
  }

  method Rank(r: ScoreTable, us: set<int>, ps: set<int>) returns (board: seq<Entry>)
    ensures IsBoard(board, EntriesOf(r, us, ps))
    ensures forall i, j | 0 <= i < j < |board| :: board[i].total >= board[j].total
    ensures forall i, j | 0 <= i < j < |board| && board[i].total == board[j].total ::
      match (board[i].lastTime, board[j].lastTime)
      case (Some(a), Some(b)) => a <= b
      case (None, Some(_)) => false
      case _ => true
    ensures forall i, j | 0 <= i < j < |board| ::
      board[i].total == board[j].total && board[i].lastTime == board[j].lastTime ==> board[i].userId < board[j].userId
  {
    hide IsBoard, EntryOf, EntriesOf, Insert;
    var todo := us;
    board := [];
    EmptyBoard(r, ps);
    while todo != {}
      invariant todo <= us && IsBoard(board, EntriesOf(r, us - todo, ps))
      decreases |todo|
    {
      var u := PickAny(todo);
      InsertKeepsBoard(board, r, us - todo, u, ps);
      assert us - todo + {u} == us - (todo - {u});
      board, todo := Insert(board, EntryOf(r, u, ps)), todo - {u};
    }
    assert us - todo == us;
    BoardInOrder(board, EntriesOf(r, us, ps));
  }

  /** The rows of contestTopView in the order of ContestClassicLeaderboard, and the scores they come from. */
  method Leaderboard(d: ContestData, c: int, freeze: Option<int>, now: int, includeEditors: bool)
    returns (board: seq<Entry>, r: ScoreTable)
    ensures Gives(d, Query(c, Cutoff(freeze, now), None, None), r)
    ensures IsBoard(board, Entries(d, c, includeEditors, r))
    ensures forall i, j | 0 <= i < j < |board| :: board[i].total >= board[j].total
    ensures forall i, j | 0 <= i < j < |board| && board[i].total == board[j].total ::
      match (board[i].lastTime, board[j].lastTime)
      case (Some(a), Some(b)) => a <= b
      case (None, Some(_)) => false
      case _ => true
    ensures forall i, j | 0 <= i < j < |board| ::
      board[i].total == board[j].total && board[i].lastTime == board[j].lastTime ==> board[i].userId < board[j].userId
  {
    r := ContestMaxScores(d, c, freeze, now, None, None);
    board := Rank(r, Contestants(d, c, includeEditors), ProblemsOf(d, c));
  }

  lemma EmptyBoard(r: ScoreTable, ps: set<int>)
    ensures forall us: set<int> | us == {} :: IsBoard([], EntriesOf(r, us, ps))
  {
  }

  // ---- What a board says, cell by cell ----

  /** What each problem of the contest adds to a total. */
  function Earned(d: ContestData, c: int, r: ScoreTable, user: int): map<int, real> {
    map p | p in d.problems && (c, p) in d.contestProblems && (user, p) in r
      :: if r[(user, p)].score > 0.0 then r[(user, p)].score else 0.0
  }

  /** A problem of the contest for which the contestant's score is positive, first reached at that time. */
  ghost predicate PositiveAt(d: ContestData, c: int, r: ScoreTable, user: int, t: int) {
    exists p :: p in d.problems && (c, p) in d.contestProblems && (user, p) in r
      && r[(user, p)].score > 0.0 && r[(user, p)].minTime == Some(t)
  }

  lemma TotalReads(d: ContestData, c: int, r: ScoreTable, user: int)
    ensures
      var earned := Earned(d, c, r, user);
      Total(r, user, ProblemsOf(d, c)) == Sum(earned.Keys, earned)
  {
    hide Sum;
    var ps := ProblemsOf(d, c);
    var earned := Earned(d, c, r, user);
    forall p ensures p in ps <==> p in d.problems && (c, p) in d.contestProblems {
      InProblemsOf(d, c, p);
    }
    SumSkipsZeros(Positive(r, user, ps), PositiveScores(r, user, ps), earned.Keys, earned);
  }

  lemma InProblemsOf(d: ContestData, c: int, p: int)
    ensures p in ProblemsOf(d, c) <==> p in d.problems && (c, p) in d.contestProblems
  {
    if p in d.problems && (c, p) in d.contestProblems {
      assert (c, p).0 == c && (c, p).1 in d.problems;
    }
  }

  lemma LastTimeReads(d: ContestData, c: int, r: ScoreTable, user: int)
    ensures
      match LastTime(r, user, ProblemsOf(d, c))
      case None => forall t :: !PositiveAt(d, c, r, user, t)
      case Some(last) => PositiveAt(d, c, r, user, last) && forall t | PositiveAt(d, c, r, user, t) :: t <= last
  {
    hide Latest;
    var ps := ProblemsOf(d, c);
    var times := PositiveTimes(r, user, ps);
    forall t | PositiveAt(d, c, r, user, t) ensures exists p :: p in times && times[p] == t {
      var p :| p in d.problems && (c, p) in d.contestProblems && (user, p) in r
        && r[(user, p)].score > 0.0 && r[(user, p)].minTime == Some(t);
      InProblemsOf(d, c, p);
      assert p in times && times[p] == t;
    }
    if times.Keys != {} {
      var p := LatestIsMax(times.Keys, times);
      InProblemsOf(d, c, p);
      assert PositiveAt(d, c, r, user, times[p]);
    }
  }

  /**
    Everyone registered for the contest appears exactly once, without those it gives access to unless
    they are asked for, and nobody else does: with the sum of their positive scores on its problems,
    and the latest of the times at which these were reached.
  */
  lemma EachContestantOnce(d: ContestData, c: int, includeEditors: bool, r: ScoreTable, board: seq<Entry>)
    requires IsBoard(board, Entries(d, c, includeEditors, r))
    ensures forall i | 0 <= i < |board| ::
      (c, board[i].userId) in d.registrations && (includeEditors || (c, board[i].userId) !in d.access)
    ensures forall u | (c, u) in d.registrations && (includeEditors || (c, u) !in d.access) ::
      exists i :: 0 <= i < |board| && board[i].userId == u
    ensures forall i, j | 0 <= i < j < |board| :: board[i].userId != board[j].userId
    ensures forall i | 0 <= i < |board| ::
      var earned := Earned(d, c, r, board[i].userId);
      board[i].total == Sum(earned.Keys, earned)
    ensures forall i | 0 <= i < |board| ::
      match board[i].lastTime
      case None => forall t :: !PositiveAt(d, c, r, board[i].userId, t)
      case Some(last) =>
        && PositiveAt(d, c, r, board[i].userId, last)
        && forall t | PositiveAt(d, c, r, board[i].userId, t) :: t <= last
  {
    hide Total, LastTime, Sum, Earned, PositiveAt, ProblemsOf;
    var us, ps := Contestants(d, c, includeEditors), ProblemsOf(d, c);
    forall i | 0 <= i < |board| ensures board[i].userId in us && board[i] == EntryOf(r, board[i].userId, ps) {
      assert board[i] in Entries(d, c, includeEditors, r);
    }
    forall u | (c, u) in d.registrations && (includeEditors || (c, u) !in d.access)
      ensures exists i :: 0 <= i < |board| && board[i].userId == u
    {
      assert (c, u).0 == c && u in us;
      var e := EntryOf(r, u, ps);
      assert e in board;
      var i :| 0 <= i < |board| && board[i] == e;
      assert board[i].userId == u;
    }
    forall i, j | 0 <= i < j < |board| ensures board[i].userId != board[j].userId {
      assert RanksBefore(board[i], board[j]);
    }
    forall i | 0 <= i < |board|
      ensures
        var earned := Earned(d, c, r, board[i].userId);
        board[i].total == Sum(earned.Keys, earned)
      ensures
        match board[i].lastTime
        case None => forall t :: !PositiveAt(d, c, r, board[i].userId, t)
        case Some(last) =>
          && PositiveAt(d, c, r, board[i].userId, last)
          && forall t | PositiveAt(d, c, r, board[i].userId, t) :: t <= last
    {
      TotalReads(d, c, r, board[i].userId);
      LastTimeReads(d, c, r, board[i].userId);
    }
  }

  /** Two boards of the same entries are the same board. */
  lemma {:induction false} RankingIsUnique(s: seq<Entry>, t: seq<Entry>, all: set<Entry>)
    requires IsBoard(s, all) && IsBoard(t, all)
    ensures s == t
    decreases |s|
  {
    hide RanksBefore;
    BoardSize(s, all);
    BoardSize(t, all);
    if s != [] {
      assert s[0] in all && s[0] in t;
      assert t[0] in all && t[0] in s;
      SameHead(s, t);
      var rest := all - {s[0]};
      TailIsBoard(s, all);
      TailIsBoard(t, all);
      RankingIsUnique(s[1..], t[1..], rest);
      assert s == [s[0]] + s[1..] && t == [t[0]] + t[1..];
    }
  }

  lemma NotBeforeItself(a: Entry, b: Entry)
    requires RanksBefore(a, b)
    ensures a != b && !RanksBefore(b, a)
  {
  }

  lemma BoardSize(s: seq<Entry>, all: set<Entry>)
    requires IsBoard(s, all)
    ensures |s| == |all|
  {
    hide RanksBefore;
    forall i, j | 0 <= i < j < |s| ensures s[i] != s[j] {
      NotBeforeItself(s[i], s[j]);
    }
    DistinctCardinality(s);
    assert (set x | x in s) == all;
  }

  lemma SameHead(s: seq<Entry>, t: seq<Entry>)
    requires Ranked(s) && Ranked(t) && s != [] && t != [] && s[0] in t && t[0] in s
    ensures s[0] == t[0]
  {
    hide RanksBefore;
    if s[0] != t[0] {
      var i :| 0 <= i < |t| && t[i] == s[0];
      var j :| 0 <= j < |s| && s[j] == t[0];
      assert RanksBefore(t[0], t[i]) && RanksBefore(s[0], s[j]);
      NotBeforeItself(t[0], t[i]);
    }
  }

  lemma TailIsBoard(s: seq<Entry>, all: set<Entry>)
    requires IsBoard(s, all) && s != []
    ensures IsBoard(s[1..], all - {s[0]})
  {
    hide RanksBefore;
    forall i | 0 < i < |s| ensures s[i] != s[0] {
      NotBeforeItself(s[0], s[i]);
    }
    forall e | e in all - {s[0]} ensures e in s[1..] {
      assert e in s;
      var i :| 0 <= i < |s| && s[i] == e;
      assert s[1..][i - 1] == e;
    }
    forall i | 0 <= i < |s| - 1 ensures s[1..][i] in all - {s[0]} {
      assert s[1..][i] == s[i + 1];
    }
  }
}
