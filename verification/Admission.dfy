/**
  Which submissions are let in: the limits per user and per minute, the quota and the cooldown
  of a contest. Every check is made against the stored rows before the new row goes in.
*/
module Admission {
  import opened Common
  import opened SubmissionStatus
  import opened SubmissionTable

  /** A minute, in the resolution of the stored times. */
  const MINUTE := 60_000_000

  datatype Row = Row(userId: int, problemId: int, contestId: Option<int>, createdAt: int, status: Status)

  type Rows = map<int, Row>

  datatype Contest = Contest(maxSubs: int, cooldown: int, testers: set<int>)

  /** The flags, 5, 20 and 5 by default, and the contests; 0 turns a limit off. */
  datatype Settings = Settings(waitingLimit: int, totalLimit: int, unverifiedLimit: int, contests: map<int, Contest>)

  /** A call, with the answers of the permission and language checks it makes on the way. */
  datatype Request = Request(
    author: Option<int>, verified: bool, problem: Option<int>, codeLength: nat, sourceSize: int,
    problemVisible: bool, problemFullyVisible: bool, bypass: bool,
    contest: Option<int>, contestVisible: bool, canSubmitInContest: bool, problemInContest: bool,
    languageSupported: bool)

  /** The clock when recent submissions are counted, when the cooldown is checked, and when the row is stored. */
  datatype Times = Times(counted: int, cooled: int, stored: int)

  datatype Refusal =
    | NoAuthor | NoProblem | CodeTooLong | ProblemHidden
    | TooManyWaiting | TooManyRecent | TooManyUnverified
    | NoContest | CannotSubmit | NotInContest | QuotaReached | TooFast | NotFullyVisible
    | EmptyCode | LanguageNotSupported

  // ---- What is counted ----

  function Waiters(rows: Rows, user: int): set<int> {
    set id | id in rows && rows[id].userId == user && Unfinished(rows[id].status)
  }

  function Since(rows: Rows, user: int, since: int): set<int> {
    set id | id in rows && rows[id].userId == user && rows[id].createdAt > since
  }

  function Sent(rows: Rows, contest: int, problem: int, user: int): set<int> {
    set id | id in rows && rows[id].contestId == Some(contest) && rows[id].problemId == problem
             && rows[id].userId == user
  }

  function InContest(rows: Rows, contest: int, user: int): set<int> {
    set id | id in rows && rows[id].contestId == Some(contest) && rows[id].userId == user
  }

  /** The latest creation time among the ids, none when there are none. */
  ghost predicate IsLatest(rows: Rows, ids: set<int>, t: Option<int>) {
    && ids <= rows.Keys
    && (t.None? <==> ids == {})
    && (t.Some? ==>
          (exists id :: id in ids && rows[id].createdAt == t.value)
          && forall id | id in ids :: rows[id].createdAt <= t.value)
  }

  // ---- The decision ----

  function UserRefusal(r: Request, user: int, rows: Rows, s: Settings, t: Times): Option<Refusal> {
    if r.bypass then None
    else if s.waitingLimit > 0 && |Waiters(rows, user)| >= s.waitingLimit then Some(TooManyWaiting)
    else
      var recent := |Since(rows, user, t.counted - MINUTE)|;
      if s.totalLimit > 0 && recent > s.totalLimit then Some(TooManyRecent)
      else if !r.verified && s.unverifiedLimit > 0 && recent > s.unverifiedLimit then Some(TooManyUnverified)
      else None
  }

  /** RemainingSubmissionCount: how many more may be sent, and whether that is limited at all. */
  function Remaining(rows: Rows, c: Contest, contest: int, problem: int, user: int): (int, bool) {
    if c.maxSubs < 0 then (1, false) else (c.maxSubs - |Sent(rows, contest, problem, user)|, true)
  }

  predicate CoolingDown(c: Contest, user: int, last: Option<int>, now: int) {
    user !in c.testers && c.cooldown > 0 && last.Some? && c.cooldown - (now - last.value) > 0
  }

  function ContestRefusal(r: Request, user: int, problem: int, contest: int, rows: Rows, s: Settings,
      last: Option<int>, t: Times): Option<Refusal> {
    if contest !in s.contests || !r.contestVisible then Some(NoContest)
    else if !r.canSubmitInContest then Some(CannotSubmit)
    else if !r.problemInContest then Some(NotInContest)
    else if Remaining(rows, s.contests[contest], contest, problem, user).0 <= 0 then Some(QuotaReached)
    else if CoolingDown(s.contests[contest], user, last, t.cooled) then Some(TooFast)
    else None
  }

  /** The checks of CreateSubmission in order; `last` is the time of the author's latest row in the contest. */
  function Refused(r: Request, rows: Rows, s: Settings, last: Option<int>, t: Times): Option<Refusal> {
    if r.author.None? then Some(NoAuthor)
    else if r.problem.None? then Some(NoProblem)
    else if r.codeLength > r.sourceSize then Some(CodeTooLong)
    else if !r.problemVisible then Some(ProblemHidden)
    else
      var user, problem := r.author.value, r.problem.value;
      var byUser := UserRefusal(r, user, rows, s, t);
      if byUser.Some? then byUser
      else
        var byContest :=
          if r.contest.Some? then ContestRefusal(r, user, problem, r.contest.value, rows, s, last, t)
          else if !r.problemFullyVisible then Some(NotFullyVisible)
          else None;
        if byContest.Some? then byContest
        else if r.codeLength == 0 then Some(EmptyCode)
        else if !r.languageSupported then Some(LanguageNotSupported)
        else None
  }

  // ---- What the decision is, said of the stored rows ----

  /** The user has fewer unfinished submissions than the limit, if there is one. */
  ghost predicate FewUnfinished(rows: Rows, user: int, limit: int) {
    var unfinished := set id | id in rows && rows[id].userId == user
                        && (rows[id].status == Creating || rows[id].status == Waiting || rows[id].status == Working);
    limit > 0 ==> |unfinished| < limit
  }

  /** The user sent no more than the limit in the last minute, if there is one. */
  ghost predicate FewRecent(rows: Rows, user: int, now: int, limit: int) {
    var recent := set id | id in rows && rows[id].userId == user && now - rows[id].createdAt < 60_000_000;
    limit > 0 ==> |recent| <= limit
  }

  ghost predicate QuotaLeft(rows: Rows, c: int, contest: Contest, problem: int, user: int) {
    var sent := set id | id in rows && rows[id].contestId == Some(c) && rows[id].problemId == problem
                  && rows[id].userId == user;
    contest.maxSubs >= 0 ==> |sent| < contest.maxSubs
  }

  predicate PastCooldown(contest: Contest, user: int, last: Option<int>, now: int) {
    user in contest.testers || contest.cooldown <= 0 || last.None? || now - last.value >= contest.cooldown
  }

  /** The limits that a call may bypass. */
  ghost predicate WithinUserLimits(r: Request, user: int, rows: Rows, s: Settings, t: Times) {
    && FewUnfinished(rows, user, s.waitingLimit) && FewRecent(rows, user, t.counted, s.totalLimit)
    && (r.verified || FewRecent(rows, user, t.counted, s.unverifiedLimit))
  }

  lemma CountsAre(rows: Rows, user: int, now: int, limit: int)
    ensures FewUnfinished(rows, user, limit) <==> limit <= 0 || |Waiters(rows, user)| < limit
    ensures FewRecent(rows, user, now, limit) <==> limit <= 0 || |Since(rows, user, now - MINUTE)| <= limit
  {
    var unfinished := set id | id in rows && rows[id].userId == user
                        && (rows[id].status == Creating || rows[id].status == Waiting || rows[id].status == Working);
    assert forall id :: id in Waiters(rows, user) <==> id in unfinished;
    assert Waiters(rows, user) == unfinished;
    var recent := set id | id in rows && rows[id].userId == user && now - rows[id].createdAt < 60_000_000;
    assert Since(rows, user, now - MINUTE) == recent;
  }

  lemma UserRefusalMeans(r: Request, user: int, rows: Rows, s: Settings, t: Times)
    ensures
      var waiting, recent := FewUnfinished(rows, user, s.waitingLimit), FewRecent(rows, user, t.counted, s.totalLimit);
      match UserRefusal(r, user, rows, s, t)
      case None => r.bypass || WithinUserLimits(r, user, rows, s, t)
      case Some(TooManyWaiting) => !r.bypass && !waiting
      case Some(TooManyRecent) => !r.bypass && waiting && !recent
      case Some(TooManyUnverified) =>
        !r.bypass && waiting && recent && !r.verified && !FewRecent(rows, user, t.counted, s.unverifiedLimit)
      case _ => false
  {
    hide FewUnfinished, FewRecent, Waiters, Since;
    CountsAre(rows, user, t.counted, s.waitingLimit);
    CountsAre(rows, user, t.counted, s.totalLimit);
    CountsAre(rows, user, t.counted, s.unverifiedLimit);
  }

  lemma ContestRefusalMeans(r: Request, user: int, problem: int, c: int, rows: Rows, s: Settings, last: Option<int>,
      t: Times)
    ensures
      var open := c in s.contests && r.contestVisible;
      match ContestRefusal(r, user, problem, c, rows, s, last, t)
      case None =>
        && open && r.canSubmitInContest && r.problemInContest && QuotaLeft(rows, c, s.contests[c], problem, user)
        && PastCooldown(s.contests[c], user, last, t.cooled)
      case Some(NoContest) => !open
      case Some(CannotSubmit) => open && !r.canSubmitInContest
      case Some(NotInContest) => open && r.canSubmitInContest && !r.problemInContest
      case Some(QuotaReached) =>
        open && r.canSubmitInContest && r.problemInContest && !QuotaLeft(rows, c, s.contests[c], problem, user)
      case Some(TooFast) =>
        && open && r.canSubmitInContest && r.problemInContest && QuotaLeft(rows, c, s.contests[c], problem, user)
        && !PastCooldown(s.contests[c], user, last, t.cooled)
      case _ => false
  {
    assert Sent(rows, c, problem, user) ==
      set id | id in rows && rows[id].contestId == Some(c) && rows[id].problemId == problem && rows[id].userId == user;
  }

  /**
    The refusal that is given, if any, is that of the first check that fails: an author, a problem, code
    that is not too long and a visible problem; the limits of the user, unless they are bypassed; those
    of the contest, or outside contests a fully visible problem; code at all, in a supported language.
  */
  lemma FirstCheckThatFails(r: Request, rows: Rows, s: Settings, last: Option<int>, t: Times)
    ensures
      var refusal := Refused(r, rows, s, last, t);
      if r.author.None? then refusal == Some(NoAuthor)
      else if r.problem.None? then refusal == Some(NoProblem)
      else if r.codeLength > r.sourceSize then refusal == Some(CodeTooLong)
      else if !r.problemVisible then refusal == Some(ProblemHidden)
      else
        var (user, problem) := (r.author.value, r.problem.value);
        if !r.bypass && !FewUnfinished(rows, user, s.waitingLimit) then refusal == Some(TooManyWaiting)
        else if !r.bypass && !FewRecent(rows, user, t.counted, s.totalLimit) then refusal == Some(TooManyRecent)
        else if !r.bypass && !r.verified && !FewRecent(rows, user, t.counted, s.unverifiedLimit) then
          refusal == Some(TooManyUnverified)
        else if r.contest.None? && !r.problemFullyVisible then refusal == Some(NotFullyVisible)
        else if r.contest.Some? && !(r.contest.value in s.contests && r.contestVisible) then refusal == Some(NoContest)
        else if r.contest.Some? && !r.canSubmitInContest then refusal == Some(CannotSubmit)
        else if r.contest.Some? && !r.problemInContest then refusal == Some(NotInContest)
        else if r.contest.Some? && !QuotaLeft(rows, r.contest.value, s.contests[r.contest.value], problem, user) then
          refusal == Some(QuotaReached)
        else if r.contest.Some? && !PastCooldown(s.contests[r.contest.value], user, last, t.cooled) then
          refusal == Some(TooFast)
        else if r.codeLength == 0 then refusal == Some(EmptyCode)
        else if !r.languageSupported then refusal == Some(LanguageNotSupported)
        else refusal == None
  {
    hide UserRefusal, ContestRefusal, FewUnfinished, FewRecent, QuotaLeft, PastCooldown;
    if r.author.Some? && r.problem.Some? {
      UserRefusalMeans(r, r.author.value, rows, s, t);
      if r.contest.Some? {
        ContestRefusalMeans(r, r.author.value, r.problem.value, r.contest.value, rows, s, last, t);
      }
    }
  }

  // ---- The stored rows over time ----

  datatype State = State(rows: Rows, nextId: int, clock: int)

  const EMPTY := State(map[], 1, 0)

  datatype Event =
    | Create(request: Request, last: Option<int>, times: Times)
    | Delete(id: int)
    | Kick(contest: int, user: int)
    | Mark(id: int, status: Status)

  function NewRow(r: Request, t: Times): Row
    requires r.author.Some? && r.problem.Some?
  {
    Row(r.author.value, r.problem.value, r.contest, t.stored, Creating)
  }

  /** The kick takes a user's submissions out of the contest. */
  function Kicked(rows: Rows, contest: int, user: int): Rows {
    map id | id in rows ::
      if rows[id].contestId == Some(contest) && rows[id].userId == user then rows[id].(contestId := None) else rows[id]
  }

  function Step(s: Settings, st: State, e: Event): State {
    match e
    case Create(r, last, t) =>
      if Refused(r, st.rows, s, last, t).Some? then st.(clock := t.stored)
      else State(st.rows[st.nextId := NewRow(r, t)], st.nextId + 1, t.stored)
    case Delete(id) => st.(rows := st.rows - {id})
    case Kick(contest, user) => st.(rows := Kicked(st.rows, contest, user))
    case Mark(id, status) => if id in st.rows then st.(rows := st.rows[id := st.rows[id].(status := status)]) else st
  }

  /** Calls come one after the other, the clock never goes back, and the latest time was read from the rows. */
  ghost predicate Possible(st: State, e: Event) {
    e.Create? ==>
      && st.clock <= e.times.counted <= e.times.cooled <= e.times.stored
      && (e.request.author.Some? && e.request.contest.Some? ==>
            IsLatest(st.rows, InContest(st.rows, e.request.contest.value, e.request.author.value), e.last))
  }

  ghost predicate Run(s: Settings, st: State, events: seq<Event>, end: State)
    decreases |events|
  {
    if events == [] then end == st
    else Possible(st, events[0]) && Run(s, Step(s, st, events[0]), events[1..], end)
  }

  ghost predicate Sound(st: State) {
    forall id | id in st.rows :: id < st.nextId && st.rows[id].createdAt <= st.clock
  }

  lemma StepKeepsSound(s: Settings, st: State, e: Event)
    requires Sound(st) && Possible(st, e)
    ensures Sound(Step(s, st, e))
  {
    hide Refused;
  }

  // ---- At most limit + 1 in any minute ----

  /** The user's rows created in the minute after `a`: later than `a` and no later than `a` + 1 minute. */
  function InMinute(rows: Rows, user: int, a: int): set<int> {
    set id | id in rows && rows[id].userId == user && a < rows[id].createdAt <= a + MINUTE
  }

  ghost predicate WindowsFit(rows: Rows, user: int, limit: int) {
    forall a :: |InMinute(rows, user, a)| <= limit + 1
  }

  /** The call is held to this limit: the general one, or the one for users with an unverified address. */
  predicate HeldTo(s: Settings, r: Request, limit: int) {
    !r.bypass && (0 < s.totalLimit == limit || (!r.verified && 0 < s.unverifiedLimit == limit))
  }

  lemma UserAdmitted(r: Request, rows: Rows, s: Settings, last: Option<int>, t: Times)
    requires Refused(r, rows, s, last, t).None?
    ensures r.author.Some? && r.problem.Some? && UserRefusal(r, r.author.value, rows, s, t).None?
    ensures r.contest.Some? ==>
      ContestRefusal(r, r.author.value, r.problem.value, r.contest.value, rows, s, last, t).None?
  {
    hide UserRefusal, ContestRefusal;
  }

  /** Whatever minute the new row falls into, the other rows there are among those that were counted. */
  lemma CreateKeepsWindows(s: Settings, st: State, e: Event, user: int, limit: int)
    requires Sound(st) && Possible(st, e) && WindowsFit(st.rows, user, limit)
    requires e.Create? && Refused(e.request, st.rows, s, e.last, e.times).None?
    requires e.request.author == Some(user) ==> HeldTo(s, e.request, limit)
    ensures WindowsFit(Step(s, st, e).rows, user, limit)
  {
    hide Refused, ContestRefusal;
    UserAdmitted(e.request, st.rows, s, e.last, e.times);
    var after := Step(s, st, e).rows;
    var id := st.nextId;
    forall a ensures |InMinute(after, user, a)| <= limit + 1 {
      if id in InMinute(after, user, a) {
        var counted := Since(st.rows, user, e.times.counted - MINUTE);
        assert InMinute(after, user, a) - {id} <= counted;
        SubsetCardinality(InMinute(after, user, a) - {id}, counted);
      } else {
        assert InMinute(after, user, a) == InMinute(st.rows, user, a);
      }
    }
  }

  /** The rows after anything but a new submission: fewer, or changed in other columns. */
  lemma OtherStepsAddNothing(s: Settings, st: State, e: Event, id: int)
    requires (e.Create? ==> Refused(e.request, st.rows, s, e.last, e.times).Some?) && id in Step(s, st, e).rows
    ensures id in st.rows
    ensures
      var (before, after) := (st.rows[id], Step(s, st, e).rows[id]);
      && after.userId == before.userId && after.problemId == before.problemId && after.createdAt == before.createdAt
      && (after.contestId.Some? ==> after.contestId == before.contestId)
      && (!e.Mark? ==> after.status == before.status)
  {
    hide Refused;
  }

  lemma OtherStepsKeepWindows(s: Settings, st: State, e: Event, user: int, limit: int)
    requires WindowsFit(st.rows, user, limit)
    requires e.Create? ==> Refused(e.request, st.rows, s, e.last, e.times).Some?
    ensures WindowsFit(Step(s, st, e).rows, user, limit)
  {
    hide Refused, Step;
    var after := Step(s, st, e).rows;
    forall id | id in after
      ensures id in st.rows && after[id].userId == st.rows[id].userId && after[id].createdAt == st.rows[id].createdAt
    {
      OtherStepsAddNothing(s, st, e, id);
    }
    forall a ensures |InMinute(after, user, a)| <= limit + 1 {
      SubsetCardinality(InMinute(after, user, a), InMinute(st.rows, user, a));
    }
  }

  ghost predicate AllHeldTo(s: Settings, events: seq<Event>, user: int, limit: int) {
    forall i | 0 <= i < |events| && events[i].Create? && events[i].request.author == Some(user) ::
      HeldTo(s, events[i].request, limit)
  }

  /**
    On every run in which a user's calls are held to a limit, no minute holds more than limit + 1 of
    their stored submissions.
  */
  lemma {:induction false} SlidingWindow(s: Settings, st: State, events: seq<Event>, end: State, user: int,
      limit: int)
    requires Sound(st) && WindowsFit(st.rows, user, limit)
    requires Run(s, st, events, end) && AllHeldTo(s, events, user, limit)
    ensures WindowsFit(end.rows, user, limit)
    decreases |events|
  {
    hide Refused, Step, WindowsFit, Possible, Sound, HeldTo;
    if events != [] {
      var e := events[0];
      StepKeepsSound(s, st, e);
      if e.Create? && Refused(e.request, st.rows, s, e.last, e.times).None? {
        CreateKeepsWindows(s, st, e, user, limit);
      } else {
        OtherStepsKeepWindows(s, st, e, user, limit);
      }
      assert forall i | 0 <= i < |events| - 1 :: events[1..][i] == events[i + 1];
      SlidingWindow(s, Step(s, st, e), events[1..], end, user, limit);
    }
  }

  // ---- The contest's quota ----

  ghost predicate QuotasHold(rows: Rows, s: Settings) {
    forall c, p, u | c in s.contests && s.contests[c].maxSubs >= 0 :: |Sent(rows, c, p, u)| <= s.contests[c].maxSubs
  }

  lemma QuotaOf(rows: Rows, s: Settings, c: int, p: int, u: int)
    requires QuotasHold(rows, s) && c in s.contests && s.contests[c].maxSubs >= 0
    ensures |Sent(rows, c, p, u)| <= s.contests[c].maxSubs
  {
  }

  lemma CreateKeepsQuotas(s: Settings, st: State, e: Event)
    requires Sound(st) && QuotasHold(st.rows, s)
    requires e.Create? && Refused(e.request, st.rows, s, e.last, e.times).None?
    ensures QuotasHold(Step(s, st, e).rows, s)
  {
    hide Refused, UserRefusal, QuotasHold;
    UserAdmitted(e.request, st.rows, s, e.last, e.times);
    var after := Step(s, st, e).rows;
    var id := st.nextId;
    forall c, p, u | c in s.contests && s.contests[c].maxSubs >= 0
      ensures |Sent(after, c, p, u)| <= s.contests[c].maxSubs
    {
      if id in Sent(after, c, p, u) {
        assert Sent(after, c, p, u) == Sent(st.rows, c, p, u) + {id};
      } else {
        assert Sent(after, c, p, u) == Sent(st.rows, c, p, u);
        QuotaOf(st.rows, s, c, p, u);
      }
    }
    AllQuotas(after, s);
  }

  lemma AllQuotas(rows: Rows, s: Settings)
    requires forall c, p, u | c in s.contests && s.contests[c].maxSubs >= 0 ::
      |Sent(rows, c, p, u)| <= s.contests[c].maxSubs
    ensures QuotasHold(rows, s)
  {
  }

  lemma OtherStepsKeepQuotas(s: Settings, st: State, e: Event)
    requires QuotasHold(st.rows, s)
    requires e.Create? ==> Refused(e.request, st.rows, s, e.last, e.times).Some?
    ensures QuotasHold(Step(s, st, e).rows, s)
  {
    hide Refused, Step, QuotasHold;
    var after := Step(s, st, e).rows;
    forall c, p, u | c in s.contests && s.contests[c].maxSubs >= 0
      ensures |Sent(after, c, p, u)| <= s.contests[c].maxSubs
    {
      forall id | id in Sent(after, c, p, u) ensures id in Sent(st.rows, c, p, u) {
        OtherStepsAddNothing(s, st, e, id);
      }
      SubsetCardinality(Sent(after, c, p, u), Sent(st.rows, c, p, u));
      QuotaOf(st.rows, s, c, p, u);
    }
    AllQuotas(after, s);
  }

  /** Bypassing or not, a contest never holds more than its maximum of one user's submissions to a problem. */
  lemma {:induction false} QuotaIsNeverExceeded(s: Settings, st: State, events: seq<Event>, end: State)
    requires Sound(st) && QuotasHold(st.rows, s) && Run(s, st, events, end)
    ensures QuotasHold(end.rows, s)
    decreases |events|
  {
    hide Refused, Step, QuotasHold, Possible, Sound;
    if events != [] {
      var e := events[0];
      StepKeepsSound(s, st, e);
      if e.Create? && Refused(e.request, st.rows, s, e.last, e.times).None? {
        CreateKeepsQuotas(s, st, e);
      } else {
        OtherStepsKeepQuotas(s, st, e);
      }
      QuotaIsNeverExceeded(s, Step(s, st, e), events[1..], end);
    }
  }

  // ---- The contest's cooldown ----

  /** The two rows are at least the cooldown apart, if they belong to one contestant of one contest. */
  predicate Spaced(s: Settings, a: Row, b: Row) {
    a.contestId.Some? && a.contestId == b.contestId && a.userId == b.userId && a.contestId.value in s.contests
      && a.userId !in s.contests[a.contestId.value].testers ==>
    a.createdAt - b.createdAt >= s.contests[a.contestId.value].cooldown
      || b.createdAt - a.createdAt >= s.contests[a.contestId.value].cooldown
  }

  ghost predicate AllSpaced(rows: Rows, s: Settings) {
    forall i, j | i in rows && j in rows && i != j :: Spaced(s, rows[i], rows[j])
  }

  /** The new row is late enough after every row its author has in the contest. */
  lemma NewRowIsSpaced(s: Settings, st: State, e: Event, j: int)
    requires Sound(st) && Possible(st, e) && e.Create? && Refused(e.request, st.rows, s, e.last, e.times).None?
    requires j in st.rows
    ensures
      var row := Step(s, st, e).rows[st.nextId];
      Spaced(s, row, st.rows[j]) && Spaced(s, st.rows[j], row)
  {
    hide Refused, UserRefusal;
    UserAdmitted(e.request, st.rows, s, e.last, e.times);
    var r := e.request;
    if r.contest.Some? && st.rows[j].contestId == r.contest && st.rows[j].userId == r.author.value {
      assert j in InContest(st.rows, r.contest.value, r.author.value);
      assert st.rows[j].createdAt <= e.last.value;
    }
  }

  lemma CreateKeepsSpaced(s: Settings, st: State, e: Event)
    requires Sound(st) && Possible(st, e) && AllSpaced(st.rows, s)
    requires e.Create? && Refused(e.request, st.rows, s, e.last, e.times).None?
    ensures AllSpaced(Step(s, st, e).rows, s)
  {
    hide Refused, Spaced, Possible;
    var after := Step(s, st, e).rows;
    forall i, j | i in after && j in after && i != j ensures Spaced(s, after[i], after[j]) {
      if i == st.nextId {
        NewRowIsSpaced(s, st, e, j);
      } else if j == st.nextId {
        NewRowIsSpaced(s, st, e, i);
      }
    }
  }

  lemma OtherStepsKeepSpaced(s: Settings, st: State, e: Event)
    requires AllSpaced(st.rows, s)
    requires e.Create? ==> Refused(e.request, st.rows, s, e.last, e.times).Some?
    ensures AllSpaced(Step(s, st, e).rows, s)
  {
    hide Refused, Step;
    var after := Step(s, st, e).rows;
    forall i, j | i in after && j in after && i != j ensures Spaced(s, after[i], after[j]) {
      OtherStepsAddNothing(s, st, e, i);
      OtherStepsAddNothing(s, st, e, j);
      assert Spaced(s, st.rows[i], st.rows[j]);
    }
  }

  /** Two submissions of a contestant who is no tester are at least the cooldown apart, deletions and kicks or not. */
  lemma {:induction false} CooldownIsKept(s: Settings, st: State, events: seq<Event>, end: State)
    requires Sound(st) && AllSpaced(st.rows, s) && Run(s, st, events, end)
    ensures AllSpaced(end.rows, s)
    decreases |events|
  {
    hide Refused, Step, AllSpaced, Possible, Sound;
    if events != [] {
      var e := events[0];
      StepKeepsSound(s, st, e);
      if e.Create? && Refused(e.request, st.rows, s, e.last, e.times).None? {
        CreateKeepsSpaced(s, st, e);
      } else {
        OtherStepsKeepSpaced(s, st, e);
      }
      CooldownIsKept(s, Step(s, st, e), events[1..], end);
    }
  }

  lemma EmptyHolds(s: Settings)
    ensures Sound(EMPTY) && QuotasHold(EMPTY.rows, s) && AllSpaced(EMPTY.rows, s)
    ensures forall user, limit: nat :: WindowsFit(EMPTY.rows, user, limit)
  {
    forall user, a ensures InMinute(EMPTY.rows, user, a) == {} {
    }
    forall c, p, u ensures Sent(EMPTY.rows, c, p, u) == {} {
    }
  }

  /**
    On every run from an empty table: no minute holds more than limit + 1 submissions of a user whose
    calls are all held to one of the two limits per minute; no contest holds more than its quota of a
    user's submissions to a problem; and two submissions of a contestant are a cooldown apart.
  */
  lemma BoundsFromEmpty(s: Settings, events: seq<Event>, end: State, user: int, limit: nat, a: int, c: int, p: int,
      i: int, j: int)
    requires Run(s, EMPTY, events, end)
    ensures (forall k | 0 <= k < |events| && events[k].Create? && events[k].request.author == Some(user) ::
        !events[k].request.bypass
        && (s.totalLimit == limit > 0 || (s.unverifiedLimit == limit > 0 && !events[k].request.verified))) ==>
      |set id | id in end.rows && end.rows[id].userId == user && a < end.rows[id].createdAt <= a + 60_000_000|
        <= limit + 1
    ensures c in s.contests && s.contests[c].maxSubs >= 0 ==>
      |set id | id in end.rows && end.rows[id].contestId == Some(c) && end.rows[id].problemId == p
         && end.rows[id].userId == user| <= s.contests[c].maxSubs
    ensures i in end.rows && j in end.rows && i != j && c in s.contests && user !in s.contests[c].testers ==>
      var (x, y) := (end.rows[i], end.rows[j]);
      x.contestId == y.contestId == Some(c) && x.userId == y.userId == user ==>
        x.createdAt - y.createdAt >= s.contests[c].cooldown || y.createdAt - x.createdAt >= s.contests[c].cooldown
  {
    hide Run, Sound;
    EmptyHolds(s);
    QuotaIsNeverExceeded(s, EMPTY, events, end);
    CooldownIsKept(s, EMPTY, events, end);
    if AllHeldTo(s, events, user, limit) {
      SlidingWindow(s, EMPTY, events, end, user, limit);
      assert InMinute(end.rows, user, a) ==
        set id | id in end.rows && end.rows[id].userId == user && a < end.rows[id].createdAt <= a + 60_000_000;
      assert |InMinute(end.rows, user, a)| <= limit + 1;
    }
    assert Sent(end.rows, c, p, user) ==
      set id | id in end.rows && end.rows[id].contestId == Some(c) && end.rows[id].problemId == p
        && end.rows[id].userId == user;
    assert i in end.rows && j in end.rows && i != j ==> Spaced(s, end.rows[i], end.rows[j]);
  }

  // ---- The bound is reached ----

  const PLAIN := Request(Some(7), true, Some(1), 10, 100, true, true, false, None, true, true, true, true)
  const AT_ONCE := Create(PLAIN, None, Times(0, 0, 0))

  function FirstIds(n: nat): set<int> {
    if n == 0 then {} else FirstIds(n - 1) + {n}
  }

  function Submitted(n: nat): Rows {
    map id | id in FirstIds(n) :: Row(7, 1, None, 0, Creating)
  }

  lemma {:induction false} FirstIdsAre(n: nat)
    ensures |FirstIds(n)| == n && forall id :: id in FirstIds(n) <==> 1 <= id <= n
  {
    if n > 0 {
      FirstIdsAre(n - 1);
    }
  }

  lemma PlainIsCounted(limit: int, rows: Rows)
    requires limit > 0
    ensures
      Refused(PLAIN, rows, Settings(0, limit, 0, map[]), None, AT_ONCE.times).Some? <==>
        |Since(rows, 7, -MINUTE)| > limit
  {
    hide Since, Waiters;
  }

  lemma OneMoreRow(n: nat)
    ensures Submitted(n)[n + 1 := NewRow(PLAIN, AT_ONCE.times)] == Submitted(n + 1)
  {
  }

  /** At one moment a user without a limit on waiting submissions gets limit + 1 of them in, and no more. */
  lemma OneTooMany(limit: int, n: nat)
    requires limit > 0 && n <= limit + 1
    ensures
      var s := Settings(0, limit, 0, map[]);
      var st := State(Submitted(n), n + 1, 0);
      && Possible(st, AT_ONCE)
      && (Refused(PLAIN, st.rows, s, None, AT_ONCE.times).Some? <==> n == limit + 1)
      && (n <= limit ==> Step(s, st, AT_ONCE) == State(Submitted(n + 1), n + 2, 0))
      && |InMinute(st.rows, 7, -1)| == n
  {
    hide Refused, Submitted, FirstIds, Since, InMinute;
    FirstIdsAre(n);
    AllRecent(n);
    PlainIsCounted(limit, Submitted(n));
    OneMoreRow(n);
  }

  lemma AllRecent(n: nat)
    ensures Since(Submitted(n), 7, -MINUTE) == FirstIds(n) && InMinute(Submitted(n), 7, -1) == FirstIds(n)
  {
  }

  lemma CreateStep(s: Settings, st: State, r: Request, last: Option<int>, t: Times)
    ensures
      match Refused(r, st.rows, s, last, t)
      case Some(_) => Step(s, st, Create(r, last, t)) == st.(clock := t.stored)
      case None =>
        && r.author.Some? && r.problem.Some?
        && Step(s, st, Create(r, last, t)) ==
             State(st.rows[st.nextId := Row(r.author.value, r.problem.value, r.contest, t.stored, Creating)],
                   st.nextId + 1, t.stored)
  {
    hide UserRefusal, ContestRefusal;
  }

  /** What remains is the quota less the stored rows, and 1 where there is no quota. */
  lemma RemainingMeans(rows: Rows, c: Contest, contest: int, problem: int, user: int)
    ensures
      var sent := set id | id in rows && rows[id].contestId == Some(contest) && rows[id].problemId == problem
                    && rows[id].userId == user;
      Remaining(rows, c, contest, problem, user) == if c.maxSubs >= 0 then (c.maxSubs - |sent|, true) else (1, false)
  {
    assert Sent(rows, contest, problem, user) ==
      set id | id in rows && rows[id].contestId == Some(contest) && rows[id].problemId == problem
        && rows[id].userId == user;
  }

  lemma QuotaIs(rows: Rows, c: int, contest: Contest, problem: int, user: int)
    ensures QuotaLeft(rows, c, contest, problem, user) <==> Remaining(rows, contest, c, problem, user).0 > 0
  {
    RemainingMeans(rows, contest, c, problem, user);
  }

  /** The latest time is that of one of the user's rows in the contest, none of which is later. */
  lemma LatestMeans(rows: Rows, contest: int, user: int, last: Option<int>)
    requires IsLatest(rows, InContest(rows, contest, user), last)
    ensures last.None? ==> forall id | id in rows :: !(rows[id].contestId == Some(contest) && rows[id].userId == user)
    ensures last.Some? ==>
      && (exists id :: id in rows && rows[id].contestId == Some(contest) && rows[id].userId == user
            && rows[id].createdAt == last.value)
      && forall id | id in rows && rows[id].contestId == Some(contest) && rows[id].userId == user ::
           rows[id].createdAt <= last.value
  {
    assert forall id | id in rows && rows[id].contestId == Some(contest) && rows[id].userId == user ::
      id in InContest(rows, contest, user);
  }

  // ---- The code ----

  class Judge {
    var rows: Rows
    var nextId: int
    var clock: int
    const settings: Settings

    ghost function Contents(): State
      reads this
    {
      State(rows, nextId, clock)
    }

    constructor (settings: Settings)
      ensures this.settings == settings && Contents() == EMPTY
    {
      rows, nextId, clock := map[], 1, 0;
      this.settings := settings;
    }

    method LastSubmissionTime(contest: int, user: int) returns (last: Option<int>)
      ensures IsLatest(rows, InContest(rows, contest, user), last)
    {
      hide IsLatest, InContest;
      last := None;
      var todo := InContest(rows, contest, user);
      ghost var all := todo;
      NoLatest(rows, contest, user);
      assert all - todo == {};
      while todo != {}
        invariant todo <= all && IsLatest(rows, all - todo, last)
        decreases |todo|
      {
        var id := PickAny(todo);
        assert id in all;
        assert all - (todo - {id}) == (all - todo) + {id};
        LaterOf(rows, all - todo, last, id);
        if last.None? || rows[id].createdAt > last.value {
          last := Some(rows[id].createdAt);
        }
        todo := todo - {id};
      }
      assert all - todo == all;
    }

    method CreateSubmission(r: Request, t: Times) returns (result: Result<int, Refusal>, ghost last: Option<int>)
      requires clock <= t.counted <= t.cooled <= t.stored
      modifies this`rows, this`nextId, this`clock
      ensures Possible(old(Contents()), Create(r, last, t))
      ensures Contents() == Step(settings, old(Contents()), Create(r, last, t))
      ensures result.Err? <==> Refused(r, old(rows), settings, last, t).Some?
      ensures result.Err? ==> Some(result.error) == Refused(r, old(rows), settings, last, t) && rows == old(rows)
      ensures result.Ok? ==> result.value == old(nextId) && r.author.Some? && r.problem.Some?
      ensures result.Ok? ==>
        rows == old(rows)[result.value := Row(r.author.value, r.problem.value, r.contest, t.stored, Creating)]
    {
      hide IsLatest, Waiters, Since, Sent, InContest;
      last := None;
      if r.author.Some? && r.contest.Some? {
        NoLatest(rows, r.contest.value, r.author.value);
        last := LatestExists(rows, InContest(rows, r.contest.value, r.author.value));
      }
      CreateStep(settings, Contents(), r, last, t);
      FirstCheckThatFails(r, rows, settings, last, t);
      hide Step, Refused, FewUnfinished, FewRecent, QuotaLeft;
      clock := t.stored;
      if r.author.None? {
        return Err(NoAuthor), last;
      }
      if r.problem.None? {
        return Err(NoProblem), last;
      }
      if r.codeLength > r.sourceSize {
        return Err(CodeTooLong), last;
      }
      if !r.problemVisible {
        return Err(ProblemHidden), last;
      }
      var author, problem := r.author.value, r.problem.value;
      CountsAre(rows, author, t.counted, settings.waitingLimit);
      CountsAre(rows, author, t.counted, settings.totalLimit);
      CountsAre(rows, author, t.counted, settings.unverifiedLimit);
      if !r.bypass {
        var cnt := |Waiters(rows, author)|;
        if settings.waitingLimit > 0 && cnt >= settings.waitingLimit {
          return Err(TooManyWaiting), last;
        }
        cnt := |Since(rows, author, t.counted - MINUTE)|;
        if settings.totalLimit > 0 && cnt > settings.totalLimit {
          return Err(TooManyRecent), last;
        }
        if !r.verified && settings.unverifiedLimit > 0 && cnt > settings.unverifiedLimit {
          return Err(TooManyUnverified), last;
        }
      }
      if r.contest.Some? {
        if r.contest.value !in settings.contests || !r.contestVisible {
          return Err(NoContest), last;
        }
        var contest := settings.contests[r.contest.value];
        if !r.canSubmitInContest {
          return Err(CannotSubmit), last;
        }
        if !r.problemInContest {
          return Err(NotInContest), last;
        }
        var cnt, _ := RemainingSubmissionCount(contest, r.contest.value, problem, author);
        QuotaIs(rows, r.contest.value, contest, problem, author);
        if cnt <= 0 {
          return Err(QuotaReached), last;
        }
        if author !in contest.testers && contest.cooldown > 0 {
          var latest := LastSubmissionTime(r.contest.value, author);
          LatestIsUnique(rows, InContest(rows, r.contest.value, author), latest, last);
          if latest.Some? && contest.cooldown - (t.cooled - latest.value) > 0 {
            return Err(TooFast), last;
          }
        }
      } else if !r.problemFullyVisible {
        return Err(NotFullyVisible), last;
      }
      if r.codeLength == 0 {
        return Err(EmptyCode), last;
      }
      if !r.languageSupported {
        return Err(LanguageNotSupported), last;
      }
      result := Ok(nextId);
      rows := rows[nextId := Row(author, problem, r.contest, t.stored, Creating)];
      nextId := nextId + 1;
    }

    /** How many more may be sent, and whether that is limited at all. */
    method RemainingSubmissionCount(c: Contest, contest: int, problem: int, user: int) returns (left: int,
        limited: bool)
      ensures (left, limited) == Remaining(rows, c, contest, problem, user)
      ensures limited ==> (left > 0 <==> |Sent(rows, contest, problem, user)| < c.maxSubs)
    {
      if c.maxSubs < 0 {
        return 1, false;
      }
      var cnt := |Sent(rows, contest, problem, user)|;
      left, limited := c.maxSubs - cnt, true;
    }

    method DeleteSubmission(id: int)
      modifies this`rows
      ensures Contents() == Step(settings, old(Contents()), Delete(id))
      ensures forall x :: x in rows <==> x in old(rows) && x != id
      ensures forall x | x in rows :: rows[x] == old(rows)[x]
    {
      rows := rows - {id};
    }

    method ClearUserContestSubmissions(contest: int, user: int)
      modifies this`rows
      ensures Contents() == Step(settings, old(Contents()), Kick(contest, user))
      ensures forall x :: x in rows <==> x in old(rows)
      ensures forall x | x in rows && rows[x] != old(rows)[x] ::
        old(rows)[x].contestId == Some(contest) && old(rows)[x].userId == user
        && rows[x] == old(rows)[x].(contestId := None)
      ensures forall x | x in rows :: !(rows[x].contestId == Some(contest) && rows[x].userId == user)
    {
      rows := Kicked(rows, contest, user);
    }
  }

  lemma {:induction false} LatestExists(rows: Rows, ids: set<int>) returns (t: Option<int>)
    requires ids <= rows.Keys
    ensures IsLatest(rows, ids, t)
    decreases |ids|
  {
    if ids == {} {
      t := None;
    } else {
      var id := Pick(ids);
      var before := LatestExists(rows, ids - {id});
      LaterOf(rows, ids - {id}, before, id);
      assert ids - {id} + {id} == ids;
      t := if before.None? || rows[id].createdAt > before.value then Some(rows[id].createdAt) else before;
    }
  }

  lemma LatestIsUnique(rows: Rows, ids: set<int>, a: Option<int>, b: Option<int>)
    requires IsLatest(rows, ids, a) && IsLatest(rows, ids, b)
    ensures a == b
  {
    if a.Some? {
      var i :| i in ids && rows[i].createdAt == a.value;
      var j :| j in ids && rows[j].createdAt == b.value;
    }
  }

  lemma NoLatest(rows: Rows, contest: int, user: int)
    ensures IsLatest(rows, {}, None)
    ensures InContest(rows, contest, user) <= rows.Keys
  {
  }

  lemma LaterOf(rows: Rows, seen: set<int>, last: Option<int>, id: int)
    requires IsLatest(rows, seen, last) && id in rows
    ensures IsLatest(rows, seen + {id},
      if last.None? || rows[id].createdAt > last.value then Some(rows[id].createdAt) else last)
  {
    assert id in seen + {id};
    if last.Some? {
      var k :| k in seen && rows[k].createdAt == last.value;
      assert k in seen + {id};
    }
  }
}
