/** The submissions table, the filters over it and the updates to it, in the application's own terms. */
module SubmissionTable {
  import opened Common
  import opened SubmissionStatus

  datatype EvalType = Classic | Icpc

  datatype Submission = Submission(
    id: int, createdAt: int, userId: int, problemId: int, contestId: Option<int>, language: string,
    status: Status, submissionType: EvalType, icpcVerdict: Option<string>,
    compileError: Option<bool>, compileMessage: Option<string>, compileDuration: Option<real>,
    score: real, digitPrecision: int, scoreScale: real, maxTime: real, maxMemory: int)

  /** A nil field does not constrain; `ids` distinguishes nil from empty, and contest 0 means no contest. */
  datatype SubmissionFilter = SubmissionFilter(
    id: Option<int>, ids: Option<seq<int>>, userId: Option<int>, problemId: Option<int>,
    problemListId: Option<int>, contestId: Option<int>, fromAuthors: bool,
    status: Option<Status>, waiting: bool, lang: Option<string>, score: Option<real>,
    since: Option<int>, compileError: Option<bool>)

  const NO_FILTER := SubmissionFilter(None, None, None, None, None, None, false, None, false, None, None, None, None)

  datatype SubmissionUpdate = SubmissionUpdate(
    status: Option<Status>, score: Option<real>, changeVerdict: bool, icpcVerdict: Option<string>,
    compileError: Option<bool>, compileMessage: Option<string>, compileTime: Option<real>,
    maxTime: Option<real>, maxMemory: Option<int>)

  /** What the filters read besides the row: which problems a list holds, who edits what, lower(). */
  datatype World = World(
    deepProblems: set<(int, int)>,
    access: set<(int, int, string)>,
    lower: string -> string)

  predicate Unfinished(st: Status) {
    st == Creating || st == Waiting || st == Working
  }

  /** The row meets every condition the filter sets. */
  predicate Satisfies(f: SubmissionFilter, r: Submission, w: World) {
    && (f.id.Some? ==> r.id == f.id.value)
    && (f.ids.Some? ==> r.id in f.ids.value)
    && (f.userId.Some? ==> r.userId == f.userId.value)
    && (f.problemId.Some? ==> r.problemId == f.problemId.value)
    && (f.problemListId.Some? ==> (f.problemListId.value, r.problemId) in w.deepProblems)
    && (f.contestId.Some? ==> r.contestId == if f.contestId.value == 0 then None else Some(f.contestId.value))
    && (f.fromAuthors ==> (r.problemId, r.userId, "editor") in w.access)
    && (f.status.Some? ==> r.status == f.status.value)
    && (f.waiting ==> Unfinished(r.status))
    && (f.lang.Some? ==> w.lower(r.language) == w.lower(f.lang.value))
    && (f.score.Some? ==> r.score == f.score.value)
    && (f.since.Some? ==> r.createdAt > f.since.value)
    && (f.compileError.Some? ==> r.compileError == Some(f.compileError.value))
  }

  predicate ChangesNothing(u: SubmissionUpdate) {
    && u.status.None? && u.score.None? && !u.changeVerdict && u.compileError.None? && u.compileMessage.None?
    && u.compileTime.None? && u.maxTime.None? && u.maxMemory.None?
  }

  function Or<T>(o: Option<T>, t: T): T {
    if o.Some? then o.value else t
  }

  function OrElse<T>(o: Option<T>, t: Option<T>): Option<T> {
    if o.Some? then o else t
  }

  /** The row with the fields the update sets, and no others, replaced. */
  function Updated(u: SubmissionUpdate, r: Submission): Submission {
    r.(status := Or(u.status, r.status),
       score := Or(u.score, r.score),
       icpcVerdict := if u.changeVerdict then u.icpcVerdict else r.icpcVerdict,
       compileError := OrElse(u.compileError, r.compileError),
       compileMessage := OrElse(u.compileMessage, r.compileMessage),
       compileDuration := OrElse(u.compileTime, r.compileDuration),
       maxTime := Or(u.maxTime, r.maxTime),
       maxMemory := Or(u.maxMemory, r.maxMemory))
  }
}
