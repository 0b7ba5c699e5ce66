/**
  Resetting submissions: one transaction of eight statements over four tables, each of which asks
  again which submissions the filter selects, although the first one changes them.
*/
module SubReset {
  import opened Common
  import opened SubmissionStatus
  import opened SubmissionTable
  import opened SubmissionTables

  /** The value of the tables; `links` pairs a submission's subtask rows with its subtest rows. */
  datatype Tables = Tables(subs: map<int, Submission>, subtests: Table<Subtest>,
                           subtasks: Table<SubmissionSubtask>, links: set<(int, int)>)

  // ---- The statements ----

  /** The ids of the rows for which the filter holds. */
  function Matched(f: SubmissionFilter, subs: map<int, Submission>, w: World): set<int> {
    set id | id in subs && Satisfies(f, subs[id], w)
  }

  function Cleared(r: Submission): Submission {
    r.(status := Creating, score := 0.0, maxTime := -1.0, maxMemory := -1, compileError := Some(false),
       compileMessage := Some(""), icpcVerdict := None, compileDuration := None, scoreScale := 100.0)
  }

  /** Settings copied from the problem; a row whose problem is missing keeps its own. */
  function Initialised(r: Submission, c: Catalog): Submission {
    if r.problemId in c.problems then
      var p := c.problems[r.problemId];
      r.(digitPrecision := p.digitPrecision, submissionType := if p.strategy.AcmIcpc? then Icpc else Classic,
         scoreScale := p.scoreScale)
    else r.(submissionType := Classic)
  }

  function UpdateClear(subs: map<int, Submission>, ids: set<int>): map<int, Submission> {
    map id | id in subs :: if id in ids then Cleared(subs[id]) else subs[id]
  }

  function UpdateInit(subs: map<int, Submission>, ids: set<int>, c: Catalog): map<int, Submission> {
    map id | id in subs :: if id in ids then Initialised(subs[id], c) else subs[id]
  }

  function UpdateWaiting(subs: map<int, Submission>, ids: set<int>): map<int, Submission> {
    map id | id in subs :: if id in ids then subs[id].(status := Waiting) else subs[id]
  }

  /** A subtask row and a subtest row of one selected submission, whose subtask holds that test. */
  predicate Joins(k: Row<SubmissionSubtask>, j: Row<Subtest>, ids: set<int>, c: Catalog) {
    && k.submissionId == j.submissionId && j.submissionId in ids
    && k.source.Some? && j.source.Some? && (k.source.value, j.source.value) in c.subtaskTests
  }

  function JoinedLinks(subtasks: Table<SubmissionSubtask>, subtests: Table<Subtest>, ids: set<int>,
      c: Catalog): set<(int, int)> {
    set k, j | k in subtasks && j in subtests && Joins(subtasks[k], subtests[j], ids, c) :: (k, j)
  }

  /** A link goes when either of its rows does. */
  function Cascade(links: set<(int, int)>, subtasks: Table<SubmissionSubtask>,
      subtests: Table<Subtest>): set<(int, int)> {
    set l | l in links && l.0 in subtasks && l.1 in subtests
  }

  /** The unique constraint on submission and subtask fails: some selected pair is already there. */
  predicate SubtaskClash(subtasks: Table<SubmissionSubtask>, sel: Selection<SubmissionSubtask>) {
    exists i :: i in subtasks && subtasks[i].source.Some? && (subtasks[i].submissionId, subtasks[i].source.value) in sel
  }

  // ---- What the schema guarantees ----

  ghost predicate UniqueSubtasks(t: Table<SubmissionSubtask>) {
    forall i, j | i in t && j in t && t[i].source.Some? && t[i].submissionId == t[j].submissionId
      && t[i].source == t[j].source :: i == j
  }

  /** Primary and foreign keys, and the unique constraint on subtask rows. */
  ghost predicate WellFormed(d: Tables) {
    && (forall id | id in d.subs :: d.subs[id].id == id)
    && (forall l | l in d.links :: l.0 in d.subtasks && l.1 in d.subtests)
    && UniqueSubtasks(d.subtasks)
  }

  // ---- What the two halves of the transaction do to the tables ----

  /** Clearing while the selection stays the same. */
  function ClearedTables(d: Tables, ids: set<int>): Tables {
    var subtests := Without(d.subtests, ids);
    var subtasks := Without(d.subtasks, ids);
    Tables(UpdateClear(d.subs, ids), subtests, subtasks, Cascade(d.links, subtasks, subtests))
  }

  /** Initialising a selection: new settings, one row per test and per subtask, their links, and `waiting`. */
  ghost predicate Initialises(d: Tables, e: Tables, ids: set<int>, c: Catalog) {
    var ready := UpdateInit(d.subs, ids, c);
    && e.subs == UpdateWaiting(ready, ids)
    && Inserted(d.subtests, e.subtests, SelectSubtests(ready, ids, c))
    && Inserted(d.subtasks, e.subtasks, SelectSubtasks(ready, ids, c))
    && e.links == d.links + JoinedLinks(e.subtasks, e.subtests, ids, c)
  }

  /** The selected submissions are as good as new, whatever rows they had. */
  ghost predicate Resets(d: Tables, e: Tables, ids: set<int>, c: Catalog) {
    Initialises(ClearedTables(d, ids), e, ids, c)
  }

  /** A unique constraint stands in the way of initialising the selection. */
  ghost predicate Clashes(d: Tables, ids: set<int>, c: Catalog) {
    || SubtaskClash(d.subtasks, SelectSubtasks(d.subs, ids, c))
    || JoinedLinks(d.subtasks, d.subtests, ids, c) * d.links != {}
  }

  // ---- Which filters survive the first statement ----

  /** The filter does not ask for a value that clearing overwrites with another. */
  predicate Stable(f: SubmissionFilter) {
    && (f.status.None? || f.status == Some(Creating))
    && (f.score.None? || f.score == Some(0.0))
    && (f.compileError.None? || f.compileError == Some(false))
  }

  lemma StillSatisfies(f: SubmissionFilter, r: Submission, w: World)
    requires Satisfies(f, r, w)
    ensures Satisfies(f, Cleared(r), w) <==> Stable(f)
  {
  }

  lemma InitKeepsFilter(f: SubmissionFilter, r: Submission, c: Catalog, w: World)
    ensures Satisfies(f, Initialised(r, c), w) <==> Satisfies(f, r, w)
  {
  }

  /** After the first statement the filter selects the same submissions, or none at all. */
  lemma MatchedAfterClear(f: SubmissionFilter, subs: map<int, Submission>, w: World)
    ensures
      var ids := Matched(f, subs, w);
      Matched(f, UpdateClear(subs, ids), w) == if Stable(f) then ids else {}
  {
    hide Satisfies, Cleared, Stable;
    var ids := Matched(f, subs, w);
    var after := UpdateClear(subs, ids);
    forall id | id in subs
      ensures Satisfies(f, after[id], w) <==> id in ids && Stable(f)
    {
      if id in ids {
        StillSatisfies(f, subs[id], w);
      }
    }
  }

  lemma MatchedAfterInit(f: SubmissionFilter, subs: map<int, Submission>, c: Catalog, w: World)
    ensures Matched(f, UpdateInit(subs, Matched(f, subs, w), c), w) == Matched(f, subs, w)
  {
    hide Satisfies, Initialised;
    var ids := Matched(f, subs, w);
    var after := UpdateInit(subs, ids, c);
    forall id | id in subs
      ensures Satisfies(f, after[id], w) <==> id in ids
    {
      InitKeepsFilter(f, subs[id], c, w);
    }
  }

  /** Nothing is in the way of initialising submissions whose rows were just deleted. */
  lemma ClearedDoNotClash(d: Tables, ids: set<int>, c: Catalog)
    ensures !Clashes(ClearedTables(d, ids), ids, c)
  {
    var e := ClearedTables(d, ids);
    forall i | i in e.subtasks ensures e.subtasks[i].submissionId !in ids {
    }
    forall k, j | k in e.subtasks && j in e.subtests ensures !Joins(e.subtasks[k], e.subtests[j], ids, c) {
    }
    assert JoinedLinks(e.subtasks, e.subtests, ids, c) == {};
  }

  lemma SameSubtaskKeys(subs: map<int, Submission>, ids: set<int>, c: Catalog)
    ensures SelectSubtasks(UpdateInit(subs, ids, c), ids, c).Keys == SelectSubtasks(subs, ids, c).Keys
  {
    hide SelectSubtasks, Initialised;
    var after := UpdateInit(subs, ids, c);
    var a, b := SelectSubtasks(after, ids, c), SelectSubtasks(subs, ids, c);
    forall s, t ensures (s, t) in a <==> (s, t) in b {
      SubtaskSelected(after, ids, c, s, t);
      SubtaskSelected(subs, ids, c, s, t);
      if s in subs {
        InitKeepsOwner(subs[s], c);
      }
    }
    forall k | k in a ensures k in b {
      var (s, t) := k;
    }
    forall k | k in b ensures k in a {
      var (s, t) := k;
    }
  }

  lemma InitKeepsOwner(r: Submission, c: Catalog)
    ensures Initialised(r, c).id == r.id && Initialised(r, c).problemId == r.problemId
  {
  }

  lemma SubtaskSelected(subs: map<int, Submission>, ids: set<int>, c: Catalog, s: int, t: int)
    ensures (s, t) in SelectSubtasks(subs, ids, c)
       <==> s in ids && s in subs && t in c.subtasks && c.subtasks[t].problemId == subs[s].problemId
  {
    hide NewSubtask;
  }

  lemma SubtestSelected(subs: map<int, Submission>, ids: set<int>, c: Catalog, s: int, t: int)
    ensures (s, t) in SelectSubtests(subs, ids, c)
       <==> s in ids && s in subs && t in c.tests && c.tests[t].problemId == subs[s].problemId
  {
    hide NewSubtest;
  }

  /** New rows clash with nothing, so the rows that were there decide. */
  lemma NewLinksAreNew(d: Tables, subtasks: Table<SubmissionSubtask>, subtests: Table<Subtest>,
      st: Selection<SubmissionSubtask>, sel: Selection<Subtest>, ids: set<int>, c: Catalog)
    requires WellFormed(d) && Inserted(d.subtasks, subtasks, st) && Inserted(d.subtests, subtests, sel)
    ensures JoinedLinks(subtasks, subtests, ids, c) * d.links == JoinedLinks(d.subtasks, d.subtests, ids, c) * d.links
  {
    hide Joins, Copies, Holds;
    forall l | l in d.links
      ensures l in JoinedLinks(subtasks, subtests, ids, c) <==> l in JoinedLinks(d.subtasks, d.subtests, ids, c)
    {
      var (k, j) := l;
      assert k in d.subtasks && j in d.subtests;
      assert subtasks[k] == d.subtasks[k] && subtests[j] == d.subtests[j];
    }
  }

  lemma OldAndNewDiffer(before: Table<SubmissionSubtask>, sel: Selection<SubmissionSubtask>, i: int,
      r: Row<SubmissionSubtask>)
    requires i in before && Copies(r, sel) && !SubtaskClash(before, sel)
    ensures before[i].submissionId != r.submissionId || before[i].source != r.source
  {
  }

  lemma StillUnique(before: Table<SubmissionSubtask>, after: Table<SubmissionSubtask>,
      sel: Selection<SubmissionSubtask>)
    requires UniqueSubtasks(before) && Inserted(before, after, sel) && !SubtaskClash(before, sel)
    ensures UniqueSubtasks(after)
  {
    hide SubtaskClash, Holds;
    forall i, j | i in before && j in after && j !in before
      ensures after[i].submissionId != after[j].submissionId || after[i].source != after[j].source
    {
      OldAndNewDiffer(before, sel, i, after[j]);
    }
  }

  lemma ClearedWellFormed(d: Tables, ids: set<int>)
    requires WellFormed(d)
    ensures WellFormed(ClearedTables(d, ids))
  {
  }

  /** Deleting the rows of no submission deletes nothing. */
  lemma ClearedNothing(d: Tables, ids: set<int>)
    requires WellFormed(d)
    ensures Without(d.subtests, {}) == d.subtests && Without(d.subtasks, {}) == d.subtasks
    ensures Cascade(d.links, d.subtasks, d.subtests) == d.links
    ensures WellFormed(d.(subs := UpdateClear(d.subs, ids)))
  {
    hide UniqueSubtasks;
  }

  lemma CascadeTwice(links: set<(int, int)>, subtasks: Table<SubmissionSubtask>, subtests: Table<Subtest>,
      ids: set<int>)
    ensures
      var fewerTasks, fewerTests := Without(subtasks, ids), Without(subtests, ids);
      Cascade(Cascade(links, subtasks, fewerTests), fewerTasks, fewerTests) == Cascade(links, fewerTasks, fewerTests)
  {
  }

  lemma BelowWithout<B>(t: Table<B>, next: int, ids: set<int>)
    requires Below(t, next)
    ensures Below(Without(t, ids), next)
  {
  }

  lemma UpdatesKeepIds(subs: map<int, Submission>, ids: set<int>, c: Catalog)
    requires forall id | id in subs :: subs[id].id == id
    ensures
      var after := UpdateWaiting(UpdateInit(subs, ids, c), ids);
      forall id | id in after :: after[id].id == id
  {
    hide Initialised;
    forall id | id in subs ensures Initialised(subs[id], c).id == id {
      InitKeepsOwner(subs[id], c);
    }
  }

  class Database {
    var subs: map<int, Submission>
    var subtests: Table<Subtest>
    var subtasks: Table<SubmissionSubtask>
    var links: set<(int, int)>
    var nextSubtest: int
    var nextSubtask: int
    const catalog: Catalog
    const world: World

    ghost function State(): Tables
      reads this
    {
      Tables(subs, subtests, subtasks, links)
    }

    ghost predicate Valid()
      reads this
    {
      WellFormed(State()) && Below(subtests, nextSubtest) && Below(subtasks, nextSubtask)
    }

    constructor (subs: map<int, Submission>, catalog: Catalog, world: World)
      requires forall id | id in subs :: subs[id].id == id
      ensures Valid() && State() == Tables(subs, map[], map[], {})
      ensures this.catalog == catalog && this.world == world
    {
      this.subs, subtests, subtasks, links := subs, map[], map[], {};
      nextSubtest, nextSubtask := 1, 1;
      this.catalog, this.world := catalog, world;
    }

    /** clearSubs */
    method ClearSubs(f: SubmissionFilter)
      requires Valid()
      modifies this`subs, this`subtests, this`subtasks, this`links
      ensures Valid()
      ensures
        var ids := Matched(f, old(subs), world);
        if Stable(f) then State() == ClearedTables(old(State()), ids)
        else State() == old(State()).(subs := UpdateClear(old(subs), ids))
    {
      hide Stable, Matched, UpdateClear, Without, Cascade, WellFormed;
      ghost var d, ids := State(), Matched(f, subs, world);
      MatchedAfterClear(f, subs, world);
      ClearedWellFormed(d, ids);
      ClearedNothing(d, ids);
      CascadeTwice(links, subtasks, subtests, ids);
      BelowWithout(subtests, nextSubtest, ids);
      BelowWithout(subtasks, nextSubtask, ids);
      subs := UpdateClear(subs, Matched(f, subs, world));
      subtests := Without(subtests, Matched(f, subs, world));
      links := Cascade(links, subtasks, subtests);
      subtasks := Without(subtasks, Matched(f, subs, world));
      links := Cascade(links, subtasks, subtests);
    }

    /** initSubs: a clash of unique constraints is an error, and the caller's transaction rolls back. */
    method InitSubs(f: SubmissionFilter) returns (ok: bool)
      requires Valid()
      modifies this
      ensures ok <==> !Clashes(old(State()), Matched(f, old(subs), world), catalog)
      ensures ok ==> Valid() && Initialises(old(State()), State(), Matched(f, old(subs), world), catalog)
      ensures Below(subtests, nextSubtest) && Below(subtasks, nextSubtask)
      ensures old(nextSubtest) <= nextSubtest && old(nextSubtask) <= nextSubtask
    {
      hide Matched, Inserted, SelectSubtasks, SelectSubtests, SubtaskClash, Initialised, UniqueSubtasks, JoinedLinks,
           UpdateInit, UpdateWaiting, Below;
      ghost var d, ids := State(), Matched(f, subs, world);
      MatchedAfterInit(f, subs, catalog, world);
      SameSubtaskKeys(subs, ids, catalog);
      UpdatesKeepIds(subs, ids, catalog);
      subs := UpdateInit(subs, Matched(f, subs, world), catalog);
      var tests := SelectSubtests(subs, Matched(f, subs, world), catalog);
      subtests, nextSubtest := InsertRows(subtests, nextSubtest, tests);
      var rows := SelectSubtasks(subs, Matched(f, subs, world), catalog);
      SameClash(d.subtasks, rows, SelectSubtasks(d.subs, ids, catalog));
      if SubtaskClash(subtasks, rows) {
        return false;
      }
      subtasks, nextSubtask := InsertRows(subtasks, nextSubtask, rows);
      NewLinksAreNew(d, subtasks, subtests, rows, SelectSubtests(subs, ids, catalog), ids, catalog);
      StillUnique(d.subtasks, subtasks, rows);
      LinksExist(d, subtasks, subtests, rows, SelectSubtests(subs, ids, catalog), ids, catalog);
      var joined := JoinedLinks(subtasks, subtests, Matched(f, subs, world), catalog);
      if joined * links != {} {
        return false;
      }
      links := links + joined;
      subs := UpdateWaiting(subs, Matched(f, subs, world));
      ok := true;
    }

    /** ResetSubmissions never has to roll back, but it only resets when clearing leaves the selection as it was. */
    method ResetSubmissions(f: SubmissionFilter) returns (ok: bool)
      requires Valid()
      modifies this
      ensures ok && Valid()
      ensures
        var ids := Matched(f, old(subs), world);
        if Stable(f) then Resets(old(State()), State(), ids, catalog)
        else State() == old(State()).(subs := UpdateClear(old(subs), ids))
    {
      hide Stable, Matched, UpdateClear, Initialises, Without, Cascade, Clashes, WellFormed;
      ghost var d, ids := State(), Matched(f, subs, world);
      MatchedAfterClear(f, subs, world);
      ClearSubs(f);
      ghost var cleared := State();
      ClearedDoNotClash(d, ids, catalog);
      NothingClashes(cleared, catalog);
      ok := InitSubs(f);
      if Matched(f, cleared.subs, world) == {} {
        InitialisesNothing(cleared, State(), catalog);
      }
    }

    /** InitSubmission: a failure leaves the tables as they were. */
    method InitSubmission(id: int) returns (ok: bool)
      requires Valid()
      modifies this
      ensures Valid()
      ensures
        var ids := set s | s in old(subs) && s == id;
        && (ok <==> !Clashes(old(State()), ids, catalog))
        && (if ok then Initialises(old(State()), State(), ids, catalog) else State() == old(State()))
    {
      hide Initialises, Clashes, UniqueSubtasks, Satisfies;
      var before := (subs, subtests, subtasks, links);
      var f := NO_FILTER.(id := Some(id));
      ghost var ids := set s | s in subs && s == id;
      MatchedById(subs, id, world);
      ok := InitSubs(f);
      if !ok {
        subs, subtests, subtasks, links := before.0, before.1, before.2, before.3;
      }
    }
  }

  lemma MatchedById(subs: map<int, Submission>, id: int, w: World)
    requires forall s | s in subs :: subs[s].id == s
    ensures Matched(NO_FILTER.(id := Some(id)), subs, w) == set s | s in subs && s == id
  {
  }

  lemma NothingJoined(subtasks: Table<SubmissionSubtask>, subtests: Table<Subtest>, c: Catalog)
    ensures JoinedLinks(subtasks, subtests, {}, c) == {}
  {
    hide Joins;
    forall k, j | k in subtasks && j in subtests ensures !Joins(subtasks[k], subtests[j], {}, c) {
      NothingJoins(subtasks[k], subtests[j], c);
    }
  }

  lemma NothingClashes(d: Tables, c: Catalog)
    ensures !Clashes(d, {}, c)
  {
    hide Joins;
    NothingJoined(d.subtasks, d.subtests, c);
  }

  lemma NothingJoins(k: Row<SubmissionSubtask>, j: Row<Subtest>, c: Catalog)
    ensures !Joins(k, j, {}, c)
  {
  }

  lemma UpdatesNothing(subs: map<int, Submission>, c: Catalog)
    ensures UpdateInit(subs, {}, c) == subs && UpdateWaiting(subs, {}) == subs
  {
    hide Initialised;
  }

  lemma SelectsNothing(subs: map<int, Submission>, c: Catalog)
    ensures SelectSubtests(subs, {}, c) == map[] && SelectSubtasks(subs, {}, c) == map[]
  {
    hide NewSubtest, NewSubtask;
  }

  lemma InitialisesNothing(d: Tables, e: Tables, c: Catalog)
    requires Initialises(d, e, {}, c)
    ensures e == d
  {
    hide Inserted, SelectSubtests, SelectSubtasks, JoinedLinks, UpdateInit, UpdateWaiting;
    UpdatesNothing(d.subs, c);
    SelectsNothing(d.subs, c);
    NothingInserted(d.subtests, e.subtests);
    NothingInserted(d.subtasks, e.subtasks);
    NothingJoined(e.subtasks, e.subtests, c);
  }

  lemma SameClash(t: Table<SubmissionSubtask>, a: Selection<SubmissionSubtask>, b: Selection<SubmissionSubtask>)
    requires a.Keys == b.Keys
    ensures SubtaskClash(t, a) <==> SubtaskClash(t, b)
  {
    assert forall k :: k in a <==> k in b;
  }

  /** The links still refer to rows that exist. */
  lemma LinksExist(d: Tables, subtasks: Table<SubmissionSubtask>, subtests: Table<Subtest>,
      st: Selection<SubmissionSubtask>, sel: Selection<Subtest>, ids: set<int>, c: Catalog)
    requires WellFormed(d) && Inserted(d.subtasks, subtasks, st) && Inserted(d.subtests, subtests, sel)
    ensures forall l | l in d.links + JoinedLinks(subtasks, subtests, ids, c) :: l.0 in subtasks && l.1 in subtests
  {
    hide Joins, Copies, Holds;
    forall l | l in d.links + JoinedLinks(subtasks, subtests, ids, c) ensures l.0 in subtasks && l.1 in subtests {
      var (k, j) := l;
      if l in d.links {
        assert k in d.subtasks && j in d.subtests;
      }
    }
  }
}
