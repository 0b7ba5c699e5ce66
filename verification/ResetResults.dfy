/** What a reset means for whoever asked for it. */
module ResetResults {
  import opened Common
  import opened SubmissionStatus
  import opened SubmissionTable
  import opened SubmissionTables
  import opened SubReset

  /** What a submission looks like after a reset. */
  function Renewed(r: Submission, c: Catalog): Submission {
    Initialised(Cleared(r), c).(status := Waiting)
  }

  /** The fields that the reset neither writes nor forgets. */
  predicate SameOrigin(a: Submission, b: Submission) {
    && a.id == b.id && a.createdAt == b.createdAt && a.userId == b.userId && a.problemId == b.problemId
    && a.contestId == b.contestId && a.language == b.language
  }

  /** Given its origin and its problem, nothing else of the old row survives. */
  lemma RenewedForgets(a: Submission, b: Submission, c: Catalog)
    requires SameOrigin(a, b) && a.problemId in c.problems
    ensures Renewed(a, c) == Renewed(b, c) && SameOrigin(a, Renewed(a, c))
    ensures Renewed(a, c).status == Waiting && Renewed(a, c).score == 0.0
  {
  }

  ghost predicate Existing(d: Tables, ids: set<int>, c: Catalog) {
    forall s | s in ids :: s in d.subs && d.subs[s].problemId in c.problems
  }

  ghost predicate Has<B>(table: Table<B>, s: int, t: int) {
    exists i :: i in table && table[i].submissionId == s && table[i].source == Some(t)
  }

  lemma RenewedRows(d: Tables, e: Tables, ids: set<int>, c: Catalog)
    requires Resets(d, e, ids, c)
    ensures e.subs == map s | s in d.subs :: if s in ids then Renewed(d.subs[s], c) else d.subs[s]
  {
    hide Inserted, Cleared, Initialised, SelectSubtasks, SelectSubtests, JoinedLinks, Cascade, Without;
  }

  // ---- The columns of the submissions ----

  /** The columns that say where a submission comes from, and those that hold its result, are the same in both. */
  predicate SameResult(a: Submission, b: Submission) {
    && a.score == b.score && a.maxTime == b.maxTime && a.maxMemory == b.maxMemory && a.compileError == b.compileError
    && a.compileMessage == b.compileMessage && a.icpcVerdict == b.icpcVerdict && a.compileDuration == b.compileDuration
  }

  /** Everything forgotten: no score, nothing used, no error, no message, no verdict and no duration. */
  predicate NoResult(a: Submission) {
    && a.score == 0.0 && a.maxTime == -1.0 && a.maxMemory == -1 && a.compileError == Some(false)
    && a.compileMessage == Some("") && a.icpcVerdict == None && a.compileDuration == None
  }

  /** Initialising gives a submission the settings of its problem and puts it in the queue; its result stays. */
  lemma InitialisedColumns(d: Tables, e: Tables, ids: set<int>, c: Catalog, s: int)
    requires Initialises(d, e, ids, c)
    ensures s in d.subs <==> s in e.subs
    ensures s in d.subs && s !in ids ==> e.subs[s] == d.subs[s]
    ensures s in d.subs && s in ids ==>
      var (before, after) := (d.subs[s], e.subs[s]);
      && after.status == Waiting && SameOrigin(before, after) && SameResult(before, after)
      && if before.problemId in c.problems then
           var p := c.problems[before.problemId];
           && (after.submissionType == Icpc <==> p.strategy == AcmIcpc)
           && after.digitPrecision == p.digitPrecision && after.scoreScale == p.scoreScale
         else
           && after.submissionType == Classic
           && after.digitPrecision == before.digitPrecision && after.scoreScale == before.scoreScale
  {
    hide Inserted, SelectSubtasks, SelectSubtests, JoinedLinks;
  }

  /** A reset does the same, and forgets the result. */
  lemma ResetColumns(d: Tables, e: Tables, ids: set<int>, c: Catalog, s: int)
    requires Resets(d, e, ids, c)
    ensures s in d.subs <==> s in e.subs
    ensures s in d.subs && s !in ids ==> e.subs[s] == d.subs[s]
    ensures s in d.subs && s in ids ==>
      var (before, after) := (d.subs[s], e.subs[s]);
      && after.status == Waiting && SameOrigin(before, after) && NoResult(after)
      && if before.problemId in c.problems then
           var p := c.problems[before.problemId];
           && (after.submissionType == Icpc <==> p.strategy == AcmIcpc)
           && after.digitPrecision == p.digitPrecision && after.scoreScale == p.scoreScale
         else
           && after.submissionType == Classic
           && after.digitPrecision == before.digitPrecision && after.scoreScale == 100.0
  {
    hide Initialises, Without, Cascade;
    var cleared := ClearedTables(d, ids);
    InitialisedColumns(cleared, e, ids, c, s);
    ClearedColumns(d.subs, ids, s);
  }

  /** What is left of a selected submission when only clearing had an effect. */
  lemma ClearedColumns(subs: map<int, Submission>, ids: set<int>, s: int)
    ensures s in subs <==> s in UpdateClear(subs, ids)
    ensures s in subs && s !in ids ==> UpdateClear(subs, ids)[s] == subs[s]
    ensures s in subs && s in ids ==>
      var (before, after) := (subs[s], UpdateClear(subs, ids)[s]);
      && after.status == Creating && SameOrigin(before, after) && NoResult(after) && after.scoreScale == 100.0
      && after.submissionType == before.submissionType && after.digitPrecision == before.digitPrecision
  {
  }

  // ---- The columns of the rows that are inserted ----

  /** A subtest that has not been run: the numbers of its test, the submission's time, and the defaults. */
  predicate FreshSubtest(x: Subtest, r: Submission, t: Test) {
    && x.createdAt == r.createdAt && x.visibleId == t.visibleId && x.score == t.score
    && !x.done && x.verdict == "" && x.time == 0.0 && x.memory == 0 && x.percentage == 0.0 && !x.skipped
  }

  /** A subtask that has not been assessed: the submission's owner, time and settings, and the subtask's numbers. */
  predicate FreshSubtask(x: SubmissionSubtask, r: Submission, t: Subtask) {
    && x.createdAt == r.createdAt && x.userId == r.userId && x.contestId == r.contestId
    && x.digitPrecision == r.digitPrecision && x.scoreScale == r.scoreScale
    && x.problemId == t.problemId && x.visibleId == t.visibleId && x.score == t.score && x.finalPercentage == None
  }

  /** Of the rows that were not there before, exactly one is the submission's row for that test or subtask. */
  ghost predicate OneAdded<B>(before: Table<B>, after: Table<B>, s: int, t: int) {
    && (exists i :: i in after && i !in before && after[i].submissionId == s && after[i].source == Some(t))
    && forall i, j | i in after && i !in before && j in after && j !in before
         && after[i].submissionId == after[j].submissionId == s
         && after[i].source == after[j].source == Some(t) :: i == j
  }

  lemma AddedIsCopied<B>(before: Table<B>, after: Table<B>, sel: Selection<B>, i: int)
    requires Inserted(before, after, sel) && i in after && i !in before
    ensures Copies(after[i], sel)
  {
  }

  lemma SelectedIsAdded<B>(before: Table<B>, after: Table<B>, sel: Selection<B>, s: int, t: int)
    requires Inserted(before, after, sel) && (s, t) in sel
    ensures OneAdded(before, after, s, t)
  {
    hide Copies;
    assert Holds(after, before, s, t);
  }

  /** The last statement changes nothing but the status. */
  lemma SameAsReady(ready: map<int, Submission>, ids: set<int>)
    ensures
      var last := UpdateWaiting(ready, ids);
      forall s :: (s in last <==> s in ready) && (s in last && s in ids ==> last[s] == ready[s].(status := Waiting))
  {
  }

  lemma SubtestIsFresh(ready: map<int, Submission>, last: map<int, Submission>, ids: set<int>, c: Catalog,
      row: Row<Subtest>)
    requires Copies(row, SelectSubtests(ready, ids, c))
    requires forall s ::
      (s in last <==> s in ready) && (s in last && s in ids ==> last[s] == ready[s].(status := Waiting))
    ensures row.submissionId in ids && row.submissionId in last && row.source.Some? && row.source.value in c.tests
    ensures c.tests[row.source.value].problemId == last[row.submissionId].problemId
    ensures FreshSubtest(row.copied, last[row.submissionId], c.tests[row.source.value])
  {
  }

  lemma SubtaskIsFresh(ready: map<int, Submission>, last: map<int, Submission>, ids: set<int>, c: Catalog,
      row: Row<SubmissionSubtask>)
    requires Copies(row, SelectSubtasks(ready, ids, c))
    requires forall s ::
      (s in last <==> s in ready) && (s in last && s in ids ==> last[s] == ready[s].(status := Waiting))
    ensures row.submissionId in ids && row.submissionId in last && row.source.Some? && row.source.value in c.subtasks
    ensures c.subtasks[row.source.value].problemId == last[row.submissionId].problemId
    ensures FreshSubtask(row.copied, last[row.submissionId], c.subtasks[row.source.value])
  {
  }

  /** What initialising adds: a fresh subtest for each selected submission and test of its problem, and nothing else. */
  lemma InitialisedSubtests(d: Tables, e: Tables, ids: set<int>, c: Catalog)
    requires Initialises(d, e, ids, c)
    ensures forall i | i in d.subtests :: i in e.subtests && e.subtests[i] == d.subtests[i]
    ensures forall i | i in e.subtests && i !in d.subtests ::
      var (s, source) := (e.subtests[i].submissionId, e.subtests[i].source);
      && s in ids && s in e.subs && source.Some? && source.value in c.tests
      && c.tests[source.value].problemId == e.subs[s].problemId
      && FreshSubtest(e.subtests[i].copied, e.subs[s], c.tests[source.value])
    ensures forall s, t | s in ids && s in e.subs && t in c.tests && c.tests[t].problemId == e.subs[s].problemId ::
      OneAdded(d.subtests, e.subtests, s, t)
  {
    hide Inserted, Copies, SelectSubtests, FreshSubtest, UpdateInit, UpdateWaiting;
    var ready := UpdateInit(d.subs, ids, c);
    var sel := SelectSubtests(ready, ids, c);
    SameAsReady(ready, ids);
    forall i | i in d.subtests ensures i in e.subtests && e.subtests[i] == d.subtests[i] {
      OldRowsStay(d.subtests, e.subtests, sel, i);
    }
    forall i | i in e.subtests && i !in d.subtests
      ensures
        var (s, source) := (e.subtests[i].submissionId, e.subtests[i].source);
        && s in ids && s in e.subs && source.Some? && source.value in c.tests
        && c.tests[source.value].problemId == e.subs[s].problemId
        && FreshSubtest(e.subtests[i].copied, e.subs[s], c.tests[source.value])
    {
      AddedIsCopied(d.subtests, e.subtests, sel, i);
      SubtestIsFresh(ready, e.subs, ids, c, e.subtests[i]);
    }
    forall s, t | s in ids && s in e.subs && t in c.tests && c.tests[t].problemId == e.subs[s].problemId
      ensures OneAdded(d.subtests, e.subtests, s, t)
    {
      SubtestSelected(ready, ids, c, s, t);
      SelectedIsAdded(d.subtests, e.subtests, sel, s, t);
    }
  }

  /** The same for subtasks: the rows carry the settings that the submission ends with. */
  lemma InitialisedSubtasks(d: Tables, e: Tables, ids: set<int>, c: Catalog)
    requires Initialises(d, e, ids, c)
    ensures forall i | i in d.subtasks :: i in e.subtasks && e.subtasks[i] == d.subtasks[i]
    ensures forall i | i in e.subtasks && i !in d.subtasks ::
      var (s, source) := (e.subtasks[i].submissionId, e.subtasks[i].source);
      && s in ids && s in e.subs && source.Some? && source.value in c.subtasks
      && c.subtasks[source.value].problemId == e.subs[s].problemId
      && FreshSubtask(e.subtasks[i].copied, e.subs[s], c.subtasks[source.value])
    ensures forall s, t ::
      s in ids && s in e.subs && t in c.subtasks && c.subtasks[t].problemId == e.subs[s].problemId ==>
        OneAdded(d.subtasks, e.subtasks, s, t)
  {
    hide Inserted, Copies, SelectSubtasks, FreshSubtask, UpdateInit, UpdateWaiting;
    var ready := UpdateInit(d.subs, ids, c);
    var sel := SelectSubtasks(ready, ids, c);
    SameAsReady(ready, ids);
    forall i | i in d.subtasks ensures i in e.subtasks && e.subtasks[i] == d.subtasks[i] {
      OldRowsStay(d.subtasks, e.subtasks, sel, i);
    }
    forall i | i in e.subtasks && i !in d.subtasks
      ensures
        var (s, source) := (e.subtasks[i].submissionId, e.subtasks[i].source);
        && s in ids && s in e.subs && source.Some? && source.value in c.subtasks
        && c.subtasks[source.value].problemId == e.subs[s].problemId
        && FreshSubtask(e.subtasks[i].copied, e.subs[s], c.subtasks[source.value])
    {
      AddedIsCopied(d.subtasks, e.subtasks, sel, i);
      SubtaskIsFresh(ready, e.subs, ids, c, e.subtasks[i]);
    }
    forall s, t | s in ids && s in e.subs && t in c.subtasks && c.subtasks[t].problemId == e.subs[s].problemId
      ensures OneAdded(d.subtasks, e.subtasks, s, t)
    {
      SubtaskSelected(ready, ids, c, s, t);
      SelectedIsAdded(d.subtasks, e.subtasks, sel, s, t);
    }
  }

  /** And the links that are added join exactly the rows of a selected submission whose subtask holds the test. */
  lemma InitialisedLinks(d: Tables, e: Tables, ids: set<int>, c: Catalog, k: int, j: int)
    requires Initialises(d, e, ids, c)
    ensures (k, j) in e.links <==>
      || (k, j) in d.links
      || (k in e.subtasks && j in e.subtests
          && e.subtasks[k].submissionId == e.subtests[j].submissionId && e.subtests[j].submissionId in ids
          && e.subtasks[k].source.Some? && e.subtests[j].source.Some?
          && (e.subtasks[k].source.value, e.subtests[j].source.value) in c.subtaskTests)
  {
    hide Inserted, UpdateInit, UpdateWaiting, SelectSubtasks, SelectSubtests;
  }

  /**
    Initialising fails exactly when a selected submission already has a row for a subtask of its
    problem, or two of its rows that should be linked already are.
  */
  lemma ClashMeans(d: Tables, ids: set<int>, c: Catalog)
    ensures Clashes(d, ids, c) <==>
      || (exists i :: i in d.subtasks && d.subtasks[i].submissionId in ids && d.subtasks[i].submissionId in d.subs
            && d.subtasks[i].source.Some? && d.subtasks[i].source.value in c.subtasks
            && c.subtasks[d.subtasks[i].source.value].problemId == d.subs[d.subtasks[i].submissionId].problemId)
      || (exists k, j :: (k, j) in d.links && k in d.subtasks && j in d.subtests
            && d.subtasks[k].submissionId == d.subtests[j].submissionId && d.subtests[j].submissionId in ids
            && d.subtasks[k].source.Some? && d.subtests[j].source.Some?
            && (d.subtasks[k].source.value, d.subtests[j].source.value) in c.subtaskTests)
  {
    var sel := SelectSubtasks(d.subs, ids, c);
    forall s, t ensures (s, t) in sel <==>
      s in ids && s in d.subs && t in c.subtasks && c.subtasks[t].problemId == d.subs[s].problemId
    {
      SubtaskSelected(d.subs, ids, c, s, t);
    }
    var joined := JoinedLinks(d.subtasks, d.subtests, ids, c);
    if joined * d.links != {} {
      var l := Pick(joined * d.links);
      assert l in d.links && l == (l.0, l.1);
    }
    forall k, j | (k, j) in d.links && k in d.subtasks && j in d.subtests && Joins(d.subtasks[k], d.subtests[j], ids, c)
      ensures joined * d.links != {}
    {
      assert (k, j) in joined * d.links;
    }
  }

  /** The tables the inserts start from hold nothing of the selected submissions. */
  lemma NothingLeft<B>(t: Table<B>, ids: set<int>)
    ensures forall i | i in Without(t, ids) :: t[i].submissionId !in ids && Without(t, ids)[i] == t[i]
  {
  }

  /** A selected submission has one fresh subtest for each test of its problem, and no other. */
  lemma OneSubtestPerTest(d: Tables, e: Tables, ids: set<int>, c: Catalog, s: int)
    requires Resets(d, e, ids, c) && s in ids && s in d.subs
    ensures forall i | i in e.subtests && e.subtests[i].submissionId == s ::
      && e.subtests[i].source.Some? && e.subtests[i].source.value in c.tests
      && c.tests[e.subtests[i].source.value].problemId == d.subs[s].problemId
      && FreshSubtest(e.subtests[i].copied, d.subs[s], c.tests[e.subtests[i].source.value])
    ensures forall t | t in c.tests && c.tests[t].problemId == d.subs[s].problemId ::
      Has(e.subtests, s, t)
    ensures forall i, j | i in e.subtests && j in e.subtests && e.subtests[i].submissionId == s
      && e.subtests[j].submissionId == s && e.subtests[i].source == e.subtests[j].source :: i == j
  {
    var base := Without(d.subtests, ids);
    var ready := UpdateInit(UpdateClear(d.subs, ids), ids, c);
    var sel := SelectSubtests(ready, ids, c);
    NothingLeft(d.subtests, ids);
    assert Inserted(base, e.subtests, sel);
    OwnRows(base, e.subtests, sel, s);
    OriginKept(d.subs[s], c);
    forall t ensures (s, t) in sel <==> t in c.tests && c.tests[t].problemId == d.subs[s].problemId {
      SubtestSelected(ready, ids, c, s, t);
    }
    forall t | (s, t) in sel ensures sel[(s, t)] == NewSubtest(d.subs[s], c.tests[t]) {
    }
  }

  lemma OriginKept(r: Submission, c: Catalog)
    ensures SameOrigin(r, Initialised(Cleared(r), c))
  {
  }

  /** When a submission had no rows before the insert, what it has afterwards is what was selected for it. */
  lemma OwnRows<B>(base: Table<B>, after: Table<B>, sel: Selection<B>, s: int)
    requires Inserted(base, after, sel) && forall i | i in base :: base[i].submissionId != s
    ensures forall i | i in after && after[i].submissionId == s :: i !in base && Copies(after[i], sel)
    ensures forall t | (s, t) in sel :: Has(after, s, t)
    ensures forall i, j | i in after && j in after && after[i].submissionId == s && after[j].submissionId == s
      && after[i].source == after[j].source :: i == j
  {
    hide Copies;
    forall t | (s, t) in sel ensures Has(after, s, t) {
      assert Holds(after, base, s, t);
      var i :| i in after && i !in base && after[i].submissionId == s && after[i].source == Some(t);
      assert i in after && after[i].submissionId == s && after[i].source == Some(t);
    }
  }

  /** Likewise one fresh row for each subtask, carrying the settings the submission now has. */
  lemma OneRowPerSubtask(d: Tables, e: Tables, ids: set<int>, c: Catalog, s: int)
    requires Resets(d, e, ids, c) && s in ids && s in d.subs
    ensures s in e.subs
    ensures forall i | i in e.subtasks && e.subtasks[i].submissionId == s ::
      && e.subtasks[i].source.Some? && e.subtasks[i].source.value in c.subtasks
      && c.subtasks[e.subtasks[i].source.value].problemId == d.subs[s].problemId
      && FreshSubtask(e.subtasks[i].copied, e.subs[s], c.subtasks[e.subtasks[i].source.value])
    ensures forall t | t in c.subtasks && c.subtasks[t].problemId == d.subs[s].problemId ::
      Has(e.subtasks, s, t)
    ensures forall i, j | i in e.subtasks && j in e.subtasks && e.subtasks[i].submissionId == s
      && e.subtasks[j].submissionId == s && e.subtasks[i].source == e.subtasks[j].source :: i == j
  {
    var base := Without(d.subtasks, ids);
    var ready := UpdateInit(UpdateClear(d.subs, ids), ids, c);
    var sel := SelectSubtasks(ready, ids, c);
    NothingLeft(d.subtasks, ids);
    assert Inserted(base, e.subtasks, sel);
    OwnRows(base, e.subtasks, sel, s);
    OriginKept(d.subs[s], c);
    forall t ensures (s, t) in sel <==> t in c.subtasks && c.subtasks[t].problemId == d.subs[s].problemId {
      SubtaskSelected(ready, ids, c, s, t);
    }
    forall t | (s, t) in sel ensures sel[(s, t)] == NewSubtask(Renewed(d.subs[s], c), c.subtasks[t]) {
    }
  }

  /** A row of a selected submission is linked exactly as its problem's subtasks hold its tests. */
  lemma LinkedAsInTheProblem(d: Tables, e: Tables, ids: set<int>, c: Catalog, k: int, j: int)
    requires WellFormed(d) && Resets(d, e, ids, c) && k in e.subtasks && j in e.subtests
    requires e.subtasks[k].submissionId in ids || e.subtests[j].submissionId in ids
    ensures (k, j) in e.links <==>
      && e.subtasks[k].submissionId == e.subtests[j].submissionId
      && e.subtasks[k].source.Some? && e.subtests[j].source.Some?
      && (e.subtasks[k].source.value, e.subtests[j].source.value) in c.subtaskTests
  {
    hide Resets, Joins, JoinedLinks, ClearedTables;
    LinksAfter(d, e, ids, c);
    InJoined(e.subtasks, e.subtests, ids, c, k, j);
    if (k, j) in ClearedTables(d, ids).links {
      OldLinksAreOutside(d, e, ids, c, k, j);
    }
    JoinsMeans(e.subtasks[k], e.subtests[j], ids, c);
  }

  lemma LinksAfter(d: Tables, e: Tables, ids: set<int>, c: Catalog)
    requires Resets(d, e, ids, c)
    ensures e.links == ClearedTables(d, ids).links + JoinedLinks(e.subtasks, e.subtests, ids, c)
  {
    hide Inserted, ClearedTables, JoinedLinks, UpdateInit, UpdateWaiting, SelectSubtasks, SelectSubtests;
  }

  lemma InJoined(subtasks: Table<SubmissionSubtask>, subtests: Table<Subtest>, ids: set<int>, c: Catalog, k: int,
      j: int)
    requires k in subtasks && j in subtests
    ensures (k, j) in JoinedLinks(subtasks, subtests, ids, c) <==> Joins(subtasks[k], subtests[j], ids, c)
  {
    hide Joins;
  }

  lemma JoinsMeans(k: Row<SubmissionSubtask>, j: Row<Subtest>, ids: set<int>, c: Catalog)
    ensures Joins(k, j, ids, c) <==>
      && k.submissionId == j.submissionId && j.submissionId in ids
      && k.source.Some? && j.source.Some? && (k.source.value, j.source.value) in c.subtaskTests
  {
  }

  /** A link that survives the reset joins two rows of submissions that were not selected. */
  lemma OldLinksAreOutside(d: Tables, e: Tables, ids: set<int>, c: Catalog, k: int, j: int)
    requires Resets(d, e, ids, c) && (k, j) in ClearedTables(d, ids).links
    ensures k in d.subtasks && e.subtasks[k] == d.subtasks[k] && d.subtasks[k].submissionId !in ids
    ensures j in d.subtests && e.subtests[j] == d.subtests[j] && d.subtests[j].submissionId !in ids
  {
    hide Copies, Holds, SelectSubtasks, SelectSubtests, JoinedLinks, UpdateInit, UpdateClear, UpdateWaiting;
    assert k in Without(d.subtasks, ids) && j in Without(d.subtests, ids);
  }

  /** Of the other submissions everything stays: the row, its children with their ids, and their links. */
  lemma OthersUnchanged(d: Tables, e: Tables, ids: set<int>, c: Catalog)
    requires WellFormed(d) && Resets(d, e, ids, c)
    ensures forall s | s in d.subs && s !in ids :: s in e.subs && e.subs[s] == d.subs[s]
    ensures Without(e.subtests, ids) == Without(d.subtests, ids)
    ensures Without(e.subtasks, ids) == Without(d.subtasks, ids)
    ensures forall k, j | k in Without(d.subtasks, ids) && j in Without(d.subtests, ids) ::
      (k, j) in e.links <==> (k, j) in d.links
  {
    RenewedRows(d, e, ids, c);
    OutsideInsert(d.subtests, e.subtests, SelectSubtests(UpdateInit(UpdateClear(d.subs, ids), ids, c), ids, c), ids);
    OutsideInsert(d.subtasks, e.subtasks, SelectSubtasks(UpdateInit(UpdateClear(d.subs, ids), ids, c), ids, c), ids);
  }

  lemma OutsideInsert<B>(before: Table<B>, after: Table<B>, sel: Selection<B>, ids: set<int>)
    requires Inserted(Without(before, ids), after, sel) && forall k | k in sel :: k.0 in ids
    ensures Without(after, ids) == Without(before, ids)
  {
    hide Holds, Copies;
    forall i | i in after && after[i].submissionId !in ids ensures i in Without(before, ids) {
      CopiesInside(after[i], sel, ids);
    }
    assert forall i | i in Without(before, ids) :: i in after && after[i] == before[i];
    assert Without(after, ids).Keys <= Without(before, ids).Keys;
    assert Without(before, ids).Keys <= Without(after, ids).Keys;
  }

  lemma CopiesInside<B>(r: Row<B>, sel: Selection<B>, ids: set<int>)
    requires forall k | k in sel :: k.0 in ids
    ensures Copies(r, sel) ==> r.submissionId in ids
  {
  }

  // ---- Nothing of the past survives ----

  /** Two databases that differ at most in what the selected submissions went through. */
  ghost predicate SameElsewhere(a: Tables, b: Tables, ids: set<int>) {
    && a.subs.Keys == b.subs.Keys
    && (forall s | s in a.subs :: if s in ids then SameOrigin(a.subs[s], b.subs[s]) else a.subs[s] == b.subs[s])
    && Without(a.subtests, ids) == Without(b.subtests, ids)
    && Without(a.subtasks, ids) == Without(b.subtasks, ids)
    && (forall k, j | k in Without(a.subtasks, ids) && j in Without(a.subtests, ids) ::
          (k, j) in a.links <==> (k, j) in b.links)
  }

  /** Equal tables, once the rows of the one are renamed to those of the other. */
  ghost predicate SameUpToRowIds(a: Tables, b: Tables, tests: map<int, int>, tasks: map<int, int>) {
    && a.subs == b.subs && Renames(a.subtests, b.subtests, tests) && Renames(a.subtasks, b.subtasks, tasks)
    && (forall k, j | k in a.subtasks && j in a.subtests :: (k, j) in a.links <==> (tasks[k], tests[j]) in b.links)
  }

  lemma SameReady(a: map<int, Submission>, b: map<int, Submission>, ids: set<int>, c: Catalog)
    requires a.Keys == b.Keys
    requires forall s | s in a :: if s in ids then SameOrigin(a[s], b[s]) else a[s] == b[s]
    requires forall s | s in ids :: s in a && a[s].problemId in c.problems
    ensures UpdateInit(UpdateClear(a, ids), ids, c) == UpdateInit(UpdateClear(b, ids), ids, c)
  {
    hide Initialised, Cleared, SameOrigin;
    forall s | s in ids ensures Initialised(Cleared(a[s]), c) == Initialised(Cleared(b[s]), c) {
      ReadyForgets(a[s], b[s], c);
    }
    var x, y := UpdateInit(UpdateClear(a, ids), ids, c), UpdateInit(UpdateClear(b, ids), ids, c);
    assert x.Keys == a.Keys && y.Keys == b.Keys;
    assert forall s | s in a :: x[s] == y[s];
  }

  lemma ReadyForgets(a: Submission, b: Submission, c: Catalog)
    requires SameOrigin(a, b) && a.problemId in c.problems
    ensures Initialised(Cleared(a), c) == Initialised(Cleared(b), c)
  {
  }

  lemma SameClearedLinks(a: Tables, b: Tables, ids: set<int>)
    requires SameElsewhere(a, b, ids)
    ensures ClearedTables(a, ids).links == ClearedTables(b, ids).links
    ensures forall l | l in ClearedTables(a, ids).links ::
      l.0 in Without(a.subtasks, ids) && l.1 in Without(a.subtests, ids)
  {
    hide Without, SameOrigin, UpdateClear;
    forall l ensures l in ClearedTables(a, ids).links <==> l in ClearedTables(b, ids).links {
      var (k, j) := l;
    }
  }

  /** Once both selections are initialised from the same rows, the outcomes are the same up to row ids. */
  lemma SameOutcome(a: Tables, a1: Tables, b: Tables, b1: Tables, ids: set<int>, c: Catalog)
    returns (tests: map<int, int>, tasks: map<int, int>)
    requires Resets(a, a1, ids, c) && Resets(b, b1, ids, c) && SameElsewhere(a, b, ids)
    requires UpdateInit(UpdateClear(a.subs, ids), ids, c) == UpdateInit(UpdateClear(b.subs, ids), ids, c)
    ensures SameUpToRowIds(a1, b1, tests, tasks)
  {
    hide Inserted, Renames, Fixes, SelectSubtests, SelectSubtasks, Without, UpdateInit, UpdateWaiting, UpdateClear,
         SameOrigin, JoinedLinks, Cascade, Joins;
    var ready := UpdateInit(UpdateClear(a.subs, ids), ids, c);
    tests := SameUpToIds(Without(a.subtests, ids), a1.subtests, b1.subtests, SelectSubtests(ready, ids, c));
    tasks := SameUpToIds(Without(a.subtasks, ids), a1.subtasks, b1.subtasks, SelectSubtasks(ready, ids, c));
    SameLinks(a, a1, b, b1, ids, c, tests, tasks);
  }

  lemma SameLinks(a: Tables, a1: Tables, b: Tables, b1: Tables, ids: set<int>, c: Catalog, tests: map<int, int>,
      tasks: map<int, int>)
    requires Resets(a, a1, ids, c) && Resets(b, b1, ids, c) && SameElsewhere(a, b, ids)
    requires Renames(a1.subtests, b1.subtests, tests) && Renames(a1.subtasks, b1.subtasks, tasks)
    requires Fixes(tests, Without(a.subtests, ids).Keys) && Fixes(tasks, Without(a.subtasks, ids).Keys)
    requires forall i | i in a1.subtests && i !in Without(a.subtests, ids) :: tests[i] !in Without(a.subtests, ids)
    requires forall i | i in a1.subtasks && i !in Without(a.subtasks, ids) :: tasks[i] !in Without(a.subtasks, ids)
    ensures forall k, j | k in a1.subtasks && j in a1.subtests ::
      (k, j) in a1.links <==> (tasks[k], tests[j]) in b1.links
  {
    hide Resets, SameElsewhere, Joins, JoinedLinks, ClearedTables, Without;
    LinksAfter(a, a1, ids, c);
    LinksAfter(b, b1, ids, c);
    SameClearedLinks(a, b, ids);
    forall k, j | k in a1.subtasks && j in a1.subtests
      ensures (k, j) in a1.links <==> (tasks[k], tests[j]) in b1.links
    {
      InJoined(a1.subtasks, a1.subtests, ids, c, k, j);
      InJoined(b1.subtasks, b1.subtests, ids, c, tasks[k], tests[j]);
      if (k, j) in ClearedTables(a, ids).links {
        assert tasks[k] == k && tests[j] == j;
      }
    }
  }

  /** However the selected submissions got where they were, resetting them leads to the same tables up to row ids. */
  lemma SelectionForgets(a: Tables, a1: Tables, b: Tables, b1: Tables, ids: set<int>, c: Catalog)
    returns (tests: map<int, int>, tasks: map<int, int>)
    requires Resets(a, a1, ids, c) && Resets(b, b1, ids, c)
    requires SameElsewhere(a, b, ids) && Existing(a, ids, c)
    ensures SameUpToRowIds(a1, b1, tests, tasks)
  {
    hide Resets, Without, SameOrigin, UpdateInit, UpdateClear;
    SameReady(a.subs, b.subs, ids, c);
    tests, tasks := SameOutcome(a, a1, b, b1, ids, c);
  }

  lemma RenewedIsReady(r: Submission, c: Catalog)
    ensures Initialised(Cleared(Renewed(r, c)), c) == Initialised(Cleared(r), c)
    ensures SameOrigin(r, Renewed(r, c)) && Renewed(r, c).status == Waiting
    ensures Renewed(r, c).score == 0.0 && Renewed(r, c).compileError == Some(false)
  {
  }

  /** What is initialised is the same after a reset as before it. */
  lemma ReadyAgain(a: Tables, b: Tables, ids: set<int>, c: Catalog)
    requires Resets(a, b, ids, c)
    ensures UpdateInit(UpdateClear(a.subs, ids), ids, c) == UpdateInit(UpdateClear(b.subs, ids), ids, c)
  {
    hide Resets, Renewed, Initialised, Cleared;
    RenewedRows(a, b, ids, c);
    forall s | s in a.subs
      ensures Initialised(Cleared(Renewed(a.subs[s], c)), c) == Initialised(Cleared(a.subs[s]), c)
    {
      RenewedIsReady(a.subs[s], c);
    }
    var x, y := UpdateInit(UpdateClear(a.subs, ids), ids, c), UpdateInit(UpdateClear(b.subs, ids), ids, c);
    assert x.Keys == a.subs.Keys && y.Keys == b.subs.Keys;
    assert forall s | s in a.subs :: x[s] == y[s];
  }

  /** Resetting a selection twice is resetting it once, up to row ids. */
  lemma SelectionTwice(a: Tables, b: Tables, b2: Tables, ids: set<int>, c: Catalog)
    returns (tests: map<int, int>, tasks: map<int, int>)
    requires WellFormed(a) && Resets(a, b, ids, c) && Resets(b, b2, ids, c)
    ensures SameUpToRowIds(b, b2, tests, tasks)
  {
    hide Resets, Without, Renewed, UpdateInit, UpdateClear, SameOrigin, SameUpToRowIds;
    RenewedRows(a, b, ids, c);
    OthersUnchanged(a, b, ids, c);
    forall s | s in a.subs ensures SameOrigin(a.subs[s], Renewed(a.subs[s], c)) {
      RenewedIsReady(a.subs[s], c);
    }
    ReadyAgain(a, b, ids, c);
    tests, tasks := SameOutcome(a, b, b, b2, ids, c);
  }

  // ---- When a filter may be used to reset ----

  /** What ResetSubmissions leaves behind. */
  ghost predicate Outcome(f: SubmissionFilter, d: Tables, e: Tables, c: Catalog, w: World) {
    var ids := Matched(f, d.subs, w);
    if Stable(f) then Resets(d, e, ids, c) else e == d.(subs := UpdateClear(d.subs, ids))
  }

  lemma SameAsItself(d: Tables) returns (tests: map<int, int>, tasks: map<int, int>)
    ensures SameUpToRowIds(d, d, tests, tasks)
  {
    tests := map i | i in d.subtests :: i;
    tasks := map i | i in d.subtasks :: i;
    assert forall i | i in d.subtests :: tests[i] == i;
    assert forall i | i in d.subtasks :: tasks[i] == i;
  }

  /** What a stable filter selects after its own reset: the same submissions, or none when it asks for `creating`. */
  lemma MatchedAfterReset(f: SubmissionFilter, d: Tables, e: Tables, c: Catalog, w: World)
    requires Stable(f) && Resets(d, e, Matched(f, d.subs, w), c)
    ensures Matched(f, e.subs, w) == if f.status.None? then Matched(f, d.subs, w) else {}
  {
    hide Resets, Satisfies, Renewed, Stable;
    var ids := Matched(f, d.subs, w);
    RenewedRows(d, e, ids, c);
    forall s | s in d.subs ensures Satisfies(f, e.subs[s], w) <==> s in ids && f.status.None? {
      if s in ids {
        RenewedSatisfies(f, d.subs[s], c, w);
      }
    }
  }

  lemma RenewedSatisfies(f: SubmissionFilter, r: Submission, c: Catalog, w: World)
    requires Stable(f) && Satisfies(f, r, w)
    ensures Satisfies(f, Renewed(r, c), w) <==> f.status.None?
  {
    hide Renewed;
    RenewedIsReady(r, c);
  }

  /** A reset whose filter selects nothing changes nothing. */
  lemma NothingSelected(f: SubmissionFilter, d: Tables, e: Tables, c: Catalog, w: World)
    requires WellFormed(d) && Outcome(f, d, e, c, w) && Matched(f, d.subs, w) == {}
    ensures e == d
  {
    hide Matched, Initialises, UpdateClear, Without, Cascade;
    ClearedNothing(d, {});
    ClearNothing(d.subs);
    if Stable(f) {
      InitialisesNothing(ClearedTables(d, {}), e, c);
    }
  }

  lemma ClearNothing(subs: map<int, Submission>)
    ensures UpdateClear(subs, {}) == subs
  {
  }

  /** A reset keeps every key and constraint of the schema. */
  lemma ResetKeepsWellFormed(d: Tables, e: Tables, ids: set<int>, c: Catalog)
    requires WellFormed(d) && Resets(d, e, ids, c)
    ensures WellFormed(e)
  {
    hide Inserted, SelectSubtasks, SelectSubtests, SubtaskClash, JoinedLinks, UpdateInit, UpdateWaiting, UpdateClear,
         UniqueSubtasks, Without, Cascade;
    var x := ClearedTables(d, ids);
    var ready := UpdateInit(x.subs, ids, c);
    ClearedWellFormed(d, ids);
    ClearedDoNotClash(d, ids, c);
    SameSubtaskKeys(x.subs, ids, c);
    SameClash(x.subtasks, SelectSubtasks(ready, ids, c), SelectSubtasks(x.subs, ids, c));
    StillUnique(x.subtasks, e.subtasks, SelectSubtasks(ready, ids, c));
    LinksExist(x, e.subtasks, e.subtests, SelectSubtasks(ready, ids, c), SelectSubtests(ready, ids, c), ids, c);
    UpdatesKeepIds(x.subs, ids, c);
  }

  lemma OutcomeIsWellFormed(f: SubmissionFilter, d: Tables, e: Tables, c: Catalog, w: World)
    requires WellFormed(d) && Outcome(f, d, e, c, w)
    ensures WellFormed(e)
  {
    hide Resets, WellFormed, Matched;
    if Stable(f) {
      ResetKeepsWellFormed(d, e, Matched(f, d.subs, w), c);
    } else {
      ClearedNothing(d, Matched(f, d.subs, w));
    }
  }

  /** Resetting twice by any filter, which selects anew the second time, is resetting once, up to row ids. */
  lemma ResetTwice(f: SubmissionFilter, a: Tables, b: Tables, b2: Tables, c: Catalog, w: World)
    returns (tests: map<int, int>, tasks: map<int, int>)
    requires WellFormed(a) && Outcome(f, a, b, c, w) && Outcome(f, b, b2, c, w)
    ensures SameUpToRowIds(b, b2, tests, tasks)
  {
    hide Resets, Matched, WellFormed, SameUpToRowIds;
    OutcomeIsWellFormed(f, a, b, c, w);
    if Stable(f) {
      MatchedAfterReset(f, a, b, c, w);
    } else {
      MatchedAfterClear(f, a.subs, w);
    }
    if Matched(f, b.subs, w) == {} {
      NothingSelected(f, b, b2, c, w);
      tests, tasks := SameAsItself(b);
    } else {
      tests, tasks := SelectionTwice(a, b, b2, Matched(f, a.subs, w), c);
    }
  }

  /** The filter only asks for fields that the reset does not write. */
  predicate OnOrigin(f: SubmissionFilter) {
    f.status.None? && !f.waiting && f.score.None? && f.compileError.None?
  }

  lemma OriginSatisfies(f: SubmissionFilter, a: Submission, b: Submission, w: World)
    requires OnOrigin(f) && SameOrigin(a, b)
    ensures Satisfies(f, a, w) <==> Satisfies(f, b, w)
  {
  }

  /**
    Two databases that differ at most in what the submissions of a filter went through: the filter
    selects the same in both, and resetting by it leads to the same tables up to row ids.
  */
  lemma HistoryIndependent(f: SubmissionFilter, a: Tables, a1: Tables, b: Tables, b1: Tables, c: Catalog, w: World)
    returns (tests: map<int, int>, tasks: map<int, int>)
    requires OnOrigin(f) && SameElsewhere(a, b, Matched(f, a.subs, w)) && Existing(a, Matched(f, a.subs, w), c)
    requires Outcome(f, a, a1, c, w) && Outcome(f, b, b1, c, w)
    ensures Matched(f, b.subs, w) == Matched(f, a.subs, w)
    ensures SameUpToRowIds(a1, b1, tests, tasks)
  {
    hide Resets, Without, Satisfies, SameOrigin, SameUpToRowIds;
    var ids := Matched(f, a.subs, w);
    forall s | s in b.subs ensures Satisfies(f, b.subs[s], w) <==> s in ids {
      if s in ids {
        OriginSatisfies(f, a.subs[s], b.subs[s], w);
      }
    }
    assert Matched(f, b.subs, w) == ids;
    tests, tasks := SelectionForgets(a, a1, b, b1, ids, c);
  }

  /** It resets what the filter selected exactly when the filter is stable, or selected nothing. */
  lemma ResetsIffStable(f: SubmissionFilter, d: Tables, e: Tables, c: Catalog, w: World)
    requires WellFormed(d) && Outcome(f, d, e, c, w)
    ensures
      var ids := Matched(f, d.subs, w);
      Resets(d, e, ids, c) <==> Stable(f) || ids == {}
  {
    hide Matched, Stable, Resets;
    var ids := Matched(f, d.subs, w);
    if !Stable(f) {
      if ids == {} {
        ResetsNothing(d, c);
        assert UpdateClear(d.subs, {}) == d.subs;
        assert e == d;
      } else {
        var s := Pick(ids);
        assert s in d.subs by { MatchedExist(f, d.subs, w, s); }
        StuckInCreating(d, e, ids, c, s);
      }
    }
  }

  lemma MatchedExist(f: SubmissionFilter, subs: map<int, Submission>, w: World, s: int)
    requires s in Matched(f, subs, w)
    ensures s in subs
  {
  }

  lemma StuckInCreating(d: Tables, e: Tables, ids: set<int>, c: Catalog, s: int)
    requires s in ids && s in d.subs && e.subs == UpdateClear(d.subs, ids)
    ensures e.subs[s].status == Creating && !Resets(d, e, ids, c)
  {
    if Resets(d, e, ids, c) {
      RenewedRows(d, e, ids, c);
    }
  }

  lemma ResetsNothing(d: Tables, c: Catalog)
    requires WellFormed(d)
    ensures Resets(d, d, {}, c)
  {
    hide Inserted, SelectSubtests, SelectSubtasks, JoinedLinks, UpdateInit, UpdateWaiting, Without, Cascade, WellFormed;
    assert UpdateClear(d.subs, {}) == d.subs;
    ClearedNothing(d, {});
    UpdatesNothing(d.subs, c);
    SelectsNothing(d.subs, c);
    InsertedNothing(d.subtests);
    InsertedNothing(d.subtasks);
    NothingJoined(d.subtasks, d.subtests, c);
  }

  /** For example: asked to reset the finished submissions, it leaves one `creating`, with its old subtests. */
  lemma FinishedStrands(r: Submission, subtests: Table<Subtest>, e: Tables, c: Catalog, w: World)
    requires r.id == 1 && r.status == Finished
    requires Outcome(NO_FILTER.(status := Some(Finished)), Tables(map[1 := r], subtests, map[], {}), e, c, w)
    ensures 1 in e.subs && e.subs[1].status == Creating && e.subtests == subtests
  {
    assert Satisfies(NO_FILTER.(status := Some(Finished)), r, w);
  }
}
