/**
  The tables a submission owns rows in, and the INSERT ... SELECT that fills them. Row ids are
  handed out by the database, so what an insert does is stated up to the choice of ids.
*/
module SubmissionTables {
  import opened Common
  import opened SubmissionTable

  /** A row that belongs to a submission and copies one test or one subtask of its problem, if that still exists. */
  datatype Row<+B> = Row(submissionId: int, source: Option<int>, copied: B)

  type Table<B> = map<int, Row<B>>

  datatype Subtest = Subtest(createdAt: int, visibleId: int, score: real,
                             done: bool, verdict: string, time: real, memory: int, percentage: real, skipped: bool)

  datatype SubmissionSubtask = SubmissionSubtask(
    createdAt: int, userId: int, contestId: Option<int>, problemId: int, visibleId: int, score: real,
    digitPrecision: int, scoreScale: real, finalPercentage: Option<real>)

  datatype Strategy = MaxSubmission | SumSubtasks | AcmIcpc

  datatype Problem = Problem(digitPrecision: int, strategy: Strategy, scoreScale: real)
  datatype Test = Test(problemId: int, visibleId: int, score: real)
  datatype Subtask = Subtask(problemId: int, visibleId: int, score: real)

  /** What the reset reads but does not change. */
  datatype Catalog = Catalog(
    problems: map<int, Problem>, tests: map<int, Test>, subtasks: map<int, Subtask>, subtaskTests: set<(int, int)>)

  type Selection<B> = map<(int, int), B>

  function NewSubtest(r: Submission, t: Test): Subtest {
    Subtest(r.createdAt, t.visibleId, t.score, false, "", 0.0, 0, 0.0, false)
  }

  function NewSubtask(r: Submission, t: Subtask): SubmissionSubtask {
    SubmissionSubtask(r.createdAt, r.userId, r.contestId, t.problemId, t.visibleId, t.score,
                      r.digitPrecision, r.scoreScale, None)
  }

  /** Every matched submission is paired with the tests (subtasks) of its own problem. */
  function SelectSubtests(subs: map<int, Submission>, matched: set<int>, c: Catalog): Selection<Subtest> {
    map s, t | s in matched && s in subs && t in c.tests && c.tests[t].problemId == subs[s].problemId
      :: (s, t) := NewSubtest(subs[s], c.tests[t])
  }

  function SelectSubtasks(subs: map<int, Submission>, matched: set<int>, c: Catalog): Selection<SubmissionSubtask> {
    map s, t | s in matched && s in subs && t in c.subtasks && c.subtasks[t].problemId == subs[s].problemId
      :: (s, t) := NewSubtask(subs[s], c.subtasks[t])
  }

  /** A row of the table that the selection asks for. */
  predicate Copies<B(==)>(r: Row<B>, sel: Selection<B>) {
    r.source.Some? && (r.submissionId, r.source.value) in sel && r.copied == sel[(r.submissionId, r.source.value)]
  }

  ghost predicate Holds<B>(after: Table<B>, before: Table<B>, s: int, t: int) {
    exists i :: i in after && i !in before && after[i].submissionId == s && after[i].source == Some(t)
  }

  /** The rows before, and exactly one new row for every selected pair. */
  ghost predicate Inserted<B>(before: Table<B>, after: Table<B>, sel: Selection<B>) {
    && (forall i | i in before :: i in after && after[i] == before[i])
    && (forall i | i in after && i !in before :: Copies(after[i], sel))
    && (forall s, t | (s, t) in sel :: Holds(after, before, s, t))
    && (forall i, j | i in after && i !in before && j in after && j !in before
          && after[i].submissionId == after[j].submissionId && after[i].source == after[j].source :: i == j)
  }

  ghost predicate Below<B>(t: Table<B>, next: int) {
    forall i | i in t :: i < next
  }

  lemma InsertedNothing<B>(t: Table<B>)
    ensures Inserted(t, t, map[])
  {
  }

  lemma NothingInserted<B>(before: Table<B>, after: Table<B>)
    requires Inserted(before, after, map[])
    ensures after == before
  {
    forall i | i in after ensures i in before {
      NothingCopied(after[i]);
    }
    assert forall i | i in before :: i in after && after[i] == before[i];
    assert forall i | i in after :: i in before && after[i] == before[i];
    assert after.Keys <= before.Keys;
    assert before.Keys <= after.Keys;
    assert after.Keys == before.Keys;
  }

  lemma NothingCopied<B>(r: Row<B>)
    ensures !Copies(r, map[])
  {
  }

  lemma InsertedOne<B>(before: Table<B>, after: Table<B>, sel: Selection<B>, s: int, t: int, b: B, id: int)
    requires Inserted(before, after, sel) && (s, t) !in sel && id !in after && id !in before
    ensures Inserted(before, after[id := Row(s, Some(t), b)], sel[(s, t) := b])
  {
    var more, wider := after[id := Row(s, Some(t), b)], sel[(s, t) := b];
    forall i | i in more && i !in before ensures Copies(more[i], wider) {
      assert i != id ==> Copies(after[i], sel);
    }
    forall p, q | (p, q) in wider ensures Holds(more, before, p, q) {
      if (p, q) == (s, t) {
        assert id in more && id !in before && more[id].submissionId == p && more[id].source == Some(q);
      } else {
        assert Holds(after, before, p, q);
        var i :| i in after && i !in before && after[i].submissionId == p && after[i].source == Some(q);
        assert i in more && more[i] == after[i];
      }
    }
    forall i, j | i in more && i !in before && j in more && j !in before
        && more[i].submissionId == more[j].submissionId && more[i].source == more[j].source
      ensures i == j
    {
      assert i != id ==> Copies(after[i], sel);
      assert j != id ==> Copies(after[j], sel);
    }
  }

  /** The selected rows may be inserted in any order; each takes the next id. */
  method InsertRows<B>(table: Table<B>, next: int, sel: Selection<B>) returns (after: Table<B>, nextAfter: int)
    requires Below(table, next)
    ensures Inserted(table, after, sel) && Below(after, nextAfter) && next <= nextAfter
  {
    hide Inserted;
    after, nextAfter := table, next;
    var todo, done := sel.Keys, map[];
    InsertedNothing(table);
    while todo != {}
      invariant todo <= sel.Keys && done.Keys == sel.Keys - todo && (forall k | k in done :: done[k] == sel[k])
      invariant next <= nextAfter && Below(table, nextAfter) && Below(after, nextAfter) && Inserted(table, after, done)
      decreases |todo|
    {
      var k := PickAny(todo);
      InsertedOne(table, after, done, k.0, k.1, sel[k], nextAfter);
      after := after[nextAfter := Row(k.0, Some(k.1), sel[k])];
      done := done[(k.0, k.1) := sel[k]];
      nextAfter := nextAfter + 1;
      todo := todo - {k};
    }
    assert done == sel;
  }

  /** The rows of the given submissions are deleted. */
  function Without<B>(table: Table<B>, gone: set<int>): Table<B> {
    map i | i in table && table[i].submissionId !in gone :: table[i]
  }

  // ---- Tables that differ only in the ids of the inserted rows ----

  /** `names` renames the rows of `a` to those of `b`, one to one and onto, changing nothing else. */
  ghost predicate Renames<B>(a: Table<B>, b: Table<B>, names: map<int, int>) {
    && names.Keys == a.Keys
    && (forall i | i in a :: names[i] in b && b[names[i]] == a[i])
    && (forall i, j | i in a && j in a && names[i] == names[j] :: i == j)
    && (forall k | k in b :: exists i :: i in a && names[i] == k)
  }

  ghost predicate Fixes(names: map<int, int>, ids: set<int>) {
    forall i | i in ids && i in names :: names[i] == i
  }

  lemma Counterpart<B>(base: Table<B>, a: Table<B>, b: Table<B>, sel: Selection<B>, i: int) returns (j: int)
    requires Inserted(base, a, sel) && Inserted(base, b, sel) && i in a && i !in base
    ensures j in b && j !in base && b[j] == a[i]
  {
    assert Copies(a[i], sel);
    assert Holds(b, base, a[i].submissionId, a[i].source.value);
    j :| j in b && j !in base && b[j].submissionId == a[i].submissionId && b[j].source == a[i].source;
    assert Copies(b[j], sel);
  }

  ghost predicate Matches<B>(base: Table<B>, b: Table<B>, r: Row<B>, j: int) {
    j in b && j !in base && b[j] == r
  }

  ghost function CounterpartOf<B(!new)>(base: Table<B>, a: Table<B>, b: Table<B>, sel: Selection<B>, i: int): (j: int)
    requires Inserted(base, a, sel) && Inserted(base, b, sel) && i in a && i !in base
    ensures j in b && j !in base && b[j] == a[i]
  {
    assert exists j :: Matches(base, b, a[i], j) by {
      var k := Counterpart(base, a, b, sel, i);
      assert Matches(base, b, a[i], k);
    }
    var j :| Matches(base, b, a[i], j);
    j
  }

  lemma OldRowsStay<B>(base: Table<B>, a: Table<B>, sel: Selection<B>, i: int)
    requires Inserted(base, a, sel) && i in base
    ensures i in a && a[i] == base[i]
  {
  }

  lemma NewRowsDiffer<B>(base: Table<B>, a: Table<B>, sel: Selection<B>, i: int, j: int)
    requires Inserted(base, a, sel) && i in a && i !in base && j in a && j !in base && a[i] == a[j]
    ensures i == j
  {
  }

  /** The same rows inserted into the same table twice over: the outcomes differ only in the new ids. */
  lemma SameUpToIds<B(!new)>(base: Table<B>, a: Table<B>, b: Table<B>,
      sel: Selection<B>) returns (names: map<int, int>)
    requires Inserted(base, a, sel) && Inserted(base, b, sel)
    ensures Renames(a, b, names) && Fixes(names, base.Keys)
    ensures forall i | i in a && i !in base :: names[i] !in base
  {
    hide Inserted;
    names := map i | i in a :: if i in base then i else CounterpartOf(base, a, b, sel, i);
    forall i | i in base ensures i in a && i in b && a[i] == b[i] {
      OldRowsStay(base, a, sel, i);
      OldRowsStay(base, b, sel, i);
    }
    forall i, j | i in a && j in a && names[i] == names[j] ensures i == j {
      if i !in base && j !in base {
        NewRowsDiffer(base, a, sel, i, j);
      }
    }
    forall k | k in b ensures exists i :: i in a && names[i] == k {
      if k in base {
        assert names[k] == k;
      } else {
        var i := Counterpart(base, b, a, sel, k);
        NewRowsDiffer(base, b, sel, names[i], k);
        assert names[i] == k;
      }
    }
  }
}
