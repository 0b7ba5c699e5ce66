/**
  The statements themselves: bulk UPDATE and COUNT over the submissions table, built with the
  builders, then read and run. What comes out is stated on rows, filters and updates alone.
*/
module SubmissionStatements {
  import opened Common
  import opened SubmissionStatus
  import opened Sql
  import opened QueryBuilder
  import opened SubmissionTable
  import opened SubmissionQueries

  // ---- Running a statement ----

  /** Reads assignments of placeholders to columns, separated by commas. */
  function ParseSets(s: seq<Token>): (p: Parsed<seq<(Ident, nat)>>)
    ensures p.Done? ==> |p.rest| < |s|
  {
    if |s| < 3 || !s[0].Name? || s[1] != Eq || !s[2].Param? then Fail
    else
      var first := (s[0].name, s[2].pos);
      if |s| > 3 && s[3] == Comma then
        var more := ParseSets(s[4..]);
        if more.Done? then Done([first] + more.value, more.rest) else Fail
      else Done([first], s[3..])
  }

  function SetColumn(r: Submission, col: Ident, v: Value): Submission {
    match (col, v)
    case (StatusCol, StatusV(st)) => r.(status := st)
    case (Score, RealV(x)) => r.(score := x)
    case (IcpcVerdict, StrV(s)) => r.(icpcVerdict := Some(s))
    case (IcpcVerdict, Null) => r.(icpcVerdict := None)
    case (CompileError, BoolV(b)) => r.(compileError := Some(b))
    case (CompileMessage, StrV(s)) => r.(compileMessage := Some(s))
    case (CompileDuration, RealV(x)) => r.(compileDuration := Some(x))
    case (MaxTime, RealV(x)) => r.(maxTime := x)
    case (MaxMemory, IntV(n)) => r.(maxMemory := n)
    case _ => r
  }

  function AssignAll(sets: seq<(Ident, nat)>, args: seq<Value>, r: Submission): Submission {
    if sets == [] then r
    else
      var v := if 1 <= sets[0].1 <= |args| then args[sets[0].1 - 1] else Null;
      AssignAll(sets[1..], args, SetColumn(r, sets[0].0, v))
  }

  type Rows = map<int, Submission>

  function ApplyWhere(cond: Expr, sets: seq<(Ident, nat)>, args: seq<Value>, rows: Rows, db: Database): Rows {
    map id | id in rows ::
      if Eval(cond, ToColumns(rows[id]), args, db) == True then AssignAll(sets, args, rows[id]) else rows[id]
  }

  /** What running an update does; a text that does not parse changes nothing. */
  function ExecUpdate(text: seq<Token>, args: seq<Value>, rows: Rows, db: Database): Rows {
    if !(|text| > 3 && text[0] == UpdateKw && text[1] == Name(SubmissionsTable) && text[2] == SetKw) then rows
    else
      var sets := ParseSets(text[3..]);
      if !(sets.Done? && Starts(sets.rest, WhereKw)) then rows
      else
        var cond := ParseOr(sets.rest[1..]);
        if !(cond.Done? && cond.rest == []) then rows
        else ApplyWhere(cond.value, sets.value, args, rows, db)
  }

  function Kept(cond: Expr, args: seq<Value>, rows: Rows, db: Database): set<int> {
    set id | id in rows && Eval(cond, ToColumns(rows[id]), args, db) == True
  }

  function CountRows(cond: Expr, args: seq<Value>, rows: Rows, db: Database): nat {
    |Kept(cond, args, rows, db)|
  }

  function Min(a: int, b: int): int {
    if a < b then a else b
  }

  /** Either form of the count: plain, or over a subquery that stops at the limit. -1 stands for a syntax error. */
  function ExecCount(text: seq<Token>, args: seq<Value>, rows: Rows, db: Database): int {
    if |text| > 5 && text[..5] == [SelectKw, CountStar, FromKw, Name(SubmissionsTable), WhereKw] then
      var cond := ParseOr(text[5..]);
      if cond.Done? && cond.rest == [] then CountRows(cond.value, args, rows, db) else -1
    else if |text| > 9 && text[..9] ==
        [SelectKw, CountStar, FromKw, LParen, SelectKw, Number(1), FromKw, Name(SubmissionsTable), WhereKw] then
      var cond := ParseOr(text[9..]);
      if !(cond.Done? && |cond.rest| == 3) then -1
      else if !(cond.rest[0] == LimitKw && cond.rest[1].Param? && cond.rest[2] == RParen) then -1
      else if !(1 <= cond.rest[1].pos <= |args| && args[cond.rest[1].pos - 1].IntV?) then -1
      else Min(CountRows(cond.value, args, rows, db), args[cond.rest[1].pos - 1].n)
    else -1
  }

  // ---- Building the conditions ----

  /** Where a builder stood before a filter was added to it. */
  datatype Start = Start(prefix: seq<Token>, where: seq<seq<Token>>, args: seq<Value>, complete: bool)

  ghost predicate Built(fb: FilterBuilder, s: Start, done: seq<Want>)
    reads fb
  {
    && fb.Valid() && fb.prefix == s.prefix
    && fb.where == s.where + ClausesFrom(done, |s.args| + 1)
    && fb.args == s.args + ArgsOf(done)
    && (s.complete ==> fb.Complete())
  }

  method Constrain(fb: FilterBuilder, ghost s: Start, ghost done: seq<Want>, w: Want)
    requires Built(fb, s, done)
    modifies fb
    ensures Built(fb, s, done + [w])
  {
    hide Template, WantArgs, Fill, Slots, Placeholders, ArgsOf, ClausesFrom, Counting, WhereText;
    FilledTemplate(w, fb.pos);
    ArgsOfConcat(done, [w]);
    ClausesFromConcat(done, [w], |s.args| + 1);
    SingleCondition(w, fb.pos);
    fb.AddConstraint(Template(w), WantArgs(w));
  }

  lemma SingleCondition(w: Want, pos: nat)
    ensures ArgsOf([w]) == WantArgs(w) && ClausesFrom([w], pos) == [Fill(Template(w), pos)]
  {
    assert ArgsOf([w]) == WantArgs(w) + [];
  }

  lemma PieceOf(done: seq<Want>, isSet: bool, w: Want)
    ensures done + Piece(isSet, w) == if isSet then done + [w] else done
  {
  }

  lemma IdWantsAre(f: SubmissionFilter)
    ensures IdWants(f) ==
      [] + Piece(f.id.Some?, WantId(Or(f.id, 0)))
      + Piece(f.ids.Some? && f.ids.value == [], WantNothing)
      + Piece(f.ids.Some? && f.ids.value != [], WantIds(Or(f.ids, [])))
      + Piece(f.userId.Some?, WantUser(Or(f.userId, 0)))
      + Piece(f.problemId.Some?, WantProblem(Or(f.problemId, 0)))
  {
    hide Piece;
    var first := Piece(f.id.Some?, WantId(Or(f.id, 0)));
    assert [] + first == first;
  }

  lemma PlaceWantsAre(f: SubmissionFilter, before: seq<Want>)
    ensures before + PlaceWants(f) ==
      before + Piece(f.problemListId.Some?, WantList(Or(f.problemListId, 0)))
      + Piece(f.contestId == Some(0), WantNoContest)
      + Piece(f.contestId.Some? && f.contestId.value != 0, WantContest(Or(f.contestId, 0)))
      + Piece(f.fromAuthors, WantAuthors)
  {
    hide Piece;
  }

  lemma ResultWantsAre(f: SubmissionFilter)
    ensures Wants(f) ==
      (IdWants(f) + PlaceWants(f)) + Piece(f.status.Some?, WantStatus(Or(f.status, Waiting)))
      + Piece(f.waiting, WantUnfinished)
      + Piece(f.lang.Some?, WantLang(Or(f.lang, "")))
      + Piece(f.score.Some?, WantScore(Or(f.score, 0.0)))
      + Piece(f.since.Some?, WantSince(Or(f.since, 0)))
      + Piece(f.compileError.Some?, WantCompileError(Or(f.compileError, false)))
  {
    hide Piece, IdWants, PlaceWants;
  }

  method AddIdConditions(f: SubmissionFilter, fb: FilterBuilder, ghost s: Start)
    requires Built(fb, s, [])
    modifies fb
    ensures Built(fb, s, IdWants(f))
  {
    hide Built, Piece, Template, WantArgs, ClausesFrom, ArgsOf, IdWants, PlaceWants, ResultWants, Wants;
    ghost var done: seq<Want> := [];
    if f.id.Some? {
      Constrain(fb, s, done, WantId(f.id.value));
    }
    PieceOf(done, f.id.Some?, WantId(Or(f.id, 0)));
    done := done + Piece(f.id.Some?, WantId(Or(f.id, 0)));
    if f.ids.Some? && |f.ids.value| == 0 {
      Constrain(fb, s, done, WantNothing);
    }
    PieceOf(done, f.ids.Some? && f.ids.value == [], WantNothing);
    done := done + Piece(f.ids.Some? && f.ids.value == [], WantNothing);
    if f.ids.Some? && |f.ids.value| > 0 {
      Constrain(fb, s, done, WantIds(f.ids.value));
    }
    PieceOf(done, f.ids.Some? && f.ids.value != [], WantIds(Or(f.ids, [])));
    done := done + Piece(f.ids.Some? && f.ids.value != [], WantIds(Or(f.ids, [])));
    if f.userId.Some? {
      Constrain(fb, s, done, WantUser(f.userId.value));
    }
    PieceOf(done, f.userId.Some?, WantUser(Or(f.userId, 0)));
    done := done + Piece(f.userId.Some?, WantUser(Or(f.userId, 0)));
    if f.problemId.Some? {
      Constrain(fb, s, done, WantProblem(f.problemId.value));
    }
    PieceOf(done, f.problemId.Some?, WantProblem(Or(f.problemId, 0)));
    done := done + Piece(f.problemId.Some?, WantProblem(Or(f.problemId, 0)));
    IdWantsAre(f);
  }

  method AddPlaceConditions(f: SubmissionFilter, fb: FilterBuilder, ghost s: Start)
    requires Built(fb, s, IdWants(f))
    modifies fb
    ensures Built(fb, s, IdWants(f) + PlaceWants(f))
  {
    hide Built, Piece, Template, WantArgs, ClausesFrom, ArgsOf, IdWants, PlaceWants, ResultWants, Wants;
    ghost var done := IdWants(f);
    if f.problemListId.Some? {
      Constrain(fb, s, done, WantList(f.problemListId.value));
    }
    PieceOf(done, f.problemListId.Some?, WantList(Or(f.problemListId, 0)));
    done := done + Piece(f.problemListId.Some?, WantList(Or(f.problemListId, 0)));
    ghost var none, some := f.contestId == Some(0), f.contestId.Some? && f.contestId.value != 0;
    if f.contestId.Some? {
      if f.contestId.value == 0 {
        Constrain(fb, s, done, WantNoContest);
      } else {
        Constrain(fb, s, done, WantContest(f.contestId.value));
      }
    }
    PieceOf(done, none, WantNoContest);
    done := done + Piece(none, WantNoContest);
    PieceOf(done, some, WantContest(Or(f.contestId, 0)));
    done := done + Piece(some, WantContest(Or(f.contestId, 0)));
    if f.fromAuthors {
      Constrain(fb, s, done, WantAuthors);
    }
    PieceOf(done, f.fromAuthors, WantAuthors);
    done := done + Piece(f.fromAuthors, WantAuthors);
    PlaceWantsAre(f, IdWants(f));
  }

  method AddResultConditions(f: SubmissionFilter, fb: FilterBuilder, ghost s: Start)
    requires Built(fb, s, IdWants(f) + PlaceWants(f))
    modifies fb
    ensures Built(fb, s, Wants(f))
  {
    hide Built, Piece, Template, WantArgs, ClausesFrom, ArgsOf, IdWants, PlaceWants, ResultWants, Wants;
    ghost var done := IdWants(f) + PlaceWants(f);
    if f.status.Some? {
      Constrain(fb, s, done, WantStatus(f.status.value));
    }
    PieceOf(done, f.status.Some?, WantStatus(Or(f.status, Waiting)));
    done := done + Piece(f.status.Some?, WantStatus(Or(f.status, Waiting)));
    if f.waiting {
      Constrain(fb, s, done, WantUnfinished);
    }
    PieceOf(done, f.waiting, WantUnfinished);
    done := done + Piece(f.waiting, WantUnfinished);
    if f.lang.Some? {
      Constrain(fb, s, done, WantLang(f.lang.value));
    }
    PieceOf(done, f.lang.Some?, WantLang(Or(f.lang, "")));
    done := done + Piece(f.lang.Some?, WantLang(Or(f.lang, "")));
    if f.score.Some? {
      Constrain(fb, s, done, WantScore(f.score.value));
    }
    PieceOf(done, f.score.Some?, WantScore(Or(f.score, 0.0)));
    done := done + Piece(f.score.Some?, WantScore(Or(f.score, 0.0)));
    if f.since.Some? {
      Constrain(fb, s, done, WantSince(f.since.value));
    }
    PieceOf(done, f.since.Some?, WantSince(Or(f.since, 0)));
    done := done + Piece(f.since.Some?, WantSince(Or(f.since, 0)));
    if f.compileError.Some? {
      Constrain(fb, s, done, WantCompileError(f.compileError.value));
    }
    PieceOf(done, f.compileError.Some?, WantCompileError(Or(f.compileError, false)));
    done := done + Piece(f.compileError.Some?, WantCompileError(Or(f.compileError, false)));
    ResultWantsAre(f);
  }

  /** Adds every condition the filter sets, after whatever the builder already holds. */
  method SubFilterQuery(f: SubmissionFilter, fb: FilterBuilder)
    requires fb.Valid()
    modifies fb
    ensures fb.Valid() && fb.prefix == old(fb.prefix)
    ensures fb.where == old(fb.where) + ClausesFrom(Wants(f), old(fb.pos))
    ensures fb.args == old(fb.args) + ArgsOf(Wants(f))
    ensures old(fb.Complete()) ==> fb.Complete()
  {
    hide Wants, IdWants, PlaceWants, ResultWants;
    ghost var s := Start(fb.prefix, fb.where, fb.args, fb.Complete());
    AddIdConditions(f, fb, s);
    AddPlaceConditions(f, fb, s);
    AddResultConditions(f, fb, s);
  }

  // ---- Building the updates ----

  function MaybeSet(isSet: bool, col: Ident, v: Value): seq<(Ident, Value)> {
    if isSet then [(col, v)] else []
  }

  /** The assignments an update is compiled to, in the order the code adds them. */
  function Sets(u: SubmissionUpdate): seq<(Ident, Value)> {
    MaybeSet(u.status.Some?, StatusCol, StatusV(Or(u.status, Waiting)))
    + MaybeSet(u.score.Some?, Score, RealV(Or(u.score, 0.0)))
    + MaybeSet(u.changeVerdict, IcpcVerdict, if u.icpcVerdict.Some? then StrV(u.icpcVerdict.value) else Null)
    + MaybeSet(u.compileError.Some?, CompileError, BoolV(Or(u.compileError, false)))
    + MaybeSet(u.compileMessage.Some?, CompileMessage, StrV(Or(u.compileMessage, "")))
    + MaybeSet(u.compileTime.Some?, CompileDuration, RealV(Or(u.compileTime, 0.0)))
    + MaybeSet(u.maxTime.Some?, MaxTime, RealV(Or(u.maxTime, 0.0)))
    + MaybeSet(u.maxMemory.Some?, MaxMemory, IntV(Or(u.maxMemory, 0)))
  }

  function SetValues(sets: seq<(Ident, Value)>): seq<Value> {
    seq(|sets|, i requires 0 <= i < |sets| => sets[i].1)
  }

  function SetClauses(sets: seq<(Ident, Value)>): seq<seq<Token>> {
    seq(|sets|, i requires 0 <= i < |sets| => [Name(sets[i].0), Eq, Param(i + 1)])
  }

  ghost predicate UpdatesAre(ub: UpdateBuilder, sets: seq<(Ident, Value)>)
    reads ub
  {
    ub.Complete() && ub.toUpd == SetClauses(sets) && ub.args == SetValues(sets)
  }

  lemma SetClause(col: Ident, pos: nat)
    ensures Matches([Name(col), Eq, Slot], [Null]) && Fill([Name(col), Eq, Slot], pos) == [Name(col), Eq, Param(pos)]
  {
    var t := [Name(col), Eq, Slot];
    assert t[1..] == [Eq, Slot] && t[1..][1..] == [Slot];
    assert Fill([Slot], pos) == [Param(pos)] && Slots([Slot]) == 1 && Placeholders([Slot]) == [];
    assert Fill([Eq, Slot], pos) == [Eq, Param(pos)] && Slots([Eq, Slot]) == 1 && Placeholders([Eq, Slot]) == [];
  }

  method AddSet(ub: UpdateBuilder, ghost done: seq<(Ident, Value)>, col: Ident, v: Value)
    requires UpdatesAre(ub, done)
    modifies ub
    ensures UpdatesAre(ub, done + [(col, v)])
  {
    hide Fill, Slots, Placeholders, JoinComma, Counting;
    SetClause(col, ub.pos);
    ub.AddUpdate([Name(col), Eq, Slot], [v]);
    assert ub.args == SetValues(done + [(col, v)]);
    assert ub.toUpd == SetClauses(done + [(col, v)]);
  }

  lemma MaybeSetOf(done: seq<(Ident, Value)>, isSet: bool, col: Ident, v: Value)
    ensures done + MaybeSet(isSet, col, v) == if isSet then done + [(col, v)] else done
  {
  }

  lemma SetsAre(u: SubmissionUpdate)
    ensures Sets(u) ==
      [] + MaybeSet(u.status.Some?, StatusCol, StatusV(Or(u.status, Waiting)))
      + MaybeSet(u.score.Some?, Score, RealV(Or(u.score, 0.0)))
      + MaybeSet(u.changeVerdict, IcpcVerdict, if u.icpcVerdict.Some? then StrV(u.icpcVerdict.value) else Null)
      + MaybeSet(u.compileError.Some?, CompileError, BoolV(Or(u.compileError, false)))
      + MaybeSet(u.compileMessage.Some?, CompileMessage, StrV(Or(u.compileMessage, "")))
      + MaybeSet(u.compileTime.Some?, CompileDuration, RealV(Or(u.compileTime, 0.0)))
      + MaybeSet(u.maxTime.Some?, MaxTime, RealV(Or(u.maxTime, 0.0)))
      + MaybeSet(u.maxMemory.Some?, MaxMemory, IntV(Or(u.maxMemory, 0)))
  {
    hide MaybeSet;
    var first := MaybeSet(u.status.Some?, StatusCol, StatusV(Or(u.status, Waiting)));
    assert [] + first == first;
  }

  method SubUpdateQuery(u: SubmissionUpdate, ub: UpdateBuilder)
    requires UpdatesAre(ub, [])
    modifies ub
    ensures UpdatesAre(ub, Sets(u))
  {
    hide UpdatesAre, MaybeSet, Sets, SetClauses, SetValues;
    ghost var done: seq<(Ident, Value)> := [];
    if u.status.Some? {
      AddSet(ub, done, StatusCol, StatusV(u.status.value));
    }
    MaybeSetOf(done, u.status.Some?, StatusCol, StatusV(Or(u.status, Waiting)));
    done := done + MaybeSet(u.status.Some?, StatusCol, StatusV(Or(u.status, Waiting)));
    if u.score.Some? {
      AddSet(ub, done, Score, RealV(u.score.value));
    }
    MaybeSetOf(done, u.score.Some?, Score, RealV(Or(u.score, 0.0)));
    done := done + MaybeSet(u.score.Some?, Score, RealV(Or(u.score, 0.0)));
    var verdict := if u.icpcVerdict.Some? then StrV(u.icpcVerdict.value) else Null;
    if u.changeVerdict {
      AddSet(ub, done, IcpcVerdict, verdict);
    }
    MaybeSetOf(done, u.changeVerdict, IcpcVerdict, verdict);
    done := done + MaybeSet(u.changeVerdict, IcpcVerdict, verdict);
    if u.compileError.Some? {
      AddSet(ub, done, CompileError, BoolV(u.compileError.value));
    }
    MaybeSetOf(done, u.compileError.Some?, CompileError, BoolV(Or(u.compileError, false)));
    done := done + MaybeSet(u.compileError.Some?, CompileError, BoolV(Or(u.compileError, false)));
    if u.compileMessage.Some? {
      AddSet(ub, done, CompileMessage, StrV(u.compileMessage.value));
    }
    MaybeSetOf(done, u.compileMessage.Some?, CompileMessage, StrV(Or(u.compileMessage, "")));
    done := done + MaybeSet(u.compileMessage.Some?, CompileMessage, StrV(Or(u.compileMessage, "")));
    if u.compileTime.Some? {
      AddSet(ub, done, CompileDuration, RealV(u.compileTime.value));
    }
    MaybeSetOf(done, u.compileTime.Some?, CompileDuration, RealV(Or(u.compileTime, 0.0)));
    done := done + MaybeSet(u.compileTime.Some?, CompileDuration, RealV(Or(u.compileTime, 0.0)));
    if u.maxTime.Some? {
      AddSet(ub, done, MaxTime, RealV(u.maxTime.value));
    }
    MaybeSetOf(done, u.maxTime.Some?, MaxTime, RealV(Or(u.maxTime, 0.0)));
    done := done + MaybeSet(u.maxTime.Some?, MaxTime, RealV(Or(u.maxTime, 0.0)));
    if u.maxMemory.Some? {
      AddSet(ub, done, MaxMemory, IntV(u.maxMemory.value));
    }
    MaybeSetOf(done, u.maxMemory.Some?, MaxMemory, IntV(Or(u.maxMemory, 0)));
    done := done + MaybeSet(u.maxMemory.Some?, MaxMemory, IntV(Or(u.maxMemory, 0)));
    SetsAre(u);
  }

  // ---- Reading the assignments back ----

  /** The i-th assignment takes the i-th argument. */
  function Numbered(sets: seq<(Ident, Value)>): seq<(Ident, nat)> {
    seq(|sets|, i requires 0 <= i < |sets| => (sets[i].0, i + 1))
  }

  function SetTexts(ns: seq<(Ident, nat)>): seq<seq<Token>> {
    seq(|ns|, i requires 0 <= i < |ns| => [Name(ns[i].0), Eq, Param(ns[i].1)])
  }

  lemma FirstSet(n: (Ident, nat), rest: seq<Token>)
    ensures
      var p := ParseSets([Name(n.0), Eq, Param(n.1)] + rest);
      if Starts(rest, Comma) then
        var more := ParseSets(rest[1..]);
        more.Done? ==> p == Done([n] + more.value, more.rest)
      else p == Done([n], rest)
  {
    var s := [Name(n.0), Eq, Param(n.1)] + rest;
    assert s[3..] == rest && (rest != [] ==> s[4..] == rest[1..]);
  }

  lemma FirstText(ns: seq<(Ident, nat)>)
    requires ns != []
    ensures
      var first := [Name(ns[0].0), Eq, Param(ns[0].1)];
      JoinComma(SetTexts(ns)) == if |ns| == 1 then first else first + ([Comma] + JoinComma(SetTexts(ns[1..])))
  {
    assert SetTexts(ns)[1..] == SetTexts(ns[1..]);
  }

  lemma {:induction false} ParseSetsJoined(ns: seq<(Ident, nat)>, rest: seq<Token>)
    requires ns != [] && !Starts(rest, Comma)
    ensures ParseSets(JoinComma(SetTexts(ns)) + rest) == Done(ns, rest)
  {
    hide ParseSets, JoinComma, SetTexts;
    FirstText(ns);
    var first := [Name(ns[0].0), Eq, Param(ns[0].1)];
    if |ns| == 1 {
      FirstSet(ns[0], rest);
      assert ns == [ns[0]];
    } else {
      var later := JoinComma(SetTexts(ns[1..])) + rest;
      assert first + ([Comma] + JoinComma(SetTexts(ns[1..]))) + rest == first + ([Comma] + later);
      assert ([Comma] + later)[1..] == later;
      FirstSet(ns[0], [Comma] + later);
      ParseSetsJoined(ns[1..], rest);
      assert ns == [ns[0]] + ns[1..];
    }
  }

  /** The assignments made one after the other, each with its own value. */
  function AssignValues(sets: seq<(Ident, Value)>, r: Submission): Submission {
    if sets == [] then r else AssignValues(sets[1..], SetColumn(r, sets[0].0, sets[0].1))
  }

  lemma {:induction false} AssignNumbered(ns: seq<(Ident, nat)>, sets: seq<(Ident, Value)>, args: seq<Value>,
      r: Submission)
    requires |ns| == |sets|
    requires forall i :: 0 <= i < |ns| ==>
      ns[i].0 == sets[i].0 && 1 <= ns[i].1 <= |args| && args[ns[i].1 - 1] == sets[i].1
    ensures AssignAll(ns, args, r) == AssignValues(sets, r)
  {
    hide SetColumn;
    if ns != [] {
      AssignNumbered(ns[1..], sets[1..], args, SetColumn(r, sets[0].0, sets[0].1));
    }
  }

  lemma {:induction false} AssignConcat(a: seq<(Ident, Value)>, b: seq<(Ident, Value)>, r: Submission)
    ensures AssignValues(a + b, r) == AssignValues(b, AssignValues(a, r))
  {
    hide SetColumn;
    if a == [] {
      assert a + b == b;
    } else {
      assert (a + b)[1..] == a[1..] + b;
      AssignConcat(a[1..], b, SetColumn(r, a[0].0, a[0].1));
    }
  }

  lemma AssignMaybe(a: seq<(Ident, Value)>, isSet: bool, col: Ident, v: Value, r: Submission)
    ensures AssignValues(a + MaybeSet(isSet, col, v), r) ==
      if isSet then SetColumn(AssignValues(a, r), col, v) else AssignValues(a, r)
  {
    hide SetColumn;
    AssignConcat(a, MaybeSet(isSet, col, v), r);
  }

  lemma FirstSets(u: SubmissionUpdate, r: Submission)
    ensures AssignValues([]
        + MaybeSet(u.status.Some?, StatusCol, StatusV(Or(u.status, Waiting)))
        + MaybeSet(u.score.Some?, Score, RealV(Or(u.score, 0.0))), r)
      == r.(status := Or(u.status, r.status), score := Or(u.score, r.score))
  {
    hide AssignValues, MaybeSet;
    assert AssignValues([], r) == r by { AssignNone(r); }
    AssignMaybe([], u.status.Some?, StatusCol, StatusV(Or(u.status, Waiting)), r);
    var a := [] + MaybeSet(u.status.Some?, StatusCol, StatusV(Or(u.status, Waiting)));
    AssignMaybe(a, u.score.Some?, Score, RealV(Or(u.score, 0.0)), r);
  }

  lemma NextSets(first: seq<(Ident, Value)>, u: SubmissionUpdate, r: Submission)
    ensures AssignValues(first
        + MaybeSet(u.changeVerdict, IcpcVerdict, if u.icpcVerdict.Some? then StrV(u.icpcVerdict.value) else Null)
        + MaybeSet(u.compileError.Some?, CompileError, BoolV(Or(u.compileError, false))), r)
      == var q := AssignValues(first, r);
         q.(icpcVerdict := if u.changeVerdict then u.icpcVerdict else q.icpcVerdict,
            compileError := OrElse(u.compileError, q.compileError))
  {
    hide AssignValues, MaybeSet;
    var verdict := if u.icpcVerdict.Some? then StrV(u.icpcVerdict.value) else Null;
    AssignMaybe(first, u.changeVerdict, IcpcVerdict, verdict, r);
    var a := first + MaybeSet(u.changeVerdict, IcpcVerdict, verdict);
    AssignMaybe(a, u.compileError.Some?, CompileError, BoolV(Or(u.compileError, false)), r);
  }

  lemma LaterSets(first: seq<(Ident, Value)>, u: SubmissionUpdate, r: Submission)
    ensures AssignValues(first
        + MaybeSet(u.compileMessage.Some?, CompileMessage, StrV(Or(u.compileMessage, "")))
        + MaybeSet(u.compileTime.Some?, CompileDuration, RealV(Or(u.compileTime, 0.0))), r)
      == var q := AssignValues(first, r);
         q.(compileMessage := OrElse(u.compileMessage, q.compileMessage),
            compileDuration := OrElse(u.compileTime, q.compileDuration))
  {
    hide AssignValues, MaybeSet;
    AssignMaybe(first, u.compileMessage.Some?, CompileMessage, StrV(Or(u.compileMessage, "")), r);
    var a := first + MaybeSet(u.compileMessage.Some?, CompileMessage, StrV(Or(u.compileMessage, "")));
    AssignMaybe(a, u.compileTime.Some?, CompileDuration, RealV(Or(u.compileTime, 0.0)), r);
  }

  lemma LastSets(first: seq<(Ident, Value)>, u: SubmissionUpdate, r: Submission)
    ensures AssignValues(first
        + MaybeSet(u.maxTime.Some?, MaxTime, RealV(Or(u.maxTime, 0.0)))
        + MaybeSet(u.maxMemory.Some?, MaxMemory, IntV(Or(u.maxMemory, 0))), r)
      == var q := AssignValues(first, r);
         q.(maxTime := Or(u.maxTime, q.maxTime), maxMemory := Or(u.maxMemory, q.maxMemory))
  {
    hide AssignValues, MaybeSet;
    AssignMaybe(first, u.maxTime.Some?, MaxTime, RealV(Or(u.maxTime, 0.0)), r);
    var a := first + MaybeSet(u.maxTime.Some?, MaxTime, RealV(Or(u.maxTime, 0.0)));
    AssignMaybe(a, u.maxMemory.Some?, MaxMemory, IntV(Or(u.maxMemory, 0)), r);
  }

  /** The assignments of an update change exactly the fields it sets. */
  lemma SetsAreTheUpdate(u: SubmissionUpdate, r: Submission)
    ensures AssignValues(Sets(u), r) == Updated(u, r)
  {
    hide AssignValues, MaybeSet, Sets, SetColumn;
    SetsAre(u);
    FirstSets(u, r);
    var verdict := if u.icpcVerdict.Some? then StrV(u.icpcVerdict.value) else Null;
    var first := [] + MaybeSet(u.status.Some?, StatusCol, StatusV(Or(u.status, Waiting)))
      + MaybeSet(u.score.Some?, Score, RealV(Or(u.score, 0.0)));
    NextSets(first, u, r);
    var next := first + MaybeSet(u.changeVerdict, IcpcVerdict, verdict)
      + MaybeSet(u.compileError.Some?, CompileError, BoolV(Or(u.compileError, false)));
    LaterSets(next, u, r);
    var later := next + MaybeSet(u.compileMessage.Some?, CompileMessage, StrV(Or(u.compileMessage, "")))
      + MaybeSet(u.compileTime.Some?, CompileDuration, RealV(Or(u.compileTime, 0.0)));
    LastSets(later, u, r);
  }

  lemma AssignNone(r: Submission)
    ensures AssignValues([], r) == r
  {
  }

  lemma NothingSet(u: SubmissionUpdate)
    ensures Sets(u) == [] <==> ChangesNothing(u)
  {
  }

  // ---- The update statement ----

  function UpdateText(f: SubmissionFilter, u: SubmissionUpdate): seq<Token> {
    [UpdateKw, Name(SubmissionsTable), SetKw]
    + (JoinComma(SetClauses(Sets(u))) + [WhereKw] + FilterText(f, |Sets(u)| + 1))
  }

  function UpdateArgs(f: SubmissionFilter, u: SubmissionUpdate): seq<Value> {
    SetValues(Sets(u)) + ArgsOf(Wants(f))
  }

  /** What the statement is read as. */
  lemma UpdateTextReads(f: SubmissionFilter, u: SubmissionUpdate)
    requires !ChangesNothing(u)
    ensures
      var s := UpdateText(f, u)[3..];
      && |UpdateText(f, u)| > 3
      && ParseSets(s) == Done(Numbered(Sets(u)), [WhereKw] + FilterText(f, |Sets(u)| + 1))
  {
    hide Sets, FilterText, ParseSets, JoinComma;
    NothingSet(u);
    var rest := [WhereKw] + FilterText(f, |Sets(u)| + 1);
    assert SetTexts(Numbered(Sets(u))) == SetClauses(Sets(u));
    ParseSetsJoined(Numbered(Sets(u)), rest);
    assert UpdateText(f, u)[3..] == JoinComma(SetClauses(Sets(u))) + rest;
  }

  /** The statement parses to its assignments and its condition. */
  lemma UpdateIsRun(f: SubmissionFilter, u: SubmissionUpdate, args: seq<Value>, rows: Rows, db: Database)
    requires !ChangesNothing(u)
    ensures ExecUpdate(UpdateText(f, u), args, rows, db) ==
      ApplyWhere(FilterExpr(f, |Sets(u)| + 1), Numbered(Sets(u)), args, rows, db)
  {
    hide FilterText, FilterExpr, ParseOr, ParseSets, Sets, Wants, JoinComma, SetClauses, ApplyWhere, Numbered,
         SetValues;
    UpdateTextReads(f, u);
    var conditions := FilterText(f, |Sets(u)| + 1);
    assert ([WhereKw] + conditions)[1..] == conditions;
    FilterIsRead(f, SetValues(Sets(u)), []);
    assert |SetValues(Sets(u))| == |Sets(u)| by { OneValueEach(Sets(u)); }
  }

  lemma OneValueEach(sets: seq<(Ident, Value)>)
    ensures |SetValues(sets)| == |sets|
    ensures forall i | 0 <= i < |sets| :: SetValues(sets)[i] == sets[i].1
  {
  }

  /** What the condition and the assignments do to one row. */
  lemma UpdateOfRow(f: SubmissionFilter, u: SubmissionUpdate, r: Submission, world: World)
    ensures Eval(FilterExpr(f, |Sets(u)| + 1), ToColumns(r), UpdateArgs(f, u), Tables(world)) == True <==>
      Satisfies(f, r, world)
    ensures AssignAll(Numbered(Sets(u)), UpdateArgs(f, u), r) == Updated(u, r)
  {
    hide FilterText, FilterExpr, ParseOr, Eval, Tables, ToColumns, Sets, Wants, ArgsOf, Satisfies, Updated, AssignAll,
         AssignValues, SetValues;
    var sets, args := Sets(u), UpdateArgs(f, u);
    OneValueEach(sets);
    assert SetValues(sets) + ArgsOf(Wants(f)) + [] == args;
    FilterTextMeans(f, SetValues(sets), [], [], r, world);
    AssignNumbered(Numbered(sets), sets, args, r);
    SetsAreTheUpdate(u, r);
  }

  /** Run on any table, the statement updates the rows that satisfy the filter and leaves the others. */
  lemma UpdateMeans(f: SubmissionFilter, u: SubmissionUpdate, rows: Rows, world: World)
    requires !ChangesNothing(u)
    ensures ExecUpdate(UpdateText(f, u), UpdateArgs(f, u), rows, Tables(world)) ==
      map id | id in rows :: if Satisfies(f, rows[id], world) then Updated(u, rows[id]) else rows[id]
  {
    hide ExecUpdate, UpdateText, UpdateArgs, FilterExpr, Eval, Tables, ToColumns, Sets, Satisfies, Updated, AssignAll,
         Numbered;
    UpdateIsRun(f, u, UpdateArgs(f, u), rows, Tables(world));
    forall id | id in rows
      ensures Eval(FilterExpr(f, |Sets(u)| + 1), ToColumns(rows[id]), UpdateArgs(f, u), Tables(world)) == True <==>
        Satisfies(f, rows[id], world)
      ensures AssignAll(Numbered(Sets(u)), UpdateArgs(f, u), rows[id]) == Updated(u, rows[id])
    {
      UpdateOfRow(f, u, rows[id], world);
    }
  }

  lemma FilterIsRead(f: SubmissionFilter, before: seq<Value>, rest: seq<Token>)
    requires !Starts(rest, AndKw) && !Starts(rest, OrKw)
    ensures ParseOr(FilterText(f, |before| + 1) + rest) == Done(FilterExpr(f, |before| + 1), rest)
    ensures rest == [] ==> ParseOr(FilterText(f, |before| + 1)) == Done(FilterExpr(f, |before| + 1), [])
  {
    hide FilterText, FilterExpr, ParseOr, Eval, Tables, ToColumns, Wants, ArgsOf, Satisfies;
    var anyRow := Submission(0, 0, 0, 0, None, "", Waiting, Classic, None, None, None, None, 0.0, 0, 0.0, 0.0, 0);
    FilterTextMeans(f, before, [], rest, anyRow, World({}, {}, s => s));
    assert FilterText(f, |before| + 1) + [] == FilterText(f, |before| + 1);
  }

  // ---- The count statement ----

  const COUNT_HEAD := [SelectKw, CountStar, FromKw, Name(SubmissionsTable), WhereKw]
  const LIMITED_HEAD :=
    [SelectKw, CountStar, FromKw, LParen, SelectKw, Number(1), FromKw, Name(SubmissionsTable), WhereKw]

  function CountText(f: SubmissionFilter, limit: int): seq<Token> {
    if limit > 0 then LIMITED_HEAD + (FilterText(f, 1) + [LimitKw, Param(|ArgsOf(Wants(f))| + 1), RParen])
    else COUNT_HEAD + FilterText(f, 1)
  }

  function CountArgs(f: SubmissionFilter, limit: int): seq<Value> {
    ArgsOf(Wants(f)) + if limit > 0 then [IntV(limit)] else []
  }

  function Matching(f: SubmissionFilter, rows: Rows, world: World): set<int> {
    set id | id in rows && Satisfies(f, rows[id], world)
  }

  lemma CountMatching(f: SubmissionFilter, after: seq<Value>, rows: Rows, world: World)
    ensures CountRows(FilterExpr(f, 1), ArgsOf(Wants(f)) + after, rows, Tables(world)) == |Matching(f, rows, world)|
  {
    hide FilterText, FilterExpr, ParseOr, Eval, Tables, ToColumns, Wants, ArgsOf, Satisfies;
    var args := ArgsOf(Wants(f)) + after;
    assert [] + ArgsOf(Wants(f)) + after == args;
    forall id | id in rows
      ensures
        Eval(FilterExpr(f, 1), ToColumns(rows[id]), args, Tables(world)) == True <==> Satisfies(f, rows[id], world)
    {
      FilterTextMeans(f, [], after, [], rows[id], world);
    }
    assert Matching(f, rows, world) == Kept(FilterExpr(f, 1), args, rows, Tables(world));
  }

  /** Both forms count the rows that satisfy the filter; the limited one stops at the limit. */
  lemma CountMeans(f: SubmissionFilter, limit: int, rows: Rows, world: World)
    ensures ExecCount(CountText(f, limit), CountArgs(f, limit), rows, Tables(world)) ==
      if limit > 0 then Min(|Matching(f, rows, world)|, limit) else |Matching(f, rows, world)|
  {
    hide FilterText, FilterExpr, ParseOr, Eval, Tables, ToColumns, Wants, ArgsOf, Satisfies, CountRows, Matching;
    var text, n := CountText(f, limit), |ArgsOf(Wants(f))|;
    if limit > 0 {
      var tail := [LimitKw, Param(n + 1), RParen];
      FilterIsRead(f, [], tail);
      CountMatching(f, [IntV(limit)], rows, world);
      assert text[..9] == LIMITED_HEAD && text[9..] == FilterText(f, 1) + tail && text[3] == LParen;
    } else {
      FilterIsRead(f, [], []);
      CountMatching(f, [], rows, world);
      assert text[..5] == COUNT_HEAD && text[5..] == FilterText(f, 1);
    }
  }

  // ---- Building and running the statements ----

  datatype StoreError = NoUpdates

  class SubmissionStore {
    var rows: Rows
    const world: World

    constructor (rows: Rows, world: World)
      ensures this.rows == rows && this.world == world
    {
      this.rows, this.world := rows, world;
    }

    /** The text and arguments of the bulk update, or the error for an update that sets no field. */
    method UpdateStatement(f: SubmissionFilter, u: SubmissionUpdate)
      returns (r: Result<(seq<Token>, seq<Value>), StoreError>)
      ensures r.Err? <==> ChangesNothing(u)
      ensures r.Ok? ==> r.value == (UpdateText(f, u), UpdateArgs(f, u))
      ensures r.Ok? ==> Placeholders(r.value.0) == Counting(1, |r.value.1|)
    {
      hide Sets, Placeholders, JoinComma, Wants, ArgsOf, ClausesFrom, WhereText, Counting;
      var ub := new UpdateBuilder();
      assert UpdatesAre(ub, []);
      SubUpdateQuery(u, ub);
      NothingSet(u);
      if ub.CheckUpdates() {
        return Err(NoUpdates);
      }
      var fb := ub.MakeFilter();
      SubFilterQuery(f, fb);
      var text := fb.WithUpdate();
      HeadHasNone(text);
      assert fb.where == ClausesFrom(Wants(f), |Sets(u)| + 1);
      r := Ok(([UpdateKw, Name(SubmissionsTable), SetKw] + text, fb.args));
    }

    method BulkUpdateSubmissions(f: SubmissionFilter, u: SubmissionUpdate) returns (r: Result<(), StoreError>)
      modifies this
      ensures r.Err? <==> ChangesNothing(u)
      ensures rows == map id | id in old(rows) ::
        if r.Ok? && Satisfies(f, old(rows)[id], world) then Updated(u, old(rows)[id]) else old(rows)[id]
    {
      hide ExecUpdate, UpdateText, UpdateArgs, Satisfies, Updated;
      var statement := UpdateStatement(f, u);
      if statement.Err? {
        return Err(statement.error);
      }
      UpdateMeans(f, u, rows, world);
      rows := ExecUpdate(statement.value.0, statement.value.1, rows, Tables(world));
      r := Ok(());
    }

    method CountStatement(f: SubmissionFilter, limit: int) returns (text: seq<Token>, args: seq<Value>)
      ensures text == CountText(f, limit) && args == CountArgs(f, limit)
      ensures Placeholders(text) == Counting(1, |args|)
    {
      hide Placeholders, Wants, ArgsOf, ClausesFrom, WhereText, Counting, Fill, Slots;
      var fb := new FilterBuilder();
      SubFilterQuery(f, fb);
      assert fb.where == ClausesFrom(Wants(f), 1) && fb.args == ArgsOf(Wants(f));
      var conditions := fb.Where();
      CountHeadHasNone(conditions);
      EmptyText();
      assert [] + Placeholders(conditions) == Placeholders(conditions);
      text := COUNT_HEAD + conditions;
      if limit > 0 {
        LimitTemplate(fb.pos);
        var lim := fb.FormatString([LimitKw, Slot], [IntV(limit)]);
        conditions := fb.Where();
        text := LIMITED_HEAD + (conditions + lim + [RParen]);
        LimitedHasNone(conditions, lim);
        assert conditions + lim + [RParen] == conditions + [LimitKw, Param(|ArgsOf(Wants(f))| + 1), RParen];
      }
      args := fb.args;
    }

    method SubmissionCount(f: SubmissionFilter, limit: int) returns (val: int)
      ensures val == if limit > 0 then Min(|Matching(f, rows, world)|, limit) else |Matching(f, rows, world)|
    {
      hide ExecCount, CountText, CountArgs, Matching;
      var text, args := CountStatement(f, limit);
      CountMeans(f, limit, rows, world);
      val := ExecCount(text, args, rows, Tables(world));
    }
  }

  lemma EmptyText()
    ensures Placeholders([]) == []
  {
  }

  lemma HeadHasNone(text: seq<Token>)
    ensures Placeholders([UpdateKw, Name(SubmissionsTable), SetKw] + text) == Placeholders(text)
  {
    var head := [UpdateKw, Name(SubmissionsTable), SetKw];
    PlaceholdersConcat(head, text);
    assert head[1..] == [Name(SubmissionsTable), SetKw] && head[1..][1..] == [SetKw];
  }

  lemma {:induction false} PlainTokens(s: seq<Token>)
    requires forall i :: 0 <= i < |s| ==> !s[i].Param?
    ensures Placeholders(s) == []
  {
    if s != [] {
      PlainTokens(s[1..]);
    }
  }

  lemma CountHeadHasNone(text: seq<Token>)
    ensures Placeholders(COUNT_HEAD + text) == Placeholders(text)
  {
    PlaceholdersConcat(COUNT_HEAD, text);
    PlainTokens(COUNT_HEAD);
  }

  lemma LimitedHasNone(conditions: seq<Token>, lim: seq<Token>)
    ensures Placeholders(LIMITED_HEAD + (conditions + lim + [RParen])) == Placeholders(conditions) + Placeholders(lim)
  {
    hide Placeholders;
    PlaceholdersConcat(LIMITED_HEAD, conditions + lim + [RParen]);
    PlainTokens(LIMITED_HEAD);
    PlaceholdersConcat(conditions + lim, [RParen]);
    PlainTokens([RParen]);
    PlaceholdersConcat(conditions, lim);
  }

  lemma LimitTemplate(pos: nat)
    ensures Matches([LimitKw, Slot], [Null]) && Fill([LimitKw, Slot], pos) == [LimitKw, Param(pos)]
  {
    var t := [LimitKw, Slot];
    assert t[1..] == [Slot];
    assert Fill([Slot], pos) == [Param(pos)] && Slots([Slot]) == 1 && Placeholders([Slot]) == [];
  }
}
