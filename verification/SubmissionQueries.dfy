/** The statements built from a submission filter and update, and what running them does. */
module SubmissionQueries {
  import opened Common
  import opened SubmissionStatus
  import opened Sql
  import opened QueryBuilder
  import opened SubmissionTable

  // ---- The conditions a filter is compiled to ----

  datatype Want =
    | WantId(n: int) | WantNothing | WantIds(ids: seq<int>) | WantUser(n: int) | WantProblem(n: int)
    | WantList(n: int) | WantNoContest | WantContest(n: int) | WantAuthors | WantStatus(st: Status)
    | WantUnfinished | WantLang(s: string) | WantScore(r: real) | WantSince(t: int) | WantCompileError(b: bool)

  /** The condition as it is written in the code. */
  function Template(w: Want): seq<Token> {
    match w
    case WantId(_) => [Name(Id), Eq, Slot]
    case WantNothing => [Number(0), Eq, Number(1)]
    case WantIds(_) => [Name(Id), Eq, AnyKw, LParen, Slot, RParen]
    case WantUser(_) => [Name(UserId), Eq, Slot]
    case WantProblem(_) => [Name(ProblemId), Eq, Slot]
    case WantList(_) =>
      [ExistsKw, LParen, SelectKw, Number(1), FromKw, Name(DeepProblemsTable), WhereKw,
       Name(ListId), Eq, Slot, AndKw, Name(ProblemId), Eq, Name(OuterProblemId), RParen]
    case WantNoContest => [Name(ContestId), IsKw, NullKw]
    case WantContest(_) => [Name(ContestId), Eq, Slot]
    case WantAuthors =>
      [ExistsKw, LParen, SelectKw, Number(1), FromKw, Name(ProblemAccessTable), WhereKw,
       Name(AccessCol), Eq, Text("editor"), AndKw, Name(ProblemId), Eq, Name(OuterProblemId),
       AndKw, Name(UserId), Eq, Name(OuterUserId), RParen]
    case WantStatus(_) => [Name(StatusCol), Eq, Slot]
    case WantUnfinished =>
      [LParen, Name(StatusCol), Eq, Slot, OrKw, Name(StatusCol), Eq, Slot, OrKw, Name(StatusCol), Eq, Slot, RParen]
    case WantLang(_) => [LowerKw, LParen, Name(Language), RParen, Eq, LowerKw, LParen, Slot, RParen]
    case WantScore(_) => [Name(Score), Eq, Slot]
    case WantSince(_) => [Name(CreatedAt), Gt, Slot]
    case WantCompileError(_) => [Name(CompileError), Eq, Slot]
  }

  function WantArgs(w: Want): seq<Value> {
    match w
    case WantId(n) => [IntV(n)]
    case WantIds(ids) => [IntsV(ids)]
    case WantUser(n) => [IntV(n)]
    case WantProblem(n) => [IntV(n)]
    case WantList(n) => [IntV(n)]
    case WantContest(n) => [IntV(n)]
    case WantStatus(st) => [StatusV(st)]
    case WantUnfinished => [StatusV(Creating), StatusV(Waiting), StatusV(Working)]
    case WantLang(s) => [StrV(s)]
    case WantScore(r) => [RealV(r)]
    case WantSince(t) => [TimeV(t)]
    case WantCompileError(b) => [BoolV(b)]
    case _ => []
  }

  function Piece(isSet: bool, w: Want): seq<Want> {
    if isSet then [w] else []
  }

  function IdWants(f: SubmissionFilter): seq<Want> {
    Piece(f.id.Some?, WantId(Or(f.id, 0)))
    + Piece(f.ids.Some? && f.ids.value == [], WantNothing)
    + Piece(f.ids.Some? && f.ids.value != [], WantIds(Or(f.ids, [])))
    + Piece(f.userId.Some?, WantUser(Or(f.userId, 0)))
    + Piece(f.problemId.Some?, WantProblem(Or(f.problemId, 0)))
  }

  function PlaceWants(f: SubmissionFilter): seq<Want> {
    Piece(f.problemListId.Some?, WantList(Or(f.problemListId, 0)))
    + Piece(f.contestId == Some(0), WantNoContest)
    + Piece(f.contestId.Some? && f.contestId.value != 0, WantContest(Or(f.contestId, 0)))
    + Piece(f.fromAuthors, WantAuthors)
  }

  function ResultWants(f: SubmissionFilter): seq<Want> {
    Piece(f.status.Some?, WantStatus(Or(f.status, Waiting)))
    + Piece(f.waiting, WantUnfinished)
    + Piece(f.lang.Some?, WantLang(Or(f.lang, "")))
    + Piece(f.score.Some?, WantScore(Or(f.score, 0.0)))
    + Piece(f.since.Some?, WantSince(Or(f.since, 0)))
    + Piece(f.compileError.Some?, WantCompileError(Or(f.compileError, false)))
  }

  function Wants(f: SubmissionFilter): seq<Want> {
    IdWants(f) + PlaceWants(f) + ResultWants(f)
  }

  function ArgsOf(ws: seq<Want>): seq<Value> {
    if ws == [] then [] else WantArgs(ws[0]) + ArgsOf(ws[1..])
  }

  /** The conditions with their placeholders, the first of them $pos. */
  function ClausesFrom(ws: seq<Want>, pos: nat): seq<seq<Token>> {
    if ws == [] then []
    else [Fill(Template(ws[0]), pos)] + ClausesFrom(ws[1..], pos + |WantArgs(ws[0])|)
  }

  lemma {:induction false} ArgsOfConcat(a: seq<Want>, b: seq<Want>)
    ensures ArgsOf(a + b) == ArgsOf(a) + ArgsOf(b)
  {
    if a == [] {
      assert a + b == b;
    } else {
      assert (a + b)[1..] == a[1..] + b;
      ArgsOfConcat(a[1..], b);
    }
  }

  lemma {:induction false} ClausesFromConcat(a: seq<Want>, b: seq<Want>, pos: nat)
    ensures ClausesFrom(a + b, pos) == ClausesFrom(a, pos) + ClausesFrom(b, pos + |ArgsOf(a)|)
  {
    hide Template, WantArgs, Fill;
    if a == [] {
      assert a + b == b;
    } else {
      assert (a + b)[1..] == a[1..] + b;
      ClausesFromConcat(a[1..], b, pos + |WantArgs(a[0])|);
    }
  }

  // ---- What each condition is read as ----

  const EDITORS_OF_OUTER: Expr :=
    Both(Equals(Column(ProblemId), Column(OuterProblemId)), Equals(Column(UserId), Column(OuterUserId)))

  function WantExpr(w: Want, pos: nat): Expr {
    match w
    case WantId(_) => Equals(Column(Id), Placeholder(pos))
    case WantNothing => Equals(Int(0), Int(1))
    case WantIds(_) => AnyOf(Column(Id), Placeholder(pos))
    case WantUser(_) => Equals(Column(UserId), Placeholder(pos))
    case WantProblem(_) => Equals(Column(ProblemId), Placeholder(pos))
    case WantList(_) =>
      Exists(DeepProblemsTable,
             Both(Equals(Column(ListId), Placeholder(pos)), Equals(Column(ProblemId), Column(OuterProblemId))))
    case WantNoContest => IsNull(Column(ContestId))
    case WantContest(_) => Equals(Column(ContestId), Placeholder(pos))
    case WantAuthors =>
      Exists(ProblemAccessTable, Both(Equals(Column(AccessCol), Str("editor")), EDITORS_OF_OUTER))
    case WantStatus(_) => Equals(Column(StatusCol), Placeholder(pos))
    case WantUnfinished =>
      Either(Equals(Column(StatusCol), Placeholder(pos)),
             Either(Equals(Column(StatusCol), Placeholder(pos + 1)), Equals(Column(StatusCol), Placeholder(pos + 2))))
    case WantLang(_) => Equals(Lowered(Column(Language)), Lowered(Placeholder(pos)))
    case WantScore(_) => Equals(Column(Score), Placeholder(pos))
    case WantSince(_) => Greater(Column(CreatedAt), Placeholder(pos))
    case WantCompileError(_) => Equals(Column(CompileError), Placeholder(pos))
  }

  /** Tokens that filling leaves alone. */
  predicate Plain(s: seq<Token>) {
    forall i :: 0 <= i < |s| ==> s[i] != Slot && !s[i].Param?
  }

  /** Filling and counting, one token at a time. */
  lemma FillToken(t: Token, rest: seq<Token>, pos: nat)
    ensures t == Slot ==> Fill([t] + rest, pos) == [Param(pos)] + Fill(rest, pos + 1)
    ensures t != Slot ==> Fill([t] + rest, pos) == [t] + Fill(rest, pos)
    ensures Slots([t] + rest) == (if t == Slot then 1 else 0) + Slots(rest)
  {
    assert ([t] + rest)[1..] == rest;
  }

  lemma FillEmpty(pos: nat)
    ensures Fill([], pos) == [] && Slots([]) == 0 && Placeholders([]) == []
  {
  }

  lemma {:induction false} FillPlain(a: seq<Token>, b: seq<Token>, pos: nat)
    requires Plain(a)
    ensures Fill(a + b, pos) == a + Fill(b, pos)
    ensures Slots(a + b) == Slots(b)
    ensures Placeholders(a + b) == Placeholders(b)
  {
    hide Fill, Slots, Placeholders;
    if a == [] {
      assert a + b == b;
    } else {
      var rest := a[1..] + b;
      assert a + b == [a[0]] + rest;
      FillToken(a[0], rest, pos);
      FirstToken(a[0], rest);
      FillPlain(a[1..], b, pos);
      assert [a[0]] + (a[1..] + Fill(b, pos)) == a + Fill(b, pos);
    }
  }

  lemma FillSlot(b: seq<Token>, pos: nat)
    ensures Fill([Slot] + b, pos) == [Param(pos)] + Fill(b, pos + 1)
    ensures Slots([Slot] + b) == 1 + Slots(b)
    ensures Placeholders([Slot] + b) == Placeholders(b)
  {
    hide Fill, Slots, Placeholders;
    FillToken(Slot, b, pos);
    FirstToken(Slot, b);
  }

  lemma FillOne(a: seq<Token>, b: seq<Token>, pos: nat)
    requires Plain(a) && Plain(b)
    ensures Fill(a + [Slot] + b, pos) == a + [Param(pos)] + b
    ensures Slots(a + [Slot] + b) == 1 && Placeholders(a + [Slot] + b) == []
  {
    hide Fill, Slots, Placeholders, Plain;
    assert a + [Slot] + b == a + ([Slot] + b);
    FillPlain(a, [Slot] + b, pos);
    FillSlot(b, pos);
    FillNone(b, pos + 1);
    assert a + ([Param(pos)] + b) == a + [Param(pos)] + b;
  }

  lemma FillNone(a: seq<Token>, pos: nat)
    requires Plain(a)
    ensures Fill(a, pos) == a && Slots(a) == 0 && Placeholders(a) == []
  {
    hide Fill, Slots, Placeholders, Plain;
    assert a + [] == a;
    FillPlain(a, [], pos);
    FillEmpty(pos);
  }

  lemma FillThree(a: seq<Token>, b: seq<Token>, c: seq<Token>, d: seq<Token>, pos: nat)
    requires Plain(a) && Plain(b) && Plain(c) && Plain(d)
    ensures
      var t := a + [Slot] + b + [Slot] + c + [Slot] + d;
      && Fill(t, pos) == a + [Param(pos)] + b + [Param(pos + 1)] + c + [Param(pos + 2)] + d
      && Slots(t) == 3 && Placeholders(t) == []
  {
    hide Fill, Slots, Placeholders, Plain;
    var t2 := c + [Slot] + d;
    var t1 := b + ([Slot] + t2);
    assert a + [Slot] + b + [Slot] + c + [Slot] + d == a + ([Slot] + t1);
    FillPlain(a, [Slot] + t1, pos);
    FillSlot(t1, pos);
    FillPlain(b, [Slot] + t2, pos + 1);
    FillSlot(t2, pos + 1);
    FillOne(c, d, pos + 2);
  }

  /** The filled template of every condition is, token for token, the printed form of what it means. */
  lemma FilledTemplate(w: Want, pos: nat)
    ensures Fill(Template(w), pos) == PrintAtom(WantExpr(w, pos))
    ensures Matches(Template(w), WantArgs(w))
  {
    hide Fill, Slots, Placeholders, Plain;
    match w {
      case WantList(_) => FilledList(w, pos);
      case WantAuthors => FilledAuthors(pos);
      case WantUnfinished => FilledUnfinished(pos);
      case WantLang(_) => FilledLang(w, pos);
      case WantIds(_) => FilledIds(w, pos);
      case _ => FilledSimple(w, pos);
    }
  }

  lemma FilledComparison(c: Ident, op: Token, pos: nat)
    requires op == Eq || op == Gt
    ensures Fill([Name(c), op, Slot], pos) == [Name(c), op, Param(pos)]
    ensures Slots([Name(c), op, Slot]) == 1 && Placeholders([Name(c), op, Slot]) == []
  {
    hide Fill, Slots, Placeholders;
    assert [Name(c), op, Slot] == [Name(c), op] + [Slot] + [];
    FillOne([Name(c), op], [], pos);
  }

  lemma PrintedComparison(c: Ident, pos: nat)
    ensures
      var e := Equals(Column(c), Placeholder(pos));
      PrintAnd(e) == PrintAtom(e) == [Name(c), Eq, Param(pos)]
    ensures PrintAtom(Greater(Column(c), Placeholder(pos))) == [Name(c), Gt, Param(pos)]
  {
  }

  lemma FilledSimple(w: Want, pos: nat)
    requires !w.WantList? && !w.WantAuthors? && !w.WantUnfinished? && !w.WantLang? && !w.WantIds?
    ensures Fill(Template(w), pos) == PrintAtom(WantExpr(w, pos))
    ensures Matches(Template(w), WantArgs(w))
  {
    hide Fill, Slots, Placeholders;
    var t := Template(w);
    if w.WantNothing? || w.WantNoContest? {
      FillNone(t, pos);
    } else {
      hide PrintAtom;
      FilledComparison(t[0].name, t[1], pos);
      PrintedComparison(t[0].name, pos);
    }
  }

  lemma FilledIds(w: Want, pos: nat)
    requires w.WantIds?
    ensures Fill(Template(w), pos) == PrintAtom(WantExpr(w, pos))
    ensures Matches(Template(w), WantArgs(w))
  {
    hide Fill, Slots, Placeholders;
    var a, b := [Name(Id), Eq, AnyKw, LParen], [RParen];
    assert Template(w) == a + [Slot] + b;
    FillOne(a, b, pos);
  }

  lemma FilledLang(w: Want, pos: nat)
    requires w.WantLang?
    ensures Fill(Template(w), pos) == PrintAtom(WantExpr(w, pos))
    ensures Matches(Template(w), WantArgs(w))
  {
    hide Fill, Slots, Placeholders;
    var a, b := [LowerKw, LParen, Name(Language), RParen, Eq, LowerKw, LParen], [RParen];
    assert Template(w) == a + [Slot] + b;
    FillOne(a, b, pos);
    assert PrintOperand(Lowered(Column(Language))) == [LowerKw, LParen, Name(Language), RParen];
    assert PrintOperand(Lowered(Placeholder(pos))) == [LowerKw, LParen, Param(pos), RParen];
  }

  lemma PrintedColumns(c: Ident, d: Ident)
    ensures
      var e := Equals(Column(c), Column(d));
      PrintAnd(e) == PrintAtom(e) == [Name(c), Eq, Name(d)]
  {
  }

  lemma PrintedBoth(l: Expr, r: Expr)
    ensures PrintOr(Both(l, r)) == PrintAnd(Both(l, r)) == PrintAtom(l) + [AndKw] + PrintAnd(r)
  {
  }

  lemma PrintedExists(table: Ident, cond: Expr)
    ensures PrintAtom(Exists(table, cond)) == SubqueryHead(table) + PrintOr(cond) + [RParen]
  {
  }

  lemma FilledList(w: Want, pos: nat)
    requires w.WantList?
    ensures Fill(Template(w), pos) == PrintAtom(WantExpr(w, pos))
    ensures Matches(Template(w), WantArgs(w))
  {
    hide Fill, Slots, Placeholders, PrintOr, PrintAnd, PrintAtom;
    var a := SubqueryHead(DeepProblemsTable) + [Name(ListId), Eq];
    var b := [AndKw, Name(ProblemId), Eq, Name(OuterProblemId), RParen];
    assert Template(w) == a + [Slot] + b;
    FillOne(a, b, pos);
    var l, r := Equals(Column(ListId), Placeholder(pos)), Equals(Column(ProblemId), Column(OuterProblemId));
    PrintedComparison(ListId, pos);
    PrintedColumns(ProblemId, OuterProblemId);
    PrintedBoth(l, r);
    PrintedExists(DeepProblemsTable, Both(l, r));
  }

  lemma PrintedEditor()
    ensures PrintAtom(Equals(Column(AccessCol), Str("editor"))) == [Name(AccessCol), Eq, Text("editor")]
  {
  }

  lemma FilledAuthors(pos: nat)
    ensures Fill(Template(WantAuthors), pos) == PrintAtom(WantExpr(WantAuthors, pos))
    ensures Matches(Template(WantAuthors), [])
  {
    hide Fill, Slots, Placeholders, PrintOr, PrintAnd, PrintAtom;
    FillNone(Template(WantAuthors), pos);
    var l := Equals(Column(AccessCol), Str("editor"));
    PrintedEditor();
    PrintedColumns(ProblemId, OuterProblemId);
    PrintedColumns(UserId, OuterUserId);
    PrintedBoth(Equals(Column(ProblemId), Column(OuterProblemId)), Equals(Column(UserId), Column(OuterUserId)));
    PrintedBoth(l, EDITORS_OF_OUTER);
    PrintedExists(ProblemAccessTable, Both(l, EDITORS_OF_OUTER));
  }

  function StatusIs(pos: nat): Expr {
    Equals(Column(StatusCol), Placeholder(pos))
  }

  lemma PrintedStatus(pos: nat)
    ensures PrintOr(StatusIs(pos)) == PrintAnd(StatusIs(pos)) == PrintAtom(StatusIs(pos)) ==
      [Name(StatusCol), Eq, Param(pos)]
  {
  }

  lemma PrintedEither(l: Expr, r: Expr)
    ensures PrintOr(Either(l, r)) == PrintAnd(l) + [OrKw] + PrintOr(r)
    ensures PrintAtom(Either(l, r)) == [LParen] + (PrintAnd(l) + [OrKw] + PrintOr(r)) + [RParen]
  {
  }

  lemma PrintedUnfinished(pos: nat)
    ensures PrintAtom(WantExpr(WantUnfinished, pos)) ==
      [LParen, Name(StatusCol), Eq] + [Param(pos)] + [OrKw, Name(StatusCol), Eq] + [Param(pos + 1)]
      + [OrKw, Name(StatusCol), Eq] + [Param(pos + 2)] + [RParen]
  {
    assert WantExpr(WantUnfinished, pos) == Either(StatusIs(pos), Either(StatusIs(pos + 1), StatusIs(pos + 2)));
    hide PrintOr, PrintAnd, PrintAtom, StatusIs, WantExpr;
    PrintedStatus(pos);
    PrintedStatus(pos + 1);
    PrintedStatus(pos + 2);
    PrintedEither(StatusIs(pos + 1), StatusIs(pos + 2));
    PrintedEither(StatusIs(pos), Either(StatusIs(pos + 1), StatusIs(pos + 2)));
  }

  lemma FilledUnfinished(pos: nat)
    ensures Fill(Template(WantUnfinished), pos) == PrintAtom(WantExpr(WantUnfinished, pos))
    ensures Matches(Template(WantUnfinished), WantArgs(WantUnfinished))
  {
    hide Fill, Slots, Placeholders, PrintAtom, WantExpr;
    var a, b, d := [LParen, Name(StatusCol), Eq], [OrKw, Name(StatusCol), Eq], [RParen];
    assert Template(WantUnfinished) == a + [Slot] + b + [Slot] + b + [Slot] + d;
    FillThree(a, b, b, d, pos);
    PrintedUnfinished(pos);
  }

  // ---- What each condition means ----

  function ToColumns(r: Submission): Columns {
    map[Id := IntV(r.id), CreatedAt := TimeV(r.createdAt), UserId := IntV(r.userId), ProblemId := IntV(r.problemId),
        ContestId := (if r.contestId.Some? then IntV(r.contestId.value) else Null),
        StatusCol := StatusV(r.status), Language := StrV(r.language), Score := RealV(r.score),
        CompileError := (if r.compileError.Some? then BoolV(r.compileError.value) else Null),
        OuterProblemId := IntV(r.problemId), OuterUserId := IntV(r.userId)]
  }

  function ListRow(p: (int, int)): Columns {
    map[ListId := IntV(p.0), ProblemId := IntV(p.1)]
  }

  function AccessRow(a: (int, int, string)): Columns {
    map[ProblemId := IntV(a.0), UserId := IntV(a.1), AccessCol := StrV(a.2)]
  }

  function Tables(w: World): Database {
    Database(
      map[DeepProblemsTable := set p | p in w.deepProblems :: ListRow(p),
          ProblemAccessTable := set a | a in w.access :: AccessRow(a)],
      w.lower)
  }

  predicate Holds(w: Want, r: Submission, world: World) {
    match w
    case WantId(n) => r.id == n
    case WantNothing => false
    case WantIds(ids) => r.id in ids
    case WantUser(n) => r.userId == n
    case WantProblem(n) => r.problemId == n
    case WantList(n) => (n, r.problemId) in world.deepProblems
    case WantNoContest => r.contestId == None
    case WantContest(n) => r.contestId == Some(n)
    case WantAuthors => (r.problemId, r.userId, "editor") in world.access
    case WantStatus(st) => r.status == st
    case WantUnfinished => Unfinished(r.status)
    case WantLang(s) => world.lower(r.language) == world.lower(s)
    case WantScore(x) => r.score == x
    case WantSince(t) => r.createdAt > t
    case WantCompileError(b) => r.compileError == Some(b)
  }

  /** From placeholder $pos on, the argument list holds these values. */
  ghost predicate Bound(args: seq<Value>, pos: nat, values: seq<Value>) {
    pos >= 1 && pos - 1 + |values| <= |args| && args[pos - 1..pos - 1 + |values|] == values
  }

  lemma BoundAt(args: seq<Value>, pos: nat, values: seq<Value>, i: nat)
    requires Bound(args, pos, values) && i < |values|
    ensures 1 <= pos + i <= |args| && args[pos + i - 1] == values[i]
  {
    assert args[pos - 1..pos - 1 + |values|][i] == args[pos + i - 1];
  }

  lemma ListRowMatches(p: (int, int), n: int, pos: nat, r: Submission, args: seq<Value>, db: Database)
    requires Bound(args, pos, [IntV(n)])
    ensures
      var cond := Both(Equals(Column(ListId), Placeholder(pos)), Equals(Column(ProblemId), Column(OuterProblemId)));
      Eval(cond, ToColumns(r) + ListRow(p), args, db) == True <==> p == (n, r.problemId)
  {
    hide Bound;
    BoundAt(args, pos, [IntV(n)], 0);
    var inner := ToColumns(r) + ListRow(p);
    assert inner[ListId] == IntV(p.0) && inner[ProblemId] == IntV(p.1) && inner[OuterProblemId] == IntV(r.problemId);
    assert Eval(Equals(Column(ListId), Placeholder(pos)), inner, args, db) == Of(p.0 == n);
    assert Eval(Equals(Column(ProblemId), Column(OuterProblemId)), inner, args, db) == Of(p.1 == r.problemId);
  }

  lemma ListMeaning(n: int, pos: nat, r: Submission, args: seq<Value>, world: World)
    requires Bound(args, pos, [IntV(n)])
    ensures Eval(WantExpr(WantList(n), pos), ToColumns(r), args, Tables(world)) == True
       <==> (n, r.problemId) in world.deepProblems
  {
    hide ToColumns, ListRow, Bound;
    var env, db := ToColumns(r), Tables(world);
    var cond := Both(Equals(Column(ListId), Placeholder(pos)), Equals(Column(ProblemId), Column(OuterProblemId)));
    forall p | p in world.deepProblems
      ensures Eval(cond, env + ListRow(p), args, db) == True <==> p == (n, r.problemId)
    {
      ListRowMatches(p, n, pos, r, args, db);
    }
    if (n, r.problemId) in world.deepProblems {
      var row := ListRow((n, r.problemId));
      assert row in db.tables[DeepProblemsTable] && Eval(cond, env + row, args, db) == True;
    }
  }

  lemma TablesLower(world: World)
    ensures Tables(world).lower == world.lower
  {
  }

  lemma EditorMatches(a: (int, int, string), r: Submission, args: seq<Value>, db: Database)
    ensures
      var cond := Both(Equals(Column(AccessCol), Str("editor")), EDITORS_OF_OUTER);
      Eval(cond, ToColumns(r) + AccessRow(a), args, db) == True <==> a == (r.problemId, r.userId, "editor")
  {
    var inner := ToColumns(r) + AccessRow(a);
    assert inner[ProblemId] == IntV(a.0) && inner[UserId] == IntV(a.1) && inner[AccessCol] == StrV(a.2);
    assert inner[OuterProblemId] == IntV(r.problemId) && inner[OuterUserId] == IntV(r.userId);
    assert Eval(Equals(Column(AccessCol), Str("editor")), inner, args, db) == Of(a.2 == "editor");
    assert Eval(Equals(Column(ProblemId), Column(OuterProblemId)), inner, args, db) == Of(a.0 == r.problemId);
    assert Eval(Equals(Column(UserId), Column(OuterUserId)), inner, args, db) == Of(a.1 == r.userId);
    assert Eval(EDITORS_OF_OUTER, inner, args, db) == And3(Of(a.0 == r.problemId), Of(a.1 == r.userId));
  }

  lemma AuthorsMeaning(pos: nat, r: Submission, args: seq<Value>, world: World)
    ensures Eval(WantExpr(WantAuthors, pos), ToColumns(r), args, Tables(world)) == True
       <==> (r.problemId, r.userId, "editor") in world.access
  {
    hide ToColumns, AccessRow;
    var env, db := ToColumns(r), Tables(world);
    var cond := Both(Equals(Column(AccessCol), Str("editor")), EDITORS_OF_OUTER);
    forall a | a in world.access
      ensures Eval(cond, env + AccessRow(a), args, db) == True <==> a == (r.problemId, r.userId, "editor")
    {
      EditorMatches(a, r, args, db);
    }
    var wanted := (r.problemId, r.userId, "editor");
    if wanted in world.access {
      var row := AccessRow(wanted);
      assert row in db.tables[ProblemAccessTable] && Eval(cond, env + row, args, db) == True;
    }
  }

  lemma UnfinishedMeaning(pos: nat, r: Submission, args: seq<Value>, world: World)
    requires Bound(args, pos, WantArgs(WantUnfinished))
    ensures Eval(WantExpr(WantUnfinished, pos), ToColumns(r), args, Tables(world)) == True <==> Unfinished(r.status)
  {
    hide Tables, Bound;
    var values := [StatusV(Creating), StatusV(Waiting), StatusV(Working)];
    var env, db := ToColumns(r), Tables(world);
    BoundAt(args, pos, values, 0);
    BoundAt(args, pos, values, 1);
    BoundAt(args, pos, values, 2);
    assert env[StatusCol] == StatusV(r.status);
    assert Eval(Equals(Column(StatusCol), Placeholder(pos)), env, args, db) == Of(r.status == Creating);
    assert Eval(Equals(Column(StatusCol), Placeholder(pos + 1)), env, args, db) == Of(r.status == Waiting);
    assert Eval(Equals(Column(StatusCol), Placeholder(pos + 2)), env, args, db) == Of(r.status == Working);
  }

  lemma LangMeaning(s: string, pos: nat, r: Submission, args: seq<Value>, world: World)
    requires Bound(args, pos, [StrV(s)])
    ensures Eval(WantExpr(WantLang(s), pos), ToColumns(r), args, Tables(world)) == True
       <==> world.lower(r.language) == world.lower(s)
  {
    hide Tables, Bound;
    var env, db := ToColumns(r), Tables(world);
    BoundAt(args, pos, [StrV(s)], 0);
    TablesLower(world);
    assert EvalOperand(Lowered(Column(Language)), env, args, db) == StrV(db.lower(r.language));
    assert EvalOperand(Lowered(Placeholder(pos)), env, args, db) == StrV(db.lower(s));
  }

  lemma EqualsPlaceholder(c: Ident, v: Value, pos: nat, env: Columns, args: seq<Value>, db: Database)
    requires Bound(args, pos, [v]) && c in env
    ensures Eval(Equals(Column(c), Placeholder(pos)), env, args, db) == Compare(env[c], v)
  {
    BoundAt(args, pos, [v], 0);
  }

  lemma EqualityMeaning(w: Want, pos: nat, r: Submission, args: seq<Value>, world: World)
    requires Bound(args, pos, WantArgs(w))
    requires w.WantId? || w.WantUser? || w.WantProblem? || w.WantContest? || w.WantStatus? || w.WantScore?
      || w.WantCompileError?
    ensures Eval(WantExpr(w, pos), ToColumns(r), args, Tables(world)) == True <==> Holds(w, r, world)
  {
    hide Tables, Bound, Eval;
    var env, db := ToColumns(r), Tables(world);
    match w {
      case WantId(n) => EqualsPlaceholder(Id, IntV(n), pos, env, args, db);
      case WantUser(n) => EqualsPlaceholder(UserId, IntV(n), pos, env, args, db);
      case WantProblem(n) => EqualsPlaceholder(ProblemId, IntV(n), pos, env, args, db);
      case WantContest(n) => EqualsPlaceholder(ContestId, IntV(n), pos, env, args, db);
      case WantStatus(st) => EqualsPlaceholder(StatusCol, StatusV(st), pos, env, args, db);
      case WantScore(x) => EqualsPlaceholder(Score, RealV(x), pos, env, args, db);
      case WantCompileError(b) => EqualsPlaceholder(CompileError, BoolV(b), pos, env, args, db);
      case _ => assert false;
    }
  }

  lemma OtherMeaning(w: Want, pos: nat, r: Submission, args: seq<Value>, world: World)
    requires Bound(args, pos, WantArgs(w))
    requires w.WantNothing? || w.WantIds? || w.WantNoContest? || w.WantSince?
    ensures Eval(WantExpr(w, pos), ToColumns(r), args, Tables(world)) == True <==> Holds(w, r, world)
  {
    hide Tables, Bound;
    match w {
      case WantIds(ids) => BoundAt(args, pos, [IntsV(ids)], 0);
      case WantSince(x) => BoundAt(args, pos, [TimeV(x)], 0);
      case WantNoContest => assert ToColumns(r)[ContestId] == Null <==> r.contestId.None?;
      case _ =>
    }
  }

  lemma ConditionMeaning(w: Want, pos: nat, r: Submission, args: seq<Value>, world: World)
    requires Bound(args, pos, WantArgs(w))
    ensures Eval(WantExpr(w, pos), ToColumns(r), args, Tables(world)) == True <==> Holds(w, r, world)
  {
    hide Tables, Bound, Eval, ToColumns, WantExpr;
    match w {
      case WantList(n) => ListMeaning(n, pos, r, args, world);
      case WantAuthors => AuthorsMeaning(pos, r, args, world);
      case WantUnfinished => UnfinishedMeaning(pos, r, args, world);
      case WantLang(s) => LangMeaning(s, pos, r, args, world);
      case WantNothing => OtherMeaning(w, pos, r, args, world);
      case WantNoContest => OtherMeaning(w, pos, r, args, world);
      case WantIds(_) => OtherMeaning(w, pos, r, args, world);
      case WantSince(_) => OtherMeaning(w, pos, r, args, world);
      case _ => EqualityMeaning(w, pos, r, args, world);
    }
  }

  function ExprsFrom(ws: seq<Want>, pos: nat): seq<Expr> {
    if ws == [] then []
    else [WantExpr(ws[0], pos)] + ExprsFrom(ws[1..], pos + |WantArgs(ws[0])|)
  }

  lemma BoundSplit(args: seq<Value>, pos: nat, a: seq<Value>, b: seq<Value>)
    requires Bound(args, pos, a + b)
    ensures Bound(args, pos, a) && Bound(args, pos + |a|, b)
  {
    var from := pos - 1;
    var all := args[from..from + |a + b|];
    assert all[..|a|] == a && all[|a|..] == b;
    assert args[from..from + |a|] == all[..|a|];
    assert args[from + |a|..from + |a| + |b|] == all[|a|..];
  }

  ghost predicate AllHold(ws: seq<Want>, r: Submission, world: World) {
    ws == [] || (Holds(ws[0], r, world) && AllHold(ws[1..], r, world))
  }

  lemma {:induction false} AllHoldConcat(a: seq<Want>, b: seq<Want>, r: Submission, world: World)
    ensures AllHold(a + b, r, world) <==> AllHold(a, r, world) && AllHold(b, r, world)
  {
    if a == [] {
      assert a + b == b;
    } else {
      assert (a + b)[1..] == a[1..] + b;
      AllHoldConcat(a[1..], b, r, world);
    }
  }

  /** Adding one more condition, if its field is set. */
  lemma AllHoldMore(a: seq<Want>, isSet: bool, w: Want, r: Submission, world: World)
    ensures AllHold(a + Piece(isSet, w), r, world) <==> AllHold(a, r, world) && (isSet ==> Holds(w, r, world))
  {
    AllHoldConcat(a, Piece(isSet, w), r, world);
    assert AllHold([w], r, world) <==> Holds(w, r, world);
  }

  lemma {:induction false} ClausesArePrinted(ws: seq<Want>, pos: nat)
    ensures Prints(ClausesFrom(ws, pos), ExprsFrom(ws, pos))
  {
    hide Template, WantExpr, Fill, PrintAtom, WantArgs, Matches;
    if ws != [] {
      FilledTemplate(ws[0], pos);
      ClausesArePrinted(ws[1..], pos + |WantArgs(ws[0])|);
    }
  }

  /** Every one of the conditions is true for a row. */
  ghost predicate AllTrue(exprs: seq<Expr>, r: Submission, args: seq<Value>, world: World) {
    forall e | e in exprs :: Eval(e, ToColumns(r), args, Tables(world)) == True
  }

  lemma FirstTrue(first: Expr, rest: seq<Expr>, r: Submission, args: seq<Value>, world: World)
    ensures AllTrue([first] + rest, r, args, world) <==>
      Eval(first, ToColumns(r), args, Tables(world)) == True && AllTrue(rest, r, args, world)
  {
    hide Eval, ToColumns, Tables;
    assert forall e :: e in [first] + rest <==> e == first || e in rest;
  }

  lemma {:induction false} ConditionsMean(ws: seq<Want>, pos: nat, r: Submission, args: seq<Value>, world: World)
    requires Bound(args, pos, ArgsOf(ws))
    ensures AllTrue(ExprsFrom(ws, pos), r, args, world) <==> AllHold(ws, r, world)
  {
    hide WantExpr, Eval, ToColumns, Tables, Holds, WantArgs, AllTrue, Bound;
    if ws == [] {
      NothingIsTrue(r, args, world);
    } else {
      var next := pos + |WantArgs(ws[0])|;
      BoundSplit(args, pos, WantArgs(ws[0]), ArgsOf(ws[1..]));
      ConditionMeaning(ws[0], pos, r, args, world);
      ConditionsMean(ws[1..], next, r, args, world);
      FirstTrue(WantExpr(ws[0], pos), ExprsFrom(ws[1..], next), r, args, world);
    }
  }

  lemma NothingIsTrue(r: Submission, args: seq<Value>, world: World)
    ensures AllTrue([], r, args, world)
  {
  }

  lemma WantsAreTheFilter(f: SubmissionFilter, r: Submission, world: World)
    ensures AllHold(Wants(f), r, world) <==> Satisfies(f, r, world)
  {
    hide AllHold, IdWants, PlaceWants, ResultWants;
    IdWantsMean(f, r, world);
    PlaceWantsMean(f, r, world);
    ResultWantsMean(f, r, world);
    AllHoldConcat(IdWants(f), PlaceWants(f), r, world);
    AllHoldConcat(IdWants(f) + PlaceWants(f), ResultWants(f), r, world);
  }

  lemma IdWantsMean(f: SubmissionFilter, r: Submission, world: World)
    ensures AllHold(IdWants(f), r, world) <==>
      (f.id.Some? ==> r.id == f.id.value) && (f.ids.Some? ==> r.id in f.ids.value)
      && (f.userId.Some? ==> r.userId == f.userId.value) && (f.problemId.Some? ==> r.problemId == f.problemId.value)
  {
    hide AllHold, Piece;
    assert AllHold([], r, world) by { NothingHolds(r, world); }
    var a := [] + Piece(f.id.Some?, WantId(Or(f.id, 0)));
    AllHoldMore([], f.id.Some?, WantId(Or(f.id, 0)), r, world);
    assert a == Piece(f.id.Some?, WantId(Or(f.id, 0)));
    AllHoldMore(a, f.ids.Some? && f.ids.value == [], WantNothing, r, world);
    var b := a + Piece(f.ids.Some? && f.ids.value == [], WantNothing);
    AllHoldMore(b, f.ids.Some? && f.ids.value != [], WantIds(Or(f.ids, [])), r, world);
    var c := b + Piece(f.ids.Some? && f.ids.value != [], WantIds(Or(f.ids, [])));
    AllHoldMore(c, f.userId.Some?, WantUser(Or(f.userId, 0)), r, world);
    var d := c + Piece(f.userId.Some?, WantUser(Or(f.userId, 0)));
    AllHoldMore(d, f.problemId.Some?, WantProblem(Or(f.problemId, 0)), r, world);
  }

  lemma NothingHolds(r: Submission, world: World)
    ensures AllHold([], r, world)
  {
  }

  lemma PlaceWantsMean(f: SubmissionFilter, r: Submission, world: World)
    ensures AllHold(PlaceWants(f), r, world) <==>
      (f.problemListId.Some? ==> (f.problemListId.value, r.problemId) in world.deepProblems)
      && (f.contestId.Some? ==> r.contestId == if f.contestId.value == 0 then None else Some(f.contestId.value))
      && (f.fromAuthors ==> (r.problemId, r.userId, "editor") in world.access)
  {
    hide AllHold, Piece;
    assert AllHold([], r, world) by { NothingHolds(r, world); }
    var a := Piece(f.problemListId.Some?, WantList(Or(f.problemListId, 0)));
    AllHoldMore([], f.problemListId.Some?, WantList(Or(f.problemListId, 0)), r, world);
    assert [] + a == a;
    AllHoldMore(a, f.contestId == Some(0), WantNoContest, r, world);
    var b := a + Piece(f.contestId == Some(0), WantNoContest);
    AllHoldMore(b, f.contestId.Some? && f.contestId.value != 0, WantContest(Or(f.contestId, 0)), r, world);
    var c := b + Piece(f.contestId.Some? && f.contestId.value != 0, WantContest(Or(f.contestId, 0)));
    AllHoldMore(c, f.fromAuthors, WantAuthors, r, world);
  }

  lemma ResultWantsMean(f: SubmissionFilter, r: Submission, world: World)
    ensures AllHold(ResultWants(f), r, world) <==>
      (f.status.Some? ==> r.status == f.status.value) && (f.waiting ==> Unfinished(r.status))
      && (f.lang.Some? ==> world.lower(r.language) == world.lower(f.lang.value))
      && (f.score.Some? ==> r.score == f.score.value) && (f.since.Some? ==> r.createdAt > f.since.value)
      && (f.compileError.Some? ==> r.compileError == Some(f.compileError.value))
  {
    hide AllHold, Piece;
    assert AllHold([], r, world) by { NothingHolds(r, world); }
    var a := Piece(f.status.Some?, WantStatus(Or(f.status, Waiting)));
    AllHoldMore([], f.status.Some?, WantStatus(Or(f.status, Waiting)), r, world);
    assert [] + a == a;
    AllHoldMore(a, f.waiting, WantUnfinished, r, world);
    var b := a + Piece(f.waiting, WantUnfinished);
    AllHoldMore(b, f.lang.Some?, WantLang(Or(f.lang, "")), r, world);
    var c := b + Piece(f.lang.Some?, WantLang(Or(f.lang, "")));
    AllHoldMore(c, f.score.Some?, WantScore(Or(f.score, 0.0)), r, world);
    var d := c + Piece(f.score.Some?, WantScore(Or(f.score, 0.0)));
    AllHoldMore(d, f.since.Some?, WantSince(Or(f.since, 0)), r, world);
    var e := d + Piece(f.since.Some?, WantSince(Or(f.since, 0)));
    AllHoldMore(e, f.compileError.Some?, WantCompileError(Or(f.compileError, false)), r, world);
  }

  /** The condition that a filter's text is read as, wherever its numbering starts. */
  function FilterExpr(f: SubmissionFilter, pos: nat): Expr {
    if Wants(f) == [] then Equals(Int(1), Int(1)) else Conjunction(ExprsFrom(Wants(f), pos))
  }

  function FilterText(f: SubmissionFilter, pos: nat): seq<Token> {
    WhereText(ClausesFrom(Wants(f), pos))
  }

  /**
    Compilation keeps meaning: numbered on from `before` and followed by any further arguments and
    text, the WHERE text of a filter is read as a condition that accepts exactly the rows the filter means.
  */
  lemma FilterTextMeans(f: SubmissionFilter, before: seq<Value>, after: seq<Value>, rest: seq<Token>, r: Submission,
      world: World)
    requires !Starts(rest, AndKw) && !Starts(rest, OrKw)
    ensures
      var pos := |before| + 1;
      var args := before + ArgsOf(Wants(f)) + after;
      && ParseOr(FilterText(f, pos) + rest) == Done(FilterExpr(f, pos), rest)
      && (Eval(FilterExpr(f, pos), ToColumns(r), args, Tables(world)) == True <==> Satisfies(f, r, world))
  {
    hide ArgsOf, ClausesFrom, ExprsFrom, AllHold, Eval, ToColumns, Tables, Wants, Satisfies, ParseOr, PrintAtom,
         Conjunction;
    var pos := |before| + 1;
    var ws := Wants(f);
    var args := before + ArgsOf(ws) + after;
    assert Bound(args, pos, ArgsOf(ws));
    ClausesArePrinted(ws, pos);
    ConditionsMean(ws, pos, r, args, world);
    WantsAreTheFilter(f, r, world);
    assert ws == [] ==> AllHold(ws, r, world) by { NothingHolds(r, world); }
    if ws == [] {
      NoConditions(pos, rest, ToColumns(r), args, Tables(world));
    } else {
      SameLength(ws, pos);
      ParseJoined(ClausesFrom(ws, pos), ExprsFrom(ws, pos), rest);
      EvalConjunction(ExprsFrom(ws, pos), ToColumns(r), args, Tables(world));
    }
  }

  lemma {:induction false} SameLength(ws: seq<Want>, pos: nat)
    ensures |ExprsFrom(ws, pos)| == |ClausesFrom(ws, pos)| == |ws|
  {
    hide Template, WantExpr, Fill, WantArgs;
    if ws != [] {
      SameLength(ws[1..], pos + |WantArgs(ws[0])|);
    }
  }

  lemma NoConditions(pos: nat, rest: seq<Token>, env: Columns, args: seq<Value>, db: Database)
    requires !Starts(rest, AndKw) && !Starts(rest, OrKw)
    ensures ParseOr(WhereText(ClausesFrom([], pos)) + rest) == Done(Equals(Int(1), Int(1)), rest)
    ensures Eval(Equals(Int(1), Int(1)), env, args, db) == True
  {
    var one := Equals(Int(1), Int(1));
    assert PrintOr(one) == PrintAnd(one) == PrintAtom(one) == [Number(1), Eq, Number(1)];
    ParsePrintOr(one, rest);
  }
}
