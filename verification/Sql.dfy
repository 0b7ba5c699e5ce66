/**
  The fragment of SQL that the submission queries are written in: its tokens, its grammar with
  AND binding tighter than OR, and its meaning with SQL's three truth values. `Print` writes a
  condition with exactly the parentheses precedence asks for; `ParseOr` reads it back.
*/
module Sql {
  import opened SubmissionStatus

  // ---- Syntax ----

  /** The columns, qualified columns and tables that the queries name. */
  datatype Ident =
    | Id | CreatedAt | UserId | ProblemId | ContestId | StatusCol | Language | Score
    | CompileError | CompileMessage | CompileDuration | MaxTime | MaxMemory | IcpcVerdict
    | OuterProblemId | OuterUserId
    | ListId | AccessCol
    | SubmissionsTable | DeepProblemsTable | ProblemAccessTable

  /** `Slot` is the `%s` of a template, `Param(n)` the placeholder `$n` that replaces it. */
  datatype Token =
    | Name(name: Ident) | Number(n: int) | Text(text: string)
    | Slot | Param(pos: nat)
    | Eq | Gt | AndKw | OrKw | IsKw | NullKw | AnyKw | LowerKw
    | ExistsKw | SelectKw | FromKw | WhereKw | LimitKw | UpdateKw | SetKw | CountStar
    | LParen | RParen | Comma

  datatype Operand =
    | Column(name: Ident) | Placeholder(pos: nat) | Int(n: int) | Str(text: string) | Lowered(of: Operand)

  datatype Expr =
    | Equals(left: Operand, right: Operand)
    | Greater(left: Operand, right: Operand)
    | IsNull(left: Operand)
    | AnyOf(left: Operand, right: Operand)
    | Exists(table: Ident, cond: Expr)
    | Both(first: Expr, second: Expr)
    | Either(first: Expr, second: Expr)

  // ---- Printing ----

  /** How a subquery on a table begins. */
  function SubqueryHead(table: Ident): seq<Token> {
    [ExistsKw, LParen, SelectKw, Number(1), FromKw, Name(table), WhereKw]
  }

  function PrintOperand(o: Operand): seq<Token> {
    match o
    case Column(name) => [Name(name)]
    case Placeholder(pos) => [Param(pos)]
    case Int(n) => [Number(n)]
    case Str(text) => [Text(text)]
    case Lowered(of) => [LowerKw, LParen] + PrintOperand(of) + [RParen]
  }

  function PrintOr(e: Expr): seq<Token>
    decreases e, 2
  {
    match e
    case Either(l, r) => PrintAnd(l) + [OrKw] + PrintOr(r)
    case _ => PrintAnd(e)
  }

  function PrintAnd(e: Expr): seq<Token>
    decreases e, 1
  {
    match e
    case Both(l, r) => PrintAtom(l) + [AndKw] + PrintAnd(r)
    case _ => PrintAtom(e)
  }

  function PrintAtom(e: Expr): seq<Token>
    decreases e, 0
  {
    match e
    case Equals(l, r) => PrintOperand(l) + [Eq] + PrintOperand(r)
    case Greater(l, r) => PrintOperand(l) + [Gt] + PrintOperand(r)
    case IsNull(l) => PrintOperand(l) + [IsKw, NullKw]
    case AnyOf(l, r) => PrintOperand(l) + [Eq, AnyKw, LParen] + PrintOperand(r) + [RParen]
    case Exists(table, cond) =>
      SubqueryHead(table) + PrintOr(cond) + [RParen]
    case Both(l, r) => [LParen] + (PrintAtom(l) + [AndKw] + PrintAnd(r)) + [RParen]
    case Either(l, r) => [LParen] + (PrintAnd(l) + [OrKw] + PrintOr(r)) + [RParen]
  }

  // ---- Parsing ----

  datatype Parsed<T> = Fail | Done(value: T, rest: seq<Token>)

  predicate Starts(s: seq<Token>, t: Token) {
    s != [] && s[0] == t
  }

  function ParseOperand(s: seq<Token>): (p: Parsed<Operand>)
    ensures p.Done? ==> |p.rest| < |s|
  {
    if s == [] then Fail
    else match s[0]
      case Name(name) => Done(Column(name), s[1..])
      case Param(pos) => Done(Placeholder(pos), s[1..])
      case Number(n) => Done(Int(n), s[1..])
      case Text(text) => Done(Str(text), s[1..])
      case LowerKw =>
        if !Starts(s[1..], LParen) then Fail
        else
          var of := ParseOperand(s[2..]);
          if of.Done? && Starts(of.rest, RParen) then Done(Lowered(of.value), of.rest[1..]) else Fail
      case _ => Fail
  }

  function ParseComparison(s: seq<Token>): (p: Parsed<Expr>)
    ensures p.Done? ==> |p.rest| < |s|
  {
    var l := ParseOperand(s);
    if l.Fail? then Fail
    else if Starts(l.rest, IsKw) && Starts(l.rest[1..], NullKw) then Done(IsNull(l.value), l.rest[2..])
    else if Starts(l.rest, Gt) then
      var r := ParseOperand(l.rest[1..]);
      if r.Done? then Done(Greater(l.value, r.value), r.rest) else Fail
    else if Starts(l.rest, Eq) && Starts(l.rest[1..], AnyKw) && Starts(l.rest[2..], LParen) then
      var r := ParseOperand(l.rest[3..]);
      if r.Done? && Starts(r.rest, RParen) then Done(AnyOf(l.value, r.value), r.rest[1..]) else Fail
    else if Starts(l.rest, Eq) then
      var r := ParseOperand(l.rest[1..]);
      if r.Done? then Done(Equals(l.value, r.value), r.rest) else Fail
    else Fail
  }

  function ParseOr(s: seq<Token>): (p: Parsed<Expr>)
    ensures p.Done? ==> |p.rest| < |s|
    decreases |s|, 2
  {
    var l := ParseAnd(s);
    if l.Done? && Starts(l.rest, OrKw) then
      var r := ParseOr(l.rest[1..]);
      if r.Done? then Done(Either(l.value, r.value), r.rest) else Fail
    else l
  }

  function ParseAnd(s: seq<Token>): (p: Parsed<Expr>)
    ensures p.Done? ==> |p.rest| < |s|
    decreases |s|, 1
  {
    var l := ParseAtom(s);
    if l.Done? && Starts(l.rest, AndKw) then
      var r := ParseAnd(l.rest[1..]);
      if r.Done? then Done(Both(l.value, r.value), r.rest) else Fail
    else l
  }

  predicate StartsSubquery(s: seq<Token>) {
    && |s| > 6 && s[0] == ExistsKw && s[1] == LParen && s[2] == SelectKw && s[3] == Number(1)
    && s[4] == FromKw && s[5].Name? && s[6] == WhereKw
  }

  function ParseAtom(s: seq<Token>): (p: Parsed<Expr>)
    ensures p.Done? ==> |p.rest| < |s|
    decreases |s|, 0
  {
    if Starts(s, LParen) then
      var e := ParseOr(s[1..]);
      if e.Done? && Starts(e.rest, RParen) then Done(e.value, e.rest[1..]) else Fail
    else if StartsSubquery(s) then
      var e := ParseOr(s[7..]);
      if e.Done? && Starts(e.rest, RParen) then Done(Exists(s[5].name, e.value), e.rest[1..]) else Fail
    else ParseComparison(s)
  }

  // ---- Reading back what was printed ----

  lemma ParseLowered(inner: seq<Token>, of: Operand, rest: seq<Token>)
    requires ParseOperand(inner) == Done(of, [RParen] + rest)
    ensures ParseOperand([LowerKw, LParen] + inner) == Done(Lowered(of), rest)
  {
    var s := [LowerKw, LParen] + inner;
    assert s[1..][0] == LParen && s[2..] == inner;
    assert ([RParen] + rest)[1..] == rest;
  }

  lemma {:induction false} ParsePrintOperand(o: Operand, rest: seq<Token>)
    ensures ParseOperand(PrintOperand(o) + rest) == Done(o, rest)
  {
    var s := PrintOperand(o) + rest;
    match o {
      case Lowered(of) =>
        var tail := [RParen] + rest;
        assert s == [LowerKw, LParen] + (PrintOperand(of) + tail);
        ParsePrintOperand(of, tail);
        ParseLowered(PrintOperand(of) + tail, of, rest);
      case _ => assert s[1..] == rest;
    }
  }

  lemma PrintedOperandStart(o: Operand, rest: seq<Token>)
    ensures
      var s := PrintOperand(o) + rest;
      && s != [] && s[0] != LParen && s[0] != ExistsKw && s[0] != AnyKw
  {
  }

  /** The four comparisons, from the point where their left operand has been read. */
  lemma ParseComparisonTails(s: seq<Token>, l: Operand, r: Operand, inner: seq<Token>, rest: seq<Token>)
    requires ParseOperand(inner) == Done(r, rest) && inner != [] && inner[0] != AnyKw
    ensures ParseOperand(s) == Done(l, [Eq] + inner) ==> ParseComparison(s) == Done(Equals(l, r), rest)
    ensures ParseOperand(s) == Done(l, [Gt] + inner) ==> ParseComparison(s) == Done(Greater(l, r), rest)
  {
    hide ParseOperand;
    assert ([Eq] + inner)[1..] == inner && ([Gt] + inner)[1..] == inner;
  }

  lemma ParseIsNullTail(s: seq<Token>, l: Operand, rest: seq<Token>)
    requires ParseOperand(s) == Done(l, [IsKw, NullKw] + rest)
    ensures ParseComparison(s) == Done(IsNull(l), rest)
  {
    hide ParseOperand;
    var tail := [IsKw, NullKw] + rest;
    assert tail[1..] == [NullKw] + rest && tail[2..] == rest;
  }

  lemma AnyOfTail(inner: seq<Token>)
    ensures
      var tail := [Eq, AnyKw, LParen] + inner;
      && tail[0] == Eq && tail[1..] == [AnyKw, LParen] + inner && tail[1..][0] == AnyKw
      && tail[2..] == [LParen] + inner && tail[2..][0] == LParen && tail[3..] == inner
  {
  }

  lemma ParseAnyOfTail(s: seq<Token>, l: Operand, r: Operand, inner: seq<Token>, rest: seq<Token>)
    requires ParseOperand(s) == Done(l, [Eq, AnyKw, LParen] + inner)
    requires ParseOperand(inner) == Done(r, [RParen] + rest)
    ensures ParseComparison(s) == Done(AnyOf(l, r), rest)
  {
    hide ParseOperand;
    AnyOfTail(inner);
    assert ([RParen] + rest)[1..] == rest;
  }

  lemma ParsePrintComparisonOnly(e: Expr, rest: seq<Token>)
    requires e.Equals? || e.Greater? || e.IsNull? || e.AnyOf?
    ensures ParseComparison(PrintAtom(e) + rest) == Done(e, rest)
  {
    hide ParseComparison, PrintOperand, ParseOperand;
    var s := PrintAtom(e) + rest;
    match e {
      case Equals(l, r) =>
        var inner := PrintOperand(r) + rest;
        assert s == PrintOperand(l) + ([Eq] + inner);
        ParsePrintOperand(l, [Eq] + inner);
        ParsePrintOperand(r, rest);
        PrintedOperandStart(r, rest);
        ParseComparisonTails(s, l, r, inner, rest);
      case Greater(l, r) =>
        var inner := PrintOperand(r) + rest;
        assert s == PrintOperand(l) + ([Gt] + inner);
        ParsePrintOperand(l, [Gt] + inner);
        ParsePrintOperand(r, rest);
        PrintedOperandStart(r, rest);
        ParseComparisonTails(s, l, r, inner, rest);
      case IsNull(l) =>
        assert s == PrintOperand(l) + ([IsKw, NullKw] + rest);
        ParsePrintOperand(l, [IsKw, NullKw] + rest);
        ParseIsNullTail(s, l, rest);
      case AnyOf(l, r) =>
        var inner := PrintOperand(r) + ([RParen] + rest);
        assert s == PrintOperand(l) + ([Eq, AnyKw, LParen] + inner);
        ParsePrintOperand(l, [Eq, AnyKw, LParen] + inner);
        ParsePrintOperand(r, [RParen] + rest);
        ParseAnyOfTail(s, l, r, inner, rest);
    }
  }

  lemma ParsePrintComparison(e: Expr, rest: seq<Token>)
    requires e.Equals? || e.Greater? || e.IsNull? || e.AnyOf?
    ensures ParseAtom(PrintAtom(e) + rest) == Done(e, rest)
  {
    hide ParseComparison, PrintOperand, PrintAtom;
    ComparisonStart(e, rest);
    ParsePrintComparisonOnly(e, rest);
  }

  lemma ComparisonStart(e: Expr, rest: seq<Token>)
    requires e.Equals? || e.Greater? || e.IsNull? || e.AnyOf?
    ensures
      var s := PrintAtom(e) + rest;
      s != [] && s[0] != LParen && s[0] != ExistsKw
  {
    PrintedOperandStart(e.left, []);
    assert PrintOperand(e.left) + [] == PrintOperand(e.left);
  }

  /** What stands between parentheses, or where none are needed. */
  lemma {:induction false} ParsePrintBoth(l: Expr, r: Expr, rest: seq<Token>)
    requires !Starts(rest, AndKw)
    ensures ParseAnd((PrintAtom(l) + [AndKw] + PrintAnd(r)) + rest) == Done(Both(l, r), rest)
    decreases Both(l, r), 0
  {
    hide ParseAtom, PrintAtom, PrintAnd;
    var more := [AndKw] + (PrintAnd(r) + rest);
    assert (PrintAtom(l) + [AndKw] + PrintAnd(r)) + rest == PrintAtom(l) + more;
    ParsePrintAtom(l, more);
    assert more[1..] == PrintAnd(r) + rest;
    ParsePrintAnd(r, rest);
  }

  lemma {:induction false} ParsePrintEither(l: Expr, r: Expr, rest: seq<Token>)
    requires !Starts(rest, AndKw) && !Starts(rest, OrKw)
    ensures ParseOr((PrintAnd(l) + [OrKw] + PrintOr(r)) + rest) == Done(Either(l, r), rest)
    decreases Either(l, r), 0
  {
    hide ParseAnd, PrintAnd, PrintOr;
    var more := [OrKw] + (PrintOr(r) + rest);
    assert (PrintAnd(l) + [OrKw] + PrintOr(r)) + rest == PrintAnd(l) + more;
    ParsePrintAnd(l, more);
    assert more[1..] == PrintOr(r) + rest;
    ParsePrintOr(r, rest);
  }

  lemma ParseParenthesised(inner: seq<Token>, e: Expr, rest: seq<Token>)
    requires ParseOr(inner + ([RParen] + rest)) == Done(e, [RParen] + rest)
    ensures ParseAtom([LParen] + inner + [RParen] + rest) == Done(e, rest)
  {
    var s := [LParen] + inner + [RParen] + rest;
    assert s[1..] == inner + ([RParen] + rest);
    assert ([RParen] + rest)[1..] == rest;
  }

  lemma SubqueryHeadIsRead(table: Ident, rest: seq<Token>)
    ensures
      var s := SubqueryHead(table) + rest;
      rest != [] ==> StartsSubquery(s) && !Starts(s, LParen) && s[5].name == table && s[7..] == rest
  {
  }

  lemma ParseSubquery(table: Ident, inner: seq<Token>, e: Expr, rest: seq<Token>)
    requires ParseOr(inner + ([RParen] + rest)) == Done(e, [RParen] + rest)
    ensures ParseAtom(SubqueryHead(table) + inner + [RParen] + rest) == Done(Exists(table, e), rest)
  {
    hide ParseComparison, SubqueryHead, StartsSubquery;
    var more := inner + ([RParen] + rest);
    assert SubqueryHead(table) + inner + [RParen] + rest == SubqueryHead(table) + more;
    SubqueryHeadIsRead(table, more);
    assert ([RParen] + rest)[1..] == rest;
  }

  lemma {:induction false} ParsePrintAtom(e: Expr, rest: seq<Token>)
    ensures ParseAtom(PrintAtom(e) + rest) == Done(e, rest)
    decreases e, 1
  {
    hide ParseComparison, ParseAtom, SubqueryHead;
    var tail := [RParen] + rest;
    match e {
      case Exists(table, cond) =>
        ParsePrintOr(cond, tail);
        ParseSubquery(table, PrintOr(cond), cond, rest);
      case Both(l, r) =>
        ParsePrintBoth(l, r, tail);
        ParseParenthesised(PrintAtom(l) + [AndKw] + PrintAnd(r), e, rest);
      case Either(l, r) =>
        ParsePrintEither(l, r, tail);
        ParseParenthesised(PrintAnd(l) + [OrKw] + PrintOr(r), e, rest);
      case _ => ParsePrintComparison(e, rest);
    }
  }

  lemma {:induction false} ParsePrintAnd(e: Expr, rest: seq<Token>)
    requires !Starts(rest, AndKw)
    ensures ParseAnd(PrintAnd(e) + rest) == Done(e, rest)
    decreases e, 2
  {
    if e.Both? {
      ParsePrintBoth(e.first, e.second, rest);
    } else {
      ParsePrintAtom(e, rest);
    }
  }

  /** Every condition, however nested, is read back as it was written. */
  lemma {:induction false} ParsePrintOr(e: Expr, rest: seq<Token>)
    requires !Starts(rest, AndKw) && !Starts(rest, OrKw)
    ensures ParseOr(PrintOr(e) + rest) == Done(e, rest)
    decreases e, 3
  {
    if e.Either? {
      ParsePrintEither(e.first, e.second, rest);
    } else {
      ParsePrintAnd(e, rest);
    }
  }

  // ---- Joining conditions with AND ----

  /** strings.Join(parts, " AND ") */
  function JoinAnd(parts: seq<seq<Token>>): seq<Token>
    requires parts != []
  {
    if |parts| == 1 then parts[0] else parts[0] + [AndKw] + JoinAnd(parts[1..])
  }

  function Conjunction(es: seq<Expr>): Expr
    requires es != []
  {
    if |es| == 1 then es[0] else Both(es[0], Conjunction(es[1..]))
  }

  ghost predicate Prints(parts: seq<seq<Token>>, es: seq<Expr>) {
    |parts| == |es| && forall i :: 0 <= i < |es| ==> parts[i] == PrintAtom(es[i])
  }

  /** Joining works because every part is closed: whatever it holds, it is read as one conjunct. */
  lemma {:induction false} ParseJoined(parts: seq<seq<Token>>, es: seq<Expr>, rest: seq<Token>)
    requires es != [] && Prints(parts, es)
    requires !Starts(rest, AndKw) && !Starts(rest, OrKw)
    ensures ParseAnd(JoinAnd(parts) + rest) == Done(Conjunction(es), rest)
    ensures ParseOr(JoinAnd(parts) + rest) == Done(Conjunction(es), rest)
  {
    hide ParseAtom, PrintAtom;
    if |es| == 1 {
      ParsePrintAtom(es[0], rest);
    } else {
      var more := [AndKw] + (JoinAnd(parts[1..]) + rest);
      assert JoinAnd(parts) + rest == PrintAtom(es[0]) + more;
      ParsePrintAtom(es[0], more);
      assert more[1..] == JoinAnd(parts[1..]) + rest;
      ParseJoined(parts[1..], es[1..], rest);
    }
  }

  // ---- Meaning ----

  datatype Value =
    | Null | IntV(n: int) | RealV(r: real) | BoolV(b: bool) | StrV(s: string) | TimeV(t: int)
    | StatusV(st: Status) | IntsV(ns: seq<int>)

  datatype Truth = True | False | Unknown

  type Columns = map<Ident, Value>

  /** The tables subqueries read, and the database's own lower(). */
  datatype Database = Database(tables: map<Ident, set<Columns>>, lower: string -> string)

  function Of(b: bool): Truth {
    if b then True else False
  }

  function And3(a: Truth, b: Truth): Truth {
    if a == False || b == False then False else if a == True && b == True then True else Unknown
  }

  function Or3(a: Truth, b: Truth): Truth {
    if a == True || b == True then True else if a == False && b == False then False else Unknown
  }

  function EvalOperand(o: Operand, env: Columns, args: seq<Value>, db: Database): Value {
    match o
    case Column(name) => if name in env then env[name] else Null
    case Placeholder(pos) => if 1 <= pos <= |args| then args[pos - 1] else Null
    case Int(n) => IntV(n)
    case Str(text) => StrV(text)
    case Lowered(of) =>
      var v := EvalOperand(of, env, args, db);
      if v.StrV? then StrV(db.lower(v.s)) else Null
  }

  function Compare(l: Value, r: Value): Truth {
    if l.Null? || r.Null? then Unknown else Of(l == r)
  }

  function CompareGreater(l: Value, r: Value): Truth {
    match (l, r)
    case (IntV(a), IntV(b)) => Of(a > b)
    case (RealV(a), RealV(b)) => Of(a > b)
    case (TimeV(a), TimeV(b)) => Of(a > b)
    case _ => Unknown
  }

  function CompareAny(l: Value, r: Value): Truth {
    if l.IntV? && r.IntsV? then Of(l.n in r.ns) else Unknown
  }

  /** Inside a subquery the inner table's columns hide the outer ones; qualified names still reach out. */
  function Eval(e: Expr, env: Columns, args: seq<Value>, db: Database): Truth {
    match e
    case Equals(l, r) => Compare(EvalOperand(l, env, args, db), EvalOperand(r, env, args, db))
    case Greater(l, r) => CompareGreater(EvalOperand(l, env, args, db), EvalOperand(r, env, args, db))
    case IsNull(l) => Of(EvalOperand(l, env, args, db).Null?)
    case AnyOf(l, r) => CompareAny(EvalOperand(l, env, args, db), EvalOperand(r, env, args, db))
    case Exists(table, cond) =>
      Of(table in db.tables && exists row :: row in db.tables[table] && Eval(cond, env + row, args, db) == True)
    case Both(l, r) => And3(Eval(l, env, args, db), Eval(r, env, args, db))
    case Either(l, r) => Or3(Eval(l, env, args, db), Eval(r, env, args, db))
  }

  /** False, Unknown, True, from the least to the greatest. */
  function Rank(t: Truth): int {
    match t
    case False => 0
    case Unknown => 1
    case True => 2
  }

  /** AND is the lesser of the two and OR the greater; comparing with NULL is Unknown, otherwise it is decided. */
  lemma ThreeValues(a: Truth, b: Truth, l: Value, r: Value)
    ensures Rank(And3(a, b)) == if Rank(a) <= Rank(b) then Rank(a) else Rank(b)
    ensures Rank(Or3(a, b)) == if Rank(a) <= Rank(b) then Rank(b) else Rank(a)
    ensures Compare(l, r) == Unknown <==> l == Null || r == Null
    ensures Compare(l, r) == True <==> l == r && l != Null
    ensures CompareGreater(l, r) == True ==> CompareGreater(r, l) == False && Compare(l, r) == False
    ensures CompareGreater(l, r) == False ==> CompareGreater(r, l) == True || Compare(l, r) == True
    ensures CompareGreater(l, r) == True <==>
      || (l.IntV? && r.IntV? && l.n > r.n) || (l.RealV? && r.RealV? && l.r > r.r)
      || (l.TimeV? && r.TimeV? && l.t > r.t)
  {
  }

  lemma {:induction false} EvalConjunction(es: seq<Expr>, env: Columns, args: seq<Value>, db: Database)
    requires es != []
    ensures Eval(Conjunction(es), env, args, db) == True
       <==> forall i :: 0 <= i < |es| ==> Eval(es[i], env, args, db) == True
  {
    if |es| > 1 {
      EvalConjunction(es[1..], env, args, db);
      assert forall i :: 0 < i < |es| ==> es[i] == es[1..][i - 1];
      assert forall i :: 0 <= i < |es| - 1 ==> es[1..][i] == es[i + 1];
    }
  }

  // ---- Templates and placeholders ----

  function Slots(s: seq<Token>): nat {
    if s == [] then 0 else (if s[0] == Slot then 1 else 0) + Slots(s[1..])
  }

  /** fmt.Sprintf(template, "$pos", "$pos+1", ...) */
  function Fill(template: seq<Token>, pos: nat): seq<Token> {
    if template == [] then []
    else if template[0] == Slot then [Param(pos)] + Fill(template[1..], pos + 1)
    else [template[0]] + Fill(template[1..], pos)
  }

  /** The placeholder numbers of a text, left to right. */
  function Placeholders(s: seq<Token>): seq<nat> {
    if s == [] then []
    else (if s[0].Param? then [s[0].pos] else []) + Placeholders(s[1..])
  }

  /** from, from + 1, ..., from + n - 1 */
  function Counting(from: nat, n: nat): seq<nat> {
    seq(n, i requires 0 <= i < n => from + i)
  }

  lemma NoTokens()
    ensures Placeholders([]) == []
  {
  }

  lemma FirstToken(t: Token, rest: seq<Token>)
    ensures Placeholders([t] + rest) == (if t.Param? then [t.pos] else []) + Placeholders(rest)
  {
    assert ([t] + rest)[1..] == rest;
  }

  lemma {:induction false} PlaceholdersConcat(a: seq<Token>, b: seq<Token>)
    ensures Placeholders(a + b) == Placeholders(a) + Placeholders(b)
  {
    hide Placeholders;
    if a == [] {
      NoTokens();
      assert a + b == b;
    } else {
      FirstToken(a[0], a[1..]);
      FirstToken(a[0], a[1..] + b);
      assert [a[0]] + a[1..] == a && [a[0]] + (a[1..] + b) == a + b;
      PlaceholdersConcat(a[1..], b);
    }
  }

  lemma CountingConcat(from: nat, m: nat, n: nat)
    ensures Counting(from, m) + Counting(from + m, n) == Counting(from, m + n)
  {
  }

  /** A template without placeholders of its own gets consecutive ones, one for each slot. */
  lemma {:induction false} FillCounts(template: seq<Token>, pos: nat)
    requires Placeholders(template) == []
    ensures Placeholders(Fill(template, pos)) == Counting(pos, Slots(template))
  {
    hide Placeholders;
    if template == [] {
      NoTokens();
    } else {
      var t, rest := template[0], template[1..];
      FirstToken(t, rest);
      assert [t] + rest == template;
      if t == Slot {
        FillCounts(rest, pos + 1);
        FirstToken(Param(pos), Fill(rest, pos + 1));
        CountingConcat(pos, 1, Slots(rest));
      } else {
        FillCounts(rest, pos);
        FirstToken(t, Fill(rest, pos));
      }
    }
  }
}
