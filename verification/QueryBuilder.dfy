/**
  The two builders that put a statement together piece by piece. Each piece is a template with
  `%s` slots; the builder numbers them on from the last placeholder it handed out and collects
  their arguments, so that placeholder `$k` always stands for the k-th argument.
*/
module QueryBuilder {
  import opened Sql

  /** strings.Join(parts, ", ") */
  function JoinComma(parts: seq<seq<Token>>): seq<Token> {
    if parts == [] then []
    else if |parts| == 1 then parts[0]
    else parts[0] + [Comma] + JoinComma(parts[1..])
  }

  /** The text of a WHERE clause made of these constraints. */
  function WhereText(where: seq<seq<Token>>): seq<Token> {
    if where == [] then [Number(1), Eq, Number(1)] else JoinAnd(where)
  }

  /** A template that can be filled: as many slots as arguments, and no placeholder of its own. */
  ghost predicate Matches(template: seq<Token>, args: seq<Value>) {
    Slots(template) == |args| && Placeholders(template) == []
  }

  lemma EmptyWhere()
    ensures Placeholders(WhereText([])) == []
  {
    var text := WhereText([]);
    assert text[1..] == [Eq, Number(1)] && text[1..][1..] == [Number(1)];
    assert Placeholders([Number(1)]) == [] && Placeholders([Eq, Number(1)]) == [];
  }

  lemma {:induction false} PlaceholdersJoinAnd(parts: seq<seq<Token>>, last: seq<Token>)
    ensures Placeholders(WhereText(parts + [last])) == Placeholders(WhereText(parts)) + Placeholders(last)
  {
    if parts == [] {
      EmptyWhere();
      assert parts + [last] == [last];
    } else {
      PlaceholdersJoinAndTail(parts, last);
    }
  }

  lemma {:induction false} PlaceholdersJoinAndTail(parts: seq<seq<Token>>, last: seq<Token>)
    requires parts != []
    ensures Placeholders(JoinAnd(parts + [last])) == Placeholders(JoinAnd(parts)) + Placeholders(last)
  {
    assert (parts + [last])[1..] == parts[1..] + [last];
    if |parts| == 1 {
      assert JoinAnd(parts + [last]) == parts[0] + [AndKw] + last;
      PlaceholdersOfJoin(parts[0], AndKw, last);
    } else {
      PlaceholdersJoinAndTail(parts[1..], last);
      assert JoinAnd(parts + [last]) == parts[0] + [AndKw] + JoinAnd(parts[1..] + [last]);
      PlaceholdersOfJoin(parts[0], AndKw, JoinAnd(parts[1..] + [last]));
      PlaceholdersOfJoin(parts[0], AndKw, JoinAnd(parts[1..]));
    }
  }

  lemma {:induction false} PlaceholdersJoinComma(parts: seq<seq<Token>>, last: seq<Token>)
    ensures Placeholders(JoinComma(parts + [last])) == Placeholders(JoinComma(parts)) + Placeholders(last)
  {
    if parts == [] {
      assert parts + [last] == [last];
    } else {
      assert (parts + [last])[1..] == parts[1..] + [last];
      PlaceholdersJoinComma(parts[1..], last);
      PlaceholdersOfJoin(parts[0], Comma, JoinComma(parts[1..] + [last]));
      if |parts| > 1 {
        PlaceholdersOfJoin(parts[0], Comma, JoinComma(parts[1..]));
      } else {
        assert parts[1..] + [last] == [last];
      }
    }
  }

  lemma PlaceholdersOfJoin(a: seq<Token>, sep: Token, b: seq<Token>)
    requires !sep.Param?
    ensures Placeholders(a + [sep] + b) == Placeholders(a) + Placeholders(b)
  {
    hide Placeholders;
    assert a + [sep] + b == a + ([sep] + b);
    PlaceholdersConcat(a, [sep] + b);
    FirstToken(sep, b);
  }

  class FilterBuilder {
    var prefix: seq<Token>
    var where: seq<seq<Token>>
    var args: seq<Value>
    var pos: nat

    /** The next placeholder is the one after the last argument. */
    ghost predicate Valid()
      reads this
    {
      pos == |args| + 1
    }

    /** The text so far uses $1..$n, each once and in order, for its n arguments. */
    ghost predicate Complete()
      reads this
    {
      Valid() && Placeholders(prefix) + Placeholders(WhereText(where)) == Counting(1, |args|)
    }

    constructor ()
      ensures prefix == [] && where == [] && args == [] && Complete()
    {
      prefix, where, args, pos := [], [], [], 1;
      new;
      EmptyWhere();
    }

    constructor WithPrefix(prefix: seq<Token>, args: seq<Value>, pos: nat)
      requires pos == |args| + 1
      ensures this.prefix == prefix && where == [] && this.args == args && this.pos == pos
      ensures Placeholders(prefix) == Counting(1, |args|) ==> Complete()
    {
      this.prefix, this.where, this.args, this.pos := prefix, [], args, pos;
      new;
      EmptyWhere();
    }

    method Where() returns (text: seq<Token>)
      ensures text == WhereText(where)
    {
      if |where| == 0 {
        return [Number(1), Eq, Number(1)];
      }
      text := JoinAnd(where);
    }

    /** A statement: what comes before, the keyword and the conditions. */
    method WithUpdate() returns (text: seq<Token>)
      ensures text == prefix + [WhereKw] + WhereText(where)
      ensures Complete() ==> Placeholders(text) == Counting(1, |args|)
    {
      var conditions := Where();
      text := prefix + [WhereKw] + conditions;
      PlaceholdersOfJoin(prefix, WhereKw, conditions);
    }

    /** Appends one condition, numbering its slots on from the last argument. */
    method AddConstraint(template: seq<Token>, more: seq<Value>)
      requires Valid() && Matches(template, more)
      modifies this
      ensures Valid() && prefix == old(prefix) && args == old(args) + more
      ensures where == old(where) + [Fill(template, old(pos))]
      ensures old(Complete()) ==> Complete()
    {
      hide Fill, Slots, Placeholders, WhereText, Counting;
      FillCounts(template, pos);
      PlaceholdersJoinAnd(where, Fill(template, pos));
      CountingConcat(1, |args|, |more|);
      if |more| == 0 {
        FillNothing(template, pos);
        where := where + [template];
        return;
      }
      where := where + [Fill(template, pos)];
      args := args + more;
      pos := pos + |more|;
    }

    /** Fills a template that goes into the statement after the conditions, such as its LIMIT. */
    method FormatString(template: seq<Token>, more: seq<Value>) returns (text: seq<Token>)
      requires Valid() && Matches(template, more)
      modifies this`args, this`pos
      ensures Valid() && args == old(args) + more && text == Fill(template, old(pos))
      ensures Placeholders(text) == Counting(old(|args|) + 1, |more|)
      ensures old(Complete()) ==>
        Placeholders(prefix) + Placeholders(WhereText(where)) + Placeholders(text) == Counting(1, |args|)
    {
      hide Fill, Slots, Placeholders, WhereText, Counting;
      FillCounts(template, pos);
      CountingConcat(1, |args|, |more|);
      if |more| == 0 {
        FillNothing(template, pos);
        return template;
      }
      text := Fill(template, pos);
      args := args + more;
      pos := pos + |more|;
    }
  }

  lemma {:induction false} FillNothing(template: seq<Token>, pos: nat)
    requires Slots(template) == 0
    ensures Fill(template, pos) == template
  {
    if template != [] {
      FillNothing(template[1..], pos);
    }
  }

  class UpdateBuilder {
    var toUpd: seq<seq<Token>>
    var args: seq<Value>
    var pos: nat

    ghost predicate Complete()
      reads this
    {
      pos == |args| + 1 && Placeholders(JoinComma(toUpd)) == Counting(1, |args|)
    }

    constructor ()
      ensures toUpd == [] && args == [] && Complete()
    {
      toUpd, args, pos := [], [], 1;
    }

    method ToUpdate() returns (text: seq<Token>)
      ensures text == JoinComma(toUpd)
    {
      if |toUpd| == 0 {
        return [];
      }
      text := JoinComma(toUpd);
    }

    /** There is nothing to update: kilonova.ErrNoUpdates. */
    predicate CheckUpdates()
      reads this
    {
      |toUpd| == 0
    }

    method AddUpdate(template: seq<Token>, more: seq<Value>)
      requires Complete() && Matches(template, more)
      modifies this
      ensures Complete() && args == old(args) + more
      ensures toUpd == old(toUpd) + [Fill(template, old(pos))]
    {
      hide Fill, Slots, Placeholders, JoinComma, Counting;
      FillCounts(template, pos);
      PlaceholdersJoinComma(toUpd, Fill(template, pos));
      CountingConcat(1, |args|, |more|);
      if |more| == 0 {
        FillNothing(template, pos);
        toUpd := toUpd + [template];
        return;
      }
      toUpd := toUpd + [Fill(template, pos)];
      args := args + more;
      pos := pos + |more|;
    }

    /** The conditions of the statement are numbered on from its updates. */
    method MakeFilter() returns (fb: FilterBuilder)
      requires Complete()
      ensures fresh(fb) && fb.Complete()
      ensures fb.prefix == JoinComma(toUpd) && fb.where == [] && fb.args == args && fb.pos == pos
    {
      var text := ToUpdate();
      fb := new FilterBuilder.WithPrefix(text, args, pos);
    }
  }
}
